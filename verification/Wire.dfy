/** The field layer of the wire format: a message is a run of tagged fields. */
module Wire {
  import opened ByteStrings
  import Varint

  const TWO_63: int := 0x8000_0000_0000_0000
  const TWO_32: int := 0x1_0000_0000
  const TWO_31: int := 0x8000_0000

  /** A field of a message. Fixed-width fields and groups carry nothing: no message of this
      model has one, so they are only ever skipped. */
  datatype Field =
    | Number(num: nat, v: uint64)
    | Chunk(num: nat, data: Bytes)
    | Skipped(num: nat)

  function ToInt32(v: nat): (x: int32)
  {
    var w := v % TWO_32;
    if w >= TWO_31 then w - TWO_32 else w
  }

  function ToInt64(v: uint64): (x: int64)
  {
    if v >= TWO_63 then v - Varint.TWO_64 else v
  }

  function ToUint64(x: int64): (v: uint64)
  {
    if x < 0 then x + Varint.TWO_64 else x
  }

  lemma SignedRoundTrip(x: int64)
    ensures ToInt64(ToUint64(x)) == x
    ensures -TWO_31 <= x < TWO_31 ==> ToInt32(ToUint64(x)) == x
  {
  }

  // ---------- encoding ----------

  function Tag(num: nat, wireType: nat): (t: Bytes)
  {
    Varint.Encode(num * 8 + wireType)
  }

  function EncodeField(f: Field): (s: Bytes)
  {
    match f
    case Number(num, v) => Tag(num, 0) + Varint.Encode(v)
    case Chunk(num, data) => Tag(num, 2) + Varint.Encode(|data|) + data
    case Skipped(_) => []
  }

  function EncodeFields(fs: seq<Field>): (s: Bytes)
  {
    if fs == [] then [] else EncodeField(fs[0]) + EncodeFields(fs[1..])
  }

  // ---------- parsing ----------

  /** The end of a length-delimited body whose length is read at `i`. */
  function ParseLength(s: Bytes, i: nat): (r: Option<Varint.Parsed<nat>>)
    ensures r.Some? ==> i < r.value.value <= r.value.next <= |s|
  {
    match Varint.Decode(s, i)
    case None => None
    case Some(p) =>
      if p.value >= TWO_63 || p.next + p.value >= TWO_63 || p.next + p.value > |s| then None
      else Some(Varint.Parsed(p.next, p.next + p.value))
  }

  /** Skip tagged values from `i` until `depth` groups are closed. */
  function SkipGroups(s: Bytes, i: nat, depth: nat): (r: Option<nat>)
    requires depth > 0
    ensures r.Some? ==> i < r.value <= |s|
    decreases |s| - i
  {
    match Varint.Decode(s, i)
    case None => None
    case Some(tag) =>
      var kind := tag.value % 8;
      var next := SkipValue(s, tag.next, kind);
      if kind == 3 then SkipGroups(s, tag.next, depth + 1)
      else if kind == 4 then if depth == 1 then Some(tag.next) else SkipGroups(s, tag.next, depth - 1)
      else if next.None? then None
      else SkipGroups(s, next.value, depth)
  }

  /** Skip one value that is not a group. */
  function SkipValue(s: Bytes, i: nat, kind: nat): (r: Option<nat>)
    ensures r.Some? ==> i < r.value <= |s|
  {
    if kind == 0 then match Varint.Decode(s, i) case None => None case Some(p) => Some(p.next)
    else if kind == 1 then if i + 8 <= |s| then Some(i + 8) else None
    else if kind == 2 then match ParseLength(s, i) case None => None case Some(p) => Some(p.next)
    else if kind == 5 then if i + 4 <= |s| then Some(i + 4) else None
    else None
  }

  /** Read one field at `i`. */
  function ParseField(s: Bytes, i: nat): (r: Option<Varint.Parsed<Field>>)
    ensures r.Some? ==> i < r.value.next <= |s|
    ensures r.Some? && r.value.value.Chunk? ==> |r.value.value.data| < |s| - i
  {
    match Varint.Decode(s, i)
    case None => None
    case Some(tag) =>
      var num, kind := ToInt32(tag.value / 8), tag.value % 8;
      if kind == 4 || num <= 0 then None
      else if kind == 0 then
        match Varint.Decode(s, tag.next)
        case None => None
        case Some(p) => Some(Varint.Parsed(Number(num, p.value), p.next))
      else if kind == 2 then
        match ParseLength(s, tag.next)
        case None => None
        case Some(p) => Some(Varint.Parsed(Chunk(num, s[p.value..p.next]), p.next))
      else
        var next := if kind == 3 then SkipGroups(s, tag.next, 1) else SkipValue(s, tag.next, kind);
        match next
        case None => None
        case Some(n) => Some(Varint.Parsed(Skipped(num), n))
  }

  /** All fields from `i` to the end of the message. */
  function ParseFrom(s: Bytes, i: nat): (r: Option<seq<Field>>)
    requires i <= |s|
    ensures r.Some? ==> forall f :: f in r.value && f.Chunk? ==> |f.data| < |s| - i
    decreases |s| - i
  {
    if i == |s| then Some([])
    else
      match ParseField(s, i)
      case None => None
      case Some(p) =>
        match ParseFrom(s, p.next)
        case None => None
        case Some(rest) => Some([p.value] + rest)
  }

  // ---------- round trip ----------

  predicate Encodable(f: Field)
  {
    !f.Skipped? && 1 <= f.num < 0x1000_0000 && (f.Chunk? ==> |f.data| < TWO_63)
  }

  lemma TagRoundTrip(pre: Bytes, num: nat, kind: nat, post: Bytes)
    requires 1 <= num < 0x1000_0000 && kind < 8
    ensures Varint.Decode(pre + Tag(num, kind) + post, |pre|) ==
            Some(Varint.Parsed(num * 8 + kind, |pre + Tag(num, kind)|))
    ensures ToInt32((num * 8 + kind) / 8) == num && (num * 8 + kind) % 8 == kind
    ensures Tag(num, kind) != []
  {
    hide Varint.Encode, Varint.Decode;
    Varint.RoundTrip(pre, num * 8 + kind, post);
  }

  lemma ParseEncodedNumber(pre: Bytes, num: nat, v: uint64, post: Bytes)
    requires 1 <= num < 0x1000_0000
    ensures ParseField(pre + Tag(num, 0) + Varint.Encode(v) + post, |pre|) ==
            Some(Varint.Parsed(Number(num, v), |pre + Tag(num, 0) + Varint.Encode(v)|))
  {
    hide Tag, Varint.Encode, Varint.Decode, SkipGroups, SkipValue, ParseLength;
    var tag, body := Tag(num, 0), Varint.Encode(v);
    var s := pre + tag + body + post;
    TagRoundTrip(pre, num, 0, body + post);
    assert s == pre + tag + (body + post);
    Varint.RoundTrip(pre + tag, v, post);
  }

  lemma ParseEncodedLength(pre: Bytes, data: Bytes, post: Bytes)
    requires |pre + Varint.Encode(|data|) + data + post| < TWO_63
    ensures ParseLength(pre + Varint.Encode(|data|) + data + post, |pre|) ==
            Some(Varint.Parsed(|pre + Varint.Encode(|data|)|, |pre + Varint.Encode(|data|) + data|))
  {
    hide Varint.Encode, Varint.Decode;
    var len := Varint.Encode(|data|);
    Varint.RoundTrip(pre, |data|, data + post);
    assert pre + len + data + post == pre + len + (data + post);
  }

  lemma ParseEncodedChunk(pre: Bytes, num: nat, data: Bytes, post: Bytes)
    requires 1 <= num < 0x1000_0000
    requires |pre + Tag(num, 2) + Varint.Encode(|data|) + data + post| < TWO_63
    ensures ParseField(pre + Tag(num, 2) + Varint.Encode(|data|) + data + post, |pre|) ==
            Some(Varint.Parsed(Chunk(num, data), |pre + Tag(num, 2) + Varint.Encode(|data|) + data|))
  {
    hide Tag, Varint.Encode, Varint.Decode, SkipGroups, SkipValue, ParseLength;
    var tag, len := Tag(num, 2), Varint.Encode(|data|);
    var s := pre + tag + len + data + post;
    TagRoundTrip(pre, num, 2, len + data + post);
    assert s == pre + tag + (len + data + post);
    ParseEncodedLength(pre + tag, data, post);
    assert s[|pre + tag + len|..|pre + tag + len + data|] == data;
  }

  lemma ParseEncodedField(pre: Bytes, f: Field, post: Bytes)
    requires Encodable(f) && |pre + EncodeField(f) + post| < TWO_63
    ensures ParseField(pre + EncodeField(f) + post, |pre|) == Some(Varint.Parsed(f, |pre + EncodeField(f)|))
  {
    hide ParseField, Tag, Varint.Encode;
    match f
    case Number(num, v) =>
      assert pre + EncodeField(f) + post == pre + Tag(num, 0) + Varint.Encode(v) + post;
      assert pre + EncodeField(f) == pre + Tag(num, 0) + Varint.Encode(v);
      ParseEncodedNumber(pre, num, v, post);
    case Chunk(num, data) =>
      var e := Tag(num, 2) + Varint.Encode(|data|) + data;
      assert pre + e + post == pre + Tag(num, 2) + Varint.Encode(|data|) + data + post;
      assert pre + e == pre + Tag(num, 2) + Varint.Encode(|data|) + data;
      ParseEncodedChunk(pre, num, data, post);
  }

  lemma {:induction false} ParseEncodedFields(pre: Bytes, fs: seq<Field>)
    requires forall f :: f in fs ==> Encodable(f)
    requires |pre + EncodeFields(fs)| < TWO_63
    ensures ParseFrom(pre + EncodeFields(fs), |pre|) == Some(fs)
    decreases |fs|
  {
    hide ParseField, EncodeField;
    var s := pre + EncodeFields(fs);
    if fs != [] {
      var e := EncodeField(fs[0]);
      assert s == pre + e + EncodeFields(fs[1..]);
      ParseEncodedField(pre, fs[0], EncodeFields(fs[1..]));
      assert s == (pre + e) + EncodeFields(fs[1..]);
      ParseEncodedFields(pre + e, fs[1..]);
      assert fs == [fs[0]] + fs[1..];
    }
  }

  /** A message that was written as fields parses back into the same fields. */
  lemma ParseEncode(fs: seq<Field>)
    requires forall f :: f in fs ==> Encodable(f)
    requires |EncodeFields(fs)| < TWO_63
    ensures ParseFrom(EncodeFields(fs), 0) == Some(fs)
  {
    assert [] + EncodeFields(fs) == EncodeFields(fs);
    ParseEncodedFields([], fs);
  }
}
