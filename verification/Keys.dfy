/** The encoding of table keys into storage-engine keys: a four-byte header holding the
    version, one byte for the kind of the key, then the key itself. */
module Keys {
  import opened ByteStrings

  const V1: byte := 1
  const TYPE_UNKNOWN: byte := 0
  const TYPE_USER: byte := 1
  const TYPE_SYSTEM: byte := 2
  const HEADER_LEN := 4
  const V1_KEY_LEN := 1024
  const V1_BODY_LEN := V1_KEY_LEN - HEADER_LEN

  datatype Key = Key(kind: byte, key: Bytes)

  function Encode(kind: byte, key: Bytes): (e: Bytes)
  {
    [V1, 0, 0, 0, kind] + key
  }

  function EncodeUser(key: Bytes): (e: Bytes)
  {
    Encode(TYPE_USER, key)
  }

  /** "index" and "leader_index" in ASCII. */
  const LOCAL_INDEX_KEY: Bytes := Encode(TYPE_SYSTEM, [105, 110, 100, 101, 120])
  const LEADER_INDEX_KEY: Bytes :=
    Encode(TYPE_SYSTEM, [108, 101, 97, 100, 101, 114, 95, 105, 110, 100, 101, 120])

  const WILDCARD: Bytes := [0]

  predicate IsSystem(e: Bytes)
  {
    e == LOCAL_INDEX_KEY || e == LEADER_INDEX_KEY
  }

  predicate IsUser(e: Bytes)
  {
    |e| >= 5 && e[..5] == [V1, 0, 0, 0, TYPE_USER]
  }

  lemma UserKeyForm(e: Bytes)
    requires IsUser(e)
    ensures EncodeUser(e[5..]) == e
  {
    assert e == e[..5] + e[5..];
  }

  lemma EncodeUserForm(k: Bytes)
    ensures IsUser(EncodeUser(k)) && EncodeUser(k)[5..] == k
    ensures !IsSystem(EncodeUser(k))
  {
    var e := EncodeUser(k);
    assert e[..5] == [V1, 0, 0, 0, TYPE_USER];
    assert e[4] == TYPE_USER && LOCAL_INDEX_KEY[4] == TYPE_SYSTEM && LEADER_INDEX_KEY[4] == TYPE_SYSTEM;
  }

  lemma EncodeUserInjective(a: Bytes, b: Bytes)
    ensures EncodeUser(a) == EncodeUser(b) <==> a == b
  {
    EncodeUserForm(a);
    EncodeUserForm(b);
  }

  /** The decoding the iterators use. A key with an empty body comes back with an unknown
      kind and no key. */
  function DecodeBytes(raw: Bytes): (k: Option<Key>)
  {
    if |raw| < HEADER_LEN then None
    else if raw[0] == V1 then
      if |raw| - HEADER_LEN > 1 then Some(Key(raw[4], raw[5..])) else Some(Key(TYPE_UNKNOWN, []))
    else None
  }

  /** Decoding returns the key that was encoded, and its kind exactly when it is not empty. */
  lemma DecodeBytesEncode(kind: byte, key: Bytes)
    ensures DecodeBytes(Encode(kind, key)).Some?
    ensures DecodeBytes(Encode(kind, key)).value.key == key
    ensures DecodeBytes(Encode(kind, key)).value.kind == kind <==> key != [] || kind == TYPE_UNKNOWN
  {
    assert Encode(kind, key)[5..] == key;
  }

  /** The streaming decoder: it checks the header's padding and reads at most
      `V1_BODY_LEN` bytes behind the header. */
  function DecodeStream(raw: Bytes): (k: Option<Key>)
  {
    if |raw| < HEADER_LEN || raw[1] != 0 || raw[2] != 0 || raw[3] != 0 || raw[0] != V1 then None
    else
      var body := if |raw| - HEADER_LEN > V1_BODY_LEN then raw[HEADER_LEN..HEADER_LEN + V1_BODY_LEN]
                  else raw[HEADER_LEN..];
      if |body| < 1 then None else Some(Key(body[0], body[1..]))
  }

  /** The streaming decoder inverts the encoder exactly on keys of up to 1019 bytes; a
      table accepts keys of up to 1024. */
  lemma DecodeStreamEncode(kind: byte, key: Bytes)
    ensures DecodeStream(Encode(kind, key)) == Some(Key(kind, key)) <==> |key| <= V1_BODY_LEN - 1
  {
    var raw := Encode(kind, key);
    assert raw[HEADER_LEN..] == [kind] + key;
    if |key| > V1_BODY_LEN - 1 {
      assert |DecodeStream(raw).value.key| == V1_BODY_LEN - 1;
    } else {
      assert raw[HEADER_LEN..][1..] == key;
    }
  }

  /** A key of 1020 bytes, which a table accepts, comes back without its last byte. */
  lemma LongKeyCut()
    ensures var key := Zeros(V1_BODY_LEN);
            |key| == 1020 && DecodeStream(Encode(TYPE_USER, key)) == Some(Key(TYPE_USER, key[..1019]))
  {
    var key := Zeros(V1_BODY_LEN);
    var raw := Encode(TYPE_USER, key);
    assert raw[HEADER_LEN..HEADER_LEN + V1_BODY_LEN] == [TYPE_USER] + key[..1019];
  }

  // ---------- the byte increment ----------

  function BigEndian(s: Bytes): (n: nat)
  {
    if s == [] then 0 else 256 * BigEndian(s[..|s| - 1]) + s[|s| - 1]
  }

  /** Add one with carry, growing by one byte when every byte overflows. */
  function Increment(s: Bytes): (r: Bytes)
  {
    if s == [] then []
    else if s[|s| - 1] < 255 then s[..|s| - 1] + [s[|s| - 1] + 1]
    else if |s| == 1 then [1, 0]
    else Increment(s[..|s| - 1]) + [0]
  }

  lemma {:induction false} BigEndianAppend(s: Bytes, b: byte)
    ensures BigEndian(s + [b]) == 256 * BigEndian(s) + b
  {
    assert (s + [b])[..|s|] == s;
  }

  /** Read as a big-endian number, the result is one more. */
  lemma {:induction false} IncrementAddsOne(s: Bytes)
    requires s != []
    ensures BigEndian(Increment(s)) == BigEndian(s) + 1
  {
    var front, last := s[..|s| - 1], s[|s| - 1];
    if last < 255 {
      BigEndianAppend(front, last + 1);
    } else if |s| == 1 {
      BigEndianAppend([], 1);
      BigEndianAppend([1], 0);
      assert [] + [1] == [1] && [1] + [0] == [1, 0] && front == [];
    } else {
      IncrementAddsOne(front);
      BigEndianAppend(Increment(front), 0);
    }
  }

  function Fill(n: nat, b: byte): (z: Bytes)
    ensures |z| == n && forall i :: 0 <= i < n ==> z[i] == b
  {
    seq(n, i => b)
  }

  function Zeros(n: nat): (z: Bytes)
    ensures |z| == n && forall i :: 0 <= i < n ==> z[i] == 0
  {
    Fill(n, 0)
  }

  lemma {:induction false} IncrementSplit(s: Bytes, i: nat)
    requires i <= |s| && i > 0
    requires forall j :: i <= j < |s| ==> s[j] == 255
    ensures Increment(s) == Increment(s[..i]) + Zeros(|s| - i)
  {
    if i == |s| {
      assert s[..i] == s && Zeros(0) == [];
    } else {
      var last := |s| - 1;
      IncrementSplit(s[..last], i);
      assert s[..last][..i] == s[..i];
      assert Zeros(|s| - i) == Zeros(last - i) + [0];
    }
  }

  method PrependByte(x: array<byte>, y: byte) returns (r: array<byte>)
    ensures fresh(r) && r[..] == [y] + x[..]
  {
    r := new byte[x.Length + 1];
    forall i | 0 <= i < x.Length { r[i + 1] := x[i]; }
    r[0] := y;
  }

  /** The in-place increment with carry. */
  method IncrementRightmostByte(a: array<byte>) returns (r: array<byte>)
    modifies a
    ensures r == a || fresh(r)
    ensures r[..] == Increment(old(a[..]))
  {
    ghost var s := a[..];
    var i := a.Length - 1;
    while i >= 0
      invariant -1 <= i < a.Length
      invariant i == -1 ==> a.Length == 0
      invariant forall j :: 0 <= j <= i ==> a[j] == s[j]
      invariant forall j :: i < j < a.Length ==> a[j] == 0 && s[j] == 255
    {
      a[i] := if a[i] == 255 then 0 else a[i] + 1;
      if a[i] != 0 {
        IncrementSplit(s, i + 1);
        assert s[..i + 1][..i] == s[..i];
        assert a[..] == Increment(s[..i + 1]) + Zeros(|s| - (i + 1));
        return a;
      }
      if i == 0 {
        IncrementSplit(s, 1);
        assert s[..1] == [255];
        assert a[..] == Zeros(|s|);
        r := PrependByte(a, 1);
        assert r[..] == [1, 0] + Zeros(|s| - 1);
        return;
      }
      i := i - 1;
    }
    r := a;
  }

  // ---------- bounds ----------

  const MAX_USER_KEY: Bytes := Encode(TYPE_USER, Fill(V1_BODY_LEN - 1, 255))

  function LowerBound(low: Bytes): (b: Bytes)
  {
    EncodeUser(low)
  }

  function UpperBound(high: Bytes): (b: Bytes)
  {
    if high == WILDCARD then Increment(MAX_USER_KEY) else EncodeUser(high)
  }

  predicate Within(e: Bytes, lower: Bytes, upper: Bytes)
  {
    !Less(e, lower) && Less(e, upper)
  }

  /** The range of user keys a request means: [low, high), or everything from `low` on. */
  predicate InRange(k: Bytes, low: Bytes, high: Bytes)
  {
    !Less(k, low) && (high == WILDCARD || Less(k, high))
  }

  /** The end `[0]` stands for no end at all, every other end is one. */
  lemma WildcardIsEnd(k: Bytes, low: Bytes, high: Bytes)
    ensures InRange(k, low, [0]) <==> !Less(k, low)
    ensures high != [0] ==> (InRange(k, low, high) <==> !Less(k, low) && Less(k, high))
  {
  }

  lemma WildcardBound()
    ensures UpperBound(WILDCARD) == Encode(TYPE_SYSTEM, Zeros(V1_BODY_LEN - 1))
  {
    IncrementSplit(MAX_USER_KEY, 5);
    assert MAX_USER_KEY[..5] == [V1, 0, 0, 0, TYPE_USER];
    assert MAX_USER_KEY[..5][..4] == [V1, 0, 0, 0];
    assert Increment(MAX_USER_KEY[..5]) == [V1, 0, 0, 0, TYPE_SYSTEM];
  }

  lemma EncodingKeepsOrder(kind: byte, a: Bytes, b: Bytes)
    ensures Less(Encode(kind, a), Encode(kind, b)) <==> Less(a, b)
  {
    LessAfterPrefix([V1, 0, 0, 0, kind], a, b);
  }

  lemma UserBelowSystem(a: Bytes, b: Bytes)
    ensures Less(EncodeUser(a), Encode(TYPE_SYSTEM, b))
  {
    var p: Bytes := [V1, 0, 0, 0];
    LessAfterPrefix(p, [TYPE_USER] + a, [TYPE_SYSTEM] + b);
    assert EncodeUser(a) == p + ([TYPE_USER] + a) && Encode(TYPE_SYSTEM, b) == p + ([TYPE_SYSTEM] + b);
  }

  /** Whatever the bounds of a request are, the encoded bounds select exactly the user keys
      the request means and never an index record. */
  lemma BoundsExact(k: Bytes, low: Bytes, high: Bytes)
    ensures Within(EncodeUser(k), LowerBound(low), UpperBound(high)) <==> InRange(k, low, high)
  {
    EncodingKeepsOrder(TYPE_USER, k, low);
    EncodingKeepsOrder(TYPE_USER, k, high);
    if high == WILDCARD {
      WildcardBound();
      UserBelowSystem(k, Zeros(V1_BODY_LEN - 1));
    }
  }

  lemma BoundsExcludeSystem(e: Bytes, low: Bytes, high: Bytes)
    requires IsSystem(e)
    ensures !Within(e, LowerBound(low), UpperBound(high))
  {
    var name := e[5..];
    assert e == Encode(TYPE_SYSTEM, name);
    if high == WILDCARD {
      WildcardBound();
      EncodingKeepsOrder(TYPE_SYSTEM, Zeros(V1_BODY_LEN - 1), name);
      assert Less(Zeros(V1_BODY_LEN - 1), name);
      LessTotal(e, UpperBound(high));
    } else {
      UserBelowSystem(high, name);
      LessTotal(e, EncodeUser(high));
    }
  }

  /** The iterator bounds of a range request. */
  method IterOptionsForBounds(low: Bytes, high: Bytes) returns (lower: Bytes, upper: Bytes)
    ensures lower == LowerBound(low) && upper == UpperBound(high)
    ensures forall k :: Within(EncodeUser(k), lower, upper) <==> InRange(k, low, high)
    ensures forall e :: IsSystem(e) ==> !Within(e, lower, upper)
  {
    lower := EncodeUser(low);
    if high == WILDCARD {
      var end := new byte[|MAX_USER_KEY|](i requires 0 <= i < |MAX_USER_KEY| => MAX_USER_KEY[i]);
      assert end[..] == MAX_USER_KEY;
      end := IncrementRightmostByte(end);
      upper := end[..];
    } else {
      upper := EncodeUser(high);
    }
    forall k ensures Within(EncodeUser(k), lower, upper) <==> InRange(k, low, high) {
      BoundsExact(k, low, high);
    }
    forall e | IsSystem(e) ensures !Within(e, lower, upper) {
      BoundsExcludeSystem(e, low, high);
    }
  }
}
