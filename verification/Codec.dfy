/** The generated wire codec of the log messages: sizes, encoders, decoders. */
module Codec {
  import opened ByteStrings
  import opened Messages
  import opened Wire
  import Varint

  // ---------- field lists ----------

  function Opt(present: bool, f: Field): (fs: seq<Field>)
  {
    if present then [f] else []
  }

  /** A repeated message field. */
  function Repeated(num: nat, bodies: seq<Bytes>): (fs: seq<Field>)
  {
    if bodies == [] then [] else [Chunk(num, bodies[0])] + Repeated(num, bodies[1..])
  }

  function Flag(num: nat, b: bool): (fs: seq<Field>)
  {
    Opt(b, Number(num, 1))
  }

  function Blob(num: nat, data: Bytes): (fs: seq<Field>)
  {
    Opt(data != [], Chunk(num, data))
  }

  function Signed(num: nat, x: int64): (fs: seq<Field>)
  {
    Opt(x != 0, Number(num, ToUint64(x)))
  }

  function BlobOption(num: nat, data: Option<Bytes>): (fs: seq<Field>)
  {
    Opt(data.Some?, Chunk(num, if data.Some? then data.value else []))
  }

  function OrEmpty(data: Option<Bytes>): (b: Bytes)
  {
    if data.Some? then data.value else []
  }

  /** Fold a step over fields, failing when a step fails. */
  function Fold<A>(step: (A, Field) -> Option<A>, acc: A, fs: seq<Field>): (r: Option<A>)
  {
    if fs == [] then Some(acc)
    else
      match step(acc, fs[0])
      case None => None
      case Some(next) => Fold(step, next, fs[1..])
  }

  function Decode<A>(step: (A, Field) -> Option<A>, acc: A, s: Bytes): (r: Option<A>)
  {
    match ParseFrom(s, 0)
    case None => None
    case Some(fs) => Fold(step, acc, fs)
  }

  lemma {:induction false} FoldConcat<A>(step: (A, Field) -> Option<A>, acc: A, a: seq<Field>, b: seq<Field>)
    ensures Fold(step, acc, a + b) ==
            match Fold(step, acc, a) case None => None case Some(next) => Fold(step, next, b)
  {
    if a == [] {
      assert a + b == b;
    } else {
      assert (a + b)[1..] == a[1..] + b;
      var next := step(acc, a[0]);
      if next.Some? { FoldConcat(step, next.value, a[1..], b); }
    }
  }

  lemma FoldOpt<A>(step: (A, Field) -> Option<A>, acc: A, present: bool, f: Field, rest: seq<Field>)
    ensures Fold(step, acc, Opt(present, f) + rest) ==
            if !present then Fold(step, acc, rest)
            else match step(acc, f) case None => None case Some(next) => Fold(step, next, rest)
  {
    if present {
      assert (Opt(present, f) + rest)[1..] == rest;
    } else {
      assert Opt(present, f) + rest == rest;
    }
  }

  lemma FoldCons<A>(step: (A, Field) -> Option<A>, acc: A, f: Field, rest: seq<Field>)
    ensures Fold(step, acc, [f] + rest) ==
            match step(acc, f) case None => None case Some(next) => Fold(step, next, rest)
  {
    assert ([f] + rest)[1..] == rest;
  }

  lemma FoldDone<A>(step: (A, Field) -> Option<A>, acc: A)
    ensures Fold(step, acc, []) == Some(acc)
  {
  }

  // ---------- sizes of fields ----------

  function ChunkSize(length: nat): (n: nat)
  {
    1 + length + Varint.Sov(length)
  }

  function BlobSize(data: Bytes): (n: nat)
  {
    if data == [] then 0 else ChunkSize(|data|)
  }

  function SignedSize(x: int64): (n: nat)
  {
    if x == 0 then 0 else 1 + Varint.Sov(ToUint64(x))
  }

  function FlagSize(b: bool): (n: nat)
  {
    if b then 2 else 0
  }

  /** The encoded length of a field whose number takes one byte of tag. */
  lemma FieldSize(f: Field)
    requires !f.Skipped? && 1 <= f.num < 16
    ensures f.Number? ==> |EncodeField(f)| == 1 + Varint.Sov(f.v)
    ensures f.Chunk? ==> |EncodeField(f)| == ChunkSize(|f.data|)
  {
    hide Varint.Sov;
    match f
    case Number(num, v) => Varint.EncodeLength(v);
    case Chunk(num, data) => Varint.EncodeLength(|data|);
  }

  lemma OptSize(present: bool, f: Field, rest: seq<Field>)
    ensures |EncodeFields(Opt(present, f) + rest)| ==
            (if present then |EncodeField(f)| else 0) + |EncodeFields(rest)|
  {
    if present {
      assert (Opt(present, f) + rest)[1..] == rest;
    } else {
      assert Opt(present, f) + rest == rest;
    }
  }

  lemma OneByte()
    ensures Varint.Sov(1) == 1
  {
    Varint.SovSteps(1);
  }

  lemma BlobFieldSize(num: nat, data: Bytes, rest: seq<Field>)
    requires 1 <= num < 16
    ensures |EncodeFields(Blob(num, data) + rest)| == BlobSize(data) + |EncodeFields(rest)|
  {
    hide EncodeField, Varint.Sov, Varint.Encode;
    OptSize(data != [], Chunk(num, data), rest);
    FieldSize(Chunk(num, data));
  }

  lemma SignedFieldSize(num: nat, x: int64, rest: seq<Field>)
    requires 1 <= num < 16
    ensures |EncodeFields(Signed(num, x) + rest)| == SignedSize(x) + |EncodeFields(rest)|
  {
    hide EncodeField, Varint.Sov, Varint.Encode;
    OptSize(x != 0, Number(num, ToUint64(x)), rest);
    FieldSize(Number(num, ToUint64(x)));
  }

  lemma FlagFieldSize(num: nat, b: bool, rest: seq<Field>)
    requires 1 <= num < 16
    ensures |EncodeFields(Flag(num, b) + rest)| == FlagSize(b) + |EncodeFields(rest)|
  {
    hide EncodeField, Varint.Sov, Varint.Encode;
    OptSize(b, Number(num, 1), rest);
    FieldSize(Number(num, 1));
    OneByte();
  }

  // ---------- KeyValue ----------

  const EMPTY_KV: KeyValue := KeyValue([], 0, 0, [])

  function KeyValueFields(m: KeyValue): (fs: seq<Field>)
  {
    Blob(1, m.key) + (Signed(2, m.createRevision) + (Signed(3, m.modRevision) + (Blob(4, m.value) + [])))
  }

  function EncodeKeyValue(m: KeyValue): (s: Bytes)
  {
    EncodeFields(KeyValueFields(m))
  }

  function SizeKeyValue(m: KeyValue): (n: nat)
  {
    BlobSize(m.key) + SignedSize(m.createRevision) + SignedSize(m.modRevision) + BlobSize(m.value)
  }

  function KeyValueStep(acc: KeyValue, f: Field): (r: Option<KeyValue>)
  {
    if f.num == 1 then if f.Chunk? then Some(acc.(key := f.data)) else None
    else if f.num == 2 then if f.Number? then Some(acc.(createRevision := ToInt64(f.v))) else None
    else if f.num == 3 then if f.Number? then Some(acc.(modRevision := ToInt64(f.v))) else None
    else if f.num == 4 then if f.Chunk? then Some(acc.(value := f.data)) else None
    else Some(acc)
  }

  lemma KeyValueSize(m: KeyValue)
    ensures |EncodeKeyValue(m)| == SizeKeyValue(m)
  {
    hide EncodeField;
    BlobFieldSize(1, m.key, Signed(2, m.createRevision) + (Signed(3, m.modRevision) + (Blob(4, m.value) + [])));
    SignedFieldSize(2, m.createRevision, Signed(3, m.modRevision) + (Blob(4, m.value) + []));
    SignedFieldSize(3, m.modRevision, Blob(4, m.value) + []);
    BlobFieldSize(4, m.value, []);
  }

  lemma KeyValueFold(m: KeyValue)
    ensures Fold(KeyValueStep, EMPTY_KV, KeyValueFields(m)) == Some(m)
  {
    hide Fold, ToInt32, ToInt64, ToUint64;
    var r3 := Blob(4, m.value) + [];
    var r2 := Signed(3, m.modRevision) + r3;
    var r1 := Signed(2, m.createRevision) + r2;
    var a1 := EMPTY_KV.(key := m.key);
    var a2 := a1.(createRevision := m.createRevision);
    var a3 := a2.(modRevision := m.modRevision);
    FoldOpt(KeyValueStep, EMPTY_KV, m.key != [], Chunk(1, m.key), r1);
    SignedRoundTrip(m.createRevision);
    FoldOpt(KeyValueStep, a1, m.createRevision != 0, Number(2, ToUint64(m.createRevision)), r2);
    SignedRoundTrip(m.modRevision);
    FoldOpt(KeyValueStep, a2, m.modRevision != 0, Number(3, ToUint64(m.modRevision)), r3);
    FoldOpt(KeyValueStep, a3, m.value != [], Chunk(4, m.value), []);
    FoldDone(KeyValueStep, m);
  }

  // ---------- decoding what was encoded ----------

  predicate Tagged(fs: seq<Field>)
  {
    forall f :: f in fs ==> !f.Skipped? && 1 <= f.num <= 64
  }

  lemma {:induction false} FieldWithin(fs: seq<Field>, f: Field)
    requires f in fs
    ensures |EncodeField(f)| <= |EncodeFields(fs)|
  {
    if f != fs[0] { FieldWithin(fs[1..], f); }
  }

  lemma AllEncodable(fs: seq<Field>)
    requires Tagged(fs) && |EncodeFields(fs)| < TWO_63
    ensures forall f :: f in fs ==> Encodable(f)
  {
    hide EncodeFields;
    forall f | f in fs ensures Encodable(f) { FieldWithin(fs, f); }
  }

  lemma DecodeEncoded<A>(step: (A, Field) -> Option<A>, acc: A, fs: seq<Field>)
    requires Tagged(fs) && |EncodeFields(fs)| < TWO_63
    ensures Decode(step, acc, EncodeFields(fs)) == Fold(step, acc, fs)
  {
    hide ParseFrom, Fold, Tagged, EncodeFields;
    AllEncodable(fs);
    ParseEncode(fs);
  }

  /** A key-value pair survives the round trip. */
  lemma KeyValueRoundTrip(m: KeyValue)
    requires SizeKeyValue(m) < TWO_63
    ensures Decode(KeyValueStep, EMPTY_KV, EncodeKeyValue(m)) == Some(m)
  {
    hide Decode, EncodeFields, SizeKeyValue, Fold;
    KeyValueSize(m);
    DecodeEncoded(KeyValueStep, EMPTY_KV, KeyValueFields(m));
    KeyValueFold(m);
  }

  // ---------- RequestOp.Range ----------

  const EMPTY_RANGE: RangeOp := RangeOp([], None, 0, false, false)

  /** A range end that is present but empty is not written. */
  function NormalEnd(end: Option<Bytes>): (r: Option<Bytes>)
  {
    if end == Some([]) then None else end
  }

  function RangeFields(m: RangeOp): (fs: seq<Field>)
  {
    Blob(1, m.key) +
    (Blob(2, OrEmpty(m.rangeEnd)) + (Signed(3, m.limit) + (Flag(4, m.keysOnly) + (Flag(5, m.countOnly) + []))))
  }

  function SizeRangeOp(m: RangeOp): (n: nat)
  {
    BlobSize(m.key) + BlobSize(OrEmpty(m.rangeEnd)) + SignedSize(m.limit) + FlagSize(m.keysOnly) + FlagSize(m.countOnly)
  }

  function RangeStep(acc: RangeOp, f: Field): (r: Option<RangeOp>)
  {
    if f.num == 1 then if f.Chunk? then Some(acc.(key := f.data)) else None
    else if f.num == 2 then if f.Chunk? then Some(acc.(rangeEnd := Some(f.data))) else None
    else if f.num == 3 then if f.Number? then Some(acc.(limit := ToInt64(f.v))) else None
    else if f.num == 4 then if f.Number? then Some(acc.(keysOnly := f.v != 0)) else None
    else if f.num == 5 then if f.Number? then Some(acc.(countOnly := f.v != 0)) else None
    else Some(acc)
  }

  lemma RangeSize(m: RangeOp)
    ensures |EncodeFields(RangeFields(m))| == SizeRangeOp(m)
  {
    hide EncodeField;
    var r4 := Flag(5, m.countOnly) + [];
    var r3 := Flag(4, m.keysOnly) + r4;
    var r2 := Signed(3, m.limit) + r3;
    var r1 := Blob(2, OrEmpty(m.rangeEnd)) + r2;
    BlobFieldSize(1, m.key, r1);
    BlobFieldSize(2, OrEmpty(m.rangeEnd), r2);
    SignedFieldSize(3, m.limit, r3);
    FlagFieldSize(4, m.keysOnly, r4);
    FlagFieldSize(5, m.countOnly, []);
  }

  lemma RangeFold(m: RangeOp)
    ensures Fold(RangeStep, EMPTY_RANGE, RangeFields(m)) == Some(m.(rangeEnd := NormalEnd(m.rangeEnd)))
  {
    hide Fold, ToInt32, ToInt64, ToUint64;
    var r4 := Flag(5, m.countOnly) + [];
    var r3 := Flag(4, m.keysOnly) + r4;
    var r2 := Signed(3, m.limit) + r3;
    var r1 := Blob(2, OrEmpty(m.rangeEnd)) + r2;
    var a1 := EMPTY_RANGE.(key := m.key);
    var a2 := a1.(rangeEnd := NormalEnd(m.rangeEnd));
    var a3 := a2.(limit := m.limit);
    var a4 := a3.(keysOnly := m.keysOnly);
    FoldOpt(RangeStep, EMPTY_RANGE, m.key != [], Chunk(1, m.key), r1);
    FoldOpt(RangeStep, a1, OrEmpty(m.rangeEnd) != [], Chunk(2, OrEmpty(m.rangeEnd)), r2);
    SignedRoundTrip(m.limit);
    FoldOpt(RangeStep, a2, m.limit != 0, Number(3, ToUint64(m.limit)), r3);
    FoldOpt(RangeStep, a3, m.keysOnly, Number(4, 1), r4);
    FoldOpt(RangeStep, a4, m.countOnly, Number(5, 1), []);
    FoldDone(RangeStep, a4.(countOnly := m.countOnly));
  }

  // ---------- RequestOp.Put ----------

  const EMPTY_PUT: PutOp := PutOp([], [], false)

  function PutFields(m: PutOp): (fs: seq<Field>)
  {
    Blob(1, m.key) + (Blob(2, m.value) + (Flag(3, m.prevKv) + []))
  }

  function SizePutOp(m: PutOp): (n: nat)
  {
    BlobSize(m.key) + BlobSize(m.value) + FlagSize(m.prevKv)
  }

  function PutStep(acc: PutOp, f: Field): (r: Option<PutOp>)
  {
    if f.num == 1 then if f.Chunk? then Some(acc.(key := f.data)) else None
    else if f.num == 2 then if f.Chunk? then Some(acc.(value := f.data)) else None
    else if f.num == 3 then if f.Number? then Some(acc.(prevKv := f.v != 0)) else None
    else Some(acc)
  }

  lemma PutSize(m: PutOp)
    ensures |EncodeFields(PutFields(m))| == SizePutOp(m)
  {
    hide EncodeField;
    BlobFieldSize(1, m.key, Blob(2, m.value) + (Flag(3, m.prevKv) + []));
    BlobFieldSize(2, m.value, Flag(3, m.prevKv) + []);
    FlagFieldSize(3, m.prevKv, []);
  }

  lemma PutFold(m: PutOp)
    ensures Fold(PutStep, EMPTY_PUT, PutFields(m)) == Some(m)
  {
    var r2 := Flag(3, m.prevKv) + [];
    var a1 := EMPTY_PUT.(key := m.key);
    FoldOpt(PutStep, EMPTY_PUT, m.key != [], Chunk(1, m.key), Blob(2, m.value) + r2);
    FoldOpt(PutStep, a1, m.value != [], Chunk(2, m.value), r2);
    FoldOpt(PutStep, a1.(value := m.value), m.prevKv, Number(3, 1), []);
  }

  // ---------- RequestOp.DeleteRange ----------

  const EMPTY_DELETE: DeleteOp := DeleteOp([], None, false, false)

  function DeleteFields(m: DeleteOp): (fs: seq<Field>)
  {
    Blob(1, m.key) + (Blob(2, OrEmpty(m.rangeEnd)) + (Flag(4, m.prevKv) + (Flag(5, m.count) + [])))
  }

  function SizeDeleteOp(m: DeleteOp): (n: nat)
  {
    BlobSize(m.key) + BlobSize(OrEmpty(m.rangeEnd)) + FlagSize(m.prevKv) + FlagSize(m.count)
  }

  function DeleteStep(acc: DeleteOp, f: Field): (r: Option<DeleteOp>)
  {
    if f.num == 1 then if f.Chunk? then Some(acc.(key := f.data)) else None
    else if f.num == 2 then if f.Chunk? then Some(acc.(rangeEnd := Some(f.data))) else None
    else if f.num == 4 then if f.Number? then Some(acc.(prevKv := f.v != 0)) else None
    else if f.num == 5 then if f.Number? then Some(acc.(count := f.v != 0)) else None
    else Some(acc)
  }

  lemma DeleteSize(m: DeleteOp)
    ensures |EncodeFields(DeleteFields(m))| == SizeDeleteOp(m)
  {
    hide EncodeField;
    var r3 := Flag(5, m.count) + [];
    var r2 := Flag(4, m.prevKv) + r3;
    BlobFieldSize(1, m.key, Blob(2, OrEmpty(m.rangeEnd)) + r2);
    BlobFieldSize(2, OrEmpty(m.rangeEnd), r2);
    FlagFieldSize(4, m.prevKv, r3);
    FlagFieldSize(5, m.count, []);
  }

  lemma DeleteFold(m: DeleteOp)
    ensures Fold(DeleteStep, EMPTY_DELETE, DeleteFields(m)) == Some(m.(rangeEnd := NormalEnd(m.rangeEnd)))
  {
    var r3 := Flag(5, m.count) + [];
    var r2 := Flag(4, m.prevKv) + r3;
    var a1 := EMPTY_DELETE.(key := m.key);
    var a2 := a1.(rangeEnd := NormalEnd(m.rangeEnd));
    FoldOpt(DeleteStep, EMPTY_DELETE, m.key != [], Chunk(1, m.key), Blob(2, OrEmpty(m.rangeEnd)) + r2);
    FoldOpt(DeleteStep, a1, OrEmpty(m.rangeEnd) != [], Chunk(2, OrEmpty(m.rangeEnd)), r2);
    FoldOpt(DeleteStep, a2, m.prevKv, Number(4, 1), r3);
    FoldOpt(DeleteStep, a2.(prevKv := m.prevKv), m.count, Number(5, 1), []);
  }

  // ---------- RequestOp ----------

  function RequestFields(m: RequestOp): (fs: seq<Field>)
  {
    match m
    case RequestRange(r) => [Chunk(1, EncodeFields(RangeFields(r)))]
    case RequestPut(p) => [Chunk(2, EncodeFields(PutFields(p)))]
    case RequestDelete(d) => [Chunk(3, EncodeFields(DeleteFields(d)))]
    case RequestNone => []
  }

  function EncodeRequest(m: RequestOp): (s: Bytes)
  {
    EncodeFields(RequestFields(m))
  }

  function SizeRequest(m: RequestOp): (n: nat)
  {
    match m
    case RequestRange(r) => ChunkSize(SizeRangeOp(r))
    case RequestPut(p) => ChunkSize(SizePutOp(p))
    case RequestDelete(d) => ChunkSize(SizeDeleteOp(d))
    case RequestNone => 0
  }

  /** A member of the oneof that is already set is merged into, another one is replaced. */
  function RequestStep(acc: RequestOp, f: Field): (r: Option<RequestOp>)
  {
    if f.num == 1 then
      if !f.Chunk? then None
      else
        match Decode(RangeStep, if acc.RequestRange? then acc.range else EMPTY_RANGE, f.data)
        case None => None
        case Some(r) => Some(RequestRange(r))
    else if f.num == 2 then
      if !f.Chunk? then None
      else
        match Decode(PutStep, if acc.RequestPut? then acc.put else EMPTY_PUT, f.data)
        case None => None
        case Some(p) => Some(RequestPut(p))
    else if f.num == 3 then
      if !f.Chunk? then None
      else
        match Decode(DeleteStep, if acc.RequestDelete? then acc.del else EMPTY_DELETE, f.data)
        case None => None
        case Some(d) => Some(RequestDelete(d))
    else Some(acc)
  }

  function NormalRequest(m: RequestOp): (r: RequestOp)
  {
    match m
    case RequestRange(r) => RequestRange(r.(rangeEnd := NormalEnd(r.rangeEnd)))
    case RequestDelete(d) => RequestDelete(d.(rangeEnd := NormalEnd(d.rangeEnd)))
    case _ => m
  }

  lemma SingleChunkSize(num: nat, data: Bytes)
    requires 1 <= num < 16
    ensures |EncodeFields([Chunk(num, data)])| == ChunkSize(|data|)
  {
    hide EncodeField;
    FieldSize(Chunk(num, data));
    assert [Chunk(num, data)][1..] == [];
  }

  lemma RequestSize(m: RequestOp)
    ensures |EncodeRequest(m)| == SizeRequest(m)
  {
    hide ChunkSize, RangeFields, PutFields, DeleteFields, SizeRangeOp, SizePutOp, SizeDeleteOp, EncodeField;
    match m
    case RequestRange(r) => RangeSize(r); SingleChunkSize(1, EncodeFields(RangeFields(r)));
    case RequestPut(p) => PutSize(p); SingleChunkSize(2, EncodeFields(PutFields(p)));
    case RequestDelete(d) => DeleteSize(d); SingleChunkSize(3, EncodeFields(DeleteFields(d)));
    case RequestNone =>
  }

  lemma RangeRoundTrip(r: RangeOp)
    requires SizeRangeOp(r) < TWO_63
    ensures Decode(RangeStep, EMPTY_RANGE, EncodeFields(RangeFields(r))) == Some(r.(rangeEnd := NormalEnd(r.rangeEnd)))
  {
    hide Decode, EncodeFields, SizeRangeOp, Fold;
    RangeSize(r);
    DecodeEncoded(RangeStep, EMPTY_RANGE, RangeFields(r));
    RangeFold(r);
  }

  lemma PutRoundTrip(p: PutOp)
    requires SizePutOp(p) < TWO_63
    ensures Decode(PutStep, EMPTY_PUT, EncodeFields(PutFields(p))) == Some(p)
  {
    hide Decode, EncodeFields, SizePutOp, Fold;
    PutSize(p);
    DecodeEncoded(PutStep, EMPTY_PUT, PutFields(p));
    PutFold(p);
  }

  lemma DeleteRoundTrip(d: DeleteOp)
    requires SizeDeleteOp(d) < TWO_63
    ensures Decode(DeleteStep, EMPTY_DELETE, EncodeFields(DeleteFields(d))) ==
            Some(d.(rangeEnd := NormalEnd(d.rangeEnd)))
  {
    hide Decode, EncodeFields, SizeDeleteOp, Fold;
    DeleteSize(d);
    DecodeEncoded(DeleteStep, EMPTY_DELETE, DeleteFields(d));
    DeleteFold(d);
  }

  lemma RequestRoundTrip(m: RequestOp)
    requires SizeRequest(m) < TWO_63
    ensures Decode(RequestStep, RequestNone, EncodeRequest(m)) == Some(NormalRequest(m))
  {
    hide Decode, EncodeFields, RangeFields, PutFields, DeleteFields, SizeRangeOp, SizePutOp, SizeDeleteOp;
    RequestSize(m);
    DecodeEncoded(RequestStep, RequestNone, RequestFields(m));
    match m
    case RequestRange(r) => RangeRoundTrip(r);
    case RequestPut(p) => PutRoundTrip(p);
    case RequestDelete(d) => DeleteRoundTrip(d);
    case RequestNone =>
  }

  // ---------- Compare ----------

  const EMPTY_COMPARE: Compare := Compare(0, 0, [], None, None)

  function CompareFields(m: Compare): (fs: seq<Field>)
  {
    Signed(1, m.result) + (Signed(2, m.target) + (Blob(3, m.key) +
      (Blob(64, OrEmpty(m.rangeEnd)) + (BlobOption(4, m.targetValue) + []))))
  }

  function EncodeCompare(m: Compare): (s: Bytes)
  {
    EncodeFields(CompareFields(m))
  }

  function SizeCompare(m: Compare): (n: nat)
  {
    SignedSize(m.result) + SignedSize(m.target) + BlobSize(m.key) +
    (if OrEmpty(m.rangeEnd) == [] then 0 else 1 + ChunkSize(|m.rangeEnd.value|)) +
    (if m.targetValue.Some? then ChunkSize(|m.targetValue.value|) else 0)
  }

  function CompareStep(acc: Compare, f: Field): (r: Option<Compare>)
  {
    if f.num == 1 then if f.Number? then Some(acc.(result := ToInt32(f.v))) else None
    else if f.num == 2 then if f.Number? then Some(acc.(target := ToInt32(f.v))) else None
    else if f.num == 3 then if f.Chunk? then Some(acc.(key := f.data)) else None
    else if f.num == 4 then if f.Chunk? then Some(acc.(targetValue := Some(f.data))) else None
    else if f.num == 64 then if f.Chunk? then Some(acc.(rangeEnd := Some(f.data))) else None
    else Some(acc)
  }

  function NormalCompare(m: Compare): (r: Compare)
  {
    m.(rangeEnd := NormalEnd(m.rangeEnd))
  }

  /** Field 64 has a two-byte tag. */
  lemma LongTagSize(data: Bytes, rest: seq<Field>)
    ensures |EncodeFields(Blob(64, data) + rest)| ==
            (if data == [] then 0 else 1 + ChunkSize(|data|)) + |EncodeFields(rest)|
  {
    hide Varint.Sov, EncodeFields;
    OptSize(data != [], Chunk(64, data), rest);
    assert Tag(64, 2) == [130] + Varint.Encode(4);
    Varint.EncodeLength(|data|);
  }

  lemma CompareSize(m: Compare)
    ensures |EncodeCompare(m)| == SizeCompare(m)
  {
    hide EncodeField, ChunkSize;
    var r4 := BlobOption(4, m.targetValue) + [];
    var r3 := Blob(64, OrEmpty(m.rangeEnd)) + r4;
    var r2 := Blob(3, m.key) + r3;
    SignedFieldSize(1, m.result, Signed(2, m.target) + r2);
    SignedFieldSize(2, m.target, r2);
    BlobFieldSize(3, m.key, r3);
    LongTagSize(OrEmpty(m.rangeEnd), r4);
    OptSize(m.targetValue.Some?, Chunk(4, OrEmpty(m.targetValue)), []);
    FieldSize(Chunk(4, OrEmpty(m.targetValue)));
  }

  lemma CompareFold(m: Compare)
    ensures Fold(CompareStep, EMPTY_COMPARE, CompareFields(m)) == Some(NormalCompare(m))
  {
    hide Fold, ToInt32, ToInt64, ToUint64;
    var r4 := BlobOption(4, m.targetValue) + [];
    var r3 := Blob(64, OrEmpty(m.rangeEnd)) + r4;
    var r2 := Blob(3, m.key) + r3;
    var a1 := EMPTY_COMPARE.(result := m.result);
    var a2 := a1.(target := m.target);
    var a3 := a2.(key := m.key);
    SignedRoundTrip(m.result);
    FoldOpt(CompareStep, EMPTY_COMPARE, m.result != 0, Number(1, ToUint64(m.result)), Signed(2, m.target) + r2);
    SignedRoundTrip(m.target);
    FoldOpt(CompareStep, a1, m.target != 0, Number(2, ToUint64(m.target)), r2);
    FoldOpt(CompareStep, a2, m.key != [], Chunk(3, m.key), r3);
    FoldOpt(CompareStep, a3, OrEmpty(m.rangeEnd) != [], Chunk(64, OrEmpty(m.rangeEnd)), r4);
    FoldOpt(CompareStep, a3.(rangeEnd := NormalEnd(m.rangeEnd)), m.targetValue.Some?, Chunk(4, OrEmpty(m.targetValue)),
            []);
    FoldDone(CompareStep, NormalCompare(m));
  }

  lemma CompareTagged(m: Compare)
    ensures Tagged(CompareFields(m))
  {
    hide Tagged, Opt, ToUint64;
    var r4 := BlobOption(4, m.targetValue) + [];
    var r3 := Blob(64, OrEmpty(m.rangeEnd)) + r4;
    var r2 := Blob(3, m.key) + r3;
    NothingTagged();
    OptTagged(m.targetValue.Some?, Chunk(4, OrEmpty(m.targetValue)), []);
    OptTagged(OrEmpty(m.rangeEnd) != [], Chunk(64, OrEmpty(m.rangeEnd)), r4);
    OptTagged(m.key != [], Chunk(3, m.key), r3);
    OptTagged(m.target != 0, Number(2, ToUint64(m.target)), r2);
    OptTagged(m.result != 0, Number(1, ToUint64(m.result)), Signed(2, m.target) + r2);
  }

  lemma NothingTagged()
    ensures Tagged([])
  {
  }

  lemma CompareRoundTrip(m: Compare)
    requires SizeCompare(m) < TWO_63
    ensures Decode(CompareStep, EMPTY_COMPARE, EncodeCompare(m)) == Some(NormalCompare(m))
  {
    hide Decode, EncodeFields, SizeCompare, Fold, CompareFields, NormalCompare, CompareStep;
    CompareSize(m);
    CompareTagged(m);
    DecodeEncoded(CompareStep, EMPTY_COMPARE, CompareFields(m));
    CompareFold(m);
  }

  // ---------- Txn ----------

  const EMPTY_TXN: Txn := Txn([], [], [])

  function EncodeCompares(ms: seq<Compare>): (bodies: seq<Bytes>)
    ensures |bodies| == |ms|
  {
    if ms == [] then [] else [EncodeCompare(ms[0])] + EncodeCompares(ms[1..])
  }

  function EncodeRequests(ms: seq<RequestOp>): (bodies: seq<Bytes>)
    ensures |bodies| == |ms|
  {
    if ms == [] then [] else [EncodeRequest(ms[0])] + EncodeRequests(ms[1..])
  }

  function CompareSizes(ms: seq<Compare>): (n: nat)
  {
    if ms == [] then 0 else ChunkSize(SizeCompare(ms[0])) + CompareSizes(ms[1..])
  }

  function RequestSizes(ms: seq<RequestOp>): (n: nat)
  {
    if ms == [] then 0 else ChunkSize(SizeRequest(ms[0])) + RequestSizes(ms[1..])
  }

  function TxnFields(m: Txn): (fs: seq<Field>)
  {
    Repeated(1, EncodeCompares(m.compare)) +
    (Repeated(2, EncodeRequests(m.success)) + (Repeated(3, EncodeRequests(m.failure)) + []))
  }

  function EncodeTxn(m: Txn): (s: Bytes)
  {
    EncodeFields(TxnFields(m))
  }

  function SizeTxn(m: Txn): (n: nat)
  {
    CompareSizes(m.compare) + RequestSizes(m.success) + RequestSizes(m.failure)
  }

  function TxnStep(acc: Txn, f: Field): (r: Option<Txn>)
  {
    if f.num == 1 then
      if !f.Chunk? then None
      else
        match Decode(CompareStep, EMPTY_COMPARE, f.data)
        case None => None
        case Some(c) => Some(acc.(compare := acc.compare + [c]))
    else if f.num == 2 then
      if !f.Chunk? then None
      else
        match Decode(RequestStep, RequestNone, f.data)
        case None => None
        case Some(op) => Some(acc.(success := acc.success + [op]))
    else if f.num == 3 then
      if !f.Chunk? then None
      else
        match Decode(RequestStep, RequestNone, f.data)
        case None => None
        case Some(op) => Some(acc.(failure := acc.failure + [op]))
    else Some(acc)
  }

  function NormalCompares(ms: seq<Compare>): (r: seq<Compare>)
    ensures |r| == |ms| && forall i :: 0 <= i < |ms| ==> r[i] == NormalCompare(ms[i])
  {
    seq(|ms|, i requires 0 <= i < |ms| => NormalCompare(ms[i]))
  }

  function NormalRequests(ms: seq<RequestOp>): (r: seq<RequestOp>)
    ensures |r| == |ms| && forall i :: 0 <= i < |ms| ==> r[i] == NormalRequest(ms[i])
  {
    seq(|ms|, i requires 0 <= i < |ms| => NormalRequest(ms[i]))
  }

  function NormalTxn(m: Txn): (r: Txn)
  {
    Txn(NormalCompares(m.compare), NormalRequests(m.success), NormalRequests(m.failure))
  }

  lemma {:induction false} CompareListSize(ms: seq<Compare>, rest: seq<Field>)
    ensures |EncodeFields(Repeated(1, EncodeCompares(ms)) + rest)| == CompareSizes(ms) + |EncodeFields(rest)|
  {
    hide EncodeField, EncodeCompare, SizeCompare, ChunkSize;
    var fs := Repeated(1, EncodeCompares(ms)) + rest;
    if ms == [] {
      assert fs == rest;
    } else {
      assert fs[1..] == Repeated(1, EncodeCompares(ms[1..])) + rest;
      CompareSize(ms[0]);
      FieldSize(Chunk(1, EncodeCompare(ms[0])));
      CompareListSize(ms[1..], rest);
    }
  }

  lemma {:induction false} RequestListSize(num: nat, ms: seq<RequestOp>, rest: seq<Field>)
    requires 1 <= num < 16
    ensures |EncodeFields(Repeated(num, EncodeRequests(ms)) + rest)| == RequestSizes(ms) + |EncodeFields(rest)|
  {
    hide EncodeField, EncodeRequest, SizeRequest, ChunkSize;
    var fs := Repeated(num, EncodeRequests(ms)) + rest;
    if ms == [] {
      assert fs == rest;
    } else {
      assert fs[1..] == Repeated(num, EncodeRequests(ms[1..])) + rest;
      RequestSize(ms[0]);
      FieldSize(Chunk(num, EncodeRequest(ms[0])));
      RequestListSize(num, ms[1..], rest);
    }
  }

  lemma TxnSize(m: Txn)
    ensures |EncodeTxn(m)| == SizeTxn(m)
  {
    hide CompareSizes, RequestSizes, Repeated;
    CompareListSize(m.compare, Repeated(2, EncodeRequests(m.success)) + (Repeated(3, EncodeRequests(m.failure)) + []));
    RequestListSize(2, m.success, Repeated(3, EncodeRequests(m.failure)) + []);
    RequestListSize(3, m.failure, []);
  }

  lemma TxnCompareStep(acc: Txn, m: Compare)
    requires SizeCompare(m) < TWO_63
    ensures TxnStep(acc, Chunk(1, EncodeCompare(m))) == Some(acc.(compare := acc.compare + [NormalCompare(m)]))
  {
    hide Decode, EncodeCompare, SizeCompare, NormalCompare;
    CompareRoundTrip(m);
  }

  lemma {:induction false} CompareListFold(acc: Txn, ms: seq<Compare>)
    requires CompareSizes(ms) < TWO_63
    ensures Fold(TxnStep, acc, Repeated(1, EncodeCompares(ms))) ==
            Some(acc.(compare := acc.compare + NormalCompares(ms)))
    decreases |ms|
  {
    hide Fold, EncodeCompare, SizeCompare, NormalCompare, TxnStep;
    if ms == [] {
      FoldDone(TxnStep, acc);
      assert acc.compare + NormalCompares(ms) == acc.compare;
    } else {
      TxnCompareStep(acc, ms[0]);
      var acc' := acc.(compare := acc.compare + [NormalCompare(ms[0])]);
      FoldCons(TxnStep, acc, Chunk(1, EncodeCompare(ms[0])), Repeated(1, EncodeCompares(ms[1..])));
      CompareListFold(acc', ms[1..]);
      assert acc.compare + NormalCompares(ms) == acc'.compare + NormalCompares(ms[1..]);
    }
  }

  lemma SuccessStep(acc: Txn, m: RequestOp)
    requires SizeRequest(m) < TWO_63
    ensures TxnStep(acc, Chunk(2, EncodeRequest(m))) == Some(acc.(success := acc.success + [NormalRequest(m)]))
  {
    hide Decode, EncodeRequest, SizeRequest, NormalRequest;
    RequestRoundTrip(m);
  }

  lemma {:induction false} SuccessListFold(acc: Txn, ms: seq<RequestOp>)
    requires RequestSizes(ms) < TWO_63
    ensures Fold(TxnStep, acc, Repeated(2, EncodeRequests(ms))) ==
            Some(acc.(success := acc.success + NormalRequests(ms)))
    decreases |ms|
  {
    hide Fold, EncodeRequest, SizeRequest, NormalRequest, TxnStep;
    if ms == [] {
      FoldDone(TxnStep, acc);
      assert acc.success + NormalRequests(ms) == acc.success;
    } else {
      SuccessStep(acc, ms[0]);
      var acc' := acc.(success := acc.success + [NormalRequest(ms[0])]);
      FoldCons(TxnStep, acc, Chunk(2, EncodeRequest(ms[0])), Repeated(2, EncodeRequests(ms[1..])));
      SuccessListFold(acc', ms[1..]);
      assert acc.success + NormalRequests(ms) == acc'.success + NormalRequests(ms[1..]);
    }
  }

  lemma FailureStep(acc: Txn, m: RequestOp)
    requires SizeRequest(m) < TWO_63
    ensures TxnStep(acc, Chunk(3, EncodeRequest(m))) == Some(acc.(failure := acc.failure + [NormalRequest(m)]))
  {
    hide Decode, EncodeRequest, SizeRequest, NormalRequest;
    RequestRoundTrip(m);
  }

  lemma {:induction false} FailureListFold(acc: Txn, ms: seq<RequestOp>)
    requires RequestSizes(ms) < TWO_63
    ensures Fold(TxnStep, acc, Repeated(3, EncodeRequests(ms))) ==
            Some(acc.(failure := acc.failure + NormalRequests(ms)))
    decreases |ms|
  {
    hide Fold, EncodeRequest, SizeRequest, NormalRequest, TxnStep;
    if ms == [] {
      FoldDone(TxnStep, acc);
      assert acc.failure + NormalRequests(ms) == acc.failure;
    } else {
      FailureStep(acc, ms[0]);
      var acc' := acc.(failure := acc.failure + [NormalRequest(ms[0])]);
      FoldCons(TxnStep, acc, Chunk(3, EncodeRequest(ms[0])), Repeated(3, EncodeRequests(ms[1..])));
      FailureListFold(acc', ms[1..]);
      assert acc.failure + NormalRequests(ms) == acc'.failure + NormalRequests(ms[1..]);
    }
  }

  lemma TxnFold(m: Txn)
    requires SizeTxn(m) < TWO_63
    ensures Fold(TxnStep, EMPTY_TXN, TxnFields(m)) == Some(NormalTxn(m))
  {
    hide Fold, Repeated, CompareSizes, RequestSizes, EncodeCompares, EncodeRequests;
    var f2, f3 := Repeated(2, EncodeRequests(m.success)), Repeated(3, EncodeRequests(m.failure));
    FoldConcat(TxnStep, EMPTY_TXN, Repeated(1, EncodeCompares(m.compare)), f2 + (f3 + []));
    CompareListFold(EMPTY_TXN, m.compare);
    assert [] + NormalCompares(m.compare) == NormalCompares(m.compare);
    var a1 := EMPTY_TXN.(compare := NormalCompares(m.compare));
    FoldConcat(TxnStep, a1, f2, f3 + []);
    SuccessListFold(a1, m.success);
    assert [] + NormalRequests(m.success) == NormalRequests(m.success);
    var a2 := a1.(success := NormalRequests(m.success));
    FailureListFold(a2, m.failure);
    assert [] + NormalRequests(m.failure) == NormalRequests(m.failure);
    assert f3 + [] == f3;
  }

  lemma {:induction false} RepeatedTagged(num: nat, bodies: seq<Bytes>)
    requires 1 <= num <= 64
    ensures Tagged(Repeated(num, bodies))
  {
    if bodies != [] { RepeatedTagged(num, bodies[1..]); }
  }

  lemma OptTagged(present: bool, f: Field, rest: seq<Field>)
    requires !f.Skipped? && 1 <= f.num <= 64 && Tagged(rest)
    ensures Tagged(Opt(present, f) + rest)
  {
  }

  lemma TaggedConcat(a: seq<Field>, b: seq<Field>)
    requires Tagged(a) && Tagged(b)
    ensures Tagged(a + b)
  {
  }

  lemma TxnRoundTrip(m: Txn)
    requires SizeTxn(m) < TWO_63
    ensures Decode(TxnStep, EMPTY_TXN, EncodeTxn(m)) == Some(NormalTxn(m))
  {
    hide Decode, EncodeFields, SizeTxn, Fold, Repeated, EncodeCompares, EncodeRequests;
    TxnSize(m);
    RepeatedTagged(1, EncodeCompares(m.compare));
    RepeatedTagged(2, EncodeRequests(m.success));
    RepeatedTagged(3, EncodeRequests(m.failure));
    DecodeEncoded(TxnStep, EMPTY_TXN, TxnFields(m));
    TxnFold(m);
  }
}
