/** Marshalling of transactions, field by field. */
module MarshalTxn {
  import opened ByteStrings
  import opened Messages
  import opened Wire
  import opened Codec
  import opened Writer

  method MarshalRange(m: RangeOp, data: array<byte>, end: nat, ghost limit: nat, ghost before: Bytes, ghost s: Bytes)
    returns (i: nat)
    requires Tail(data, before, end, limit, s) && SizeRangeOp(m) <= end && SizeRangeOp(m) < TWO_63
    modifies data
    ensures i == end - SizeRangeOp(m) && Tail(data, before, i, limit, EncodeFields(RangeFields(m)) + s)
  {
    hide EncodeFields, Tail, Blob, Signed, Flag, BlobSize, SignedSize, FlagSize;
    ghost var r4 := Flag(5, m.countOnly) + [];
    ghost var r3 := Flag(4, m.keysOnly) + r4;
    ghost var r2 := Signed(3, m.limit) + r3;
    ghost var r1 := Blob(2, OrEmpty(m.rangeEnd)) + r2;
    NoFields();
    assert EncodeFields([]) + s == s;
    i := PutFlag(data, end, 5, m.countOnly, limit, before, [], s);
    i := PutFlag(data, i, 4, m.keysOnly, limit, before, r4, s);
    i := PutSigned(data, i, 3, m.limit, limit, before, r3, s);
    i := PutBlob(data, i, 2, OrEmpty(m.rangeEnd), limit, before, r2, s);
    i := PutBlob(data, i, 1, m.key, limit, before, r1, s);
  }

  method MarshalPut(m: PutOp, data: array<byte>, end: nat, ghost limit: nat, ghost before: Bytes, ghost s: Bytes)
    returns (i: nat)
    requires Tail(data, before, end, limit, s) && SizePutOp(m) <= end && SizePutOp(m) < TWO_63
    modifies data
    ensures i == end - SizePutOp(m) && Tail(data, before, i, limit, EncodeFields(PutFields(m)) + s)
  {
    hide EncodeFields, Tail, Blob, Flag, BlobSize, FlagSize;
    ghost var r2 := Flag(3, m.prevKv) + [];
    NoFields();
    assert EncodeFields([]) + s == s;
    i := PutFlag(data, end, 3, m.prevKv, limit, before, [], s);
    i := PutBlob(data, i, 2, m.value, limit, before, r2, s);
    i := PutBlob(data, i, 1, m.key, limit, before, Blob(2, m.value) + r2, s);
  }

  method MarshalDelete(m: DeleteOp, data: array<byte>, end: nat, ghost limit: nat, ghost before: Bytes, ghost s: Bytes)
    returns (i: nat)
    requires Tail(data, before, end, limit, s) && SizeDeleteOp(m) <= end && SizeDeleteOp(m) < TWO_63
    modifies data
    ensures i == end - SizeDeleteOp(m) && Tail(data, before, i, limit, EncodeFields(DeleteFields(m)) + s)
  {
    hide EncodeFields, Tail, Blob, Flag, BlobSize, FlagSize;
    ghost var r3 := Flag(5, m.count) + [];
    ghost var r2 := Flag(4, m.prevKv) + r3;
    NoFields();
    assert EncodeFields([]) + s == s;
    i := PutFlag(data, end, 5, m.count, limit, before, [], s);
    i := PutFlag(data, i, 4, m.prevKv, limit, before, r3, s);
    i := PutBlob(data, i, 2, OrEmpty(m.rangeEnd), limit, before, r2, s);
    i := PutBlob(data, i, 1, m.key, limit, before, Blob(2, OrEmpty(m.rangeEnd)) + r2, s);
  }

  /** The member of the oneof that is set, as a sub-message. */
  method MarshalRequest(m: RequestOp, data: array<byte>, end: nat, ghost limit: nat, ghost before: Bytes,
                        ghost s: Bytes)
    returns (i: nat)
    requires Tail(data, before, end, limit, s) && SizeRequest(m) <= end && SizeRequest(m) < TWO_63
    modifies data
    ensures i == end - SizeRequest(m) && Tail(data, before, i, limit, EncodeRequest(m) + s)
  {
    hide EncodeFields, Tail, RangeFields, PutFields, DeleteFields, SizeRangeOp, SizePutOp, SizeDeleteOp, ChunkSize;
    NoFields();
    assert [] + s == s;
    match m {
      case RequestRange(r) =>
        ChunkFits(SizeRangeOp(r));
        RangeSize(r);
        var k := MarshalRange(r, data, end, limit, before, s);
        i := CloseChunk(data, k, end, 1, EncodeFields(RangeFields(r)), limit, before, [], s);
        assert [Chunk(1, EncodeFields(RangeFields(r)))] + [] == RequestFields(m);
      case RequestPut(p) =>
        ChunkFits(SizePutOp(p));
        PutSize(p);
        var k := MarshalPut(p, data, end, limit, before, s);
        i := CloseChunk(data, k, end, 2, EncodeFields(PutFields(p)), limit, before, [], s);
        assert [Chunk(2, EncodeFields(PutFields(p)))] + [] == RequestFields(m);
      case RequestDelete(d) =>
        ChunkFits(SizeDeleteOp(d));
        DeleteSize(d);
        var k := MarshalDelete(d, data, end, limit, before, s);
        i := CloseChunk(data, k, end, 3, EncodeFields(DeleteFields(d)), limit, before, [], s);
        assert [Chunk(3, EncodeFields(DeleteFields(d)))] + [] == RequestFields(m);
      case RequestNone =>
        i := end;
    }
  }

  method MarshalCompare(m: Compare, data: array<byte>, end: nat, ghost limit: nat, ghost before: Bytes, ghost s: Bytes)
    returns (i: nat)
    requires Tail(data, before, end, limit, s) && SizeCompare(m) <= end && SizeCompare(m) < TWO_63
    modifies data
    ensures i == end - SizeCompare(m) && Tail(data, before, i, limit, EncodeCompare(m) + s)
  {
    hide EncodeFields, Tail, Blob, Signed, Opt, BlobSize, SignedSize, ChunkSize;
    ghost var r4 := BlobOption(4, m.targetValue) + [];
    ghost var r3 := Blob(64, OrEmpty(m.rangeEnd)) + r4;
    ghost var r2 := Blob(3, m.key) + r3;
    NoFields();
    assert EncodeFields([]) + s == s;
    ChunkFits(|OrEmpty(m.targetValue)|);
    ChunkFits(|OrEmpty(m.rangeEnd)|);
    i := PutOptBytes(data, end, 4, OrEmpty(m.targetValue), m.targetValue.Some?, limit, before, [], s);
    i := PutLongBlob(data, i, OrEmpty(m.rangeEnd), limit, before, r4, s);
    i := PutBlob(data, i, 3, m.key, limit, before, r3, s);
    i := PutSigned(data, i, 2, m.target, limit, before, r2, s);
    i := PutSigned(data, i, 1, m.result, limit, before, Signed(2, m.target) + r2, s);
  }

  lemma {:induction false} RequestSizesSuffix(ms: seq<RequestOp>, k: nat)
    requires k < |ms|
    ensures RequestSizes(ms[k..]) == ChunkSize(SizeRequest(ms[k])) + RequestSizes(ms[k + 1..]) <= RequestSizes(ms)
    decreases k
  {
    hide ChunkSize, SizeRequest;
    assert ms[k..][1..] == ms[k + 1..];
    if k > 0 {
      RequestSizesSuffix(ms[1..], k - 1);
      assert ms[1..][k - 1..] == ms[k..] && ms[1..][k..] == ms[k + 1..];
    } else {
      assert ms[0..] == ms;
    }
  }

  lemma {:induction false} CompareSizesSuffix(ms: seq<Compare>, k: nat)
    requires k < |ms|
    ensures CompareSizes(ms[k..]) == ChunkSize(SizeCompare(ms[k])) + CompareSizes(ms[k + 1..]) <= CompareSizes(ms)
    decreases k
  {
    hide ChunkSize, SizeCompare;
    assert ms[k..][1..] == ms[k + 1..];
    if k > 0 {
      CompareSizesSuffix(ms[1..], k - 1);
      assert ms[1..][k - 1..] == ms[k..] && ms[1..][k..] == ms[k + 1..];
    } else {
      assert ms[0..] == ms;
    }
  }

  method MarshalRequests(num: nat, ms: seq<RequestOp>, data: array<byte>, i: nat,
                         ghost end: nat, ghost before: Bytes, ghost rest: seq<Field>, ghost s: Bytes) returns (j: nat)
    requires 1 <= num < 16
    requires Tail(data, before, i, end, EncodeFields(rest) + s) && RequestSizes(ms) <= i && RequestSizes(ms) < TWO_63
    modifies data
    ensures j == i - RequestSizes(ms)
    ensures Tail(data, before, j, end, EncodeFields(Repeated(num, EncodeRequests(ms)) + rest) + s)
  {
    hide EncodeFields, Tail, ChunkSize, EncodeRequest, SizeRequest;
    j := i;
    var n := |ms|;
    assert Repeated(num, EncodeRequests(ms[n..])) + rest == rest;
    while n > 0
      invariant 0 <= n <= |ms| && j == i - RequestSizes(ms[n..])
      invariant Tail(data, before, j, end, EncodeFields(Repeated(num, EncodeRequests(ms[n..])) + rest) + s)
    {
      n := n - 1;
      var m := ms[n];
      RequestSizesSuffix(ms, n);
      ChunkFits(SizeRequest(m));
      RequestSize(m);
      ghost var done := Repeated(num, EncodeRequests(ms[n + 1..])) + rest;
      var k := MarshalRequest(m, data, j, end, before, EncodeFields(done) + s);
      j := CloseChunk(data, k, j, num, EncodeRequest(m), end, before, done, s);
      assert ms[n..][1..] == ms[n + 1..];
      assert Repeated(num, EncodeRequests(ms[n..])) + rest == [Chunk(num, EncodeRequest(m))] + done;
    }
    assert ms[0..] == ms;
  }

  method MarshalCompares(ms: seq<Compare>, data: array<byte>, i: nat,
                         ghost end: nat, ghost before: Bytes, ghost rest: seq<Field>, ghost s: Bytes) returns (j: nat)
    requires Tail(data, before, i, end, EncodeFields(rest) + s) && CompareSizes(ms) <= i && CompareSizes(ms) < TWO_63
    modifies data
    ensures j == i - CompareSizes(ms)
    ensures Tail(data, before, j, end, EncodeFields(Repeated(1, EncodeCompares(ms)) + rest) + s)
  {
    hide EncodeFields, Tail, ChunkSize, EncodeCompare, SizeCompare;
    j := i;
    var n := |ms|;
    assert Repeated(1, EncodeCompares(ms[n..])) + rest == rest;
    while n > 0
      invariant 0 <= n <= |ms| && j == i - CompareSizes(ms[n..])
      invariant Tail(data, before, j, end, EncodeFields(Repeated(1, EncodeCompares(ms[n..])) + rest) + s)
    {
      n := n - 1;
      var m := ms[n];
      CompareSizesSuffix(ms, n);
      ChunkFits(SizeCompare(m));
      CompareSize(m);
      ghost var done := Repeated(1, EncodeCompares(ms[n + 1..])) + rest;
      var k := MarshalCompare(m, data, j, end, before, EncodeFields(done) + s);
      j := CloseChunk(data, k, j, 1, EncodeCompare(m), end, before, done, s);
      assert ms[n..][1..] == ms[n + 1..];
      assert Repeated(1, EncodeCompares(ms[n..])) + rest == [Chunk(1, EncodeCompare(m))] + done;
    }
    assert ms[0..] == ms;
  }

  /** `Txn.MarshalToSizedBufferVT` on the part of the buffer before `end`. */
  method MarshalTxn(m: Txn, data: array<byte>, end: nat, ghost limit: nat, ghost before: Bytes, ghost s: Bytes)
    returns (i: nat)
    requires Tail(data, before, end, limit, s) && SizeTxn(m) <= end && SizeTxn(m) < TWO_63
    modifies data
    ensures i == end - SizeTxn(m) && Tail(data, before, i, limit, EncodeTxn(m) + s)
  {
    hide EncodeFields, Tail, CompareSizes, RequestSizes, Repeated;
    ghost var r2 := Repeated(3, EncodeRequests(m.failure)) + [];
    NoFields();
    assert EncodeFields([]) + s == s;
    i := MarshalRequests(3, m.failure, data, end, limit, before, [], s);
    i := MarshalRequests(2, m.success, data, i, limit, before, r2, s);
    i := MarshalCompares(m.compare, data, i, limit, before, Repeated(2, EncodeRequests(m.success)) + r2, s);
  }
}
