/** Transactions that only read skip the Raft log: they are answered from a snapshot. The
    answer is compared with the one the logged path would have given. */
module ReadOnlyTxn {
  import opened ByteStrings
  import opened Messages
  import opened Keys
  import opened Store
  import opened Table
  import opened Query
  import opened Codec
  import opened CommandCodec
  import Varint
  import Wire

  ghost predicate AllRanges(ops: seq<RequestOp>)
  {
    forall i :: 0 <= i < |ops| ==> ops[i].RequestRange?
  }

  method OnlyRanges(ops: seq<RequestOp>) returns (b: bool)
    ensures b <==> AllRanges(ops)
  {
    for i := 0 to |ops|
      invariant forall j :: 0 <= j < i ==> ops[j].RequestRange?
    {
      if !ops[i].RequestRange? { return false; }
    }
    return true;
  }

  /** `isReadonlyTransaction`. */
  method IsReadOnly(txn: Txn) returns (b: bool)
    ensures b <==> AllRanges(txn.success) && AllRanges(txn.failure)
  {
    b := OnlyRanges(txn.success);
    if b { b := OnlyRanges(txn.failure); }
  }

  /** What a list of reads answers on a fixed state. */
  ghost function Reads(m: UserMap, ops: seq<RequestOp>): (rs: seq<ResponseOp>)
    requires AllRanges(ops)
    ensures |rs| == |ops|
  {
    seq(|ops|, i requires 0 <= i < |ops| => ResponseRange(Lookup(m, ops[i].range)))
  }

  /** The fast path: compare and read on one snapshot. */
  method LookupTxn(snapshot: RawMap, txn: Txn) returns (ok: bool, responses: seq<ResponseOp>)
    requires Valid(snapshot) && AllRanges(txn.success) && AllRanges(txn.failure)
    ensures ok <==> CompareAll(Users(snapshot), txn.compare)
    ensures responses == Reads(Users(snapshot), if ok then txn.success else txn.failure)
  {
    hide Users, Lookup, CompareAll, Valid;
    ok := TxnCompare(snapshot, txn.compare);
    var ops := if ok then txn.success else txn.failure;
    responses := [];
    for i := 0 to |ops|
      invariant |responses| == i
      invariant forall j :: 0 <= j < i ==> responses[j] == ResponseRange(Lookup(Users(snapshot), ops[j].range))
    {
      var r := LookupAny(snapshot, ops[i].range);
      responses := responses + [ResponseRange(r.value)];
    }
  }

  lemma {:induction false} RequestsRead(m: UserMap, ops: seq<RequestOp>)
    requires AllRanges(ops)
    ensures Requests(m, ops) == Ok((m, Reads(m, ops)))
    decreases |ops|
  {
    hide Lookup;
    if ops != [] {
      RequestsRead(m, ops[1..]);
      assert Reads(m, ops) == [ResponseRange(Lookup(m, ops[0].range))] + Reads(m, ops[1..]);
    } else {
      assert Reads(m, ops) == [];
    }
  }

  function TxnCommand(table: Bytes, txn: Txn): (c: Command)
  {
    EMPTY_COMMAND.(table := table, kind := TXN, txn := Some(txn))
  }

  /** The logged path gives the same branch and the same answers, and changes no user key. */
  lemma FastPathAgrees(m: UserMap, table: Bytes, txn: Txn)
    requires AllRanges(txn.success) && AllRanges(txn.failure)
    ensures var ok := CompareAll(m, txn.compare);
            Apply(m, TxnCommand(table, txn)) == Ok(Effect(m, ok, Reads(m, if ok then txn.success else txn.failure)))
  {
    hide CompareAll, Reads, Requests;
    RequestsRead(m, txn.success);
    RequestsRead(m, txn.failure);
  }

  // ---------- through the wire ----------

  /** The proposal as the state machine receives it. */
  ghost function Logged(m: UserMap, table: Bytes, txn: Txn): (r: Outcome<Effect>)
  {
    match DecodeCommand(EncodeCommand(TxnCommand(table, txn)))
    case None => Fault
    case Some(c) => Apply(m, c)
  }

  /** A read is answered the same after the wire unless its range end is present but empty
      and its key exists: the empty range becomes a read of the key. */
  lemma LookupNormalExact(m: UserMap, r: RangeOp)
    ensures Lookup(m, r.(rangeEnd := NormalEnd(r.rangeEnd))) == Lookup(m, r) <==>
            (r.rangeEnd != Some([]) || r.key !in m)
  {
    if r.rangeEnd == Some([]) {
      assert forall k :: !InRange(k, r.key, []);
      var ks := Matching(m, r.key, []);
      assert RangeLookup(m, r, []) == RangeResponse([], false, 0);
    }
  }

  lemma {:induction false} ReadsNormalExact(m: UserMap, ops: seq<RequestOp>)
    requires AllRanges(ops)
    ensures AllRanges(NormalRequests(ops))
    ensures Reads(m, NormalRequests(ops)) == Reads(m, ops) <==>
            forall i :: 0 <= i < |ops| ==> ops[i].range.rangeEnd != Some([]) || ops[i].range.key !in m
  {
    hide Lookup;
    forall i | 0 <= i < |ops|
      ensures Reads(m, NormalRequests(ops))[i] == Reads(m, ops)[i] <==>
              (ops[i].range.rangeEnd != Some([]) || ops[i].range.key !in m)
    {
      LookupNormalExact(m, ops[i].range);
    }
  }

  /** A comparison over an empty range never holds. After the wire it compares the key, so the
      branch stays the same exactly when there is none, or some comparison fails anyway. */
  lemma ComparesNormalExact(m: UserMap, cs: seq<Compare>)
    ensures (CompareAll(m, NormalCompares(cs)) <==> CompareAll(m, cs)) <==>
            (forall c :: c in cs ==> FullEnd(c.rangeEnd)) || exists c :: c in cs && !CompareOne(m, NormalCompare(c))
  {
    hide CompareOne;
    if forall c :: c in cs ==> FullEnd(c.rangeEnd) {
      assert NormalCompares(cs) == cs;
    } else {
      var c :| c in cs && !FullEnd(c.rangeEnd);
      EmptyRangeFails(m, c);
      assert !CompareAll(m, cs);
      forall x ensures x in NormalCompares(cs) <==> exists c :: c in cs && x == NormalCompare(c) {
        if x in NormalCompares(cs) {
          var i :| 0 <= i < |cs| && NormalCompares(cs)[i] == x;
          assert cs[i] in cs;
        }
        if c :| c in cs && x == NormalCompare(c) {
          var i :| 0 <= i < |cs| && cs[i] == c;
          assert NormalCompares(cs)[i] == x;
        }
      }
    }
  }

  lemma EmptyRangeFails(m: UserMap, c: Compare)
    requires !FullEnd(c.rangeEnd)
    ensures !CompareOne(m, c)
  {
    assert forall k :: !InRange(k, c.key, []);
  }

  /** The two paths agree exactly when the branch stays the same and no read of it has an empty
      range end on a key that exists. */
  lemma LoggedReadExact(m: UserMap, table: Bytes, txn: Txn)
    requires AllRanges(txn.success) && AllRanges(txn.failure)
    requires SizeCommand(TxnCommand(table, txn)) < Wire.TWO_63
    ensures var ok := CompareAll(m, txn.compare);
            var ops := if ok then txn.success else txn.failure;
            Logged(m, table, txn) == Ok(Effect(m, ok, Reads(m, ops))) <==>
              && ((forall c :: c in txn.compare ==> FullEnd(c.rangeEnd)) ||
                  exists c :: c in txn.compare && !CompareOne(m, NormalCompare(c)))
              && forall i :: 0 <= i < |ops| ==> ops[i].range.rangeEnd != Some([]) || ops[i].range.key !in m
  {
    hide CompareAll, CompareOne, Reads, Apply, DecodeCommand, EncodeCommand, SizeCommand;
    var txn' := NormalTxn(txn);
    ComparesNormalExact(m, txn.compare);
    CommandRoundTrip(TxnCommand(table, txn));
    assert NormalCommand(TxnCommand(table, txn)) == TxnCommand(table, txn');
    ReadsNormalExact(m, txn.success);
    ReadsNormalExact(m, txn.failure);
    FastPathAgrees(m, table, txn');
  }

  /** A read that the two paths answer differently. */
  lemma FastPathDiffers()
    ensures var txn := Txn([], [RequestRange(RangeOp([1], Some([]), 0, false, false))], []);
            Logged(map[[1] := [2]], [], txn) != Apply(map[[1] := [2]], TxnCommand([], txn))
  {
    var read := RangeOp([1], Some([]), 0, false, false);
    var txn := Txn([], [RequestRange(read)], []);
    var m: UserMap := map[[1] := [2]];
    SmallCommand();
    NothingCompared(m);
    hide *;
    LoggedReadExact(m, [], txn);
    FastPathAgrees(m, [], txn);
    assert txn.success[0].range.key in m;
  }

  lemma NothingCompared(m: UserMap)
    ensures CompareAll(m, []) && AllRanges([])
    ensures forall range :: AllRanges([RequestRange(range)])
  {
  }

  lemma SmallCommand()
    ensures var txn := Txn([], [RequestRange(RangeOp([1], Some([]), 0, false, false))], []);
            SizeCommand(TxnCommand([], txn)) < Wire.TWO_63
  {
    hide Varint.Sov;
    var read := RangeOp([1], Some([]), 0, false, false);
    SizeSmall(1);
    assert SizeRangeOp(read) == 3;
    SizeSmall(3);
    var op := RequestRange(read);
    assert SizeRequest(op) == 5;
    SizeSmall(5);
    assert RequestSizes([op]) == ChunkSize(5) + RequestSizes([]);
    var txn := Txn([], [op], []);
    assert SizeTxn(txn) == 7;
    SizeSmall(7);
    var c := TxnCommand([], txn);
    assert TailSize(c) == 0;
    assert MiddleSize(c) == 9;
  }

  lemma SizeSmall(n: nat)
    requires n < 128
    ensures Varint.Sov(n) == 1
  {
    Varint.SovSteps(n);
  }
}
