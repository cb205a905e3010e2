/** Two tables that differ at the empty key only. A restored table holds an empty key that its
    origin may lack; no command notices, as long as no transaction looks at that key. */
module Similar {
  import opened ByteStrings
  import opened Messages
  import opened Keys
  import opened Table
  import opened CommandCodec

  ghost predicate Sim(a: UserMap, b: UserMap)
  {
    && (forall k :: k != [] ==> (k in a <==> k in b))
    && (forall k :: k != [] && k in a && k in b ==> a[k] == b[k])
    && ([] in a ==> [] in b)
  }

  /** No transaction in the command compares from the empty key on. */
  ghost predicate Keyed(c: Command)
  {
    && (c.kind == TXN && c.txn.Some? ==> forall x :: x in c.txn.value.compare ==> x.key != [])
    && (c.kind == SEQUENCE ==> forall i :: 0 <= i < |c.sequence| ==> Keyed(c.sequence[i]))
  }

  ghost predicate AllKeyed(cs: seq<Command>)
  {
    forall i :: 0 <= i < |cs| ==> Keyed(cs[i])
  }

  lemma EmptyBelow(low: Bytes, high: Bytes)
    requires low != []
    ensures !InRange([], low, high)
  {
  }

  /** The comparison looks at the empty key. */
  predicate Touches(c: Compare)
  {
    if c.rangeEnd.Some? then InRange([], c.key, c.rangeEnd.value) else c.key == []
  }

  lemma SimCompare(a: UserMap, b: UserMap, c: Compare)
    requires Sim(a, b) && !Touches(c)
    ensures CompareOne(a, c) <==> CompareOne(b, c)
  {
    hide InRange, CompareValue;
    if c.rangeEnd.Some? {
      assert forall k :: InRange(k, c.key, c.rangeEnd.value) ==> k != [] && (k in a <==> k in b);
    }
  }

  /** The other keys a comparison looks at: whether there are any, and whether it holds of them. */
  ghost predicate Others(m: UserMap, c: Compare)
  {
    c.rangeEnd.Some? && exists k :: k != [] && k in m && InRange(k, c.key, c.rangeEnd.value)
  }

  ghost predicate HoldsOfOthers(m: UserMap, c: Compare)
  {
    c.rangeEnd.Some? ==>
      forall k :: k != [] && k in m && InRange(k, c.key, c.rangeEnd.value) ==> CompareValue(c, m[k])
  }

  /** What a comparison comes down to when it holds of the other keys. */
  predicate AtEmpty(m: UserMap, c: Compare, others: bool)
  {
    if [] in m then CompareValue(c, m[[]]) else others
  }

  lemma CompareSplit(m: UserMap, c: Compare)
    requires Touches(c)
    ensures CompareOne(m, c) <==> HoldsOfOthers(m, c) && AtEmpty(m, c, Others(m, c))
  {
    hide InRange, CompareValue;
  }

  /** A comparison decides alike on similar tables exactly when it does not look at the empty key,
      fails on another key, or finds alike at the empty key. */
  lemma SimCompareExact(a: UserMap, b: UserMap, c: Compare)
    requires Sim(a, b)
    ensures (CompareOne(a, c) <==> CompareOne(b, c)) <==>
            !Touches(c) || !HoldsOfOthers(a, c) || (AtEmpty(a, c, Others(a, c)) <==> AtEmpty(b, c, Others(a, c)))
  {
    hide Touches, CompareOne, HoldsOfOthers, Others, AtEmpty, Sim;
    if Touches(c) {
      CompareSplit(a, c);
      CompareSplit(b, c);
      SimOthers(a, b, c);
    } else {
      SimCompare(a, b, c);
    }
  }

  lemma SimOthers(a: UserMap, b: UserMap, c: Compare)
    requires Sim(a, b)
    ensures (Others(a, c) <==> Others(b, c)) && (HoldsOfOthers(a, c) <==> HoldsOfOthers(b, c))
  {
    hide InRange, CompareValue;
  }

  /** The comparisons of a transaction that look at the empty key. */
  ghost predicate TouchingHold(m: UserMap, cs: seq<Compare>)
  {
    forall c :: c in cs && Touches(c) ==> CompareOne(m, c)
  }

  /** The comparisons of a transaction decide alike exactly when one of those that do not look at
      the empty key fails, or those that do decide alike. */
  lemma SimCompareAllExact(a: UserMap, b: UserMap, cs: seq<Compare>)
    requires Sim(a, b)
    ensures (CompareAll(a, cs) <==> CompareAll(b, cs)) <==>
            (exists c :: c in cs && !Touches(c) && !CompareOne(a, c)) ||
            (TouchingHold(a, cs) <==> TouchingHold(b, cs))
  {
    hide Touches, CompareOne, Sim;
    forall c | c in cs && !Touches(c) ensures CompareOne(a, c) <==> CompareOne(b, c) { SimCompare(a, b, c); }
  }

  lemma SimPut(a: UserMap, b: UserMap, put: PutOp)
    requires Sim(a, b) && Put(a, put).Ok?
    ensures Put(b, put).Ok? && Sim(Put(a, put).value.0, Put(b, put).value.0)
  {
  }

  lemma SimDelete(a: UserMap, b: UserMap, del: DeleteOp)
    requires Sim(a, b)
    ensures Sim(Delete(a, del).0, Delete(b, del).0)
  {
    hide InRange, RangeLookup, SingleLookup;
  }

  lemma SimRequest(a: UserMap, b: UserMap, op: RequestOp)
    requires Sim(a, b) && Request(a, op).Ok?
    ensures Request(b, op).Ok? && Sim(Request(a, op).value.0, Request(b, op).value.0)
  {
    hide Sim, Put, Delete, Lookup;
    match op
    case RequestPut(put) => SimPut(a, b, put);
    case RequestDelete(del) => SimDelete(a, b, del);
    case _ =>
  }

  lemma {:induction false} SimRequests(a: UserMap, b: UserMap, ops: seq<RequestOp>)
    requires Sim(a, b) && Requests(a, ops).Ok?
    ensures Requests(b, ops).Ok? && Sim(Requests(a, ops).value.0, Requests(b, ops).value.0)
    decreases |ops|
  {
    hide Sim, Request;
    if ops != [] {
      SimRequest(a, b, ops[0]);
      SimRequests(Request(a, ops[0]).value.0, Request(b, ops[0]).value.0, ops[1..]);
    }
  }

  lemma {:induction false} SimBatch(a: UserMap, b: UserMap, kvs: seq<KeyValue>)
    requires Sim(a, b)
    ensures Sim(PutBatch(a, kvs).0, PutBatch(b, kvs).0)
    ensures Sim(DeleteBatch(a, kvs).0, DeleteBatch(b, kvs).0)
    decreases |kvs|
  {
    if kvs != [] { SimBatch(a, b, kvs[..|kvs| - 1]); }
  }

  /** A transaction whose comparisons decide alike keeps similar tables similar. */
  lemma SimTxn(a: UserMap, b: UserMap, c: Command)
    requires Sim(a, b) && c.kind == TXN && Apply(a, c).Ok?
    requires CompareAll(a, c.txn.value.compare) <==> CompareAll(b, c.txn.value.compare)
    ensures Apply(b, c).Ok? && Sim(Apply(a, c).value.m, Apply(b, c).value.m)
  {
    hide Sim, CompareOne, Requests;
    var txn := c.txn.value;
    SimRequests(a, b, if CompareAll(a, txn.compare) then txn.success else txn.failure);
  }

  lemma KeyedAlike(a: UserMap, b: UserMap, cs: seq<Compare>)
    requires Sim(a, b) && forall c :: c in cs ==> c.key != []
    ensures CompareAll(a, cs) <==> CompareAll(b, cs)
  {
    hide CompareOne, Sim;
    forall c | c in cs ensures !Touches(c) {
      if c.rangeEnd.Some? { EmptyBelow(c.key, c.rangeEnd.value); }
    }
    SimCompareAllExact(a, b, cs);
  }

  /** A command that works on a table works on a similar one, and keeps them similar. */
  lemma {:induction false} SimApply(a: UserMap, b: UserMap, c: Command)
    requires Sim(a, b) && Keyed(c) && Apply(a, c).Ok?
    ensures Apply(b, c).Ok? && Sim(Apply(a, c).value.m, Apply(b, c).value.m)
    decreases c, 1
  {
    hide Sim, Put, Delete, PutBatch, DeleteBatch, Requests, CompareAll;
    if c.kind == PUT {
      SimPut(a, b, PutOp(c.kv.value.key, c.kv.value.value, c.prevKvs));
    } else if c.kind == DELETE {
      SimDelete(a, b, DeleteOp(c.kv.value.key, c.rangeEnd, c.prevKvs, c.count));
    } else if c.kind == PUT_BATCH || c.kind == DELETE_BATCH {
      SimBatch(a, b, c.batch);
    } else if c.kind == TXN {
      KeyedAlike(a, b, c.txn.value.compare);
      SimTxn(a, b, c);
    } else if c.kind == SEQUENCE {
      SimSequence(a, b, c.sequence);
    }
  }

  lemma {:induction false} SimSequence(a: UserMap, b: UserMap, cs: seq<Command>)
    requires Sim(a, b) && AllKeyed(cs) && ApplySequence(a, cs).Ok?
    ensures ApplySequence(b, cs).Ok? && Sim(ApplySequence(a, cs).value.m, ApplySequence(b, cs).value.m)
    decreases cs, 0
  {
    hide Sim, Keyed, Apply;
    if cs != [] {
      SimApply(a, b, cs[0]);
      SimSequence(Apply(a, cs[0]).value.m, Apply(b, cs[0]).value.m, cs[1..]);
    }
  }

  /** Writes `[1]` when the empty key exists. */
  const LOOKS_AT_EMPTY: Command :=
    EMPTY_COMMAND.(
      kind := TXN,
      txn := Some(Txn([Compare(EQUAL, VALUE, [], None, None)], [RequestPut(PutOp([1], [], false))], [])))

  /** The assumption is needed: this transaction tells two similar tables apart for good. */
  lemma LookingAtEmptyDiverges()
    ensures var a: UserMap, b: UserMap := map[], map[[] := []];
            && Sim(a, b) && Apply(a, LOOKS_AT_EMPTY).Ok? && Apply(b, LOOKS_AT_EMPTY).Ok?
            && !Sim(Apply(a, LOOKS_AT_EMPTY).value.m, Apply(b, LOOKS_AT_EMPTY).value.m)
  {
    var a: UserMap, b: UserMap := map[], map[[] := []];
    var txn := LOOKS_AT_EMPTY.txn.value;
    assert txn.compare[0] in txn.compare;
    assert !CompareAll(a, txn.compare) && CompareAll(b, txn.compare);
    assert Requests(a, []) == Ok((a, []));
    var p := Request(b, txn.success[0]);
    assert p.Ok? && p.value.0 == b[[1] := []];
    assert txn.success[1..] == [];
    assert Requests(p.value.0, []) == Ok((p.value.0, []));
    assert Requests(b, txn.success).Ok? && Requests(b, txn.success).value.0 == p.value.0;
    assert [1] in p.value.0 && [1] !in a;
  }
}
