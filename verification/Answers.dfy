/** What the operations of a table answer, told from the tables before and after them: reads,
    puts, deletes, the operations of a transaction, whole commands and the entries of a log. */
module Answers {
  import opened ByteStrings
  import opened Messages
  import opened Keys
  import opened Table
  import opened CommandCodec
  import opened Replay
  import opened Branches
  import Update
  import Wire

  // ---------- reads ----------

  /** A range read shows the first matching keys, up to the one where the limit or the size stops
      it, with their values if neither flag is set. */
  ghost predicate RangeAnswer(m: UserMap, req: RangeOp, high: Bytes, r: RangeResponse)
  {
    var ks, d := Matching(m, req.key, high), DetailOf(req);
    && r.count <= |ks| && (r.more <==> r.count + 1 < |ks|)
    && (forall i :: 0 <= i < r.count ==> !Stops(m, ks, i, req.limit, d))
    && (r.count < |ks| ==> Stops(m, ks, r.count, req.limit, d))
    && |r.kvs| == (if req.countOnly && !req.keysOnly then 0 else r.count)
    && forall i :: 0 <= i < |r.kvs| ==> r.kvs[i] == Pair(ks[i], if req.keysOnly then [] else m[ks[i]])
  }

  /** A read of one key counts it if it is there, and never reports more. */
  predicate SingleAnswer(m: UserMap, req: RangeOp, r: RangeResponse)
  {
    && !r.more && r.count == (if req.key in m then 1 else 0)
    && (req.key in m && !req.countOnly ==> r.kvs == [Pair(req.key, if req.keysOnly then [] else m[req.key])])
    && (req.key !in m || req.countOnly ==> r.kvs == [])
  }

  ghost predicate ReadAnswer(m: UserMap, req: RangeOp, r: RangeResponse)
  {
    if req.rangeEnd.Some? then RangeAnswer(m, req, req.rangeEnd.value, r) else SingleAnswer(m, req, r)
  }

  lemma RangeExact(m: UserMap, req: RangeOp, high: Bytes)
    ensures RangeAnswer(m, req, high, RangeLookup(m, req, high))
  {
    var ks, d := Matching(m, req.key, high), DetailOf(req);
    hide Prefix, Table.Taken, Stops, Matching;
    TakenExact(m, ks, 0, req.limit, d);
    PrefixContents(m, ks, Table.Taken(m, ks, 0, req.limit, d), d);
  }

  /** The answer is determined by this. */
  lemma RangeUnique(m: UserMap, req: RangeOp, high: Bytes, r: RangeResponse, r': RangeResponse)
    requires RangeAnswer(m, req, high, r) && RangeAnswer(m, req, high, r')
    ensures r == r'
  {
    hide Stops, Matching;
    assert r.count == r'.count;
    assert r.kvs == r'.kvs;
  }

  /** A lookup answers exactly so. */
  lemma ReadExact(m: UserMap, req: RangeOp, r: RangeResponse)
    ensures r == Lookup(m, req) <==> ReadAnswer(m, req, r)
  {
    hide RangeLookup, RangeAnswer;
    if req.rangeEnd.Some? {
      RangeExact(m, req, req.rangeEnd.value);
      if ReadAnswer(m, req, r) { RangeUnique(m, req, req.rangeEnd.value, r, Lookup(m, req)); }
    }
  }

  /** Nothing lies between a key and the key with a zero byte behind it. */
  lemma {:induction false} NoneBetween(k: Bytes, key: Bytes)
    ensures !Less(k, key) && Less(k, key + [0]) <==> k == key
    decreases |key|
  {
    if key != [] && k != [] && k[0] == key[0] {
      assert (key + [0])[1..] == key[1..] + [0];
      NoneBetween(k[1..], key[1..]);
      assert k == [k[0]] + k[1..] && key == [key[0]] + key[1..];
    }
  }

  lemma SuccessorMatches(m: UserMap, key: Bytes)
    requires key != []
    ensures Matching(m, key, key + [0]) == if key in m then [key] else []
  {
    hide Less, Sorted, Matching;
    forall k ensures InRange(k, key, key + [0]) <==> k == key { NoneBetween(k, key); }
    AscendingUnique(Matching(m, key, key + [0]), if key in m then [key] else []);
  }

  /** Reading one key is reading the range that holds nothing but it: exactly when the key is not
      there, or the request does not ask for both keys and count only and the entry fits. */
  lemma SingleIsRange(m: UserMap, key: Bytes, limit: int64, keysOnly: bool, countOnly: bool)
    requires key != []
    ensures Lookup(m, RangeOp(key, None, limit, keysOnly, countOnly)) ==
            Lookup(m, RangeOp(key, Some(key + [0]), limit, keysOnly, countOnly)) <==>
            (key in m ==>
               !(keysOnly && countOnly) &&
               (if countOnly then 0 else if keysOnly then |key| else |key| + |m[key]|) < MAX_RANGE_SIZE)
  {
    hide RangeLookup, Matching, Prefix, SizeResponse;
    var one := RangeOp(key, None, limit, keysOnly, countOnly);
    var all := one.(rangeEnd := Some(key + [0]));
    SuccessorMatches(m, key);
    RangeExact(m, all, key + [0]);
    ReadExact(m, one, Lookup(m, all));
    if key in m { FirstStops(m, [key], limit, DetailOf(all)); }
  }

  lemma FirstStops(m: UserMap, ks: seq<Bytes>, limit: int64, d: Detail)
    requires ks != [] && forall k :: k in ks ==> k in m
    ensures Stops(m, ks, 0, limit, d) <==> EntrySize(d, ks[0], m[ks[0]]) >= MAX_RANGE_SIZE
  {
    EmptySize();
    assert Prefix(m, ks, 0, d) == RangeResponse([], false, 0);
  }

  // ---------- puts and deletes ----------

  /** A put works unless it asks for the previous pair of a missing key. It answers the pair that
      was stored before, if asked, and changes its key alone. */
  lemma PutExact(m: UserMap, put: PutOp)
    ensures Put(m, put).Ok? <==> put.prevKv ==> put.key in m
    ensures Put(m, put).Ok? ==>
              var (m', resp) := Put(m, put).value;
              && PutAnswer(m, put, resp)
              && Get(m', put.key) == Some(put.value) && forall k :: k != put.key ==> Get(m', k) == Get(m, k)
  {
  }

  predicate PutAnswer(m: UserMap, put: PutOp, resp: ResponseOp)
  {
    && resp.ResponsePut? && (resp.prevKv.Some? <==> put.prevKv)
    && (put.prevKv ==> put.key in m && resp.prevKv.value == Pair(put.key, m[put.key]))
  }

  /** The keys a delete removes, in order. */
  ghost function Removed(m: UserMap, del: DeleteOp): (ks: seq<Bytes>)
    ensures Ascending(ks)
    ensures forall k :: k in ks <==>
              k in m && if del.rangeEnd.Some? then InRange(k, del.key, del.rangeEnd.value) else k == del.key
  {
    Sorted(set k | k in m && if del.rangeEnd.Some? then InRange(k, del.key, del.rangeEnd.value) else k == del.key)
  }

  /** The pair number `i` fills the response of the read in front of a range delete. */
  ghost predicate Fills(m: UserMap, ks: seq<Bytes>, i: nat)
    requires i < |ks| && forall k :: k in ks ==> k in m
  {
    SizeResponse(Prefix(m, ks, i, Full)) + |ks[i]| + |m[ks[i]]| >= MAX_RANGE_SIZE
  }

  /** The pairs of the first keys, for a range up to the first one that fills the response. */
  ghost predicate Returned(m: UserMap, ks: seq<Bytes>, range: bool, kvs: seq<KeyValue>)
    requires forall k :: k in ks ==> k in m
  {
    && |kvs| <= |ks| && (forall i :: 0 <= i < |kvs| ==> kvs[i] == Pair(ks[i], m[ks[i]]))
    && (forall i :: 0 <= i < |kvs| && range ==> !Fills(m, ks, i))
    && (|kvs| < |ks| ==> range && Fills(m, ks, |kvs|))
  }

  ghost predicate DeleteAnswer(m: UserMap, del: DeleteOp, resp: ResponseOp)
  {
    var ks := Removed(m, del);
    && resp.ResponseDelete?
    && (if del.prevKv then Returned(m, ks, del.rangeEnd.Some?, resp.prevKvs) else resp.prevKvs == [])
    && (!del.prevKv && !del.count ==> resp.deleted == 0)
    && ((del.prevKv || del.count) && del.rangeEnd == None ==> resp.deleted == 1)
    && (del.prevKv && del.rangeEnd.Some? ==> resp.deleted == |resp.prevKvs|)
    && (!del.prevKv && del.count && del.rangeEnd.Some? && |ks| < Wire.TWO_63 ==> resp.deleted == |ks|)
  }

  lemma RemovedMatches(m: UserMap, del: DeleteOp)
    ensures del.rangeEnd.Some? ==> Removed(m, del) == Matching(m, del.key, del.rangeEnd.value)
    ensures del.rangeEnd == None ==> Removed(m, del) == if del.key in m then [del.key] else []
  {
    hide Removed, Matching, Less, InRange;
    if del.rangeEnd.Some? {
      AscendingUnique(Removed(m, del), Matching(m, del.key, del.rangeEnd.value));
    } else {
      AscendingUnique(Removed(m, del), if del.key in m then [del.key] else []);
    }
  }

  /** A delete removes exactly these keys. */
  lemma RemovedExact(m: UserMap, del: DeleteOp)
    ensures var m' := Delete(m, del).0;
            && (forall k :: k in Removed(m, del) <==> k in m && k !in m')
            && (forall k :: k in m' ==> k in m && m'[k] == m[k])
  {
    hide Removed, InRange, RangeLookup, SingleLookup;
  }

  lemma FullReadReturns(m: UserMap, req: RangeOp, high: Bytes, r: RangeResponse)
    requires RangeAnswer(m, req, high, r) && req.limit == 0 && !req.keysOnly && !req.countOnly
    ensures Returned(m, Matching(m, req.key, high), true, r.kvs) && r.count == |r.kvs|
  {
    hide Matching, Prefix, SizeResponse;
    var ks := Matching(m, req.key, high);
    forall i | 0 <= i < |ks| ensures Stops(m, ks, i, 0, Full) <==> Fills(m, ks, i) {}
    assert DetailOf(req) == Full && |r.kvs| == r.count <= |ks|;
    assert forall i :: 0 <= i < |r.kvs| ==> r.kvs[i] == Pair(ks[i], m[ks[i]]);
    assert forall i :: 0 <= i < |r.kvs| ==> !Fills(m, ks, i);
    assert |r.kvs| < |ks| ==> Fills(m, ks, |r.kvs|);
  }

  lemma DeleteExact(m: UserMap, del: DeleteOp)
    ensures DeleteAnswer(m, del, Delete(m, del).1)
  {
    hide Removed, RangeLookup, Matching, Prefix, SizeResponse, Less, InRange, DeleteRange;
    RemovedMatches(m, del);
    if del.rangeEnd.Some? {
      var req := RangeOp(del.key, del.rangeEnd, 0, false, del.count && !del.prevKv);
      RangeExact(m, req, del.rangeEnd.value);
      if del.prevKv {
        FullReadReturns(m, req, del.rangeEnd.value, RangeLookup(m, req, del.rangeEnd.value));
      } else if del.count && |Removed(m, del)| < Wire.TWO_63 {
        CountsAll(m, req, del.rangeEnd.value);
      }
    }
  }

  /** The previous pairs a delete returns, from the tables before and after it: none unless asked
      for; else those of the first removed keys in order, and of all of them if and only if the
      delete is of one key or all its pairs fit one read. */
  lemma PreviousPairsExact(m: UserMap, del: DeleteOp)
    ensures var (m', resp) := Delete(m, del);
            && resp.ResponseDelete?
            && (!del.prevKv ==> resp.prevKvs == [])
            && (del.prevKv ==>
                  && (forall i :: 0 <= i < |resp.prevKvs| ==> PairOf(m, m', resp.prevKvs[i]))
                  && (forall i, j :: 0 <= i < j < |resp.prevKvs| ==> Less(resp.prevKvs[i].key, resp.prevKvs[j].key))
                  && ((forall k :: k in m && k !in m' ==> Pair(k, m[k]) in resp.prevKvs) <==>
                      (del.rangeEnd.Some? ==> ReadsAll(m, del.key, del.rangeEnd.value))))
  {
    hide Removed, Delete, Matching, Prefix, SizeResponse, Less, InRange;
    DeleteExact(m, del);
    RemovedExact(m, del);
    RemovedMatches(m, del);
    if del.prevKv {
      var ks, kvs := Removed(m, del), Delete(m, del).1.prevKvs;
      assert forall i :: 0 <= i < |kvs| ==> ks[i] in ks;
      AllReturned(m, ks, kvs);
      ReadsAllFills(m, del);
    }
  }

  /** A pair that was stored before and is gone. */
  predicate PairOf(m: UserMap, m': UserMap, kv: KeyValue)
  {
    kv.key in m && kv.key !in m' && kv == Pair(kv.key, m[kv.key])
  }

  lemma AllReturned(m: UserMap, ks: seq<Bytes>, kvs: seq<KeyValue>)
    requires Ascending(ks) && (forall k :: k in ks ==> k in m) && |kvs| <= |ks|
    requires forall i :: 0 <= i < |kvs| ==> kvs[i] == Pair(ks[i], m[ks[i]])
    ensures |kvs| == |ks| <==> forall k :: k in ks ==> Pair(k, m[k]) in kvs
  {
    hide Less;
    if |kvs| == |ks| {
      forall k | k in ks ensures Pair(k, m[k]) in kvs {
        var i :| 0 <= i < |ks| && ks[i] == k;
        assert kvs[i] == Pair(k, m[k]);
      }
    } else {
      var k := ks[|kvs|];
      if Pair(k, m[k]) in kvs {
        var i :| 0 <= i < |kvs| && kvs[i] == Pair(k, m[k]);
        LessTotal(ks[i], k);
      }
    }
  }

  lemma ReadsAllFills(m: UserMap, del: DeleteOp)
    requires del.prevKv && DeleteAnswer(m, del, Delete(m, del).1)
    ensures |Delete(m, del).1.prevKvs| == |Removed(m, del)| <==>
            (del.rangeEnd.Some? ==> ReadsAll(m, del.key, del.rangeEnd.value))
  {
    hide Removed, Delete, Matching, Prefix, SizeResponse;
    RemovedMatches(m, del);
    var ks := Removed(m, del);
    if del.rangeEnd.Some? {
      if ReadsAll(m, del.key, del.rangeEnd.value) {
        forall i | 0 <= i < |ks| ensures !Fills(m, ks, i) { assert ks[i] in ks; }
      } else {
        var i :| 0 <= i < |ks| && SizeResponse(Prefix(m, ks, i, Full)) + |ks[i]| + |m[ks[i]]| >= MAX_RANGE_SIZE;
        assert Fills(m, ks, i);
      }
    }
  }

  // ---------- transactions ----------

  /** The answer to one operation that is set, on the table it finds. */
  ghost predicate OpAnswer(t: UserMap, op: RequestOp, resp: ResponseOp)
  {
    match op
    case RequestRange(range) => resp.ResponseRange? && ReadAnswer(t, range, resp.range)
    case RequestPut(put) => PutAnswer(t, put, resp)
    case RequestDelete(del) => DeleteAnswer(t, del, resp)
    case RequestNone => false
  }

  /** How many of the operations are set. */
  function Responding(ops: seq<RequestOp>): (n: nat)
  {
    if ops == [] then 0 else Responding(ops[..|ops| - 1]) + if ops[|ops| - 1].RequestNone? then 0 else 1
  }

  /** The table after some commands, key by key. */
  ghost predicate After(m: UserMap, cs: seq<Command>, t: UserMap)
  {
    forall k :: Get(t, k) == OnKeys(Get(m, k), cs, k)
  }

  /** One response for every operation that is set, in order, each on the table that the
      operations before it leave. */
  ghost predicate TxnAnswers(m: UserMap, ops: seq<RequestOp>, resps: seq<ResponseOp>)
  {
    && |resps| == Responding(ops)
    && forall i :: 0 <= i < |ops| && !ops[i].RequestNone? ==> Answered(m, ops, resps, i)
  }

  ghost predicate Answered(m: UserMap, ops: seq<RequestOp>, resps: seq<ResponseOp>, i: nat)
    requires i < |ops|
  {
    && Responding(ops[..i]) < |resps|
    && exists t :: After(m, Singles(ops[..i]), t) && OpAnswer(t, ops[i], resps[Responding(ops[..i])])
  }

  lemma OneRequest(m: UserMap, op: RequestOp)
    requires Request(m, op).Ok?
    ensures |Request(m, op).value.1| == if op.RequestNone? then 0 else 1
    ensures !op.RequestNone? ==> OpAnswer(m, op, Request(m, op).value.1[0])
  {
    hide Lookup, Delete, Put, ReadAnswer, DeleteAnswer, PutAnswer;
    match op
    case RequestRange(range) => ReadExact(m, range, Lookup(m, range));
    case RequestPut(put) => PutExact(m, put);
    case RequestDelete(del) => DeleteExact(m, del);
    case RequestNone =>
  }

  lemma {:induction false} RequestsSplit(m: UserMap, ops: seq<RequestOp>, i: nat)
    requires i <= |ops| && Requests(m, ops).Ok?
    ensures Requests(m, ops[..i]).Ok? && Requests(Requests(m, ops[..i]).value.0, ops[i..]).Ok?
    ensures Requests(m, ops).value.1 ==
            Requests(m, ops[..i]).value.1 + Requests(Requests(m, ops[..i]).value.0, ops[i..]).value.1
    decreases i
  {
    hide Request;
    if i == 0 {
      assert ops[..0] == [] && ops[0..] == ops;
      assert [] + Requests(m, ops).value.1 == Requests(m, ops).value.1;
    } else {
      var p := Request(m, ops[0]).value;
      RequestsSplit(p.0, ops[1..], i - 1);
      assert ops[..i][1..] == ops[1..][..i - 1] && ops[1..][i - 1..] == ops[i..];
      var a := Requests(p.0, ops[1..][..i - 1]).value;
      var b := Requests(a.0, ops[i..]).value;
      assert p.1 + (a.1 + b.1) == p.1 + a.1 + b.1;
    }
  }

  lemma {:induction false} RequestsCount(m: UserMap, ops: seq<RequestOp>)
    requires Requests(m, ops).Ok?
    ensures |Requests(m, ops).value.1| == Responding(ops)
    decreases |ops|
  {
    hide Request;
    if ops != [] {
      var n := |ops| - 1;
      RequestsSplit(m, ops, n);
      RequestsCount(m, ops[..n]);
      var t := Requests(m, ops[..n]).value.0;
      assert ops[n..][1..] == [];
      OneRequest(t, ops[n]);
    }
  }

  lemma AfterRequests(m: UserMap, ops: seq<RequestOp>)
    requires Requests(m, ops).Ok?
    ensures After(m, Singles(ops), Requests(m, ops).value.0)
  {
    hide Requests, ApplySequence, OnKeys, Singles;
    SinglesSame(m, ops);
    SinglesTxnFree(ops);
    forall k ensures Get(Requests(m, ops).value.0, k) == OnKeys(Get(m, k), Singles(ops), k) {
      SequenceOnKey(m, Singles(ops), k);
    }
  }

  /** The responses of a transaction's operations. */
  lemma TxnExact(m: UserMap, ops: seq<RequestOp>)
    requires Requests(m, ops).Ok?
    ensures TxnAnswers(m, ops, Requests(m, ops).value.1)
  {
    hide Requests, Request, OpAnswer, After, Responding, Singles;
    var resps := Requests(m, ops).value.1;
    RequestsCount(m, ops);
    forall i | 0 <= i < |ops| && !ops[i].RequestNone? ensures Answered(m, ops, resps, i) {
      RequestsSplit(m, ops, i);
      RequestsCount(m, ops[..i]);
      AfterRequests(m, ops[..i]);
      var t := Requests(m, ops[..i]).value.0;
      FirstRequest(t, ops[i..]);
      OneRequest(t, ops[i]);
    }
  }

  lemma FirstRequest(m: UserMap, ops: seq<RequestOp>)
    requires ops != [] && Requests(m, ops).Ok?
    ensures Request(m, ops[0]).Ok? && Request(m, ops[0]).value.1 <= Requests(m, ops).value.1
  {
    hide Request;
  }

  // ---------- commands ----------

  /** The responses of a command, on the table it finds. */
  ghost predicate CommandAnswer(m: UserMap, c: Command, resps: seq<ResponseOp>)
    decreases c, 1
  {
    if c.kind == PUT then
      c.kv.Some? && |resps| == 1 && PutAnswer(m, PutOp(c.kv.value.key, c.kv.value.value, c.prevKvs), resps[0])
    else if c.kind == DELETE then
      && c.kv.Some? && |resps| == 1
      && DeleteAnswer(m, DeleteOp(c.kv.value.key, c.rangeEnd, c.prevKvs, c.count), resps[0])
    else if c.kind == PUT_BATCH then
      |resps| == |c.batch| && forall i :: 0 <= i < |resps| ==> resps[i] == ResponsePut(None)
    else if c.kind == DELETE_BATCH then
      |resps| == |c.batch| && forall i :: 0 <= i < |resps| ==> resps[i] == ResponseDelete(0, [])
    else if c.kind == TXN then
      && c.txn.Some?
      && TxnAnswers(m, if CompareAll(m, c.txn.value.compare) then c.txn.value.success else c.txn.value.failure, resps)
    else if c.kind == SEQUENCE then SequenceAnswer(m, c.sequence, resps)
    else c.kind == DUMMY && resps == []
  }

  /** The responses of the commands of a sequence, one after the other. */
  ghost predicate SequenceAnswer(m: UserMap, cs: seq<Command>, resps: seq<ResponseOp>)
    decreases cs, 0
  {
    if cs == [] then resps == []
    else
      && Apply(m, cs[0]).Ok?
      && exists n :: && 0 <= n <= |resps| && CommandAnswer(m, cs[0], resps[..n])
                     && SequenceAnswer(Apply(m, cs[0]).value.m, cs[1..], resps[n..])
  }

  lemma {:induction false} BatchAnswers(m: UserMap, kvs: seq<KeyValue>)
    ensures forall i :: 0 <= i < |kvs| ==> PutBatch(m, kvs).1[i] == ResponsePut(None)
    ensures forall i :: 0 <= i < |kvs| ==> DeleteBatch(m, kvs).1[i] == ResponseDelete(0, [])
  {
    if kvs != [] { BatchAnswers(m, kvs[..|kvs| - 1]); }
  }

  /** A command that works answers so, and succeeds unless it is a transaction whose comparisons
      do not hold. */
  lemma {:induction false} CommandExact(m: UserMap, c: Command)
    requires Apply(m, c).Ok?
    ensures CommandAnswer(m, c, Apply(m, c).value.responses)
    ensures c.kind == TXN ==> c.txn.Some?
    ensures Apply(m, c).value.success <==> (c.kind == TXN ==> CompareAll(m, c.txn.value.compare))
    decreases c, 1
  {
    hide Put, Delete, PutBatch, DeleteBatch, Requests, CompareAll, TxnAnswers, PutAnswer, DeleteAnswer, SequenceAnswer,
      ApplySequence;
    if c.kind == PUT {
      PutExact(m, PutOp(c.kv.value.key, c.kv.value.value, c.prevKvs));
    } else if c.kind == DELETE {
      DeleteExact(m, DeleteOp(c.kv.value.key, c.rangeEnd, c.prevKvs, c.count));
    } else if c.kind == PUT_BATCH || c.kind == DELETE_BATCH {
      BatchAnswers(m, c.batch);
    } else if c.kind == TXN {
      TxnExact(m, if CompareAll(m, c.txn.value.compare) then c.txn.value.success else c.txn.value.failure);
    } else if c.kind == SEQUENCE {
      SequenceExact(m, c.sequence);
    }
  }

  lemma {:induction false} SequenceExact(m: UserMap, cs: seq<Command>)
    requires ApplySequence(m, cs).Ok?
    ensures SequenceAnswer(m, cs, ApplySequence(m, cs).value.responses)
    ensures ApplySequence(m, cs).value.success
    decreases cs, 0
  {
    hide Apply, CommandAnswer;
    if cs != [] {
      var e := Apply(m, cs[0]).value;
      CommandExact(m, cs[0]);
      SequenceExact(e.m, cs[1..]);
      var resps, n := ApplySequence(m, cs).value.responses, |e.responses|;
      assert resps[..n] == e.responses && resps[n..] == ApplySequence(e.m, cs[1..]).value.responses;
    }
  }

  // ---------- entries ----------

  /** The result of an entry: the responses come with the index of the entry, and none come
      without data. */
  ghost predicate ResultAnswer(m: UserMap, e: Update.Entry, r: Update.EntryResult)
  {
    match DecodeCommand(e.cmd)
    case None => false
    case Some(c) =>
      && (r.success <==> (c.kind == TXN ==> c.txn.Some? && CompareAll(m, c.txn.value.compare)))
      && match r.data
         case None => CommandAnswer(m, c, [])
         case Some(d) => d.revision == e.index && d.responses != [] && CommandAnswer(m, c, d.responses)
  }

  /** A run that works has one result for every entry, each on the table the entries before it
      leave. */
  lemma ResultsExact(m: UserMap, es: seq<Update.Entry>, i: nat)
    requires Update.Run(m, es).Ok? && i < |es|
    ensures |Update.Run(m, es).value.1| == |es| && Update.Run(m, es[..i]).Ok?
    ensures ResultAnswer(Update.Run(m, es[..i]).value.0, es[i], Update.Run(m, es).value.1[i])
  {
    hide Update.Run, Update.Step, ResultAnswer;
    assert es == es[..i] + es[i..] && es[i..] == [es[i]] + es[i + 1..];
    Update.RunConcat(m, es[..i], es[i..]);
    RunCount(m, es);
    RunCount(m, es[..i]);
    var t := Update.Run(m, es[..i]).value.0;
    FirstResult(t, es[i..]);
  }

  lemma {:induction false} RunCount(m: UserMap, es: seq<Update.Entry>)
    ensures Update.Run(m, es).Ok? ==> |Update.Run(m, es).value.1| == |es|
    decreases |es|
  {
    hide Update.Step;
    if es != [] && Update.Step(m, es[0]).Ok? { RunCount(Update.Step(m, es[0]).value.0, es[1..]); }
  }

  lemma FirstResult(m: UserMap, es: seq<Update.Entry>)
    requires es != [] && Update.Run(m, es).Ok?
    ensures Update.Run(m, es).value.1 != [] && ResultAnswer(m, es[0], Update.Run(m, es).value.1[0])
  {
    hide Apply, DecodeCommand, CommandAnswer, CompareAll;
    var c := DecodeCommand(es[0].cmd).value;
    var e, r := Apply(m, c).value, Update.Run(m, es).value.1[0];
    CommandExact(m, c);
    assert r.success == e.success;
    if e.responses == [] {
      assert r.data == None;
    } else {
      assert r.data == Some(Update.CommandResult(es[0].index, e.responses));
    }
  }
}
