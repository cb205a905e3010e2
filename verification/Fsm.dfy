/** The table state machine: commands are applied to a batch over the store, which becomes
    readable only when a command needs to read, and each call of `Update` commits once. */
module Fsm {
  import opened ByteStrings
  import opened Messages
  import opened Keys
  import opened Store
  import opened Query
  import opened Table

  class UpdateContext {
    const db: RawMap
    var batch: seq<BatchOp>
    var indexed: bool
    var index: uint64
    var leaderIndex: Option<uint64>

    constructor (db: RawMap)
      requires Valid(db)
      ensures this.db == db && batch == [] && !indexed && index == 0 && leaderIndex == None
    {
      this.db, batch, indexed, index, leaderIndex := db, [], false, 0, None;
    }

    /** The store with the pending operations. */
    ghost function View(): (r: RawMap)
      reads this
    {
      ApplyOps(db, batch)
    }

    ghost function Seen(): (m: UserMap)
      reads this
    {
      Users(View())
    }

    /** What every operation on user keys keeps. */
    twostate predicate Keeps()
      reads this
    {
      Valid(View()) && SameSystem(old(View()), View()) &&
      index == old(index) && leaderIndex == old(leaderIndex)
    }

    /** The old batch is applied to a fresh indexed one. */
    method EnsureIndexed()
      modifies this`batch, this`indexed
      ensures indexed && batch == old(batch)
    {
      if indexed { return; }
      var empty: seq<BatchOp> := [];
      batch := empty + batch;
      indexed := true;
    }

    /** Only an indexed batch can be read. */
    method Reader() returns (r: RawMap)
      requires indexed
      ensures r == View()
    {
      r := ApplyOps(db, batch);
    }

    method Push(op: BatchOp)
      modifies this`batch
      ensures batch == old(batch) + [op] && View() == ApplyOp(old(View()), op)
    {
      ApplyOneMore(db, batch, op);
      batch := batch + [op];
    }

    method HandlePut(put: PutOp) returns (r: Outcome<ResponseOp>)
      requires Valid(View())
      modifies this
      ensures Keeps() && (old(indexed) ==> indexed)
      ensures match Put(old(Seen()), put)
              case Fault => r == Fault
              case Ok(p) => r == Ok(p.1) && Seen() == p.0
    {
      hide Valid, Users, SameSystem, ApplyOps, ApplyOp, EncodeUser;
      var prev := None;
      if put.prevKv {
        EnsureIndexed();
        var reader := Reader();
        var rng := LookupSingle(reader, RangeOp(put.key, None, 0, false, false));
        if |rng.kvs| == 0 {
          SameSystemReflexive(View());
          return Fault;
        }
        prev := Some(rng.kvs[0]);
      }
      SetUser(View(), put.key, put.value);
      UserOpsKeepSystem(View(), put.key, put.value, [], []);
      Push(Set(EncodeUser(put.key), put.value));
      r := Ok(ResponsePut(prev));
    }

    method HandleDelete(del: DeleteOp) returns (r: Outcome<ResponseOp>)
      requires Valid(View())
      modifies this
      ensures Keeps() && (old(indexed) ==> indexed)
      ensures r == Ok(Delete(old(Seen()), del).1) && Seen() == Delete(old(Seen()), del).0
    {
      hide Valid, Users, SameSystem, RangeLookup, DeleteRange, LowerBound, UpperBound, ApplyOps, ApplyOp, Within,
        InRange, EncodeUser, SingleLookup;
      var deleted, prevKvs := 0, [];
      var req := RangeOp(del.key, del.rangeEnd, 0, false, del.count && !del.prevKv);
      if del.rangeEnd.Some? {
        var high := del.rangeEnd.value;
        if del.prevKv || del.count {
          EnsureIndexed();
          var reader := Reader();
          var rng := LookupRange(reader, req, high);
          deleted, prevKvs := rng.value.count, rng.value.kvs;
        }
        var lower, upper := IterOptionsForBounds(del.key, high);
        RemoveUserRange(View(), del.key, high);
        UserOpsKeepSystem(View(), [], [], del.key, high);
        Push(RemoveRange(lower, upper));
      } else {
        if del.prevKv || del.count {
          EnsureIndexed();
          var reader := Reader();
          var rng := LookupSingle(reader, req);
          deleted, prevKvs := 1, rng.kvs;
        }
        RemoveUser(View(), del.key);
        UserOpsKeepSystem(View(), del.key, [], [], []);
        Push(Remove(EncodeUser(del.key)));
      }
      r := Ok(ResponseDelete(deleted, prevKvs));
    }

    method HandlePutBatch(kvs: seq<KeyValue>) returns (responses: seq<ResponseOp>)
      requires Valid(View())
      modifies this
      ensures Keeps()
      ensures responses == PutBatch(old(Seen()), kvs).1 && Seen() == PutBatch(old(Seen()), kvs).0
    {
      hide Valid, Users, SameSystem, ApplyOps, PutBatch;
      var i := 0;
      NoBatch(Seen());
      assert kvs[..0] == [];
      responses := [];
      SameSystemReflexive(View());
      while i < |kvs|
        invariant i <= |kvs| && Keeps()
        invariant PutBatch(old(Seen()), kvs[..i]) == (Seen(), responses)
      {
        ghost var before := View();
        var put := PutOp(kvs[i].key, kvs[i].value, false);
        var r := HandlePut(put);
        SameSystemTransitive(old(View()), before, View());
        BatchSteps(old(Seen()), kvs, i);
        responses, i := responses + [r.value], i + 1;
      }
      assert kvs[..i] == kvs;
    }

    method HandleDeleteBatch(kvs: seq<KeyValue>) returns (responses: seq<ResponseOp>)
      requires Valid(View())
      modifies this
      ensures Keeps()
      ensures responses == DeleteBatch(old(Seen()), kvs).1 && Seen() == DeleteBatch(old(Seen()), kvs).0
    {
      hide Valid, Users, SameSystem, ApplyOps, DeleteBatch;
      var i := 0;
      NoBatch(Seen());
      assert kvs[..0] == [];
      responses := [];
      SameSystemReflexive(View());
      while i < |kvs|
        invariant i <= |kvs| && Keeps()
        invariant DeleteBatch(old(Seen()), kvs[..i]) == (Seen(), responses)
      {
        ghost var before := View();
        var del := DeleteOp(kvs[i].key, None, false, false);
        var r := HandleDelete(del);
        SameSystemTransitive(old(View()), before, View());
        BatchSteps(old(Seen()), kvs, i);
        responses, i := responses + [r.value], i + 1;
      }
      assert kvs[..i] == kvs;
    }

    method HandleRequest(op: RequestOp) returns (r: Outcome<seq<ResponseOp>>)
      requires Valid(View()) && indexed
      modifies this
      ensures Keeps() && indexed
      ensures match Request(old(Seen()), op)
              case Fault => r == Fault
              case Ok(p) => r == Ok(p.1) && Seen() == p.0
    {
      hide Valid, Users, SameSystem, ApplyOps, Lookup, Put, Delete;
      SameSystemReflexive(View());
      match op
      case RequestRange(range) =>
        var reader := Reader();
        var found := LookupAny(reader, range);
        r := Ok([ResponseRange(found.value)]);
      case RequestPut(put) =>
        var resp := HandlePut(put);
        r := if resp == Fault then Fault else Ok([resp.value]);
      case RequestDelete(del) =>
        var resp := HandleDelete(del);
        r := if resp == Fault then Fault else Ok([resp.value]);
      case RequestNone =>
        r := Ok([]);
    }

    method HandleTxnOps(ops: seq<RequestOp>) returns (r: Outcome<seq<ResponseOp>>)
      requires Valid(View()) && indexed
      modifies this
      ensures Keeps()
      ensures match Requests(old(Seen()), ops)
              case Fault => r == Fault
              case Ok(p) => r == Ok(p.1) && Seen() == p.0
    {
      hide Valid, Users, SameSystem, ApplyOps, Request;
      var i, responses := 0, [];
      SameSystemReflexive(View());
      assert ops[0..] == ops;
      ghost var all := Requests(Seen(), ops);
      if all.Ok? { assert [] + all.value.1 == all.value.1; }
      while i < |ops|
        invariant i <= |ops| && Keeps() && indexed
        invariant Requests(old(Seen()), ops) ==
                  match Requests(Seen(), ops[i..])
                  case Fault => Fault
                  case Ok(p) => Ok((p.0, responses + p.1))
      {
        ghost var before := View();
        var resp := HandleRequest(ops[i]);
        SameSystemTransitive(old(View()), before, View());
        assert ops[i..][1..] == ops[i + 1..];
        if resp == Fault { return Fault; }
        ghost var rest := Requests(Seen(), ops[i + 1..]);
        if rest.Ok? { assert responses + (resp.value + rest.value.1) == responses + resp.value + rest.value.1; }
        responses, i := responses + resp.value, i + 1;
      }
      assert ops[i..] == [] && responses + [] == responses;
      r := Ok(responses);
    }

    method HandleTxn(txn: Txn) returns (r: Outcome<(bool, seq<ResponseOp>)>)
      requires Valid(View())
      modifies this
      ensures Keeps()
      ensures var ok := CompareAll(old(Seen()), txn.compare);
              match Requests(old(Seen()), if ok then txn.success else txn.failure)
              case Fault => r == Fault
              case Ok(p) => r == Ok((ok, p.1)) && Seen() == p.0
    {
      hide Valid, Users, SameSystem, ApplyOps, Requests, CompareAll;
      EnsureIndexed();
      var reader := Reader();
      var ok := TxnCompare(reader, txn.compare);
      var responses := HandleTxnOps(if ok then txn.success else txn.failure);
      r := if responses == Fault then Fault else Ok((ok, responses.value));
    }

    /** A command of any kind; a sequence handles its commands one by one. */
    method Handle(c: Command) returns (r: Outcome<(bool, seq<ResponseOp>)>)
      requires Valid(View())
      modifies this
      ensures Keeps()
      ensures match Apply(old(Seen()), c)
              case Fault => r == Fault
              case Ok(e) => r == Ok((e.success, e.responses)) && Seen() == e.m
      decreases c, 1
    {
      hide Valid, Users, SameSystem, ApplyOps, Put, Delete, PutBatch, DeleteBatch, Requests, CompareAll;
      SameSystemReflexive(View());
      if c.kind == PUT {
        if c.kv == None { return Fault; }
        var resp := HandlePut(PutOp(c.kv.value.key, c.kv.value.value, c.prevKvs));
        return if resp == Fault then Fault else Ok((true, [resp.value]));
      } else if c.kind == DELETE {
        if c.kv == None { return Fault; }
        var resp := HandleDelete(DeleteOp(c.kv.value.key, c.rangeEnd, c.prevKvs, c.count));
        return Ok((true, [resp.value]));
      } else if c.kind == DUMMY {
        return Ok((true, []));
      } else if c.kind == PUT_BATCH {
        var responses := HandlePutBatch(c.batch);
        return Ok((true, responses));
      } else if c.kind == DELETE_BATCH {
        var responses := HandleDeleteBatch(c.batch);
        return Ok((true, responses));
      } else if c.kind == TXN {
        if c.txn == None { return Fault; }
        r := HandleTxn(c.txn.value);
        return;
      } else if c.kind == SEQUENCE {
        var responses := HandleSequence(c.sequence);
        return if responses == Fault then Fault else Ok((true, responses.value));
      }
      return Fault;
    }

    method HandleSequence(cs: seq<Command>) returns (r: Outcome<seq<ResponseOp>>)
      requires Valid(View())
      modifies this
      ensures Keeps()
      ensures match ApplySequence(old(Seen()), cs)
              case Fault => r == Fault
              case Ok(e) => r == Ok(e.responses) && Seen() == e.m
      decreases cs, 0
    {
      hide Valid, Users, SameSystem, ApplyOps, Apply;
      var i, responses := 0, [];
      SameSystemReflexive(View());
      assert cs[0..] == cs;
      ghost var all := ApplySequence(Seen(), cs);
      if all.Ok? {
        SequenceSucceeds(Seen(), cs);
        assert [] + all.value.responses == all.value.responses;
      }
      while i < |cs|
        invariant i <= |cs| && Keeps()
        invariant ApplySequence(old(Seen()), cs) ==
                  match ApplySequence(Seen(), cs[i..])
                  case Fault => Fault
                  case Ok(e) => Ok(Effect(e.m, true, responses + e.responses))
      {
        ghost var before := View();
        var resp := Handle(cs[i]);
        SameSystemTransitive(old(View()), before, View());
        assert cs[i..][1..] == cs[i + 1..];
        if resp == Fault { return Fault; }
        ghost var rest := ApplySequence(Seen(), cs[i + 1..]);
        if rest.Ok? {
          assert responses + (resp.value.1 + rest.value.responses) == responses + resp.value.1 + rest.value.responses;
        }
        responses, i := responses + resp.value.1, i + 1;
      }
      assert cs[i..] == [] && responses + [] == responses;
      r := Ok(responses);
    }
  }

  lemma SequenceSucceeds(m: UserMap, cs: seq<Command>)
    ensures ApplySequence(m, cs).Ok? ==> ApplySequence(m, cs).value.success
  {
  }

  lemma SameSystemReflexive(a: RawMap)
    ensures SameSystem(a, a)
  {
  }

  lemma SameSystemTransitive(a: RawMap, b: RawMap, c: RawMap)
    requires SameSystem(a, b) && SameSystem(b, c)
    ensures SameSystem(a, c)
  {
  }
}
