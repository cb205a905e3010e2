/** Applying part of a log again. Commands other than transactions write blindly, so on every
    key a command either leaves the value alone or replaces it by a value that does not
    depend on the old one. */
module Replay {
  import opened ByteStrings
  import opened Messages
  import opened Keys
  import opened Table
  import opened CommandCodec

  function Get(m: UserMap, k: Bytes): (v: Option<Bytes>)
  {
    if k in m then Some(m[k]) else None
  }

  /** No transaction at any depth. */
  ghost predicate TxnFree(c: Command)
  {
    c.kind != TXN && (c.kind == SEQUENCE ==> forall i :: 0 <= i < |c.sequence| ==> TxnFree(c.sequence[i]))
  }

  ghost predicate AllTxnFree(cs: seq<Command>)
  {
    forall i :: 0 <= i < |cs| ==> TxnFree(cs[i])
  }

  /** No put asks for the previous value, at any depth. */
  ghost predicate Blind(c: Command)
  {
    && (c.kind == PUT ==> !c.prevKvs)
    && (c.kind == SEQUENCE ==> forall i :: 0 <= i < |c.sequence| ==> Blind(c.sequence[i]))
  }

  ghost predicate AllBlind(cs: seq<Command>)
  {
    forall i :: 0 <= i < |cs| ==> Blind(cs[i])
  }

  // ---------- one key at a time ----------

  function BatchOnKey(v: Option<Bytes>, kvs: seq<KeyValue>, put: bool, k: Bytes): (r: Option<Bytes>)
  {
    if kvs == [] then v
    else
      var last := kvs[|kvs| - 1];
      if last.key == k then (if put then Some(last.value) else None)
      else BatchOnKey(v, kvs[..|kvs| - 1], put, k)
  }

  /** What a command does to the value of one key. */
  function OnKey(v: Option<Bytes>, c: Command, k: Bytes): (r: Option<Bytes>)
    decreases c, 1
  {
    if c.kind == PUT && c.kv.Some? then if c.kv.value.key == k then Some(c.kv.value.value) else v
    else if c.kind == DELETE && c.kv.Some? then
      var low := c.kv.value.key;
      if (if c.rangeEnd.Some? then InRange(k, low, c.rangeEnd.value) else k == low) then None else v
    else if c.kind == PUT_BATCH then BatchOnKey(v, c.batch, true, k)
    else if c.kind == DELETE_BATCH then BatchOnKey(v, c.batch, false, k)
    else if c.kind == SEQUENCE then OnKeys(v, c.sequence, k)
    else v
  }

  function OnKeys(v: Option<Bytes>, cs: seq<Command>, k: Bytes): (r: Option<Bytes>)
    decreases cs, 0
  {
    if cs == [] then v else OnKeys(OnKey(v, cs[0], k), cs[1..], k)
  }

  lemma {:induction false} PutBatchOnKey(m: UserMap, kvs: seq<KeyValue>, k: Bytes)
    ensures Get(PutBatch(m, kvs).0, k) == BatchOnKey(Get(m, k), kvs, true, k)
  {
    if kvs != [] { PutBatchOnKey(m, kvs[..|kvs| - 1], k); }
  }

  lemma {:induction false} DeleteBatchOnKey(m: UserMap, kvs: seq<KeyValue>, k: Bytes)
    ensures Get(DeleteBatch(m, kvs).0, k) == BatchOnKey(Get(m, k), kvs, false, k)
  {
    if kvs != [] { DeleteBatchOnKey(m, kvs[..|kvs| - 1], k); }
  }

  /** The key-wise description is what the state machine does. */
  lemma {:induction false} ApplyOnKey(m: UserMap, c: Command, k: Bytes)
    requires TxnFree(c) && Apply(m, c).Ok?
    ensures Get(Apply(m, c).value.m, k) == OnKey(Get(m, k), c, k)
    decreases c, 1
  {
    hide InRange, RangeLookup, SingleLookup;
    if c.kind == PUT_BATCH {
      PutBatchOnKey(m, c.batch, k);
    } else if c.kind == DELETE_BATCH {
      DeleteBatchOnKey(m, c.batch, k);
    } else if c.kind == SEQUENCE {
      SequenceOnKey(m, c.sequence, k);
    }
  }

  lemma {:induction false} SequenceOnKey(m: UserMap, cs: seq<Command>, k: Bytes)
    requires AllTxnFree(cs) && ApplySequence(m, cs).Ok?
    ensures Get(ApplySequence(m, cs).value.m, k) == OnKeys(Get(m, k), cs, k)
    decreases cs, 0
  {
    hide Apply, OnKey, TxnFree;
    if cs != [] {
      ApplyOnKey(m, cs[0], k);
      SequenceOnKey(Apply(m, cs[0]).value.m, cs[1..], k);
    }
  }

  /** On every key a command is the identity or a constant. */
  lemma {:induction false} OnKeyShape(c: Command, k: Bytes, v: Option<Bytes>, w: Option<Bytes>)
    ensures (OnKey(v, c, k) == v && OnKey(w, c, k) == w) || OnKey(v, c, k) == OnKey(w, c, k)
    decreases c, 1
  {
    hide InRange;
    if c.kind == PUT_BATCH {
      BatchShape(c.batch, true, k, v, w);
    } else if c.kind == DELETE_BATCH {
      BatchShape(c.batch, false, k, v, w);
    } else if c.kind == SEQUENCE {
      OnKeysShape(c.sequence, k, v, w);
    }
  }

  lemma {:induction false} BatchShape(kvs: seq<KeyValue>, put: bool, k: Bytes, v: Option<Bytes>, w: Option<Bytes>)
    ensures (BatchOnKey(v, kvs, put, k) == v && BatchOnKey(w, kvs, put, k) == w) ||
            BatchOnKey(v, kvs, put, k) == BatchOnKey(w, kvs, put, k)
  {
    if kvs != [] { BatchShape(kvs[..|kvs| - 1], put, k, v, w); }
  }

  lemma {:induction false} OnKeysShape(cs: seq<Command>, k: Bytes, v: Option<Bytes>, w: Option<Bytes>)
    ensures (OnKeys(v, cs, k) == v && OnKeys(w, cs, k) == w) || OnKeys(v, cs, k) == OnKeys(w, cs, k)
    decreases cs, 0
  {
    hide OnKey;
    if cs != [] {
      OnKeyShape(cs[0], k, v, w);
      OnKeysShape(cs[1..], k, OnKey(v, cs[0], k), OnKey(w, cs[0], k));
    }
  }

  lemma OnKeysTwice(cs: seq<Command>, k: Bytes, v: Option<Bytes>)
    ensures OnKeys(OnKeys(v, cs, k), cs, k) == OnKeys(v, cs, k)
  {
    hide OnKeys;
    OnKeysShape(cs, k, v, OnKeys(v, cs, k));
  }

  lemma {:induction false} OnKeysConcat(v: Option<Bytes>, a: seq<Command>, b: seq<Command>, k: Bytes)
    ensures OnKeys(v, a + b, k) == OnKeys(OnKeys(v, a, k), b, k)
    decreases |a|
  {
    hide OnKey;
    if a == [] {
      assert a + b == b;
    } else {
      assert (a + b)[1..] == a[1..] + b;
      OnKeysConcat(OnKey(v, a[0], k), a[1..], b, k);
    }
  }

  lemma {:induction false} SequenceConcat(m: UserMap, a: seq<Command>, b: seq<Command>)
    ensures ApplySequence(m, a + b).Ok? <==>
            ApplySequence(m, a).Ok? && ApplySequence(ApplySequence(m, a).value.m, b).Ok?
    ensures ApplySequence(m, a + b).Ok? ==>
              ApplySequence(m, a + b).value.m == ApplySequence(ApplySequence(m, a).value.m, b).value.m
    decreases |a|
  {
    hide Apply;
    if a == [] {
      assert a + b == b;
    } else {
      assert (a + b)[1..] == a[1..] + b;
      var e := Apply(m, a[0]);
      if e.Ok? { SequenceConcat(e.value.m, a[1..], b); }
    }
  }

  // ---------- failures ----------

  /** A command that works on some keys works when there are more. */
  ghost predicate KeysWithin(m: UserMap, m': UserMap)
  {
    forall k :: k in m ==> k in m'
  }

  lemma {:induction false} BatchKeysWithin(m: UserMap, m': UserMap, kvs: seq<KeyValue>)
    requires KeysWithin(m, m')
    ensures KeysWithin(PutBatch(m, kvs).0, PutBatch(m', kvs).0)
    ensures KeysWithin(DeleteBatch(m, kvs).0, DeleteBatch(m', kvs).0)
  {
    if kvs != [] { BatchKeysWithin(m, m', kvs[..|kvs| - 1]); }
  }

  lemma {:induction false} ApplyWithMoreKeys(m: UserMap, m': UserMap, c: Command)
    requires TxnFree(c) && Apply(m, c).Ok? && KeysWithin(m, m')
    ensures Apply(m', c).Ok? && KeysWithin(Apply(m, c).value.m, Apply(m', c).value.m)
    decreases c, 1
  {
    hide InRange, RangeLookup, SingleLookup;
    if c.kind == PUT_BATCH || c.kind == DELETE_BATCH {
      BatchKeysWithin(m, m', c.batch);
    } else if c.kind == SEQUENCE {
      SequenceWithMoreKeys(m, m', c.sequence);
    }
  }

  lemma {:induction false} SequenceWithMoreKeys(m: UserMap, m': UserMap, cs: seq<Command>)
    requires AllTxnFree(cs) && ApplySequence(m, cs).Ok? && KeysWithin(m, m')
    ensures ApplySequence(m', cs).Ok?
    ensures KeysWithin(ApplySequence(m, cs).value.m, ApplySequence(m', cs).value.m)
    decreases cs, 0
  {
    hide Apply, TxnFree, KeysWithin;
    if cs != [] {
      ApplyWithMoreKeys(m, m', cs[0]);
      SequenceWithMoreKeys(Apply(m, cs[0]).value.m, Apply(m', cs[0]).value.m, cs[1..]);
    }
  }

  /** A command that asks for no previous value works on any map or on none. */
  lemma {:induction false} BlindWorksAnywhere(m: UserMap, m': UserMap, c: Command)
    requires TxnFree(c) && Blind(c) && Apply(m, c).Ok?
    ensures Apply(m', c).Ok?
    decreases c, 1
  {
    hide InRange, RangeLookup, SingleLookup, Delete, PutBatch, DeleteBatch;
    if c.kind == SEQUENCE { BlindSequenceWorksAnywhere(m, m', c.sequence); }
  }

  lemma {:induction false} BlindSequenceWorksAnywhere(m: UserMap, m': UserMap, cs: seq<Command>)
    requires AllTxnFree(cs) && AllBlind(cs) && ApplySequence(m, cs).Ok?
    ensures ApplySequence(m', cs).Ok?
    decreases cs, 0
  {
    hide Apply, TxnFree, Blind;
    if cs != [] {
      BlindWorksAnywhere(m, m', cs[0]);
      BlindSequenceWorksAnywhere(Apply(m, cs[0]).value.m, Apply(m', cs[0]).value.m, cs[1..]);
    }
  }

  // ---------- replay ----------

  /** The state after the first `n` commands of a log, from an empty table. */
  ghost function At(log: seq<Command>, n: nat): (r: Outcome<Effect>)
    requires n <= |log|
  {
    ApplySequence(map[], log[..n])
  }

  /** When it succeeds, replaying commands `a+1 .. b` on the state after `n`, with
      `a <= n <= b`, gives exactly the state after `b`. */
  lemma ReplayGivesState(log: seq<Command>, a: nat, n: nat, b: nat)
    requires a <= n <= b <= |log| && AllTxnFree(log) && At(log, b).Ok?
    ensures At(log, n).Ok?
    ensures var again := ApplySequence(At(log, n).value.m, log[a..b]);
            again.Ok? ==> again.value.m == At(log, b).value.m
  {
    hide ApplySequence, OnKeys, TxnFree;
    assert log[..b] == log[..n] + log[n..b] && log[..n] == log[..a] + log[a..n] && log[a..b] == log[a..n] + log[n..b];
    SequenceConcat(map[], log[..n], log[n..b]);
    var mn := At(log, n).value.m;
    var again := ApplySequence(mn, log[a..b]);
    if again.Ok? {
      var mb := At(log, b).value.m;
      forall k ensures Get(again.value.m, k) == Get(mb, k) {
        var none: UserMap := map[];
        SequenceOnKey(mn, log[a..b], k);
        SequenceOnKey(none, log[..n], k);
        SequenceOnKey(none, log[..b], k);
        var v := OnKeys(Get(none, k), log[..a], k);
        OnKeysConcat(Get(none, k), log[..a], log[a..n], k);
        OnKeysConcat(Get(none, k), log[..n], log[n..b], k);
        OnKeysConcat(Get(mn, k), log[a..n], log[n..b], k);
        OnKeysTwice(log[a..n], k, v);
      }
      SameByGet(again.value.m, mb);
    }
  }

  lemma SameByGet(a: UserMap, b: UserMap)
    requires forall k :: Get(a, k) == Get(b, k)
    ensures a == b
  {
    assert forall k :: k in a <==> Get(a, k).Some?;
    assert forall k :: k in b <==> Get(b, k).Some?;
    assert forall k :: k in a ==> a[k] == Get(a, k).value;
    assert forall k :: k in b ==> b[k] == Get(b, k).value;
  }

  /** Replay is harmless: for a log without transactions and without puts that ask for the
      previous value, commands `a+1 .. b` can be applied again on any state between. */
  lemma ReplayHarmless(log: seq<Command>, a: nat, n: nat, b: nat)
    requires a <= n <= b <= |log| && AllTxnFree(log) && AllBlind(log) && At(log, b).Ok?
    ensures At(log, n).Ok?
    ensures var again := ApplySequence(At(log, n).value.m, log[a..b]);
            again.Ok? && again.value.m == At(log, b).value.m
  {
    hide ApplySequence, TxnFree, Blind;
    assert log[..b] == log[..a] + log[a..b];
    SequenceConcat(map[], log[..a], log[a..b]);
    ReplayGivesState(log, a, n, b);
    BlindSequenceWorksAnywhere(At(log, a).value.m, At(log, n).value.m, log[a..b]);
  }

  /** From the very beginning of the log even puts that ask for the previous value are
      harmless: a reset table that replays everything converges. */
  lemma FullReplayHarmless(log: seq<Command>, n: nat, b: nat)
    requires n <= b <= |log| && AllTxnFree(log) && At(log, b).Ok?
    ensures At(log, n).Ok?
    ensures var again := ApplySequence(At(log, n).value.m, log[..b]);
            again.Ok? && again.value.m == At(log, b).value.m
  {
    hide ApplySequence, TxnFree;
    ReplayGivesState(log, 0, n, b);
    assert log[0..b] == log[..b];
    SequenceWithMoreKeys(map[], At(log, n).value.m, log[..b]);
  }

  // ---------- exactly when a replay works ----------

  /** Starting from value `v` of key `k`, some put asks for a previous value that is missing. */
  ghost predicate Faults(v: Option<Bytes>, c: Command, k: Bytes)
    decreases c, 1
  {
    (c.kind == PUT && c.prevKvs && c.kv.Some? && c.kv.value.key == k && v == None) ||
    (c.kind == SEQUENCE && SequenceFaults(v, c.sequence, k))
  }

  ghost predicate SequenceFaults(v: Option<Bytes>, cs: seq<Command>, k: Bytes)
    decreases cs, 0
  {
    cs != [] && (Faults(v, cs[0], k) || SequenceFaults(OnKey(v, cs[0], k), cs[1..], k))
  }

  lemma {:induction false} FaultsLess(x: Bytes, v: Option<Bytes>, c: Command, k: Bytes)
    requires Faults(Some(x), c, k)
    ensures Faults(v, c, k)
    decreases c, 1
  {
    SequenceFaultsLess(x, v, c.sequence, k);
  }

  lemma {:induction false} SequenceFaultsLess(x: Bytes, v: Option<Bytes>, cs: seq<Command>, k: Bytes)
    requires SequenceFaults(Some(x), cs, k)
    ensures SequenceFaults(v, cs, k)
    decreases cs, 0
  {
    hide OnKey, Faults;
    if Faults(Some(x), cs[0], k) {
      FaultsLess(x, v, cs[0], k);
    } else {
      OnKeyShape(cs[0], k, Some(x), v);
      if OnKey(Some(x), cs[0], k) != OnKey(v, cs[0], k) { SequenceFaultsLess(x, v, cs[1..], k); }
    }
  }

  /** A kind the state machine knows, with the pair it needs, at every depth. */
  ghost predicate Sound(c: Command)
  {
    && c.kind in {PUT, DELETE, DUMMY, PUT_BATCH, DELETE_BATCH, SEQUENCE}
    && (c.kind == PUT || c.kind == DELETE ==> c.kv.Some?)
    && (c.kind == SEQUENCE ==> forall i :: 0 <= i < |c.sequence| ==> Sound(c.sequence[i]))
  }

  ghost predicate AllSound(cs: seq<Command>)
  {
    forall i :: 0 <= i < |cs| ==> Sound(cs[i])
  }

  /** A command without transactions works exactly when it is sound and no key makes it fault. */
  lemma {:induction false} ApplyOkExact(m: UserMap, c: Command)
    requires TxnFree(c)
    ensures Apply(m, c).Ok? <==> Sound(c) && forall k :: !Faults(Get(m, k), c, k)
    decreases c, 1
  {
    hide InRange, RangeLookup, SingleLookup, Delete, PutBatch, DeleteBatch;
    if c.kind == PUT && c.kv.Some? {
      assert Faults(Get(m, c.kv.value.key), c, c.kv.value.key) <==> Apply(m, c).Fault?;
    } else if c.kind == SEQUENCE {
      SequenceOkExact(m, c.sequence);
    }
  }

  /** The same for a log: it faults exactly when some command is not sound, or some put asks for
      a previous value that the table and the commands before it do not have. */
  lemma {:induction false} SequenceOkExact(m: UserMap, cs: seq<Command>)
    requires AllTxnFree(cs)
    ensures ApplySequence(m, cs).Ok? <==> AllSound(cs) && forall k :: !SequenceFaults(Get(m, k), cs, k)
    decreases cs, 0
  {
    hide Apply, TxnFree, Faults, OnKey, Get, Sound;
    if cs != [] {
      ApplyOkExact(m, cs[0]);
      var e := Apply(m, cs[0]);
      if e.Ok? {
        SequenceOkExact(e.value.m, cs[1..]);
        assert AllSound(cs) <==> AllSound(cs[1..]) by { FirstSound(cs); }
        forall k ensures SequenceFaults(Get(m, k), cs, k) <==> SequenceFaults(Get(e.value.m, k), cs[1..], k) {
          ApplyOnKey(m, cs[0], k);
        }
      } else if Sound(cs[0]) {
        var k :| Faults(Get(m, k), cs[0], k);
        assert SequenceFaults(Get(m, k), cs, k);
      }
    }
  }

  lemma FirstSound(cs: seq<Command>)
    requires cs != []
    ensures AllSound(cs) <==> Sound(cs[0]) && AllSound(cs[1..])
  {
    hide Sound;
    assert forall i :: 0 < i < |cs| ==> cs[i] == cs[1..][i - 1];
  }

  /** A log without transactions can be replayed from `a` on the state after `n` exactly when
      every key whose previous value is asked for before it is written exists after `n`. */
  lemma ReplayExact(log: seq<Command>, a: nat, n: nat, b: nat)
    requires a <= n <= b <= |log| && AllTxnFree(log) && At(log, b).Ok?
    ensures At(log, n).Ok?
    ensures ApplySequence(At(log, n).value.m, log[a..b]).Ok? <==>
            forall k :: SequenceFaults(None, log[a..b], k) ==> k in At(log, n).value.m
  {
    hide ApplySequence, TxnFree, SequenceFaults, AllSound;
    assert log[..b] == log[..a] + log[a..b];
    SequenceConcat(map[], log[..a], log[a..b]);
    ReplayGivesState(log, a, n, b);
    var ma, mn, cs := At(log, a).value.m, At(log, n).value.m, log[a..b];
    SequenceOkExact(mn, cs);
    SequenceOkExact(ma, cs);
    forall k | k in mn ensures !SequenceFaults(Get(mn, k), cs, k) {
      if SequenceFaults(Get(mn, k), cs, k) {
        SequenceFaultsLess(mn[k], Get(ma, k), cs, k);
        assert false;
      }
    }
    assert forall k :: k !in mn ==> Get(mn, k) == None;
  }

  // ---------- what can go wrong ----------

  function PutCommand(key: Bytes, value: Bytes, prevKv: bool): (c: Command)
  {
    EMPTY_COMMAND.(kind := PUT, kv := Some(Pair(key, value)), prevKvs := prevKv)
  }

  function DeleteCommand(key: Bytes): (c: Command)
  {
    EMPTY_COMMAND.(kind := DELETE, kv := Some(Pair(key, [])))
  }

  lemma FirstCommand(m: UserMap, c: Command, rest: seq<Command>)
    ensures ApplySequence(m, [c] + rest).Ok? <==>
            Apply(m, c).Ok? && ApplySequence(Apply(m, c).value.m, rest).Ok?
    ensures ApplySequence(m, [c] + rest).Ok? ==>
              ApplySequence(m, [c] + rest).value.m == ApplySequence(Apply(m, c).value.m, rest).value.m
    ensures ApplySequence(m, []) == Ok(Effect(m, true, []))
  {
    hide Apply;
    assert ([c] + rest)[1..] == rest;
  }

  /** Put, put asking for the previous value, delete: replaying from the second command on the
      final state crashes. */
  lemma ReplayCanCrash()
    ensures var log := [PutCommand([1], [1], false), PutCommand([1], [2], true), DeleteCommand([1])];
            At(log, 3).Ok? && ApplySequence(At(log, 3).value.m, log[1..3]) == Fault
  {
    var p, q, d := PutCommand([1], [1], false), PutCommand([1], [2], true), DeleteCommand([1]);
    var log := [p, q, d];
    var m1: UserMap := map[[1] := [1]];
    var m2: UserMap := map[[1] := [2]];
    var none: UserMap := map[];
    assert Apply(none, p).value.m == m1;
    assert Apply(m1, q).value.m == m2;
    assert Apply(m2, d).value.m == none;
    assert Apply(none, q) == Fault;
    hide Apply, ApplySequence;
    FirstCommand(none, p, [q, d]);
    FirstCommand(m1, q, [d]);
    FirstCommand(m2, d, []);
    FirstCommand(none, q, [d]);
    assert log[..3] == [p] + [q, d] && log[1..3] == [q] + [d] && [q, d] == [q] + [d] && [d] == [d] + [];
    assert ApplySequence(none, []).value.m == none by { FirstCommand(none, p, []); }
  }

  /** The transaction that puts `[2]` if `[1]` exists. */
  function CopyIfPresent(): (c: Command)
  {
    var present := Compare(EQUAL, VALUE, [1], None, None);
    EMPTY_COMMAND.(kind := TXN, txn := Some(Txn([present], [RequestPut(PutOp([2], [], false))], [])))
  }

  /** A log with a transaction whose full replay does not converge: the comparison sees a
      value that came later. */
  lemma TxnReplayDiverges()
    ensures var log := [CopyIfPresent(), PutCommand([1], [], false)];
            && At(log, 2).Ok?
            && ApplySequence(At(log, 2).value.m, log[..2]).Ok?
            && ApplySequence(At(log, 2).value.m, log[..2]).value.m != At(log, 2).value.m
  {
    var t, p := CopyIfPresent(), PutCommand([1], [], false);
    var log := [t, p];
    var m1: UserMap := map[[1] := []];
    var none: UserMap := map[];
    var m2: UserMap := m1[[2] := []];
    CopyEffect();
    assert Apply(none, p).value.m == m1 && Apply(m2, p).value.m == m2[[1] := []];
    hide Apply, ApplySequence, CopyIfPresent;
    FirstCommand(none, t, [p]);
    FirstCommand(none, p, []);
    FirstCommand(m1, t, [p]);
    FirstCommand(m2, p, []);
    FirstCommand(m1, p, []);
    FirstCommand(m2[[1] := []], p, []);
    assert log[..2] == [t] + [p] && [p] == [p] + [];
    assert [2] in m2[[1] := []] && [2] !in m1;
  }

  lemma CopyEffect()
    ensures var none: UserMap := map[]; Apply(none, CopyIfPresent()) == Ok(Effect(none, false, []))
    ensures var m1: UserMap := map[[1] := []];
            Apply(m1, CopyIfPresent()).Ok? && Apply(m1, CopyIfPresent()).value.m == m1[[2] := []]
  {
    var txn := CopyIfPresent().txn.value;
    var none: UserMap := map[];
    var m1: UserMap := map[[1] := []];
    assert txn.compare[0] in txn.compare && !CompareOne(none, txn.compare[0]);
    assert CompareAll(m1, txn.compare);
    assert txn.success[1..] == [];
  }
}
