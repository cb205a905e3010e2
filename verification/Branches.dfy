/** Transactions by the branch they take: on a given table a log with transactions does what the
    log without them does that has, in place of every transaction, the operations it performs. */
module Branches {
  import opened ByteStrings
  import opened Messages
  import opened Keys
  import opened Table
  import opened CommandCodec
  import opened Replay

  /** An operation of a transaction as a command of its own. */
  function Single(op: RequestOp): (c: Command)
  {
    match op
    case RequestPut(p) => PutCommand(p.key, p.value, p.prevKv)
    case RequestDelete(d) =>
      DeleteCommand(d.key).(rangeEnd := d.rangeEnd, prevKvs := d.prevKv, count := d.count)
    case RequestRange(_) => EMPTY_COMMAND.(kind := DUMMY)
    case RequestNone => EMPTY_COMMAND.(kind := DUMMY)
  }

  function Singles(ops: seq<RequestOp>): (cs: seq<Command>)
    ensures |cs| == |ops| && forall i :: 0 <= i < |ops| ==> cs[i] == Single(ops[i])
  {
    seq(|ops|, i requires 0 <= i < |ops| => Single(ops[i]))
  }

  /** The two outcomes agree on the table. */
  ghost predicate Same(a: Outcome<Effect>, b: Outcome<Effect>)
  {
    (a.Ok? <==> b.Ok?) && (a.Ok? ==> a.value.m == b.value.m)
  }

  lemma SingleSame(m: UserMap, op: RequestOp)
    ensures Apply(m, Single(op)).Ok? <==> Request(m, op).Ok?
    ensures Request(m, op).Ok? ==> Apply(m, Single(op)).value.m == Request(m, op).value.0
  {
    hide RangeLookup, SingleLookup, DeleteRange;
  }

  lemma {:induction false} SinglesSame(m: UserMap, ops: seq<RequestOp>)
    ensures ApplySequence(m, Singles(ops)).Ok? <==> Requests(m, ops).Ok?
    ensures Requests(m, ops).Ok? ==> ApplySequence(m, Singles(ops)).value.m == Requests(m, ops).value.0
    decreases |ops|
  {
    hide Apply, Request, Single;
    if ops != [] {
      SingleSame(m, ops[0]);
      assert Singles(ops)[1..] == Singles(ops[1..]);
      if Request(m, ops[0]).Ok? { SinglesSame(Request(m, ops[0]).value.0, ops[1..]); }
    }
  }

  /** The command with every transaction replaced by the branch it takes on the table. One without
      a transaction becomes a put without a pair, which crashes as well. */
  ghost function Taken(m: UserMap, c: Command): (r: Command)
    decreases c, 1
  {
    if c.kind == TXN then
      match c.txn
      case None => EMPTY_COMMAND.(kind := PUT)
      case Some(txn) =>
        var ops := if CompareAll(m, txn.compare) then txn.success else txn.failure;
        EMPTY_COMMAND.(kind := SEQUENCE, sequence := Singles(ops))
    else if c.kind == SEQUENCE then c.(sequence := TakenAll(m, c.sequence))
    else c
  }

  /** The same for a log, up to the command that crashes. */
  ghost function TakenAll(m: UserMap, cs: seq<Command>): (r: seq<Command>)
    ensures |r| <= |cs|
    decreases cs, 0
  {
    if cs == [] then []
    else
      match Apply(m, cs[0])
      case Fault => [Taken(m, cs[0])]
      case Ok(e) => [Taken(m, cs[0])] + TakenAll(e.m, cs[1..])
  }

  lemma SinglesTxnFree(ops: seq<RequestOp>)
    ensures AllTxnFree(Singles(ops))
  {
  }

  /** What is left is free of transactions and does the same. */
  lemma {:induction false} TakenSame(m: UserMap, c: Command)
    ensures TxnFree(Taken(m, c)) && Same(Apply(m, Taken(m, c)), Apply(m, c))
    decreases c, 1
  {
    hide CompareAll, Requests, Put, Delete, PutBatch, DeleteBatch, ApplySequence;
    if c.kind == TXN && c.txn.Some? {
      var txn := c.txn.value;
      var ops := if CompareAll(m, txn.compare) then txn.success else txn.failure;
      SinglesTxnFree(ops);
      SinglesSame(m, ops);
    } else if c.kind == SEQUENCE {
      TakenAllSame(m, c.sequence);
    }
  }

  lemma {:induction false} TakenAllSame(m: UserMap, cs: seq<Command>)
    ensures AllTxnFree(TakenAll(m, cs)) && Same(ApplySequence(m, TakenAll(m, cs)), ApplySequence(m, cs))
    decreases cs, 0
  {
    hide Apply, TxnFree, Taken;
    if cs != [] {
      var t := TakenAll(m, cs);
      TakenSame(m, cs[0]);
      if Apply(m, cs[0]).Ok? {
        var m' := Apply(m, cs[0]).value.m;
        TakenAllSame(m', cs[1..]);
        assert t[1..] == TakenAll(m', cs[1..]);
      }
    }
  }

  /** A log faults exactly when, among the operations it performs up to there, one is not sound or
      a put asks for a previous value that the table and the operations before do not have. */
  lemma LogOkExact(m: UserMap, cs: seq<Command>)
    ensures ApplySequence(m, cs).Ok? <==>
            AllSound(TakenAll(m, cs)) && forall k :: !SequenceFaults(Get(m, k), TakenAll(m, cs), k)
  {
    hide ApplySequence, SequenceFaults, AllSound, AllTxnFree, TakenAll;
    TakenAllSame(m, cs);
    SequenceOkExact(m, TakenAll(m, cs));
  }

  // ---------- replay ----------

  lemma {:induction false} TakenAllConcat(m: UserMap, a: seq<Command>, b: seq<Command>)
    requires ApplySequence(m, a).Ok?
    ensures |TakenAll(m, a)| == |a|
    ensures TakenAll(m, a + b) == TakenAll(m, a) + TakenAll(ApplySequence(m, a).value.m, b)
    decreases |a|
  {
    hide Apply, Taken;
    if a == [] {
      assert a + b == b;
    } else {
      assert (a + b)[1..] == a[1..] + b;
      TakenAllConcat(Apply(m, a[0]).value.m, a[1..], b);
    }
  }

  lemma TakenWhole(m: UserMap, cs: seq<Command>)
    requires ApplySequence(m, cs).Ok?
    ensures |TakenAll(m, cs)| == |cs|
  {
    TakenAllConcat(m, cs, []);
  }

  /** Commands that take the branches of `t`, as far as they get, do what `t` does. */
  lemma FollowsSame(m: UserMap, cs: seq<Command>, t: seq<Command>)
    requires TakenAll(m, cs) <= t && |t| == |cs|
    ensures Same(ApplySequence(m, cs), ApplySequence(m, t))
  {
    hide ApplySequence, TakenAll;
    TakenAllSame(m, cs);
    var done := TakenAll(m, cs);
    if ApplySequence(m, cs).Ok? {
      TakenWhole(m, cs);
      assert done == t;
    } else {
      assert t == done + t[|done|..];
      SequenceConcat(m, done, t[|done|..]);
    }
  }

  /** The branches taken by a log from an empty table, in parts. */
  lemma TakenParts(log: seq<Command>, i: nat, b: nat)
    requires i <= b <= |log| && At(log, b).Ok?
    ensures At(log, i).Ok?
    ensures var t := TakenAll(map[], log[..b]);
            && |t| == b && AllTxnFree(t) && t[i..b] == TakenAll(At(log, i).value.m, log[i..b])
            && Same(At(t, i), At(log, i)) && Same(At(t, b), At(log, b))
  {
    hide ApplySequence, TakenAll, AllTxnFree;
    var t := TakenAll(map[], log[..b]);
    assert log[..b] == log[..i] + log[i..b];
    SequenceConcat(map[], log[..i], log[i..b]);
    TakenAllConcat(map[], log[..i], log[i..b]);
    TakenWhole(map[], log[..b]);
    TakenAllSame(map[], log[..b]);
    TakenAllSame(map[], log[..i]);
    assert t[..i] == TakenAll(map[], log[..i]) && t[..b] == t;
  }

  /** Replay with transactions. If every transaction that commands `a+1 .. b` come to takes the
      branch it took the first time, then the replay on the state after `n` works exactly when
      every key whose previous value is asked for before it is written exists after `n`, and then
      it gives exactly the state after `b`. */
  lemma ReplaySameBranches(log: seq<Command>, a: nat, n: nat, b: nat)
    requires a <= n <= b <= |log| && At(log, b).Ok? && At(log, a).Ok? && At(log, n).Ok?
    requires TakenAll(At(log, n).value.m, log[a..b]) <= TakenAll(At(log, a).value.m, log[a..b])
    ensures var again := ApplySequence(At(log, n).value.m, log[a..b]);
            && (again.Ok? <==> forall k :: SequenceFaults(None, TakenAll(At(log, a).value.m, log[a..b]), k) ==>
                                 k in At(log, n).value.m)
            && (again.Ok? ==> again.value.m == At(log, b).value.m)
  {
    hide ApplySequence, TakenAll, AllTxnFree, SequenceFaults, At;
    var t := TakenAll(map[], log[..b]);
    TakenParts(log, a, b);
    TakenParts(log, n, b);
    FollowsSame(At(log, n).value.m, log[a..b], t[a..b]);
    ReplayGivesState(t, a, n, b);
    ReplayExact(t, a, n, b);
  }
}
