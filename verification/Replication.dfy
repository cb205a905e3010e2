/** Runs of the replication pipeline. The steps are the leader's (append, apply, compact), a poll
    of the follower that may fail after any chunk, recovery from a snapshot, and a reset. */
module Replication {
  import opened ByteStrings
  import opened Messages
  import opened Table
  import opened CommandCodec
  import opened Lists
  import opened RaftLog
  import opened Replicate
  import opened Pipeline
  import opened Similar
  import Replay
  import Restore
  import Restored
  import Snapshot
  import Wire
  import Update

  /** `half` is half of the follower's limit for its in-memory log. The flags say whether the
      follower is ever reset and whether it ever recovers. */
  datatype Config = Config(table: Bytes, half: nat, resets: bool, recovers: bool)

  /** The leader's log with its compaction point and applied index, and the follower's table.
      The last two fields are history: the highest leader index the follower has stored since
      it was built, and whether it was built from a snapshot. */
  datatype System = System(
    log: seq<LogEntry>, first: nat, applied: nat, follower: Update.State, peak: nat, recovered: bool)

  datatype Step =
    | Append(entry: LogEntry)
    | ApplyUpTo(n: nat)
    | Compact(upTo: nat)
    | Poll(chunks: seq<seq<ReplicateCommand>>, calls: seq<seq<Update.Entry>>, n: nat)
    | Recover(calls: seq<seq<Update.Entry>>, cs: seq<Command>)
    | Reset(index: uint64)

  /** What the configuration promises about the log: a follower that is reset replicates no
      transactions, one that recovers none that compare from the empty key on. */
  ghost predicate LogOk(cfg: Config, log: seq<LogEntry>)
  {
    && Numbered(log) && AllWritten(log)
    && (cfg.resets ==> Replay.AllTxnFree(List(log)))
    && (cfg.recovers ==> AllKeyed(List(log)))
  }

  function Max(a: nat, b: nat): (c: nat)
  {
    if a < b then b else a
  }

  function ResetCommand(table: Bytes): (c: Command)
  {
    EMPTY_COMMAND.(kind := DUMMY, table := table, leaderIndex := Some(0))
  }

  /** The leader's table as a snapshot shows it: the fold, with the index of the last entry that
      reached the state machine. */
  ghost predicate CanRecover(cfg: Config, s: System, calls: seq<seq<Update.Entry>>, cs: seq<Command>)
    requires LogOk(cfg, s.log) && s.applied <= |s.log|
  {
    && cfg.recovers && s.follower.leaderIndex + 1 < s.first && Fold(s.log, s.applied).Ok?
    && var m, i := Fold(s.log, s.applied).value.m, LastApplication(s.log[..s.applied]);
    && i < 0xFFFF_FFFF_FFFF_FFFF
    && Update.NonEmpty(calls) && Restored.RestoreLog(Flatten(calls), cs, cfg.table, m, i, cfg.half)
    && Restore.TotalBytes(Restore.ItemsOf(Snapshot.WholeSnapshot(cfg.table, m, i))) < cfg.half
  }

  ghost predicate CanPoll(s: System, chunks: seq<seq<ReplicateCommand>>, calls: seq<seq<Update.Entry>>, n: nat)
  {
    var from := s.follower.leaderIndex;
    && Update.NonEmpty(calls) && Hold(Flatten(calls), chunks)
    && from + n <= s.applied <= |s.log|
    && Decodable(s.log[from..from + n]) && Flatten(chunks) == Commands(s.log[from..from + n])
  }

  ghost predicate Next(cfg: Config, s: System, step: Step, s': System)
  {
    LogOk(cfg, s.log) && s.applied <= |s.log| &&
    match step
    case Append(e) => LogOk(cfg, s.log + [e]) && s' == s.(log := s.log + [e])
    case ApplyUpTo(n) => s.applied <= n <= |s.log| && Fold(s.log, n).Ok? && s' == s.(applied := n)
    case Compact(upTo) => s.first <= upTo && s' == s.(first := upTo)
    case Poll(chunks, calls, n) =>
      && CanPoll(s, chunks, calls, n)
      && Update.NextCalls(s.follower, calls).Ok?
      && s' == s.(follower := Update.NextCalls(s.follower, calls).value,
                  peak := Max(s.peak, s.follower.leaderIndex + n))
    case Recover(calls, cs) =>
      && CanRecover(cfg, s, calls, cs)
      && Update.NextCalls(Restored.FRESH, calls).Ok?
      && var f := Update.NextCalls(Restored.FRESH, calls).value;
      && s' == s.(follower := f, peak := f.leaderIndex, recovered := true)
    case Reset(index) =>
      && cfg.resets && SizeCommand(ResetCommand(cfg.table)) < Wire.TWO_63
      && var e := Update.Entry(index, EncodeCommand(ResetCommand(cfg.table)));
      && Update.Next(s.follower, [e]).Ok? && s' == s.(follower := Update.Next(s.follower, [e]).value)
  }

  /** Before a recovery the tables are compared exactly, after one up to the empty key. */
  ghost predicate Rel(recovered: bool, a: UserMap, b: UserMap)
  {
    if recovered then Sim(a, b) else a == b
  }

  /** Applying the log from the stored index up to the peak gives the fold up to the peak. */
  ghost predicate CatchesUp(cfg: Config, s: System)
    requires LogOk(cfg, s.log) && s.follower.leaderIndex <= s.peak <= |s.log| && Fold(s.log, s.peak).Ok?
    requires Fold(s.log, s.follower.leaderIndex).Ok?
  {
    var i := s.follower.leaderIndex;
    var r := ApplySequence(s.follower.users, List(s.log[i..s.peak]));
    && (cfg.resets ==> Replay.KeysWithin(Fold(s.log, i).value.m, s.follower.users))
    && r.Ok? && Rel(s.recovered, Fold(s.log, s.peak).value.m, r.value.m)
  }

  ghost predicate Inv(cfg: Config, s: System)
  {
    && LogOk(cfg, s.log)
    && s.follower.leaderIndex <= s.peak <= s.applied <= |s.log|
    && (!cfg.resets ==> s.follower.leaderIndex == s.peak)
    && (s.recovered ==> cfg.recovers)
    && Fold(s.log, s.applied).Ok? && Fold(s.log, s.peak).Ok? && Fold(s.log, s.follower.leaderIndex).Ok?
    && CatchesUp(cfg, s)
  }

  // ---------- parts of the log ----------

  lemma ListPart(log: seq<LogEntry>, lo: nat, hi: nat)
    requires AllWritten(log) && lo <= hi <= |log|
    ensures AllWritten(log[lo..hi]) && List(log[lo..hi]) == List(log)[lo..hi]
  {
    hide Written, List;
    assert log == log[..lo] + log[lo..hi] + log[hi..];
    ListConcat(log[..lo], log[lo..hi]);
    ListConcat(log[..lo] + log[lo..hi], log[hi..]);
  }

  lemma PartOk(cfg: Config, log: seq<LogEntry>, lo: nat, hi: nat)
    requires LogOk(cfg, log) && lo <= hi <= |log|
    ensures AllWritten(log[lo..hi])
    ensures cfg.resets ==> Replay.AllTxnFree(List(log[lo..hi]))
    ensures cfg.recovers ==> AllKeyed(List(log[lo..hi]))
  {
    hide Written, List, Replay.TxnFree, Keyed;
    ListPart(log, lo, hi);
  }

  lemma RelSequence(recovered: bool, a: UserMap, b: UserMap, cs: seq<Command>)
    requires Rel(recovered, a, b) && (recovered ==> AllKeyed(cs)) && ApplySequence(a, cs).Ok?
    ensures ApplySequence(b, cs).Ok? && Rel(recovered, ApplySequence(a, cs).value.m, ApplySequence(b, cs).value.m)
  {
    hide ApplySequence, Sim, Keyed;
    if recovered { SimSequence(a, b, cs); }
  }

  /** Applying a part of the log is applying it in two parts. */
  lemma TwoParts(m: UserMap, log: seq<LogEntry>, lo: nat, mid: nat, hi: nat)
    requires AllWritten(log) && lo <= mid <= hi <= |log|
    ensures AllWritten(log[lo..mid]) && AllWritten(log[mid..hi]) && AllWritten(log[lo..hi])
    ensures var a, all := ApplySequence(m, List(log[lo..mid])), ApplySequence(m, List(log[lo..hi]));
            && (all.Ok? <==> a.Ok? && ApplySequence(a.value.m, List(log[mid..hi])).Ok?)
            && (all.Ok? ==> all.value.m == ApplySequence(a.value.m, List(log[mid..hi])).value.m)
  {
    hide Written, List, ApplySequence;
    assert log[lo..hi] == log[lo..mid] + log[mid..hi];
    ListConcat(log[lo..mid], log[mid..hi]);
    Replay.SequenceConcat(m, List(log[lo..mid]), List(log[mid..hi]));
  }

  lemma NothingApplied(m: UserMap, log: seq<LogEntry>, n: nat)
    requires AllWritten(log) && n <= |log|
    ensures ApplySequence(m, List(log[n..n])) == Ok(Effect(m, true, []))
  {
    hide Written;
    assert log[n..n] == [] && List(log[n..n]) == [];
  }

  // ---------- progress of the follower ----------

  /** The follower after it has applied `n` more entries. */
  ghost function Ahead(s: System, m: UserMap, local: uint64, n: nat): (s': System)
    requires s.follower.leaderIndex + n < 0x1_0000_0000_0000_0000
  {
    s.(follower := Update.State(m, local, s.follower.leaderIndex + n), peak := Max(s.peak, s.follower.leaderIndex + n))
  }

  lemma FoldOkBefore(log: seq<LogEntry>, n: nat, k: nat)
    requires AllWritten(log) && k <= n <= |log| && Fold(log, n).Ok?
    ensures Fold(log, k).Ok?
  {
    hide Fold, ApplySequence, List, Written;
    FoldMore(log, k, n);
  }

  /** Behind the peak the follower repeats what it did. */
  lemma AdvanceBehind(cfg: Config, s: System, n: nat, local: uint64)
    requires Inv(cfg, s) && s.follower.leaderIndex + n <= s.peak && s.follower.leaderIndex + n < 0x1_0000_0000_0000_0000
    ensures ApplySequence(s.follower.users, List(s.log[s.follower.leaderIndex..s.follower.leaderIndex + n])).Ok?
    ensures var r := ApplySequence(s.follower.users, List(s.log[s.follower.leaderIndex..s.follower.leaderIndex + n]));
            Inv(cfg, Ahead(s, r.value.m, local, n))
  {
    hide Fold, ApplySequence, List, Written, Sim, Replay.TxnFree, Replay.KeysWithin;
    var i := s.follower.leaderIndex;
    TwoParts(s.follower.users, s.log, i, i + n, s.peak);
    FoldOkBefore(s.log, s.peak, i + n);
    if cfg.resets {
      PartOk(cfg, s.log, i, i + n);
      FoldMore(s.log, i, i + n);
      Replay.SequenceWithMoreKeys(Fold(s.log, i).value.m, s.follower.users, List(s.log[i..i + n]));
    }
  }

  /** Past the peak it does what the leader does. */
  lemma AdvancePast(cfg: Config, s: System, n: nat, local: uint64)
    requires Inv(cfg, s) && s.peak <= s.follower.leaderIndex + n <= s.applied
    requires s.follower.leaderIndex + n < 0x1_0000_0000_0000_0000
    ensures ApplySequence(s.follower.users, List(s.log[s.follower.leaderIndex..s.follower.leaderIndex + n])).Ok?
    ensures var r := ApplySequence(s.follower.users, List(s.log[s.follower.leaderIndex..s.follower.leaderIndex + n]));
            Inv(cfg, Ahead(s, r.value.m, local, n))
  {
    hide Fold, ApplySequence, List, Written, Sim, Replay.TxnFree, Replay.KeysWithin, Keyed;
    var i, j := s.follower.leaderIndex, s.follower.leaderIndex + n;
    FoldOkBefore(s.log, s.applied, j);
    FoldMore(s.log, s.peak, j);
    PartOk(cfg, s.log, s.peak, j);
    var caught := ApplySequence(s.follower.users, List(s.log[i..s.peak])).value.m;
    RelSequence(s.recovered, Fold(s.log, s.peak).value.m, caught, List(s.log[s.peak..j]));
    TwoParts(s.follower.users, s.log, i, s.peak, j);
    var r := ApplySequence(s.follower.users, List(s.log[i..j])).value.m;
    NothingApplied(r, s.log, j);
    if cfg.resets {
      PartOk(cfg, s.log, i, j);
      FoldMore(s.log, i, j);
      Replay.SequenceWithMoreKeys(Fold(s.log, i).value.m, s.follower.users, List(s.log[i..j]));
    }
  }

  /** No poll crashes the follower, however its proposals are chunked and grouped and however
      many of them go through, and each keeps the invariant. */
  lemma PollKeeps(cfg: Config, s: System, chunks: seq<seq<ReplicateCommand>>, calls: seq<seq<Update.Entry>>, n: nat)
    requires Inv(cfg, s) && CanPoll(s, chunks, calls, n)
    ensures Update.NextCalls(s.follower, calls).Ok?
    ensures var f := Update.NextCalls(s.follower, calls).value;
            && f.leaderIndex == s.follower.leaderIndex + n
            && Inv(cfg, s.(follower := f, peak := Max(s.peak, s.follower.leaderIndex + n)))
  {
    hide Fold, ApplySequence, List, Written, CatchesUp, Update.NextCalls, Hold, Update.NonEmpty, Flatten, Decodable;
    var i := s.follower.leaderIndex;
    var segment := s.log[i..i + n];
    PartOk(cfg, s.log, i, i + n);
    IndexesFit(cfg, s.log, i, n);
    if i + n <= s.peak { AdvanceBehind(cfg, s, n, 0); } else { AdvancePast(cfg, s, n, 0); }
    PollEffect(s.follower, Flatten(calls), calls, chunks, segment);
    var f := Update.NextCalls(s.follower, calls).value;
    if i + n <= s.peak { AdvanceBehind(cfg, s, n, f.localIndex); } else { AdvancePast(cfg, s, n, f.localIndex); }
    assert s.(follower := f, peak := Max(s.peak, i + n)) == Ahead(s, f.users, f.localIndex, n);
  }

  lemma IndexesFit(cfg: Config, log: seq<LogEntry>, i: uint64, n: nat)
    requires LogOk(cfg, log) && i + n <= |log|
    ensures i + n < 0x1_0000_0000_0000_0000
    ensures n > 0 ==> log[i..i + n][n - 1].index == i + n
  {
    hide List, EncodeCommand, SizeCommand;
    if n > 0 { assert log[i..i + n][n - 1] == log[i + n - 1] && Written(log[i + n - 1]); }
  }

  /** Replaying from the start what was partly replayed before: key by key the outcome is that
      of the log alone. */
  lemma OverwriteKey(a: seq<Command>, b: seq<Command>, v: Option<Bytes>, k: Bytes)
    requires Replay.OnKeys(v, b, k) == Replay.OnKeys(None, a + b, k)
    ensures Replay.OnKeys(v, a + b, k) == Replay.OnKeys(None, a + b, k)
  {
    hide Replay.OnKeys;
    Replay.OnKeysConcat(v, a, b, k);
    Replay.OnKeysConcat(None, a, b, k);
    Replay.OnKeysShape(a, k, v, None);
  }

  lemma Overwrite(recovered: bool, m: UserMap, a: seq<Command>, b: seq<Command>)
    requires Replay.AllTxnFree(a + b) && Replay.AllTxnFree(b)
    requires ApplySequence(map[], a + b).Ok? && ApplySequence(m, b).Ok?
    requires Rel(recovered, ApplySequence(map[], a + b).value.m, ApplySequence(m, b).value.m)
    ensures ApplySequence(m, a + b).Ok?
    ensures Rel(recovered, ApplySequence(map[], a + b).value.m, ApplySequence(m, a + b).value.m)
  {
    hide ApplySequence, Replay.OnKeys, Replay.TxnFree;
    Replay.SequenceWithMoreKeys(map[], m, a + b);
    var want, had, got := ApplySequence(map[], a + b).value.m, ApplySequence(m, b).value.m,
      ApplySequence(m, a + b).value.m;
    forall k | Replay.Get(had, k) == Replay.Get(want, k) ensures Replay.Get(got, k) == Replay.Get(want, k) {
      Replay.SequenceOnKey(map[], a + b, k);
      Replay.SequenceOnKey(m, b, k);
      Replay.SequenceOnKey(m, a + b, k);
      OverwriteKey(a, b, Replay.Get(m, k), k);
    }
    if recovered {
      forall k | k != [] ensures Replay.Get(got, k) == Replay.Get(want, k) {
        assert Replay.Get(had, k) == Replay.Get(want, k);
      }
      SimByGet(want, got);
    } else {
      Replay.SameByGet(got, want);
    }
  }

  lemma SimByGet(a: UserMap, b: UserMap)
    requires (forall k :: k != [] ==> Replay.Get(b, k) == Replay.Get(a, k)) && Replay.KeysWithin(a, b)
    ensures Sim(a, b)
  {
    assert forall k :: k in b <==> Replay.Get(b, k).Some?;
    assert forall k :: k in a <==> Replay.Get(a, k).Some?;
    assert forall k :: k in b ==> b[k] == Replay.Get(b, k).value;
    assert forall k :: k in a ==> a[k] == Replay.Get(a, k).value;
  }

  lemma ResetEffect(f: Update.State, table: Bytes, index: uint64)
    requires SizeCommand(ResetCommand(table)) < Wire.TWO_63
    ensures var e := Update.Entry(index, EncodeCommand(ResetCommand(table)));
            Update.Next(f, [e]) == Ok(Update.State(f.users, index, 0))
  {
    hide EncodeCommand, DecodeCommand, SizeCommand, Apply;
    var c := ResetCommand(table);
    var e := Update.Entry(index, EncodeCommand(c));
    CommandRoundTrip(c);
    DummyDoesNothing(f.users, c);
    Update.OneEntry(f.users, e);
  }

  /** A reset forgets the index and keeps the data; replaying the log from its start still
      leads to the leader's table. */
  lemma ResetKeeps(cfg: Config, s: System, local: uint64)
    requires Inv(cfg, s) && cfg.resets
    ensures Inv(cfg, s.(follower := Update.State(s.follower.users, local, 0)))
  {
    hide ApplySequence, List, Written, Sim, Replay.TxnFree, Rel;
    var i, users := s.follower.leaderIndex, s.follower.users;
    assert s.log[..s.peak] == s.log[..i] + s.log[i..s.peak] && s.log[0..s.peak] == s.log[..s.peak];
    assert s.log[..0] == s.log[0..0];
    PartOk(cfg, s.log, 0, s.peak);
    PartOk(cfg, s.log, i, s.peak);
    ListConcat(s.log[..i], s.log[i..s.peak]);
    Overwrite(s.recovered, users, List(s.log[..i]), List(s.log[i..s.peak]));
    NothingApplied(map[], s.log, 0);
  }

  /** A recovered table is the leader's at the index it stores, up to the empty key. */
  lemma RecoverKeeps(cfg: Config, s: System, calls: seq<seq<Update.Entry>>, cs: seq<Command>)
    requires Inv(cfg, s) && CanRecover(cfg, s, calls, cs)
    ensures Update.NextCalls(Restored.FRESH, calls).Ok?
    ensures var f := Update.NextCalls(Restored.FRESH, calls).value;
            Inv(cfg, s.(follower := f, peak := f.leaderIndex, recovered := true))
  {
    hide ApplySequence, List, Written, Sim, Fold, Restored.RestoreLog, Restore.TotalBytes, Restore.ItemsOf,
      Snapshot.WholeSnapshot, Update.NextCalls, Update.NonEmpty, Replay.TxnFree, Keyed;
    var log := s.log[..s.applied];
    var m, i := Fold(s.log, s.applied).value.m, LastApplication(log);
    Restored.SmallRestore(calls, cs, cfg.table, m, i, cfg.half);
    PartOk(cfg, s.log, 0, s.applied);
    assert s.log[0..s.applied] == log;
    LeaderIsFold(log);
    SameFold(s.log, s.applied, s.applied);
    SameFold(s.log, s.applied, i);
    var f := Update.NextCalls(Restored.FRESH, calls).value;
    RestoredSim(m, f.users);
    NothingApplied(f.users, s.log, i);
  }

  lemma RestoredSim(m: UserMap, users: UserMap)
    requires users == (map k | k in m && k != [] :: m[k])[[] := []]
    ensures Sim(m, users) && Replay.KeysWithin(m, users)
  {
  }

  lemma AppendKeeps(cfg: Config, s: System, e: LogEntry)
    requires Inv(cfg, s) && LogOk(cfg, s.log + [e])
    ensures Inv(cfg, s.(log := s.log + [e]))
  {
    hide ApplySequence, List, Written, Sim, Fold, Rel, Replay.KeysWithin, Replay.TxnFree, Keyed;
    var log, i := s.log + [e], s.follower.leaderIndex;
    assert log[..|s.log|] == s.log;
    SameFold(log, |s.log|, s.applied);
    SameFold(log, |s.log|, s.peak);
    SameFold(log, |s.log|, i);
    SliceKept(s.log, [e], i, s.peak);
  }

  /** Every step keeps the invariant. */
  lemma StepKeeps(cfg: Config, s: System, step: Step, s': System)
    requires Inv(cfg, s) && Next(cfg, s, step, s')
    ensures Inv(cfg, s')
  {
    hide Fold, LogOk, CatchesUp, Update.Next, Update.NextCalls, CanPoll, CanRecover, EncodeCommand, SizeCommand;
    match step
    case Append(e) => AppendKeeps(cfg, s, e);
    case ApplyUpTo(n) => CatchesUpAgain(cfg, s, s');
    case Compact(upTo) => CatchesUpAgain(cfg, s, s');
    case Poll(chunks, calls, n) => PollKeeps(cfg, s, chunks, calls, n);
    case Recover(calls, cs) => RecoverKeeps(cfg, s, calls, cs);
    case Reset(index) =>
      ResetEffect(s.follower, cfg.table, index);
      ResetKeeps(cfg, s, index);
  }

  lemma CatchesUpAgain(cfg: Config, s: System, s': System)
    requires Inv(cfg, s) && s' == s.(first := s'.first, applied := s'.applied)
    requires s.applied <= s'.applied <= |s.log| && Fold(s.log, s'.applied).Ok?
    ensures Inv(cfg, s')
  {
    hide Fold, LogOk, List, ApplySequence;
  }

  // ---------- whole runs ----------

  /** An empty follower of a leader whose log is already there. */
  ghost predicate Init(cfg: Config, s: System)
  {
    && LogOk(cfg, s.log) && s.applied <= |s.log| && Fold(s.log, s.applied).Ok?
    && s.follower == Restored.FRESH && s.peak == 0 && !s.recovered
  }

  lemma InitInv(cfg: Config, s: System)
    requires Init(cfg, s)
    ensures Inv(cfg, s)
  {
    hide List, ApplySequence, Written, Replay.TxnFree, Keyed;
    assert s.log[..0] == s.log[0..0];
    NothingApplied(map[], s.log, 0);
  }

  ghost predicate IsRun(cfg: Config, states: seq<System>, steps: seq<Step>)
  {
    && |states| == |steps| + 1 && Init(cfg, states[0])
    && forall i :: 0 <= i < |steps| ==> Next(cfg, states[i], steps[i], states[i + 1])
  }

  lemma {:induction false} RunKeeps(cfg: Config, states: seq<System>, steps: seq<Step>, i: nat)
    requires IsRun(cfg, states, steps) && i < |states|
    ensures Inv(cfg, states[i])
    decreases i
  {
    hide Inv, Next, Init;
    if i == 0 {
      InitInv(cfg, states[0]);
    } else {
      RunKeeps(cfg, states, steps, i - 1);
      StepKeeps(cfg, states[i - 1], steps[i - 1], states[i]);
    }
  }

  /** The main theorem. In every state of every run the stored leader index does not pass the
      leader's applied index, and a follower that is not repeating old entries after a reset
      holds the fold of the leader's log up to that index: exactly as long as it was never
      rebuilt from a snapshot, and up to the empty key after that. */
  lemma Replicated(cfg: Config, states: seq<System>, steps: seq<Step>, i: nat)
    requires IsRun(cfg, states, steps) && i < |states|
    ensures var s := states[i];
            && LogOk(cfg, s.log) && s.follower.leaderIndex <= s.applied <= |s.log|
            && Fold(s.log, s.follower.leaderIndex).Ok?
            && (!cfg.resets ==> s.follower.leaderIndex == s.peak)
            && (s.follower.leaderIndex == s.peak ==>
                  var want := Fold(s.log, s.follower.leaderIndex).value.m;
                  (!s.recovered ==> s.follower.users == want) &&
                  (s.recovered ==> Restore.SameButEmpty(s.follower.users, want)))
  {
    hide IsRun, Fold, LogOk, List, ApplySequence;
    RunKeeps(cfg, states, steps, i);
    var s := states[i];
    LogWritten(cfg, s.log);
    NothingApplied(s.follower.users, s.log, s.follower.leaderIndex);
  }

  lemma LogWritten(cfg: Config, log: seq<LogEntry>)
    requires LogOk(cfg, log)
    ensures AllWritten(log)
  {
  }

  /** Without resets and recoveries the follower is the leader's past self, exactly. */
  lemma ReplicatedExactly(cfg: Config, states: seq<System>, steps: seq<Step>, i: nat)
    requires IsRun(cfg, states, steps) && i < |states| && !cfg.resets && !cfg.recovers
    ensures var s := states[i];
            && LogOk(cfg, s.log) && s.follower.leaderIndex <= s.applied <= |s.log|
            && Fold(s.log, s.follower.leaderIndex).Ok?
            && s.follower.users == Fold(s.log, s.follower.leaderIndex).value.m
  {
    hide IsRun, Fold, LogOk, CatchesUp;
    Replicated(cfg, states, steps, i);
    RunKeeps(cfg, states, steps, i);
  }
}
