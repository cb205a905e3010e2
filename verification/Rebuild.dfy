/** The follower's recovery as a whole: the leader streams a snapshot of its store, the follower
    loads it into a new table, and the new table's state machine applies the proposals. It is one
    step of the replication pipeline. */
module Rebuild {
  import opened ByteStrings
  import opened Messages
  import opened Table
  import opened CommandCodec
  import opened Lists
  import opened Pipeline
  import opened Replication
  import opened Restore
  import opened Restored
  import Marshal
  import Snapshot
  import Store
  import Update
  import Wire

  /** What a follower needs to recover in this state: the leader's store is the fold of its log,
      the follower's next entry is compacted, and the snapshot stays below the limit. */
  ghost predicate Recoverable(cfg: Config, s: System, leader: Store.RawMap)
  {
    && Inv(cfg, s) && cfg.recovers && s.follower.leaderIndex + 1 < s.first && Store.Valid(leader)
    && var m, i := Fold(s.log, s.applied).value.m, LastApplication(s.log[..s.applied]);
    && i < 0xFFFF_FFFF_FFFF_FFFF
    && Update.StateOf(leader).users == m && Update.StateOf(leader).localIndex == i
    && Snapshot.Fits(cfg.table, m, Wire.TWO_63 - 1) && |cfg.table| + 33 < Wire.TWO_63
    && TotalBytes(ItemsOf(Snapshot.WholeSnapshot(cfg.table, m, i))) < cfg.half
  }

  /** Plain batches are applied whatever the table holds. */
  lemma PlainRuns(m: UserMap, es: seq<Update.Entry>, cs: seq<Command>)
    requires Proposed(es, cs) && forall c :: c in cs ==> Plain(c)
    ensures Update.Run(m, es).Ok?
  {
    hide EncodeCommand, SizeCommand, ApplySequence, Update.Run;
    ProposedCarries(es, cs);
    BatchesApply(m, cs);
    Update.RunIsSequence(m, es, cs);
  }

  lemma ProposedMore(es: seq<Update.Entry>, cs: seq<Command>, es': seq<Update.Entry>, cs': seq<Command>)
    requires Proposed(es, cs) && Proposed(es', cs')
    ensures Proposed(es + es', cs + cs')
  {
    hide EncodeCommand, SizeCommand;
  }

  /** Entries for some commands, at any indexes. */
  method Entries(cs: seq<Command>) returns (es: seq<Update.Entry>)
    requires forall c :: c in cs ==> SizeCommand(c) < Wire.TWO_63
    ensures Proposed(es, cs)
  {
    hide EncodeCommand, SizeCommand;
    es := [];
    for i := 0 to |cs|
      invariant Proposed(es, cs[..i])
    {
      var bb := Marshal.MarshalVT(cs[i]);
      var index: uint64 := *;
      es := es + [Update.Entry(index, bb)];
    }
    assert cs[..|cs|] == cs;
  }

  /** The new table's state machine applies its log, in calls of any length. */
  method ApplyLog(table: Update.Machine, cs: seq<Command>) returns (ghost calls: seq<seq<Update.Entry>>)
    requires Store.Valid(table.db) && Update.StateOf(table.db) == FRESH
    requires forall c :: c in cs ==> Plain(c) && SizeCommand(c) < Wire.TWO_63
    modifies table
    ensures Store.Valid(table.db) && Update.NonEmpty(calls) && Proposed(Flatten(calls), cs)
    ensures Update.NextCalls(FRESH, calls) == Ok(Update.StateOf(table.db))
  {
    hide EncodeCommand, SizeCommand, Store.Valid, Update.StateOf, Update.Run, Update.NextCalls, Update.Next, Flatten,
      Plain;
    calls := [];
    FlattenNothing<Update.Entry>();
    NoCallsYet();
    var i := 0;
    while i < |cs|
      invariant i <= |cs| && Store.Valid(table.db) && Update.NonEmpty(calls) && Proposed(Flatten(calls), cs[..i])
      invariant Update.NextCalls(FRESH, calls) == Ok(Update.StateOf(table.db))
    {
      var n :| 1 <= n <= |cs| - i;
      var es := Entries(cs[i..i + n]);
      Update.StateOfUsers(table.db);
      PlainRuns(Update.StateOf(table.db).users, es, cs[i..i + n]);
      Update.OneMoreCall(FRESH, calls, es);
      ProposedMore(Flatten(calls), cs[..i], es, cs[i..i + n]);
      assert cs[..i] + cs[i..i + n] == cs[..i + n];
      var _ := table.Update(es);
      calls, i := calls + [es], i + n;
    }
    assert cs[..i] == cs;
  }

  lemma NoCallsYet()
    ensures Update.NextCalls(FRESH, []) == Ok(FRESH)
  {
  }

  ghost predicate Sendable(cs: seq<Command>)
  {
    forall c :: c in cs ==> SizeCommand(c) < Wire.TWO_63
  }

  method AllFit(cs: seq<Command>) returns (b: bool)
    ensures b <==> Sendable(cs)
  {
    hide SizeCommand;
    for i := 0 to |cs|
      invariant forall j :: 0 <= j < i ==> SizeCommand(cs[j]) < Wire.TWO_63
    {
      assert cs[i] in cs;
      if SizeCommand(cs[i]) >= Wire.TWO_63 { return false; }
    }
    b := true;
  }

  /** Recovery. With `faults` it may be stopped, and proposals may fail; too large records and
      proposals always do. A recovery that ends well is a step of the pipeline to the new table. */
  method RecoverTable(leader: Store.RawMap, table: Bytes, half: nat, faults: bool, ghost cfg: Config, ghost s: System)
    returns (done: bool, follower: Update.Machine, ghost calls: seq<seq<Update.Entry>>, ghost cs: seq<Command>)
    requires Recoverable(cfg, s, leader) && table == cfg.table && half == cfg.half
    ensures done ==> Store.Valid(follower.db)
    ensures var m, i := Fold(s.log, s.applied).value.m, LastApplication(s.log[..s.applied]);
            !faults && Readable(Snapshot.WholeSnapshot(table, m, i)) &&
            Sendable(RestoreProposals(table, m, i, half)) ==>
              done
    ensures done ==>
              var f := Update.StateOf(follower.db);
              Next(cfg, s, Recover(calls, cs), s.(follower := f, peak := f.leaderIndex, recovered := true))
  {
    ghost var m, i := Fold(s.log, s.applied).value.m, LastApplication(s.log[..s.applied]);
    hide Recoverable, Inv, Store.Valid, Store.Users, Update.StateOf, Update.NextCalls, Snapshot.Fits, Snapshot.Holds,
      Snapshot.WholeSnapshot, RestoreProposals, SizeCommand, Proposed, Retried, Flatten, Fold, Next;
    calls, cs := [], [];
    follower := new Update.Machine();
    RecoverableParts(cfg, s, leader);
    var chunks := Snapshot.Stream(leader, table, faults);
    if chunks == None { return false, follower, calls, cs; }
    var log, ending := Restore.Recover(chunks.value, half, faults, table, m, i);
    var fits := AllFit(log);
    if ending != Restored || !fits { return false, follower, calls, cs; }
    RetriedPlain(log, table, m, i, half);
    cs := log;
    calls := ApplyLog(follower, log);
    IsStep(cfg, s, leader, calls, cs, Update.StateOf(follower.db));
    done := true;
  }

  lemma RecoverableParts(cfg: Config, s: System, leader: Store.RawMap)
    requires Recoverable(cfg, s, leader)
    ensures Store.Valid(leader) && Inv(cfg, s)
    ensures Store.Users(leader) == Fold(s.log, s.applied).value.m
    ensures Update.StateOf(leader).localIndex == LastApplication(s.log[..s.applied])
    ensures Snapshot.Fits(cfg.table, Store.Users(leader), Wire.TWO_63 - 1) && |cfg.table| + 33 < Wire.TWO_63
  {
    hide Inv, Fold, TotalBytes, ItemsOf, Snapshot.WholeSnapshot, Snapshot.Fits, Store.Valid;
    Update.StateOfUsers(leader);
  }

  lemma RetriedPlain(cs: seq<Command>, table: Bytes, m: UserMap, index: uint64, half: nat)
    requires Retried(cs, RestoreProposals(table, m, index, half))
    ensures forall c :: c in cs ==> Plain(c)
  {
    hide Rebuilt, ApplySequence, Plain, RestoreProposals;
    RetriedApplies(cs, table, m, index, half);
  }

  lemma IsStep(cfg: Config, s: System, leader: Store.RawMap, calls: seq<seq<Update.Entry>>, cs: seq<Command>,
               f: Update.State)
    requires Recoverable(cfg, s, leader)
    requires var m, i := Fold(s.log, s.applied).value.m, LastApplication(s.log[..s.applied]);
             Retried(cs, RestoreProposals(cfg.table, m, i, cfg.half))
    requires Update.NonEmpty(calls) && Proposed(Flatten(calls), cs) && Update.NextCalls(FRESH, calls) == Ok(f)
    ensures Next(cfg, s, Recover(calls, cs), s.(follower := f, peak := f.leaderIndex, recovered := true))
  {
    hide Fold, CatchesUp, Update.NextCalls, Update.NonEmpty, Proposed, Retried, RestoreProposals, TotalBytes, ItemsOf,
      Snapshot.WholeSnapshot, Snapshot.Fits, Store.Valid, Update.StateOf;
  }
}
