/** The recovery of a state machine from a snapshot, as a path of steps. */
module Recovery {
  import opened ByteStrings
  import opened DbDir
  import opened CrashSafety

  /** A path of the step system without a crash. */
  datatype Trace = Trace(states: seq<State>, steps: seq<Step>)

  ghost predicate IsTrace(sum: Sum, t: Trace)
  {
    && |t.states| == |t.steps| + 1
    && forall i :: 0 <= i < |t.steps| ==> Next(sum, t.states[i], t.steps[i], t.states[i + 1]) && !t.steps[i].Crash?
  }

  ghost function End(t: Trace): (s: State)
    requires t.states != []
  {
    t.states[|t.states| - 1]
  }

  ghost predicate AllCareful(sum: Sum, t: Trace)
    requires |t.states| == |t.steps| + 1
  {
    forall i :: 0 <= i < |t.steps| ==> Careful(sum, t.states[i], t.steps[i])
  }

  /** A path from one state to another, and a careful one unless it starts with a pending rename. */
  ghost predicate Leads(sum: Sum, t: Trace, from: State, to: State)
  {
    IsTrace(sum, t) && t.states[0] == from && End(t) == to && (!Switching(from) ==> AllCareful(sum, t))
  }

  ghost function Then(t: Trace, step: Step, s: State): (r: Trace)
  {
    Trace(t.states + [s], t.steps + [step])
  }

  lemma ThenLeads(sum: Sum, t: Trace, from: State, s: State, step: Step, s': State)
    requires Leads(sum, t, from, s) && Next(sum, s, step, s') && !step.Crash?
    requires step.Remove? && Switching(s) ==> Switching(from)
    ensures Leads(sum, Then(t, step, s'), from, s')
  {
    hide Next, Named;
  }

  lemma StartLeads(sum: Sum, s: State)
    ensures Leads(sum, Trace([s], []), s, s)
  {
  }

  /** Drafts of the updating file are writes. */
  lemma {:induction false} Drafting(sum: Sum, t: Trace, from: State, s: State, ops: seq<DirOp>) returns (t': Trace)
    requires Leads(sum, t, from, s) && s.phase.Filled? && Drafts(ops)
    ensures Leads(sum, t', from, s.(pending := s.pending + ops))
    decreases |ops|
  {
    hide IsTrace;
    if ops == [] {
      assert s.pending + ops == s.pending;
      t' := t;
    } else {
      var s' := Do(s, ops[0]);
      ThenLeads(sum, t, from, s, Write(ops[0].entry.data), s');
      t' := Drafting(sum, Then(t, Write(ops[0].entry.data), s'), from, s', ops[1..]);
      assert s'.pending + ops[1..] == s.pending + ops;
    }
  }

  /** The removals of a cleanup are steps. */
  lemma {:induction false} Cleaning(sum: Sum, t: Trace, from: State, s: State, ops: seq<DirOp>, name: Bytes)
    returns (t': Trace)
    requires Leads(sum, t, from, s) && s.phase == Idle && Named(sum, Visible(s)) == Some(name) && Removals(ops, name)
    requires Switching(s) ==> Switching(from)
    ensures Leads(sum, t', from, s.(pending := s.pending + ops))
    decreases |ops|
  {
    hide IsTrace, NameIn;
    if ops == [] {
      assert s.pending + ops == s.pending;
      t' := t;
    } else {
      var s' := Do(s, ops[0]);
      ApplyMore(s.durable, s.pending, ops[0]);
      ThenLeads(sum, t, from, s, Remove(ops[0].name), s');
      t' := Cleaning(sum, Then(t, Remove(ops[0].name), s'), from, s', ops[1..], name);
      assert s'.pending + ops[1..] == s.pending + ops;
    }
  }

  datatype Ending = Recovered | Stopped | Failed

  /** What is on the disk, as a state. */
  ghost function Now(disk: Disk, complete: set<Bytes>, phase: Phase): (s: State)
    reads disk
  {
    State(disk.durable, disk.pending, complete, phase)
  }

  predicate SameAt(d: Dir, d': Dir, n: Bytes)
  {
    (n in d <==> n in d') && (n in d ==> d[n] == d'[n])
  }

  /** The cleanup of a directory whose current file can be read. */
  method Cleanup(disk: Disk, sum: Sum, ghost tracked: bool,
                 ghost t: Trace, ghost from: State, ghost complete: set<Bytes>)
    returns (ghost t': Trace)
    requires Named(sum, disk.Visible()).Some? && (tracked ==> Leads(sum, t, from, Now(disk, complete, Idle)))
    requires tracked && Switching(Now(disk, complete, Idle)) ==> Switching(from)
    modifies disk
    ensures disk.Visible() == Cleaned(sum, old(disk.Visible())) && disk.durable == old(disk.durable)
    ensures tracked ==> Leads(sum, t', from, Now(disk, complete, Idle))
  {
    hide Leads, Named, Cleaned;
    ghost var s := Now(disk, complete, Idle);
    var _ := disk.CleanupNodeDataDir(sum);
    t' := t;
    if tracked {
      ghost var ops := disk.pending[|s.pending|..];
      assert disk.pending == s.pending + ops;
      t' := Cleaning(sum, t, from, s, ops, Named(sum, Visible(s)).value);
    }
  }

  /** The files to ingest are created, written and synced one by one. A stop or an error, where
      they may happen, ends this early. */
  method StageFiles(disk: Disk, sum: Sum, name: Bytes, staged: seq<Bytes>, stops: bool, faults: bool,
                    ghost t: Trace, ghost from: State, ghost complete: set<Bytes>)
    returns (ending: Ending, ghost t': Trace)
    requires Leads(sum, t, from, Now(disk, complete, Filling(name)))
    requires forall i :: 0 <= i < |staged| ==> staged[i] != CURRENT && staged[i] != name && staged[i] !in complete
    requires name in disk.Visible() && disk.Visible()[name] == Database
    modifies disk
    ensures name in disk.Visible() && disk.Visible()[name] == Database
    ensures (ending == Stopped ==> stops) && (ending == Failed ==> faults)
    ensures forall n :: n !in staged ==> SameAt(old(disk.Visible()), disk.Visible(), n)
    ensures old(disk.pending) <= disk.pending && disk.durable == old(disk.durable)
    ensures Leads(sum, t', from, Now(disk, complete, Filling(name)))
  {
    hide Leads, ApplyOps;
    t' := t;
    for i := 0 to |staged|
      invariant name in disk.Visible() && disk.Visible()[name] == Database
      invariant forall n :: n !in staged ==> SameAt(old(disk.Visible()), disk.Visible(), n)
      invariant old(disk.pending) <= disk.pending && disk.durable == old(disk.durable)
      invariant Leads(sum, t', from, Now(disk, complete, Filling(name)))
    {
      var stop: bool := *;
      if stops && stop { return Stopped, t'; }
      var created: bool := *;
      if faults && !created { return Failed, t'; }
      t' := StageOne(disk, sum, name, staged[i], false, t', from, complete);
      var copied: bool := *;
      if faults && !copied { return Failed, t'; }
      t' := StageOne(disk, sum, name, staged[i], true, t', from, complete);
    }
    ending := Recovered;
  }

  method StageOne(disk: Disk, sum: Sum, name: Bytes, file: Bytes, safe: bool,
                  ghost t: Trace, ghost from: State, ghost complete: set<Bytes>)
    returns (ghost t': Trace)
    requires Leads(sum, t, from, Now(disk, complete, Filling(name)))
    requires file != CURRENT && file != name && file !in complete
    modifies disk
    ensures disk.Visible() == ApplyOp(old(disk.Visible()), Link(file, File([], safe)))
    ensures old(disk.pending) <= disk.pending && disk.durable == old(disk.durable)
    ensures Leads(sum, t', from, Now(disk, complete, Filling(name)))
  {
    hide Leads, ApplyOps, ApplyOp;
    ghost var s := Now(disk, complete, Filling(name));
    disk.Change(Link(file, File([], safe)));
    ghost var s' := Now(disk, complete, Filling(name));
    assert s' == Do(s, Link(file, File([], safe)));
    ThenLeads(sum, t, from, s, Stage(file, File([], safe)), s');
    t' := Then(t, Stage(file, File([], safe)), s');
  }

  /** The ingestion takes the staged files away and completes the database. */
  method IngestFiles(disk: Disk, sum: Sum, name: Bytes, staged: seq<Bytes>,
                     ghost t: Trace, ghost from: State, ghost complete: set<Bytes>)
    returns (ghost t': Trace)
    requires Leads(sum, t, from, Now(disk, complete, Filling(name)))
    requires forall i :: 0 <= i < |staged| ==> staged[i] != CURRENT && staged[i] != name && staged[i] !in complete
    requires name in disk.Visible() && disk.Visible()[name] == Database
    modifies disk
    ensures name in disk.Visible() && disk.Visible()[name] == Database
    ensures Leads(sum, t', from, Now(disk, complete + {name}, Filled(name)))
  {
    hide Leads, ApplyOps;
    t' := t;
    for i := 0 to |staged|
      invariant name in disk.Visible() && disk.Visible()[name] == Database
      invariant Leads(sum, t', from, Now(disk, complete, Filling(name)))
    {
      ghost var s := Now(disk, complete, Filling(name));
      disk.Change(Unlink(staged[i]));
      ghost var s' := Now(disk, complete, Filling(name));
      ghost var step := Stage(staged[i], File([], true));
      assert s' == Do(s, Unlink(staged[i])) && Next(sum, s, step, s');
      ThenLeads(sum, t', from, s, step, s');
      t' := Then(t', step, s');
    }
    ghost var s := Now(disk, complete, Filling(name));
    ghost var s' := Now(disk, complete + {name}, Filled(name));
    ThenLeads(sum, t', from, s, Ingest, s');
    t' := Then(t', Ingest, s');
  }

  /** The saved name as steps: drafts, the synced file, the synced directory. */
  lemma Saving(sum: Sum, t: Trace, from: State, s: State, ops: seq<DirOp>, name: Bytes) returns (t': Trace)
    requires Leads(sum, t, from, s) && s.phase == Filled(name) && ops != [] && Drafts(ops[..|ops| - 1])
    requires ops[|ops| - 1] == Link(UPDATING, File(Saved(sum, name), true))
    ensures Leads(sum, t', from, State(ApplyOps(s.durable, s.pending + ops), [], s.complete, Ready(name)))
  {
    hide Leads, ApplyOps, Saved;
    t' := Drafting(sum, t, from, s, ops[..|ops| - 1]);
    var s1 := s.(pending := s.pending + ops[..|ops| - 1]);
    var s2 := Do(s1, ops[|ops| - 1]).(phase := Noted(name));
    assert ops == ops[..|ops| - 1] + [ops[|ops| - 1]];
    assert s2.pending == s.pending + ops;
    ThenLeads(sum, t', from, s1, SyncFile, s2);
    t' := Then(t', SyncFile, s2);
    ThenLeads(sum, t', from, s2, SyncDir, Synced(s2));
    t' := Then(t', SyncDir, Synced(s2));
  }

  /** A save that failed, as steps. */
  lemma FailedSaving(sum: Sum, t: Trace, from: State, s: State, ops: seq<DirOp>, synced: bool) returns (t': Trace)
    requires Leads(sum, t, from, s) && s.phase.Filled? && Drafts(ops)
    ensures Leads(sum, t', from, if synced then State(ApplyOps(s.durable, s.pending + ops), [], s.complete, s.phase)
                                 else s.(pending := s.pending + ops))
  {
    hide Leads, ApplyOps;
    t' := Drafting(sum, t, from, s, ops);
    if synced {
      var s1 := s.(pending := s.pending + ops);
      ThenLeads(sum, t', from, s1, SyncDir, Synced(s1));
      t' := Then(t', SyncDir, Synced(s1));
    }
  }

  /** The switch to the new database: save its name, rename, sync. */
  method SwitchTo(disk: Disk, sum: Sum, name: Bytes, syncs: bool, faults: bool,
                  ghost t: Trace, ghost from: State, ghost complete: set<Bytes>)
    returns (ok: bool, ghost phase: Phase, ghost t': Trace)
    requires Leads(sum, t, from, Now(disk, complete, Filled(name)))
    modifies disk
    ensures ok || faults
    ensures ok ==> disk.Visible() == (old(disk.Visible()) - {UPDATING})[CURRENT := File(Saved(sum, name), true)]
    ensures ok ==> phase == Idle && disk.pending == []
    ensures syncs ==> Leads(sum, t', from, Now(disk, complete, phase))
  {
    hide Leads, ApplyOps, Saved;
    ghost var s, d := Now(disk, complete, Filled(name)), disk.Visible();
    t', phase := t, Filled(name);
    ghost var ops;
    ok, ops := disk.SaveCurrentDBDirName(sum, name, syncs, faults);
    if !ok {
      t' := FailedSaving(sum, t, from, s, ops, syncs && ops != []);
      assert s.pending + [] == s.pending;
      return;
    }
    ghost var ready := Now(disk, complete, Ready(name));
    if syncs {
      t' := Saving(sum, t, from, s, ops, name);
      assert Leads(sum, t', from, ready);
      NothingPending(disk.durable);
    }
    phase := Ready(name);
    ghost var renamed;
    ok, renamed := disk.ReplaceCurrentDBFile(faults);
    if syncs && renamed {
      ghost var s1 := Do(ready, Switch(ready.durable[UPDATING])).(phase := Renamed(name));
      ThenLeads(sum, t', from, ready, Rename, s1);
      t', phase := Then(t', Rename, s1), Renamed(name);
      if ok {
        ApplyMore(ready.durable, [], Switch(ready.durable[UPDATING]));
        assert [] + [Switch(ready.durable[UPDATING])] == s1.pending;
        ThenLeads(sum, t', from, s1, SyncDir, Synced(s1));
        t', phase := Then(t', SyncDir, Synced(s1)), Idle;
      }
    }
    if ok {
      phase := Idle;
      assert (d[UPDATING := File(Saved(sum, name), true)] - {UPDATING}) == d - {UPDATING};
    }
  }

  /** Every state of a path keeps the invariant. */
  lemma {:induction false} TraceKeeps(sum: Sum, t: Trace, i: nat)
    requires IsTrace(sum, t) && i < |t.states| && Inv(sum, t.states[0])
    ensures Inv(sum, t.states[i])
    decreases i
  {
    hide Inv, Next;
    if i > 0 {
      TraceKeeps(sum, t, i - 1);
      StepKeeps(sum, t.states[i - 1], t.steps[i - 1], t.states[i]);
    }
  }

  /** A crash between any two steps of a path that starts without a pending rename leaves a
      directory to start from. */
  lemma TraceSafe(sum: Sum, t: Trace, from: State, to: State, i: nat)
    requires Leads(sum, t, from, to) && i < |t.states| && Inv(sum, from) && !Switching(from)
    ensures CrashProof(sum, t.states[i])
  {
    hide Inv, Next, Careful, Exposed, CrashProof;
    if Exposed(sum, from) { ExposedSwitching(sum, from); }
    TraceUnexposed(sum, t, i);
    CrashExact(sum, t.states[i]);
  }

  lemma {:induction false} TraceUnexposed(sum: Sum, t: Trace, i: nat)
    requires IsTrace(sum, t) && i < |t.states| && AllCareful(sum, t)
    requires Inv(sum, t.states[0]) && !Exposed(sum, t.states[0])
    ensures Inv(sum, t.states[i]) && !Exposed(sum, t.states[i])
    decreases i
  {
    hide Inv, Next, Careful, Exposed;
    if i > 0 {
      TraceUnexposed(sum, t, i - 1);
      StepKeeps(sum, t.states[i - 1], t.steps[i - 1], t.states[i]);
      ExposedStep(sum, t.states[i - 1], t.steps[i - 1], t.states[i]);
    }
  }

  lemma SameCleaned(sum: Sum, d: Dir, d': Dir, complete: set<Bytes>)
    requires Good(sum, d, complete) && SameAt(d, d', CURRENT)
    requires forall n :: n in complete ==> SameAt(d, d', n)
    ensures Named(sum, d').Some? && Cleaned(sum, d') == Cleaned(sum, d)
  {
    hide NameIn;
  }

  lemma StagedSame(d: Dir, d1: Dir, d2: Dir, name: Bytes, staged: seq<Bytes>, complete: set<Bytes>)
    requires d1 == ApplyOp(d, Link(name, Database)) && forall n :: n !in staged ==> SameAt(d1, d2, n)
    requires forall i :: 0 <= i < |staged| ==> staged[i] != CURRENT && staged[i] !in complete
    requires name != CURRENT && name !in complete
    ensures SameAt(d, d2, CURRENT) && forall n :: n in complete ==> SameAt(d, d2, n)
  {
    assert CURRENT !in staged;
    assert SameAt(d1, d2, CURRENT);
    forall n | n in complete ensures SameAt(d, d2, n) {
      assert n !in staged && n != name;
      assert SameAt(d1, d2, n);
    }
  }

  /** The first half of `recover`: the new database is opened and the files are staged. When this
      is stopped, the directory is cleaned up. */
  method Fill(disk: Disk, sum: Sum, name: Bytes, staged: seq<Bytes>, stops: bool, faults: bool,
              ghost complete: set<Bytes>)
    returns (ending: Ending, ghost t: Trace)
    requires Inv(sum, Now(disk, complete, Idle)) && Fresh(Now(disk, complete, Idle), name)
    requires forall i :: 0 <= i < |staged| ==> staged[i] != CURRENT && staged[i] != name && staged[i] !in complete
    modifies disk
    ensures Named(sum, old(disk.Visible())).Some?
    ensures ending == Recovered ==> name in disk.Visible() && disk.Visible()[name] == Database
    ensures ending == Stopped ==> disk.Visible() == Cleaned(sum, old(disk.Visible()))
    ensures (ending == Stopped ==> stops) && (ending == Failed ==> faults)
    ensures disk.durable == old(disk.durable)
    ensures var phase := if ending == Recovered then Filling(name) else Idle;
            Leads(sum, t, old(Now(disk, complete, Idle)), Now(disk, complete, phase))
  {
    ghost var from, d := Now(disk, complete, Idle), disk.Visible();
    VisibleGood(sum, from);
    hide Leads, ApplyOps, ApplyOp, Inv, Good, Cleaned, SameAt;
    AlwaysSame(d, complete);
    SameCleaned(sum, d, d, complete);
    StartLeads(sum, from);
    disk.Change(Link(name, Database));
    ghost var d1 := disk.Visible();
    Linked(d, name);
    t := Then(Trace([from], []), Open(name), Now(disk, complete, Filling(name)));
    ThenLeads(sum, Trace([from], []), from, from, Open(name), Now(disk, complete, Filling(name)));
    ending, t := StageFiles(disk, sum, name, staged, stops, faults, t, from, complete);
    if ending != Recovered {
      t := Restarting(sum, t, from, Now(disk, complete, Filling(name)));
      if ending == Stopped {
        StagedSame(d, d1, disk.Visible(), name, staged, complete);
        SameCleaned(sum, d, disk.Visible(), complete);
        t := Cleanup(disk, sum, true, t, from, complete);
      }
    }
  }

  lemma Linked(d: Dir, name: Bytes)
    ensures name in ApplyOp(d, Link(name, Database)) && ApplyOp(d, Link(name, Database))[name] == Database
  {
  }

  lemma AlwaysSame(d: Dir, complete: set<Bytes>)
    ensures SameAt(d, d, CURRENT) && forall n :: n in complete ==> SameAt(d, d, n)
  {
  }

  /** `recover`. It ends well with nothing but the new database and the current file naming it;
      stopped, it leaves the old ones; an error leaves it where it was, a rename that is not
      durable included, and it may be called again. `stops` and `faults` tell whether there are
      stops and errors at all. When the unchecked directory sync works, all
      of it is a path of the step system, and a crash at any point of it is harmless, unless it
      started with a rename that was not durable. */
  method Recover(disk: Disk, sum: Sum, name: Bytes, staged: seq<Bytes>, syncs: bool, stops: bool, faults: bool,
                 ghost complete: set<Bytes>)
    returns (ending: Ending, ghost complete': set<Bytes>, ghost t: Trace)
    requires Inv(sum, Now(disk, complete, Idle)) && Fresh(Now(disk, complete, Idle), name)
    requires forall i :: 0 <= i < |staged| ==> staged[i] != CURRENT && staged[i] != name && staged[i] !in complete
    modifies disk
    ensures Named(sum, old(disk.Visible())).Some?
    ensures ending == Recovered ==> disk.Visible() == map[CURRENT := File(Saved(sum, name), true), name := Database]
    ensures ending == Recovered ==> complete' == complete + {name}
    ensures (ending == Stopped ==> stops) && (ending == Failed ==> faults)
    ensures ending == Stopped ==> disk.Visible() == Cleaned(sum, old(disk.Visible()))
    ensures ending == Stopped ==>
              (CrashProof(sum, Now(disk, complete, Idle)) <==>
               Named(sum, old(disk.durable)) == Named(sum, old(disk.Visible())))
    ensures complete <= complete' <= complete + {name}
    ensures syncs ==> Leads(sum, t, old(Now(disk, complete, Idle)), Now(disk, complete', Idle))
    ensures syncs ==> Inv(sum, Now(disk, complete', Idle))
    ensures syncs && !Switching(old(Now(disk, complete, Idle))) ==>
              forall i :: 0 <= i < |t.states| ==> CrashProof(sum, t.states[i])
  {
    hide Leads, ApplyOps, Saved, Inv, Good, Cleaned, Named, CrashProof, Switching;
    ghost var from, d := Now(disk, complete, Idle), disk.Visible();
    VisibleGood(sum, from);
    complete' := complete;
    ending, t := Fill(disk, sum, name, staged, stops, faults, complete);
    if ending == Recovered {
      var ingested: bool := *;
      if ingested || !faults {
        t := IngestFiles(disk, sum, name, staged, t, from, complete);
        complete' := complete + {name};
        ending, t := Finish(disk, sum, name, syncs, faults, t, from, complete');
      } else {
        t := Restarting(sum, t, from, Now(disk, complete, Filling(name)));
        ending := Failed;
      }
    }
    if syncs || ending == Stopped { SafeEnd(sum, t, from, Now(disk, complete', Idle)); }
    if ending == Stopped { CleanedExact(sum, Now(disk, complete, Idle), d); }
  }

  /** The second half of `recover`: the switch, then the cleanup. */
  method Finish(disk: Disk, sum: Sum, name: Bytes, syncs: bool, faults: bool,
                ghost t: Trace, ghost from: State, ghost complete: set<Bytes>)
    returns (ending: Ending, ghost t': Trace)
    requires Leads(sum, t, from, Now(disk, complete, Filled(name)))
    requires name in disk.Visible() && disk.Visible()[name] == Database && name != UPDATING && name != CURRENT
    modifies disk
    ensures ending == Recovered || (ending == Failed && faults)
    ensures ending == Recovered ==> disk.Visible() == map[CURRENT := File(Saved(sum, name), true), name := Database]
    ensures syncs ==> Leads(sum, t', from, Now(disk, complete, Idle))
  {
    hide Leads, ApplyOps, Saved, Cleaned, Named;
    var ok;
    ghost var phase;
    ok, phase, t' := SwitchTo(disk, sum, name, syncs, faults, t, from, complete);
    if ok {
      NewNamed(sum, disk.Visible(), name);
      t' := Cleanup(disk, sum, syncs, t', from, complete);
      ending := Recovered;
    } else {
      if syncs { t' := Restarting(sum, t', from, Now(disk, complete, phase)); }
      ending := Failed;
    }
  }

  /** The start of a state machine that has run before: a cleanup, then the named database is
      opened. */
  method Reopen(disk: Disk, sum: Sum, ghost complete: set<Bytes>) returns (name: Bytes, ghost t: Trace)
    requires Inv(sum, Now(disk, complete, Idle))
    modifies disk
    ensures Named(sum, old(disk.Visible())) == Some(name) && name in complete
    ensures disk.Visible() == Cleaned(sum, old(disk.Visible()))
    ensures name in disk.Visible() && disk.Visible()[name] == Database
    ensures Leads(sum, t, old(Now(disk, complete, Idle)), Now(disk, complete, Idle))
    ensures Inv(sum, Now(disk, complete, Idle))
    ensures CrashProof(sum, Now(disk, complete, Idle)) <==>
            Named(sum, old(disk.durable)) == Named(sum, old(disk.Visible()))
  {
    ghost var from, d := Now(disk, complete, Idle), disk.Visible();
    VisibleGood(sum, from);
    CleanupKeeps(sum, d, complete);
    hide Leads, ApplyOps, Inv, CrashProof, Switching, Exposed, Cleaned, NameIn;
    StartLeads(sum, from);
    t := Cleanup(disk, sum, true, Trace([from], []), from, complete);
    name := NameIn(sum, ApplyOps(disk.durable, disk.pending)[CURRENT].data);
    SafeEnd(sum, t, from, Now(disk, complete, Idle));
    CleanedExact(sum, Now(disk, complete, Idle), d);
  }

  lemma Restarting(sum: Sum, t: Trace, from: State, s: State) returns (t': Trace)
    requires Leads(sum, t, from, s)
    ensures Leads(sum, t', from, s.(phase := Idle))
  {
    hide Leads;
    ThenLeads(sum, t, from, s, Restart, s.(phase := Idle));
    t' := Then(t, Restart, s.(phase := Idle));
  }

  lemma SafeEnd(sum: Sum, t: Trace, from: State, s: State)
    requires Leads(sum, t, from, s) && Inv(sum, from)
    ensures Inv(sum, s)
    ensures !Switching(from) ==> forall i :: 0 <= i < |t.states| ==> CrashProof(sum, t.states[i])
  {
    hide Inv, Next, CrashProof, Switching, AllCareful;
    TraceKeeps(sum, t, |t.states| - 1);
    if !Switching(from) {
      forall i | 0 <= i < |t.states| ensures CrashProof(sum, t.states[i]) {
        TraceSafe(sum, t, from, s, i);
      }
    }
  }

  lemma NewNamed(sum: Sum, d: Dir, name: Bytes)
    requires CURRENT in d && d[CURRENT] == File(Saved(sum, name), true)
    requires name in d && name != UPDATING && name != CURRENT
    ensures Named(sum, d) == Some(name) && Cleaned(sum, d) == map[CURRENT := d[CURRENT], name := d[name]]
  {
    hide NameIn, Saved;
    NameRoundTrip(sum, name);
    OnlyNamed(sum, d, name);
  }
}
