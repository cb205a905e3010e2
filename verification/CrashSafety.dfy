/** Crash safety of the database directory: the small steps of recovering a state machine from a
    snapshot and of the cleanup, interrupted anywhere by restarts and crashes. The directory sync
    before the rename is taken to work; the one behind it may fail. */
module CrashSafety {
  import opened ByteStrings
  import opened DbDir

  /** How far a recovery into a new database has come: filling it, complete, its name written
      and the file synced, the directory synced, the current file replaced. */
  datatype Phase =
    | Idle
    | Filling(name: Bytes)
    | Filled(name: Bytes)
    | Noted(name: Bytes)
    | Ready(name: Bytes)
    | Renamed(name: Bytes)

  /** `complete` are the databases whose files hold all of their data. */
  datatype State = State(durable: Dir, pending: seq<DirOp>, complete: set<Bytes>, phase: Phase)

  function Visible(s: State): (d: Dir)
  {
    ApplyOps(s.durable, s.pending)
  }

  datatype Step =
    | Open(name: Bytes)
    | Stage(file: Bytes, entry: Entry)
    | Ingest
    | Write(data: Bytes)
    | SyncFile
    | SyncDir
    | Rename
    | Restart
    | Remove(name: Bytes)
    | Crash(after: Dir, kept: seq<bool>)

  /** The changes that happened to reach the disk. */
  function Selected(ops: seq<DirOp>, kept: seq<bool>): (r: seq<DirOp>)
    requires |ops| == |kept|
  {
    if ops == [] then []
    else (if kept[0] then [ops[0]] else []) + Selected(ops[1..], kept[1..])
  }

  /** A file that was not synced may have any content. */
  ghost predicate Torn(d: Dir, after: Dir)
  {
    && d.Keys == after.Keys
    && forall n :: n in d ==> after[n] == d[n] || (d[n].File? && !d[n].synced && after[n].File?)
  }

  ghost predicate CrashesTo(s: State, kept: seq<bool>, after: Dir)
  {
    |kept| == |s.pending| && Torn(ApplyOps(s.durable, Selected(s.pending, kept)), after)
  }

  /** A random name that nothing has had before. */
  ghost predicate Fresh(s: State, name: Bytes)
  {
    && name != CURRENT && name != UPDATING && name != [] && name !in s.complete && name !in s.durable
    && forall i :: 0 <= i < |s.pending| && !s.pending[i].Switch? ==> s.pending[i].name != name
  }

  function Do(s: State, op: DirOp): (r: State)
  {
    s.(pending := s.pending + [op])
  }

  /** Syncing the directory makes all changes durable. */
  function Synced(s: State): (r: State)
  {
    var phase := match s.phase case Noted(name) => Ready(name) case Renamed(_) => Idle case other => other;
    State(Visible(s), [], s.complete, phase)
  }

  ghost predicate Next(sum: Sum, s: State, step: Step, s': State)
  {
    match step
    case Open(name) =>
      s.phase == Idle && Fresh(s, name) && s' == Do(s, Link(name, Database)).(phase := Filling(name))
    case Stage(file, entry) =>
      // the files to ingest, and their removal by the ingestion
      && s.phase.Filling? && entry.File? && file != CURRENT && file != s.phase.name && file !in s.complete
      && (s' == Do(s, Link(file, entry)) || s' == Do(s, Unlink(file)))
    case Ingest =>
      && s.phase.Filling?
      && s' == s.(complete := s.complete + {s.phase.name}, phase := Filled(s.phase.name))
    case Write(data) => s.phase.Filled? && s' == Do(s, Link(UPDATING, File(data, false)))
    case SyncFile =>
      && s.phase.Filled?
      && s' == Do(s, Link(UPDATING, File(Saved(sum, s.phase.name), true))).(phase := Noted(s.phase.name))
    case SyncDir => s' == Synced(s)
    case Rename =>
      && s.phase.Ready? && UPDATING in s.durable
      && s' == Do(s, Switch(s.durable[UPDATING])).(phase := Renamed(s.phase.name))
    case Restart =>
      // an error, or the process is killed and started again: what is not synced stays so
      s' == s.(phase := Idle)
    case Remove(name) =>
      // one file of a cleanup
      && s.phase == Idle && name != CURRENT && Named(sum, Visible(s)).Some?
      && (name == UPDATING || Named(sum, Visible(s)) != Some(name))
      && s' == Do(s, Unlink(name))
    case Crash(after, kept) => CrashesTo(s, kept, after) && s' == State(after, [], s.complete, Idle)
  }

  // ---------- the invariant ----------

  /** The change touches neither the current file nor the database it names. */
  predicate Harmless(op: DirOp, name: Bytes)
  {
    !op.Switch? && op.name != CURRENT && op.name != name
  }

  predicate AllHarmless(ops: seq<DirOp>, name: Bytes)
  {
    forall i :: 0 <= i < |ops| ==> Harmless(ops[i], name)
  }

  /** A rename is done and not durable. It is the first change behind a sync of the directory. */
  predicate Switching(s: State)
  {
    s.pending != [] && s.pending[0].Switch?
  }

  /** The directory as the pending rename would leave it, and the other pending changes. */
  function Base(s: State): (d: Dir)
  {
    if Switching(s) then ApplyOp(s.durable, s.pending[0]) else s.durable
  }

  function Rest(s: State): (ops: seq<DirOp>)
  {
    if Switching(s) then s.pending[1..] else s.pending
  }

  ghost predicate PhaseInv(sum: Sum, s: State)
  {
    && (s.phase != Idle ==> s.phase.name != CURRENT && s.phase.name != UPDATING && s.phase.name != [])
    && (s.phase != Idle ==> s.phase.name in Visible(s) && Visible(s)[s.phase.name] == Database)
    && (s.phase != Idle && !s.phase.Filling? ==> s.phase.name in s.complete)
    && (s.phase.Noted? || s.phase.Ready? ==>
          UPDATING in Visible(s) && Visible(s)[UPDATING] == File(Saved(sum, s.phase.name), true))
    && (s.phase.Ready? ==> s.pending == [])
  }

  /** Both the directory on the disk and the one a pending rename leads to are good, and the other
      changes leave alone what the latter names. They may remove what the former names. */
  ghost predicate Inv(sum: Sum, s: State)
  {
    && Good(sum, s.durable, s.complete) && Good(sum, Base(s), s.complete)
    && AllHarmless(Rest(s), Named(sum, Base(s)).value)
    && (forall i :: 0 <= i < |s.pending| && s.pending[i].Link? ==> Named(sum, s.durable) != Some(s.pending[i].name))
    && PhaseInv(sum, s)
  }

  /** The removal of the database that the current file on the disk names is pending. */
  ghost predicate Exposed(sum: Sum, s: State)
  {
    Named(sum, s.durable).Some? && Unlink(Named(sum, s.durable).value) in s.pending
  }

  /** Whatever part of the unsynced changes a crash leaves on the disk, the current file is valid
      and names a complete database. */
  ghost predicate CrashProof(sum: Sum, s: State)
  {
    forall kept, after :: CrashesTo(s, kept, after) ==> Good(sum, after, s.complete)
  }

  /** Harmless changes leave the current file and its database alone, in any selection. */
  lemma {:induction false} HarmlessKeeps(sum: Sum, d: Dir, ops: seq<DirOp>, complete: set<Bytes>, name: Bytes)
    requires Good(sum, d, complete) && Named(sum, d) == Some(name) && AllHarmless(ops, name)
    ensures Good(sum, ApplyOps(d, ops), complete) && Named(sum, ApplyOps(d, ops)) == Some(name)
    decreases |ops|
  {
    hide NameIn;
    if ops != [] {
      assert Harmless(ops[0], name);
      HarmlessKeeps(sum, ApplyOp(d, ops[0]), ops[1..], complete, name);
    }
  }

  lemma {:induction false} SelectedHarmless(ops: seq<DirOp>, kept: seq<bool>, name: Bytes)
    requires |ops| == |kept| && AllHarmless(ops, name)
    ensures AllHarmless(Selected(ops, kept), name)
    decreases |ops|
  {
    if ops != [] {
      assert forall i :: 0 <= i < |ops[1..]| ==> ops[1..][i] == ops[i + 1];
      SelectedHarmless(ops[1..], kept[1..], name);
    }
  }

  lemma TornGood(sum: Sum, d: Dir, after: Dir, complete: set<Bytes>)
    requires Good(sum, d, complete) && Torn(d, after)
    ensures Good(sum, after, complete) && Named(sum, after) == Named(sum, d)
  {
  }

  lemma VisibleBase(s: State)
    ensures Visible(s) == ApplyOps(Base(s), Rest(s))
  {
  }

  /** What programs see is good, and names what the pending rename does. */
  lemma VisibleGood(sum: Sum, s: State)
    requires Inv(sum, s)
    ensures Good(sum, Visible(s), s.complete) && Named(sum, Visible(s)) == Named(sum, Base(s))
  {
    hide Base, Rest, ApplyOps, NameIn, PhaseInv;
    VisibleBase(s);
    HarmlessKeeps(sum, Base(s), Rest(s), s.complete, Named(sum, Base(s)).value);
  }

  // ---------- crashes ----------

  /** A crash that keeps the rename, or finds none. */
  lemma CrashAhead(sum: Sum, s: State, kept: seq<bool>)
    requires Inv(sum, s) && |kept| == |s.pending| && (Switching(s) ==> kept[0])
    ensures var after := ApplyOps(s.durable, Selected(s.pending, kept));
            Good(sum, after, s.complete) && Named(sum, after) == Named(sum, Base(s))
  {
    hide Good, NameIn, PhaseInv, AllHarmless, Named;
    var kept' := if Switching(s) then kept[1..] else kept;
    NamedBase(sum, s);
    SelectedHarmless(Rest(s), kept', Named(sum, Base(s)).value);
    HarmlessKeeps(sum, Base(s), Selected(Rest(s), kept'), s.complete, Named(sum, Base(s)).value);
    if Switching(s) {
      assert Selected(s.pending, kept) == [s.pending[0]] + Selected(Rest(s), kept');
      assert ([s.pending[0]] + Selected(Rest(s), kept'))[1..] == Selected(Rest(s), kept');
    }
  }

  lemma NamedBase(sum: Sum, s: State)
    requires Inv(sum, s)
    ensures Named(sum, Base(s)).Some? && Named(sum, s.durable).Some?
    ensures Good(sum, s.durable, s.complete) && Good(sum, Base(s), s.complete)
    ensures AllHarmless(Rest(s), Named(sum, Base(s)).value)
  {
    hide NameIn, PhaseInv, AllHarmless, Base, Rest;
  }

  /** A crash that loses the rename. */
  lemma CrashBehind(sum: Sum, s: State, kept: seq<bool>)
    requires Inv(sum, s) && !Exposed(sum, s) && |kept| == |s.pending| && Switching(s) && !kept[0]
    ensures var after := ApplyOps(s.durable, Selected(s.pending, kept));
            Good(sum, after, s.complete) && Named(sum, after) == Named(sum, s.durable)
  {
    hide NameIn, PhaseInv, ApplyOps;
    var name := Named(sum, s.durable).value;
    RestHarmless(sum, s);
    SelectedHarmless(s.pending[1..], kept[1..], name);
    HarmlessKeeps(sum, s.durable, Selected(s.pending[1..], kept[1..]), s.complete, name);
    assert Selected(s.pending, kept) == Selected(s.pending[1..], kept[1..]);
  }

  lemma RestHarmless(sum: Sum, s: State)
    requires Inv(sum, s) && !Exposed(sum, s) && Switching(s)
    ensures AllHarmless(s.pending[1..], Named(sum, s.durable).value)
  {
    hide NameIn, PhaseInv, ApplyOps, Good;
    NamedBase(sum, s);
    forall i | 0 <= i < |s.pending[1..]| ensures Harmless(s.pending[1..][i], Named(sum, s.durable).value) {
      assert Harmless(Rest(s)[i], Named(sum, Base(s)).value);
      assert s.pending[1..][i] == s.pending[i + 1];
    }
  }

  /** Crash safety of a state that is not exposed; the database named is the old or the new one. */
  lemma CrashGood(sum: Sum, s: State, kept: seq<bool>, after: Dir)
    requires Inv(sum, s) && !Exposed(sum, s) && CrashesTo(s, kept, after)
    ensures Good(sum, after, s.complete)
    ensures Named(sum, after) == Named(sum, s.durable) || Named(sum, after) == Named(sum, Visible(s))
  {
    hide Inv, Good, Torn, ApplyOps, Selected, Named, Exposed, Base;
    VisibleGood(sum, s);
    if Switching(s) && !kept[0] {
      CrashBehind(sum, s, kept);
    } else {
      CrashAhead(sum, s, kept);
    }
    TornGood(sum, ApplyOps(s.durable, Selected(s.pending, kept)), after, s.complete);
  }

  /** Only the change at `i` reaches the disk. */
  function Only(n: nat, i: nat): (kept: seq<bool>)
    ensures |kept| == n
  {
    seq(n, j => j == i)
  }

  lemma {:induction false} SelectedOnly(ops: seq<DirOp>, i: nat)
    requires i < |ops|
    ensures Selected(ops, Only(|ops|, i)) == [ops[i]]
    decreases |ops|
  {
    var kept := Only(|ops|, i);
    if i == 0 {
      SelectedNone(ops[1..], kept[1..]);
    } else {
      assert kept[1..] == Only(|ops[1..]|, i - 1);
      SelectedOnly(ops[1..], i - 1);
    }
  }

  lemma {:induction false} SelectedNone(ops: seq<DirOp>, kept: seq<bool>)
    requires |ops| == |kept| && forall i :: 0 <= i < |kept| ==> !kept[i]
    ensures Selected(ops, kept) == []
    decreases |ops|
  {
    if ops != [] { SelectedNone(ops[1..], kept[1..]); }
  }

  /** An exposed state: the removal reaches the disk, the rename does not. */
  lemma ExposedLoses(sum: Sum, s: State) returns (kept: seq<bool>, after: Dir)
    requires Good(sum, s.durable, s.complete) && Exposed(sum, s)
    ensures CrashesTo(s, kept, after) && !Good(sum, after, s.complete)
  {
    hide NameIn;
    var name := Named(sum, s.durable).value;
    var i :| 0 <= i < |s.pending| && s.pending[i] == Unlink(name);
    kept, after := Only(|s.pending|, i), s.durable - {name};
    SelectedOnly(s.pending, i);
    NothingPending(ApplyOp(s.durable, Unlink(name)));
    assert ApplyOps(s.durable, [Unlink(name)]) == after;
  }

  /** The exact law: a state survives every crash if and only if no removal of the database that
      the current file on the disk names is pending. */
  lemma CrashExact(sum: Sum, s: State)
    requires Inv(sum, s)
    ensures CrashProof(sum, s) <==> !Exposed(sum, s)
  {
    hide Good, Exposed, CrashesTo, Base, Rest;
    if Exposed(sum, s) {
      var kept, after := ExposedLoses(sum, s);
    } else {
      forall kept, after | CrashesTo(s, kept, after) ensures Good(sum, after, s.complete) {
        CrashGood(sum, s, kept, after);
      }
    }
  }

  /** Such a removal can only be pending behind a rename. */
  lemma ExposedSwitching(sum: Sum, s: State)
    requires Inv(sum, s) && Exposed(sum, s)
    ensures Switching(s) && Named(sum, Visible(s)) != Named(sum, s.durable)
  {
    VisibleGood(sum, s);
    hide NameIn, PhaseInv, ApplyOps, ApplyOp, Visible;
    var i :| 0 <= i < |s.pending| && s.pending[i] == Unlink(Named(sum, s.durable).value);
    if Switching(s) {
      assert Rest(s)[i - 1] == s.pending[i];
      assert Harmless(Rest(s)[i - 1], Named(sum, Base(s)).value);
    } else {
      assert false;
    }
  }

  lemma {:induction false} Survives(d: Dir, ops: seq<DirOp>, n: Bytes)
    requires n in d && n != CURRENT && n != UPDATING
    requires forall i :: 0 <= i < |ops| && ops[i].Link? ==> ops[i].name != n
    ensures n in ApplyOps(d, ops) <==> Unlink(n) !in ops
    decreases |ops|
  {
    if ops != [] {
      assert forall i :: 0 <= i < |ops[1..]| ==> ops[1..][i] == ops[i + 1];
      assert ops == [ops[0]] + ops[1..];
      if n in ApplyOp(d, ops[0]) {
        Survives(ApplyOp(d, ops[0]), ops[1..], n);
      } else {
        assert ops[0] == Unlink(n);
        NeverAgain(ApplyOp(d, ops[0]), ops[1..], n);
      }
    }
  }

  lemma {:induction false} NeverAgain(d: Dir, ops: seq<DirOp>, n: Bytes)
    requires n !in d && n != CURRENT && forall i :: 0 <= i < |ops| && ops[i].Link? ==> ops[i].name != n
    ensures n !in ApplyOps(d, ops)
    decreases |ops|
  {
    if ops != [] {
      assert forall i :: 0 <= i < |ops[1..]| ==> ops[1..][i] == ops[i + 1];
      NeverAgain(ApplyOp(d, ops[0]), ops[1..], n);
    }
  }

  /** A state is exposed exactly when programs no longer see the database named on the disk. */
  lemma ExposedGone(sum: Sum, s: State)
    requires Inv(sum, s)
    ensures Named(sum, s.durable).Some?
    ensures Exposed(sum, s) <==> Named(sum, s.durable).value !in Visible(s)
  {
    hide ApplyOps, NameIn, Base, Rest, PhaseInv;
    Survives(s.durable, s.pending, Named(sum, s.durable).value);
  }

  /** After a cleanup a state survives every crash if and only if the rename that programs see, if
      there was one, is durable. */
  lemma CleanedExact(sum: Sum, s: State, d: Dir)
    requires Inv(sum, s) && Good(sum, d, s.complete) && Visible(s) == Cleaned(sum, d)
    ensures CrashProof(sum, s) <==> Named(sum, s.durable) == Named(sum, d)
  {
    CleanedGone(sum, s, d);
    hide Inv, Good, CrashProof, Exposed, Visible, Cleaned;
    ExposedGone(sum, s);
    CrashExact(sum, s);
  }

  lemma CleanedGone(sum: Sum, s: State, d: Dir)
    requires Inv(sum, s) && Good(sum, d, s.complete) && Visible(s) == Cleaned(sum, d)
    ensures Named(sum, s.durable).Some? && Named(sum, d).Some?
    ensures Named(sum, s.durable).value in Visible(s) <==> Named(sum, s.durable) == Named(sum, d)
  {
    hide ApplyOps, NameIn, Base, Rest, PhaseInv, Visible;
  }

  // ---------- every step keeps the invariant ----------

  /** One more harmless change that leaves the new database alone. */
  lemma ChangeKeeps(sum: Sum, s: State, op: DirOp, phase: Phase)
    requires Inv(sum, s) && !s.phase.Ready? && Harmless(op, Named(sum, Base(s)).value)
    requires s.phase != Idle ==> op.name != s.phase.name && !s.phase.Noted?
    requires op.Link? ==> Named(sum, s.durable) != Some(op.name)
    requires phase == s.phase || (s.phase.Filled? && phase == Noted(s.phase.name))
    requires phase.Noted? ==> op == Link(UPDATING, File(Saved(sum, phase.name), true))
    ensures Inv(sum, Do(s, op).(phase := phase))
  {
    hide Good, Named, Saved, ApplyOps;
    ApplyMore(s.durable, s.pending, op);
  }

  /** A sync, a restart or a good crash: nothing but the directory matters. */
  lemma StartInv(sum: Sum, s: State)
    requires Good(sum, s.durable, s.complete) && s.pending == [] && s.phase == Idle
    ensures Inv(sum, s)
  {
    hide NameIn, Saved;
  }

  lemma NothingPending(d: Dir)
    ensures ApplyOps(d, []) == d
  {
  }

  lemma OpenKeeps(sum: Sum, s: State, name: Bytes)
    requires Inv(sum, s) && s.phase == Idle && Fresh(s, name)
    ensures Inv(sum, Do(s, Link(name, Database)).(phase := Filling(name)))
  {
    hide ApplyOps, NameIn;
    ApplyMore(s.durable, s.pending, Link(name, Database));
  }

  lemma SyncKeeps(sum: Sum, s: State)
    requires Inv(sum, s)
    ensures Inv(sum, Synced(s))
  {
    VisibleGood(sum, s);
    hide NameIn, Saved, ApplyOps;
    NothingPending(Visible(s));
  }

  /** The new name, once the directory is synced, can be switched to. */
  lemma RenameKeeps(sum: Sum, s: State)
    requires Inv(sum, s) && s.phase.Ready? && UPDATING in s.durable
    ensures Inv(sum, Do(s, Switch(s.durable[UPDATING])).(phase := Renamed(s.phase.name)))
  {
    hide Saved, ApplyOps, NameIn;
    NothingPending(s.durable);
    NameRoundTrip(sum, s.phase.name);
    ApplyMore(s.durable, [], Switch(s.durable[UPDATING]));
    assert s.pending + [Switch(s.durable[UPDATING])] == [Switch(s.durable[UPDATING])];
  }

  lemma RemoveKeeps(sum: Sum, s: State, name: Bytes)
    requires Inv(sum, s) && s.phase == Idle && name != CURRENT
    requires name == UPDATING || Named(sum, Visible(s)) != Some(name)
    ensures Inv(sum, Do(s, Unlink(name)))
  {
    hide NameIn, ApplyOps, Rest, Base;
    VisibleGood(sum, s);
    ChangeKeeps(sum, s, Unlink(name), Idle);
  }

  lemma StageKeeps(sum: Sum, s: State, file: Bytes, entry: Entry)
    requires Inv(sum, s) && s.phase.Filling? && file != CURRENT && file != s.phase.name && file !in s.complete
    ensures Inv(sum, Do(s, Link(file, entry))) && Inv(sum, Do(s, Unlink(file)))
  {
    hide NameIn, Saved, ApplyOps, Rest, Base;
    ChangeKeeps(sum, s, Link(file, entry), s.phase);
    ChangeKeeps(sum, s, Unlink(file), s.phase);
  }

  lemma WriteKeeps(sum: Sum, s: State, file: Entry)
    requires Inv(sum, s) && s.phase.Filled?
    ensures Inv(sum, Do(s, Link(UPDATING, file)))
    ensures file == File(Saved(sum, s.phase.name), true) ==>
              Inv(sum, Do(s, Link(UPDATING, file)).(phase := Noted(s.phase.name)))
  {
    hide NameIn, Saved, ApplyOps, Rest, Base;
    ChangeKeeps(sum, s, Link(UPDATING, file), s.phase);
    if file == File(Saved(sum, s.phase.name), true) {
      ChangeKeeps(sum, s, Link(UPDATING, file), Noted(s.phase.name));
    }
  }

  lemma RestartKeeps(sum: Sum, s: State)
    requires Inv(sum, s)
    ensures Inv(sum, s.(phase := Idle))
  {
    hide NameIn, Saved, ApplyOps;
  }

  lemma IngestKeeps(sum: Sum, s: State)
    requires Inv(sum, s) && s.phase.Filling?
    ensures Inv(sum, s.(complete := s.complete + {s.phase.name}, phase := Filled(s.phase.name)))
  {
    hide NameIn, Saved, ApplyOps;
  }

  /** Every step keeps the invariant, a crash out of an exposed state aside. */
  lemma StepKeeps(sum: Sum, s: State, step: Step, s': State)
    requires Inv(sum, s) && Next(sum, s, step, s') && (step.Crash? ==> !Exposed(sum, s))
    ensures Inv(sum, s')
  {
    hide Inv, Good, Saved, Visible, Fresh, Named, Exposed;
    match step
    case Open(name) => OpenKeeps(sum, s, name);
    case Stage(file, entry) => StageKeeps(sum, s, file, entry);
    case Ingest => IngestKeeps(sum, s);
    case Write(data) => WriteKeeps(sum, s, File(data, false));
    case SyncFile => WriteKeeps(sum, s, File(Saved(sum, s.phase.name), true));
    case SyncDir => SyncKeeps(sum, s);
    case Rename => RenameKeeps(sum, s);
    case Restart => RestartKeeps(sum, s);
    case Remove(name) => RemoveKeeps(sum, s, name);
    case Crash(after, kept) =>
      CrashGood(sum, s, kept, after);
      StartInv(sum, s');
  }

  // ---------- whole runs ----------

  /** A run from an opened database on. */
  ghost predicate IsRun(sum: Sum, states: seq<State>, steps: seq<Step>)
  {
    && |states| == |steps| + 1 && Good(sum, states[0].durable, states[0].complete)
    && states[0].pending == [] && states[0].phase == Idle
    && forall i :: 0 <= i < |steps| ==> Next(sum, states[i], steps[i], states[i + 1])
  }

  /** A cleanup does not remove the previously named database before the rename is durable. */
  ghost predicate Careful(sum: Sum, s: State, step: Step)
  {
    step.Remove? && Switching(s) ==> Named(sum, s.durable) != Some(step.name)
  }

  /** A state becomes exposed by a careless removal and by nothing else. */
  lemma ExposedStep(sum: Sum, s: State, step: Step, s': State)
    requires Inv(sum, s) && !Exposed(sum, s) && Next(sum, s, step, s')
    ensures Exposed(sum, s') <==> !Careful(sum, s, step)
  {
    hide NameIn, ApplyOps, ApplyOp, Saved, CrashesTo, PhaseInv;
    VisibleGood(sum, s);
  }

  lemma {:induction false} RunKeeps(sum: Sum, states: seq<State>, steps: seq<Step>, i: nat)
    requires IsRun(sum, states, steps) && i < |states|
    requires forall j :: 0 <= j < i ==> Careful(sum, states[j], steps[j])
    ensures Inv(sum, states[i]) && !Exposed(sum, states[i])
    decreases i
  {
    hide Next, Good, NameIn, Saved, Careful;
    if i == 0 {
      StartInv(sum, states[0]);
    } else {
      RunKeeps(sum, states, steps, i - 1);
      StepKeeps(sum, states[i - 1], steps[i - 1], states[i]);
      ExposedStep(sum, states[i - 1], steps[i - 1], states[i]);
    }
  }

  /** Crash safety. From an opened database on, through any number of recoveries, failures,
      restarts, cleanups and crashes, as long as the directory is synced before a cleanup removes
      the database that was named before: a crash at any moment leaves a current file that names a
      complete database, and the cleanup of the next start keeps it. */
  lemma CrashSafe(sum: Sum, states: seq<State>, steps: seq<Step>, i: nat, kept: seq<bool>, after: Dir)
    requires IsRun(sum, states, steps) && i < |states| && CrashesTo(states[i], kept, after)
    requires forall j :: 0 <= j < i ==> Careful(sum, states[j], steps[j])
    ensures Good(sum, after, states[i].complete) && Named(sum, after).Some?
    ensures Good(sum, Cleaned(sum, after), states[i].complete)
    ensures Named(sum, Cleaned(sum, after)) == Named(sum, after)
  {
    hide IsRun, Inv, CrashesTo, NameIn, Careful, Exposed;
    RunKeeps(sum, states, steps, i);
    CrashGood(sum, states[i], kept, after);
    CleanupKeeps(sum, after, states[i].complete);
  }

  /** And no further: a run survives a crash at every moment if and only if no cleanup in it
      removes the previously named database before the rename is durable. */
  lemma CrashSafeExact(sum: Sum, states: seq<State>, steps: seq<Step>)
    requires IsRun(sum, states, steps)
    ensures (forall i :: 0 <= i < |states| ==> CrashProof(sum, states[i])) <==>
            (forall i :: 0 <= i < |steps| ==> Careful(sum, states[i], steps[i]))
  {
    hide Next, Good, NameIn, Saved, Careful, Inv, Exposed, CrashProof;
    if forall i :: 0 <= i < |steps| ==> Careful(sum, states[i], steps[i]) {
      forall i | 0 <= i < |states| ensures CrashProof(sum, states[i]) {
        RunKeeps(sum, states, steps, i);
        CrashExact(sum, states[i]);
      }
    } else {
      var i := FirstCareless(sum, states, steps, 0);
      RunKeeps(sum, states, steps, i);
      StepKeeps(sum, states[i], steps[i], states[i + 1]);
      ExposedStep(sum, states[i], steps[i], states[i + 1]);
      CrashExact(sum, states[i + 1]);
    }
  }

  lemma FirstCareless(sum: Sum, states: seq<State>, steps: seq<Step>, from: nat) returns (i: nat)
    requires |states| == |steps| + 1 && exists j :: 0 <= j < |steps| && !Careful(sum, states[j], steps[j])
    requires from <= |steps| && forall j :: 0 <= j < from ==> Careful(sum, states[j], steps[j])
    ensures i < |steps| && !Careful(sum, states[i], steps[i])
    ensures forall j :: 0 <= j < i ==> Careful(sum, states[j], steps[j])
    decreases |steps| - from
  {
    hide Careful;
    if Careful(sum, states[from], steps[from]) {
      i := FirstCareless(sum, states, steps, from + 1);
    } else {
      i := from;
    }
  }

  ghost function Last(states: seq<State>): (s: State)
    requires states != []
  {
    states[|states| - 1]
  }

  lemma MoreRun(sum: Sum, states: seq<State>, steps: seq<Step>, step: Step, s: State)
    requires IsRun(sum, states, steps) && Next(sum, Last(states), step, s)
    ensures IsRun(sum, states + [s], steps + [step])
  {
    hide Next, Good;
  }

  /** The rename is done, its sync fails or the process is killed before it, and the next start
      cleans up: then a crash that keeps the removal and not the rename leaves a current file that
      names a missing database. */
  lemma RestartLosesDatabase(sum: Sum, states: seq<State>, steps: seq<Step>)
    returns (states': seq<State>, steps': seq<Step>)
    requires IsRun(sum, states, steps)
    requires forall j :: 0 <= j < |steps| ==> Careful(sum, states[j], steps[j])
    requires Named(sum, Last(states).durable).Some?
    requires Named(sum, Visible(Last(states))) != Named(sum, Last(states).durable)
    ensures IsRun(sum, states', steps') && |steps'| == |steps| + 3 && steps'[|steps| + 2].Crash?
    ensures steps'[..|steps| + 2] == steps + [Restart, Remove(Named(sum, Last(states).durable).value)]
    ensures !Good(sum, Last(states').durable, Last(states').complete)
  {
    var s := Last(states);
    var old' := Named(sum, s.durable).value;
    var s1 := s.(phase := Idle);
    var s2 := Do(s1, Unlink(old'));
    RunKeeps(sum, states, steps, |steps|);
    VisibleGood(sum, s);
    NamedProper(sum, s);
    hide Inv, Good, ApplyOps, NameIn, CrashesTo, Careful, Named, IsRun;
    MoreRun(sum, states, steps, Restart, s1);
    MoreRun(sum, states + [s1], steps + [Restart], Remove(old'), s2);
    assert s2.pending[|s.pending|] == Unlink(old');
    var kept, after := ExposedLoses(sum, s2);
    var s3 := State(after, [], s.complete, Idle);
    states' := states + [s1] + [s2] + [s3];
    steps' := steps + [Restart] + [Remove(old')] + [Crash(after, kept)];
    MoreRun(sum, states + [s1] + [s2], steps + [Restart] + [Remove(old')], Crash(after, kept), s3);
  }

  lemma NamedProper(sum: Sum, s: State)
    requires Inv(sum, s)
    ensures Good(sum, s.durable, s.complete) && Named(sum, s.durable) != Some(CURRENT)
  {
    hide NameIn, Base, Rest, PhaseInv;
  }

  /** Every recovery comes to such a point: from any good directory there is a run, without any
      cleanup, that ends right behind the rename. */
  lemma RunToRename(sum: Sum, d: Dir, complete: set<Bytes>, name: Bytes)
    returns (states: seq<State>, steps: seq<Step>)
    requires Good(sum, d, complete) && Fresh(State(d, [], complete, Idle), name)
    ensures IsRun(sum, states, steps) && states[0] == State(d, [], complete, Idle)
    ensures steps == [Open(name), Ingest, SyncFile, SyncDir, Rename]
    ensures Named(sum, Last(states).durable) == Named(sum, d) && Named(sum, Visible(Last(states))) == Some(name)
  {
    hide Saved, NameIn;
    var file := File(Saved(sum, name), true);
    var ops := [Link(name, Database), Link(UPDATING, file)];
    var s0 := State(d, [], complete, Idle);
    var s1 := Do(s0, Link(name, Database)).(phase := Filling(name));
    var s2 := s1.(complete := complete + {name}, phase := Filled(name));
    var s3 := Do(s2, Link(UPDATING, file)).(phase := Noted(name));
    var s4 := Synced(s3);
    assert s3.pending == ops;
    LinkedBoth(d, name, file);
    var s5 := Do(s4, Switch(file)).(phase := Renamed(name));
    assert s5.pending == [Switch(file)];
    Renames(sum, s4.durable, name);
    states, steps := [s0, s1, s2, s3, s4, s5], [Open(name), Ingest, SyncFile, SyncDir, Rename];
  }

  lemma LinkedBoth(d: Dir, name: Bytes, file: Entry)
    ensures ApplyOps(d, [Link(name, Database), Link(UPDATING, file)]) == d[name := Database][UPDATING := file]
  {
    var ops := [Link(name, Database), Link(UPDATING, file)];
    assert ops[1..] == [Link(UPDATING, file)] && ops[1..][1..] == [];
    assert ApplyOps(d, ops) == ApplyOps(d[name := Database], ops[1..]);
    assert ApplyOps(d[name := Database], ops[1..]) == ApplyOps(d[name := Database][UPDATING := file], []);
  }

  lemma Renames(sum: Sum, d: Dir, name: Bytes)
    ensures Named(sum, ApplyOps(d, [Switch(File(Saved(sum, name), true))])) == Some(name)
  {
    hide Saved, NameIn;
    NameRoundTrip(sum, name);
    var ops := [Switch(File(Saved(sum, name), true))];
    assert ops[1..] == [];
    assert ApplyOps(d, ops) == ApplyOps(ApplyOp(d, ops[0]), []);
  }

  /** The sync of the directory before the rename is needed: if it did nothing, the rename can
      reach the disk without the database. */
  lemma UnsyncedRenameUnsafe(sum: Sum, d: Dir, complete: set<Bytes>, name: Bytes)
    requires name !in d && name != CURRENT && name != UPDATING
    ensures var file := File(Saved(sum, name), true);
            var pending := [Link(name, Database), Link(UPDATING, file), Switch(file)];
            var s := State(d, pending, complete, Renamed(name));
            exists after :: CrashesTo(s, [false, false, true], after) && !Good(sum, after, complete)
  {
    var file := File(Saved(sum, name), true);
    var pending := [Link(name, Database), Link(UPDATING, file), Switch(file)];
    var s := State(d, pending, complete, Renamed(name));
    var after := ApplyOp(d, Switch(file));
    assert Selected(pending[2..], [true]) == [Switch(file)];
    assert Selected(pending[1..], [false, true]) == [Switch(file)];
    assert Selected(pending, [false, false, true]) == [Switch(file)];
    assert ApplyOps(after, []) == after;
    NameRoundTrip(sum, name);
    assert CrashesTo(s, [false, false, true], after);
    assert !Good(sum, after, complete);
  }
}
