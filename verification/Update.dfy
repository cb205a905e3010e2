/** `FSM.Update`: a list of log entries is applied in one batch. The theorems compare it with
    applying the entries one by one, for every way of splitting a log into calls. */
module Update {
  import opened ByteStrings
  import opened Messages
  import opened Keys
  import opened Store
  import opened Table
  import opened CommandCodec
  import opened Fsm
  import opened Lists
  import LittleEndian
  import Marshal

  datatype Entry = Entry(index: uint64, cmd: Bytes)
  datatype CommandResult = CommandResult(revision: uint64, responses: seq<ResponseOp>)
  datatype EntryResult = EntryResult(success: bool, data: Option<CommandResult>)

  // ---------- sequential meaning ----------

  ghost function ResultOf(index: uint64, success: bool, responses: seq<ResponseOp>): (r: EntryResult)
  {
    EntryResult(success, if responses == [] then None else Some(CommandResult(index, responses)))
  }

  ghost function Step(m: UserMap, e: Entry): (r: Outcome<(UserMap, EntryResult)>)
  {
    match DecodeCommand(e.cmd)
    case None => Fault
    case Some(c) =>
      match Apply(m, c)
      case Fault => Fault
      case Ok(f) => Ok((f.m, ResultOf(e.index, f.success, f.responses)))
  }

  /** The entries applied one after the other to a plain map. */
  ghost function Run(m: UserMap, es: seq<Entry>): (r: Outcome<(UserMap, seq<EntryResult>)>)
    decreases |es|
  {
    if es == [] then Ok((m, []))
    else
      match Step(m, es[0])
      case Fault => Fault
      case Ok(p) =>
        match Run(p.0, es[1..])
        case Fault => Fault
        case Ok(q) => Ok((q.0, [p.1] + q.1))
  }

  /** What is left of a run after some results were collected. */
  ghost function Resume(m: UserMap, es: seq<Entry>,
                        results: seq<EntryResult>): (r: Outcome<(UserMap, seq<EntryResult>)>)
  {
    match Run(m, es) case Fault => Fault case Ok(p) => Ok((p.0, results + p.1))
  }

  lemma ResumeStep(m: UserMap, es: seq<Entry>, i: nat, results: seq<EntryResult>)
    requires i < |es|
    ensures Resume(m, es[i..], results) ==
            match Step(m, es[i]) case Fault => Fault case Ok(p) => Resume(p.0, es[i + 1..], results + [p.1])
  {
    hide Step;
    assert es[i..][1..] == es[i + 1..];
    var p := Step(m, es[i]);
    if p.Ok? {
      var rest := Run(p.value.0, es[i + 1..]);
      if rest.Ok? { assert results + ([p.value.1] + rest.value.1) == results + [p.value.1] + rest.value.1; }
    }
  }

  lemma ResumeEnds(m: UserMap, es: seq<Entry>, results: seq<EntryResult>)
    ensures Resume(m, es, []) == Run(m, es)
    ensures Resume(m, [], results) == Ok((m, results))
  {
    var all := Run(m, es);
    if all.Ok? { assert [] + all.value.1 == all.value.1; }
    assert results + [] == results;
  }

  /** The leader index an entry carries. */
  ghost function LeaderOf(e: Entry): (r: Option<uint64>)
  {
    match DecodeCommand(e.cmd) case None => None case Some(c) => c.leaderIndex
  }

  ghost function LastLeader(es: seq<Entry>): (r: Option<uint64>)
  {
    if es == [] then None else LeaderOf(es[|es| - 1])
  }

  /** A call without entries writes index zero. */
  ghost function LastIndex(es: seq<Entry>): (i: uint64)
  {
    if es == [] then 0 else es[|es| - 1].index
  }

  datatype State = State(users: UserMap, localIndex: uint64, leaderIndex: uint64)

  ghost function StateOf(db: RawMap): (s: State)
    requires Valid(db)
  {
    SystemNotUser(LOCAL_INDEX_KEY);
    SystemNotUser(LEADER_INDEX_KEY);
    State(Users(db), ReadIndex(db, LOCAL_INDEX_KEY), ReadIndex(db, LEADER_INDEX_KEY))
  }

  /** What one call of `Update` does to the state: the leader index is taken from the last
      entry alone. */
  ghost function Next(s: State, es: seq<Entry>): (r: Outcome<State>)
  {
    match Run(s.users, es)
    case Fault => Fault
    case Ok(p) => Ok(State(p.0, LastIndex(es), match LastLeader(es) case None => s.leaderIndex case Some(v) => v))
  }

  // ---------- the machine ----------

  lemma CommitIndexes(db: RawMap, local: uint64, leader: Option<uint64>)
    requires Valid(db)
    ensures var db1 := if leader.Some? then db[LEADER_INDEX_KEY := LittleEndian.Put64(leader.value)] else db;
            var db2 := db1[LOCAL_INDEX_KEY := LittleEndian.Put64(local)];
            && Valid(db2)
            && StateOf(db2) == State(Users(db), local, if leader.Some? then leader.value else StateOf(db).leaderIndex)
  {
    hide Users, LittleEndian.Put64, LittleEndian.Get64;
    var db1 := if leader.Some? then db[LEADER_INDEX_KEY := LittleEndian.Put64(leader.value)] else db;
    if leader.Some? {
      SetSystem(db, LEADER_INDEX_KEY, LittleEndian.Put64(leader.value));
      LittleEndian.RoundTrip(leader.value);
    }
    SetSystem(db1, LOCAL_INDEX_KEY, LittleEndian.Put64(local));
    LittleEndian.RoundTrip(local);
    assert LOCAL_INDEX_KEY[5] != LEADER_INDEX_KEY[5];
  }

  method ParseCommand(ctx: UpdateContext, e: Entry) returns (c: Option<Command>)
    modifies ctx`index, ctx`leaderIndex
    ensures ctx.index == e.index && c == DecodeCommand(e.cmd)
    ensures c.Some? ==> ctx.leaderIndex == c.value.leaderIndex
  {
    ctx.index := e.index;
    c := Marshal.UnmarshalCommand(e.cmd);
    if c.Some? { ctx.leaderIndex := c.value.leaderIndex; }
  }

  method Commit(ctx: UpdateContext) returns (db: RawMap)
    requires Valid(ctx.View())
    modifies ctx`batch
    ensures Valid(db)
    ensures var leader := if ctx.leaderIndex.Some? then ctx.leaderIndex.value else StateOf(old(ctx.View())).leaderIndex;
            StateOf(db) == State(old(ctx.Seen()), ctx.index, leader)
  {
    hide Valid, StateOf, ApplyOps, Users;
    CommitIndexes(ctx.View(), ctx.index, ctx.leaderIndex);
    if ctx.leaderIndex.Some? {
      ctx.Push(Set(LEADER_INDEX_KEY, LittleEndian.Put64(ctx.leaderIndex.value)));
    }
    ctx.Push(Set(LOCAL_INDEX_KEY, LittleEndian.Put64(ctx.index)));
    db := ApplyOps(ctx.db, ctx.batch);
  }

  class Machine {
    var db: RawMap

    constructor ()
      ensures Valid(db) && StateOf(db) == State(map[], 0, 0)
    {
      db := map[];
    }

    /** One call of `Update`. An entry that cannot be decoded or crashes the handler leaves the
        store as it was. */
    method Update(es: seq<Entry>) returns (r: Outcome<seq<EntryResult>>)
      requires Valid(db)
      modifies this
      ensures Valid(db)
      ensures match Run(Users(old(db)), es)
              case Fault => r == Fault && db == old(db)
              case Ok(p) => r == Ok(p.1) && Next(StateOf(old(db)), es) == Ok(StateOf(db))
    {
      hide Valid, Users, SameSystem, ApplyOps, Apply, DecodeCommand, StateOf, Run, Resume;
      StateOfUsers(db);
      var ctx := new UpdateContext(db);
      NoOps(db);
      var i, results := 0, [];
      SameSystemReflexive(db);
      ResumeEnds(Users(db), es, []);
      assert es[0..] == es;
      while i < |es|
        invariant i <= |es| && db == old(db) && fresh(ctx) && Valid(ctx.View()) && SameSystem(db, ctx.View())
        invariant ctx.index == LastIndex(es[..i]) && ctx.leaderIndex == LastLeader(es[..i])
        invariant Run(Users(db), es) == Resume(ctx.Seen(), es[i..], results)
      {
        ResumeStep(ctx.Seen(), es, i, results);
        var c := ParseCommand(ctx, es[i]);
        if c == None { return Fault; }
        ghost var before := ctx.View();
        var handled := ctx.Handle(c.value);
        SameSystemTransitive(db, before, ctx.View());
        if handled == Fault { return Fault; }
        var (success, responses) := handled.value;
        var data := None;
        if |responses| > 0 { data := Some(CommandResult(ctx.index, responses)); }
        assert es[..i + 1][i] == es[i];
        results, i := results + [EntryResult(success, data)], i + 1;
      }
      assert es[i..] == [] && es[..i] == es;
      ResumeEnds(ctx.Seen(), [], results);
      SameLeaderRecord(db, ctx.View());
      db := Commit(ctx);
      r := Ok(results);
    }
  }

  lemma StateOfUsers(db: RawMap)
    requires Valid(db)
    ensures StateOf(db).users == Users(db)
  {
  }

  lemma NoOps(db: RawMap)
    ensures ApplyOps(db, []) == db
  {
  }

  lemma SameLeaderRecord(a: RawMap, b: RawMap)
    requires Valid(a) && Valid(b) && SameSystem(a, b)
    ensures StateOf(a).leaderIndex == StateOf(b).leaderIndex
  {
    hide Users;
  }

  // ---------- one call, many calls ----------

  /** A log cut into calls. */
  ghost function NextCalls(s: State, calls: seq<seq<Entry>>): (r: Outcome<State>)
    decreases |calls|
  {
    if calls == [] then Ok(s)
    else match Next(s, calls[0]) case Fault => Fault case Ok(s') => NextCalls(s', calls[1..])
  }

  ghost predicate NonEmpty(calls: seq<seq<Entry>>)
  {
    forall i :: 0 <= i < |calls| ==> calls[i] != []
  }

  lemma {:induction false} RunConcat(m: UserMap, a: seq<Entry>, b: seq<Entry>)
    ensures Run(m, a + b) ==
            match Run(m, a)
            case Fault => Fault
            case Ok(p) => match Run(p.0, b) case Fault => Fault case Ok(q) => Ok((q.0, p.1 + q.1))
    decreases |a|
  {
    hide Step;
    if a == [] {
      assert a + b == b;
      var q := Run(m, b);
      if q.Ok? { assert [] + q.value.1 == q.value.1; }
    } else {
      assert (a + b)[1..] == a[1..] + b;
      var p := Step(m, a[0]);
      if p.Ok? {
        RunConcat(p.value.0, a[1..], b);
        var p', all := Run(p.value.0, a[1..]), Run(p.value.0, a[1..] + b);
        if all.Ok? {
          var q := Run(p'.value.0, b);
          assert [p.value.1] + (p'.value.1 + q.value.1) == [p.value.1] + p'.value.1 + q.value.1;
        }
      }
    }
  }

  /** However a log is cut into non-empty calls, the user map, the local index and failure are
      those of the plain sequential run. */
  lemma {:induction false} CallsAgree(s: State, calls: seq<seq<Entry>>)
    requires NonEmpty(calls)
    ensures NextCalls(s, calls).Ok? <==> Run(s.users, Flatten(calls)).Ok?
    ensures NextCalls(s, calls).Ok? ==>
              && NextCalls(s, calls).value.users == Run(s.users, Flatten(calls)).value.0
              && (calls != [] ==> NextCalls(s, calls).value.localIndex == LastIndex(Flatten(calls)))
    decreases |calls|
  {
    hide Run;
    if calls == [] {
      RunNothing(s.users);
    } else {
      RunConcat(s.users, calls[0], Flatten(calls[1..]));
      var p := Run(s.users, calls[0]);
      if p.Ok? {
        CallsAgree(Next(s, calls[0]).value, calls[1..]);
        if calls[1..] == [] {
          assert Flatten(calls) == calls[0];
        } else {
          FlattenLast(calls[1..]);
        }
      }
    }
  }

  lemma RunNothing(m: UserMap)
    ensures Run(m, []) == Ok((m, []))
  {
  }

  lemma {:induction false} FlattenLast(calls: seq<seq<Entry>>)
    requires calls != [] && NonEmpty(calls)
    ensures Flatten(calls) != []
  {
    assert calls[0] != [];
  }

  /** The results that the calls return, one after the other. */
  ghost function CallResults(m: UserMap, calls: seq<seq<Entry>>): (r: Outcome<seq<EntryResult>>)
    decreases |calls|
  {
    if calls == [] then Ok([])
    else
      match Run(m, calls[0])
      case Fault => Fault
      case Ok(p) =>
        match CallResults(p.0, calls[1..])
        case Fault => Fault
        case Ok(rest) => Ok(p.1 + rest)
  }

  /** The results reported for the entries do not depend on the cut either. */
  lemma {:induction false} ResultsAgree(m: UserMap, calls: seq<seq<Entry>>)
    ensures CallResults(m, calls) == match Run(m, Flatten(calls)) case Fault => Fault case Ok(p) => Ok(p.1)
    decreases |calls|
  {
    hide Run;
    if calls == [] {
      RunNothing(m);
    } else {
      RunConcat(m, calls[0], Flatten(calls[1..]));
      var p := Run(m, calls[0]);
      if p.Ok? { ResultsAgree(p.value.0, calls[1..]); }
    }
  }

  /** The leader index of the last call whose last entry carries one. */
  ghost function LastStored(calls: seq<seq<Entry>>): (r: Option<uint64>)
  {
    if calls == [] then None
    else if LastLeader(calls[|calls| - 1]).Some? then LastLeader(calls[|calls| - 1])
    else LastStored(calls[..|calls| - 1])
  }

  /** The leader index after a list of calls is that one, or stays as it was. */
  lemma {:induction false} StoredLeader(s: State, calls: seq<seq<Entry>>)
    requires NextCalls(s, calls).Ok?
    ensures NextCalls(s, calls).value.leaderIndex ==
            match LastStored(calls) case None => s.leaderIndex case Some(v) => v
    decreases |calls|
  {
    hide Run, LastLeader;
    if calls != [] {
      var front, last := calls[..|calls| - 1], calls[|calls| - 1];
      assert front + [last] == calls;
      OneMoreCall(s, front, last);
      StoredLeader(s, front);
    }
  }

  /** The leader index does depend on the cut: applying the entries of some calls in one call
      gives the same state exactly when the very last entry carries an index, or the index that
      the calls store last is the one stored before, or they store none. */
  lemma LeaderIndexExact(s: State, calls: seq<seq<Entry>>)
    requires calls != [] && NonEmpty(calls) && Run(s.users, Flatten(calls)).Ok?
    ensures NextCalls(s, calls).Ok? && Next(s, Flatten(calls)).Ok?
    ensures NextCalls(s, calls).value == Next(s, Flatten(calls)).value <==>
            || LastLeader(calls[|calls| - 1]).Some?
            || LastStored(calls) == None || LastStored(calls) == Some(s.leaderIndex)
  {
    hide Run, NextCalls, LastIndex, LastLeader;
    CallsAgree(s, calls);
    StoredLeader(s, calls);
    FlattenFront(calls);
    LastOfConcat(Flatten(calls[..|calls| - 1]), calls[|calls| - 1]);
  }

  lemma LastOfConcat(a: seq<Entry>, b: seq<Entry>)
    requires b != []
    ensures LastIndex(a + b) == LastIndex(b) && LastLeader(a + b) == LastLeader(b)
  {
    hide LeaderOf;
  }

  lemma TwoCalls(s: State, a: seq<Entry>, b: seq<Entry>)
    ensures NextCalls(s, [a, b]) == match Next(s, a) case Fault => Fault case Ok(s') => Next(s', b)
  {
    hide Next;
    assert [a, b][1..] == [b] && [b][1..] == [];
    var n := Next(s, a);
    if n.Ok? {
      var n' := Next(n.value, b);
      if n'.Ok? { assert NextCalls(n'.value, []) == n'; }
      assert NextCalls(n.value, [b]) == n';
    }
  }

  lemma {:induction false} OneMoreCall(s: State, calls: seq<seq<Entry>>, call: seq<Entry>)
    ensures NextCalls(s, calls + [call]) ==
            match NextCalls(s, calls) case Fault => Fault case Ok(s') => Next(s', call)
    ensures Flatten(calls + [call]) == Flatten(calls) + call
    decreases |calls|
  {
    hide Next;
    if calls == [] {
      assert calls + [call] == [call];
      OneCall(s, call);
    } else {
      assert (calls + [call])[1..] == calls[1..] + [call];
      var n := Next(s, calls[0]);
      OneMoreCall(if n.Ok? then n.value else s, calls[1..], call);
    }
  }

  lemma OneCall(s: State, es: seq<Entry>)
    ensures NextCalls(s, [es]) == Next(s, es) && Flatten([es]) == es
  {
    hide Next;
    assert [es][1..] == [];
    var n := Next(s, es);
    if n.Ok? { assert NextCalls(n.value, []) == n; }
    FlattenNothing<Entry>();
  }

  /** A log in which every entry carries a leader index, or none does. */
  ghost predicate Uniform(es: seq<Entry>)
  {
    (forall e :: e in es ==> LeaderOf(e).Some?) || (forall e :: e in es ==> LeaderOf(e) == None)
  }

  /** On such a log the whole state is independent of the cut. */
  lemma {:induction false} UniformCallsAgree(s: State, calls: seq<seq<Entry>>)
    requires calls != [] && NonEmpty(calls) && Uniform(Flatten(calls))
    ensures NextCalls(s, calls) == Next(s, Flatten(calls))
    decreases |calls|
  {
    hide Run, LeaderOf;
    var rest := Flatten(calls[1..]);
    RunConcat(s.users, calls[0], rest);
    if calls[1..] == [] {
      assert Flatten(calls) == calls[0];
      assert NextCalls(s, calls) == Next(s, calls[0]);
    } else {
      FlattenLast(calls[1..]);
      var n := Next(s, calls[0]);
      if n.Ok? {
        assert forall e :: e in rest ==> e in Flatten(calls);
        UniformCallsAgree(n.value, calls[1..]);
        var first := calls[0][|calls[0]| - 1];
        assert first in Flatten(calls) && rest[|rest| - 1] in Flatten(calls);
      }
    }
  }

  /** Entries that decode to the given commands. */
  ghost predicate Carries(es: seq<Entry>, cs: seq<Command>)
  {
    |es| == |cs| && forall i :: 0 <= i < |es| ==> DecodeCommand(es[i].cmd) == Some(cs[i])
  }

  /** Running such entries is applying the commands as a sequence. */
  lemma {:induction false} RunIsSequence(m: UserMap, es: seq<Entry>, cs: seq<Command>)
    requires Carries(es, cs)
    ensures Run(m, es).Ok? <==> ApplySequence(m, cs).Ok?
    ensures Run(m, es).Ok? ==> Run(m, es).value.0 == ApplySequence(m, cs).value.m
    decreases |es|
  {
    hide Apply, DecodeCommand;
    if es != [] {
      var f := Apply(m, cs[0]);
      if f.Ok? { RunIsSequence(f.value.m, es[1..], cs[1..]); }
    }
  }

  /** A leader index on the last entry is the one that stays, however the log is cut. */
  lemma {:induction false} LastLeaderStays(s: State, calls: seq<seq<Entry>>)
    requires calls != [] && NonEmpty(calls) && NextCalls(s, calls).Ok? && LastLeader(Flatten(calls)).Some?
    ensures NextCalls(s, calls).value.leaderIndex == LastLeader(Flatten(calls)).value
    decreases |calls|
  {
    hide Run, LeaderOf;
    if calls[1..] == [] {
      assert Flatten(calls) == calls[0];
      assert NextCalls(s, calls) == Next(s, calls[0]);
    } else {
      FlattenLast(calls[1..]);
      LastOfConcat(calls[0], Flatten(calls[1..]));
      LastLeaderStays(Next(s, calls[0]).value, calls[1..]);
    }
  }

  /** A dummy with leader index 7, then a dummy without one. */
  lemma LeaderIndexCanVanish()
    ensures exists s: State, a: Entry, b: Entry ::
              NextCalls(s, [[a], [b]]).Ok? && NextCalls(s, [[a], [b]]).value.leaderIndex == 7 &&
              Next(s, [a, b]).Ok? && Next(s, [a, b]).value.leaderIndex == 0
  {
    hide DecodeCommand, EncodeCommand, SizeCommand, Apply;
    var tagged, plain := EMPTY_COMMAND.(kind := DUMMY, leaderIndex := Some(7)), EMPTY_COMMAND.(kind := DUMMY);
    DummyRoundTrip(Some(7));
    DummyRoundTrip(None);
    var a, b := Entry(1, EncodeCommand(tagged)), Entry(2, EncodeCommand(plain));
    var s := State(map[], 0, 0);
    TwoCalls(s, [a], [b]);
    assert [a, b] == [a] + [b];
    RunConcat(s.users, [a], [b]);
    DummyStep(s.users, a);
    DummyStep(s.users, b);
    OneEntry(s.users, a);
    OneEntry(s.users, b);
    LastOfConcat([a], [b]);
  }

  lemma DummyRoundTrip(leader: Option<uint64>)
    requires leader == None || leader == Some(7)
    ensures var c := EMPTY_COMMAND.(kind := DUMMY, leaderIndex := leader);
            DecodeCommand(EncodeCommand(c)) == Some(c)
  {
    hide DecodeCommand, EncodeCommand;
    var c := EMPTY_COMMAND.(kind := DUMMY, leaderIndex := leader);
    CommandRoundTrip(c);
  }

  lemma OneEntry(m: UserMap, e: Entry)
    requires Step(m, e).Ok?
    ensures Run(m, [e]) == Ok((Step(m, e).value.0, [Step(m, e).value.1]))
  {
    hide Step;
    assert [e][1..] == [];
    RunNothing(Step(m, e).value.0);
    assert [Step(m, e).value.1] + [] == [Step(m, e).value.1];
  }

  lemma DummyStep(m: UserMap, e: Entry)
    requires DecodeCommand(e.cmd).Some? && DecodeCommand(e.cmd).value.kind == DUMMY
    ensures Step(m, e).Ok? && Step(m, e).value.0 == m
  {
    hide DecodeCommand;
  }
}
