/** What a segment of the leader's log does to a follower that proposes it in chunks, and what
    the log comes to on the leader itself: the fold of its commands over an empty table. */
module Pipeline {
  import opened ByteStrings
  import opened Messages
  import opened Table
  import opened CommandCodec
  import opened Lists
  import opened RaftLog
  import opened Replicate
  import opened Worker
  import Replay
  import Update
  import Wire

  /** An entry of a leader's log holds an encoded command or is one of Raft's own. */
  ghost predicate Written(e: LogEntry)
  {
    e.index < 0xFFFF_FFFF_FFFF_FFFF &&
    (e.application ==> exists c: Command :: SizeCommand(c) < Wire.TWO_63 && e.cmd == EncodeCommand(c))
  }

  lemma WrittenDecodes(e: LogEntry)
    requires Written(e)
    ensures ToCommand(e).Some? && Canonical(ToCommand(e).value)
  {
    hide EncodeCommand, DecodeCommand, SizeCommand, NormalCommand;
    if e.application {
      var c: Command :| SizeCommand(c) < Wire.TWO_63 && e.cmd == EncodeCommand(c);
      CommandRoundTrip(c);
      NormalIsCanonical(c);
    }
  }

  ghost predicate AllWritten(es: seq<LogEntry>)
  {
    forall i :: 0 <= i < |es| ==> Written(es[i])
  }

  lemma AllWrittenDecodable(es: seq<LogEntry>)
    requires AllWritten(es)
    ensures Decodable(es)
  {
    hide ToCommand;
    forall i | 0 <= i < |es| ensures ToCommand(es[i]).Some? { WrittenDecodes(es[i]); }
  }

  /** The commands a follower receives for a segment of the log. */
  ghost function List(es: seq<LogEntry>): (cs: seq<Command>)
    requires AllWritten(es)
    ensures |cs| == |es|
  {
    AllWrittenDecodable(es);
    CommandList(Commands(es))
  }

  lemma ListConcat(a: seq<LogEntry>, b: seq<LogEntry>)
    requires AllWritten(a) && AllWritten(b)
    ensures AllWritten(a + b) && List(a + b) == List(a) + List(b)
  {
    hide Written, ToCommand;
    AllWrittenDecodable(a);
    AllWrittenDecodable(b);
    CommandsConcat(a, b);
  }

  /** The table after the first `n` entries of a log. */
  ghost function Fold(log: seq<LogEntry>, n: nat): (r: Outcome<Effect>)
    requires AllWritten(log) && n <= |log|
  {
    ApplySequence(map[], List(log[..n]))
  }

  lemma FoldMore(log: seq<LogEntry>, n: nat, k: nat)
    requires AllWritten(log) && n <= k <= |log|
    ensures Fold(log, k).Ok? <==> Fold(log, n).Ok? && ApplySequence(Fold(log, n).value.m, List(log[n..k])).Ok?
    ensures Fold(log, k).Ok? ==> Fold(log, k).value.m == ApplySequence(Fold(log, n).value.m, List(log[n..k])).value.m
  {
    hide ApplySequence, List, Written;
    assert log[..k] == log[..n] + log[n..k];
    ListConcat(log[..n], log[n..k]);
    Replay.SequenceConcat(map[], List(log[..n]), List(log[n..k]));
  }

  // ---------- proposals of the follower's worker ----------

  ghost predicate NoneEmpty(chunks: seq<seq<ReplicateCommand>>)
  {
    forall i :: 0 <= i < |chunks| ==> chunks[i] != []
  }

  ghost function Proposals(chunks: seq<seq<ReplicateCommand>>): (ps: seq<Command>)
    requires NoneEmpty(chunks)
    ensures |ps| == |chunks| && forall i :: 0 <= i < |chunks| ==> ps[i] == Proposal(chunks[i])
  {
    seq(|chunks|, i requires 0 <= i < |chunks| => Proposal(chunks[i]))
  }

  lemma ApplyProposal(m: UserMap, chunk: seq<ReplicateCommand>)
    requires chunk != []
    ensures ApplySequence(m, [Proposal(chunk)]).Ok? <==> ApplySequence(m, CommandList(chunk)).Ok?
    ensures ApplySequence(m, [Proposal(chunk)]).Ok? ==>
              ApplySequence(m, [Proposal(chunk)]).value.m == ApplySequence(m, CommandList(chunk)).value.m
  {
    var p := Proposal(chunk);
    ApplySequenceCommand(m, p);
    hide Apply, ApplySequence;
    assert [p] + [] == [p];
    Replay.FirstCommand(m, p, []);
    var e := Apply(m, p);
    if e.Ok? { Replay.FirstCommand(e.value.m, p, []); }
  }

  lemma ApplySequenceCommand(m: UserMap, c: Command)
    requires c.kind == SEQUENCE
    ensures Apply(m, c) == ApplySequence(m, c.sequence)
  {
  }

  /** The cut into chunks makes no difference. */
  lemma {:induction false} ChunksApply(m: UserMap, chunks: seq<seq<ReplicateCommand>>)
    requires NoneEmpty(chunks)
    ensures var one, all := ApplySequence(m, Proposals(chunks)), ApplySequence(m, CommandList(Flatten(chunks)));
            (one.Ok? <==> all.Ok?) && (one.Ok? ==> one.value.m == all.value.m)
    decreases |chunks|
  {
    hide ApplySequence, Proposal;
    if chunks == [] {
      assert Proposals(chunks) == [] && CommandList(Flatten(chunks)) == [];
    } else {
      var front, last := chunks[..|chunks| - 1], chunks[|chunks| - 1];
      ChunksApply(m, front);
      assert Proposals(chunks) == Proposals(front) + [Proposal(last)];
      FlattenFront(chunks);
      assert CommandList(Flatten(chunks)) == CommandList(Flatten(front)) + CommandList(last);
      Replay.SequenceConcat(m, Proposals(front), [Proposal(last)]);
      Replay.SequenceConcat(m, CommandList(Flatten(front)), CommandList(last));
      var e := ApplySequence(m, Proposals(front));
      if e.Ok? { ApplyProposal(e.value.m, last); }
    }
  }

  /** Entries of the follower's log that hold the proposals for the chunks. */
  ghost predicate Hold(es: seq<Update.Entry>, chunks: seq<seq<ReplicateCommand>>)
  {
    |es| == |chunks| && NoneEmpty(chunks) &&
    forall i :: 0 <= i < |es| ==>
      es[i].cmd == EncodeCommand(Proposal(chunks[i])) && SizeCommand(Proposal(chunks[i])) < Wire.TWO_63
  }

  ghost predicate CanonicalChunk(chunk: seq<ReplicateCommand>)
  {
    forall i :: 0 <= i < |chunk| ==> Canonical(chunk[i].command)
  }

  lemma ProposalRoundTrip(chunk: seq<ReplicateCommand>)
    requires chunk != [] && CanonicalChunk(chunk) && SizeCommand(Proposal(chunk)) < Wire.TWO_63
    ensures DecodeCommand(EncodeCommand(Proposal(chunk))) == Some(Proposal(chunk))
  {
    hide EncodeCommand, DecodeCommand, SizeCommand;
    RoundTripExact(Proposal(chunk));
  }

  lemma {:induction false} InChunk(chunks: seq<seq<ReplicateCommand>>, i: nat)
    requires i < |chunks| && CanonicalChunk(Flatten(chunks))
    ensures CanonicalChunk(chunks[i])
    decreases |chunks|
  {
    hide Canonical;
    var front, last := chunks[..|chunks| - 1], chunks[|chunks| - 1];
    var all := Flatten(chunks);
    FlattenFront(chunks);
    if i < |front| {
      assert forall j :: 0 <= j < |Flatten(front)| ==> all[j] == Flatten(front)[j];
      InChunk(front, i);
    } else {
      assert forall j :: 0 <= j < |last| ==> all[|Flatten(front)| + j] == last[j];
    }
  }

  lemma HoldCarries(es: seq<Update.Entry>, chunks: seq<seq<ReplicateCommand>>)
    requires Hold(es, chunks) && CanonicalChunk(Flatten(chunks))
    ensures Update.Carries(es, Proposals(chunks))
  {
    hide EncodeCommand, DecodeCommand, SizeCommand, Proposal, CanonicalChunk;
    forall i | 0 <= i < |es| ensures DecodeCommand(es[i].cmd) == Some(Proposals(chunks)[i]) {
      InChunk(chunks, i);
      ProposalRoundTrip(chunks[i]);
    }
  }

  lemma CommandsCanonical(es: seq<LogEntry>)
    requires AllWritten(es)
    ensures Decodable(es) && CanonicalChunk(Commands(es))
  {
    hide Canonical, ToCommand, Written;
    AllWrittenDecodable(es);
    forall i | 0 <= i < |es| ensures Canonical(Commands(es)[i].command) { WrittenDecodes(es[i]); }
  }

  /** Proposing a segment in any chunks applies exactly the commands of the segment and stores
      the index of its last entry. */
  lemma PollEffect(f: Update.State, es: seq<Update.Entry>, calls: seq<seq<Update.Entry>>,
                   chunks: seq<seq<ReplicateCommand>>, segment: seq<LogEntry>)
    requires AllWritten(segment) && Hold(es, chunks) && Update.NonEmpty(calls) && Flatten(calls) == es
    requires Decodable(segment) && Flatten(chunks) == Commands(segment)
    requires ApplySequence(f.users, List(segment)).Ok?
    ensures Update.NextCalls(f, calls).Ok?
    ensures var f' := Update.NextCalls(f, calls).value;
            && f'.users == ApplySequence(f.users, List(segment)).value.m
            && f'.leaderIndex == if segment == [] then f.leaderIndex else segment[|segment| - 1].index
  {
    hide ApplySequence, Update.NextCalls, Update.Run, Written, EncodeCommand, SizeCommand, Decodable, Commands,
      Flatten, Update.Carries, Update.LastLeader;
    CommandsCanonical(segment);
    HoldCarries(es, chunks);
    ChunksApply(f.users, chunks);
    Update.RunIsSequence(f.users, es, Proposals(chunks));
    Update.CallsAgree(f, calls);
    if segment == [] {
      NoChunks(chunks);
      NoCalls(calls);
    } else {
      LastProposal(es, chunks, segment);
      FlattenNothing<Update.Entry>();
      Update.LastLeaderStays(f, calls);
    }
  }

  lemma LastProposal(es: seq<Update.Entry>, chunks: seq<seq<ReplicateCommand>>, segment: seq<LogEntry>)
    requires Hold(es, chunks) && Update.Carries(es, Proposals(chunks))
    requires segment != [] && Decodable(segment) && Flatten(chunks) == Commands(segment)
    ensures es != [] && Update.LastLeader(es) == Some(segment[|segment| - 1].index)
  {
    hide ToCommand, EncodeCommand, DecodeCommand, SizeCommand;
    assert chunks != [];
    LastChunk(chunks);
  }

  lemma NoChunks(chunks: seq<seq<ReplicateCommand>>)
    requires NoneEmpty(chunks) && Flatten(chunks) == []
    ensures chunks == []
  {
    if chunks != [] { LastChunk(chunks); }
  }

  lemma NoCalls(calls: seq<seq<Update.Entry>>)
    requires Update.NonEmpty(calls) && Flatten(calls) == []
    ensures calls == [] && forall f :: Update.NextCalls(f, calls) == Ok(f)
  {
    if calls != [] { Update.FlattenLast(calls); }
  }

  lemma LastChunk(chunks: seq<seq<ReplicateCommand>>)
    requires NoneEmpty(chunks) && chunks != []
    ensures Flatten(chunks) != []
    ensures var all, last := Flatten(chunks), chunks[|chunks| - 1]; last[|last| - 1] == all[|all| - 1]
  {
    FlattenFront(chunks);
    assert chunks[|chunks| - 1] != [];
  }

  // ---------- the leader's own table ----------

  /** The entries the leader's state machine sees: Raft's own never reach it. */
  ghost function AppEntries(log: seq<LogEntry>): (es: seq<Update.Entry>)
    requires AllWritten(log)
  {
    if log == [] then []
    else
      var front, e := AppEntries(log[..|log| - 1]), log[|log| - 1];
      if e.application then front + [Update.Entry(e.index, e.cmd)] else front
  }

  /** The index of the last application entry. */
  function LastApplication(log: seq<LogEntry>): (n: nat)
    ensures n <= |log|
  {
    if log == [] then 0 else if log[|log| - 1].application then |log| else LastApplication(log[..|log| - 1])
  }

  lemma OneMoreEntry(m: UserMap, e: LogEntry)
    requires Written(e)
    ensures !e.application ==> ApplySequence(m, List([e])) == Ok(Effect(m, true, []))
    ensures e.application ==>
              var r := Update.Run(m, [Update.Entry(e.index, e.cmd)]);
              && (ApplySequence(m, List([e])).Ok? <==> r.Ok?)
              && (r.Ok? ==> ApplySequence(m, List([e])).value.m == r.value.0)
  {
    hide Apply, DecodeCommand, EncodeCommand, SizeCommand;
    AllWrittenDecodable([e]);
    WrittenDecodes(e);
    var c := ToCommand(e).value;
    assert List([e]) == [c] && [c] + [] == [c];
    Replay.FirstCommand(m, c, []);
    if e.application {
      var d := DecodeCommand(e.cmd).value;
      SameButTag(m, d, c);
      assert [d] + [] == [d];
      Replay.FirstCommand(m, d, []);
      Update.RunIsSequence(m, [Update.Entry(e.index, e.cmd)], [d]);
      var r := Apply(m, c);
      if r.Ok? { Replay.FirstCommand(r.value.m, c, []); }
    } else {
      DummyDoesNothing(m, c);
    }
  }

  lemma SameButTag(m: UserMap, a: Command, b: Command)
    requires b == a.(leaderIndex := b.leaderIndex)
    ensures Apply(m, a) == Apply(m, b)
  {
  }

  lemma DummyDoesNothing(m: UserMap, c: Command)
    requires c.kind == DUMMY
    ensures Apply(m, c) == Ok(Effect(m, true, [])) && ApplySequence(m, [c]) == Ok(Effect(m, true, []))
  {
    Replay.FirstCommand(m, c, []);
    assert [c] + [] == [c] && [c][1..] == [];
    var none: seq<ResponseOp> := [];
    assert none + none == [];
  }

  /** The leader's own state machine holds the fold of its log, and its local index is that of
      the last application entry, where the fold already has the same value. */
  lemma {:induction false} LeaderIsFold(log: seq<LogEntry>)
    requires AllWritten(log) && Numbered(log)
    ensures var r := Update.Run(map[], AppEntries(log));
            (Fold(log, |log|).Ok? <==> r.Ok?) && (r.Ok? ==> Fold(log, |log|).value.m == r.value.0)
    ensures Update.LastIndex(AppEntries(log)) == LastApplication(log)
    ensures Fold(log, |log|).Ok? ==>
              Fold(log, LastApplication(log)).Ok? && Fold(log, LastApplication(log)).value.m == Fold(log, |log|).value.m
    decreases |log|
  {
    hide List, ApplySequence, Update.Run, EncodeCommand, SizeCommand;
    assert log[..|log|] == log;
    if log == [] {
      NothingRuns();
    } else {
      var n := |log| - 1;
      var front, e := log[..n], log[n];
      LeaderIsFold(front);
      FoldMore(log, n, |log|);
      SameFold(log, n, n);
      SameFold(log, n, LastApplication(front));
      assert log[n..] == [e] && log[n..|log|] == log[n..];
      var f := Fold(log, n);
      if f.Ok? { OneMoreEntry(f.value.m, e); }
      Update.RunConcat(map[], AppEntries(front), [Update.Entry(e.index, e.cmd)]);
    }
  }

  lemma NothingRuns()
    ensures Update.Run(map[], []) == Ok((map[], [])) && ApplySequence(map[], List([])) == Ok(Effect(map[], true, []))
  {
    assert List([]) == [];
  }

  lemma SameFold(log: seq<LogEntry>, n: nat, k: nat)
    requires AllWritten(log) && k <= n <= |log|
    ensures Fold(log, k) == Fold(log[..n], k)
  {
    assert log[..n][..k] == log[..k];
  }
}
