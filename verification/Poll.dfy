/** One poll of the follower's worker, put together from the leader's log server, the worker's
    proposals and the follower's state machine. It is one step of the replication pipeline. */
module Poll {
  import opened ByteStrings
  import opened CommandCodec
  import opened Lists
  import opened RaftLog
  import opened LogCache
  import opened LogReader
  import opened Replicate
  import opened Worker
  import opened Pipeline
  import opened Replication
  import Keys
  import Marshal
  import Store
  import Update
  import Wire

  /** The poll of `s` has got as far as these proposals, and the follower is in state `f`. */
  ghost predicate Reached(s: System, f: Update.State, chunks: seq<seq<ReplicateCommand>>, calls: seq<seq<Update.Entry>>,
                          all: seq<ReplicateCommand>)
  {
    && Update.NonEmpty(calls) && Hold(Flatten(calls), chunks)
    && Flatten(chunks) <= all
    && Update.NextCalls(s.follower, calls) == Ok(f)
  }

  /** `all` is what the leader has streamed for the segment behind the follower's index. */
  ghost predicate Segment(s: System, all: seq<ReplicateCommand>)
  {
    var from := s.follower.leaderIndex;
    && from + |all| <= s.applied <= |s.log|
    && Decodable(s.log[from..from + |all|]) && all == Commands(s.log[from..from + |all|])
  }

  lemma SegmentPrefix(s: System, all: seq<ReplicateCommand>, part: seq<ReplicateCommand>)
    requires Segment(s, all) && part <= all
    ensures Segment(s, part)
  {
    hide ToCommand;
    var from := s.follower.leaderIndex;
    assert s.log[from..from + |all|][..|part|] == s.log[from..from + |part|];
    assert forall i :: 0 <= i < |part| ==> part[i] == all[i];
  }

  lemma ReachedCanPoll(s: System, f: Update.State, chunks: seq<seq<ReplicateCommand>>, calls: seq<seq<Update.Entry>>,
                       all: seq<ReplicateCommand>)
    requires Segment(s, all) && Reached(s, f, chunks, calls, all)
    ensures CanPoll(s, chunks, calls, |Flatten(chunks)|)
  {
    hide Decodable, Commands, Hold, Update.NonEmpty, Flatten;
    SegmentPrefix(s, all, Flatten(chunks));
  }

  lemma HoldMore(es: seq<Update.Entry>, chunks: seq<seq<ReplicateCommand>>, e: Update.Entry,
                 chunk: seq<ReplicateCommand>)
    requires Hold(es, chunks) && chunk != []
    requires e.cmd == EncodeCommand(Proposal(chunk)) && SizeCommand(Proposal(chunk)) < Wire.TWO_63
    ensures Hold(es + [e], chunks + [chunk])
  {
    hide EncodeCommand, SizeCommand, Proposal;
  }

  lemma NextProposal(cfg: Config, s: System, f: Update.State, chunks: seq<seq<ReplicateCommand>>,
                     calls: seq<seq<Update.Entry>>, all: seq<ReplicateCommand>, e: Update.Entry,
                     chunk: seq<ReplicateCommand>)
    requires Inv(cfg, s) && Segment(s, all) && Reached(s, f, chunks, calls, all)
    requires chunk != [] && Flatten(chunks) + chunk <= all
    requires e.cmd == EncodeCommand(Proposal(chunk)) && SizeCommand(Proposal(chunk)) < Wire.TWO_63
    ensures Update.Next(f, [e]).Ok? && Reached(s, Update.Next(f, [e]).value, chunks + [chunk], calls + [[e]], all)
  {
    hide Inv, Hold, Segment, EncodeCommand, SizeCommand, Proposal, Update.Next, Update.NextCalls, Flatten;
    HoldMore(Flatten(calls), chunks, e, chunk);
    Update.OneMoreCall(s.follower, calls, [e]);
    FlattenMore(chunks, chunk);
    SegmentPrefix(s, all, Flatten(chunks) + chunk);
    MoreCanPoll(s, chunks + [chunk], calls + [[e]]);
    PollKeeps(cfg, s, chunks + [chunk], calls + [[e]], |Flatten(chunks) + chunk|);
  }

  lemma MoreCanPoll(s: System, chunks: seq<seq<ReplicateCommand>>, calls: seq<seq<Update.Entry>>)
    requires Segment(s, Flatten(chunks)) && Update.NonEmpty(calls) && Hold(Flatten(calls), chunks)
    ensures CanPoll(s, chunks, calls, |Flatten(chunks)|)
  {
    hide Decodable, Commands, Hold, Update.NonEmpty, Flatten;
  }

  /** One proposal goes through, at some index of the follower's own log. */
  method Propose(follower: Update.Machine, chunk: seq<ReplicateCommand>, ghost cfg: Config, ghost s: System,
                 ghost chunks: seq<seq<ReplicateCommand>>, ghost calls: seq<seq<Update.Entry>>,
                 ghost all: seq<ReplicateCommand>)
    returns (ghost calls': seq<seq<Update.Entry>>)
    requires Store.Valid(follower.db) && Inv(cfg, s) && Segment(s, all)
    requires Reached(s, Update.StateOf(follower.db), chunks, calls, all)
    requires chunk != [] && Flatten(chunks) + chunk <= all && SizeCommand(Proposal(chunk)) < Wire.TWO_63
    modifies follower
    ensures Store.Valid(follower.db) && Reached(s, Update.StateOf(follower.db), chunks + [chunk], calls', all)
  {
    hide Inv, Reached, Segment, EncodeCommand, SizeCommand, Proposal, Update.StateOf, Store.Valid, Update.Run;
    var buff := Marshal.MarshalVT(Proposal(chunk));
    var index: uint64 := *;
    var e := Update.Entry(index, buff);
    NextProposal(cfg, s, Update.StateOf(follower.db), chunks, calls, all, e, chunk);
    Update.StateOfUsers(follower.db);
    var _ := follower.Update([e]);
    calls' := calls + [[e]];
  }

  /** No proposal for consecutive commands among these is too large. */
  ghost predicate AllFit(all: seq<ReplicateCommand>)
  {
    forall i, j :: 0 <= i < j <= |all| ==> SizeCommand(Proposal(all[i..j])) < Wire.TWO_63
  }

  lemma PartFits(all: seq<ReplicateCommand>, before: seq<ReplicateCommand>, part: seq<ReplicateCommand>)
    requires AllFit(all) && part != [] && before + part <= all
    ensures SizeCommand(Proposal(part)) < Wire.TWO_63
  {
    hide SizeCommand, Proposal;
    assert part == all[|before|..|before| + |part|];
  }

  lemma PrefixFits(all: seq<ReplicateCommand>, part: seq<ReplicateCommand>)
    requires AllFit(all) && part <= all
    ensures AllFit(part)
  {
    hide SizeCommand, Proposal;
    assert forall i, j :: 0 <= i < j <= |part| ==> part[i..j] == all[i..j];
  }

  /** One message of the stream. With `faults` a proposal may fail; it may still go through, but
      nothing behind it is proposed. */
  method ProposeMessage(follower: Update.Machine, message: seq<ReplicateCommand>, faults: bool, ghost cfg: Config,
                        ghost s: System, ghost chunks: seq<seq<ReplicateCommand>>, ghost calls: seq<seq<Update.Entry>>,
                        ghost all: seq<ReplicateCommand>)
    returns (ok: bool, last: uint64, ghost chunks': seq<seq<ReplicateCommand>>, ghost calls': seq<seq<Update.Entry>>)
    requires Store.Valid(follower.db) && Inv(cfg, s) && Segment(s, all)
    requires Reached(s, Update.StateOf(follower.db), chunks, calls, all)
    requires message != [] && Flatten(chunks) + message <= all
    modifies follower
    ensures Store.Valid(follower.db) && Reached(s, Update.StateOf(follower.db), chunks', calls', all)
    ensures ok ==> Flatten(chunks') == Flatten(chunks) + message && last == message[|message| - 1].leaderIndex
    ensures ok || faults || !AllFit(all)
  {
    hide Inv, Reached, Segment, SizeCommand, Proposal, Update.StateOf, Store.Valid, CutRight, Flatten, AllFit;
    var cs, failed, lastApplied := ProposeBatch(message, faults);
    chunks', calls' := chunks, calls;
    FlattenNothing<ReplicateCommand>();
    assert cs[..0] == [] && Flatten(chunks) + [] == Flatten(chunks);
    for k := 0 to |cs|
      invariant Store.Valid(follower.db) && Reached(s, Update.StateOf(follower.db), chunks', calls', all)
      invariant Flatten(chunks') == Flatten(chunks) + Flatten(cs[..k])
    {
      FlattenPrefix(cs, k + 1);
      assert cs[..k + 1] == cs[..k] + [cs[k]];
      FlattenMore(cs[..k], cs[k]);
      FlattenMore(chunks', cs[k]);
      assert Flatten(chunks') + cs[k] <= Flatten(chunks) + message;
      calls' := Propose(follower, cs[k], cfg, s, chunks', calls', all);
      chunks' := chunks' + [cs[k]];
      assert Flatten(chunks') == Flatten(chunks) + Flatten(cs[..k + 1]);
    }
    assert cs[..|cs|] == cs;
    if failed != [] {
      assert Flatten(chunks) + Flatten(cs) + failed <= Flatten(chunks) + message;
      if AllFit(all) { PartFits(all, Flatten(chunks) + Flatten(cs), failed); }
      var settled: bool := *;
      if settled && SizeCommand(Proposal(failed)) < Wire.TWO_63 {
        assert Flatten(chunks') + failed <= Flatten(chunks) + message;
        calls' := Propose(follower, failed, cfg, s, chunks', calls', all);
        chunks' := chunks' + [failed];
      }
      return false, 0, chunks', calls';
    }
    LastOfFlatten(cs);
    return true, lastApplied, chunks', calls';
  }

  lemma LastOfFlatten(cs: seq<seq<ReplicateCommand>>)
    requires Flatten(cs) != [] && forall i :: 0 <= i < |cs| ==> cs[i] != []
    ensures LastLeader(cs) == Flatten(cs)[|Flatten(cs)| - 1].leaderIndex
  {
    FlattenFront(cs);
  }

  datatype Result = Behind | UseRecovery | Lagging | Tailing | Unknown

  lemma StreamIsSegment(cfg: Config, s: System, sent: seq<seq<ReplicateCommand>>, n: nat)
    requires Inv(cfg, s)
    requires sent != [] ==>
               Streamed(sent, s.log, s.follower.leaderIndex + 1, n) && s.follower.leaderIndex + n <= s.applied
    ensures Segment(s, Flatten(sent)) && forall i :: 0 <= i < |sent| ==> sent[i] != []
    ensures sent != [] ==> |Flatten(sent)| == n
  {
    hide Decodable, Commands, CatchesUp, LogOk, Fold;
    if sent == [] { NothingStreamed(s); }
  }

  lemma NothingStreamed(s: System)
    requires s.follower.leaderIndex <= s.applied <= |s.log|
    ensures Segment(s, [])
  {
    var from := s.follower.leaderIndex;
    assert s.log[from..from + 0] == [];
  }

  lemma LogFits(cfg: Config, s: System)
    requires Inv(cfg, s)
    ensures Numbered(s.log) && s.applied <= |s.log| < 0xFFFF_FFFF_FFFF_FFFF
    ensures s.follower.leaderIndex <= s.applied
  {
    hide CatchesUp, Fold, List, EncodeCommand, SizeCommand;
    if s.log != [] { assert Written(s.log[|s.log| - 1]); }
  }

  lemma NothingReached(s: System, all: seq<ReplicateCommand>)
    ensures Reached(s, s.follower, [], [], all)
  {
  }

  /** The receiving loop of `worker.do`. */
  method ProposeAll(follower: Update.Machine, sent: seq<seq<ReplicateCommand>>, faults: bool,
                    ghost cfg: Config, ghost s: System)
    returns (ok: bool, reached: uint64, ghost chunks: seq<seq<ReplicateCommand>>, ghost calls: seq<seq<Update.Entry>>)
    requires Store.Valid(follower.db) && Inv(cfg, s) && Segment(s, Flatten(sent))
    requires s.follower == Update.StateOf(follower.db) && forall j :: 0 <= j < |sent| ==> sent[j] != []
    modifies follower
    ensures Store.Valid(follower.db) && Reached(s, Update.StateOf(follower.db), chunks, calls, Flatten(sent))
    ensures ok ==> Flatten(chunks) == Flatten(sent) && reached == LastLeader(sent)
    ensures ok || (sent != [] && (faults || !AllFit(Flatten(sent))))
  {
    hide Inv, Reached, Segment, Store.Valid, Flatten, Update.StateOf, AllFit;
    ghost var all := Flatten(sent);
    chunks, calls, reached := [], [], 0;
    NothingReached(s, all);
    FlattenNothing<ReplicateCommand>();
    assert sent[..0] == [];
    for j := 0 to |sent|
      invariant Store.Valid(follower.db) && Reached(s, Update.StateOf(follower.db), chunks, calls, all)
      invariant Flatten(chunks) == Flatten(sent[..j]) && reached == LastLeader(sent[..j])
    {
      FlattenPrefix(sent, j + 1);
      assert sent[..j + 1] == sent[..j] + [sent[j]];
      FlattenMore(sent[..j], sent[j]);
      ok, reached, chunks, calls := ProposeMessage(follower, sent[j], faults, cfg, s, chunks, calls, all);
      if !ok { return; }
    }
    assert sent[..|sent|] == sent;
    ok := true;
  }

  /** `worker.do`: the index is read from the follower's table, the stream is requested from
      there, and its messages are proposed as they come. `applied` is the index the leader
      answers up to, `latest` the one it reports at the end. The leader's log is compacted up to
      `lower` when the poll starts and up to `upper` at most when it ends; `shared` tells whether
      other streams use the log cache, `faults` whether anything may fail. The poll is a step of
      the pipeline. A poll that ends well has reached the applied index unless the cache starved
      it, which takes large entries or another stream ahead of this one. Recovery is asked for only
      when the follower's next entry may be compacted, and without a cache always when it is. */
  method Do(c: Cache?, log: seq<LogEntry>, applied: nat, follower: Update.Machine, maxSize: nat,
            lower: nat, upper: nat, shared: bool, faults: bool, ghost cfg: Config, ghost s: System)
    returns (result: Result, latest: nat, ghost chunks: seq<seq<ReplicateCommand>>, ghost calls: seq<seq<Update.Entry>>,
             ghost buffer: seq<LogEntry>)
    requires Store.Valid(follower.db) && Inv(cfg, s) && (c != null ==> c.Holds(log))
    requires s.log == log && applied <= s.applied && s.follower == Update.StateOf(follower.db)
    requires lower == Max(1, s.first) && lower <= upper
    modifies follower, if c == null then {} else {c}
    ensures Store.Valid(follower.db)
    ensures CanPoll(s, chunks, calls, |Flatten(chunks)|)
    ensures Update.NextCalls(s.follower, calls) == Ok(Update.StateOf(follower.db))
    ensures result == Behind <==> applied < s.follower.leaderIndex
    ensures if c == null then buffer == [] else Run(buffer, log) && |buffer| <= c.size && c.Holds(log)
    ensures var i, i' := s.follower.leaderIndex, Update.StateOf(follower.db).leaderIndex;
            && (result == Tailing || result == Lagging ==>
                  i' == applied || Starved(buffer, log, LogRange(i' + 1, applied + 1), maxSize))
            && (result == Tailing || result == Lagging ==> AllBelow(log, maxSize) ==>
                  applied == |log| || (!shared && (c != null ==> old(c.Largest()) <= applied)) ==> i' == applied)
            && (result == UseRecovery ==> i' + 1 < upper)
            && (c == null && i + 1 < lower && i < applied ==> i' == i && (result == UseRecovery || result == Unknown))
            && applied <= latest && (result == Lagging ==> i < i' < latest)
            && (result == Tailing ==> latest <= i' || i' == i)
            && (result == Unknown && Decodable(log[i..applied]) && AllFit(Commands(log[i..applied])) ==> faults)
  {
    hide Inv, Reached, Segment, Store.Valid, Streamed, Numbered, Flatten, CanPoll, Update.NextCalls, Update.StateOf,
      LastLeader, Starved, AllFit, Decodable, Commands, Run, AllBelow;
    LogFits(cfg, s);
    var from := ReadLeaderIndex(follower);
    var sent, ending;
    ghost var n;
    sent, ending, n, buffer := Replicate.Replicate(c, log, applied, from + 1, maxSize, lower, upper, shared, faults);
    StreamIsSegment(cfg, s, sent, n);
    latest :| latest >= applied;
    var ok, reached;
    ok, reached, chunks, calls := ProposeAll(follower, sent, faults, cfg, s);
    Finish(cfg, s, Update.StateOf(follower.db), chunks, calls, Flatten(sent));
    if from <= applied {
      StreamFits(sent, log, from, n, applied);
      NothingSent(sent, log, from + 1, n);
    }
    if !ok { return Unknown, latest, chunks, calls, buffer; }
    LastMessage(sent, s, Flatten(sent));
    match ending {
      case LeaderBehind => result := Behind;
      case UseSnapshot => result := UseRecovery;
      case Finished => result := if reached != 0 && reached < latest then Lagging else Tailing;
      case _ => result := Unknown;
    }
  }

  /** What is streamed is no larger than the segment it comes from. */
  lemma StreamFits(sent: seq<seq<ReplicateCommand>>, log: seq<LogEntry>, from: nat, n: nat, applied: nat)
    requires Streamed(sent, log, from + 1, n) && from + n <= applied <= |log|
    ensures Decodable(log[from..applied]) && AllFit(Commands(log[from..applied])) ==> AllFit(Flatten(sent))
  {
    hide AllFit, ToCommand;
    if Decodable(log[from..applied]) && AllFit(Commands(log[from..applied])) {
      assert log[from..applied][..n] == log[from..from + n];
      assert Commands(log[from..from + n]) <= Commands(log[from..applied]);
      PrefixFits(Commands(log[from..applied]), Flatten(sent));
    }
  }

  lemma NothingSent(sent: seq<seq<ReplicateCommand>>, log: seq<LogEntry>, request: nat, n: nat)
    requires Streamed(sent, log, request, n)
    ensures n == 0 <==> sent == []
  {
    hide Decodable;
    FlattenNothing<ReplicateCommand>();
    if sent != [] { SomeMessage(sent); }
  }

  method ReadLeaderIndex(follower: Update.Machine) returns (i: uint64)
    requires Store.Valid(follower.db)
    ensures i == Update.StateOf(follower.db).leaderIndex
  {
    Store.SystemNotUser(Keys.LEADER_INDEX_KEY);
    i := Store.ReadIndex(follower.db, Keys.LEADER_INDEX_KEY);
  }

  lemma Finish(cfg: Config, s: System, f: Update.State, chunks: seq<seq<ReplicateCommand>>,
               calls: seq<seq<Update.Entry>>, all: seq<ReplicateCommand>)
    requires Inv(cfg, s) && Segment(s, all) && Reached(s, f, chunks, calls, all)
    ensures CanPoll(s, chunks, calls, |Flatten(chunks)|)
    ensures Update.NextCalls(s.follower, calls) == Ok(f) && f.leaderIndex == s.follower.leaderIndex + |Flatten(chunks)|
  {
    hide Inv, CanPoll, Segment, Update.NextCalls;
    ReachedCanPoll(s, f, chunks, calls, all);
    PollKeeps(cfg, s, chunks, calls, |Flatten(chunks)|);
  }

  lemma LastMessage(sent: seq<seq<ReplicateCommand>>, s: System, all: seq<ReplicateCommand>)
    requires (forall i :: 0 <= i < |sent| ==> sent[i] != []) && all == Flatten(sent) && Segment(s, all)
    requires Numbered(s.log)
    ensures LastLeader(sent) == if sent == [] then 0 else s.follower.leaderIndex + |all|
    ensures sent == [] <==> all == []
  {
    hide Segment, Numbered;
    if sent != [] {
      SomeMessage(sent);
      LastOfFlatten(sent);
      SegmentLast(s, all);
    }
  }

  lemma SomeMessage(sent: seq<seq<ReplicateCommand>>)
    requires sent != [] && sent[|sent| - 1] != []
    ensures Flatten(sent) != []
  {
    FlattenFront(sent);
  }

  lemma SegmentLast(s: System, all: seq<ReplicateCommand>)
    requires Segment(s, all) && Numbered(s.log) && all != []
    ensures all[|all| - 1].leaderIndex == s.follower.leaderIndex + |all|
  {
    hide ToCommand;
    var from := s.follower.leaderIndex;
    assert s.log[from..from + |all|][|all| - 1] == s.log[from + |all| - 1];
  }
}
