/** The leader's log server: it answers a follower's poll with the commands of a log segment. */
module Replicate {
  import opened ByteStrings
  import opened Messages
  import opened RaftLog
  import opened LogCache
  import opened LogReader
  import opened CommandCodec
  import opened Lists
  import Marshal

  datatype ReplicateCommand = ReplicateCommand(command: Command, leaderIndex: uint64)

  /** How a stream ends: complete, with one of the two error answers, or cut short. */
  datatype Ending = Finished | UseSnapshot | LeaderBehind | Stopped | Invalid

  // ---------- commands of a segment ----------

  /** Raft's own entries become dummies; every command is tagged with its index in the log. */
  function ToCommand(e: LogEntry): (r: Option<Command>)
    requires e.index < 0x1_0000_0000_0000_0000
  {
    if !e.application then Some(EMPTY_COMMAND.(kind := DUMMY, leaderIndex := Some(e.index)))
    else
      match DecodeCommand(e.cmd)
      case None => None
      case Some(c) => Some(c.(leaderIndex := Some(e.index)))
  }

  ghost predicate Decodable(es: seq<LogEntry>)
  {
    forall i :: 0 <= i < |es| ==> es[i].index < 0x1_0000_0000_0000_0000 && ToCommand(es[i]).Some?
  }

  ghost function Commands(es: seq<LogEntry>): (cs: seq<ReplicateCommand>)
    requires Decodable(es)
    ensures |cs| == |es|
  {
    seq(|es|, i requires 0 <= i < |es| => ReplicateCommand(ToCommand(es[i]).value, es[i].index))
  }

  method EntryToCommand(e: LogEntry) returns (r: Option<Command>)
    requires e.index < 0x1_0000_0000_0000_0000
    ensures r == ToCommand(e)
    ensures r.Some? ==> r.value.leaderIndex == Some(e.index)
    ensures !e.application ==> r.Some? && r.value.(leaderIndex := None) == EMPTY_COMMAND.(kind := DUMMY)
    ensures e.application ==> (r == None <==> DecodeCommand(e.cmd) == None)
    ensures e.application && r.Some? ==>
              r.value.(leaderIndex := DecodeCommand(e.cmd).value.leaderIndex) == DecodeCommand(e.cmd).value
  {
    hide DecodeCommand;
    if !e.application { return Some(EMPTY_COMMAND.(kind := DUMMY, leaderIndex := Some(e.index))); }
    var c := Marshal.UnmarshalCommand(e.cmd);
    r := if c == None then None else Some(c.value.(leaderIndex := Some(e.index)));
  }

  method ToCommands(es: seq<LogEntry>) returns (r: Option<seq<ReplicateCommand>>)
    requires forall i :: 0 <= i < |es| ==> es[i].index < 0x1_0000_0000_0000_0000
    ensures r.Some? <==> Decodable(es)
    ensures r.Some? ==> r.value == Commands(es)
  {
    hide ToCommand;
    var cs := [];
    for i := 0 to |es|
      invariant |cs| == i && Decodable(es[..i])
      invariant forall j :: 0 <= j < i ==> cs[j] == ReplicateCommand(ToCommand(es[j]).value, es[j].index)
    {
      var c := EntryToCommand(es[i]);
      if c == None { return None; }
      cs := cs + [ReplicateCommand(c.value, es[i].index)];
    }
    r := Some(cs);
  }

  /** What was sent is a prefix of the segment from `request` on: in order, without a gap or a
      repetition, in non-empty messages. */
  ghost predicate Streamed(sent: seq<seq<ReplicateCommand>>, log: seq<LogEntry>, request: nat, n: nat)
  {
    && 1 <= request && request - 1 + n <= |log|
    && Decodable(log[request - 1..request - 1 + n])
    && Flatten(sent) == Commands(log[request - 1..request - 1 + n])
    && forall i :: 0 <= i < |sent| ==> sent[i] != []
  }

  lemma StreamedMore(sent: seq<seq<ReplicateCommand>>, log: seq<LogEntry>, request: nat, n: nat, es: seq<LogEntry>)
    requires Streamed(sent, log, request, n) && es != [] && RunFrom(es, log, request + n) && Decodable(es)
    ensures Streamed(sent + [Commands(es)], log, request, n + |es|)
  {
    hide Decodable, Commands, Flatten;
    assert log[request - 1..request - 1 + n + |es|] == log[request - 1..request - 1 + n] + es;
    FlattenMore(sent, Commands(es));
    CommandsConcat(log[request - 1..request - 1 + n], es);
  }

  lemma CommandsConcat(a: seq<LogEntry>, b: seq<LogEntry>)
    requires Decodable(a) && Decodable(b)
    ensures Decodable(a + b) && Commands(a + b) == Commands(a) + Commands(b)
  {
    hide ToCommand;
  }

  lemma StreamedNothing(log: seq<LogEntry>, request: nat)
    requires 1 <= request <= |log| + 1
    ensures Streamed([], log, request, 0)
  {
    assert log[request - 1..request - 1] == [];
  }

  // ---------- the server ----------

  /** Other streams use the cache between two queries, some of them ahead of this one: they
      leave it with any run of the log. */
  method Disturb(c: Cache, log: seq<LogEntry>)
    requires Numbered(log)
    modifies c
    ensures c.Holds(log)
  {
    var a, b :| 0 <= a <= b <= |log| && b - a <= c.size;
    c.buffer := log[a..b];
  }

  /** One query of the stream, with the plain reader when there is no cache. */
  method QueryReader(c: Cache?, log: seq<LogEntry>, first: nat, range: LogRange, maxSize: nat)
    returns (r: ReadResult, ghost buffer: seq<LogEntry>)
    requires Numbered(log) && 1 <= first && 1 <= range.first <= range.last <= |log| + 1
    requires c != null ==> c.Holds(log)
    modifies if c == null then {} else {c}
    ensures buffer == if c == null then [] else old(c.buffer)
    ensures c != null ==> c.Holds(log) && (c.Largest() < range.last || c.Largest() == old(c.Largest()))
    ensures r.Entries? ==> Answers(r.es, log, range)
    ensures range.first == range.last ==> r == Entries([])
    ensures r == Entries([]) && range.first < range.last ==> c != null && Starved(buffer, log, range, maxSize)
    ensures r.Failed? ==> r.why == LogAhead && range.first < first
    ensures c == null && range.first < range.last && range.first < first ==> r.Failed?
  {
    hide Numbered, Answers, RunFrom, Run, Starved;
    buffer := if c == null then [] else c.buffer;
    if range.first == range.last {
      AnswersNothing(log, range);
      return Entries([]), buffer;
    }
    if c == null {
      r := SimpleQuery(log, first, range);
    } else {
      r := QueryShard(c, log, first, range, maxSize);
    }
  }

  lemma AnswersNothing(log: seq<LogEntry>, range: LogRange)
    ensures Answers([], log, range)
  {
  }

  /** `LogServer.Replicate`. The log is compacted up to `lower` when the stream starts and up to
      `upper` at most when it ends; `shared` tells whether other streams use the cache, `faults`
      whether a deadline or a failing send may cut the stream short. Whatever happens on the way,
      the stream is a prefix of the segment up to the applied index. A complete stream of the plain
      reader is the whole segment. With the cache it is the whole segment, or the last query was
      starved by `buffer`, what the cache held then: never with the whole log applied and all
      entries small, nor, if the cache is not shared and held nothing ahead, with small entries.
      A snapshot is asked for only when the next entry may be compacted, and by the plain reader
      always when it is. */
  method Replicate(c: Cache?, log: seq<LogEntry>, applied: nat, request: nat, maxSize: nat,
                   lower: nat, upper: nat, shared: bool, faults: bool)
    returns (sent: seq<seq<ReplicateCommand>>, ending: Ending, ghost n: nat, ghost buffer: seq<LogEntry>)
    requires Numbered(log) && applied <= |log| < 0xFFFF_FFFF_FFFF_FFFF && 1 <= lower <= upper
    requires c != null ==> c.Holds(log)
    modifies if c == null then {} else {c}
    ensures request == 0 <==> ending == Invalid
    ensures request == 0 || applied + 1 < request ==> sent == [] && n == 0
    ensures applied + 1 < request <==> ending == LeaderBehind
    ensures 1 <= request <= applied + 1 ==> Streamed(sent, log, request, n) && request - 1 + n <= applied
    ensures if c == null then buffer == [] else Run(buffer, log) && |buffer| <= c.size && c.Holds(log)
    ensures ending == Finished ==>
              request - 1 + n == applied || Starved(buffer, log, LogRange(request + n, applied + 1), maxSize)
    ensures ending == Finished && applied == |log| && AllBelow(log, maxSize) ==> request - 1 + n == applied
    ensures ending == Finished && !shared && (c != null ==> old(c.Largest()) <= applied) && AllBelow(log, maxSize) ==>
              request - 1 + n == applied
    ensures ending == UseSnapshot ==> request + n < upper && request + n <= applied
    ensures c == null && 1 <= request < lower && request <= applied ==>
              n == 0 && (ending == UseSnapshot || (faults && ending == Stopped))
    ensures 1 <= request <= applied + 1 && ending == Stopped ==> faults || !Decodable(log[request - 1..applied])
  {
    hide Numbered, Answers, RunFrom, Run, Streamed, ToCommand, Decodable, Starved, AllBelow;
    sent, n, buffer := [], 0, if c == null then [] else c.buffer;
    if request == 0 { return sent, Invalid, 0, buffer; }
    if applied + 1 < request { return sent, LeaderBehind, 0, buffer; }
    var range := LogRange(request, applied + 1);
    var first :| lower <= first <= upper;
    StreamedNothing(log, request);
    while true
      invariant range.last == applied + 1 && range.first == request + n <= range.last
      invariant Streamed(sent, log, request, n) && lower <= first <= upper
      invariant if c == null then buffer == [] else Run(buffer, log) && |buffer| <= c.size && c.Holds(log)
      invariant c != null && !shared && old(c.Largest()) <= applied ==> c.Largest() <= applied
      invariant c == null && request < lower && request <= applied ==> n == 0
      decreases range.last - range.first
    {
      var late: bool := *;
      if faults && late { return sent, Stopped, n, buffer; }
      var compacted :| first <= compacted <= upper;
      first := compacted;
      if c != null && shared { Disturb(c, log); }
      var r;
      r, buffer := QueryReader(c, log, first, range, maxSize);
      match r {
        case Failed(why) =>
          ending := if why == LogBehind then LeaderBehind else if why == LogAhead then UseSnapshot else Stopped;
          return;
        case Entries(es) =>
          var lost: bool := *;
          if |es| == 0 {
            if faults && lost { return sent, Stopped, n, buffer; }
            if range.first < range.last && AllBelow(log, maxSize) { StarvedWhen(buffer, log, range, maxSize); }
            return sent, Finished, n, buffer;
          }
          AnswerInside(es, log, range);
          var commands := ToCommands(es);
          if commands == None {
            PartDecodable(log, request, n, applied, es);
            return sent, Stopped, n, buffer;
          }
          if faults && lost { return sent, Stopped, n, buffer; }
          StreamedMore(sent, log, request, n, es);
          sent := sent + [commands.value];
          n := n + |es|;
          var next := es[|es| - 1].index + 1;
          range := range.(first := Min(next, range.last));
      }
    }
  }

  /** Every entry alone stays below the size limit. */
  ghost predicate AllBelow(log: seq<LogEntry>, maxSize: nat)
  {
    forall i :: 0 <= i < |log| ==> log[i].size < maxSize
  }

  /** With small entries only a cached run that starts right behind the range starves a query. */
  lemma StarvedWhen(buffer: seq<LogEntry>, log: seq<LogEntry>, range: LogRange, maxSize: nat)
    requires Numbered(log) && Run(buffer, log) && Starved(buffer, log, range, maxSize) && AllBelow(log, maxSize)
    ensures buffer != [] && range.last <= buffer[|buffer| - 1].index <= |log|
  {
    RunEnds(buffer, log);
    RunInside(buffer, log);
  }

  lemma PartDecodable(log: seq<LogEntry>, request: nat, n: nat, applied: nat, es: seq<LogEntry>)
    requires 1 <= request && RunFrom(es, log, request + n) && request - 1 + n + |es| <= applied <= |log|
    ensures Decodable(log[request - 1..applied]) ==> Decodable(es)
  {
    hide ToCommand;
    if Decodable(log[request - 1..applied]) {
      forall i | 0 <= i < |es|
        ensures es[i].index < 0x1_0000_0000_0000_0000 && ToCommand(es[i]).Some?
      {
        assert es[i] == log[request - 1..applied][n + i];
      }
    }
  }

  lemma AnswerInside(es: seq<LogEntry>, log: seq<LogEntry>, range: LogRange)
    requires Numbered(log) && Answers(es, log, range) && es != []
    ensures RunFrom(es, log, range.first) && range.first + |es| <= range.last
    ensures es[|es| - 1].index == range.first + |es| - 1
    ensures forall i :: 0 <= i < |es| ==> es[i].index <= |log|
  {
  }
}
