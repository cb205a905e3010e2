/** The Raft log of a leader shard as its readers see it: entries numbered from one, of which
    those below a compaction point can no longer be read. */
module RaftLog {
  import opened ByteStrings

  /** `application` tells proposals from Raft's own entries; `size` is the size bound that the
      entry reports. */
  datatype LogEntry = LogEntry(index: nat, application: bool, cmd: Bytes, size: nat)

  datatype LogRange = LogRange(first: nat, last: nat)

  datatype ReadFailure = NotReady | LogBehind | LogAhead | Unavailable

  datatype ReadResult = Entries(es: seq<LogEntry>) | Failed(why: ReadFailure)

  ghost predicate Numbered(log: seq<LogEntry>)
  {
    forall i :: 0 <= i < |log| ==> log[i].index == i + 1
  }

  /** A contiguous run of the log; `[]` is a run everywhere. */
  ghost predicate Run(es: seq<LogEntry>, log: seq<LogEntry>)
  {
    es == [] || RunFrom(es, log, es[0].index)
  }

  ghost predicate RunFrom(es: seq<LogEntry>, log: seq<LogEntry>, first: nat)
  {
    1 <= first && first - 1 + |es| <= |log| && es == log[first - 1..first - 1 + |es|]
  }

  /** An answer to a query: a run from the first index that stays inside the range. */
  ghost predicate Answers(es: seq<LogEntry>, log: seq<LogEntry>, range: LogRange)
  {
    es == [] || (RunFrom(es, log, range.first) && range.first + |es| <= range.last)
  }

  /** Why a plain read of the log fails, if it does. */
  function Failure(length: nat, first: nat, range: LogRange): (r: Option<ReadFailure>)
  {
    if length + 1 == range.first then None
    else if length < range.first then Some(LogBehind)
    else if range.first < first then Some(LogAhead)
    else if range.last > length + 1 || range.last <= range.first then Some(Unavailable)
    else None
  }

  /** `readLog`. The library call at its end returns a non-empty prefix of what was asked for,
      of any length: the size limit is only a hint. */
  method ReadLog(log: seq<LogEntry>, first: nat, range: LogRange) returns (r: ReadResult)
    requires Numbered(log) && 1 <= first
    ensures match Failure(|log|, first, range)
            case Some(why) => r == Failed(why)
            case None => r.Entries? && Answers(r.es, log, range) && (r.es == [] <==> |log| + 1 == range.first)
    ensures r == Failed(LogBehind) <==> |log| + 1 < range.first
    ensures r == Failed(LogAhead) <==> range.first <= |log| && range.first < first
    ensures r == Failed(Unavailable) <==>
              first <= range.first <= |log| && !(range.first < range.last <= |log| + 1)
  {
    if |log| + 1 == range.first { return Entries([]); }
    if |log| < range.first { return Failed(LogBehind); }
    if range.first < first { return Failed(LogAhead); }
    if range.last > |log| + 1 || range.last <= range.first { return Failed(Unavailable); }
    var n :| 1 <= n <= range.last - range.first;
    r := Entries(log[range.first - 1..range.first - 1 + n]);
  }

  /** `Simple.QueryRaftLog`. */
  method SimpleQuery(log: seq<LogEntry>, first: nat, range: LogRange) returns (r: ReadResult)
    requires Numbered(log) && 1 <= first
    ensures range.first == range.last ==> r == Entries([])
    ensures range.first != range.last ==>
              match Failure(|log|, first, range)
              case Some(why) => r == Failed(why)
              case None => r.Entries? && Answers(r.es, log, range) && (r.es == [] <==> |log| + 1 == range.first)
  {
    if range.first == range.last { return Entries([]); }
    r := ReadLog(log, first, range);
  }

  /** A log only grows. */
  lemma RunKept(es: seq<LogEntry>, log: seq<LogEntry>, more: seq<LogEntry>)
    requires Run(es, log)
    ensures Run(es, log + more)
  {
    if es != [] {
      SliceKept(log, more, es[0].index - 1, es[0].index - 1 + |es|);
    }
  }

  lemma SliceKept<T>(a: seq<T>, b: seq<T>, lo: nat, hi: nat)
    requires lo <= hi <= |a|
    ensures (a + b)[lo..hi] == a[lo..hi]
  {
  }

  lemma RunIndexes(es: seq<LogEntry>, log: seq<LogEntry>)
    requires Numbered(log) && Run(es, log)
    ensures forall i :: 0 <= i < |es| ==> es[i].index == es[0].index + i
    ensures es != [] ==> 1 <= es[0].index && es[|es| - 1].index <= |log|
  {
    if es != [] {
      assert forall i :: 0 <= i < |es| ==> es[i] == log[es[0].index - 1 + i];
    }
  }

  lemma RunEntries(es: seq<LogEntry>, log: seq<LogEntry>)
    requires Numbered(log) && Run(es, log) && es != []
    ensures 1 <= es[0].index && es[0].index - 1 + |es| <= |log|
    ensures forall i :: 0 <= i < |es| ==> es[i] == log[es[0].index - 1 + i]
  {
  }

  /** Equal indexes make equal runs. */
  lemma RunOf(es: seq<LogEntry>, log: seq<LogEntry>, first: nat)
    requires Numbered(log) && 1 <= first && first - 1 + |es| <= |log|
    requires forall i :: 0 <= i < |es| ==> es[i] == log[first - 1 + i]
    ensures RunFrom(es, log, first) && Run(es, log)
  {
  }
}
