/** The log reader of the leader: queries are answered from a per-shard cache where possible. */
module LogReader {
  import opened ByteStrings
  import opened RaftLog
  import opened LogCache

  function TotalSize(es: seq<LogEntry>): (n: nat)
  {
    if es == [] then 0 else TotalSize(es[..|es| - 1]) + es[|es| - 1].size
  }

  lemma {:induction false} TotalSizeConcat(a: seq<LogEntry>, b: seq<LogEntry>)
    ensures TotalSize(a + b) == TotalSize(a) + TotalSize(b)
    ensures |a| == 1 ==> TotalSize(a) == a[0].size
    decreases |b|
  {
    if |a| == 1 { assert a[..0] == []; }
    if b == [] {
      assert a + b == a;
    } else {
      assert (a + b)[..|a + b| - 1] == a + b[..|b| - 1];
      TotalSizeConcat(a, b[..|b| - 1]);
    }
  }

  /** The longest prefix whose entries add up to less than `maxSize` at every step. */
  method FixSize(es: seq<LogEntry>, maxSize: nat) returns (r: seq<LogEntry>)
    ensures r <= es
    ensures forall i :: 0 < i <= |r| ==> TotalSize(es[..i]) < maxSize
    ensures |r| < |es| ==> TotalSize(es[..|r| + 1]) >= maxSize
    ensures r == [] <==> es == [] || es[0].size >= maxSize
  {
    var size, i := 0, 0;
    if es != [] { assert es[..1][..0] == [] && TotalSize(es[..1]) == es[0].size; }
    while i < |es|
      invariant i <= |es| && size == TotalSize(es[..i])
      invariant forall j :: 0 < j <= i ==> TotalSize(es[..j]) < maxSize
    {
      assert es[..i + 1][..i] == es[..i];
      size := size + es[i].size;
      if size >= maxSize { return es[..i]; }
      i := i + 1;
    }
    r := es;
  }

  /** The query finds the start of its range in the cache, but the first entry alone reaches
      the size limit, or its range ends just where the cached run begins: nothing is returned
      although the log has entries. */
  ghost predicate Starved(buffer: seq<LogEntry>, log: seq<LogEntry>, range: LogRange, maxSize: nat)
  {
    buffer != [] && (buffer[0].index == range.last ||
                     (buffer[0].index < range.last && range.first <= buffer[|buffer| - 1].index &&
                      1 <= range.first <= |log| && log[range.first - 1].size >= maxSize))
  }

  /** The entry the query starts with is cached. */
  ghost predicate CachesStart(buffer: seq<LogEntry>, range: LogRange)
  {
    buffer != [] && buffer[0].index <= range.first <= buffer[|buffer| - 1].index
  }

  lemma PrefixAnswers(r: seq<LogEntry>, es: seq<LogEntry>, log: seq<LogEntry>, range: LogRange)
    requires r <= es && Answers(es, log, range)
    ensures Answers(r, log, range)
  {
    if r != [] { assert r == es[..|r|]; }
  }

  /** A run that ends where another one begins can be put in front of it. */
  lemma JoinAnswers(a: seq<LogEntry>, b: seq<LogEntry>, log: seq<LogEntry>, range: LogRange)
    requires a != [] && b != [] && RunFrom(a, log, range.first) && RunFrom(b, log, range.first + |a|)
    requires range.first + |a| + |b| <= range.last
    ensures Answers(a + b, log, range) && (a + b)[0] == log[range.first - 1]
  {
  }

  /** The cached part of a range, as a run of the log. */
  lemma BetweenRun(buffer: seq<LogEntry>, log: seq<LogEntry>, range: LogRange)
    requires Numbered(log) && Run(buffer, log) && buffer != [] && range.first < range.last
    requires buffer[0].index < range.last && range.first <= buffer[|buffer| - 1].index
    ensures var es := Between(buffer, range);
            var start := if range.first < buffer[0].index then buffer[0].index else range.first;
            && es != [] && RunFrom(es, log, start) && start + |es| <= range.last
            && es[0].index == start
            && start + |es| == Min(range.last, buffer[|buffer| - 1].index + 1)
  {
    hide Run, RunFrom, Numbered;
    RunIndexes(buffer, log);
    RunEntries(buffer, log);
    var es := Between(buffer, range);
    var start := if range.first < buffer[0].index then buffer[0].index else range.first;
    RunOf(es, log, start);
  }

  /** The part of a query behind the shard's lock. */
  method QueryShard(c: Cache, log: seq<LogEntry>, first: nat, range: LogRange, maxSize: nat) returns (r: ReadResult)
    requires Numbered(log) && 1 <= first && c.Holds(log) && 1 <= range.first < range.last
    modifies c
    ensures c.Holds(log) && (c.Largest() < range.last || c.Largest() == old(c.Largest()))
    ensures r.Failed? ==> Failure(|log|, first, range).Some?
    ensures r.Failed? && range.last <= |log| + 1 ==> Failure(|log|, first, range) == Some(r.why)
    ensures r.Entries? ==> Answers(r.es, log, range)
    ensures r == Entries([]) ==> range.first == |log| + 1 || Starved(old(c.buffer), log, range, maxSize)
    ensures old(c.buffer) != [] && old(c.buffer)[0].index == range.last ==> r == Entries([])
    ensures CachesStart(old(c.buffer), range) && r.Entries? ==>
              (r.es == [] <==> Starved(old(c.buffer), log, range, maxSize))
  {
    hide Numbered, Run, RunFrom;
    var cached, prepend, append := c.Get(range, log);
    if c.buffer != [] { RunEnds(c.buffer, log); }
    if prepend.first != 0 && prepend.last != 0 {
      r := QueryHead(c, log, first, range, maxSize, cached, prepend, append);
    } else if append.first != 0 && append.last != 0 {
      r := QueryTail(c, log, first, range, maxSize, cached, prepend, append);
    } else {
      var es := FromCache(c, log, range, maxSize, cached, prepend, append);
      r := Entries(es);
    }
  }

  /** A log of ten small entries of which the last five are cached. The query for entries three
      to five ends just where the cached run begins, and returns nothing; so does the query for
      cached entries whose first one alone reaches the size limit. */
  method EmptyAnswers() returns (log: seq<LogEntry>, r: ReadResult, r': ReadResult)
    ensures |log| == 10 && Numbered(log) && forall i :: 0 <= i < 10 ==> log[i].size == 1
    ensures r == Entries([]) && Failure(10, 1, LogRange(3, 6)) == None
    ensures r' == Entries([]) && Failure(10, 1, LogRange(7, 9)) == None
  {
    log := seq(10, i requires 0 <= i < 10 => LogEntry(i + 1, true, [], 1));
    var c := new Cache(5);
    c.buffer := log[5..10];
    RunOf(c.buffer, log, 6);
    r := QueryShard(c, log, 1, LogRange(3, 6), 1000000);
    var c' := new Cache(5);
    c'.buffer := log[5..10];
    r' := QueryShard(c', log, 1, LogRange(7, 9), 1);
  }

  /** The beginning of the range has to be read from the log. */
  method QueryHead(c: Cache, log: seq<LogEntry>, first: nat, range: LogRange, maxSize: nat,
                   cached: seq<LogEntry>, prepend: LogRange, ghost append: LogRange) returns (r: ReadResult)
    requires Numbered(log) && 1 <= first && c.Holds(log) && 1 <= range.first < range.last
    requires Answer(c.buffer, range, cached, prepend, append) && prepend.first != 0
    modifies c
    ensures c.Holds(log) && (c.Largest() < range.last || c.Largest() == old(c.Largest()))
    ensures r.Failed? ==> Failure(|log|, first, range).Some?
    ensures r.Failed? && range.last <= |log| + 1 ==> Failure(|log|, first, range) == Some(r.why)
    ensures r.Entries? ==> Answers(r.es, log, range)
    ensures r == Entries([]) ==> range.first == |log| + 1 || Starved(old(c.buffer), log, range, maxSize)
  {
    hide Numbered, Run, RunFrom, Between, TotalSize;
    if c.buffer != [] { RunEnds(c.buffer, log); RunInside(c.buffer, log); }
    r := ReadLog(log, first, prepend);
    if r.Failed? { return; }
    var le := r.es;
    if |le| == 0 {
      // With cached entries the head of the range is always there to be read.
      assert cached == [];
    } else if |cached| > 0 && le[|le| - 1].index == cached[0].index - 1 {
      BetweenRun(c.buffer, log, range);
      AnswerEnds(le, log, prepend);
      JoinAnswers(le, cached, log, range);
      var es := FixSize(le + cached, maxSize);
      PrefixAnswers(es, le + cached, log, range);
      r := Entries(es);
    } else {
      AnswerEnds(le, log, prepend);
      if |c.buffer| == 0 { c.Put(le, log); }
      WiderRange(le, log, prepend, range);
    }
  }

  /** The end of the range has to be read from the log. */
  method QueryTail(c: Cache, log: seq<LogEntry>, first: nat, range: LogRange, maxSize: nat,
                   cached: seq<LogEntry>, ghost prepend: LogRange, append: LogRange) returns (r: ReadResult)
    requires Numbered(log) && 1 <= first && c.Holds(log) && 1 <= range.first < range.last
    requires Answer(c.buffer, range, cached, prepend, append) && append.first != 0 && prepend.first == 0
    modifies c
    ensures cached != [] && r.Entries? ==> (r.es == [] <==> Starved(old(c.buffer), log, range, maxSize))
    ensures c.Holds(log) && (c.Largest() < range.last || c.Largest() == old(c.Largest()))
    ensures r.Failed? ==> Failure(|log|, first, range).Some?
    ensures r.Failed? && range.last <= |log| + 1 ==> Failure(|log|, first, range) == Some(r.why)
    ensures r.Entries? ==> Answers(r.es, log, range)
    ensures r == Entries([]) ==> range.first == |log| + 1 || Starved(old(c.buffer), log, range, maxSize)
  {
    hide Numbered, Run, RunFrom, Between, TotalSize;
    RunEnds(c.buffer, log);
    RunInside(c.buffer, log);
    r := ReadLog(log, first, append);
    if r.Failed? { return; }
    var le := r.es;
    if |le| == 0 {
      var es := FromCache(c, log, range, maxSize, cached, prepend, append);
      r := Entries(es);
    } else if |cached| > 0 {
      BetweenRun(c.buffer, log, range);
      AnswerEnds(le, log, append);
      FirstOf(cached, log, range.first);
      JoinAnswers(cached, le, log, range);
      c.Put(le, log);
      var es := FixSize(cached + le, maxSize);
      PrefixAnswers(es, cached + le, log, range);
      r := Entries(es);
    } else {
      AnswerEnds(le, log, append);
      if le[0].index - 1 == c.Largest() { c.Put(le, log); }
    }
  }

  /** Only cached entries are returned. */
  method FromCache(c: Cache, log: seq<LogEntry>, range: LogRange, maxSize: nat,
                   cached: seq<LogEntry>, ghost prepend: LogRange, ghost append: LogRange) returns (es: seq<LogEntry>)
    requires Numbered(log) && c.Holds(log) && 1 <= range.first < range.last
    requires Answer(c.buffer, range, cached, prepend, append) && prepend.first == 0
    ensures Answers(es, log, range)
    ensures cached != [] ==> (es == [] <==> Starved(c.buffer, log, range, maxSize))
    ensures cached == [] ==> es == []
  {
    hide Numbered, Run, RunFrom, Between, TotalSize;
    es := FixSize(cached, maxSize);
    if cached != [] {
      RunInside(c.buffer, log);
      BetweenRun(c.buffer, log, range);
      FirstOf(cached, log, range.first);
      PrefixAnswers(es, cached, log, range);
    }
  }

  lemma RunInside(es: seq<LogEntry>, log: seq<LogEntry>)
    requires Numbered(log) && Run(es, log) && es != []
    ensures es[|es| - 1].index <= |log|
  {
    RunIndexes(es, log);
  }

  lemma AnswerEnds(es: seq<LogEntry>, log: seq<LogEntry>, range: LogRange)
    requires Numbered(log) && Answers(es, log, range) && es != []
    ensures RunFrom(es, log, range.first) && Run(es, log)
    ensures es[0].index == range.first && es[|es| - 1].index == range.first + |es| - 1
  {
  }

  lemma WiderRange(es: seq<LogEntry>, log: seq<LogEntry>, narrow: LogRange, range: LogRange)
    requires Answers(es, log, narrow) && narrow.first == range.first && narrow.last <= range.last
    ensures Answers(es, log, range)
  {
  }

  lemma FirstOf(es: seq<LogEntry>, log: seq<LogEntry>, first: nat)
    requires RunFrom(es, log, first) && es != []
    ensures es[0] == log[first - 1]
  {
  }

  class Cached {
    const shardCacheSize: nat
    var shards: map<nat, Cache>

    constructor (size: nat)
      ensures shards == map[] && shardCacheSize == size
    {
      shardCacheSize, shards := size, map[];
    }

    /** Every shard's cache holds a gap-free run of that shard's log. */
    ghost predicate Valid(logs: nat -> seq<LogEntry>)
      reads this, shards.Values
    {
      (forall id :: id in shards ==> shards[id].size == shardCacheSize && shards[id].Holds(logs(id))) &&
      (forall a, b :: a in shards && b in shards && a != b ==> shards[a] != shards[b])
    }

    method NodeDeleted(id: nat, ghost logs: nat -> seq<LogEntry>)
      requires Valid(logs)
      modifies this
      ensures Valid(logs) && shards == old(shards) - {id}
    {
      shards := shards - {id};
    }

    method NodeReady(id: nat, ghost logs: nat -> seq<LogEntry>)
      requires Valid(logs)
      modifies this
      ensures Valid(logs) && id in shards
      ensures id in old(shards) ==> shards == old(shards)
      ensures id !in old(shards) ==> fresh(shards[id]) && shards[id].buffer == []
      ensures id !in old(shards) ==> shards == old(shards)[id := shards[id]]
    {
      if id in shards { return; }
      var c := new Cache(shardCacheSize);
      shards := shards[id := c];
    }

    method LogCompacted(id: nat, ghost logs: nat -> seq<LogEntry>)
      requires Valid(logs)
      modifies this
      ensures Valid(logs) && id in shards && fresh(shards[id]) && shards[id].buffer == []
      ensures shards == old(shards)[id := shards[id]]
    {
      var c := new Cache(shardCacheSize);
      shards := shards[id := c];
    }

    /** `Cached.QueryRaftLog`: it fails only where a plain read of the log fails, or when the shard
        is not known, and otherwise returns a run of the log from the start of the range. */
    method QueryRaftLog(id: nat, logs: nat -> seq<LogEntry>, first: nat, range: LogRange, maxSize: nat)
      returns (r: ReadResult)
      requires Valid(logs) && Numbered(logs(id)) && 1 <= first && 1 <= range.first <= range.last
      modifies if id in shards then {shards[id]} else {}
      ensures Valid(logs)
      ensures r.Failed? ==> (r.why == NotReady && id !in shards) || Failure(|logs(id)|, first, range).Some?
      ensures r.Failed? && id in shards && range.last <= |logs(id)| + 1 ==>
                Failure(|logs(id)|, first, range) == Some(r.why)
      ensures r.Entries? ==> Answers(r.es, logs(id), range)
      ensures r == Entries([]) ==>
                || range.first == range.last
                || range.first == |logs(id)| + 1
                || (id in shards && Starved(old(shards[id].buffer), logs(id), range, maxSize))
    {
      if range.first == range.last { return Entries([]); }
      if id !in shards { return Failed(NotReady); }
      r := QueryShard(shards[id], logs(id), first, range, maxSize);
    }
  }

  // ---------- whole runs ----------

  /** What can happen to the logs and the reader of a leader. */
  datatype Event =
    | Append(id: nat, application: bool, cmd: Bytes, size: nat)
    | Compact(id: nat, first: nat)
    | Ready(id: nat)
    | Deleted(id: nat)
    | Compacted(id: nat)
    | Query(id: nat, range: LogRange, maxSize: nat)

  lemma AnswersKept(es: seq<LogEntry>, log: seq<LogEntry>, more: seq<LogEntry>, range: LogRange)
    requires Answers(es, log, range)
    ensures Answers(es, log + more, range)
  {
    if es != [] {
      var f := range.first;
      assert (log + more)[f - 1..f - 1 + |es|] == log[f - 1..f - 1 + |es|];
    }
  }

  /** An answer that was given during a run. */
  ghost predicate Right(e: Event, r: ReadResult, logs: nat -> seq<LogEntry>)
  {
    e.Query? && r.Entries? ==> Answers(r.es, logs(e.id), e.range)
  }

  /** Run any sequence of events from an empty leader: at the end every cache is a gap-free
      window of its log with at most `size` entries, and every answer given on the way is a run
      of the log from the start of its range. */
  method Play(size: nat, events: seq<Event>)
    returns (reader: Cached, logs: nat -> seq<LogEntry>, answers: seq<ReadResult>)
    requires forall i :: 0 <= i < |events| && events[i].Query? ==> 1 <= events[i].range.first <= events[i].range.last
    ensures fresh(reader) && reader.Valid(logs) && (forall id :: Numbered(logs(id)))
    ensures |answers| == |events| && forall i :: 0 <= i < |events| ==> Right(events[i], answers[i], logs)
  {
    hide Numbered, Answers, Starved;
    NumberedNothing();
    reader := new Cached(size);
    logs := id => [];
    answers := [];
    var firsts: map<nat, nat> := map[];
    for i := 0 to |events|
      invariant fresh(reader) && reader.Valid(logs)
      invariant forall id :: id in reader.shards ==> fresh(reader.shards[id])
      invariant forall id :: Numbered(logs(id))
      invariant |answers| == i && forall j :: 0 <= j < i ==> Right(events[j], answers[j], logs)
    {
      var e := events[i];
      var r := Entries([]);
      match e {
      case Append(id, application, cmd, entrySize) =>
        var entry := LogEntry(|logs(id)| + 1, application, cmd, entrySize);
        var grown := (x: nat) => if x == id then logs(x) + [entry] else logs(x);
        GrowKeeps(reader, logs, grown, id, entry);
        NumberedMore(logs(id), entry);
        forall j | 0 <= j < i ensures Right(events[j], answers[j], grown) {
          assert Right(events[j], answers[j], logs);
          if events[j].Query? && answers[j].Entries? {
            AnswersKept(answers[j].es, logs(events[j].id), [entry], events[j].range);
          }
        }
        logs := grown;
      case Compact(id, first) =>
        firsts := firsts[id := first];
      case Ready(id) =>
        reader.NodeReady(id, logs);
      case Deleted(id) =>
        reader.NodeDeleted(id, logs);
      case Compacted(id) =>
        reader.LogCompacted(id, logs);
      case Query(id, range, maxSize) =>
        var first := if id in firsts && firsts[id] >= 1 then firsts[id] else 1;
        r := reader.QueryRaftLog(id, logs, first, range, maxSize);
      }
      answers := answers + [r];
    }
  }

  lemma NumberedNothing()
    ensures Numbered([])
  {
  }

  lemma NumberedMore(log: seq<LogEntry>, entry: LogEntry)
    requires Numbered(log) && entry.index == |log| + 1
    ensures Numbered(log + [entry])
  {
  }

  lemma GrowKeeps(reader: Cached, logs: nat -> seq<LogEntry>, grown: nat -> seq<LogEntry>, id: nat, entry: LogEntry)
    requires reader.Valid(logs)
    requires forall x :: grown(x) == if x == id then logs(x) + [entry] else logs(x)
    ensures reader.Valid(grown)
  {
    forall x | x in reader.shards ensures reader.shards[x].Holds(grown(x)) {
      RunKept(reader.shards[x].buffer, logs(x), [entry]);
    }
  }
}
