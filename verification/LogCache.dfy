/** The per-shard cache of recent log entries. */
module LogCache {
  import opened RaftLog

  ghost predicate InOrder(es: seq<LogEntry>)
  {
    forall i, j :: 0 <= i < j < |es| ==> es[i].index < es[j].index
  }

  /** `findIndex` for the tests of the form `index >= bound`: two short cuts and a binary
      search. */
  method FindIndex(es: seq<LogEntry>, bound: nat) returns (k: nat)
    requires es != [] && InOrder(es)
    ensures k <= |es|
    ensures forall i :: 0 <= i < k ==> es[i].index < bound
    ensures forall i :: k <= i < |es| ==> es[i].index >= bound
  {
    if es[0].index >= bound { return 0; }
    if es[|es| - 1].index < bound { return |es|; }
    var lo, hi := 0, |es|;
    while lo < hi
      invariant 0 <= lo <= hi <= |es|
      invariant forall i :: 0 <= i < lo ==> es[i].index < bound
      invariant forall i :: hi <= i < |es| ==> es[i].index >= bound
    {
      var mid := (lo + hi) / 2;
      if es[mid].index >= bound { hi := mid; } else { lo := mid + 1; }
    }
    k := lo;
  }

  /** The last `n` elements. */
  function Latest(es: seq<LogEntry>, n: nat): (r: seq<LogEntry>)
    ensures |r| <= n
  {
    if |es| <= n then es else es[|es| - n..]
  }

  function Min(a: nat, b: nat): (r: nat)
  {
    if a < b then a else b
  }

  /** How many entries of a run lie behind `maxIndex`; with nothing cached, all of them. */
  function NewCount(es: seq<LogEntry>, maxIndex: nat): (n: nat)
  {
    if es == [] then 0
    else if maxIndex == 0 then |es|
    else if es[|es| - 1].index > maxIndex then es[|es| - 1].index - maxIndex
    else 0
  }

  class Cache {
    var buffer: seq<LogEntry>
    const size: nat

    constructor (size: nat)
      ensures buffer == [] && this.size == size
    {
      buffer, this.size := [], size;
    }

    /** At most `size` entries that form a gap-free run of the log. */
    ghost predicate Holds(log: seq<LogEntry>)
      reads this
    {
      |buffer| <= size && Run(buffer, log)
    }

    function Smallest(): (i: nat)
      reads this
    {
      if buffer == [] then 0 else buffer[0].index
    }

    function Largest(): (i: nat)
      reads this
    {
      if buffer == [] then 0 else buffer[|buffer| - 1].index
    }

    method MakeRoomAndAppend(es: seq<LogEntry>)
      requires |es| <= size && |buffer| <= size
      modifies this
      ensures buffer == Latest(old(buffer) + es, size)
    {
      if size < |es| + |buffer| {
        buffer := buffer[|es| + |buffer| - size..];
      }
      buffer := buffer + es;
    }

    method Extend(es: seq<LogEntry>, ghost log: seq<LogEntry>)
      requires Numbered(log) && Holds(log) && Run(es, log) && es != [] && |es| <= size && buffer != []
      requires Largest() + 1 == es[0].index || |es| == size
      modifies this
      ensures Holds(log) && Largest() == es[|es| - 1].index && |buffer| == Min(size, |old(buffer)| + |es|)
    {
      hide Run, Numbered, Latest;
      JoinedRun(buffer, es, size, log);
      LatestEnd(buffer, es, size);
      MakeRoomAndAppend(es);
    }

    /** The cached entries of a range, and the ranges in front of and behind them that have to be
        read from the log; a range from zero to zero is nothing to read. */
    method Get(range: LogRange, ghost log: seq<LogEntry>)
      returns (es: seq<LogEntry>, prepend: LogRange, append: LogRange)
      requires Numbered(log) && Holds(log) && 1 <= range.first < range.last
      ensures Answer(buffer, range, es, prepend, append)
    {
      hide Run, Numbered, InOrder;
      prepend, append := LogRange(0, 0), LogRange(0, 0);
      if buffer == [] { return [], range, append; }
      RunEnds(buffer, log);
      var smallest, largest := Smallest(), Largest();
      if smallest > range.last { return [], range, append; }
      if largest < range.first { return [], prepend, range; }
      RunAscending(buffer, log);
      var start := FindIndex(buffer, range.first);
      var end := FindIndex(buffer, range.last);
      SliceBounds(buffer, range, start, end, log);
      es := buffer[start..end];
      if es != [] {
        if range.first < smallest { prepend := LogRange(range.first, smallest); }
        if range.last > largest + 1 { append := LogRange(largest + 1, range.last); }
      }
    }

    /** Entries that continue the cached run, or overlap its end, are taken in; the oldest ones
        are evicted. A batch larger than the whole cache replaces it. */
    method Put(es: seq<LogEntry>, ghost log: seq<LogEntry>)
      requires Numbered(log) && Holds(log) && Run(es, log)
      requires es != [] && buffer != [] ==> es[0].index <= Largest() + 1
      modifies this
      ensures Holds(log)
      ensures |buffer| == Min(size, |old(buffer)| + NewCount(es, old(Largest())))
      ensures size > 0 && es != [] ==>
                Largest() == if es[|es| - 1].index > old(Largest()) then es[|es| - 1].index else old(Largest())
    {
      hide Run, Numbered, InOrder, Latest;
      if es == [] { return; }
      var kept := Latest(es, size);
      LatestIsSuffix(es, size);
      RunEnds(es, log);
      if buffer != [] { RunEnds(buffer, log); }
      if Largest() == 0 {
        PutFirst(kept, es, log);
      } else {
        PutBehind(kept, es, log);
      }
    }

    method PutFirst(kept: seq<LogEntry>, ghost es: seq<LogEntry>, ghost log: seq<LogEntry>)
      requires Numbered(log) && buffer == [] && |kept| <= size
      requires Run(es, log) && |kept| <= |es| && kept == es[|es| - |kept|..]
      modifies this
      ensures buffer == kept && Holds(log)
    {
      hide Run, Numbered;
      SuffixRun(es, |es| - |kept|, log);
      MakeRoomAndAppend(kept);
      assert [] + kept == kept;
    }

    method PutBehind(kept: seq<LogEntry>, ghost es: seq<LogEntry>, ghost log: seq<LogEntry>)
      requires Numbered(log) && Holds(log) && buffer != [] && Largest() > 0
      requires Run(es, log) && kept != [] && |kept| <= |es| && kept == es[|es| - |kept|..]
      requires |kept| == Min(|es|, size) && es[0].index <= Largest() + 1
      modifies this
      ensures Holds(log)
      ensures |buffer| == Min(size, |old(buffer)| + NewCount(es, old(Largest())))
      ensures Largest() == if es[|es| - 1].index > old(Largest()) then es[|es| - 1].index else old(Largest())
    {
      hide Run, Numbered, InOrder;
      RunEnds(es, log);
      var part := NewPart(kept, Largest(), es, log);
      if part != [] { Extend(part, log); }
    }
  }

  /** The entries of a possibly cut run that lie behind `maxIndex`. */
  method NewPart(kept: seq<LogEntry>, maxIndex: nat, ghost es: seq<LogEntry>, ghost log: seq<LogEntry>)
    returns (part: seq<LogEntry>)
    requires Numbered(log) && Run(es, log) && kept != [] && |kept| <= |es| && kept == es[|es| - |kept|..]
    requires 0 < maxIndex && es[0].index <= maxIndex + 1
    ensures Run(part, log) && |part| == Min(|kept|, NewCount(es, maxIndex))
    ensures part != [] ==> part[|part| - 1] == es[|es| - 1]
    ensures part != [] ==> part[0].index == maxIndex + 1 || (part == kept && |kept| < |es|)
  {
    hide Run, Numbered, InOrder, NewCount;
    SuffixRun(es, |es| - |kept|, log);
    RunAscending(kept, log);
    var i := FindIndex(kept, maxIndex + 1);
    NewSuffix(es, kept, i, maxIndex, log);
    part := kept[i..];
  }

  /** What a look into the cache gives, by the position of the range and the cached indexes. */
  ghost predicate Answer(buffer: seq<LogEntry>, range: LogRange, es: seq<LogEntry>, prepend: LogRange, append: LogRange)
    requires range.first < range.last
  {
    if buffer == [] || buffer[0].index > range.last then es == [] && prepend == range && append == LogRange(0, 0)
    else
      var smallest, largest := buffer[0].index, buffer[|buffer| - 1].index;
      if largest < range.first then es == [] && prepend == LogRange(0, 0) && append == range
      else if smallest == range.last then es == [] && prepend == LogRange(0, 0) && append == LogRange(0, 0)
      else
        && es == Between(buffer, range)
        && es != []
        && prepend == (if range.first < smallest then LogRange(range.first, smallest) else LogRange(0, 0))
        && append == (if range.last > largest + 1 then LogRange(largest + 1, range.last) else LogRange(0, 0))
  }

  /** The entries of a run whose indexes are in the range. */
  function Between(buffer: seq<LogEntry>, range: LogRange): (es: seq<LogEntry>)
  {
    if buffer == [] then []
    else
      var smallest := buffer[0].index;
      var lo := if range.first <= smallest then 0 else Min(range.first - smallest, |buffer|);
      var hi := if range.last <= smallest then 0 else Min(range.last - smallest, |buffer|);
      if lo <= hi then buffer[lo..hi] else []
  }

  lemma SliceBounds(buffer: seq<LogEntry>, range: LogRange, start: nat, end: nat, log: seq<LogEntry>)
    requires Numbered(log) && Run(buffer, log) && buffer != [] && range.first < range.last
    requires buffer[0].index <= range.last && range.first <= buffer[|buffer| - 1].index
    requires start <= |buffer| && end <= |buffer|
    requires forall i :: 0 <= i < start ==> buffer[i].index < range.first
    requires forall i :: start <= i < |buffer| ==> buffer[i].index >= range.first
    requires forall i :: 0 <= i < end ==> buffer[i].index < range.last
    requires forall i :: end <= i < |buffer| ==> buffer[i].index >= range.last
    ensures start <= end && buffer[start..end] == Between(buffer, range)
    ensures buffer[start..end] == [] <==> buffer[0].index == range.last
  {
    RunIndexes(buffer, log);
    var s := buffer[0].index;
    assert start == if range.first <= s then 0 else range.first - s by {
      if start > 0 { assert buffer[start - 1].index < range.first; }
      if start < |buffer| { assert buffer[start].index >= range.first; }
    }
    assert end == if range.last <= s then 0 else Min(range.last - s, |buffer|) by {
      if end > 0 { assert buffer[end - 1].index < range.last; }
      if end < |buffer| { assert buffer[end].index >= range.last; }
    }
  }

  lemma RunEnds(es: seq<LogEntry>, log: seq<LogEntry>)
    requires Numbered(log) && Run(es, log) && es != []
    ensures 1 <= es[0].index && es[|es| - 1].index == es[0].index + |es| - 1
  {
    RunIndexes(es, log);
  }

  lemma RunAscending(es: seq<LogEntry>, log: seq<LogEntry>)
    requires Numbered(log) && Run(es, log)
    ensures InOrder(es)
  {
    RunIndexes(es, log);
  }

  /** The part of a run behind `maxIndex` continues it, unless the run was cut. */
  lemma NewSuffix(es: seq<LogEntry>, kept: seq<LogEntry>, i: nat, maxIndex: nat, log: seq<LogEntry>)
    requires Numbered(log) && Run(es, log) && kept != [] && |kept| <= |es| && kept == es[|es| - |kept|..] && i <= |kept|
    requires 0 < maxIndex && es[0].index <= maxIndex + 1
    requires forall j :: 0 <= j < i ==> kept[j].index < maxIndex + 1
    requires forall j :: i <= j < |kept| ==> kept[j].index >= maxIndex + 1
    ensures Run(kept[i..], log)
    ensures |kept[i..]| == Min(|kept|, NewCount(es, maxIndex))
    ensures i < |kept| ==> kept[i..][|kept| - i - 1] == es[|es| - 1]
    ensures i < |kept| ==> kept[i].index == maxIndex + 1 || (i == 0 && |kept| < |es|)
  {
    var k := |es| - |kept|;
    SuffixRun(es, k + i, log);
    assert kept[i..] == es[k + i..];
    hide Run, Numbered;
    RunIndexes(es, log);
    assert forall j :: 0 <= j < |kept| ==> kept[j].index == es[0].index + k + j;
    if i > 0 { assert kept[i - 1].index < maxIndex + 1; }
    if i < |kept| { assert kept[i].index >= maxIndex + 1; }
  }

  lemma LatestIsSuffix(es: seq<LogEntry>, n: nat)
    ensures |Latest(es, n)| == Min(|es|, n) && Latest(es, n) == es[|es| - |Latest(es, n)|..]
    ensures es != [] && n > 0 ==> Latest(es, n)[|Latest(es, n)| - 1] == es[|es| - 1]
  {
  }

  lemma LatestEnd(a: seq<LogEntry>, b: seq<LogEntry>, n: nat)
    requires b != [] && n > 0
    ensures |Latest(a + b, n)| == Min(n, |a| + |b|)
    ensures Latest(a + b, n) != [] && Latest(a + b, n)[|Latest(a + b, n)| - 1] == b[|b| - 1]
  {
  }

  lemma SuffixRun(es: seq<LogEntry>, k: nat, log: seq<LogEntry>)
    requires Numbered(log) && Run(es, log) && k <= |es|
    ensures Run(es[k..], log)
  {
    RunIndexes(es, log);
    if k < |es| {
      RunEntries(es, log);
      RunOf(es[k..], log, es[k].index);
    }
  }

  /** Evicting from the front of two runs leaves a run, whether they touch or the second one
      fills the cache alone. */
  lemma JoinedRun(a: seq<LogEntry>, b: seq<LogEntry>, n: nat, log: seq<LogEntry>)
    requires Numbered(log) && Run(a, log) && Run(b, log) && a != [] && b != [] && |b| <= n
    requires a[|a| - 1].index + 1 == b[0].index || |b| == n
    ensures Run(Latest(a + b, n), log)
  {
    var r := Latest(a + b, n);
    if |b| == n {
      assert r == b;
    } else {
      RunIndexes(a, log);
      RunEntries(a, log);
      RunEntries(b, log);
      RunOf(r, log, r[0].index);
    }
  }
}
