/** `readIntoTable`: the records of a snapshot are put into a new table in batches. The theorems
    say exactly when the new table is the one the snapshot was taken of. */
module Restore {
  import opened ByteStrings
  import opened Messages
  import opened CommandCodec
  import opened Lists
  import opened Table
  import opened Snapshot
  import Codec
  import Marshal
  import Replay
  import Wire

  const READ_BUFFER := 4 * 1024 * 1024

  /** A record of the snapshot: the decoded command and the number of bytes it took. */
  datatype Item = Item(command: Command, size: nat)

  const EMPTY_BATCH: Command := EMPTY_COMMAND.(kind := PUT_BATCH)

  /** A record without a pair adds a nil pair to the batch, which travels as an empty one. */
  function KvOf(c: Command): (kv: KeyValue)
  {
    if c.kv.Some? then c.kv.value else Codec.EMPTY_KV
  }

  /** The batch takes over the table and the leader index of every record it sees. */
  function Tag(batch: Command, c: Command): (r: Command)
  {
    batch.(table := c.table, leaderIndex := c.leaderIndex)
  }

  function Collect(batch: Command, c: Command): (r: Command)
  {
    Tag(batch, c).(batch := batch.batch + [KvOf(c)])
  }

  function Clear(batch: Command): (r: Command)
  {
    batch.(leaderIndex := None, batch := [])
  }

  /** The proposals for a list of records: they are collected while the estimate stays below
      `half`; the record that reaches it flushes the batch and is itself left out. */
  function Load(items: seq<Item>, half: nat, batch: Command, estimate: nat): (ps: seq<Command>)
    ensures ps != []
    decreases |items|
  {
    if items == [] then [batch]
    else
      var c := items[0].command;
      if estimate + items[0].size < half then
        Load(items[1..], half, Collect(batch, c), estimate + items[0].size)
      else [Tag(batch, c)] + Load(items[1..], half, Clear(Tag(batch, c)), 0)
  }

  // ---------- the loop ----------

  function DecodeItems(records: seq<Bytes>): (items: Option<seq<Item>>)
  {
    if records == [] then Some([])
    else
      match DecodeCommand(records[0])
      case None => None
      case Some(c) =>
        match DecodeItems(records[1..])
        case None => None
        case Some(rest) => Some([Item(c, |records[0]|)] + rest)
  }

  /** The items of a file from a position on. */
  function Parsed(data: Bytes, i: nat): (items: Option<seq<Item>>)
    requires i <= |data|
  {
    match ReadAll(data, i, READ_BUFFER) case None => None case Some(records) => DecodeItems(records)
  }

  lemma ParsedStep(data: Bytes, i: nat)
    requires i <= |data|
    ensures match ReadFrame(data, i, READ_BUFFER)
            case EndOfFile => Parsed(data, i) == Some([])
            case Broken => Parsed(data, i) == None
            case Record(d, next) =>
              Parsed(data, i) ==
              match DecodeCommand(d)
              case None => None
              case Some(c) =>
                match Parsed(data, next) case None => None case Some(rest) => Some([Item(c, |d|)] + rest)
  {
    hide ReadFrame, DecodeCommand;
    match ReadFrame(data, i, READ_BUFFER)
    case EndOfFile =>
    case Broken =>
    case Record(d, next) =>
      var rest := ReadAll(data, next, READ_BUFFER);
      if rest.Some? {
        var records := [d] + rest.value;
        assert records[0] == d && records[1..] == rest.value;
      }
  }

  datatype Ending = Restored | ReadFailed | ProposeFailed

  ghost predicate Among(cs: seq<Command>, all: seq<Command>)
  {
    forall c :: c in cs ==> c in all
  }

  /** Every proposal is in the log, at least once, and nothing else is. */
  ghost predicate Retried(log: seq<Command>, proposals: seq<Command>)
  {
    Among(log, proposals) && Among(proposals, log)
  }

  lemma RetriedMore(log: seq<Command>, tried: seq<Command>, late: seq<Command>, p: Command)
    requires Retried(log, tried) && Among(late, tried + [p])
    ensures Retried(log + late + [p], tried + [p]) && Among(log + late, tried + [p]) &&
            Among(log + late + [p], tried + [p])
  {
  }

  /** Attempts that timed out may reach the log at any later time. */
  method Late(tried: seq<Command>) returns (late: seq<Command>)
    ensures Among(late, tried)
  {
    late := [];
    if tried == [] { return; }
    var n :| n >= 0;
    for i := 0 to n
      invariant forall c :: c in late ==> c in tried
    {
      var j :| 0 <= j < |tried|;
      late := late + [tried[j]];
    }
  }

  /** `readIntoTable`. A proposal is retried until it succeeds or, with `faults`, fails for good,
      and any attempt may take effect; `log` is what reaches the log of the new table. */
  method ReadIntoTable(file: SnapshotFile, half: nat, faults: bool) returns (log: seq<Command>, ending: Ending)
    requires file.position == 0
    modifies file`position
    ensures ending == Restored ==>
              Parsed(file.data, 0).Some? && Retried(log, Load(Parsed(file.data, 0).value, half, EMPTY_BATCH, 0))
    ensures ending == ReadFailed ==> Parsed(file.data, 0) == None
    ensures ending == ProposeFailed ==> faults
    ensures Parsed(file.data, 0).Some? ==> Among(log, Load(Parsed(file.data, 0).value, half, EMPTY_BATCH, 0))
  {
    hide Parsed, ReadFrame, DecodeCommand, Load, Tag, Collect, Clear, Among, Retried, Rest;
    var batch, last := EMPTY_BATCH, false;
    var estimate: nat := 0;
    var tried: seq<Command> := [];
    log := [];
    NothingTried();
    RestParsed(file.data, half);
    ghost var all := Rest(file.data, 0, half, EMPTY_BATCH, 0);
    while !last
      invariant file.position <= |file.data| && Retried(log, tried)
      invariant !last ==> Splits(all, tried, Rest(file.data, file.position, half, batch, estimate))
      invariant last ==> all == Some(tried)
      decreases !last, |file.data| - file.position
    {
      RestStep(file.data, file.position, half, batch, estimate);
      RetriedAmong(log, tried, Rest(file.data, file.position, half, batch, estimate));
      var r := file.Read(READ_BUFFER);
      if r.Broken? { return log, ReadFailed; }
      if r.EndOfFile? {
        last := true;
      } else {
        var cmd := Marshal.UnmarshalCommand(r.data);
        if cmd == None { return log, ReadFailed; }
        estimate := estimate + |r.data|;
        if estimate < half {
          batch := Collect(batch, cmd.value);
          continue;
        }
        batch := Tag(batch, cmd.value);
      }
      ghost var rest := if last then Some([]) else Rest(file.data, file.position, half, Clear(batch), 0);
      SplitsMore(all, tried, batch, rest);
      var accepted;
      log, accepted := TryPropose(log, tried, batch, faults);
      tried := tried + [batch];
      AmongAll(log, tried, rest);
      assert tried + [] == tried;
      if !accepted { return log, ProposeFailed; }
      batch, estimate := Clear(batch), 0;
    }
    RetriedAmong(log, tried, Some([]));
    assert tried + [] == tried;
    ending := Restored;
  }

  /** One proposal with its retries. */
  method TryPropose(log: seq<Command>, tried: seq<Command>, batch: Command, faults: bool)
    returns (log': seq<Command>, accepted: bool)
    requires Retried(log, tried)
    ensures accepted ==> Retried(log', tried + [batch])
    ensures Among(log', tried + [batch]) && (accepted || faults)
  {
    hide Among, Retried;
    var late := Late(tried + [batch]);
    RetriedMore(log, tried, late, batch);
    var final: bool := *;
    accepted := !(faults && final);
    log' := if accepted then log + late + [batch] else log + late;
  }

  /** The proposals still to come from a position on. */
  function Rest(data: Bytes, i: nat, half: nat, batch: Command, estimate: nat): (ps: Option<seq<Command>>)
    requires i <= |data|
  {
    match Parsed(data, i) case None => None case Some(items) => Some(Load(items, half, batch, estimate))
  }

  lemma RestParsed(data: Bytes, half: nat)
    ensures Rest(data, 0, half, EMPTY_BATCH, 0) ==
            match Parsed(data, 0) case None => None case Some(items) => Some(Load(items, half, EMPTY_BATCH, 0))
    ensures Splits(Rest(data, 0, half, EMPTY_BATCH, 0), [], Rest(data, 0, half, EMPTY_BATCH, 0))
  {
    hide Parsed, Load;
    var r := Rest(data, 0, half, EMPTY_BATCH, 0);
    if r.Some? { assert [] + r.value == r.value; }
  }

  /** All proposals are those made already and those still to come. */
  predicate Splits(all: Option<seq<Command>>, tried: seq<Command>, rest: Option<seq<Command>>)
  {
    (all.Some? <==> rest.Some?) && (all.Some? ==> all.value == tried + rest.value)
  }

  lemma SplitsMore(all: Option<seq<Command>>, tried: seq<Command>, p: Command, rest: Option<seq<Command>>)
    requires rest.Some? ==> Splits(all, tried, Some([p] + rest.value))
    requires rest.None? ==> Splits(all, tried, None)
    ensures Splits(all, tried + [p], rest)
  {
    if rest.Some? { assert tried + ([p] + rest.value) == tried + [p] + rest.value; }
  }

  lemma RestStep(data: Bytes, i: nat, half: nat, batch: Command, estimate: nat)
    requires i <= |data|
    ensures var rest := Rest(data, i, half, batch, estimate);
            match ReadFrame(data, i, READ_BUFFER)
            case EndOfFile => rest == Some([batch] + [])
            case Broken => rest == None
            case Record(d, next) =>
              match DecodeCommand(d)
              case None => rest == None
              case Some(c) =>
                if estimate + |d| < half then rest == Rest(data, next, half, Collect(batch, c), estimate + |d|)
                else
                  rest == match Rest(data, next, half, Clear(Tag(batch, c)), 0)
                          case None => None
                          case Some(ps) => Some([Tag(batch, c)] + ps)
  {
    hide Parsed, Load, ReadFrame, DecodeCommand, Tag, Collect, Clear;
    ParsedStep(data, i);
    match ReadFrame(data, i, READ_BUFFER)
    case EndOfFile =>
      LoadNothing(half, batch, estimate);
      assert [batch] + [] == [batch];
    case Broken =>
    case Record(d, next) =>
      var c, items := DecodeCommand(d), Parsed(data, next);
      if c.Some? && items.Some? { LoadStep(Item(c.value, |d|), items.value, half, batch, estimate); }
  }

  lemma RetriedAmong(log: seq<Command>, tried: seq<Command>, rest: Option<seq<Command>>)
    requires Retried(log, tried)
    ensures rest.Some? ==> Among(log, tried + rest.value)
  {
  }

  lemma AmongAll(log: seq<Command>, tried: seq<Command>, rest: Option<seq<Command>>)
    requires Among(log, tried)
    ensures rest.Some? ==> Among(log, tried + rest.value)
  {
  }

  lemma NothingTried()
    ensures Retried([], [])
  {
  }

  lemma LoadNothing(half: nat, batch: Command, estimate: nat)
    ensures Load([], half, batch, estimate) == [batch]
  {
  }

  lemma LoadStep(item: Item, rest: seq<Item>, half: nat, batch: Command, estimate: nat)
    ensures var c := item.command;
            Load([item] + rest, half, batch, estimate) ==
            if estimate + item.size < half then Load(rest, half, Collect(batch, c), estimate + item.size)
            else [Tag(batch, c)] + Load(rest, half, Clear(Tag(batch, c)), 0)
  {
    hide Tag, Collect, Clear;
    assert ([item] + rest)[1..] == rest;
  }

  // ---------- what the batches put into the table ----------

  /** The pairs that make it into a batch. */
  function Kept(items: seq<Item>, half: nat, estimate: nat): (kvs: seq<KeyValue>)
  {
    if items == [] then []
    else if estimate + items[0].size < half then
      [KvOf(items[0].command)] + Kept(items[1..], half, estimate + items[0].size)
    else Kept(items[1..], half, 0)
  }

  /** The estimate when all items are read. */
  function Estimate(items: seq<Item>, half: nat, estimate: nat): (n: nat)
  {
    if items == [] then estimate
    else Estimate(items[1..], half, if estimate + items[0].size < half then estimate + items[0].size else 0)
  }

  function TotalBytes(items: seq<Item>): (n: nat)
  {
    if items == [] then 0 else items[0].size + TotalBytes(items[1..])
  }

  lemma {:induction false} PutBatchConcat(m: UserMap, a: seq<KeyValue>, b: seq<KeyValue>)
    ensures PutBatch(m, a + b).0 == PutBatch(PutBatch(m, a).0, b).0
    decreases |b|
  {
    if b == [] {
      assert a + b == a;
    } else {
      assert (a + b)[..|a + b| - 1] == a + b[..|b| - 1];
      PutBatchConcat(m, a, b[..|b| - 1]);
    }
  }

  lemma ApplyBatch(m: UserMap, c: Command)
    requires c.kind == PUT_BATCH
    ensures Apply(m, c).Ok? && Apply(m, c).value.m == PutBatch(m, c.batch).0
  {
  }

  /** The pairs of a list of batches. */
  ghost function Pairs(cs: seq<Command>): (kvs: seq<KeyValue>)
  {
    if cs == [] then [] else cs[0].batch + Pairs(cs[1..])
  }

  lemma {:induction false} InPairs(cs: seq<Command>, kv: KeyValue)
    ensures kv in Pairs(cs) <==> exists c :: c in cs && kv in c.batch
    decreases |cs|
  {
    if cs != [] {
      InPairs(cs[1..], kv);
      assert cs == [cs[0]] + cs[1..];
    }
  }

  lemma {:induction false} BatchesApply(m: UserMap, cs: seq<Command>)
    requires forall c :: c in cs ==> c.kind == PUT_BATCH
    ensures ApplySequence(m, cs).Ok? && ApplySequence(m, cs).value.m == PutBatch(m, Pairs(cs)).0
    decreases |cs|
  {
    hide Apply, PutBatch;
    if cs == [] {
      NoBatch(m);
    } else {
      hide ApplySequence;
      var m' := PutBatch(m, cs[0].batch).0;
      assert cs == [cs[0]] + cs[1..];
      LoadFlush(m, cs[0], cs[1..]);
      BatchesApply(m', cs[1..]);
      PutBatchConcat(m, cs[0].batch, Pairs(cs[1..]));
    }
  }

  lemma {:induction false} LoadPairs(items: seq<Item>, half: nat, batch: Command, estimate: nat)
    ensures Pairs(Load(items, half, batch, estimate)) == batch.batch + Kept(items, half, estimate)
    decreases |items|
  {
    hide Load, Kept;
    KeptStep(items, half, estimate);
    if items == [] {
      LoadNothing(half, batch, estimate);
      assert [batch][1..] == [];
    } else {
      var rest, c, size := items[1..], items[0].command, estimate + items[0].size;
      assert [items[0]] + rest == items;
      LoadStep(items[0], rest, half, batch, estimate);
      if size < half {
        LoadPairs(rest, half, Collect(batch, c), size);
        assert batch.batch + [KvOf(c)] + Kept(rest, half, size) == batch.batch + ([KvOf(c)] + Kept(rest, half, size));
      } else {
        var ps := Load(rest, half, Clear(Tag(batch, c)), 0);
        LoadPairs(rest, half, Clear(Tag(batch, c)), 0);
        assert ([Tag(batch, c)] + ps)[1..] == ps;
        assert [] + Kept(rest, half, 0) == Kept(rest, half, 0);
      }
    }
  }

  /** Proposals are batches without nested commands, so they survive their encoding. */
  predicate Plain(c: Command)
  {
    c.kind == PUT_BATCH && c.txn == None && c.sequence == []
  }

  lemma {:induction false} LoadPlain(items: seq<Item>, half: nat, batch: Command, estimate: nat)
    requires Plain(batch)
    ensures forall p :: p in Load(items, half, batch, estimate) ==> Plain(p)
    decreases |items|
  {
    hide Load;
    if items == [] {
      LoadNothing(half, batch, estimate);
    } else {
      var rest, c := items[1..], items[0].command;
      assert [items[0]] + rest == items;
      LoadStep(items[0], rest, half, batch, estimate);
      LoadPlain(rest, half, Collect(batch, c), estimate + items[0].size);
      LoadPlain(rest, half, Clear(Tag(batch, c)), 0);
    }
  }

  /** The proposals together put exactly the kept pairs. */
  lemma LoadApplies(items: seq<Item>, half: nat)
    ensures ApplySequence(map[], Load(items, half, EMPTY_BATCH, 0)).Ok?
    ensures ApplySequence(map[], Load(items, half, EMPTY_BATCH, 0)).value.m == PutBatch(map[], Kept(items, half, 0)).0
  {
    hide ApplySequence, PutBatch, Load, Kept;
    LoadPlain(items, half, EMPTY_BATCH, 0);
    BatchesApply(map[], Load(items, half, EMPTY_BATCH, 0));
    LoadPairs(items, half, EMPTY_BATCH, 0);
    assert EMPTY_BATCH.batch + Kept(items, half, 0) == Kept(items, half, 0);
  }

  lemma KeptStep(items: seq<Item>, half: nat, estimate: nat)
    ensures Kept(items, half, estimate) ==
            if items == [] then []
            else if estimate + items[0].size < half then
              [KvOf(items[0].command)] + Kept(items[1..], half, estimate + items[0].size)
            else Kept(items[1..], half, 0)
  {
  }

  lemma LoadFlush(m: UserMap, flushed: Command, rest: seq<Command>)
    requires flushed.kind == PUT_BATCH
    ensures var m' := PutBatch(m, flushed.batch).0;
            && (ApplySequence(m, [flushed] + rest).Ok? <==> ApplySequence(m', rest).Ok?)
            && (ApplySequence(m', rest).Ok? ==>
                  ApplySequence(m, [flushed] + rest).value.m == ApplySequence(m', rest).value.m)
  {
    hide Apply, ApplySequence, PutBatch;
    ApplyBatch(m, flushed);
    Replay.FirstCommand(m, flushed, rest);
  }

  function Kvs(items: seq<Item>): (kvs: seq<KeyValue>)
    ensures |kvs| == |items| && forall i :: 0 <= i < |items| ==> kvs[i] == KvOf(items[i].command)
  {
    seq(|items|, i requires 0 <= i < |items| => KvOf(items[i].command))
  }

  lemma {:induction false} KeptWhenSmall(items: seq<Item>, half: nat, estimate: nat)
    requires estimate + TotalBytes(items) < half
    ensures Kept(items, half, estimate) == Kvs(items)
    ensures Estimate(items, half, estimate) == estimate + TotalBytes(items)
    decreases |items|
  {
    if items != [] {
      KeptWhenSmall(items[1..], half, estimate + items[0].size);
    }
  }

  lemma {:induction false} KeptAreItems(items: seq<Item>, half: nat, estimate: nat)
    ensures forall kv :: kv in Kept(items, half, estimate) ==> kv in Kvs(items)
    decreases |items|
  {
    if items != [] {
      KeptAreItems(items[1..], half, estimate + items[0].size);
      KeptAreItems(items[1..], half, 0);
      assert Kvs(items) == [KvOf(items[0].command)] + Kvs(items[1..]);
    }
  }

  predicate DistinctKeys(items: seq<Item>)
  {
    forall i, j :: 0 <= i < j < |items| ==> KvOf(items[i].command).key != KvOf(items[j].command).key
  }

  predicate HasKey(kvs: seq<KeyValue>, k: Bytes)
  {
    exists i :: 0 <= i < |kvs| && kvs[i].key == k
  }

  lemma HasKeyFirst(kv: KeyValue, kvs: seq<KeyValue>, k: Bytes)
    ensures HasKey([kv] + kvs, k) <==> kv.key == k || HasKey(kvs, k)
  {
    var all := [kv] + kvs;
    assert all[0] == kv && forall i :: 0 < i < |all| ==> all[i] == kvs[i - 1];
    if HasKey(kvs, k) {
      var i :| 0 <= i < |kvs| && kvs[i].key == k;
      assert all[i + 1].key == k;
    }
  }

  lemma FirstLost(items: seq<Item>, half: nat)
    requires items != [] && DistinctKeys(items)
    ensures !HasKey(Kept(items[1..], half, 0), KvOf(items[0].command).key)
  {
    hide Kept, KvOf;
    var rest := items[1..];
    KeptAreItems(rest, half, 0);
    var kvs := Kept(rest, half, 0);
    forall j | 0 <= j < |kvs| ensures kvs[j].key != KvOf(items[0].command).key {
      assert kvs[j] in Kvs(rest);
      var l :| 0 <= l < |rest| && Kvs(rest)[l] == kvs[j];
      assert rest[l] == items[l + 1];
    }
  }

  /** As soon as the estimate reaches `half` a key is lost. */
  lemma {:induction false} KeyLost(items: seq<Item>, half: nat, estimate: nat) returns (i: nat)
    requires items != [] && DistinctKeys(items)
    requires estimate + TotalBytes(items) >= half && (estimate < half || half == 0)
    ensures i < |items| && !HasKey(Kept(items, half, estimate), KvOf(items[i].command).key)
    decreases |items|
  {
    hide Kept, HasKey, KvOf;
    KeptStep(items, half, estimate);
    var rest, size := items[1..], estimate + items[0].size;
    if size < half {
      i := KeyLost(rest, half, size);
      HasKeyFirst(KvOf(items[0].command), Kept(rest, half, size), KvOf(rest[i].command).key);
      i := i + 1;
    } else {
      i := 0;
      FirstLost(items, half);
    }
  }

  lemma {:induction false} KeptMore(items: seq<Item>, item: Item, half: nat, estimate: nat)
    ensures Kept(items + [item], half, estimate) ==
            Kept(items, half, estimate) +
            if Estimate(items, half, estimate) + item.size < half then [KvOf(item.command)] else []
    decreases |items|
  {
    if items == [] {
      assert [item][1..] == [] && items + [item] == [item];
    } else {
      assert (items + [item])[1..] == items[1..] + [item];
      KeptMore(items[1..], item, half, if estimate + items[0].size < half then estimate + items[0].size else 0);
    }
  }

  lemma {:induction false} PutBatchLookup(kvs: seq<KeyValue>, k: Bytes)
    ensures k in PutBatch(map[], kvs).0 <==> HasKey(kvs, k)
    ensures k in PutBatch(map[], kvs).0 ==>
              exists i :: 0 <= i < |kvs| && kvs[i].key == k && kvs[i].value == PutBatch(map[], kvs).0[k]
    decreases |kvs|
  {
    if kvs != [] {
      var front := kvs[..|kvs| - 1];
      PutBatchLookup(front, k);
      assert kvs == front + [kvs[|kvs| - 1]];
    }
  }

  // ---------- snapshot, then restore ----------

  function ItemsOf(cs: seq<Command>): (items: seq<Item>)
    ensures |items| == |cs| && forall i :: 0 <= i < |cs| ==> items[i] == Item(cs[i], |EncodeCommand(cs[i])|)
  {
    seq(|cs|, i requires 0 <= i < |cs| => Item(cs[i], |EncodeCommand(cs[i])|))
  }

  lemma ItemsMore(cs: seq<Command>, c: Command)
    ensures ItemsOf(cs + [c]) == ItemsOf(cs) + [Item(c, |EncodeCommand(c)|)]
  {
    hide EncodeCommand;
  }

  /** The proposals of a restore. */
  ghost function RestoreProposals(table: Bytes, m: UserMap, index: uint64, half: nat): (ps: seq<Command>)
  {
    Load(ItemsOf(WholeSnapshot(table, m, index)), half, EMPTY_BATCH, 0)
  }

  /** The table a restore builds. */
  ghost function Rebuilt(table: Bytes, m: UserMap, index: uint64, half: nat): (r: Outcome<Effect>)
  {
    ApplySequence(map[], RestoreProposals(table, m, index, half))
  }

  ghost predicate SameButEmpty(a: UserMap, b: UserMap)
  {
    forall k :: k != [] ==> Replay.Get(a, k) == Replay.Get(b, k)
  }

  lemma RebuiltPairs(table: Bytes, m: UserMap, index: uint64, half: nat)
    ensures var kept := Kept(ItemsOf(Records(table, m)), half, 0);
            Rebuilt(table, m, index, half).Ok? &&
            (Rebuilt(table, m, index, half).value.m == PutBatch(map[], kept).0 ||
             Rebuilt(table, m, index, half).value.m == PutBatch(map[], kept + [Codec.EMPTY_KV]).0)
  {
    hide EncodeCommand, Kept, Load, Records, PutBatch, ApplySequence;
    var rs, mark := Records(table, m), Marker(table, index);
    ItemsMore(rs, mark);
    var items := ItemsOf(rs);
    KeptMore(items, Item(mark, |EncodeCommand(mark)|), half, 0);
    LoadApplies(ItemsOf(rs + [mark]), half);
    assert Kept(items, half, 0) + [] == Kept(items, half, 0);
  }

  lemma RecordKeys(table: Bytes, m: UserMap)
    ensures var items := ItemsOf(Records(table, m));
            && |items| == |Names(m)|
            && DistinctKeys(items)
            && forall i :: 0 <= i < |items| ==> KvOf(items[i].command) == Pair(Names(m)[i], m[Names(m)[i]])
  {
    hide EncodeCommand, Names, Less;
    var items, ks := ItemsOf(Records(table, m)), Names(m);
    forall i, j | 0 <= i < j < |items| ensures KvOf(items[i].command).key != KvOf(items[j].command).key {
      LessTotal(ks[i], ks[j]);
    }
  }

  /** The empty pair of the marker touches no other key. */
  lemma MarkerHarmless(kept: seq<KeyValue>, k: Bytes)
    requires k != []
    ensures Replay.Get(PutBatch(map[], kept + [Codec.EMPTY_KV]).0, k) == Replay.Get(PutBatch(map[], kept).0, k)
  {
    var all := kept + [Codec.EMPTY_KV];
    assert all[..|all| - 1] == kept && all[|all| - 1] == Codec.EMPTY_KV;
  }

  lemma AllRecordsKept(table: Bytes, m: UserMap, k: Bytes)
    requires k != []
    ensures Replay.Get(PutBatch(map[], Kvs(ItemsOf(Records(table, m)))).0, k) == Replay.Get(m, k)
  {
    hide EncodeCommand, Names, PutBatch, Records;
    var kvs, ks := Kvs(ItemsOf(Records(table, m))), Names(m);
    RecordKeys(table, m);
    PutBatchLookup(kvs, k);
    if k in m {
      var i :| 0 <= i < |ks| && ks[i] == k;
      assert kvs[i].key == k;
    }
  }

  /** A restore rebuilds every pair with a non-empty key exactly when the records together stay
      below the limit: from the first flush on a record is missing. */
  lemma RestoreExact(table: Bytes, m: UserMap, index: uint64, half: nat)
    ensures Rebuilt(table, m, index, half).Ok?
    ensures var items := ItemsOf(Records(table, m));
            SameButEmpty(Rebuilt(table, m, index, half).value.m, m) <==> items == [] || TotalBytes(items) < half
  {
    hide EncodeCommand, Names, PutBatch, Records, Rebuilt, TotalBytes, Kept;
    var items := ItemsOf(Records(table, m));
    var kept := Kept(items, half, 0);
    RebuiltPairs(table, m, index, half);
    var r := Rebuilt(table, m, index, half).value.m;
    forall k | k != [] ensures Replay.Get(r, k) == Replay.Get(PutBatch(map[], kept).0, k) { MarkerHarmless(kept, k); }
    if items == [] || TotalBytes(items) < half {
      KeptOfNothing(half);
      if items != [] { KeptWhenSmall(items, half, 0); }
      forall k | k != [] ensures Replay.Get(r, k) == Replay.Get(m, k) { AllRecordsKept(table, m, k); }
    } else {
      RecordKeys(table, m);
      var i := KeyLost(items, half, 0);
      var k := KvOf(items[i].command).key;
      PutBatchLookup(kept, k);
      assert k in Names(m);
      assert Replay.Get(r, k) != Replay.Get(m, k);
    }
  }

  lemma KeptOfNothing(half: nat)
    ensures Kept([], half, 0) == Kvs([])
  {
  }

  // ---------- the records as commands ----------

  lemma {:induction false} RecordsPut(table: Bytes, m: UserMap, ks: seq<Bytes>, acc: UserMap)
    requires forall k :: k in ks ==> k in m
    ensures ApplySequence(acc, RecordsOf(table, m, ks)).Ok?
    ensures forall k :: Replay.Get(ApplySequence(acc, RecordsOf(table, m, ks)).value.m, k) ==
                        if k in ks then Some(m[k]) else Replay.Get(acc, k)
    decreases |ks|
  {
    if ks != [] {
      var cs, acc' := RecordsOf(table, m, ks), acc[ks[0] := m[ks[0]]];
      assert cs[1..] == RecordsOf(table, m, ks[1..]);
      assert Apply(acc, cs[0]).Ok? && Apply(acc, cs[0]).value.m == acc';
      hide Apply, RecordsOf;
      RecordsPut(table, m, ks[1..], acc');
      assert forall k :: k in ks <==> k == ks[0] || k in ks[1..];
    }
  }

  /** A snapshot is a log: applied to an empty table, its commands rebuild the table, its empty key
      aside. */
  lemma RecordsRebuild(table: Bytes, m: UserMap, index: uint64)
    ensures var r := ApplySequence(map[], WholeSnapshot(table, m, index));
            r.Ok? && forall k :: Replay.Get(r.value.m, k) == if k == [] then None else Replay.Get(m, k)
  {
    var none: UserMap := map[];
    RecordsPut(table, m, Names(m), none);
    var all := ApplySequence(none, Records(table, m)).value;
    assert Apply(all.m, Marker(table, index)) == Ok(Effect(all.m, true, []));
    hide Apply, ApplySequence, Names, RecordsOf, Marker;
    Replay.SequenceConcat(none, Records(table, m), [Marker(table, index)]);
    Replay.FirstCommand(all.m, Marker(table, index), []);
    assert [Marker(table, index)] + [] == [Marker(table, index)];
  }

  // ---------- from the stream to the proposals ----------

  ghost predicate ReadsBack(c: Command)
  {
    DecodeCommand(EncodeCommand(c)) == Some(c) && EncodeCommand(c) != []
  }

  /** No record is larger than the buffer it is read into. */
  ghost predicate Readable(cs: seq<Command>)
  {
    forall c :: c in cs ==> |EncodeCommand(c)| <= 4 * 1024 * 1024
  }

  lemma {:induction false} ItemsDecode(cs: seq<Command>)
    requires forall c :: c in cs ==> ReadsBack(c)
    ensures DecodeItems(EncodeAll(cs)) == Some(ItemsOf(cs))
    decreases |cs|
  {
    hide DecodeCommand, EncodeCommand;
    if cs != [] {
      assert ReadsBack(cs[0]);
      ItemsDecode(cs[1..]);
      assert EncodeAll(cs)[1..] == EncodeAll(cs[1..]);
      assert ItemsOf(cs) == [Item(cs[0], |EncodeCommand(cs[0])|)] + ItemsOf(cs[1..]);
    }
  }

  lemma StreamReadBack(chunks: seq<Bytes>, cs: seq<Command>)
    requires Holds(Flatten(chunks), cs) && forall c :: c in cs ==> ReadsBack(c)
    ensures Parsed(Flatten(chunks), 0) == if Readable(cs) then Some(ItemsOf(cs)) else None
  {
    hide EncodeCommand, DecodeCommand, DecodeItems, Frames, ReadAll;
    forall r | r in EncodeAll(cs) ensures |r| > 0 && (Readable(cs) ==> |r| <= READ_BUFFER) {
      var i :| 0 <= i < |cs| && EncodeAll(cs)[i] == r;
      assert ReadsBack(cs[i]);
    }
    if !Readable(cs) {
      var i :| 0 <= i < |cs| && |EncodeCommand(cs[i])| > READ_BUFFER;
      assert EncodeAll(cs)[i] in EncodeAll(cs);
    }
    FramingRoundTrip(EncodeAll(cs), chunks, READ_BUFFER);
    ItemsDecode(cs);
  }

  lemma SnapshotReadsBack(data: Bytes, table: Bytes, m: UserMap, index: uint64)
    requires Holds(data, WholeSnapshot(table, m, index))
    ensures forall c :: c in WholeSnapshot(table, m, index) ==> ReadsBack(c)
  {
    hide EncodeCommand, DecodeCommand, Names, SizeCommand, ReadsBack, Frames;
    var cs := WholeSnapshot(table, m, index);
    forall c | c in cs ensures ReadsBack(c) {
      var i :| 0 <= i < |cs| && cs[i] == c;
      assert EncodeAll(cs)[i] in EncodeAll(cs);
      PlainReadsBack(c);
    }
  }

  lemma PlainReadsBack(c: Command)
    requires c.txn == None && c.sequence == [] && (c.kv.Some? || c.kind != 0)
    requires |EncodeCommand(c)| < Wire.TWO_63
    ensures ReadsBack(c)
  {
    hide EncodeCommand, DecodeCommand;
    CommandSize(c);
    CommandRoundTrip(c);
  }

  /** The follower's `recover`: receive the stream, then load it. What reaches the log of the new
      table are the proposals of the table the leader took the snapshot of. Without faults the
      table is restored if and only if no record is larger than the buffer it is read into. */
  method Recover(chunks: seq<Bytes>, half: nat, faults: bool, ghost table: Bytes, ghost m: UserMap, ghost index: uint64)
    returns (log: seq<Command>, ending: Ending)
    requires Holds(Flatten(chunks), WholeSnapshot(table, m, index))
    ensures Readable(WholeSnapshot(table, m, index)) ==>
              ending != ReadFailed && Among(log, RestoreProposals(table, m, index, half))
    ensures !faults ==> (ending == Restored <==> Readable(WholeSnapshot(table, m, index)))
    ensures ending == Restored ==>
              Readable(WholeSnapshot(table, m, index)) && Retried(log, RestoreProposals(table, m, index, half))
  {
    hide Holds, WholeSnapshot, Load, Parsed, ReadsBack, SizeCommand, Marker, Readable;
    SnapshotReadsBack(Flatten(chunks), table, m, index);
    StreamReadBack(chunks, WholeSnapshot(table, m, index));
    var data := ReceiveChunks(chunks);
    var file := new SnapshotFile(data);
    log, ending := ReadIntoTable(file, half, faults);
  }
}
