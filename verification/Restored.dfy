/** The new table of a restore, once the proposals are in its log: retried proposals may be there
    several times and late, and the state machine groups the entries as it likes. */
module Restored {
  import opened ByteStrings
  import opened Messages
  import opened CommandCodec
  import opened Lists
  import opened Table
  import opened Snapshot
  import opened Restore
  import Codec
  import Replay
  import Update
  import Varint
  import Wire

  const FRESH := Update.State(map[], 0, 0)

  // ---------- retried proposals ----------

  /** One value per key. */
  ghost predicate Functional(kvs: seq<KeyValue>)
  {
    forall a, b :: a in kvs && b in kvs && a.key == b.key ==> a.value == b.value
  }

  /** The order and the number of puts do not matter when every key has one value. */
  lemma SamePairs(a: seq<KeyValue>, b: seq<KeyValue>)
    requires Functional(a) && forall kv :: kv in a <==> kv in b
    ensures PutBatch(map[], a).0 == PutBatch(map[], b).0
  {
    hide PutBatch, HasKey;
    var ma, mb := PutBatch(map[], a).0, PutBatch(map[], b).0;
    forall k ensures Replay.Get(ma, k) == Replay.Get(mb, k) {
      PutBatchLookup(a, k);
      PutBatchLookup(b, k);
      SameKeys(a, b, k);
      if k in ma {
        var i :| 0 <= i < |a| && a[i].key == k && a[i].value == ma[k];
        var j :| 0 <= j < |b| && b[j].key == k && b[j].value == mb[k];
        assert a[i] in a && b[j] in b;
      }
    }
    Replay.SameByGet(ma, mb);
  }

  lemma SameKeys(a: seq<KeyValue>, b: seq<KeyValue>, k: Bytes)
    requires forall kv :: kv in a <==> kv in b
    ensures HasKey(a, k) <==> HasKey(b, k)
  {
    if HasKey(a, k) {
      var i :| 0 <= i < |a| && a[i].key == k;
      assert a[i] in b;
    }
    if HasKey(b, k) {
      var i :| 0 <= i < |b| && b[i].key == k;
      assert b[i] in a;
    }
  }

  lemma SnapshotFunctional(table: Bytes, m: UserMap, index: uint64)
    ensures Functional(Kvs(ItemsOf(WholeSnapshot(table, m, index))))
  {
    hide EncodeCommand, Names, Records;
    var rs, mark := Records(table, m), Marker(table, index);
    ItemsMore(rs, mark);
    RecordKeys(table, m);
    var kvs, ks := Kvs(ItemsOf(WholeSnapshot(table, m, index))), Names(m);
    forall kv | kv in kvs ensures kv.value == if kv.key in m && kv.key != [] then m[kv.key] else [] {
      var i :| 0 <= i < |kvs| && kvs[i] == kv;
      if i < |ks| { assert ks[i] in ks; }
    }
  }

  /** A log with every proposal of a restore in it, and nothing else, builds the same table. */
  lemma RetriedApplies(cs: seq<Command>, table: Bytes, m: UserMap, index: uint64, half: nat)
    requires Retried(cs, RestoreProposals(table, m, index, half))
    ensures ApplySequence(map[], cs).Ok? && Rebuilt(table, m, index, half).Ok?
    ensures ApplySequence(map[], cs).value.m == Rebuilt(table, m, index, half).value.m
    ensures forall c :: c in cs ==> Plain(c)
  {
    hide ApplySequence, PutBatch, Load, Kept, WholeSnapshot, ItemsOf, Kvs, Pairs;
    var items, ps := ItemsOf(WholeSnapshot(table, m, index)), RestoreProposals(table, m, index, half);
    LoadPlain(items, half, EMPTY_BATCH, 0);
    BatchesApply(map[], ps);
    BatchesApply(map[], cs);
    forall kv ensures kv in Pairs(ps) <==> kv in Pairs(cs) {
      InPairs(ps, kv);
      InPairs(cs, kv);
    }
    LoadPairs(items, half, EMPTY_BATCH, 0);
    KeptAreItems(items, half, 0);
    SnapshotFunctional(table, m, index);
    SamePairs(Pairs(ps), Pairs(cs));
  }

  // ---------- the log of the new table ----------

  /** Log entries holding these commands, at any indexes. */
  ghost predicate Proposed(es: seq<Update.Entry>, cs: seq<Command>)
  {
    |es| == |cs| && forall i :: 0 <= i < |es| ==> es[i].cmd == EncodeCommand(cs[i]) && SizeCommand(cs[i]) < Wire.TWO_63
  }

  lemma PlainRoundTrip(p: Command)
    requires Plain(p) && SizeCommand(p) < Wire.TWO_63
    ensures DecodeCommand(EncodeCommand(p)) == Some(p)
  {
    hide DecodeCommand, EncodeCommand, SizeCommand;
    CommandRoundTrip(p);
  }

  lemma ProposedCarries(es: seq<Update.Entry>, cs: seq<Command>)
    requires Proposed(es, cs) && forall c :: c in cs ==> Plain(c)
    ensures Update.Carries(es, cs)
  {
    hide DecodeCommand, EncodeCommand, SizeCommand, Plain;
    forall i | 0 <= i < |es| ensures DecodeCommand(es[i].cmd) == Some(cs[i]) { PlainRoundTrip(cs[i]); }
  }

  /** The log of a table that is restored from a snapshot. */
  ghost predicate RestoreLog(es: seq<Update.Entry>, cs: seq<Command>, table: Bytes, m: UserMap, index: uint64,
                             half: nat)
  {
    Proposed(es, cs) && Retried(cs, RestoreProposals(table, m, index, half))
  }

  lemma RestoreRuns(es: seq<Update.Entry>, cs: seq<Command>, table: Bytes, m: UserMap, index: uint64, half: nat)
    requires RestoreLog(es, cs, table, m, index, half)
    ensures es != [] && Update.Run(map[], es).Ok? && Rebuilt(table, m, index, half).Ok?
    ensures Update.Run(map[], es).value.0 == Rebuilt(table, m, index, half).value.m
    ensures Update.Carries(es, cs)
  {
    hide EncodeCommand, DecodeCommand, SizeCommand, Load, WholeSnapshot, ApplySequence, Update.Run, ItemsOf, Plain,
      Rebuilt;
    RetriedApplies(cs, table, m, index, half);
    ProposedCarries(es, cs);
    Update.RunIsSequence(map[], es, cs);
    assert RestoreProposals(table, m, index, half)[0] in cs;
  }

  /** However the state machine groups the entries, the new table holds the same pairs with
      non-empty keys as the snapshot exactly when the records stay below the limit. */
  lemma RestoredTable(calls: seq<seq<Update.Entry>>, cs: seq<Command>, table: Bytes, m: UserMap, index: uint64,
                      half: nat)
    requires RestoreLog(Flatten(calls), cs, table, m, index, half) && Update.NonEmpty(calls)
    ensures Update.NextCalls(FRESH, calls).Ok?
    ensures var items := ItemsOf(Records(table, m));
            SameButEmpty(Update.NextCalls(FRESH, calls).value.users, m) <==> items == [] || TotalBytes(items) < half
  {
    hide RestoreLog, Rebuilt, SameButEmpty, Update.Run, Update.NextCalls, ItemsOf, Records, TotalBytes, Load;
    RestoreRuns(Flatten(calls), cs, table, m, index, half);
    Update.CallsAgree(FRESH, calls);
    RestoreExact(table, m, index, half);
  }

  // ---------- the leader index ----------

  /** The last proposal carries the leader index of the last record, unless that record is the
      one that flushes: then the index is on the proposal before. No other proposal carries one. */
  lemma {:induction false} LoadLeader(items: seq<Item>, half: nat, batch: Command, estimate: nat)
    requires items != [] && forall i :: 0 <= i < |items| - 1 ==> items[i].command.leaderIndex == None
    ensures var ps, n := Load(items, half, batch, estimate), |items| - 1;
            var last := items[n];
            if Estimate(items[..n], half, estimate) + last.size < half then
              ps[|ps| - 1].leaderIndex == last.command.leaderIndex && NoLeaders(ps[..|ps| - 1])
            else
              |ps| >= 2 && ps[|ps| - 1].leaderIndex == None && ps[|ps| - 2].leaderIndex == last.command.leaderIndex &&
              NoLeaders(ps[..|ps| - 2])
    decreases |items|
  {
    hide Load, Estimate;
    var rest, c, size := items[1..], items[0].command, estimate + items[0].size;
    assert [items[0]] + rest == items;
    LoadStep(items[0], rest, half, batch, estimate);
    EstimateStep(items[..|items| - 1], half, estimate);
    if rest == [] {
      LoadNothing(half, Collect(batch, c), size);
      LoadNothing(half, Clear(Tag(batch, c)), 0);
    } else {
      assert items[..|items| - 1][1..] == rest[..|rest| - 1];
      if size < half {
        LoadLeader(rest, half, Collect(batch, c), size);
      } else {
        LoadLeader(rest, half, Clear(Tag(batch, c)), 0);
        FlushedFirst(Tag(batch, c), Load(rest, half, Clear(Tag(batch, c)), 0));
      }
    }
  }

  ghost predicate NoLeaders(cs: seq<Command>)
  {
    forall i :: 0 <= i < |cs| ==> cs[i].leaderIndex == None
  }

  lemma FlushedFirst(p: Command, ps: seq<Command>)
    requires p.leaderIndex == None && ps != []
    ensures var all := [p] + ps;
            && all[|all| - 1] == ps[|ps| - 1] && (NoLeaders(ps[..|ps| - 1]) ==> NoLeaders(all[..|all| - 1]))
            && (|ps| >= 2 ==> all[|all| - 2] == ps[|ps| - 2])
            && (|ps| >= 2 && NoLeaders(ps[..|ps| - 2]) ==> NoLeaders(all[..|all| - 2]))
  {
    var all := [p] + ps;
    assert forall i :: 0 < i < |all| ==> all[i] == ps[i - 1];
  }

  lemma EstimateStep(items: seq<Item>, half: nat, estimate: nat)
    ensures Estimate(items, half, estimate) ==
            if items == [] then estimate
            else Estimate(items[1..], half, if estimate + items[0].size < half then estimate + items[0].size else 0)
  {
  }

  ghost predicate MarkerFits(table: Bytes, m: UserMap, index: uint64, half: nat)
  {
    Estimate(ItemsOf(Records(table, m)), half, 0) + |EncodeCommand(Marker(table, index))| < half
  }

  /** The proposal that carries the marker's index is the last one or the one before it. */
  lemma MarkerPlace(table: Bytes, m: UserMap, index: uint64, half: nat)
    ensures var ps := RestoreProposals(table, m, index, half);
            if MarkerFits(table, m, index, half) then
              ps[|ps| - 1].leaderIndex == Some(index) && NoLeaders(ps[..|ps| - 1])
            else
              |ps| >= 2 && ps[|ps| - 1].leaderIndex == None && ps[|ps| - 2].leaderIndex == Some(index) &&
              NoLeaders(ps[..|ps| - 2])
  {
    hide Load, Estimate, EncodeCommand, NoLeaders, Names;
    var rs, mark := Records(table, m), Marker(table, index);
    ItemsMore(rs, mark);
    var items := ItemsOf(rs) + [Item(mark, |EncodeCommand(mark)|)];
    assert items[..|items| - 1] == ItemsOf(rs);
    LoadLeader(items, half, EMPTY_BATCH, 0);
  }

  lemma CarriedLeaders(cs: seq<Command>, table: Bytes, m: UserMap, index: uint64, half: nat, c: Command)
    requires Retried(cs, RestoreProposals(table, m, index, half)) && c in cs
    ensures c.leaderIndex == None || c.leaderIndex == Some(index)
  {
    hide Load, WholeSnapshot, ItemsOf, MarkerFits;
    var ps := RestoreProposals(table, m, index, half);
    MarkerPlace(table, m, index, half);
    var i :| 0 <= i < |ps| && ps[i] == c;
  }

  /** With retries and late attempts, the new table ends up with the snapshot's index when some
      call ends with an entry that carries it, and with zero otherwise. */
  lemma RestoredIndex(calls: seq<seq<Update.Entry>>, cs: seq<Command>, table: Bytes, m: UserMap, index: uint64,
                      half: nat)
    requires RestoreLog(Flatten(calls), cs, table, m, index, half) && Update.NonEmpty(calls)
    ensures Update.NextCalls(FRESH, calls).Ok?
    ensures Update.NextCalls(FRESH, calls).value.leaderIndex ==
            if exists i :: 0 <= i < |calls| && Update.LastLeader(calls[i]) == Some(index) then index else 0
  {
    hide Rebuilt, Update.Run, Update.NextCalls, RestoreProposals, EncodeCommand, SizeCommand, DecodeCommand, Retried,
      Update.LastLeader;
    RestoreRuns(Flatten(calls), cs, table, m, index, half);
    Update.CallsAgree(FRESH, calls);
    Update.StoredLeader(FRESH, calls);
    forall i | 0 <= i < |calls|
      ensures Update.LastLeader(calls[i]) == None || Update.LastLeader(calls[i]) == Some(index)
    {
      EndOfCall(calls, cs, i);
      var c :| c in cs && Update.LastLeader(calls[i]) == c.leaderIndex;
      CarriedLeaders(cs, table, m, index, half, c);
    }
    StoredOne(calls, index);
  }

  lemma {:induction false} StoredOne(calls: seq<seq<Update.Entry>>, index: uint64)
    requires forall i :: 0 <= i < |calls| ==>
               Update.LastLeader(calls[i]) == None || Update.LastLeader(calls[i]) == Some(index)
    ensures Update.LastStored(calls) ==
            if exists i :: 0 <= i < |calls| && Update.LastLeader(calls[i]) == Some(index) then Some(index) else None
    decreases |calls|
  {
    hide Update.LastLeader;
    if calls != [] {
      var front := calls[..|calls| - 1];
      StoredOne(front, index);
      assert forall i :: 0 <= i < |front| ==> front[i] == calls[i];
    }
  }

  lemma {:induction false} EndOfCall(calls: seq<seq<Update.Entry>>, cs: seq<Command>, i: nat)
    requires Update.NonEmpty(calls) && Update.Carries(Flatten(calls), cs) && i < |calls|
    ensures exists c :: c in cs && Update.LastLeader(calls[i]) == c.leaderIndex
    decreases |calls|
  {
    hide DecodeCommand;
    FlattenFront(calls);
    var front, last := calls[..|calls| - 1], calls[|calls| - 1];
    var n := |Flatten(front)|;
    if i < |front| {
      assert Flatten(front) == Flatten(calls)[..n];
      EndOfCall(front, cs[..n], i);
      var c :| c in cs[..n] && Update.LastLeader(front[i]) == c.leaderIndex;
      assert c in cs;
    } else {
      var e := last[|last| - 1];
      assert Flatten(calls)[n + |last| - 1] == e;
      assert cs[n + |last| - 1] in cs;
    }
  }

  /** Without retries: the index stays if the marker fits into a batch, or the last proposal is in
      a call of its own, and is lost otherwise. */
  lemma RestoredIndexExact(calls: seq<seq<Update.Entry>>, table: Bytes, m: UserMap, index: uint64, half: nat)
    requires Proposed(Flatten(calls), RestoreProposals(table, m, index, half)) && Update.NonEmpty(calls)
    ensures calls != [] && Update.NextCalls(FRESH, calls).Ok?
    ensures Update.NextCalls(FRESH, calls).value.leaderIndex ==
            if MarkerFits(table, m, index, half) || |calls[|calls| - 1]| == 1 then index else 0
  {
    hide Rebuilt, Update.Run, Update.NextCalls, RestoreProposals, EncodeCommand, SizeCommand, DecodeCommand,
      MarkerFits;
    var es, ps := Flatten(calls), RestoreProposals(table, m, index, half);
    RestoreRuns(es, ps, table, m, index, half);
    Update.CallsAgree(FRESH, calls);
    Update.StoredLeader(FRESH, calls);
    MarkerPlace(table, m, index, half);
    FlattenNothing<Update.Entry>();
    FlattenFront(calls);
    var front, last := calls[..|calls| - 1], calls[|calls| - 1];
    assert last[|last| - 1] == es[|es| - 1];
    assert Update.LastLeader(last) == ps[|ps| - 1].leaderIndex;
    if !MarkerFits(table, m, index, half) {
      if |last| == 1 {
        PenultimateStored(front, ps[..|ps| - 1]);
      } else {
        NothingStored(front, ps[..|es| - |last|]);
      }
    }
  }

  lemma PenultimateStored(calls: seq<seq<Update.Entry>>, cs: seq<Command>)
    requires Update.NonEmpty(calls) && Update.Carries(Flatten(calls), cs) && cs != [] && cs[|cs| - 1].leaderIndex.Some?
    ensures Update.LastStored(calls) == cs[|cs| - 1].leaderIndex
  {
    hide DecodeCommand;
    FlattenNothing<Update.Entry>();
    FlattenFront(calls);
    var last := calls[|calls| - 1];
    assert last[|last| - 1] == Flatten(calls)[|cs| - 1];
  }

  lemma {:induction false} NothingStored(calls: seq<seq<Update.Entry>>, cs: seq<Command>)
    requires Update.NonEmpty(calls) && Update.Carries(Flatten(calls), cs) && NoLeaders(cs)
    ensures Update.LastStored(calls) == None
    decreases |calls|
  {
    hide DecodeCommand;
    if calls != [] {
      FlattenFront(calls);
      var front, last := calls[..|calls| - 1], calls[|calls| - 1];
      var n := |Flatten(front)|;
      assert last[|last| - 1] == Flatten(calls)[|cs| - 1];
      assert Flatten(front) == Flatten(calls)[..n];
      NothingStored(front, cs[..n]);
    }
  }

  // ---------- small snapshots ----------

  /** When the whole snapshot stays below the limit there is one proposal, and however often it is
      tried and however its entries are grouped, the new table is the old one with its index; the
      marker leaves an empty key behind. */
  lemma SmallRestore(calls: seq<seq<Update.Entry>>, cs: seq<Command>, table: Bytes, m: UserMap, index: uint64,
                     half: nat)
    requires RestoreLog(Flatten(calls), cs, table, m, index, half) && Update.NonEmpty(calls)
    requires TotalBytes(ItemsOf(WholeSnapshot(table, m, index))) < half
    ensures |RestoreProposals(table, m, index, half)| == 1 && Update.NextCalls(FRESH, calls).Ok?
    ensures Update.NextCalls(FRESH, calls).value.leaderIndex == index
    ensures Update.NextCalls(FRESH, calls).value.users == (map k | k in m && k != [] :: m[k])[[] := []]
  {
    hide Rebuilt, Update.Run, Update.NextCalls, ItemsOf, Records, Load, TotalBytes, WholeSnapshot, EncodeCommand,
      SizeCommand, DecodeCommand, MarkerFits;
    RestoreRuns(Flatten(calls), cs, table, m, index, half);
    LoadOne(ItemsOf(WholeSnapshot(table, m, index)), half, EMPTY_BATCH, 0);
    SmallMarker(table, m, index, half);
    MarkerPlace(table, m, index, half);
    Update.CallsAgree(FRESH, calls);
    SmallTable(table, m, index, half);
    var p := RestoreProposals(table, m, index, half)[0];
    FlattenNothing<Update.Entry>();
    FlattenFront(calls);
    var es, last := Flatten(calls), calls[|calls| - 1];
    assert last[|last| - 1] == es[|es| - 1] && cs[|es| - 1] in cs;
    Update.LastLeaderStays(FRESH, calls);
  }

  lemma {:induction false} LoadOne(items: seq<Item>, half: nat, batch: Command, estimate: nat)
    requires estimate + TotalBytes(items) < half
    ensures |Load(items, half, batch, estimate)| == 1
    decreases |items|
  {
    hide Collect, Tag, Clear;
    if items != [] {
      LoadOne(items[1..], half, Collect(batch, items[0].command), estimate + items[0].size);
    }
  }

  lemma {:induction false} TotalMore(items: seq<Item>, item: Item)
    ensures TotalBytes(items + [item]) == TotalBytes(items) + item.size
    decreases |items|
  {
    if items == [] {
      assert [item][1..] == [] && items + [item] == [item];
    } else {
      assert (items + [item])[1..] == items[1..] + [item];
      TotalMore(items[1..], item);
    }
  }

  lemma SmallMarker(table: Bytes, m: UserMap, index: uint64, half: nat)
    requires TotalBytes(ItemsOf(WholeSnapshot(table, m, index))) < half
    ensures MarkerFits(table, m, index, half) && TotalBytes(ItemsOf(Records(table, m))) < half
    ensures Kept(ItemsOf(Records(table, m)), half, 0) == Kvs(ItemsOf(Records(table, m)))
  {
    hide Records, TotalBytes, Estimate, EncodeCommand, Kept;
    var rs, mark := Records(table, m), Marker(table, index);
    ItemsMore(rs, mark);
    TotalMore(ItemsOf(rs), Item(mark, |EncodeCommand(mark)|));
    KeptWhenSmall(ItemsOf(rs), half, 0);
  }

  lemma SmallTable(table: Bytes, m: UserMap, index: uint64, half: nat)
    requires TotalBytes(ItemsOf(WholeSnapshot(table, m, index))) < half
    ensures Rebuilt(table, m, index, half).Ok?
    ensures Rebuilt(table, m, index, half).value.m == (map k | k in m && k != [] :: m[k])[[] := []]
  {
    hide Records, TotalBytes, Kept, EncodeCommand, Load, ApplySequence, PutBatch;
    var rs, mark := Records(table, m), Marker(table, index);
    var item := Item(mark, |EncodeCommand(mark)|);
    SmallMarker(table, m, index, half);
    ItemsMore(rs, mark);
    KeptMore(ItemsOf(rs), item, half, 0);
    LoadApplies(ItemsOf(WholeSnapshot(table, m, index)), half);
    var kvs := Kvs(ItemsOf(rs));
    EmptyKeyLast(kvs);
    var r, want := PutBatch(map[], kvs + [Codec.EMPTY_KV]).0, (map k | k in m && k != [] :: m[k])[[] := []];
    forall k ensures Replay.Get(r, k) == Replay.Get(want, k) {
      if k != [] {
        MarkerHarmless(kvs, k);
        AllRecordsKept(table, m, k);
      }
    }
    Replay.SameByGet(r, want);
  }

  lemma EmptyKeyLast(kvs: seq<KeyValue>)
    ensures Replay.Get(PutBatch(map[], kvs + [Codec.EMPTY_KV]).0, []) == Some([])
  {
    assert (kvs + [Codec.EMPTY_KV])[..|kvs|] == kvs;
  }

  // ---------- what a flush loses ----------

  /** A table with one key and a limit that its record reaches: the new table lacks the key. */
  lemma FlushLosesRecord()
    ensures var r := Rebuilt([], map[[1] := [2]], 7, 1);
            r.Ok? && Replay.Get(r.value.m, [1]) == None
  {
    hide EncodeCommand, Rebuilt, PutBatch, Names;
    var m: UserMap := map[[1] := [2]];
    var items := ItemsOf(Records([], m));
    RebuiltPairs([], m, 7, 1);
    RecordKeys([], m);
    OneName(m);
    RecordTakesSpace([], [1], [2]);
    assert items[1..] == [];
    assert Kept(items, 1, 0) == Kept(items[1..], 1, 0) == [];
    NoBatch(map[]);
    MarkerHarmless([], [1]);
  }

  lemma OneName(m: UserMap)
    requires m == map[[1] := [2]]
    ensures Names(m) == [[1]]
  {
    AscendingUnique(Names(m), [[1]]);
  }

  lemma RecordTakesSpace(table: Bytes, key: Bytes, value: Bytes)
    ensures |EncodeCommand(PutRecord(table, key, value))| >= 1
  {
    hide EncodeCommand;
    CommandSize(PutRecord(table, key, value));
  }

  /** An empty table and the same limit: the marker flushes, and in one call its index is lost. */
  lemma FlushLosesIndex()
    ensures var ps := RestoreProposals([], map[], 7, 1);
            && |ps| == 2
            && var x, y := Update.Entry(1, EncodeCommand(ps[0])), Update.Entry(2, EncodeCommand(ps[1]));
            && Update.NextCalls(FRESH, [[x, y]]).Ok? && Update.NextCalls(FRESH, [[x, y]]).value.leaderIndex == 0
            && Update.NextCalls(FRESH, [[x], [y]]).Ok? && Update.NextCalls(FRESH, [[x], [y]]).value.leaderIndex == 7
  {
    hide EncodeCommand, SizeCommand, Update.NextCalls, MarkerFits, RestoreProposals;
    EmptyProposals();
    var ps := RestoreProposals([], map[], 7, 1);
    LostInOneCall(Update.Entry(1, EncodeCommand(ps[0])), Update.Entry(2, EncodeCommand(ps[1])));
  }

  lemma LostInOneCall(x: Update.Entry, y: Update.Entry)
    requires Proposed([x, y], RestoreProposals([], map[], 7, 1))
    ensures Update.NextCalls(FRESH, [[x, y]]).Ok? && Update.NextCalls(FRESH, [[x, y]]).value.leaderIndex == 0
    ensures Update.NextCalls(FRESH, [[x], [y]]).Ok? && Update.NextCalls(FRESH, [[x], [y]]).value.leaderIndex == 7
  {
    hide Proposed, Update.NextCalls, MarkerFits, RestoreProposals;
    EmptyProposals();
    Update.OneCall(FRESH, [x, y]);
    OneEach(x, y);
    RestoredIndexExact([[x, y]], [], map[], 7, 1);
    RestoredIndexExact([[x], [y]], [], map[], 7, 1);
  }

  lemma OneEach(x: Update.Entry, y: Update.Entry)
    ensures Flatten([[x], [y]]) == [x, y]
  {
    FlattenMore([[x]], [y]);
    assert [[x]] + [[y]] == [[x], [y]];
    Update.OneCall(FRESH, [x]);
  }

  lemma EmptyProposals()
    ensures var ps := RestoreProposals([], map[], 7, 1);
            |ps| == 2 && SizeCommand(ps[0]) < Wire.TWO_63 && SizeCommand(ps[1]) < Wire.TWO_63
    ensures !MarkerFits([], map[], 7, 1)
  {
    hide EncodeCommand, Names;
    var none: UserMap := map[];
    AscendingUnique(Names(none), []);
    var mark := Marker([], 7);
    CommandSize(mark);
    assert Records([], none) == [];
    var items := ItemsOf(WholeSnapshot([], none, 7));
    assert items == [Item(mark, |EncodeCommand(mark)|)];
    LoadStep(items[0], [], 1, EMPTY_BATCH, 0);
    assert [items[0]] + [] == items;
    var ps := RestoreProposals([], none, 7, 1);
    assert ps == [EMPTY_BATCH.(leaderIndex := Some(7)), EMPTY_BATCH];
    SmallBatches();
  }

  lemma SmallBatches()
    ensures SizeCommand(EMPTY_BATCH) < Wire.TWO_63 && SizeCommand(EMPTY_BATCH.(leaderIndex := Some(7))) < Wire.TWO_63
  {
    hide Varint.Sov;
    Varint.SovRange(7);
    Varint.SovRange(PUT_BATCH);
    var b := EMPTY_BATCH.(leaderIndex := Some(7));
    assert TailSize(b) == 0 && TailSize(EMPTY_BATCH) == 0;
    assert MiddleSize(b) == 1 + Varint.Sov(7) && MiddleSize(EMPTY_BATCH) == 0;
  }
}
