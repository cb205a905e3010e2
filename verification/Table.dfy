/** What the commands of a table mean, on a plain map from user keys to values: no key
    encoding, no batch, one command after the other. */
module Table {
  import opened ByteStrings
  import opened Messages
  import opened Keys
  import opened Codec
  import Varint
  import Wire

  type UserMap = map<Bytes, Bytes>

  // ---------- range reads ----------

  const MAX_RANGE_SIZE := 4 * 1024 * 1024 - 1024

  function SizeResponse(r: RangeResponse): (n: nat)
  {
    KvsSize(r.kvs) + FlagSize(r.more) + if r.count == 0 then 0 else 1 + Varint.Sov(r.count)
  }

  function KvsSize(kvs: seq<KeyValue>): (n: nat)
  {
    if kvs == [] then 0 else KvsSize(kvs[..|kvs| - 1]) + ChunkSize(SizeKeyValue(kvs[|kvs| - 1]))
  }

  /** How much of an entry a request asks for. */
  datatype Detail = KeysOnly | CountOnly | Full

  function DetailOf(req: RangeOp): (d: Detail)
  {
    if req.keysOnly then KeysOnly else if req.countOnly then CountOnly else Full
  }

  function EntrySize(d: Detail, key: Bytes, value: Bytes): (n: nat)
  {
    match d case KeysOnly => |key| case CountOnly => 0 case Full => |key| + |value|
  }

  function AddEntry(d: Detail, key: Bytes, value: Bytes, r: RangeResponse): (r': RangeResponse)
  {
    match d
    case KeysOnly => r.(kvs := r.kvs + [Pair(key, [])], count := r.count + 1)
    case CountOnly => r.(count := r.count + 1)
    case Full => r.(kvs := r.kvs + [Pair(key, value)], count := r.count + 1)
  }

  /** The keys of a map that a range request matches, in ascending order. */
  ghost function Matching(m: UserMap, low: Bytes, high: Bytes): (ks: seq<Bytes>)
    ensures Ascending(ks)
    ensures forall k :: k in ks <==> k in m && InRange(k, low, high)
  {
    Sorted(set k | k in m && InRange(k, low, high))
  }

  /** The response holding the first `n` of the keys `ks`. */
  ghost function Prefix(m: UserMap, ks: seq<Bytes>, n: nat, d: Detail): (r: RangeResponse)
    requires n <= |ks| && forall k :: k in ks ==> k in m
    ensures r.count == n && !r.more
  {
    if n == 0 then RangeResponse([], false, 0) else AddEntry(d, ks[n - 1], m[ks[n - 1]], Prefix(m, ks, n - 1, d))
  }

  /** The entry number `n` does not go into the response any more. */
  ghost predicate Stops(m: UserMap, ks: seq<Bytes>, n: nat, limit: int64, d: Detail)
    requires n < |ks| && forall k :: k in ks ==> k in m
  {
    (n == limit && limit != 0) ||
    SizeResponse(Prefix(m, ks, n, d)) + EntrySize(d, ks[n], m[ks[n]]) >= MAX_RANGE_SIZE
  }

  /** The number of entries in the response: up to the first one that stops the read. */
  ghost function Taken(m: UserMap, ks: seq<Bytes>, from: nat, limit: int64, d: Detail): (n: nat)
    requires from <= |ks| && forall k :: k in ks ==> k in m
    ensures from <= n <= |ks|
    decreases |ks| - from
  {
    if from == |ks| || Stops(m, ks, from, limit, d) then from else Taken(m, ks, from + 1, limit, d)
  }

  lemma {:induction false} TakenExact(m: UserMap, ks: seq<Bytes>, from: nat, limit: int64, d: Detail)
    requires from <= |ks| && forall k :: k in ks ==> k in m
    ensures var n := Taken(m, ks, from, limit, d);
            && (forall i :: from <= i < n ==> !Stops(m, ks, i, limit, d))
            && (n < |ks| ==> Stops(m, ks, n, limit, d))
    decreases |ks| - from
  {
    hide Stops;
    if from < |ks| && !Stops(m, ks, from, limit, d) { TakenExact(m, ks, from + 1, limit, d); }
  }

  ghost function RangeLookup(m: UserMap, req: RangeOp, high: Bytes): (r: RangeResponse)
  {
    var ks, d := Matching(m, req.key, high), DetailOf(req);
    var n := Taken(m, ks, 0, req.limit, d);
    Prefix(m, ks, n, d).(more := n + 1 < |ks|)
  }

  function SingleLookup(m: UserMap, req: RangeOp): (r: RangeResponse)
  {
    if req.key !in m then RangeResponse([], false, 0)
    else
      var value := if req.keysOnly || req.countOnly then [] else m[req.key];
      RangeResponse(if req.countOnly then [] else [Pair(req.key, value)], false, 1)
  }

  ghost function Lookup(m: UserMap, req: RangeOp): (r: RangeResponse)
  {
    if req.rangeEnd.Some? then RangeLookup(m, req, req.rangeEnd.value) else SingleLookup(m, req)
  }

  // ---------- writes ----------

  /** A put that asks for the previous pair of a key that is not there makes the state
      machine index an empty list. */
  function Put(m: UserMap, put: PutOp): (r: Outcome<(UserMap, ResponseOp)>)
  {
    if put.prevKv && put.key !in m then Fault
    else
      var prev := if put.prevKv then Some(Pair(put.key, m[put.key])) else None;
      Ok((m[put.key := put.value], ResponsePut(prev)))
  }

  ghost function DeleteRange(m: UserMap, low: Bytes, high: Bytes): (m': UserMap)
  {
    map k | k in m && !InRange(k, low, high) :: m[k]
  }

  /** A single-key delete that counts reports one key, whether it was there or not. */
  ghost function Delete(m: UserMap, del: DeleteOp): (r: (UserMap, ResponseOp))
  {
    var counts, countOnly := del.prevKv || del.count, del.count && !del.prevKv;
    var req := RangeOp(del.key, del.rangeEnd, 0, false, countOnly);
    if del.rangeEnd.Some? then
      var high := del.rangeEnd.value;
      var rng := RangeLookup(m, req, high);
      (DeleteRange(m, del.key, high), if counts then ResponseDelete(rng.count, rng.kvs) else ResponseDelete(0, []))
    else
      (m - {del.key}, if counts then ResponseDelete(1, SingleLookup(m, req).kvs) else ResponseDelete(0, []))
  }

  /** A put on an empty table that asks for the previous pair crashes. */
  lemma PutCanFault()
    ensures Put(map[], PutOp([1], [2], true)) == Fault
  {
  }

  // ---------- transactions ----------

  predicate CompareValue(c: Compare, value: Bytes)
  {
    if c.target == VALUE && c.targetValue.Some? then
      var target := c.targetValue.value;
      if c.result == EQUAL then value == target
      else if c.result == NOT_EQUAL then value != target
      else if c.result == GREATER then Less(target, value)
      else if c.result == LESS then Less(value, target)
      else true
    else true
  }

  /** Exactly one of the three orders holds, inequality is the rest, and greater and less follow
      the order of the bytes. */
  lemma CompareOrders(target: Bytes, v: Bytes, w: Bytes, key: Bytes, end: Option<Bytes>)
    ensures var eq := Compare(0, 0, key, Some(target), end);
            var gt, lt, ne := eq.(result := 1), eq.(result := 2), eq.(result := 3);
            && (CompareValue(eq, v) <==> v == target) && (CompareValue(ne, v) <==> !CompareValue(eq, v))
            && (CompareValue(eq, v) || CompareValue(gt, v) || CompareValue(lt, v))
            && !(CompareValue(gt, v) && CompareValue(lt, v))
            && !(CompareValue(eq, v) && (CompareValue(gt, v) || CompareValue(lt, v)))
            && (CompareValue(gt, v) && Less(v, w) ==> CompareValue(gt, w))
            && (CompareValue(lt, w) && Less(v, w) ==> CompareValue(lt, v))
  {
    hide Less;
    LessTotal(v, target);
    if Less(v, w) {
      if Less(target, v) { LessTransitive(target, v, w); }
      if Less(w, target) { LessTransitive(v, w, target); }
    }
  }

  /** A range comparison needs at least one key in the range and holds of all of them. */
  ghost predicate CompareOne(m: UserMap, c: Compare)
  {
    if c.rangeEnd.Some? then
      (exists k :: k in m && InRange(k, c.key, c.rangeEnd.value)) &&
      (forall k :: k in m && InRange(k, c.key, c.rangeEnd.value) ==> CompareValue(c, m[k]))
    else
      c.key in m && CompareValue(c, m[c.key])
  }

  ghost predicate CompareAll(m: UserMap, cs: seq<Compare>)
  {
    forall c :: c in cs ==> CompareOne(m, c)
  }

  /** One operation of a transaction; one that is not set has no response. */
  ghost function Request(m: UserMap, op: RequestOp): (r: Outcome<(UserMap, seq<ResponseOp>)>)
  {
    match op
    case RequestRange(range) => Ok((m, [ResponseRange(Lookup(m, range))]))
    case RequestPut(put) =>
      (match Put(m, put) case Fault => Fault case Ok(p) => Ok((p.0, [p.1])))
    case RequestDelete(del) => var d := Delete(m, del); Ok((d.0, [d.1]))
    case RequestNone => Ok((m, []))
  }

  ghost function Requests(m: UserMap, ops: seq<RequestOp>): (r: Outcome<(UserMap, seq<ResponseOp>)>)
    decreases |ops|
  {
    if ops == [] then Ok((m, []))
    else
      match Request(m, ops[0])
      case Fault => Fault
      case Ok(p) =>
        match Requests(p.0, ops[1..])
        case Fault => Fault
        case Ok(q) => Ok((q.0, p.1 + q.1))
  }

  // ---------- commands ----------

  datatype Effect = Effect(m: UserMap, success: bool, responses: seq<ResponseOp>)

  ghost function PutBatch(m: UserMap, kvs: seq<KeyValue>): (r: (UserMap, seq<ResponseOp>))
    ensures |r.1| == |kvs|
  {
    if kvs == [] then (m, [])
    else
      var p := PutBatch(m, kvs[..|kvs| - 1]);
      var kv := kvs[|kvs| - 1];
      (p.0[kv.key := kv.value], p.1 + [ResponsePut(None)])
  }

  ghost function DeleteBatch(m: UserMap, kvs: seq<KeyValue>): (r: (UserMap, seq<ResponseOp>))
    ensures |r.1| == |kvs|
  {
    if kvs == [] then (m, [])
    else
      var p := DeleteBatch(m, kvs[..|kvs| - 1]);
      (p.0 - {kvs[|kvs| - 1].key}, p.1 + [ResponseDelete(0, [])])
  }

  lemma NoBatch(m: UserMap)
    ensures PutBatch(m, []) == (m, []) && DeleteBatch(m, []) == (m, [])
  {
  }

  lemma BatchSteps(m: UserMap, kvs: seq<KeyValue>, i: nat)
    requires i < |kvs|
    ensures var p := PutBatch(m, kvs[..i]);
            PutBatch(m, kvs[..i + 1]) == (p.0[kvs[i].key := kvs[i].value], p.1 + [ResponsePut(None)])
    ensures var p := DeleteBatch(m, kvs[..i]);
            DeleteBatch(m, kvs[..i + 1]) == (p.0 - {kvs[i].key}, p.1 + [ResponseDelete(0, [])])
  {
    assert kvs[..i + 1][..i] == kvs[..i];
  }

  /** The effect of a command. A put or delete without a pair, a transaction command without
      a transaction and an unknown kind all crash the state machine. */
  ghost function Apply(m: UserMap, c: Command): (r: Outcome<Effect>)
    decreases c, 1
  {
    if c.kind == PUT then
      if c.kv == None then Fault
      else
        match Put(m, PutOp(c.kv.value.key, c.kv.value.value, c.prevKvs))
        case Fault => Fault
        case Ok(p) => Ok(Effect(p.0, true, [p.1]))
    else if c.kind == DELETE then
      if c.kv == None then Fault
      else
        var d := Delete(m, DeleteOp(c.kv.value.key, c.rangeEnd, c.prevKvs, c.count));
        Ok(Effect(d.0, true, [d.1]))
    else if c.kind == DUMMY then Ok(Effect(m, true, []))
    else if c.kind == PUT_BATCH then
      var p := PutBatch(m, c.batch);
      Ok(Effect(p.0, true, p.1))
    else if c.kind == DELETE_BATCH then
      var d := DeleteBatch(m, c.batch);
      Ok(Effect(d.0, true, d.1))
    else if c.kind == TXN then
      if c.txn == None then Fault
      else
        var ok := CompareAll(m, c.txn.value.compare);
        match Requests(m, if ok then c.txn.value.success else c.txn.value.failure)
        case Fault => Fault
        case Ok(p) => Ok(Effect(p.0, ok, p.1))
    else if c.kind == SEQUENCE then ApplySequence(m, c.sequence)
    else Fault
  }

  /** A sequence applies its commands in order and collects their responses. */
  ghost function ApplySequence(m: UserMap, cs: seq<Command>): (r: Outcome<Effect>)
    decreases cs, 0
  {
    if cs == [] then Ok(Effect(m, true, []))
    else
      match Apply(m, cs[0])
      case Fault => Fault
      case Ok(e) =>
        match ApplySequence(e.m, cs[1..])
        case Fault => Fault
        case Ok(rest) => Ok(Effect(rest.m, true, e.responses + rest.responses))
  }

  // ---------- what a range read returns ----------

  /** The value a response of the given detail shows for a key. */
  function Shown(d: Detail, value: Bytes): (v: Bytes)
  {
    if d == Full then value else []
  }

  lemma {:induction false} PrefixContents(m: UserMap, ks: seq<Bytes>, n: nat, d: Detail)
    requires n <= |ks| && forall k :: k in ks ==> k in m
    ensures d == CountOnly ==> Prefix(m, ks, n, d).kvs == []
    ensures d != CountOnly ==> |Prefix(m, ks, n, d).kvs| == n
    ensures d != CountOnly ==>
              forall i :: 0 <= i < n ==> Prefix(m, ks, n, d).kvs[i] == Pair(ks[i], Shown(d, m[ks[i]]))
  {
    if n > 0 { PrefixContents(m, ks, n - 1, d); }
  }

  lemma SmallSov(n: nat)
    requires n < 0x1000_0000
    ensures Varint.Sov(n) <= 4
  {
    assert Varint.Pow128(2) == 16384;
    assert Varint.Pow128(4) == 0x1000_0000;
    Varint.SovBound(n, 4);
  }

  lemma PairOverhead(key: Bytes, value: Bytes)
    requires |key| + |value| < MAX_RANGE_SIZE
    ensures ChunkSize(SizeKeyValue(Pair(key, value))) <= |key| + |value| + 15
  {
    hide Varint.Sov;
    SmallSov(|key|);
    SmallSov(|value|);
    SmallSov(SizeKeyValue(Pair(key, value)));
  }

  lemma CountOverhead(n: nat)
    requires n < Wire.TWO_63
    ensures Varint.Sov(n) <= 10
  {
    hide Varint.Sov;
    Varint.SovRange(n);
  }

  /** Adding an entry that still fits leaves the response below the bound plus a small slack. */
  lemma AddEntrySize(d: Detail, key: Bytes, value: Bytes, r: RangeResponse)
    requires SizeResponse(r) + EntrySize(d, key, value) < MAX_RANGE_SIZE
    requires !r.more && r.count + 1 < Wire.TWO_63
    ensures SizeResponse(AddEntry(d, key, value, r)) < MAX_RANGE_SIZE + 26
  {
    hide KvsSize, ChunkSize, SizeKeyValue, Varint.Sov;
    CountOverhead(r.count + 1);
    if d != CountOnly {
      PairOverhead(key, Shown(d, value));
      KvsAppend(r.kvs, Pair(key, Shown(d, value)));
    }
  }

  lemma KvsAppend(kvs: seq<KeyValue>, kv: KeyValue)
    ensures KvsSize(kvs + [kv]) == KvsSize(kvs) + ChunkSize(SizeKeyValue(kv))
  {
    hide ChunkSize, SizeKeyValue;
    assert (kvs + [kv])[..|kvs|] == kvs;
  }

  lemma PrefixSize(m: UserMap, ks: seq<Bytes>, n: nat, limit: int64, d: Detail)
    requires n <= |ks| && |ks| < Wire.TWO_63 && forall k :: k in ks ==> k in m
    requires forall i :: 0 <= i < n ==> !Stops(m, ks, i, limit, d)
    ensures SizeResponse(Prefix(m, ks, n, d)) < MAX_RANGE_SIZE + 26
  {
    hide SizeResponse, EntrySize, AddEntry;
    if n == 0 {
      EmptySize();
    } else {
      assert !Stops(m, ks, n - 1, limit, d);
      AddEntrySize(d, ks[n - 1], m[ks[n - 1]], Prefix(m, ks, n - 1, d));
    }
  }

  lemma EmptySize()
    ensures SizeResponse(RangeResponse([], false, 0)) == 0
  {
  }

  lemma MoreSize(r: RangeResponse, more: bool)
    requires !r.more
    ensures SizeResponse(r.(more := more)) <= SizeResponse(r) + 2
  {
    hide KvsSize, Varint.Sov;
  }

  /** A range read returns the first matching keys in order, keeps to the limit, stays below
      4 MiB encoded, and sets `more` exactly when at least two matching keys are left out. */
  lemma RangeLookupExact(m: UserMap, req: RangeOp, high: Bytes)
    requires |Matching(m, req.key, high)| < Wire.TWO_63
    ensures var r, ks := RangeLookup(m, req, high), Matching(m, req.key, high);
            && r.count <= |ks|
            && (req.limit > 0 ==> r.count <= req.limit)
            && (DetailOf(req) == CountOnly ==> r.kvs == [])
            && (DetailOf(req) != CountOnly ==> |r.kvs| == r.count)
            && (DetailOf(req) != CountOnly ==>
                  forall i :: 0 <= i < r.count ==> r.kvs[i] == Pair(ks[i], Shown(DetailOf(req), m[ks[i]])))
            && SizeResponse(r) < 4 * 1024 * 1024
            && (r.more <==> |ks| - r.count >= 2)
  {
    var ks, d := Matching(m, req.key, high), DetailOf(req);
    var n := Taken(m, ks, 0, req.limit, d);
    hide Prefix, SizeResponse, Taken, Matching;
    TakenExact(m, ks, 0, req.limit, d);
    PrefixContents(m, ks, n, d);
    PrefixSize(m, ks, n, req.limit, d);
    MoreSize(Prefix(m, ks, n, d), n + 1 < |ks|);
    assert 0 < req.limit < |ks| ==> Stops(m, ks, req.limit, req.limit, d);
  }

  /** Matching keys are left out only when the limit is reached or the next entry would not fit:
      its key, and its value if the request wants values, would fill the response. */
  lemma LeftOutForCause(m: UserMap, req: RangeOp, high: Bytes)
    ensures var r, ks := RangeLookup(m, req, high), Matching(m, req.key, high);
            r.count < |ks| ==>
              || (req.limit > 0 && r.count == req.limit)
              || (SizeResponse(r.(more := false)) +
                  (if req.keysOnly then |ks[r.count]|
                   else if req.countOnly then 0
                   else |ks[r.count]| + |m[ks[r.count]]|)
                  >= 4 * 1024 * 1024 - 1024)
  {
    hide Taken, Prefix, Matching, SizeResponse;
    TakenExact(m, Matching(m, req.key, high), 0, req.limit, DetailOf(req));
  }

  /** `more` fails to tell whether something was left out exactly when the read stops at the last
      matching key and at none before it: there the limit is reached or the entry does not fit. */
  lemma MoreMissesOne(m: UserMap, req: RangeOp, high: Bytes)
    ensures var r, ks, d := RangeLookup(m, req, high), Matching(m, req.key, high), DetailOf(req);
            (r.more <==> r.count < |ks|) <==>
            !(|ks| >= 1 && Stops(m, ks, |ks| - 1, req.limit, d) &&
              forall i :: 0 <= i < |ks| - 1 ==> !Stops(m, ks, i, req.limit, d))
  {
    hide Taken, Stops, Matching, Prefix;
    TakenExact(m, Matching(m, req.key, high), 0, req.limit, DetailOf(req));
  }

  /** Whatever the limit, no matching entry is left out for its size. */
  ghost predicate AllFit(m: UserMap, ks: seq<Bytes>, d: Detail)
    requires forall k :: k in ks ==> k in m
  {
    forall i :: 0 <= i < |ks| ==> !Stops(m, ks, i, 0, d)
  }

  /** For a read that the size does not stop: `more` is wrong exactly when there is one matching
      key more than the limit allows. */
  lemma MoreMissesLimit(m: UserMap, req: RangeOp, high: Bytes)
    requires AllFit(m, Matching(m, req.key, high), DetailOf(req))
    ensures var r, ks := RangeLookup(m, req, high), Matching(m, req.key, high);
            (r.more <==> r.count < |ks|) <==> !(req.limit > 0 && |ks| == req.limit + 1)
  {
    hide Taken, Matching, Prefix, SizeResponse, EntrySize;
    var ks, d := Matching(m, req.key, high), DetailOf(req);
    MoreMissesOne(m, req, high);
    forall i | 0 <= i < |ks| ensures Stops(m, ks, i, req.limit, d) <==> 0 < req.limit == i {
      assert !Stops(m, ks, i, 0, d);
    }
  }

  /** Two keys and a limit of one: one key is left out and nothing says so. */
  lemma OneLeftOut()
    ensures var m := map[[1] := [], [2] := []];
            var r := RangeLookup(m, RangeOp([1], Some([3]), 1, false, false), [3]);
            r.count == 1 && !r.more && |Matching(m, [1], [3])| == 2
  {
    hide SizeResponse, Sorted;
    var m: UserMap := map[[1] := [], [2] := []];
    var ks := [[1], [2]];
    assert Less([1], [2]) && Less([2], [3]);
    assert forall k :: k in m ==> InRange(k, [1], [3]);
    AscendingUnique(ks, Matching(m, [1], [3]));
    EmptySize();
    assert Prefix(m, ks, 0, Full) == RangeResponse([], false, 0);
    assert !Stops(m, ks, 0, 1, Full) && Stops(m, ks, 1, 1, Full);
    assert Taken(m, ks, 1, 1, Full) == 1;
  }

  /** Without a limit a counting read counts every matching key. */
  lemma CountsAll(m: UserMap, req: RangeOp, high: Bytes)
    requires DetailOf(req) == CountOnly && req.limit == 0 && |Matching(m, req.key, high)| < Wire.TWO_63
    ensures RangeLookup(m, req, high).count == |Matching(m, req.key, high)|
    ensures !RangeLookup(m, req, high).more
  {
    var ks := Matching(m, req.key, high);
    var n := Taken(m, ks, 0, req.limit, CountOnly);
    hide Taken, Matching, SizeResponse;
    TakenExact(m, ks, 0, req.limit, CountOnly);
    CountOnlyFits(m, ks, n);
  }

  lemma CountOnlyFits(m: UserMap, ks: seq<Bytes>, n: nat)
    requires n <= |ks| < Wire.TWO_63 && forall k :: k in ks ==> k in m
    ensures SizeResponse(Prefix(m, ks, n, CountOnly)) <= 11
  {
    hide Varint.Sov;
    PrefixContents(m, ks, n, CountOnly);
    CountOverhead(n);
  }

  /** Whether the read of all matching pairs in front of a range delete goes through: no pair,
      added to those before it, fills the response. */
  ghost predicate ReadsAll(m: UserMap, low: Bytes, high: Bytes)
  {
    var ks := Matching(m, low, high);
    forall i :: 0 <= i < |ks| ==> SizeResponse(Prefix(m, ks, i, Full)) + |ks[i]| + |m[ks[i]]| < MAX_RANGE_SIZE
  }

  /** When a delete reports the number of keys it removes: a single key that was there, a range
      that is only counted, or a range whose pairs all fit into one read. */
  ghost predicate CountsRight(m: UserMap, del: DeleteOp)
  {
    if del.rangeEnd == None then del.key in m
    else del.prevKv ==> ReadsAll(m, del.key, del.rangeEnd.value)
  }

  /** A delete that reports a number reports the number of keys it removes exactly then. */
  lemma DeleteCountExact(m: UserMap, del: DeleteOp)
    requires (del.prevKv || del.count) && |m| < Wire.TWO_63
    ensures var (m', resp) := Delete(m, del);
            |m'| <= |m| && (resp.deleted == |m| - |m'| <==> CountsRight(m, del))
  {
    hide RangeLookup, DeleteRange, Matching, InRange, ReadsAll;
    if del.rangeEnd == None {
      if del.key in m { assert m.Keys == (m - {del.key}).Keys + {del.key}; } else { assert m - {del.key} == m; }
    } else {
      var high := del.rangeEnd.value;
      RemovedAreMatching(m, del.key, high);
      if del.prevKv {
        FullReadCounts(m, RangeOp(del.key, del.rangeEnd, 0, false, false), high);
      } else {
        CountsAll(m, RangeOp(del.key, del.rangeEnd, 0, false, true), high);
      }
    }
  }

  lemma FullReadCounts(m: UserMap, req: RangeOp, high: Bytes)
    requires DetailOf(req) == Full && req.limit == 0
    ensures RangeLookup(m, req, high).count == |Matching(m, req.key, high)| <==> ReadsAll(m, req.key, high)
    ensures RangeLookup(m, req, high).count <= |Matching(m, req.key, high)|
  {
    hide Taken, Prefix, Matching, SizeResponse;
    var ks := Matching(m, req.key, high);
    TakenExact(m, ks, 0, 0, Full);
    assert forall i :: 0 <= i < |ks| ==>
      (Stops(m, ks, i, 0, Full) <==> SizeResponse(Prefix(m, ks, i, Full)) + |ks[i]| + |m[ks[i]]| >= MAX_RANGE_SIZE);
    if ReadsAll(m, req.key, high) {
      assert forall i :: 0 <= i < |ks| ==> !Stops(m, ks, i, 0, Full);
    }
  }

  /** Deleting one key that is not there reports one. */
  lemma MissingKeyCounted()
    ensures Delete(map[], DeleteOp([1], None, false, true)) == (map[], ResponseDelete(1, []))
  {
    var m: UserMap := map[];
    assert m - {[1]} == m;
  }

  /** A range delete that returns the previous pairs of three keys with values of 2 MiB removes
      three and reports one. */
  lemma LargePairsUncounted(v: Bytes)
    requires |v| == 2 * 1024 * 1024
    ensures var m := map[[1] := v, [2] := v, [3] := v];
            var (m', resp) := Delete(m, DeleteOp([1], Some([4]), true, false));
            m' == map[] && resp.deleted == 1
  {
    hide SizeResponse, Sorted;
    var m: UserMap := map[[1] := v, [2] := v, [3] := v];
    var ks := [[1], [2], [3]];
    assert Less([1], [2]) && Less([2], [3]) && Less([1], [3]) && Less([3], [4]);
    assert forall k :: k in m ==> InRange(k, [1], [4]);
    AscendingUnique(ks, Matching(m, [1], [4]));
    EmptySize();
    assert Prefix(m, ks, 0, Full) == RangeResponse([], false, 0);
    assert !Stops(m, ks, 0, 0, Full);
    var one := Prefix(m, ks, 1, Full);
    assert one == RangeResponse([Pair([1], v)], false, 1);
    PairAtLeast([1], v);
    assert Stops(m, ks, 1, 0, Full);
    assert Taken(m, ks, 1, 0, Full) == 1;
    assert DeleteRange(m, [1], [4]) == map[];
  }

  lemma PairAtLeast(key: Bytes, value: Bytes)
    ensures SizeResponse(RangeResponse([Pair(key, value)], false, 1)) >= |value|
  {
    hide Varint.Sov;
    var kvs := [Pair(key, value)];
    assert kvs[..0] == [] && KvsSize([]) == 0;
    assert KvsSize(kvs) == ChunkSize(SizeKeyValue(Pair(key, value)));
  }

  lemma RemovedAreMatching(m: UserMap, low: Bytes, high: Bytes)
    ensures |DeleteRange(m, low, high)| == |m| - |Matching(m, low, high)|
  {
    hide InRange, Sorted;
    var hit := set k | k in m && InRange(k, low, high);
    assert DeleteRange(m, low, high).Keys == m.Keys - hit;
    assert |m.Keys - hit| == |m.Keys| - |hit|;
  }
}
