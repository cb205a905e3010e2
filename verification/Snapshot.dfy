/** A table snapshot: every pair of the table as a framed put command, closed by a marker that
    carries the index, sent to a follower in chunks. */
module Snapshot {
  import opened ByteStrings
  import opened Messages
  import opened Keys
  import opened Store
  import opened CommandCodec
  import opened Lists
  import opened Table
  import LittleEndian
  import Update
  import Varint
  import Marshal
  import Wire

  // ---------- framing ----------

  /** Nothing is written for an empty record. */
  function Frame(record: Bytes): (s: Bytes)
    requires |record| < Wire.TWO_63
  {
    if record == [] then [] else LittleEndian.Put64(|record|) + record
  }

  predicate Framable(records: seq<Bytes>)
  {
    forall r :: r in records ==> |r| < Wire.TWO_63
  }

  function Frames(records: seq<Bytes>): (s: Bytes)
    requires Framable(records)
  {
    if records == [] then [] else Frame(records[0]) + Frames(records[1..])
  }

  lemma {:induction false} FramesMore(records: seq<Bytes>, r: Bytes)
    requires Framable(records) && |r| < Wire.TWO_63
    ensures Framable(records + [r]) && Frames(records + [r]) == Frames(records) + Frame(r)
    decreases |records|
  {
    hide Frame;
    if records == [] {
      assert [r][1..] == [];
    } else {
      assert (records + [r])[1..] == records[1..] + [r];
      FramesMore(records[1..], r);
    }
  }

  datatype FrameRead = Record(data: Bytes, next: nat) | EndOfFile | Broken

  /** The frame at position `i`, read into a buffer of the given capacity. A file that ends right
      behind a length counts as ended. */
  function ReadFrame(s: Bytes, i: nat, capacity: nat): (r: FrameRead)
    requires i <= |s|
    ensures r.Record? ==> i < r.next <= |s|
  {
    if i == |s| then EndOfFile
    else if |s| < i + 8 then Broken
    else
      var size := LittleEndian.Get64(s[i..i + 8]);
      if size > capacity then Broken
      else if |s| < i + 8 + size then if |s| == i + 8 then EndOfFile else Broken
      else Record(s[i + 8..i + 8 + size], i + 8 + size)
  }

  function ReadAll(s: Bytes, i: nat, capacity: nat): (r: Option<seq<Bytes>>)
    requires i <= |s|
    decreases |s| - i
  {
    match ReadFrame(s, i, capacity)
    case EndOfFile => Some([])
    case Broken => None
    case Record(data, next) =>
      match ReadAll(s, next, capacity)
      case None => None
      case Some(rest) => Some([data] + rest)
  }

  lemma ReadOneFrame(pre: Bytes, record: Bytes, post: Bytes, capacity: nat)
    requires record != [] && |record| < Wire.TWO_63 && |record| <= capacity
    ensures ReadFrame(pre + Frame(record) + post, |pre|, capacity) == Record(record, |pre + Frame(record)|)
  {
    hide LittleEndian.Put64, LittleEndian.Get64;
    var s := pre + Frame(record) + post;
    LittleEndian.RoundTrip(|record|);
    assert s[|pre|..|pre| + 8] == LittleEndian.Put64(|record|);
    assert s[|pre| + 8..|pre| + 8 + |record|] == record;
  }

  lemma ReadEnd(s: Bytes, capacity: nat)
    ensures ReadFrame(s, |s|, capacity) == EndOfFile
  {
  }

  lemma {:induction false} ReadFrames(pre: Bytes, records: seq<Bytes>, capacity: nat)
    requires forall r :: r in records ==> 0 < |r| <= capacity < Wire.TWO_63
    ensures Framable(records) && ReadAll(pre + Frames(records), |pre|, capacity) == Some(records)
    decreases |records|
  {
    hide ReadFrame, Frame;
    var s := pre + Frames(records);
    if records == [] {
      ReadEnd(s, capacity);
    } else {
      var f := Frame(records[0]);
      assert s == pre + f + Frames(records[1..]);
      ReadOneFrame(pre, records[0], Frames(records[1..]), capacity);
      assert s == (pre + f) + Frames(records[1..]);
      ReadFrames(pre + f, records[1..], capacity);
      assert records == [records[0]] + records[1..];
    }
  }

  lemma ReadLargeFrame(pre: Bytes, record: Bytes, post: Bytes, capacity: nat)
    requires capacity < |record| < Wire.TWO_63
    ensures ReadFrame(pre + Frame(record) + post, |pre|, capacity) == Broken
  {
    hide LittleEndian.Put64, LittleEndian.Get64;
    var s := pre + Frame(record) + post;
    LittleEndian.RoundTrip(|record|);
    assert s[|pre|..|pre| + 8] == LittleEndian.Put64(|record|);
  }

  /** One record that is too large breaks the whole file. */
  lemma {:induction false} ReadLargeFrames(pre: Bytes, records: seq<Bytes>, capacity: nat)
    requires Framable(records) && (forall r :: r in records ==> |r| > 0) && exists r :: r in records && |r| > capacity
    ensures ReadAll(pre + Frames(records), |pre|, capacity) == None
    decreases |records|
  {
    hide ReadFrame, Frame;
    var s, f := pre + Frames(records), Frame(records[0]);
    assert s == pre + f + Frames(records[1..]);
    if |records[0]| > capacity {
      ReadLargeFrame(pre, records[0], Frames(records[1..]), capacity);
    } else {
      ReadOneFrame(pre, records[0], Frames(records[1..]), capacity);
      assert s == (pre + f) + Frames(records[1..]);
      assert records == [records[0]] + records[1..];
      ReadLargeFrames(pre + f, records[1..], capacity);
    }
  }

  /** The snapshot file, a stream of frames. */
  class SnapshotFile {
    var data: Bytes
    var position: nat

    constructor (content: Bytes)
      ensures data == content && position == 0
    {
      data, position := content, 0;
    }

    method Write(p: Bytes) returns (n: nat)
      requires |p| < Wire.TWO_63
      modifies this`data
      ensures data == old(data) + Frame(p) && n == |p|
    {
      if |p| == 0 { return 0; }
      data := data + LittleEndian.Put64(|p|);
      data := data + p;
      n := |p|;
    }

    method Read(capacity: nat) returns (r: FrameRead)
      requires position <= |data|
      modifies this`position
      ensures r == ReadFrame(data, old(position), capacity)
      ensures r.Record? ==> position == r.next
      ensures position <= |data|
    {
      if |data| - position < 8 { return if position == |data| then EndOfFile else Broken; }
      var size := LittleEndian.Get64(data[position..position + 8]);
      position := position + 8;
      if size > capacity { return Broken; }
      if |data| - position < size { return if position == |data| then EndOfFile else Broken; }
      r := Record(data[position..position + size], position + size);
      position := position + size;
    }
  }

  // ---------- chunks ----------

  const CHUNK_SIZE := 1024 * 1024

  /** `Writer.ReadFrom`: every read may return any part of what is asked for. */
  method SendChunks(data: Bytes) returns (chunks: seq<Bytes>)
    ensures Flatten(chunks) == data
    ensures forall c :: c in chunks ==> 0 < |c| <= 1024 * 1024
  {
    chunks := [];
    var i := 0;
    while i < |data|
      invariant i <= |data| && Flatten(chunks) == data[..i]
      invariant forall c :: c in chunks ==> 0 < |c| <= CHUNK_SIZE
    {
      var n :| 0 < n <= |data| - i && n <= CHUNK_SIZE;
      FlattenMore(chunks, data[i..i + n]);
      assert data[..i + n] == data[..i] + data[i..i + n];
      chunks, i := chunks + [data[i..i + n]], i + n;
    }
    assert data[..|data|] == data;
  }

  /** `Reader.WriteTo`. */
  method ReceiveChunks(chunks: seq<Bytes>) returns (data: Bytes)
    ensures data == Flatten(chunks)
  {
    data := [];
    for i := 0 to |chunks|
      invariant data == Flatten(chunks[..i])
    {
      FlattenMore(chunks[..i], chunks[i]);
      assert chunks[..i + 1] == chunks[..i] + [chunks[i]];
      data := data + chunks[i];
    }
    assert chunks[..|chunks|] == chunks;
  }

  /** Framed records are read back as they were written, however the stream was cut into chunks
      on its way, and not at all if one of them is larger than the reader's buffer. */
  lemma FramingRoundTrip(records: seq<Bytes>, chunks: seq<Bytes>, capacity: nat)
    requires Framable(records) && Flatten(chunks) == Frames(records) && capacity < Wire.TWO_63
    requires forall r :: r in records ==> |r| > 0
    ensures ReadAll(Flatten(chunks), 0, capacity) ==
            if forall r :: r in records ==> |r| <= capacity then Some(records) else None
  {
    hide Frames, ReadAll, Flatten;
    assert [] + Frames(records) == Frames(records);
    if forall r :: r in records ==> |r| <= capacity {
      ReadFrames([], records, capacity);
    } else {
      ReadLargeFrames([], records, capacity);
    }
  }

  // ---------- the records of a table ----------

  function PutRecord(table: Bytes, key: Bytes, value: Bytes): (c: Command)
  {
    EMPTY_COMMAND.(table := table, kind := PUT, kv := Some(Pair(key, value)))
  }

  function Marker(table: Bytes, index: uint64): (c: Command)
  {
    EMPTY_COMMAND.(table := table, kind := DUMMY, leaderIndex := Some(index))
  }

  /** The keys a snapshot holds: all but the empty one, which does not decode as a user key. */
  ghost function Names(m: UserMap): (ks: seq<Bytes>)
    ensures Ascending(ks) && forall k :: k in ks <==> k in m && k != []
  {
    Sorted(set k | k in m && k != [])
  }

  ghost function RecordsOf(table: Bytes, m: UserMap, ks: seq<Bytes>): (cs: seq<Command>)
    requires forall k :: k in ks ==> k in m
    ensures |cs| == |ks| && forall i :: 0 <= i < |ks| ==> cs[i] == PutRecord(table, ks[i], m[ks[i]])
  {
    seq(|ks|, i requires 0 <= i < |ks| => PutRecord(table, ks[i], m[ks[i]]))
  }

  /** One put for every key, in order. */
  ghost function Records(table: Bytes, m: UserMap): (cs: seq<Command>)
  {
    RecordsOf(table, m, Names(m))
  }

  function EncodeAll(cs: seq<Command>): (r: seq<Bytes>)
    ensures |r| == |cs| && forall i :: 0 <= i < |cs| ==> r[i] == EncodeCommand(cs[i])
  {
    seq(|cs|, i requires 0 <= i < |cs| => EncodeCommand(cs[i]))
  }

  /** Every pair of the table fits into a record that a reader can take. */
  ghost predicate Fits(table: Bytes, m: UserMap, capacity: nat)
  {
    forall k :: k in m ==> SizeCommand(PutRecord(table, k, m[k])) <= capacity
  }

  predicate IsUserRecord(e: Bytes)
  {
    DecodeBytes(e).Some? && DecodeBytes(e).value.kind == TYPE_USER
  }

  /** The keys among the first raw ones that become records. */
  function UserNames(es: seq<Bytes>): (ks: seq<Bytes>)
  {
    if es == [] then []
    else
      var rest, e := UserNames(es[..|es| - 1]), es[|es| - 1];
      if IsUserRecord(e) then rest + [DecodeBytes(e).value.key] else rest
  }

  lemma UserRecordExact(db: RawMap, e: Bytes)
    requires Valid(db) && e in db
    ensures DecodeBytes(e).Some?
    ensures IsUserRecord(e) <==> IsUser(e) && e[5..] != []
    ensures IsUserRecord(e) ==> EncodeUser(DecodeBytes(e).value.key) == e && DecodeBytes(e).value.key != []
  {
    if IsUser(e) {
      UserKeyForm(e);
      DecodeBytesEncode(TYPE_USER, e[5..]);
    }
  }

  lemma {:induction false} UserNamesExact(db: RawMap, es: seq<Bytes>)
    requires Valid(db) && Ascending(es) && forall e :: e in es ==> e in db
    ensures Ascending(UserNames(es))
    ensures forall k :: k in UserNames(es) <==> k != [] && EncodeUser(k) in es
    decreases |es|
  {
    hide IsUserRecord, DecodeBytes, EncodeUser, IsUser, Less, Valid;
    if es != [] {
      var front, e := es[..|es| - 1], es[|es| - 1];
      UserNamesExact(db, front);
      UserRecordExact(db, e);
      assert es == front + [e];
      if IsUserRecord(e) {
        var name := DecodeBytes(e).value.key;
        forall i | 0 <= i < |UserNames(front)| ensures Less(UserNames(front)[i], name) {
          NameBelow(front, UserNames(front)[i], name);
        }
        forall k ensures EncodeUser(k) == e <==> k == name { EncodeUserInjective(k, name); }
      } else {
        forall k | k != [] ensures EncodeUser(k) != e { EncodeUserForm(k); }
      }
    }
  }

  lemma NameBelow(front: seq<Bytes>, k: Bytes, name: Bytes)
    requires Ascending(front + [EncodeUser(name)]) && EncodeUser(k) in front
    ensures Less(k, name)
  {
    hide Less, Encode;
    var es := front + [EncodeUser(name)];
    var i :| 0 <= i < |front| && front[i] == EncodeUser(k);
    assert Less(es[i], es[|front|]);
    EncodingKeepsOrder(TYPE_USER, k, name);
  }

  /** The walk over the raw keys finds exactly the table's keys, in order. */
  lemma SnapshotNames(db: RawMap)
    requires Valid(db)
    ensures UserNames(Sorted(db.Keys)) == Names(Users(db))
  {
    hide UserNames, Valid, Users, EncodeUser, Sorted;
    UserNamesExact(db, Sorted(db.Keys));
    AscendingUnique(UserNames(Sorted(db.Keys)), Names(Users(db)));
  }

  lemma RecordsMore(table: Bytes, m: UserMap, ks: seq<Bytes>, k: Bytes)
    requires (forall x :: x in ks ==> x in m) && k in m
    ensures RecordsOf(table, m, ks + [k]) == RecordsOf(table, m, ks) + [PutRecord(table, k, m[k])]
  {
  }

  lemma EncodeAllMore(cs: seq<Command>, c: Command)
    ensures EncodeAll(cs + [c]) == EncodeAll(cs) + [EncodeCommand(c)]
  {
    hide EncodeCommand;
  }

  /** The frames of a list of commands. */
  ghost predicate Holds(data: Bytes, cs: seq<Command>)
  {
    Framable(EncodeAll(cs)) && data == Frames(EncodeAll(cs))
  }

  lemma HoldsMore(data: Bytes, cs: seq<Command>, c: Command)
    requires Holds(data, cs) && SizeCommand(c) < Wire.TWO_63
    ensures |EncodeCommand(c)| < Wire.TWO_63 && Holds(data + Frame(EncodeCommand(c)), cs + [c])
  {
    hide EncodeCommand, SizeCommand, Frame, Frames;
    CommandSize(c);
    EncodeAllMore(cs, c);
    FramesMore(EncodeAll(cs), EncodeCommand(c));
  }

  lemma HoldsNothing()
    ensures Holds([], [])
  {
  }

  /** `commandSnapshot`, which with `faults` may be stopped at any key: the file holds one put for every pair
      of the table, in order, and the result is the table's local index. */
  method CommandSnapshot(db: RawMap, table: Bytes, file: SnapshotFile, faults: bool)
    returns (index: Option<uint64>)
    requires Valid(db) && Fits(table, Users(db), Wire.TWO_63 - 1) && file.data == []
    modifies file`data
    ensures index.Some? ==> Holds(file.data, Records(table, Users(db)))
    ensures index == None ==> faults
    ensures index.Some? ==> index.value == Update.StateOf(db).localIndex
  {
    hide Users, EncodeCommand, SizeCommand, UserNames, Holds, Frame, Sorted, Names;
    SystemNotUser(LOCAL_INDEX_KEY);
    var local := ReadIndex(db, LOCAL_INDEX_KEY);
    hide Valid, IsUser, IsSystem;
    ghost var m := Users(db);
    var es := Walk(db.Keys);
    SnapshotNames(db);
    ghost var ks := [];
    NamesOfNothing();
    HoldsNothing();
    for i := 0 to |es|
      invariant ks == UserNames(es[..i]) && forall k :: k in ks ==> k in m
      invariant Holds(file.data, RecordsOf(table, m, ks))
    {
      var stopped: bool := *;
      if faults && stopped { return None; }
      var e := es[i];
      assert e in db;
      UserRecordExact(db, e);
      NamesStep(es, i);
      if IsUserRecord(e) {
        var k, v := DecodeBytes(e).value.key, db[e];
        var buffer := Marshal.MarshalVT(PutRecord(table, k, v));
        HoldsMore(file.data, RecordsOf(table, m, ks), PutRecord(table, k, v));
        RecordsMore(table, m, ks, k);
        var _ := file.Write(buffer);
        ks := ks + [k];
      }
    }
    assert es[..|es|] == es;
    index := Some(local);
  }

  lemma NamesOfNothing()
    ensures UserNames([]) == []
  {
  }

  lemma NamesStep(es: seq<Bytes>, i: nat)
    requires i < |es|
    ensures UserNames(es[..i + 1]) ==
            if IsUserRecord(es[i]) then UserNames(es[..i]) + [DecodeBytes(es[i]).value.key] else UserNames(es[..i])
  {
    assert es[..i + 1][..i] == es[..i];
  }

  lemma MarkerSmall(table: Bytes, index: uint64)
    requires |table| < Wire.TWO_63
    ensures SizeCommand(Marker(table, index)) <= |table| + 33
  {
    hide Varint.Sov;
    Varint.SovRange(|table|);
    Varint.SovRange(index);
    Varint.SovRange(DUMMY);
    var c := Marker(table, index);
    assert CommandSizes([]) == 0 && KeyValueSizes([]) == 0;
    assert TailSize(c) == 0;
    assert MiddleSize(c) == 1 + Varint.Sov(index);
    assert SizeCommand(c) <= |table| + 11 + 11 + MiddleSize(c);
  }

  /** What the leader streams for a table: its records, then the marker. */
  ghost function WholeSnapshot(table: Bytes, m: UserMap, index: uint64): (cs: seq<Command>)
  {
    Records(table, m) + [Marker(table, index)]
  }

  /** `SnapshotServer.Stream`. */
  method Stream(db: RawMap, table: Bytes, faults: bool) returns (chunks: Option<seq<Bytes>>)
    requires Valid(db) && Fits(table, Users(db), Wire.TWO_63 - 1)
    requires |table| + 33 < Wire.TWO_63
    ensures chunks == None ==> faults
    ensures chunks.Some? ==>
              Holds(Flatten(chunks.value), WholeSnapshot(table, Users(db), Update.StateOf(db).localIndex))
  {
    hide Users, Valid, SizeCommand, EncodeCommand, Holds, Frame, Update.StateOf, Records;
    var file := new SnapshotFile([]);
    var index := CommandSnapshot(db, table, file, faults);
    if index == None { return None; }
    MarkerSmall(table, index.value);
    var final := Marshal.MarshalVT(Marker(table, index.value));
    HoldsMore(file.data, Records(table, Users(db)), Marker(table, index.value));
    var _ := file.Write(final);
    var sent := SendChunks(file.data);
    chunks := Some(sent);
  }
}
