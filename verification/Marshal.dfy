/** The generated marshalling code: it fills a buffer from its end towards its start, and it
    reads a buffer field by field. */
module Marshal {
  import opened ByteStrings
  import opened Messages
  import opened Wire
  import opened Codec
  import opened CommandCodec
  import opened Writer
  import opened Unmarshal
  import MarshalTxn
  import Varint

  // ---------- writing ----------

  /** `KeyValue.MarshalToSizedBufferVT` on the part of the buffer before `end`. */
  method MarshalKeyValue(m: KeyValue, data: array<byte>, end: nat, ghost limit: nat, ghost before: Bytes,
                         ghost s: Bytes)
    returns (i: nat)
    requires Tail(data, before, end, limit, s)
    requires SizeKeyValue(m) <= end && SizeKeyValue(m) < TWO_63
    modifies data
    ensures i == end - SizeKeyValue(m) && Tail(data, before, i, limit, EncodeKeyValue(m) + s)
  {
    hide EncodeFields, Tail, Blob, Signed, BlobSize, SignedSize;
    ghost var r3 := Blob(4, m.value) + [];
    ghost var r2 := Signed(3, m.modRevision) + r3;
    ghost var r1 := Signed(2, m.createRevision) + r2;
    NoFields();
    assert EncodeFields([]) + s == s;
    i := PutBlob(data, end, 4, m.value, limit, before, [], s);
    i := PutSigned(data, i, 3, m.modRevision, limit, before, r3, s);
    i := PutSigned(data, i, 2, m.createRevision, limit, before, r2, s);
    i := PutBlob(data, i, 1, m.key, limit, before, r1, s);
  }

  // ---------- Command ----------

  lemma {:induction false} KeyValueSizesSuffix(ms: seq<KeyValue>, k: nat)
    requires k < |ms|
    ensures KeyValueSizes(ms[k..]) == ChunkSize(SizeKeyValue(ms[k])) + KeyValueSizes(ms[k + 1..]) <= KeyValueSizes(ms)
  {
    hide ChunkSize, SizeKeyValue;
    assert ms[k..][1..] == ms[k + 1..];
    if k > 0 {
      KeyValueSizesSuffix(ms[1..], k - 1);
      assert ms[1..][k - 1..] == ms[k..] && ms[1..][k..] == ms[k + 1..];
    } else {
      assert ms[0..] == ms;
    }
  }

  lemma {:induction false} CommandSizesSuffix(ms: seq<Command>, k: nat)
    requires k < |ms|
    ensures CommandSizes(ms[k..]) == ChunkSize(SizeCommand(ms[k])) + CommandSizes(ms[k + 1..]) <= CommandSizes(ms)
    decreases k
  {
    hide ChunkSize, SizeCommand;
    assert ms[k..][1..] == ms[k + 1..];
    if k > 0 {
      CommandSizesSuffix(ms[1..], k - 1);
      assert ms[1..][k - 1..] == ms[k..] && ms[1..][k..] == ms[k + 1..];
    } else {
      assert ms[0..] == ms;
    }
  }

  method MarshalBatch(ms: seq<KeyValue>, data: array<byte>, i: nat,
                      ghost end: nat, ghost before: Bytes, ghost rest: seq<Field>, ghost s: Bytes) returns (j: nat)
    requires Tail(data, before, i, end, EncodeFields(rest) + s) && KeyValueSizes(ms) <= i && KeyValueSizes(ms) < TWO_63
    modifies data
    ensures j == i - KeyValueSizes(ms)
    ensures Tail(data, before, j, end, EncodeFields(Repeated(6, EncodeKeyValues(ms)) + rest) + s)
  {
    hide EncodeFields, Tail, ChunkSize, EncodeKeyValue, SizeKeyValue;
    j := i;
    var n := |ms|;
    assert Repeated(6, EncodeKeyValues(ms[n..])) + rest == rest;
    while n > 0
      invariant 0 <= n <= |ms| && j == i - KeyValueSizes(ms[n..])
      invariant Tail(data, before, j, end, EncodeFields(Repeated(6, EncodeKeyValues(ms[n..])) + rest) + s)
    {
      n := n - 1;
      var m := ms[n];
      KeyValueSizesSuffix(ms, n);
      ChunkFits(SizeKeyValue(m));
      KeyValueSize(m);
      ghost var done := Repeated(6, EncodeKeyValues(ms[n + 1..])) + rest;
      var k := MarshalKeyValue(m, data, j, end, before, EncodeFields(done) + s);
      j := CloseChunk(data, k, j, 6, EncodeKeyValue(m), end, before, done, s);
      assert ms[n..][1..] == ms[n + 1..];
      assert Repeated(6, EncodeKeyValues(ms[n..])) + rest == [Chunk(6, EncodeKeyValue(m))] + done;
    }
    assert ms[0..] == ms;
  }

  method MarshalSequence(ms: seq<Command>, data: array<byte>, i: nat,
                         ghost end: nat, ghost before: Bytes, ghost rest: seq<Field>, ghost s: Bytes) returns (j: nat)
    requires Tail(data, before, i, end, EncodeFields(rest) + s) && CommandSizes(ms) <= i && CommandSizes(ms) < TWO_63
    modifies data
    ensures j == i - CommandSizes(ms)
    ensures Tail(data, before, j, end, EncodeFields(Repeated(10, EncodeCommands(ms)) + rest) + s)
    decreases ms, 0
  {
    hide EncodeFields, Tail, ChunkSize, EncodeCommand, SizeCommand;
    j := i;
    var n := |ms|;
    assert Repeated(10, EncodeCommands(ms[n..])) + rest == rest;
    while n > 0
      invariant 0 <= n <= |ms| && j == i - CommandSizes(ms[n..])
      invariant Tail(data, before, j, end, EncodeFields(Repeated(10, EncodeCommands(ms[n..])) + rest) + s)
    {
      n := n - 1;
      var m := ms[n];
      CommandSizesSuffix(ms, n);
      ChunkFits(SizeCommand(m));
      CommandSize(m);
      ghost var done := Repeated(10, EncodeCommands(ms[n + 1..])) + rest;
      var k := MarshalCommand(m, data, j, end, before, EncodeFields(done) + s);
      j := CloseChunk(data, k, j, 10, EncodeCommand(m), end, before, done, s);
      assert ms[n..][1..] == ms[n + 1..];
      assert Repeated(10, EncodeCommands(ms[n..])) + rest == [Chunk(10, EncodeCommand(m))] + done;
    }
    assert ms[0..] == ms;
  }

  method MarshalTail(m: Command, data: array<byte>, end: nat, ghost limit: nat, ghost before: Bytes, ghost s: Bytes)
    returns (i: nat)
    requires Tail(data, before, end, limit, s) && TailSize(m) <= end && TailSize(m) < TWO_63
    modifies data
    ensures i == end - TailSize(m) && Tail(data, before, i, limit, EncodeFields(CommandTail(m)) + s)
    decreases m, 1
  {
    hide EncodeFields, Tail, Opt, ChunkSize, Flag, FlagSize, CommandSizes, EncodeCommands, Repeated;
    ghost var r3 := Flag(11, m.count) + [];
    ghost var r2 := Repeated(10, EncodeCommands(m.sequence)) + r3;
    NoFields();
    assert EncodeFields([]) + s == s;
    i := PutFlag(data, end, 11, m.count, limit, before, [], s);
    i := MarshalSequence(m.sequence, data, i, limit, before, r3, s);
    i := PutFlag(data, i, 9, m.prevKvs, limit, before, r2, s);
    ChunkFits(|OrEmpty(m.rangeEnd)|);
    i := PutOptBytes(data, i, 8, OrEmpty(m.rangeEnd), m.rangeEnd.Some?, limit, before, Flag(9, m.prevKvs) + r2, s);
  }

  /** `Command.MarshalToSizedBufferVT` on the part of the buffer before `end`. */
  method MarshalCommand(m: Command, data: array<byte>, end: nat, ghost limit: nat, ghost before: Bytes, ghost s: Bytes)
    returns (i: nat)
    requires Tail(data, before, end, limit, s) && SizeCommand(m) <= end && SizeCommand(m) < TWO_63
    modifies data
    ensures i == end - SizeCommand(m) && Tail(data, before, i, limit, EncodeCommand(m) + s)
    decreases m, 3
  {
    hide EncodeFields, Tail, Opt, Blob, Signed, BlobSize, SignedSize, ChunkSize, Varint.Sov, TailSize, CommandTail,
      EncodeTxn, SizeTxn, EncodeKeyValue, SizeKeyValue, EncodeKeyValues, KeyValueSizes, Repeated;
    i := MarshalTail(m, data, end, limit, before, s);
    ghost var r4 := Opt(m.txn.Some?, Chunk(7, TxnBody(m))) + CommandTail(m);
    ghost var r3 := Repeated(6, EncodeKeyValues(m.batch)) + r4;
    ghost var r2 := Opt(m.kv.Some?, Chunk(3, KvBody(m))) + CommandMiddle(m);
    if m.txn.Some? { ChunkFits(SizeTxn(m.txn.value)); }
    i := MarshalTxnField(m, data, i, limit, before, CommandTail(m), s);
    i := MarshalBatch(m.batch, data, i, limit, before, r4, s);
    i := PutOptNumber(data, i, 5, LeaderField(m).v, m.leaderIndex.Some?, limit, before, r3, s);
    if m.kv.Some? { ChunkFits(SizeKeyValue(m.kv.value)); }
    i := MarshalKvField(m, data, i, limit, before, CommandMiddle(m), s);
    i := PutSigned(data, i, 2, m.kind, limit, before, r2, s);
    i := PutBlob(data, i, 1, m.table, limit, before, Signed(2, m.kind) + r2, s);
  }

  method MarshalTxnField(m: Command, data: array<byte>, i: nat,
                         ghost end: nat, ghost before: Bytes, ghost rest: seq<Field>, ghost s: Bytes) returns (j: nat)
    requires Tail(data, before, i, end, EncodeFields(rest) + s)
    requires m.txn.Some? ==> ChunkSize(SizeTxn(m.txn.value)) <= i && SizeTxn(m.txn.value) < TWO_63
    modifies data
    ensures j == i - (if m.txn.Some? then ChunkSize(SizeTxn(m.txn.value)) else 0)
    ensures Tail(data, before, j, end, EncodeFields(Opt(m.txn.Some?, Chunk(7, TxnBody(m))) + rest) + s)
  {
    hide EncodeFields, Tail, ChunkSize, EncodeTxn, SizeTxn;
    if m.txn == None {
      assert Opt(false, Chunk(7, TxnBody(m))) + rest == rest;
      return i;
    }
    ChunkFits(SizeTxn(m.txn.value));
    TxnSize(m.txn.value);
    var k := MarshalTxn.MarshalTxn(m.txn.value, data, i, end, before, EncodeFields(rest) + s);
    j := CloseChunk(data, k, i, 7, EncodeTxn(m.txn.value), end, before, rest, s);
  }

  method MarshalKvField(m: Command, data: array<byte>, i: nat,
                        ghost end: nat, ghost before: Bytes, ghost rest: seq<Field>, ghost s: Bytes) returns (j: nat)
    requires Tail(data, before, i, end, EncodeFields(rest) + s)
    requires m.kv.Some? ==> ChunkSize(SizeKeyValue(m.kv.value)) <= i && SizeKeyValue(m.kv.value) < TWO_63
    modifies data
    ensures j == i - (if m.kv.Some? then ChunkSize(SizeKeyValue(m.kv.value)) else 0)
    ensures Tail(data, before, j, end, EncodeFields(Opt(m.kv.Some?, Chunk(3, KvBody(m))) + rest) + s)
  {
    hide EncodeFields, Tail, ChunkSize, EncodeKeyValue, SizeKeyValue;
    if m.kv == None {
      assert Opt(false, Chunk(3, KvBody(m))) + rest == rest;
      return i;
    }
    ChunkFits(SizeKeyValue(m.kv.value));
    KeyValueSize(m.kv.value);
    var k := MarshalKeyValue(m.kv.value, data, i, end, before, EncodeFields(rest) + s);
    j := CloseChunk(data, k, i, 3, EncodeKeyValue(m.kv.value), end, before, rest, s);
  }

  /** `Command.MarshalVT`: a buffer of the announced size is filled exactly. */
  method MarshalVT(m: Command) returns (bytes: Bytes)
    requires SizeCommand(m) < TWO_63
    ensures bytes == EncodeCommand(m)
    ensures DecodeCommand(bytes) == Some(NormalCommand(m))
  {
    hide EncodeCommand, DecodeCommand, SizeCommand, NormalCommand;
    var data := new byte[SizeCommand(m)];
    ghost var before := data[..];
    assert before == before[..data.Length] + [] + before[data.Length..];
    var i := MarshalCommand(m, data, data.Length, data.Length, before, []);
    assert i == 0;
    assert data[..] == EncodeCommand(m) by { assert before[..0] == [] && before[data.Length..] == []; }
    bytes := data[..];
    CommandRoundTrip(m);
  }

  // ---------- reading ----------

  /** One round of `Command.UnmarshalVT`'s loop. */
  method TakeField(m: Command, f: Field, ghost n: nat) returns (r: Option<Command>)
    requires f.Chunk? ==> |f.data| < n
    ensures r == CommandStep(m, f, n)
    decreases n, 0
  {
    hide Decode, DecodeCommand;
    if (f.num == 3 || f.num == 6) && f.Chunk? {
      var kv := UnmarshalPlain(KeyValueStep, if f.num == 3 && m.kv.Some? then m.kv.value else EMPTY_KV, f.data);
      if kv == None { return None; }
      return Some(if f.num == 3 then m.(kv := Some(kv.value)) else m.(batch := m.batch + [kv.value]));
    } else if f.num == 10 && f.Chunk? {
      var c := UnmarshalCommand(f.data);
      return if c == None then None else Some(m.(sequence := m.sequence + [c.value]));
    } else if f.num == 7 && f.Chunk? {
      var txn := UnmarshalTxn(if m.txn.Some? then m.txn.value else EMPTY_TXN, f.data);
      return if txn == None then None else Some(m.(txn := Some(txn.value)));
    } else if (f.num in {1, 3, 6, 7, 8, 10} && !f.Chunk?) || (f.num in {2, 5, 9, 11} && !f.Number?) {
      return None;
    } else if f.num == 1 {
      return Some(m.(table := f.data));
    } else if f.num == 2 {
      return Some(m.(kind := ToInt32(f.v)));
    } else if f.num == 5 {
      return Some(m.(leaderIndex := Some(f.v)));
    } else if f.num == 8 {
      return Some(m.(rangeEnd := Some(f.data)));
    } else if f.num == 9 {
      return Some(m.(prevKvs := f.v != 0));
    } else if f.num == 11 {
      return Some(m.(count := f.v != 0));
    }
    return Some(m);
  }

  /** `Command.UnmarshalVT`. */
  method UnmarshalCommand(data: Bytes) returns (r: Option<Command>)
    ensures r == DecodeCommand(data)
    decreases |data|, 1
  {
    hide ParseField, CommandStep;
    var i, m := 0, EMPTY_COMMAND;
    while i < |data|
      invariant i <= |data|
      invariant DecodeCommand(data) ==
                match ParseFrom(data, i) case None => None case Some(fs) => CommandFold(m, fs, |data|)
    {
      var f := ReadField(data, i);
      if f == None { return None; }
      var next := TakeField(m, f.value.value, |data|);
      ghost var rest := ParseFrom(data, f.value.next);
      if rest.Some? { assert ([f.value.value] + rest.value)[1..] == rest.value; }
      if next == None { return None; }
      m, i := next.value, f.value.next;
    }
    r := Some(m);
  }
}
