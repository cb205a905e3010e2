/** The formats byte by byte: what the encodings of concrete keys, numbers and messages are. */
module Formats {
  import opened ByteStrings
  import opened Messages
  import opened Wire
  import opened Codec
  import opened CommandCodec
  import Keys
  import LittleEndian
  import Table
  import Varint

  /** A version byte, three zero bytes, the kind, the key. */
  lemma KeyBytes(key: Bytes)
    ensures Keys.EncodeUser(key) == [1, 0, 0, 0, 1] + key
    ensures Keys.Encode(Keys.TYPE_SYSTEM, key) == [1, 0, 0, 0, 2] + key
  {
  }

  /** The least significant byte comes first. */
  lemma NumberBytes(v: nat)
    requires v < 0x1_0000
    ensures LittleEndian.Put64(v) == [v % 256, v / 256, 0, 0, 0, 0, 0, 0]
  {
    assert v / 256 / 256 == 0 && v / 256 % 256 == v / 256;
    assert LittleEndian.Digits(0, 2) == [0, 0];
    assert LittleEndian.Digits(0, 4) == [0, 0] + LittleEndian.Digits(0, 2);
    assert LittleEndian.Digits(0, 6) == [0, 0] + LittleEndian.Digits(0, 4);
    assert LittleEndian.Digits(v / 256, 7) == [v / 256] + LittleEndian.Digits(0, 6);
    assert LittleEndian.Digits(v, 8) == [v % 256] + LittleEndian.Digits(v / 256, 7);
  }

  lemma VarintBytes()
    ensures Varint.Encode(127) == [127] && Varint.Encode(128) == [128, 1] && Varint.Encode(300) == [172, 2]
  {
  }

  /** A sub-message: the tag, the length, the message. */
  function Part(tag: byte, body: Bytes): (s: Bytes)
  {
    [tag, |body| % 256] + body
  }

  lemma PartField(num: nat, body: Bytes, rest: seq<Field>)
    requires 1 <= num < 16 && |body| < 128
    ensures EncodeFields([Chunk(num, body)] + rest) == Part(num * 8 + 2, body) + EncodeFields(rest)
    ensures EncodeFields([]) == []
  {
    SmallTag(num, 2);
    SmallNumber(|body|);
    hide Varint.Encode, Tag;
    assert ([Chunk(num, body)] + rest)[1..] == rest;
    assert [num * 8 + 2] + [|body|] + body == Part(num * 8 + 2, body);
  }

  lemma NumberField(num: nat, v: nat, rest: seq<Field>)
    requires 1 <= num < 16 && v < 128
    ensures EncodeFields([Number(num, v)] + rest) == [num * 8, v] + EncodeFields(rest)
  {
    SmallTag(num, 0);
    SmallNumber(v);
    hide Varint.Encode, Tag;
    assert ([Number(num, v)] + rest)[1..] == rest;
  }

  lemma SmallTag(num: nat, kind: nat)
    requires 1 <= num < 16 && kind < 8
    ensures Tag(num, kind) == [num * 8 + kind]
  {
  }

  lemma SmallNumber(v: nat)
    requires v < 128
    ensures Varint.Encode(v) == [v]
  {
  }

  /** A command with fields that are no list and no transaction. */
  lemma CommandBytes(table: Bytes, kv: KeyValue, leader: nat, end: Bytes)
    requires 0 < |table| < 128 && |EncodeKeyValue(kv)| < 128 && leader < 128 && |end| < 128
    ensures EncodeCommand(Command(table, DELETE, Some(kv), Some(leader), [], None, Some(end), true, [], false)) ==
            Part(10, table) + ([16, 1] + (Part(26, EncodeKeyValue(kv)) + ([40, leader] + (Part(66, end) + [72, 1]))))
    ensures EncodeCommand(EMPTY_COMMAND.(count := true)) == [88, 1]
  {
    var m := Command(table, DELETE, Some(kv), Some(leader), [], None, Some(end), true, [], false);
    CommandList(table, kv, leader, end);
    CountList();
    hide EncodeFields, EncodeKeyValue, Part, CommandFields;
    NumberField(11, 1, []);
    NumberField(9, 1, []);
    PartField(1, table, []);
    assert [72, 1] + [] == [72, 1] && [88, 1] + [] == [88, 1];
    var f1 := [Number(9, 1)] + [];
    PartField(8, end, f1);
    var f2 := [Chunk(8, end)] + f1;
    NumberField(5, leader, f2);
    var f3 := [Number(5, leader)] + f2;
    PartField(3, EncodeKeyValue(kv), f3);
    var f4 := [Chunk(3, EncodeKeyValue(kv))] + f3;
    NumberField(2, 1, f4);
    PartField(1, table, [Number(2, 1)] + f4);
  }

  lemma CommandList(table: Bytes, kv: KeyValue, leader: nat, end: Bytes)
    requires table != [] && leader < 128
    ensures CommandFields(Command(table, DELETE, Some(kv), Some(leader), [], None, Some(end), true, [], false)) ==
            [Chunk(1, table)] +
            ([Number(2, 1)] +
             ([Chunk(3, EncodeKeyValue(kv))] + ([Number(5, leader)] + ([Chunk(8, end)] + ([Number(9, 1)] + [])))))
  {
    hide EncodeKeyValue;
    var m := Command(table, DELETE, Some(kv), Some(leader), [], None, Some(end), true, [], false);
    assert CommandTail(m) == [Chunk(8, end)] + ([Number(9, 1)] + []);
    assert CommandMiddle(m) == [Number(5, leader)] + CommandTail(m);
  }

  lemma CountList()
    ensures CommandFields(EMPTY_COMMAND.(count := true)) == [Number(11, 1)] + []
  {
  }

  lemma KeyValueBytes()
    ensures EncodeKeyValue(KeyValue([1], 3, 4, [2])) == [10, 1, 1, 16, 3, 24, 4, 34, 1, 2]
  {
  }

  /** A command with a batch, a transaction and a sequence. */
  lemma ListBytes(kv: KeyValue, txn: Txn, c: Command)
    requires |EncodeKeyValue(kv)| < 128 && |EncodeTxn(txn)| < 128 && |EncodeCommand(c)| < 128
    ensures EncodeCommand(Command([], SEQUENCE, None, None, [kv], Some(txn), None, false, [c], false)) ==
            [16, 6] + (Part(50, EncodeKeyValue(kv)) + (Part(58, EncodeTxn(txn)) + Part(82, EncodeCommand(c))))
  {
    var m := Command([], SEQUENCE, None, None, [kv], Some(txn), None, false, [c], false);
    ListList(kv, txn, c);
    hide EncodeFields, EncodeKeyValue, EncodeTxn, Part, CommandFields;
    var k, t, s := EncodeKeyValue(kv), EncodeTxn(txn), EncodeCommand(c);
    var f1 := [Chunk(10, s)] + [];
    PartField(10, s, []);
    assert Part(82, s) + [] == Part(82, s);
    PartField(7, t, f1);
    PartField(6, k, [Chunk(7, t)] + f1);
    NumberField(2, 6, [Chunk(6, k)] + ([Chunk(7, t)] + f1));
  }

  lemma ListList(kv: KeyValue, txn: Txn, c: Command)
    ensures CommandFields(Command([], SEQUENCE, None, None, [kv], Some(txn), None, false, [c], false)) ==
            [Number(2, 6)] +
            ([Chunk(6, EncodeKeyValue(kv))] + ([Chunk(7, EncodeTxn(txn))] + ([Chunk(10, EncodeCommand(c))] + [])))
  {
    hide EncodeKeyValue, EncodeTxn, EncodeFields;
    var m := Command([], SEQUENCE, None, None, [kv], Some(txn), None, false, [c], false);
    OneOf(kv, c);
    assert CommandTail(m) == [Chunk(10, EncodeCommand(c))] + [];
    assert CommandMiddle(m) == [Chunk(6, EncodeKeyValue(kv))] + ([Chunk(7, EncodeTxn(txn))] + CommandTail(m));
  }

  lemma OneOf(kv: KeyValue, c: Command)
    ensures Repeated(6, EncodeKeyValues([kv])) == [Chunk(6, EncodeKeyValue(kv))]
    ensures Repeated(10, EncodeCommands([c])) == [Chunk(10, EncodeCommand(c))]
  {
    hide EncodeKeyValue;
  }

  /** A transaction is its comparisons and the operations of both branches. */
  lemma TxnBytes(c: Compare, yes: RequestOp, no: RequestOp)
    requires |EncodeCompare(c)| < 128 && |EncodeRequest(yes)| < 128 && |EncodeRequest(no)| < 128
    ensures EncodeTxn(Txn([c], [yes], [no])) ==
            Part(10, EncodeCompare(c)) + Part(18, EncodeRequest(yes)) + Part(26, EncodeRequest(no))
  {
    hide EncodeFields, EncodeCompare, EncodeRequest, Part;
    var y, n := Chunk(2, EncodeRequest(yes)), Chunk(3, EncodeRequest(no));
    OneCompare(c);
    OneRequest(yes);
    OneRequest(no);
    assert TxnFields(Txn([c], [yes], [no])) == [Chunk(1, EncodeCompare(c))] + ([y] + ([n] + []));
    PartField(3, EncodeRequest(no), []);
    PartField(2, EncodeRequest(yes), [n] + []);
    PartField(1, EncodeCompare(c), [y] + ([n] + []));
  }

  lemma OneCompare(c: Compare)
    ensures EncodeCompares([c]) == [EncodeCompare(c)] && Repeated(1, [EncodeCompare(c)]) == [Chunk(1, EncodeCompare(c))]
  {
    hide EncodeCompare;
  }

  lemma OneRequest(op: RequestOp)
    ensures EncodeRequests([op]) == [EncodeRequest(op)]
    ensures forall num: nat :: Repeated(num, [EncodeRequest(op)]) == [Chunk(num, EncodeRequest(op))]
  {
    hide EncodeRequest;
  }

  lemma CompareBytes()
    ensures EncodeCompare(Compare(LESS, VALUE, [1], Some([2]), Some([3]))) == [8, 2, 26, 1, 1, 130, 4, 1, 3, 34, 1, 2]
  {
  }

  /** The operations by their number, and their fields. */
  lemma RequestBytes(range: RangeOp, put: PutOp, del: DeleteOp)
    requires |EncodeFields(RangeFields(range))| < 128
    requires |EncodeFields(PutFields(put))| < 128 && |EncodeFields(DeleteFields(del))| < 128
    ensures EncodeRequest(RequestRange(range)) == Part(10, EncodeFields(RangeFields(range)))
    ensures EncodeRequest(RequestPut(put)) == Part(18, EncodeFields(PutFields(put)))
    ensures EncodeRequest(RequestDelete(del)) == Part(26, EncodeFields(DeleteFields(del)))
    ensures EncodeRequest(RequestNone) == []
  {
    hide EncodeFields, RangeFields, PutFields, DeleteFields, Part;
    PartField(1, EncodeFields(RangeFields(range)), []);
    PartField(2, EncodeFields(PutFields(put)), []);
    PartField(3, EncodeFields(DeleteFields(del)), []);
    assert forall f: Field :: [f] + [] == [f];
  }

  lemma RangeBytes()
    ensures EncodeFields(RangeFields(RangeOp([1], Some([2]), 5, true, false))) == [10, 1, 1, 18, 1, 2, 24, 5, 32, 1]
  {
  }

  lemma PutBytes()
    ensures EncodeFields(PutFields(PutOp([1], [2], true))) == [10, 1, 1, 18, 1, 2, 24, 1]
  {
  }

  lemma DeleteBytes()
    ensures EncodeFields(DeleteFields(DeleteOp([1], Some([2]), true, false))) == [10, 1, 1, 18, 1, 2, 32, 1]
  {
  }

  // ---------- responses ----------

  /** The response to a range read on the wire. */
  function ResponseFields(r: RangeResponse): (fs: seq<Field>)
    requires r.count < TWO_63
  {
    Repeated(1, EncodeKeyValues(r.kvs)) + (Flag(2, r.more) + (Signed(3, r.count) + []))
  }

  lemma {:induction false} SizesMore(a: seq<KeyValue>, kv: KeyValue)
    ensures KeyValueSizes(a + [kv]) == KeyValueSizes(a) + ChunkSize(SizeKeyValue(kv))
    decreases |a|
  {
    hide ChunkSize, SizeKeyValue;
    if a == [] {
      assert a + [kv] == [kv] && KeyValueSizes([kv][1..]) == 0;
    } else {
      assert (a + [kv])[1..] == a[1..] + [kv];
      SizesMore(a[1..], kv);
    }
  }

  lemma {:induction false} KvsSizes(kvs: seq<KeyValue>)
    ensures Table.KvsSize(kvs) == KeyValueSizes(kvs)
    decreases |kvs|
  {
    hide ChunkSize, SizeKeyValue;
    if kvs != [] {
      var n := |kvs| - 1;
      assert kvs == kvs[..n] + [kvs[n]];
      KvsSizes(kvs[..n]);
      SizesMore(kvs[..n], kvs[n]);
    }
  }

  /** The size a range read keeps below its limit is that of the response on the wire. */
  lemma ResponseSize(r: RangeResponse)
    requires r.count < TWO_63
    ensures |EncodeFields(ResponseFields(r))| == Table.SizeResponse(r)
  {
    hide EncodeFields, Repeated, Flag, Signed, Varint.Sov, Varint.Encode;
    KeyValueListSize(1, r.kvs, Flag(2, r.more) + (Signed(3, r.count) + []));
    FlagFieldSize(2, r.more, Signed(3, r.count) + []);
    SignedFieldSize(3, r.count, []);
    KvsSizes(r.kvs);
    NoFields();
  }

  lemma NoFields()
    ensures EncodeFields([]) == []
  {
  }
}
