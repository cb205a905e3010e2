/** The codec of log commands, which nest: a sequence holds commands. */
module CommandCodec {
  import opened ByteStrings
  import opened Messages
  import opened Wire
  import opened Codec
  import Varint

  const EMPTY_COMMAND: Command := Command([], 0, None, None, [], None, None, false, [], false)

  function EncodeKeyValues(ms: seq<KeyValue>): (bodies: seq<Bytes>)
    ensures |bodies| == |ms|
  {
    if ms == [] then [] else [EncodeKeyValue(ms[0])] + EncodeKeyValues(ms[1..])
  }

  function EncodeCommands(ms: seq<Command>): (bodies: seq<Bytes>)
    ensures |bodies| == |ms|
    decreases ms, 0
  {
    if ms == [] then [] else [EncodeCommand(ms[0])] + EncodeCommands(ms[1..])
  }

  function KeyValueSizes(ms: seq<KeyValue>): (n: nat)
  {
    if ms == [] then 0 else ChunkSize(SizeKeyValue(ms[0])) + KeyValueSizes(ms[1..])
  }

  function CommandSizes(ms: seq<Command>): (n: nat)
    decreases ms, 0
  {
    if ms == [] then 0 else ChunkSize(SizeCommand(ms[0])) + CommandSizes(ms[1..])
  }

  /** The fields behind the transaction. */
  function CommandTail(m: Command): (fs: seq<Field>)
    decreases m, 1
  {
    BlobOption(8, m.rangeEnd) +
    (Flag(9, m.prevKvs) + (Repeated(10, EncodeCommands(m.sequence)) + (Flag(11, m.count) + [])))
  }

  function KvBody(m: Command): (s: Bytes)
  {
    if m.kv.Some? then EncodeKeyValue(m.kv.value) else []
  }

  function TxnBody(m: Command): (s: Bytes)
  {
    if m.txn.Some? then EncodeTxn(m.txn.value) else []
  }

  function LeaderField(m: Command): (f: Field)
  {
    Number(5, if m.leaderIndex.Some? then m.leaderIndex.value else 0)
  }

  /** The fields behind the key-value pair. */
  function CommandMiddle(m: Command): (fs: seq<Field>)
    decreases m, 2
  {
    Opt(m.leaderIndex.Some?, LeaderField(m)) + (Repeated(6, EncodeKeyValues(m.batch)) +
    (Opt(m.txn.Some?, Chunk(7, TxnBody(m))) + CommandTail(m)))
  }

  function CommandFields(m: Command): (fs: seq<Field>)
    decreases m, 3
  {
    Blob(1, m.table) + (Signed(2, m.kind) + (Opt(m.kv.Some?, Chunk(3, KvBody(m))) + CommandMiddle(m)))
  }

  function EncodeCommand(m: Command): (s: Bytes)
    decreases m, 4
  {
    EncodeFields(CommandFields(m))
  }

  function TailSize(m: Command): (n: nat)
    decreases m, 1
  {
    (if m.rangeEnd.Some? then ChunkSize(|m.rangeEnd.value|) else 0) +
    FlagSize(m.prevKvs) + CommandSizes(m.sequence) + FlagSize(m.count)
  }

  function MiddleSize(m: Command): (n: nat)
    decreases m, 2
  {
    (if m.leaderIndex.Some? then 1 + Varint.Sov(m.leaderIndex.value) else 0) +
    KeyValueSizes(m.batch) +
    (if m.txn.Some? then ChunkSize(SizeTxn(m.txn.value)) else 0) + TailSize(m)
  }

  function SizeCommand(m: Command): (n: nat)
    decreases m, 3
  {
    BlobSize(m.table) + SignedSize(m.kind) +
    (if m.kv.Some? then ChunkSize(SizeKeyValue(m.kv.value)) else 0) + MiddleSize(m)
  }

  // ---------- decoding ----------

  predicate Bounded(fs: seq<Field>, n: nat)
  {
    forall f :: f in fs && f.Chunk? ==> |f.data| < n
  }

  /** Take one field into the message. A field of a known number with the wrong wire type is
      an error, an unknown number is skipped, `Kv` and `Txn` are merged into. */
  function CommandStep(acc: Command, f: Field, n: nat): (r: Option<Command>)
    requires f.Chunk? ==> |f.data| < n
    decreases n, 0, 0
  {
    if f.num == 1 then if f.Chunk? then Some(acc.(table := f.data)) else None
    else if f.num == 2 then if f.Number? then Some(acc.(kind := ToInt32(f.v))) else None
    else if f.num == 3 then
      if !f.Chunk? then None
      else
        match Decode(KeyValueStep, if acc.kv.Some? then acc.kv.value else EMPTY_KV, f.data)
        case None => None
        case Some(kv) => Some(acc.(kv := Some(kv)))
    else if f.num == 5 then if f.Number? then Some(acc.(leaderIndex := Some(f.v))) else None
    else if f.num == 6 then
      if !f.Chunk? then None
      else
        match Decode(KeyValueStep, EMPTY_KV, f.data)
        case None => None
        case Some(kv) => Some(acc.(batch := acc.batch + [kv]))
    else if f.num == 7 then
      if !f.Chunk? then None
      else
        match Decode(TxnStep, if acc.txn.Some? then acc.txn.value else EMPTY_TXN, f.data)
        case None => None
        case Some(txn) => Some(acc.(txn := Some(txn)))
    else if f.num == 8 then if f.Chunk? then Some(acc.(rangeEnd := Some(f.data))) else None
    else if f.num == 9 then if f.Number? then Some(acc.(prevKvs := f.v != 0)) else None
    else if f.num == 10 then
      if !f.Chunk? then None
      else
        match DecodeCommand(f.data)
        case None => None
        case Some(c) => Some(acc.(sequence := acc.sequence + [c]))
    else if f.num == 11 then if f.Number? then Some(acc.(count := f.v != 0)) else None
    else Some(acc)
  }

  function CommandFold(acc: Command, fs: seq<Field>, n: nat): (r: Option<Command>)
    requires Bounded(fs, n)
    decreases n, 1, |fs|
  {
    if fs == [] then Some(acc)
    else
      match CommandStep(acc, fs[0], n)
      case None => None
      case Some(next) => CommandFold(next, fs[1..], n)
  }

  function DecodeCommand(s: Bytes): (r: Option<Command>)
    decreases |s|, 2, 0
  {
    match ParseFrom(s, 0)
    case None => None
    case Some(fs) => CommandFold(EMPTY_COMMAND, fs, |s|)
  }

  // ---------- what the round trip keeps ----------

  function NormalCommands(ms: seq<Command>): (r: seq<Command>)
    ensures |r| == |ms|
    decreases ms, 0
  {
    if ms == [] then [] else [NormalCommand(ms[0])] + NormalCommands(ms[1..])
  }

  /** Empty range ends inside transactions are dropped by the encoding; everything else is kept. */
  function NormalCommand(m: Command): (r: Command)
    decreases m, 1
  {
    m.(txn := if m.txn.Some? then Some(NormalTxn(m.txn.value)) else None,
       sequence := NormalCommands(m.sequence))
  }

  // ---------- sizes ----------

  lemma {:induction false} KeyValueListSize(num: nat, ms: seq<KeyValue>, rest: seq<Field>)
    requires 1 <= num < 16
    ensures |EncodeFields(Repeated(num, EncodeKeyValues(ms)) + rest)| == KeyValueSizes(ms) + |EncodeFields(rest)|
    decreases |ms|
  {
    hide EncodeField, EncodeKeyValue, SizeKeyValue, ChunkSize;
    var fs := Repeated(num, EncodeKeyValues(ms)) + rest;
    if ms == [] {
      assert fs == rest;
    } else {
      assert fs[1..] == Repeated(num, EncodeKeyValues(ms[1..])) + rest;
      KeyValueSize(ms[0]);
      FieldSize(Chunk(num, EncodeKeyValue(ms[0])));
      KeyValueListSize(num, ms[1..], rest);
    }
  }

  lemma {:induction false} CommandListSize(ms: seq<Command>, rest: seq<Field>)
    ensures |EncodeFields(Repeated(10, EncodeCommands(ms)) + rest)| == CommandSizes(ms) + |EncodeFields(rest)|
    decreases ms, 0
  {
    hide EncodeField, EncodeCommand, SizeCommand, ChunkSize;
    var fs := Repeated(10, EncodeCommands(ms)) + rest;
    if ms == [] {
      assert fs == rest;
    } else {
      assert fs[1..] == Repeated(10, EncodeCommands(ms[1..])) + rest;
      CommandSize(ms[0]);
      FieldSize(Chunk(10, EncodeCommand(ms[0])));
      CommandListSize(ms[1..], rest);
    }
  }

  lemma ChunkFieldSize(num: nat, present: bool, data: Bytes, rest: seq<Field>)
    requires 1 <= num < 16
    ensures |EncodeFields(Opt(present, Chunk(num, data)) + rest)| ==
            (if present then ChunkSize(|data|) else 0) + |EncodeFields(rest)|
  {
    hide EncodeField, EncodeFields, ChunkSize;
    OptSize(present, Chunk(num, data), rest);
    FieldSize(Chunk(num, data));
  }

  lemma {:induction false} CommandTailSize(m: Command)
    ensures |EncodeFields(CommandTail(m))| == TailSize(m)
    decreases m, 1
  {
    hide EncodeField, ChunkSize, Repeated, EncodeCommands, CommandSizes;
    var r3 := Flag(11, m.count) + [];
    var r2 := Repeated(10, EncodeCommands(m.sequence)) + r3;
    ChunkFieldSize(8, m.rangeEnd.Some?, OrEmpty(m.rangeEnd), Flag(9, m.prevKvs) + r2);
    FlagFieldSize(9, m.prevKvs, r2);
    CommandListSize(m.sequence, r3);
    FlagFieldSize(11, m.count, []);
  }

  lemma {:induction false} CommandMiddleSize(m: Command)
    ensures |EncodeFields(CommandMiddle(m))| == MiddleSize(m)
    decreases m, 2
  {
    hide EncodeField, EncodeFields, Opt, ChunkSize, Repeated, EncodeKeyValues, KeyValueSizes, CommandTail, TailSize,
      Varint.Sov, EncodeTxn, SizeTxn;
    var r2 := Opt(m.txn.Some?, Chunk(7, TxnBody(m))) + CommandTail(m);
    OptSize(m.leaderIndex.Some?, LeaderField(m), Repeated(6, EncodeKeyValues(m.batch)) + r2);
    FieldSize(LeaderField(m));
    KeyValueListSize(6, m.batch, r2);
    ChunkFieldSize(7, m.txn.Some?, TxnBody(m), CommandTail(m));
    if m.txn.Some? { TxnSize(m.txn.value); }
    CommandTailSize(m);
  }

  /** The encoding of a command has exactly the announced size. */
  lemma {:induction false} CommandSize(m: Command)
    ensures |EncodeCommand(m)| == SizeCommand(m)
    decreases m, 3
  {
    hide EncodeField, EncodeFields, Opt, Blob, Signed, BlobSize, SignedSize, ChunkSize, CommandMiddle, MiddleSize,
      EncodeKeyValue, SizeKeyValue;
    var r2 := Opt(m.kv.Some?, Chunk(3, KvBody(m))) + CommandMiddle(m);
    BlobFieldSize(1, m.table, Signed(2, m.kind) + r2);
    SignedFieldSize(2, m.kind, r2);
    ChunkFieldSize(3, m.kv.Some?, KvBody(m), CommandMiddle(m));
    if m.kv.Some? { KeyValueSize(m.kv.value); }
    CommandMiddleSize(m);
  }

  // ---------- round trip ----------

  lemma CommandFoldOpt(acc: Command, present: bool, f: Field, rest: seq<Field>, n: nat)
    requires Bounded(Opt(present, f) + rest, n)
    ensures Bounded(rest, n)
    ensures present && f.Chunk? ==> |f.data| < n
    ensures CommandFold(acc, Opt(present, f) + rest, n) ==
            if !present then CommandFold(acc, rest, n)
            else match CommandStep(acc, f, n) case None => None case Some(next) => CommandFold(next, rest, n)
  {
    hide CommandStep;
    assert forall g :: g in rest ==> g in Opt(present, f) + rest;
    if present {
      assert f in Opt(present, f) + rest;
      assert (Opt(present, f) + rest)[1..] == rest;
    } else {
      assert Opt(present, f) + rest == rest;
    }
  }

  /** The fields that are taken as they are. */
  lemma BlobSteps(acc: Command, data: Bytes, n: nat)
    requires |data| < n
    ensures CommandStep(acc, Chunk(1, data), n) == Some(acc.(table := data))
    ensures CommandStep(acc, Chunk(8, data), n) == Some(acc.(rangeEnd := Some(data)))
  {
  }

  lemma NumberSteps(acc: Command, v: uint64, n: nat)
    ensures CommandStep(acc, Number(2, v), n) == Some(acc.(kind := ToInt32(v)))
    ensures CommandStep(acc, Number(5, v), n) == Some(acc.(leaderIndex := Some(v)))
    ensures CommandStep(acc, Number(9, v), n) == Some(acc.(prevKvs := v != 0))
    ensures CommandStep(acc, Number(11, v), n) == Some(acc.(count := v != 0))
  {
    hide ToInt32;
  }

  lemma KvStep(acc: Command, kv: KeyValue, n: nat)
    requires |EncodeKeyValue(kv)| < n && SizeKeyValue(kv) < TWO_63
    ensures acc.kv == None ==> CommandStep(acc, Chunk(3, EncodeKeyValue(kv)), n) == Some(acc.(kv := Some(kv)))
    ensures CommandStep(acc, Chunk(6, EncodeKeyValue(kv)), n) == Some(acc.(batch := acc.batch + [kv]))
  {
    hide Decode, EncodeKeyValue, SizeKeyValue;
    KeyValueRoundTrip(kv);
  }

  lemma TxnFieldStep(acc: Command, txn: Txn, n: nat)
    requires |EncodeTxn(txn)| < n && SizeTxn(txn) < TWO_63 && acc.txn == None
    ensures CommandStep(acc, Chunk(7, EncodeTxn(txn)), n) == Some(acc.(txn := Some(NormalTxn(txn))))
  {
    hide Decode, EncodeTxn, SizeTxn, NormalTxn;
    TxnRoundTrip(txn);
  }

  lemma SequenceStep(acc: Command, data: Bytes, c: Command, n: nat)
    requires |data| < n && DecodeCommand(data) == Some(c)
    ensures CommandStep(acc, Chunk(10, data), n) == Some(acc.(sequence := acc.sequence + [c]))
  {
    hide DecodeCommand;
  }

  lemma {:induction false} BatchListFold(acc: Command, ms: seq<KeyValue>, rest: seq<Field>, n: nat)
    requires Bounded(Repeated(6, EncodeKeyValues(ms)) + rest, n) && KeyValueSizes(ms) < TWO_63
    ensures Bounded(rest, n)
    ensures CommandFold(acc, Repeated(6, EncodeKeyValues(ms)) + rest, n) ==
            CommandFold(acc.(batch := acc.batch + ms), rest, n)
    decreases |ms|
  {
    hide CommandFold, CommandStep, EncodeKeyValue, SizeKeyValue, Bounded, ChunkSize;
    var fs := Repeated(6, EncodeKeyValues(ms));
    if ms == [] {
      assert fs + rest == rest && acc.batch + ms == acc.batch;
    } else {
      var f := Chunk(6, EncodeKeyValue(ms[0]));
      var tail := Repeated(6, EncodeKeyValues(ms[1..])) + rest;
      assert fs + rest == Opt(true, f) + tail;
      CommandFoldOpt(acc, true, f, tail, n);
      ChunkSizeBound(SizeKeyValue(ms[0]));
      KvStep(acc, ms[0], n);
      var acc' := acc.(batch := acc.batch + [ms[0]]);
      BatchListFold(acc', ms[1..], rest, n);
      assert acc.batch + ms == acc'.batch + ms[1..];
    }
  }

  lemma {:induction false} SequenceListFold(acc: Command, ms: seq<Command>, rest: seq<Field>, n: nat)
    requires Bounded(Repeated(10, EncodeCommands(ms)) + rest, n) && CommandSizes(ms) < TWO_63
    ensures Bounded(rest, n)
    ensures CommandFold(acc, Repeated(10, EncodeCommands(ms)) + rest, n) ==
            CommandFold(AddSequence(acc, NormalCommands(ms)), rest, n)
    decreases ms, 0
  {
    hide CommandFold, CommandStep, EncodeCommand, SizeCommand, DecodeCommand, NormalCommand, Bounded, ChunkSize,
      Repeated, AddSequence;
    SequenceFieldsStep(ms, rest);
    if ms == [] {
      AddNothing(acc);
    } else {
      ChunkSizeBound(SizeCommand(ms[0]));
      CommandRoundTrip(ms[0]);
      SequenceFoldStep(acc, ms[0], Repeated(10, EncodeCommands(ms[1..])) + rest, n);
      SequenceListFold(AddSequence(acc, [NormalCommand(ms[0])]), ms[1..], rest, n);
      AddTwice(acc, [NormalCommand(ms[0])], NormalCommands(ms[1..]));
    }
  }

  function AddSequence(acc: Command, cs: seq<Command>): (r: Command)
  {
    acc.(sequence := acc.sequence + cs)
  }

  lemma AddNothing(acc: Command)
    ensures AddSequence(acc, []) == acc
  {
    assert acc.sequence + [] == acc.sequence;
  }

  lemma AddTwice(acc: Command, a: seq<Command>, b: seq<Command>)
    ensures AddSequence(AddSequence(acc, a), b) == AddSequence(acc, a + b)
  {
    assert acc.sequence + a + b == acc.sequence + (a + b);
  }

  lemma SequenceFoldStep(acc: Command, c: Command, tail: seq<Field>, n: nat)
    requires Bounded(Opt(true, Chunk(10, EncodeCommand(c))) + tail, n)
    requires DecodeCommand(EncodeCommand(c)) == Some(NormalCommand(c))
    ensures Bounded(tail, n)
    ensures CommandFold(acc, Opt(true, Chunk(10, EncodeCommand(c))) + tail, n) ==
            CommandFold(AddSequence(acc, [NormalCommand(c)]), tail, n)
  {
    hide CommandFold, CommandStep, EncodeCommand, DecodeCommand, NormalCommand, Bounded;
    CommandFoldOpt(acc, true, Chunk(10, EncodeCommand(c)), tail, n);
    SequenceStep(acc, EncodeCommand(c), NormalCommand(c), n);
  }

  lemma SequenceFieldsStep(ms: seq<Command>, rest: seq<Field>)
    ensures Repeated(10, EncodeCommands(ms)) + rest ==
            if ms == [] then rest
            else Opt(true, Chunk(10, EncodeCommand(ms[0]))) + (Repeated(10, EncodeCommands(ms[1..])) + rest)
  {
    hide EncodeCommand;
  }

  lemma CommandFoldDone(acc: Command, n: nat)
    ensures CommandFold(acc, [], n) == Some(acc)
  {
    hide CommandStep;
  }

  lemma {:induction false} CommandTailFold(acc: Command, m: Command, n: nat)
    requires acc.sequence == [] && acc.rangeEnd == None && !acc.prevKvs && !acc.count
    requires Bounded(CommandTail(m), n) && CommandSizes(m.sequence) < TWO_63
    ensures CommandFold(acc, CommandTail(m), n) ==
            Some(acc.(rangeEnd := m.rangeEnd, prevKvs := m.prevKvs, sequence := NormalCommands(m.sequence),
                      count := m.count))
    decreases m, 1
  {
    hide CommandFold, CommandStep, Bounded, Repeated, EncodeCommands, NormalCommands, CommandSizes;
    var r3 := Flag(11, m.count) + [];
    var r2 := Repeated(10, EncodeCommands(m.sequence)) + r3;
    var a1 := acc.(rangeEnd := m.rangeEnd);
    var a2 := a1.(prevKvs := m.prevKvs);
    CommandFoldOpt(acc, m.rangeEnd.Some?, Chunk(8, OrEmpty(m.rangeEnd)), Flag(9, m.prevKvs) + r2, n);
    if m.rangeEnd.Some? { BlobSteps(acc, m.rangeEnd.value, n); }
    CommandFoldOpt(a1, m.prevKvs, Number(9, 1), r2, n);
    NumberSteps(a1, 1, n);
    SequenceListFold(a2, m.sequence, r3, n);
    assert a2.sequence + NormalCommands(m.sequence) == NormalCommands(m.sequence);
    var a3 := a2.(sequence := NormalCommands(m.sequence));
    CommandFoldOpt(a3, m.count, Number(11, 1), [], n);
    NumberSteps(a3, 1, n);
    CommandFoldDone(a3.(count := m.count), n);
  }

  lemma {:induction false} CommandMiddleFold(acc: Command, m: Command, n: nat)
    requires acc == EMPTY_COMMAND.(table := acc.table, kind := acc.kind, kv := acc.kv)
    requires Bounded(CommandMiddle(m), n) && MiddleSize(m) < TWO_63
    ensures CommandFold(acc, CommandMiddle(m), n) ==
            Some(NormalCommand(m).(table := acc.table, kind := acc.kind, kv := acc.kv))
    decreases m, 2
  {
    hide CommandFold, CommandStep, Bounded, Repeated, EncodeKeyValues, EncodeTxn, SizeTxn, KeyValueSizes, CommandTail,
      CommandSizes, NormalTxn, NormalCommands, ChunkSize;
    var r2 := Opt(m.txn.Some?, Chunk(7, TxnBody(m))) + CommandTail(m);
    var r1 := Repeated(6, EncodeKeyValues(m.batch)) + r2;
    var a1 := acc.(leaderIndex := m.leaderIndex);
    CommandFoldOpt(acc, m.leaderIndex.Some?, LeaderField(m), r1, n);
    NumberSteps(acc, LeaderField(m).v, n);
    BatchListFold(a1, m.batch, r2, n);
    assert a1.batch + m.batch == m.batch;
    var a2 := a1.(batch := m.batch);
    CommandFoldOpt(a2, m.txn.Some?, Chunk(7, TxnBody(m)), CommandTail(m), n);
    if m.txn.Some? {
      ChunkSizeBound(SizeTxn(m.txn.value));
      TxnFieldStep(a2, m.txn.value, n);
    }
    CommandTailFold(a2.(txn := if m.txn.Some? then Some(NormalTxn(m.txn.value)) else None), m, n);
  }

  lemma ChunkSizeBound(length: nat)
    ensures length < ChunkSize(length)
  {
  }

  lemma CommandFieldsFold(m: Command, n: nat)
    requires Bounded(CommandFields(m), n) && SizeCommand(m) < TWO_63
    ensures CommandFold(EMPTY_COMMAND, CommandFields(m), n) == Some(NormalCommand(m))
    decreases m, 3
  {
    hide CommandFold, CommandStep, Bounded, EncodeKeyValue, SizeKeyValue, CommandMiddle, MiddleSize, NormalCommand,
      ChunkSize, BlobSize, SignedSize, ToInt32, ToUint64;
    var r2 := Opt(m.kv.Some?, Chunk(3, KvBody(m))) + CommandMiddle(m);
    var a1 := EMPTY_COMMAND.(table := m.table);
    var a2 := a1.(kind := m.kind);
    CommandFoldOpt(EMPTY_COMMAND, m.table != [], Chunk(1, m.table), Signed(2, m.kind) + r2, n);
    if m.table != [] { BlobSteps(EMPTY_COMMAND, m.table, n); }
    CommandFoldOpt(a1, m.kind != 0, Number(2, ToUint64(m.kind)), r2, n);
    NumberSteps(a1, ToUint64(m.kind), n);
    SignedRoundTrip(m.kind);
    CommandFoldOpt(a2, m.kv.Some?, Chunk(3, KvBody(m)), CommandMiddle(m), n);
    if m.kv.Some? {
      ChunkSizeBound(SizeKeyValue(m.kv.value));
      KvStep(a2, m.kv.value, n);
    }
    CommandMiddleFold(a2.(kv := m.kv), m, n);
    NormalKeepsPlain(m);
  }

  lemma NormalKeepsPlain(m: Command)
    ensures NormalCommand(m).(table := m.table, kind := m.kind, kv := m.kv) == NormalCommand(m)
  {
  }

  lemma CommandTagged(m: Command)
    ensures Tagged(CommandFields(m))
  {
    hide Tagged, Opt, Repeated, EncodeKeyValues, EncodeCommands, TxnBody, KvBody;
    NothingTagged();
    var r3 := Flag(11, m.count) + [];
    OptTagged(m.count, Number(11, 1), []);
    RepeatedTagged(10, EncodeCommands(m.sequence));
    TaggedConcat(Repeated(10, EncodeCommands(m.sequence)), r3);
    OptTagged(m.prevKvs, Number(9, 1), Repeated(10, EncodeCommands(m.sequence)) + r3);
    OptTagged(m.rangeEnd.Some?, Chunk(8, OrEmpty(m.rangeEnd)),
      Flag(9, m.prevKvs) + (Repeated(10, EncodeCommands(m.sequence)) + r3));
    var r2 := Opt(m.txn.Some?, Chunk(7, TxnBody(m))) + CommandTail(m);
    OptTagged(m.txn.Some?, Chunk(7, TxnBody(m)), CommandTail(m));
    RepeatedTagged(6, EncodeKeyValues(m.batch));
    TaggedConcat(Repeated(6, EncodeKeyValues(m.batch)), r2);
    OptTagged(m.leaderIndex.Some?, LeaderField(m), Repeated(6, EncodeKeyValues(m.batch)) + r2);
    OptTagged(m.kv.Some?, Chunk(3, KvBody(m)), CommandMiddle(m));
    OptTagged(m.kind != 0, Number(2, ToUint64(m.kind)), Opt(m.kv.Some?, Chunk(3, KvBody(m))) + CommandMiddle(m));
    OptTagged(m.table != [], Chunk(1, m.table),
              Signed(2, m.kind) + (Opt(m.kv.Some?, Chunk(3, KvBody(m))) + CommandMiddle(m)));
  }

  /** Decoding the encoding of any command gives the command back, up to empty range ends
      inside its transactions. */
  lemma {:induction false} CommandRoundTrip(m: Command)
    requires SizeCommand(m) < TWO_63
    ensures DecodeCommand(EncodeCommand(m)) == Some(NormalCommand(m))
    decreases m, 4
  {
    hide CommandFold, CommandFields, EncodeField, EncodeFields, NormalCommand, ParseFrom, SizeCommand;
    var fs := CommandFields(m);
    CommandSize(m);
    CommandTagged(m);
    AllEncodable(fs);
    ParseEncode(fs);
    CommandFieldsFold(m, |EncodeFields(fs)|);
  }

  /** A command survives the round trip exactly when it has no empty range end in a
      transaction, at any depth. */
  lemma RoundTripExact(m: Command)
    requires SizeCommand(m) < TWO_63
    ensures DecodeCommand(EncodeCommand(m)) == Some(m) <==> Canonical(m)
  {
    hide DecodeCommand, EncodeCommand, SizeCommand;
    CommandRoundTrip(m);
    NormalFixpoint(m);
  }

  predicate FullEnd(end: Option<Bytes>)
  {
    end != Some([])
  }

  ghost predicate CanonicalTxn(m: Txn)
  {
    (forall c :: c in m.compare ==> FullEnd(c.rangeEnd)) &&
    (forall op :: op in m.success || op in m.failure ==>
      (op.RequestRange? ==> FullEnd(op.range.rangeEnd)) && (op.RequestDelete? ==> FullEnd(op.del.rangeEnd)))
  }

  /** No transaction in the command carries a range end that is present but empty. */
  ghost predicate Canonical(m: Command)
  {
    (m.txn.Some? ==> CanonicalTxn(m.txn.value)) && forall c :: c in m.sequence ==> Canonical(c)
  }

  lemma NormalTxnFixpoint(m: Txn)
    ensures NormalTxn(m) == m <==> CanonicalTxn(m)
  {
    if NormalTxn(m) == m {
      forall c | c in m.compare ensures FullEnd(c.rangeEnd) {
        var i :| 0 <= i < |m.compare| && m.compare[i] == c;
        assert NormalCompares(m.compare)[i] == c;
      }
      forall op | op in m.success || op in m.failure ensures NormalRequest(op) == op {
        if op in m.success {
          var i :| 0 <= i < |m.success| && m.success[i] == op;
          assert NormalRequests(m.success)[i] == op;
        } else {
          var i :| 0 <= i < |m.failure| && m.failure[i] == op;
          assert NormalRequests(m.failure)[i] == op;
        }
      }
    }
    if CanonicalTxn(m) {
      assert NormalCompares(m.compare) == m.compare;
      assert NormalRequests(m.success) == m.success;
      assert NormalRequests(m.failure) == m.failure;
    }
  }

  lemma {:induction false} NormalFixpoint(m: Command)
    ensures NormalCommand(m) == m <==> Canonical(m)
    decreases m, 1
  {
    hide NormalTxn, CanonicalTxn;
    if m.txn.Some? { NormalTxnFixpoint(m.txn.value); }
    NormalListFixpoint(m.sequence);
  }

  lemma {:induction false} NormalListFixpoint(ms: seq<Command>)
    ensures NormalCommands(ms) == ms <==> forall c :: c in ms ==> Canonical(c)
    decreases ms, 0
  {
    if ms != [] {
      hide Canonical, NormalCommand;
      NormalFixpoint(ms[0]);
      NormalListFixpoint(ms[1..]);
      ConsEqual(NormalCommand(ms[0]), NormalCommands(ms[1..]), ms);
      ConsCanonical(ms);
    }
  }

  lemma ConsEqual<T>(head: T, tail: seq<T>, all: seq<T>)
    requires all != []
    ensures [head] + tail == all <==> head == all[0] && tail == all[1..]
  {
    assert all == [all[0]] + all[1..];
    assert ([head] + tail)[1..] == tail;
  }

  lemma ConsCanonical(ms: seq<Command>)
    requires ms != []
    ensures (forall c :: c in ms ==> Canonical(c)) <==> Canonical(ms[0]) && forall c :: c in ms[1..] ==> Canonical(c)
  {
    hide Canonical;
    assert ms == [ms[0]] + ms[1..];
  }

  /** What decoding returns survives any further round trip. */
  lemma {:induction false} NormalIsCanonical(m: Command)
    ensures Canonical(NormalCommand(m))
    decreases m, 1
  {
    hide NormalTxn, CanonicalTxn;
    if m.txn.Some? { NormalTxnIsCanonical(m.txn.value); }
    NormalListIsCanonical(m.sequence);
  }

  lemma NormalTxnIsCanonical(m: Txn)
    ensures CanonicalTxn(NormalTxn(m))
  {
  }

  lemma {:induction false} NormalListIsCanonical(ms: seq<Command>)
    ensures forall c :: c in NormalCommands(ms) ==> Canonical(c)
    decreases ms, 0
  {
    hide Canonical;
    if ms != [] {
      NormalIsCanonical(ms[0]);
      NormalListIsCanonical(ms[1..]);
    }
  }
}
