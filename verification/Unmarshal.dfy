/** The generated unmarshalling code of the messages below a command: it reads a buffer field by
    field. */
module Unmarshal {
  import opened ByteStrings
  import opened Messages
  import opened Wire
  import opened Codec
  import Varint

  // ---------- fields ----------

  /** Skip the rest of an open group. */
  method SkipGroup(data: Bytes, start: nat) returns (r: Option<nat>)
    ensures r == SkipGroups(data, start, 1)
  {
    hide Varint.Decode;
    var i, depth := start, 1;
    while depth > 0
      invariant depth > 0 && SkipGroups(data, start, 1) == SkipGroups(data, i, depth)
      decreases |data| - i
    {
      var tag := Varint.DecodeVarint(data, i);
      if tag == None { return None; }
      var kind, next := tag.value.value % 8, tag.value.next;
      if kind == 3 {
        depth := depth + 1;
      } else if kind == 4 {
        if depth == 1 { return Some(next); }
        depth := depth - 1;
      } else {
        var skipped := SkipPlain(data, next, kind);
        if skipped == None { return None; }
        next := skipped.value;
      }
      i := next;
    }
  }

  method SkipPlain(data: Bytes, i: nat, kind: nat) returns (r: Option<nat>)
    ensures r == SkipValue(data, i, kind)
  {
    hide Varint.Decode;
    if kind == 0 {
      var p := Varint.DecodeVarint(data, i);
      return if p == None then None else Some(p.value.next);
    } else if kind == 1 || kind == 5 {
      var next := i + if kind == 1 then 8 else 4;
      return if next <= |data| then Some(next) else None;
    } else if kind == 2 {
      var p := Varint.DecodeVarint(data, i);
      if p == None || p.value.value >= TWO_63 { return None; }
      var next := p.value.next + p.value.value;
      return if next >= TWO_63 || next > |data| then None else Some(next);
    }
    return None;
  }

  method ReadField(data: Bytes, start: nat) returns (r: Option<Varint.Parsed<Field>>)
    ensures r == ParseField(data, start)
  {
    hide Varint.Decode, SkipGroups;
    var tag := Varint.DecodeVarint(data, start);
    if tag == None { return None; }
    var num, kind, i := ToInt32(tag.value.value / 8), tag.value.value % 8, tag.value.next;
    if kind == 4 || num <= 0 { return None; }
    if kind == 0 {
      var p := Varint.DecodeVarint(data, i);
      return if p == None then None else Some(Varint.Parsed(Number(num, p.value.value), p.value.next));
    } else if kind == 2 {
      var p := Varint.DecodeVarint(data, i);
      if p == None || p.value.value >= TWO_63 { return None; }
      var end := p.value.next + p.value.value;
      if end >= TWO_63 || end > |data| { return None; }
      return Some(Varint.Parsed(Chunk(num, data[p.value.next..end]), end));
    }
    var next;
    if kind == 3 { next := SkipGroup(data, i); } else { next := SkipPlain(data, i, kind); }
    return if next == None then None else Some(Varint.Parsed(Skipped(num), next.value));
  }

  // ---------- messages ----------

  /** What a loop that has read up to `i` into `m` still has to return. */
  ghost function Rest<A>(step: (A, Field) -> Option<A>, m: A, data: Bytes, i: nat): (r: Option<A>)
    requires i <= |data|
  {
    match ParseFrom(data, i) case None => None case Some(fs) => Fold(step, m, fs)
  }

  /** One round of a loop. */
  lemma RestStep<A>(step: (A, Field) -> Option<A>, m: A, data: Bytes, i: nat)
    requires i < |data|
    ensures ParseField(data, i) == None ==> Rest(step, m, data, i) == None
    ensures ParseField(data, i).Some? ==>
              var f := ParseField(data, i).value;
              match step(m, f.value)
              case None => Rest(step, m, data, i) == None
              case Some(next) => Rest(step, m, data, i) == Rest(step, next, data, f.next)
  {
    hide ParseField;
    if ParseField(data, i).Some? {
      var f := ParseField(data, i).value;
      var rest := ParseFrom(data, f.next);
      if rest.Some? { assert ([f.value] + rest.value)[1..] == rest.value; }
    }
  }

  /** `UnmarshalVT` of a message without inner messages, into one that may already hold fields.
      `step` is what the message does with a field. */
  method UnmarshalPlain<A>(step: (A, Field) -> Option<A>, init: A, data: Bytes) returns (r: Option<A>)
    ensures r == Decode(step, init, data)
  {
    hide ParseField, ParseFrom;
    var i, m := 0, init;
    while i < |data|
      invariant i <= |data| && Decode(step, init, data) == Rest(step, m, data, i)
    {
      RestStep(step, m, data, i);
      var f := ReadField(data, i);
      if f.None? { return None; }
      var next := step(m, f.value.value);
      if next.None? { return None; }
      m, i := next.value, f.value.next;
    }
    NothingLeft(data);
    r := Some(m);
  }

  lemma NothingLeft(data: Bytes)
    ensures ParseFrom(data, |data|) == Some([])
  {
  }

  /** One round of `RequestOp.UnmarshalVT`'s loop: a repeated variant is read into the one before. */
  method TakeRequest(m: RequestOp, f: Field) returns (r: Option<RequestOp>)
    ensures r == RequestStep(m, f)
  {
    hide Decode, RangeStep, PutStep, DeleteStep;
    if f.num !in {1, 2, 3} { return Some(m); }
    if !f.Chunk? { return None; }
    if f.num == 1 {
      var range := UnmarshalPlain(RangeStep, if m.RequestRange? then m.range else EMPTY_RANGE, f.data);
      return if range == None then None else Some(RequestRange(range.value));
    } else if f.num == 2 {
      var put := UnmarshalPlain(PutStep, if m.RequestPut? then m.put else EMPTY_PUT, f.data);
      return if put == None then None else Some(RequestPut(put.value));
    }
    var del := UnmarshalPlain(DeleteStep, if m.RequestDelete? then m.del else EMPTY_DELETE, f.data);
    return if del == None then None else Some(RequestDelete(del.value));
  }

  /** `RequestOp.UnmarshalVT`. */
  method UnmarshalRequest(data: Bytes) returns (r: Option<RequestOp>)
    ensures r == Decode(RequestStep, RequestNone, data)
  {
    hide ParseField, ParseFrom, RequestStep;
    var i, m := 0, RequestNone;
    while i < |data|
      invariant i <= |data| && Decode(RequestStep, RequestNone, data) == Rest(RequestStep, m, data, i)
    {
      RestStep(RequestStep, m, data, i);
      var f := ReadField(data, i);
      if f == None { return None; }
      var next := TakeRequest(m, f.value.value);
      if next == None { return None; }
      m, i := next.value, f.value.next;
    }
    NothingLeft(data);
    r := Some(m);
  }

  /** One round of `Txn.UnmarshalVT`'s loop: the repeated fields grow. */
  method TakeTxn(m: Txn, f: Field) returns (r: Option<Txn>)
    ensures r == TxnStep(m, f)
  {
    hide Decode, CompareStep, RequestStep;
    if f.num !in {1, 2, 3} { return Some(m); }
    if !f.Chunk? { return None; }
    if f.num == 1 {
      var c := UnmarshalPlain(CompareStep, EMPTY_COMPARE, f.data);
      return if c == None then None else Some(m.(compare := m.compare + [c.value]));
    }
    var op := UnmarshalRequest(f.data);
    if op == None { return None; }
    return Some(if f.num == 2 then m.(success := m.success + [op.value]) else m.(failure := m.failure + [op.value]));
  }

  /** `Txn.UnmarshalVT` into a transaction that may already hold fields. */
  method UnmarshalTxn(init: Txn, data: Bytes) returns (r: Option<Txn>)
    ensures r == Decode(TxnStep, init, data)
  {
    hide ParseField, ParseFrom, TxnStep;
    var i, m := 0, init;
    while i < |data|
      invariant i <= |data| && Decode(TxnStep, init, data) == Rest(TxnStep, m, data, i)
    {
      RestStep(TxnStep, m, data, i);
      var f := ReadField(data, i);
      if f == None { return None; }
      var next := TakeTxn(m, f.value.value);
      if next == None { return None; }
      m, i := next.value, f.value.next;
    }
    NothingLeft(data);
    r := Some(m);
  }
}
