/** Writing into a buffer from its end towards its start, as all generated marshalling code does. */
module Writer {
  import opened ByteStrings
  import opened Wire
  import opened Codec
  import Varint

  /** The buffer is as `before`, except that `s` stands at `i..end`. */
  ghost predicate Tail(data: array<byte>, before: Bytes, i: nat, end: nat, s: Bytes)
    reads data
  {
    i + |s| == end <= |before| && data[..] == before[..i] + s + before[end..]
  }

  /** The tag of a field number below 16 is one byte. */
  lemma ShortNumber(num: nat, v: uint64)
    requires num < 16
    ensures EncodeField(Number(num, v)) == [num * 8] + Varint.Encode(v)
  {
  }

  lemma ShortChunk(num: nat, data: Bytes)
    requires num < 16
    ensures EncodeField(Chunk(num, data)) == [num * 8 + 2] + Varint.Encode(|data|) + data
  {
  }

  method PutByte(data: array<byte>, i: nat, ghost end: nat, b: byte, ghost before: Bytes, ghost s: Bytes)
    returns (j: nat)
    requires Tail(data, before, i, end, s) && i > 0
    modifies data
    ensures j == i - 1 && Tail(data, before, j, end, [b] + s)
  {
    j := i - 1;
    data[j] := b;
    assert data[..] == before[..j] + ([b] + s) + before[end..];
  }

  method PutVarint(data: array<byte>, i: nat, ghost end: nat, v: uint64, ghost before: Bytes, ghost s: Bytes)
    returns (j: nat)
    requires Tail(data, before, i, end, s) && Varint.Sov(v) <= i
    modifies data
    ensures j == i - Varint.Sov(v) && Tail(data, before, j, end, Varint.Encode(v) + s)
  {
    hide Varint.Sov, Varint.Encode;
    Varint.EncodeLength(v);
    j := Varint.EncodeVarint(data, i, v);
    assert data[..] == before[..j] + (Varint.Encode(v) + s) + before[end..];
  }

  method PutNumber(data: array<byte>, i: nat, ghost end: nat, num: nat, v: uint64, ghost before: Bytes, ghost s: Bytes)
    returns (j: nat)
    requires 1 <= num < 16 && Tail(data, before, i, end, s) && 1 + Varint.Sov(v) <= i
    modifies data
    ensures j == i - (1 + Varint.Sov(v)) && Tail(data, before, j, end, EncodeField(Number(num, v)) + s)
  {
    hide Varint.Sov, Varint.Encode, EncodeField;
    j := PutVarint(data, i, end, v, before, s);
    j := PutByte(data, j, end, num * 8, before, Varint.Encode(v) + s);
    ShortNumber(num, v);
    assert [num * 8] + (Varint.Encode(v) + s) == EncodeField(Number(num, v)) + s;
  }

  /** Put the length and the tag in front of a body that was just written. */
  method PutHeader(data: array<byte>, k: nat, i: nat, ghost end: nat, num: nat,
                   ghost before: Bytes, ghost body: Bytes, ghost s: Bytes)
    returns (j: nat)
    requires 1 <= num < 16 && Tail(data, before, k, end, body + s) && |body| == i - k < TWO_63
    requires 1 + Varint.Sov(|body|) <= k
    modifies data
    ensures j == i - ChunkSize(|body|) && Tail(data, before, j, end, EncodeField(Chunk(num, body)) + s)
  {
    hide Varint.Sov, Varint.Encode, EncodeField;
    j := PutVarint(data, k, end, i - k, before, body + s);
    j := PutByte(data, j, end, num * 8 + 2, before, Varint.Encode(i - k) + (body + s));
    ShortChunk(num, body);
    assert [num * 8 + 2] + (Varint.Encode(i - k) + (body + s)) == EncodeField(Chunk(num, body)) + s;
  }

  method PutRaw(data: array<byte>, i: nat, ghost end: nat, bytes: Bytes, ghost before: Bytes, ghost s: Bytes)
    returns (j: nat)
    requires Tail(data, before, i, end, s) && |bytes| <= i
    modifies data
    ensures j == i - |bytes| && Tail(data, before, j, end, bytes + s)
  {
    j := i - |bytes|;
    forall x | 0 <= x < |bytes| { data[j + x] := bytes[x]; }
    assert data[..] == before[..j] + (bytes + s) + before[end..];
  }

  method PutBytes(data: array<byte>, i: nat, ghost end: nat, num: nat, bytes: Bytes, ghost before: Bytes,
                  ghost s: Bytes)
    returns (j: nat)
    requires 1 <= num < 16 && Tail(data, before, i, end, s) && ChunkSize(|bytes|) <= i && |bytes| < TWO_63
    modifies data
    ensures j == i - ChunkSize(|bytes|) && Tail(data, before, j, end, EncodeField(Chunk(num, bytes)) + s)
  {
    hide Varint.Sov, EncodeField, Tail;
    var k := PutRaw(data, i, end, bytes, before, s);
    j := PutHeader(data, k, i, end, num, before, bytes, s);
  }

  lemma EncodeOpt(present: bool, f: Field, rest: seq<Field>)
    ensures EncodeFields(Opt(present, f) + rest) ==
            if present then EncodeField(f) + EncodeFields(rest) else EncodeFields(rest)
  {
    hide EncodeField;
    if present {
      assert (Opt(present, f) + rest)[1..] == rest;
    } else {
      assert Opt(present, f) + rest == rest;
    }
  }

  method PutOptNumber(data: array<byte>, i: nat, num: nat, v: uint64, present: bool,
                      ghost end: nat, ghost before: Bytes, ghost rest: seq<Field>, ghost s: Bytes) returns (j: nat)
    requires 1 <= num < 16 && Tail(data, before, i, end, EncodeFields(rest) + s)
    requires present ==> 1 + Varint.Sov(v) <= i
    modifies data
    ensures j == i - (if present then 1 + Varint.Sov(v) else 0)
    ensures Tail(data, before, j, end, EncodeFields(Opt(present, Number(num, v)) + rest) + s)
  {
    hide EncodeField, EncodeFields, Opt, Varint.Sov, Tail;
    EncodeOpt(present, Number(num, v), rest);
    if !present { return i; }
    j := PutNumber(data, i, end, num, v, before, EncodeFields(rest) + s);
    assert EncodeField(Number(num, v)) + (EncodeFields(rest) + s) ==
           EncodeField(Number(num, v)) + EncodeFields(rest) + s;
  }

  method PutOptBytes(data: array<byte>, i: nat, num: nat, bytes: Bytes, present: bool,
                     ghost end: nat, ghost before: Bytes, ghost rest: seq<Field>, ghost s: Bytes) returns (j: nat)
    requires 1 <= num < 16 && Tail(data, before, i, end, EncodeFields(rest) + s) && |bytes| < TWO_63
    requires present ==> ChunkSize(|bytes|) <= i
    modifies data
    ensures j == i - (if present then ChunkSize(|bytes|) else 0)
    ensures Tail(data, before, j, end, EncodeFields(Opt(present, Chunk(num, bytes)) + rest) + s)
  {
    hide EncodeField, EncodeFields, Opt, ChunkSize, Tail;
    EncodeOpt(present, Chunk(num, bytes), rest);
    if !present { return i; }
    j := PutBytes(data, i, end, num, bytes, before, EncodeFields(rest) + s);
    assert EncodeField(Chunk(num, bytes)) + (EncodeFields(rest) + s) ==
           EncodeField(Chunk(num, bytes)) + EncodeFields(rest) + s;
  }

  method PutBlob(data: array<byte>, i: nat, num: nat, bytes: Bytes,
                 ghost end: nat, ghost before: Bytes, ghost rest: seq<Field>, ghost s: Bytes) returns (j: nat)
    requires 1 <= num < 16 && Tail(data, before, i, end, EncodeFields(rest) + s)
    requires BlobSize(bytes) <= i && BlobSize(bytes) < TWO_63
    modifies data
    ensures j == i - BlobSize(bytes)
    ensures Tail(data, before, j, end, EncodeFields(Blob(num, bytes) + rest) + s)
  {
    hide EncodeFields, Opt, ChunkSize, Tail;
    ChunkFits(|bytes|);
    j := PutOptBytes(data, i, num, bytes, bytes != [], end, before, rest, s);
  }

  method PutSigned(data: array<byte>, i: nat, num: nat, x: int64,
                   ghost end: nat, ghost before: Bytes, ghost rest: seq<Field>, ghost s: Bytes) returns (j: nat)
    requires 1 <= num < 16 && Tail(data, before, i, end, EncodeFields(rest) + s) && SignedSize(x) <= i
    modifies data
    ensures j == i - SignedSize(x)
    ensures Tail(data, before, j, end, EncodeFields(Signed(num, x) + rest) + s)
  {
    hide EncodeFields, Opt, Tail, Varint.Sov, ToUint64;
    j := PutOptNumber(data, i, num, ToUint64(x), x != 0, end, before, rest, s);
  }

  method PutFlag(data: array<byte>, i: nat, num: nat, b: bool,
                 ghost end: nat, ghost before: Bytes, ghost rest: seq<Field>, ghost s: Bytes) returns (j: nat)
    requires 1 <= num < 16 && Tail(data, before, i, end, EncodeFields(rest) + s) && FlagSize(b) <= i
    modifies data
    ensures j == i - FlagSize(b)
    ensures Tail(data, before, j, end, EncodeFields(Flag(num, b) + rest) + s)
  {
    hide EncodeFields, Opt, Tail, Varint.Sov;
    OneByte();
    j := PutOptNumber(data, i, num, 1, b, end, before, rest, s);
  }

  lemma NoFields()
    ensures EncodeFields([]) == []
  {
  }

  lemma ChunkFits(n: nat)
    ensures n < ChunkSize(n)
  {
  }

  /** Prepend one sub-message, whose body was just written, to the fields `rest`. */
  method CloseChunk(data: array<byte>, k: nat, i: nat, num: nat, ghost body: Bytes,
                    ghost end: nat, ghost before: Bytes, ghost rest: seq<Field>, ghost s: Bytes) returns (j: nat)
    requires 1 <= num < 16 && Tail(data, before, k, end, body + (EncodeFields(rest) + s)) && |body| == i - k < TWO_63
    requires ChunkSize(|body|) <= i
    modifies data
    ensures j == i - ChunkSize(|body|)
    ensures Tail(data, before, j, end, EncodeFields([Chunk(num, body)] + rest) + s)
  {
    hide EncodeField, EncodeFields, Varint.Sov, Tail;
    EncodeOpt(true, Chunk(num, body), rest);
    j := PutHeader(data, k, i, end, num, before, body, EncodeFields(rest) + s);
    assert EncodeField(Chunk(num, body)) + (EncodeFields(rest) + s) ==
           EncodeField(Chunk(num, body)) + EncodeFields(rest) + s;
  }

  /** A byte string under field 64, whose tag takes two bytes. */
  method PutLongBlob(data: array<byte>, i: nat, bytes: Bytes,
                     ghost end: nat, ghost before: Bytes, ghost rest: seq<Field>, ghost s: Bytes) returns (j: nat)
    requires Tail(data, before, i, end, EncodeFields(rest) + s) && |bytes| < TWO_63
    requires bytes != [] ==> 1 + ChunkSize(|bytes|) <= i
    modifies data
    ensures j == i - (if bytes == [] then 0 else 1 + ChunkSize(|bytes|))
    ensures Tail(data, before, j, end, EncodeFields(Blob(64, bytes) + rest) + s)
  {
    hide EncodeField, EncodeFields, Opt, Varint.Sov, Varint.Encode, Tail;
    EncodeOpt(bytes != [], Chunk(64, bytes), rest);
    if bytes == [] { return i; }
    ghost var t := EncodeFields(rest) + s;
    j := PutRaw(data, i, end, bytes, before, t);
    j := PutVarint(data, j, end, |bytes|, before, bytes + t);
    j := PutByte(data, j, end, 4, before, Varint.Encode(|bytes|) + (bytes + t));
    j := PutByte(data, j, end, 130, before, [4] + (Varint.Encode(|bytes|) + (bytes + t)));
    LongField(bytes, EncodeFields(rest), s);
  }

  lemma LongField(bytes: Bytes, a: Bytes, b: Bytes)
    ensures [130] + ([4] + (Varint.Encode(|bytes|) + (bytes + (a + b)))) == EncodeField(Chunk(64, bytes)) + a + b
  {
    hide Varint.Encode, Tag;
    LongTagBytes();
    Reassociated(Varint.Encode(|bytes|), bytes, a, b);
  }

  lemma Reassociated(n: Bytes, bytes: Bytes, a: Bytes, b: Bytes)
    ensures [130] + ([4] + (n + (bytes + (a + b)))) == [130, 4] + n + bytes + a + b
  {
    assert n + (bytes + (a + b)) == n + bytes + a + b;
  }

  lemma LongTagBytes()
    ensures Tag(64, 2) == [130, 4]
  {
    assert Varint.Encode(4) == [4];
  }
}
