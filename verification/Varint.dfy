/** Base-128 varints: the encoded length, the encoder that writes into the tail of a
    buffer, and the decoder of the generated code. */
module Varint {
  import opened ByteStrings

  const TWO_64: int := 0x1_0000_0000_0000_0000
  const MAX_DIGITS: nat := 10

  // ---------- length ----------

  function BitLen(x: nat): (n: nat)
    ensures x > 0 ==> n > 0
  {
    if x == 0 then 0 else 1 + BitLen(x / 2)
  }

  /** The number of bytes of the varint of `x`, from the bit length of `x | 1`. */
  function Sov(x: nat): (n: nat)
  {
    (BitLen(x / 2 * 2 + 1) + 6) / 7
  }

  /** Seven halvings strip one base-128 digit. */
  lemma BitLenDigit(y: nat)
    ensures y < 128 ==> BitLen(y) <= 7
    ensures y >= 128 ==> BitLen(y) == 7 + BitLen(y / 128)
  {
    var y1 := y / 2;
    var y2 := y1 / 2;
    var y3 := y2 / 2;
    var y4 := y3 / 2;
    var y5 := y4 / 2;
    var y6 := y5 / 2;
    var y7 := y6 / 2;
    assert y7 == y / 128;
    assert y6 >= 1 ==> BitLen(y6) == 1 + BitLen(y7);
    assert y5 >= 1 ==> BitLen(y5) == 1 + BitLen(y6);
    assert y4 >= 1 ==> BitLen(y4) == 1 + BitLen(y5);
    assert y3 >= 1 ==> BitLen(y3) == 1 + BitLen(y4);
    assert y2 >= 1 ==> BitLen(y2) == 1 + BitLen(y3);
    assert y1 >= 1 ==> BitLen(y1) == 1 + BitLen(y2);
  }

  lemma BitLenOdd(z: nat)
    requires z > 0
    ensures BitLen(z / 2 * 2 + 1) == BitLen(z)
  {
    assert (z / 2 * 2 + 1) / 2 == z / 2;
  }

  lemma SovOf(x: nat)
    requires x > 0
    ensures Sov(x) == (BitLen(x) + 6) / 7
  {
    hide BitLen;
    BitLenOdd(x);
  }

  /** The length counts base-128 digits. */
  lemma SovSteps(x: nat)
    ensures Sov(x) == if x < 128 then 1 else 1 + Sov(x / 128)
  {
    if x == 0 {
      assert BitLen(1) == 1;
    } else {
      hide Sov, BitLen;
      SovOf(x);
      BitLenDigit(x);
      if x >= 128 { SovOf(x / 128); }
    }
  }

  // ---------- encoding ----------

  function Encode(v: nat): (s: Bytes)
  {
    if v < 128 then [v] else [128 + v % 128] + Encode(v / 128)
  }

  lemma {:induction false} EncodeLength(v: nat)
    ensures |Encode(v)| == Sov(v)
  {
    SovSteps(v);
    if v >= 128 { EncodeLength(v / 128); }
  }

  lemma {:induction false} SovBound(v: nat, n: nat)
    requires n >= 1 && v < Pow128(n)
    ensures 1 <= Sov(v) <= n
  {
    SovSteps(v);
    if v >= 128 { SovBound(v / 128, n - 1); }
  }

  function Pow128(n: nat): (p: nat)
    ensures p > 0
  {
    if n == 0 then 1 else 128 * Pow128(n - 1)
  }

  /** Write the varint of `v` so that it ends just before `offset`. */
  method EncodeVarint(data: array<byte>, offset: nat, v: uint64) returns (start: nat)
    requires Sov(v) <= offset <= data.Length
    modifies data
    ensures start == offset - Sov(v)
    ensures data[..] == old(data[..start]) + Encode(v) + old(data[offset..])
  {
    hide Sov;
    EncodeLength(v);
    start := offset - Sov(v);
    var at, rest: nat := start, v;
    while rest >= 128
      invariant start <= at < offset
      invariant Encode(v)[at - start..] == Encode(rest)
      invariant forall j :: start <= j < at ==> data[j] == Encode(v)[j - start]
      invariant forall j :: 0 <= j < data.Length && !(start <= j < offset) ==> data[j] == old(data[j])
      decreases rest
    {
      data[at] := rest % 128 + 128;
      DigitEncoded(v, at - start, rest);
      rest, at := rest / 128, at + 1;
    }
    data[at] := rest;
    assert Encode(v)[at - start] == rest;
  }

  lemma DigitEncoded(v: nat, i: nat, rest: nat)
    requires i <= |Encode(v)| && Encode(v)[i..] == Encode(rest) && rest >= 128
    ensures i + 1 < |Encode(v)|
    ensures Encode(v)[i] == rest % 128 + 128
    ensures Encode(v)[i + 1..] == Encode(rest / 128)
  {
    EncodeLength(rest / 128);
    SovSteps(rest / 128);
    assert Encode(v)[i] == Encode(rest)[0];
    assert Encode(v)[i + 1..] == Encode(v)[i..][1..];
  }

  // ---------- decoding ----------

  /** A decoded value and the position behind it. */
  datatype Parsed<+T> = Parsed(value: T, next: nat)

  /** The value of the digits from `i` on, before truncation to 64 bits; at most
      `digits` bytes are read. */
  function Digits(s: Bytes, i: nat, digits: nat): (r: Option<Parsed<nat>>)
    ensures r.Some? ==> i < r.value.next <= |s|
    decreases |s| - i
  {
    if digits == 0 || i >= |s| then None
    else if s[i] < 128 then Some(Parsed(s[i], i + 1))
    else
      match Digits(s, i + 1, digits - 1)
      case None => None
      case Some(p) => Some(Parsed(s[i] - 128 + 128 * p.value, p.next))
  }

  /** Read a varint at `i`: fails after ten digits or at the end of the input, and drops
      the bits above the 64th. */
  function Decode(s: Bytes, i: nat): (r: Option<Parsed<uint64>>)
    ensures r.Some? ==> i < r.value.next <= |s|
  {
    match Digits(s, i, MAX_DIGITS)
    case None => None
    case Some(p) => Some(Parsed(p.value % TWO_64, p.next))
  }

  lemma {:induction false} DigitsEncode(pre: Bytes, v: nat, post: Bytes, digits: nat)
    requires digits >= 1 && v < Pow128(digits)
    ensures Digits(pre + Encode(v) + post, |pre|, digits) == Some(Parsed(v, |pre| + |Encode(v)|))
    decreases digits
  {
    var s := pre + Encode(v) + post;
    assert s[|pre|] == Encode(v)[0];
    if v >= 128 {
      assert s == (pre + [128 + v % 128]) + Encode(v / 128) + post;
      DigitsEncode(pre + [128 + v % 128], v / 128, post, digits - 1);
    }
  }

  /** Every 64-bit value survives the round trip wherever it stands in a message. */
  lemma RoundTrip(pre: Bytes, v: uint64, post: Bytes)
    ensures Decode(pre + Encode(v) + post, |pre|) == Some(Parsed(v, |pre| + |Encode(v)|))
  {
    assert Digits(pre + Encode(v) + post, |pre|, MAX_DIGITS) == Some(Parsed(v, |pre| + |Encode(v)|)) by {
      MaxDigitsSuffice(v);
      DigitsEncode(pre, v, post, MAX_DIGITS);
    }
    DecodeDigits(pre + Encode(v) + post, |pre|, v, |pre| + |Encode(v)|);
  }

  /** The varint of a 64-bit value takes one to ten bytes. */
  lemma SovRange(v: uint64)
    ensures 1 <= Sov(v) <= MAX_DIGITS
  {
    MaxDigitsSuffice(v);
    SovBound(v, MAX_DIGITS);
  }

  lemma DecodeDigits(s: Bytes, i: nat, v: uint64, next: nat)
    requires Digits(s, i, MAX_DIGITS) == Some(Parsed(v, next))
    ensures Decode(s, i) == Some(Parsed(v, next))
  {
  }

  lemma MaxDigitsSuffice(v: uint64)
    ensures v < Pow128(MAX_DIGITS)
  {
    assert Pow128(2) == 16384;
    assert Pow128(4) == 16384 * 16384;
    assert Pow128(6) == 16384 * 16384 * 16384;
    assert Pow128(8) == 16384 * 16384 * 16384 * 16384;
  }

  /** The digits from `index` on, when those before `i` add up to `full` and the next one
      weighs `weight`. */
  ghost predicate Accumulated(s: Bytes, index: nat, i: nat, full: nat, weight: nat)
  {
    index <= i <= index + MAX_DIGITS &&
    Digits(s, index, MAX_DIGITS) ==
    match Digits(s, i, MAX_DIGITS - (i - index))
    case None => None
    case Some(p) => Some(Parsed(full + weight * p.value, p.next))
  }

  lemma AccumulateDigit(s: Bytes, index: nat, i: nat, full: nat, weight: nat)
    requires Accumulated(s, index, i, full, weight) && i - index < MAX_DIGITS && i < |s|
    ensures s[i] >= 128 ==> Accumulated(s, index, i + 1, full + weight * (s[i] % 128), 128 * weight)
    ensures s[i] < 128 ==> Digits(s, index, MAX_DIGITS) == Some(Parsed(full + weight * (s[i] % 128), i + 1))
  {
    var b := s[i];
    assert b % 128 == if b < 128 then b else b - 128;
    var tail := Digits(s, i + 1, MAX_DIGITS - (i + 1 - index));
    if b >= 128 && tail.Some? {
      var t := tail.value.value;
      assert weight * (b - 128 + 128 * t) == weight * (b - 128) + (128 * weight) * t;
    }
  }

  lemma AccumulateNothing(s: Bytes, index: nat)
    ensures Accumulated(s, index, index, 0, 1)
  {
  }

  lemma AccumulateFails(s: Bytes, index: nat, i: nat, full: nat, weight: nat)
    requires Accumulated(s, index, i, full, weight) && (i - index >= MAX_DIGITS || i >= |s|)
    ensures Decode(s, index) == None
  {
  }

  /** The decoding loop of the generated code: it accumulates shifted digits modulo 2^64. */
  method DecodeVarint(data: Bytes, index: nat) returns (r: Option<Parsed<uint64>>)
    ensures r == Decode(data, index)
  {
    hide Digits, Accumulated;
    AccumulateNothing(data, index);
    var i, shift, weight: nat, v: nat := index, 0, 1, 0;
    ghost var full: nat := 0;
    while true
      invariant index <= i && shift == 7 * (i - index) <= 70 && v == full % TWO_64
      invariant Accumulated(data, index, i, full, weight)
      decreases 70 - shift
    {
      if shift >= 64 || i >= |data| {
        AccumulateFails(data, index, i, full, weight);
        return None;
      }
      var b := data[i];
      AccumulateDigit(data, index, i, full, weight);
      i := i + 1;
      AddModulo(full, weight * (b % 128));
      full := full + weight * (b % 128);
      v := (v + weight * (b % 128)) % TWO_64;
      if b < 128 { return Some(Parsed(v, i)); }
      weight, shift := 128 * weight, shift + 7;
    }
  }

  lemma AddModulo(a: nat, b: nat)
    ensures (a % TWO_64 + b) % TWO_64 == (a + b) % TWO_64
  {
  }
}
