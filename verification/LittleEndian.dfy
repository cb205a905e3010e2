/** Eight-byte little-endian numbers: index records and snapshot frames. */
module LittleEndian {
  import opened ByteStrings

  function Digits(v: nat, n: nat): (s: Bytes)
    ensures |s| == n
  {
    if n == 0 then [] else [v % 256] + Digits(v / 256, n - 1)
  }

  function Value(s: Bytes): (v: nat)
  {
    if s == [] then 0 else s[0] + 256 * Value(s[1..])
  }

  function Pow256(n: nat): (p: nat)
    ensures p > 0
  {
    if n == 0 then 1 else 256 * Pow256(n - 1)
  }

  lemma {:induction false} ValueDigits(v: nat, n: nat)
    requires v < Pow256(n)
    ensures Value(Digits(v, n)) == v
  {
    if n > 0 {
      assert Digits(v, n)[1..] == Digits(v / 256, n - 1);
      ValueDigits(v / 256, n - 1);
    }
  }

  lemma {:induction false} ValueBound(s: Bytes)
    ensures Value(s) < Pow256(|s|)
  {
    if s != [] { ValueBound(s[1..]); }
  }

  lemma Eight()
    ensures Pow256(8) == 0x1_0000_0000_0000_0000
  {
    assert Pow256(2) == 0x1_0000;
    assert Pow256(4) == 0x1_0000_0000;
    assert Pow256(6) == 0x1_0000_0000_0000;
  }

  function Put64(v: uint64): (s: Bytes)
    ensures |s| == 8
  {
    Digits(v, 8)
  }

  function Get64(s: Bytes): (v: uint64)
    requires |s| == 8
  {
    ValueBound(s);
    Eight();
    Value(s)
  }

  /** Every 64-bit number survives the round trip. */
  lemma RoundTrip(v: uint64)
    ensures Get64(Put64(v)) == v
  {
    Eight();
    ValueDigits(v, 8);
  }
}
