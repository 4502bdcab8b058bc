/** Bytes as numbers, their sums, and the byte vectors of the register files. */
module Bytes {
  type Byte = x: int | 0 <= x < 0x100

  function SumTo(s: seq<Byte>, n: nat): nat
    requires n <= |s|
  {
    if n == 0 then 0 else SumTo(s, n - 1) + s[n - 1]
  }

  function Sum(s: seq<Byte>): nat {
    SumTo(s, |s|)
  }

  function Zeros(n: nat): (s: seq<Byte>)
    ensures |s| == n
  {
    seq(n, i => 0)
  }

  lemma ByteRoundTrip(x: int)
    requires 0 <= x < 0x100
    ensures (x as bv8) as int == x
  {
    assert x == x % 0x100;
  }

  lemma HalfOf(v: bv8)
    ensures (v >> 1) as int == v as int / 2
  {
  }

  lemma ByteOrder(a: bv8, b: bv8)
    ensures a <= b <==> a as int <= b as int
  {
  }
}
