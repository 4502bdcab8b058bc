/** Products and quotients: the few facts about them that the other modules lean on. */
module Arithmetic {
  const TWO63: int := 0x8000_0000_0000_0000
  const TWO64: int := 0x1_0000_0000_0000_0000

  lemma MulMono(a: int, b: int, d: int)
    requires d >= 0
    ensures a <= b ==> a * d <= b * d
  {
  }

  lemma Distribute(a: int, b: int, d: int)
    ensures (a + b) * d == a * d + b * d
    ensures d * (a + b) == d * a + d * b
  {
  }

  lemma Associate(a: int, b: int, c: int)
    ensures a * b * c == a * (b * c) && a * (b * c) == b * (a * c)
  {
  }

  /** The quotient is the only q with q * d <= n < q * d + d. */
  lemma QuotientIs(n: int, d: int, q: int)
    requires d > 0 && q * d <= n < q * d + d
    ensures n / d == q
  {
    var r := n / d;
    assert n == r * d + n % d;
    MulMono(r + 1, q, d);
    MulMono(q + 1, r, d);
    Distribute(r, 1, d);
    Distribute(q, 1, d);
  }

  lemma QuotientOf(n: int, d: int)
    requires d > 0
    ensures n / d * d <= n < n / d * d + d
  {
    assert n == n / d * d + n % d;
  }

  lemma QuotientBelow(n: int, d: int, q: int)
    requires d > 0 && n < q * d
    ensures n / d < q
  {
    QuotientOf(n, d);
    MulMono(q, n / d, d);
  }

  lemma QuotientAtLeast(n: int, d: int, q: int)
    requires d > 0 && q * d <= n
    ensures n / d >= q
  {
    QuotientOf(n, d);
    MulMono(n / d + 1, q, d);
    Distribute(n / d, 1, d);
  }

  lemma QuotientMono(a: int, b: int, d: int)
    requires d > 0 && a <= b
    ensures a / d <= b / d
  {
    QuotientOf(a, d);
    QuotientAtLeast(b, d, a / d);
  }

  lemma QuotientBound(n: nat, d: int)
    requires d > 0
    ensures 0 <= n / d <= n
  {
    QuotientOf(n, d);
    MulMono(1, d, n + 1);
    QuotientBelow(n, d, n + 1);
    QuotientAtLeast(n, d, 0);
  }

  /** A two-byte number is its two bytes. */
  lemma TwoBytes(v: int, lo: int, hi: int)
    requires 0 <= lo < 0x100 && v == lo + hi * 0x100
    ensures v % 0x100 == lo && v / 0x100 == hi
  {
    QuotientIs(v, 0x100, hi);
  }

  lemma SameBytes(v: int, w: int)
    requires v % 0x100 == w % 0x100 && v / 0x100 == w / 0x100
    ensures v == w
  {
  }
}
