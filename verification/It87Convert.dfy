/** The conversions between register counts and physical values, with the integer widths of the driver. */
module It87Convert {
  import opened Arithmetic
  import opened Bytes

  const FAN_CLOCK: int := 1350000

  type Long = x: int | -TWO63 <= x < TWO63
  type ULong = x: int | 0 <= x < TWO64

  // Storing into a signed 64-bit variable.
  function Wrap64(x: int): Long {
    (x + TWO63) % TWO64 - TWO63
  }

  // Storing into a signed 32-bit variable.
  function Wrap32(x: int): (r: int)
    ensures -0x8000_0000 <= r < 0x8000_0000
  {
    (x + 0x8000_0000) % 0x1_0000_0000 - 0x8000_0000
  }

  // Division in C truncates toward zero.
  function TruncDiv(a: int, b: int): int
    requires b != 0
  {
    if a >= 0 then a / b else -(-a / b)
  }

  function Clamp(x: int, lo: int, hi: int): (r: int)
    requires lo <= hi
    ensures lo <= r <= hi
  {
    if x < lo then lo else if x > hi then hi else x
  }

  function Abs(x: int): nat {
    if x < 0 then -x else x
  }

  function DivRoundClosest(x: Long, d: int): int
    requires 0 < d < 0x1_0000
  {
    if x > 0 then TruncDiv(Wrap64(x + d / 2), d) else TruncDiv(Wrap64(x - d / 2), d)
  }

  // ----- voltages -----

  function InToReg(lsb: int, val: ULong): (r: int)
    requires 0 < lsb < 0x1_0000
    ensures 0 <= r < 0x100
  {
    Clamp(DivRoundClosest(Wrap64(Wrap64(val) * 10), lsb), 0, 255)
  }

  function InFromReg(lsb: int, reg: int): int
    requires 0 < lsb < 0x1_0000 && 0 <= reg < 0x100
  {
    DivRoundClosest(reg * lsb, 10)
  }

  /** Writing back the voltage that was shown leaves the limit register as it was. */
  lemma InRoundTrip(lsb: int, reg: int)
    requires 20 <= lsb < 0x1_0000 && 0 <= reg < 0x100
    ensures 0 <= InFromReg(lsb, reg) < TWO64 && InToReg(lsb, InFromReg(lsb, reg)) == reg
  {
    MulMono(reg, 255, lsb);
    MulMono(1, reg, lsb);
    ReadBack(lsb, reg, reg * lsb);
  }

  lemma ReadBack(lsb: int, reg: int, x: int)
    requires 20 <= lsb < 0x1_0000 && 0 <= reg < 0x100 && x == reg * lsb && 0 <= x <= 255 * lsb
    requires reg == 0 || x > 0
    ensures 0 <= DivRoundClosest(x, 10) < TWO64 && InToReg(lsb, DivRoundClosest(x, 10)) == reg
  {
    var mv := DivRoundClosest(x, 10);
    ShownVoltage(x);
    NoWrap(mv);
    assert reg > 0 ==> x <= 10 * mv + lsb / 2 < x + lsb;
    Rounds(10 * mv, lsb, reg);
  }

  lemma NoWrap(mv: int)
    requires 0 <= mv < 0x1_0000_0000
    ensures Wrap64(Wrap64(mv) * 10) == 10 * mv
  {
  }

  lemma WrapFits(x: Long)
    ensures Wrap64(x) == x
  {
  }

  lemma Rounds(x: int, d: int, q: int)
    requires 0 < d < 0x1_0000 && 0 <= x < TWO63 - d && 0 <= q
    requires q == 0 ==> x == 0
    requires q > 0 ==> x > 0 && q * d <= x + d / 2 < q * d + d
    ensures DivRoundClosest(x, d) == q
  {
    WrapFits(x + d / 2);
    WrapFits(-(d / 2));
    QuotientIs(if q > 0 then x + d / 2 else d / 2, d, q);
    if q == 0 {
      assert -(-(d / 2)) / d == 0;
    }
  }

  lemma InToRegFits(lsb: int, val: ULong)
    requires 20 <= lsb < 0x1_0000 && 10 * val + lsb / 2 < TWO63
    ensures InToReg(lsb, val) == Clamp((10 * val + lsb / 2) / lsb, 0, 255)
  {
    WrapFits(val);
    WrapFits(10 * val);
    if val > 0 {
      WrapFits(10 * val + lsb / 2);
    } else {
      WrapFits(-(lsb / 2));
      QuotientIs(lsb / 2, lsb, 0);
    }
  }

  /** The voltage limit stored is the nearest of the 256 steps. */
  lemma InNearest(lsb: int, val: ULong, other: int)
    requires 20 <= lsb < 0x1_0000 && 10 * val + lsb / 2 < TWO63 && 0 <= other <= 255
    ensures Abs(InToReg(lsb, val) * lsb - 10 * val) <= Abs(other * lsb - 10 * val)
  {
    InToRegFits(lsb, val);
    var q := (10 * val + lsb / 2) / lsb;
    QuotientOf(10 * val + lsb / 2, lsb);
    QuotientAtLeast(10 * val + lsb / 2, lsb, 0);
    NearestStep(10 * val, lsb, q, other);
  }

  lemma NearestStep(x: int, d: int, q: int, other: int)
    requires d > 0 && q * d <= x + d / 2 < q * d + d && q >= 0 && 0 <= other <= 255
    ensures Abs(Clamp(q, 0, 255) * d - x) <= Abs(other * d - x)
  {
    var k := Clamp(q, 0, 255);
    Distribute(k, 1, d);
    Distribute(k, -1, d);
    Distribute(q, 1, d);
    Distribute(q, -1, d);
    MulMono(k + 1, other, d);
    MulMono(other, k - 1, d);
    MulMono(k, q - 1, d);
  }

  // The least voltage whose sum with half a step no longer fits a long.
  function InOverflow(lsb: int): (val: ULong)
    requires 20 <= lsb < 0x1_0000
    ensures TWO63 <= 10 * val + lsb / 2 < TWO63 + 10 && 1000000 <= val
  {
    (TWO63 - lsb / 2 + 9) / 10
  }

  lemma InOverflowClamps(lsb: int)
    requires 20 <= lsb < 0x1_0000
    ensures InToReg(lsb, InOverflow(lsb)) == 0 && InToReg(lsb, 1000000) > 0
  {
    var val := InOverflow(lsb);
    WrapFits(val);
    WrapFits(10 * val);
    var x := 10 * val + lsb / 2 - TWO64;
    assert Wrap64(10 * val + lsb / 2) == x;
    QuotientAtLeast(-x, lsb, 1) by { MulMono(1, 1, lsb); }
    InToRegFits(lsb, 1000000);
    QuotientAtLeast(10000000 + lsb / 2, lsb, 1);
  }

  ghost predicate InMonotone(lsb: int, limit: ULong)
    requires 20 <= lsb < 0x1_0000
  {
    forall v: ULong, v': ULong :: v <= v' <= limit ==> InToReg(lsb, v) <= InToReg(lsb, v')
  }

  /** A higher voltage never gets a smaller register exactly as long as the sum that is divided cannot overflow. */
  lemma InMonotoneExactly(lsb: int, limit: ULong)
    requires 20 <= lsb < 0x1_0000
    ensures InMonotone(lsb, limit) <==> 10 * limit + lsb / 2 < TWO63
  {
    if 10 * limit + lsb / 2 < TWO63 {
      forall v: ULong, v': ULong | v <= v' <= limit
        ensures InToReg(lsb, v) <= InToReg(lsb, v')
      {
        InToRegFits(lsb, v);
        InToRegFits(lsb, v');
        QuotientMono(10 * v + lsb / 2, 10 * v' + lsb / 2, lsb);
      }
    } else {
      InOverflowClamps(lsb);
      var v, v': ULong := 1000000, InOverflow(lsb);
      assert v <= v' <= limit;
    }
  }

  lemma ShownVoltage(x: int)
    requires 0 <= x < 0x100 * 0x1_0000
    ensures 0 <= DivRoundClosest(x, 10) && x - 4 <= 10 * DivRoundClosest(x, 10) <= x + 5
    ensures x == 0 ==> DivRoundClosest(x, 10) == 0
  {
  }

  // ----- fans -----

  function FanToReg(rpm: Long, div: int): (r: int)
    requires 1 <= div <= 128
    ensures 0 < r < 0x100
  {
    if rpm == 0 then 255
    else
      var rpm' := Clamp(rpm, 1, 1000000);
      assert rpm' * div > 0;
      Clamp((FAN_CLOCK + rpm' * div / 2) / (rpm' * div), 1, 254)
  }

  function FanFromReg(val: int, div: int): (rpm: int)
    requires 0 <= val < 0x1_0000 && 1 <= div <= 128
    ensures -1 <= rpm <= FAN_CLOCK
  {
    if val == 0 then -1
    else if val == 255 then 0
    else
      MulMono(1, val, div);
      QuotientBound(FAN_CLOCK, val * div);
      FAN_CLOCK / (val * div)
  }

  // Doubling the smallest long yields zero, and the division that follows has no value.
  predicate Dividable(rpm: Long) {
    rpm != -TWO63
  }

  /** The driver divides by twice the rpm in 64 bits: of all rpm other than zero it is the smallest long alone for which
    that is a division by zero. */
  lemma DividableExactly(rpm: Long)
    requires rpm != 0
    ensures Dividable(rpm) <==> Wrap64(rpm * 2) != 0
  {
  }

  function Fan16ToReg(rpm: Long): (r: int)
    requires Dividable(rpm)
    ensures 0 < r < 0x1_0000
  {
    if rpm == 0 then 0xffff
    else Clamp(TruncDiv(Wrap64(FAN_CLOCK + rpm), Wrap64(rpm * 2)), 1, 0xfffe)
  }

  function Fan16FromReg(val: int): int
    requires 0 <= val < 0x1_0000
  {
    if val == 0 then -1 else if val == 0xffff then 0 else FAN_CLOCK / (val * 2)
  }

  // The count for a period p: the clock over p, rounded half up.
  function Count(p: int): int
    requires p > 0
  {
    (FAN_CLOCK + p / 2) / p
  }

  lemma CountOfQuotient(v: int, div: int)
    requires 1 <= v && 1 <= div && (2 * v + 1) * v * div <= FAN_CLOCK
    ensures v * div > 0 && FAN_CLOCK / (v * div) * div > 0
    ensures Count(FAN_CLOCK / (v * div) * div) == v
  {
    var q := v * div;
    MulMono(1, v, div);
    Associate(2 * v + 1, v, div);
    QuotientAtLeast(FAN_CLOCK, q, 2 * v + 1);
    QuotientOf(FAN_CLOCK, q);
    var rpm := FAN_CLOCK / q;
    var p := rpm * div;
    MulMono(2 * v + 1, rpm, div);
    Distribute(2 * v, 1, div);
    assert (2 * v) * div == 2 * q;
    Associate(v, rpm, div);
    QuotientIs(FAN_CLOCK + p / 2, p, v);
  }

  /** A fan limit register survives the trip through rpm and back while the count is coarse enough. */
  lemma FanRoundTrip(v: int, div: int)
    requires 1 <= v <= 254 && 1 <= div <= 128 && (2 * v + 1) * v * div <= FAN_CLOCK
    ensures -TWO63 <= FanFromReg(v, div) < TWO63 && FanToReg(FanFromReg(v, div), div) == v
  {
    CountOfQuotient(v, div);
    var q := v * div;
    MulMono(1, v, div);
    MulMono(1, div, v);
    QuotientBelow(FAN_CLOCK, q, FAN_CLOCK + 1) by { MulMono(1, q, FAN_CLOCK + 1); }
    if q >= 2 {
      QuotientBelow(FAN_CLOCK, q, 1000001) by { MulMono(2, q, 1000001); }
    } else {
      assert v == 1 && div == 1;
    }
  }

  // The divisor the driver decodes from a three-bit field.
  function DivFromReg(k: nat): (d: int)
    requires k <= 7
    ensures 1 <= d <= 128
  {
    [1, 2, 4, 8, 16, 32, 64, 128][k]
  }

  ghost predicate FanRegisterStable(div: int)
    requires 1 <= div <= 128
  {
    forall v :: 1 <= v <= 254 ==>
      var rpm := FanFromReg(v, div);
      -TWO63 <= rpm < TWO63 && FanToReg(rpm, div) == v
  }

  /** All 254 proper limits survive the round trip exactly for the divisors up to eight. */
  lemma FanRoundTripExactly(k: nat)
    requires k <= 7
    ensures FanRegisterStable(DivFromReg(k)) <==> k <= 3
  {
    if k <= 3 {
      var div := DivFromReg(k);
      forall v | 1 <= v <= 254
        ensures var rpm := FanFromReg(v, div); -TWO63 <= rpm < TWO63 && FanToReg(rpm, div) == v
      {
        CoarseEnough(v, div);
        FanRoundTrip(v, div);
      }
    } else {
      FineCountsMove();
      var v := [212, 147, 106, 77][k - 4];
      assert var rpm := FanFromReg(v, DivFromReg(k)); FanToReg(rpm, DivFromReg(k)) != v;
    }
  }

  lemma CoarseEnough(v: int, div: int)
    requires 1 <= v <= 254 && 1 <= div <= 8
    ensures (2 * v + 1) * v * div <= FAN_CLOCK
  {
    MulMono(2 * v + 1, 509, v);
    MulMono((2 * v + 1) * v, 509 * 254, div);
    MulMono(div, 8, 509 * 254);
  }

  lemma FineCountsMove()
    ensures FanToReg(FanFromReg(212, 16), 16) == 213
    ensures FanToReg(FanFromReg(147, 32), 32) == 148
    ensures FanToReg(FanFromReg(106, 64), 64) == 107
    ensures FanToReg(FanFromReg(77, 128), 128) == 78
  {
    assert FanFromReg(212, 16) == 397 && FanFromReg(147, 32) == 286;
    assert FanFromReg(106, 64) == 198 && FanFromReg(77, 128) == 136;
  }

  lemma CountAntitone(p: int, p': int)
    requires 0 < p <= p'
    ensures Count(p) >= Count(p')
  {
    var q := Count(p');
    QuotientOf(FAN_CLOCK + p' / 2, p');
    Distribute(q, -1, p);
    Distribute(q, -1, p');
    if q >= 1 {
      MulMono(p, p', q - 1);
      QuotientAtLeast(FAN_CLOCK + p / 2, p, q);
    } else {
      QuotientAtLeast(FAN_CLOCK + p / 2, p, 0);
    }
  }

  lemma FanToRegCounts(rpm: Long, div: int)
    requires 0 < rpm && 1 <= div <= 128 && Clamp(rpm, 1, 1000000) * div > 0
    ensures FanToReg(rpm, div) == Clamp(Count(Clamp(rpm, 1, 1000000) * div), 1, 254)
  {
  }

  /** A faster limit never gets a larger count. */
  lemma FanToRegAntitone(rpm: Long, rpm': Long, div: int)
    requires 0 < rpm <= rpm' && 1 <= div <= 128
    ensures FanToReg(rpm, div) >= FanToReg(rpm', div)
  {
    var r, r' := Clamp(rpm, 1, 1000000), Clamp(rpm', 1, 1000000);
    MulMono(1, r, div);
    MulMono(r, r', div);
    CountAntitone(r * div, r' * div);
    FanToRegCounts(rpm, div);
    FanToRegCounts(rpm', div);
  }

  /** The stored count is the one nearest to the clock over rpm times divisor, among 1..254. */
  lemma FanToRegNearest(rpm: Long, div: int, other: int)
    requires 0 < rpm && 1 <= div <= 128 && 1 <= other <= 254
    ensures Abs(FanToReg(rpm, div) * (rpm * div) - FAN_CLOCK) <= Abs(other * (rpm * div) - FAN_CLOCK)
  {
    var k := FanToReg(rpm, div);
    var p := rpm * div;
    MulMono(1, div, rpm);
    if rpm <= 1000000 {
      QuotientOf(FAN_CLOCK + p / 2, p);
      NearestMultiple(p, Count(p), k, other, 254);
    } else {
      var c := 1000000 * div;
      QuotientBelow(FAN_CLOCK + c / 2, c, 2);
      assert k == 1;
      if other >= 2 {
        MulMono(2, other, p);
      }
    }
  }

  lemma NearestMultiple(p: int, q: int, k: int, other: int, most: int)
    requires p > 0 && q * p <= FAN_CLOCK + p / 2 < q * p + p
    requires 1 <= most && k == Clamp(q, 1, most) && 1 <= other <= most
    ensures Abs(k * p - FAN_CLOCK) <= Abs(other * p - FAN_CLOCK)
  {
    Distribute(k, 1, p);
    Distribute(k, -1, p);
    Distribute(q, 1, p);
    Distribute(q, -1, p);
    MulMono(k + 1, other, p);
    MulMono(other, k - 1, p);
    MulMono(q + 1, k, p);
    MulMono(k, q - 1, p);
  }

  // From here on the doubled rpm, or the sum in the numerator, no longer fits a long.
  const FAN16_LIMIT: int := TWO63 - FAN_CLOCK

  lemma Fan16ToRegFits(rpm: Long)
    requires 0 < rpm < FAN16_LIMIT
    ensures Fan16ToReg(rpm) == Clamp(Count(2 * rpm), 1, 0xfffe)
  {
    if rpm >= TWO63 / 2 {
      var b := Wrap64(rpm * 2);
      assert b == rpm * 2 - TWO64;
      assert Wrap64(FAN_CLOCK + rpm) == FAN_CLOCK + rpm;
      assert TruncDiv(FAN_CLOCK + rpm, b) <= 0;
      QuotientBelow(FAN_CLOCK + rpm, 2 * rpm, 1);
    }
  }

  /** The 16-bit count stored is the nearest one as well, up to the rpm at which the numerator overflows. */
  lemma Fan16Nearest(rpm: Long, other: int)
    requires 0 < rpm < FAN16_LIMIT && 1 <= other <= 0xfffe
    ensures Abs(Fan16ToReg(rpm) * (2 * rpm) - FAN_CLOCK) <= Abs(other * (2 * rpm) - FAN_CLOCK)
  {
    Fan16ToRegFits(rpm);
    QuotientOf(FAN_CLOCK + rpm, 2 * rpm);
    NearestMultiple(2 * rpm, Count(2 * rpm), Fan16ToReg(rpm), other, 0xfffe);
  }

  /** The limits that are no rpm: off is the largest count and comes back as off, a negative limit is the slowest 8-bit
    and the fastest 16-bit one, and a count of zero, shown as -1, becomes those. */
  lemma FanLimitsOff(div: int, rpm: Long)
    requires 1 <= div <= 128 && -TWO63 < rpm < 0
    ensures FanToReg(0, div) == 255 && FanFromReg(255, div) == 0 && Fan16ToReg(0) == 0xffff && Fan16FromReg(0xffff) == 0
    ensures FanToReg(rpm, div) == 254 && FanFromReg(0, div) == -1 && Fan16ToReg(rpm) == 1 && Fan16FromReg(0) == -1
  {
    QuotientAtLeast(FAN_CLOCK + div / 2, div, 254);
    Fan16Negative(rpm);
  }

  lemma Fan16Negative(rpm: Long)
    requires -TWO63 < rpm < 0
    ensures Fan16ToReg(rpm) == 1
  {
    var a: int, b: int := FAN_CLOCK + rpm, Wrap64(rpm * 2);
    WrapFits(a);
    assert b == if rpm >= -TWO63 / 2 then 2 * rpm else 2 * rpm + TWO64;
    NoPositiveQuotient(a, b);
  }

  lemma NoPositiveQuotient(a: int, b: int)
    requires b != 0 && (a < 0 && b < 0 ==> -a < -b)
    requires a < 0 || b < 0
    ensures TruncDiv(a, b) <= 0
  {
    if a < 0 && b > 0 {
      QuotientAtLeast(-a, b, 0);
    } else if a < 0 {
      Euclid(-a, b);
    } else {
      Euclid(a, b);
    }
  }

  lemma Euclid(n: int, b: int)
    requires n >= 0 && b < 0
    ensures n / b <= 0 && (n < -b ==> n / b == 0)
  {
    var q := n / b;
    assert n == q * b + n % b;
    if q > 0 {
      MulMono(1, q, -b);
    }
    if q < 0 {
      MulMono(1, -q, -b);
      assert q * b >= -b;
    }
  }

  lemma Fan16RoundTrip(v: int)
    requires 1 <= v <= 0xfffe && (2 * v + 1) * v * 2 <= FAN_CLOCK
    ensures -TWO63 < Fan16FromReg(v) < TWO63 && Fan16ToReg(Fan16FromReg(v)) == v
  {
    CountOfQuotient(v, 2);
    QuotientBound(FAN_CLOCK, v * 2);
    Fan16ToRegFits(FAN_CLOCK / (v * 2));
  }

  lemma CountFromRest(v: int, rpm: int, rest: int)
    requires rpm > 0 && rest >= 0 && FAN_CLOCK == v * (2 * rpm) + rest
    ensures rest < rpm ==> Count(2 * rpm) == v
    ensures rest >= rpm ==> Count(2 * rpm) >= v + 1
  {
    var p := 2 * rpm;
    Distribute(v, 1, p);
    if rest < rpm {
      QuotientIs(FAN_CLOCK + rpm, p, v);
    } else {
      QuotientAtLeast(FAN_CLOCK + rpm, p, v + 1);
    }
  }

  /** Any 16-bit count: it survives the trip exactly if what the first division leaves over is less than the rpm. */
  lemma Fan16SteadyExactly(v: int)
    requires 1 <= v < 0xfffe
    ensures -TWO63 < Fan16FromReg(v) < TWO63
    ensures Fan16ToReg(Fan16FromReg(v)) == v <==> FAN_CLOCK % (2 * v) < FAN_CLOCK / (2 * v)
  {
    var q := 2 * v;
    var rpm, rest := FAN_CLOCK / q, FAN_CLOCK % q;
    QuotientBound(FAN_CLOCK, q);
    QuotientAtLeast(FAN_CLOCK, q, 1);
    Associate(rpm, 2, v);
    CountFromRest(v, rpm, rest);
    Fan16ToRegFits(rpm);
  }

  predicate Fan16Steady(v: int)
    requires 1 <= v < 0xfffe
  {
    FAN_CLOCK % (2 * v) < FAN_CLOCK / (2 * v)
  }

  predicate AllSteady(v: int, n: nat)
    requires 1 <= v && v + n <= 0xfffe
    decreases n
  {
    n == 0 || (Fan16Steady(v) && AllSteady(v + 1, n - 1))
  }

  lemma {:induction false} SteadyAt(v: int, n: nat, w: int)
    requires 1 <= v && v + n <= 0xfffe && AllSteady(v, n) && v <= w < v + n
    ensures Fan16Steady(w)
    decreases n
  {
    if v < w {
      assert n > 0;
      SteadyAt(v + 1, n - 1, w);
    }
  }

  // Past the bound above, one by one.
  lemma EdgeCounts()
    ensures AllSteady(581, 31) && !Fan16Steady(612)
  {
    assert AllSteady(601, 11);
    assert AllSteady(591, 21);
  }

  /** All proper 16-bit limits up to some count survive the round trip exactly if that count is at most 611. */
  lemma Fan16RoundTripExactly(limit: int)
    requires 0 <= limit < 0xffff
    ensures (forall v :: 1 <= v <= limit ==>
               -TWO63 < Fan16FromReg(v) < TWO63 && Fan16ToReg(Fan16FromReg(v)) == v) <==> limit <= 611
  {
    if limit <= 611 {
      forall v | 1 <= v <= limit
        ensures -TWO63 < Fan16FromReg(v) < TWO63 && Fan16ToReg(Fan16FromReg(v)) == v
      {
        if v <= 580 {
          MulMono(2 * v + 1, 1161, v);
          Fan16RoundTrip(v);
        } else {
          EdgeCounts();
          SteadyAt(581, 31, v);
          Fan16SteadyExactly(v);
        }
      }
    } else {
      EdgeCounts();
      Fan16SteadyExactly(612);
      assert 1 <= 612 <= limit;
    }
  }

  ghost predicate Fan16Antitone(limit: Long) {
    forall r: Long, r': Long :: 0 < r <= r' <= limit ==> Fan16ToReg(r) >= Fan16ToReg(r')
  }

  /** With 16-bit counts the same holds exactly up to the rpm at which the numerator overflows. */
  lemma Fan16AntitoneExactly(limit: Long)
    ensures Fan16Antitone(limit) <==> limit < FAN16_LIMIT
  {
    if limit < FAN16_LIMIT {
      forall r: Long, r': Long | 0 < r <= r' <= limit
        ensures Fan16ToReg(r) >= Fan16ToReg(r')
      {
        Fan16ToRegFits(r);
        Fan16ToRegFits(r');
        CountAntitone(2 * r, 2 * r');
      }
    } else {
      var r: Long := FAN16_LIMIT;
      assert Wrap64(FAN_CLOCK + r) == -TWO63;
      assert Wrap64(r * 2) == -2 * FAN_CLOCK;
      assert Fan16ToReg(r) == 0xfffe;
      assert Fan16ToReg(1350000) == 1;
      assert 0 < 1350000 <= r <= limit;
    }
  }

  // ----- temperatures -----

  function TempToReg(val: Long): (r: int)
    ensures -128 <= r <= 127
  {
    Clamp(if val < 0 then TruncDiv(Wrap64(val - 500), 1000) else TruncDiv(Wrap64(val + 500), 1000), -128, 127)
  }

  function TempFromReg(reg: int): int {
    reg * 1000
  }

  // A signed byte and the register that holds it.
  function ToS8(r: int): bv8
    requires -128 <= r <= 127
  {
    (r % 0x100) as bv8
  }

  function FromS8(b: bv8): (r: int)
    ensures -128 <= r <= 127
  {
    if b < 0x80 then b as int else b as int - 0x100
  }

  lemma S8RoundTrip(r: int)
    requires -128 <= r <= 127
    ensures FromS8(ToS8(r)) == r
  {
    ByteRoundTrip(r % 0x100);
  }

  lemma S8Register(b: bv8)
    ensures ToS8(FromS8(b)) == b
  {
    assert FromS8(b) % 0x100 == b as int;
  }

  lemma DegreesRoundTrip(r: int)
    requires -128 <= r <= 127
    ensures TempToReg(TempFromReg(r)) == r
  {
  }

  /** Writing back the temperature that was shown leaves the register as it was. */
  lemma TempRoundTrip(b: bv8)
    ensures ToS8(TempToReg(TempFromReg(FromS8(b)))) == b
  {
    DegreesRoundTrip(FromS8(b));
    S8Register(b);
  }

  // The temperature that is shown once a value has been stored.
  function ShownTemp(val: Long): int {
    TempFromReg(FromS8(ToS8(TempToReg(val))))
  }

  ghost predicate NearestDegree(val: Long) {
    forall r :: -128 <= r <= 127 ==> Abs(ShownTemp(val) - val) <= Abs(TempFromReg(r) - val)
  }

  lemma TempToRegRounds(val: Long)
    requires -TWO63 + 500 <= val < TWO63 - 500
    ensures var x := TempToReg(val);
            (x < 127 ==> val <= 1000 * x + 500) && (x > -128 ==> 1000 * x - 500 <= val)
  {
  }

  lemma NearestOfRounded(val: int, x: int, r: int)
    requires -128 <= x <= 127 && -128 <= r <= 127
    requires (x < 127 ==> val <= 1000 * x + 500) && (x > -128 ==> 1000 * x - 500 <= val)
    ensures Abs(1000 * x - val) <= Abs(1000 * r - val)
  {
  }

  lemma TempOverflows(val: Long)
    requires !(-TWO63 + 500 <= val < TWO63 - 500)
    ensures TempToReg(val) == if val < 0 then 127 else -128
  {
  }

  /** A temperature is stored as the nearest whole degree the register can hold, exactly if it is at least 500 away from
    both ends of a long; beyond, adding or taking away the half degree overflows and the opposite end is stored. */
  lemma TempNearestExactly(val: Long)
    ensures NearestDegree(val) <==> -TWO63 + 500 <= val < TWO63 - 500
  {
    var x := TempToReg(val);
    S8RoundTrip(x);
    if -TWO63 + 500 <= val < TWO63 - 500 {
      TempToRegRounds(val);
      forall r | -128 <= r <= 127
        ensures Abs(ShownTemp(val) - val) <= Abs(TempFromReg(r) - val)
      {
        NearestOfRounded(val, x, r);
      }
    } else {
      TempOverflows(val);
      assert Abs(TempFromReg(if val < 0 then -128 else 127) - val) < Abs(ShownTemp(val) - val);
    }
  }

  // ----- divisors -----

  function Pow2(k: nat): (p: nat)
    ensures p > 0
  {
    if k == 0 then 1 else 2 * Pow2(k - 1)
  }

  /** The largest power of two, up to 128, that does not exceed val. */
  ghost predicate IsDivisorField(val: int, answer: int) {
    && 0 <= answer <= 7
    && (val > 0 ==> Pow2(answer) <= val)
    && (0 <= val && answer < 7 ==> val < Pow2(answer + 1))
    && (val == 0 ==> answer == 0)
    && (val < 0 ==> answer == 7)
  }

  function DivToReg(val: int): (answer: nat) {
    if val < 0 || val >= 128 then 7
    else if val >= 64 then 6
    else if val >= 32 then 5
    else if val >= 16 then 4
    else if val >= 8 then 3
    else if val >= 4 then 2
    else if val >= 2 then 1
    else 0
  }

  /** One shift to the right, against twice the weight. */
  lemma Halve(val: int, v: int, p: int)
    requires v * p <= val < (v + 1) * p && p > 0
    ensures v / 2 * (2 * p) <= val < (v / 2 + 1) * (2 * p)
  {
    Associate(v / 2, 2, p);
    Distribute(v / 2, 1, 2 * p);
    Distribute(v, 1, p);
    MulMono(v / 2 * 2, v, p);
    MulMono(v, v / 2 * 2 + 1, p);
    Distribute(v / 2 * 2, 1, p);
  }

  lemma DivisorFieldIs(val: int, answer: nat)
    requires IsDivisorField(val, answer)
    ensures answer == DivToReg(val)
  {
    assert Pow2(0) == 1 && Pow2(1) == 2 && Pow2(2) == 4 && Pow2(3) == 8;
    assert Pow2(4) == 16 && Pow2(5) == 32 && Pow2(6) == 64 && Pow2(7) == 128;
  }

  method ComputeDivToReg(val: int) returns (answer: nat)
    ensures IsDivisorField(val, answer)
    ensures answer == DivToReg(val)
  {
    answer := 0;
    var v := val;
    while answer < 7
      invariant answer <= 7
      invariant v < 0 <==> val < 0
      invariant val >= 0 ==> v * Pow2(answer) <= val < (v + 1) * Pow2(answer)
      invariant answer > 0 ==> v != 0
      decreases 7 - answer
    {
      if val >= 0 {
        Halve(val, v, Pow2(answer));
      }
      v := v / 2;
      if v == 0 { break; }
      answer := answer + 1;
    }
    MulMono(1, v, Pow2(answer));
    DivisorFieldIs(val, answer);
  }
}
