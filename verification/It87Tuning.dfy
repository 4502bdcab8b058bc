/** Single settings that are more than a store: fan divisors, pwm frequencies, temperature maps. */
module It87Tuning {
  import opened Bytes
  import opened It87Registers
  import opened It87Convert
  import opened It87Spec
  import opened It87Coherence

  // ----- fan divisors -----

  lemma DivisorFieldMeans(val: int)
    ensures IsDivisorField(val, DivToReg(val))
  {
    assert Pow2(1) == 2 && Pow2(2) == 4 && Pow2(3) == 8;
    assert Pow2(4) == 16 && Pow2(5) == 32 && Pow2(6) == 64 && Pow2(7) == 128;
  }

  lemma SetFanDivReads(cfg: Config, d: Device, nr: nat, val: ULong)
    requires Apart(cfg.addr) && nr < FAN_DIVS
    ensures var d' := SetFanDiv(cfg, d, nr, val);
            && d'.Read(cfg, FanDiv) == EncodeFanDiv(d.Read(cfg, FanDiv), d.fanDiv[nr := FanDivField(nr, val)])
            && d'.fanMin[nr] == FanToReg(MinRpm(d, nr), DivFromReg(FanDivField(nr, val) as nat))
            && d'.Read(cfg, FanMin(nr)) == d'.fanMin[nr] as bv8
  {
  }

  /** The divisor chosen: the largest power of two up to 128 that does not exceed the request, kept in 32 bits; for the
    third fan eight if the request allows it, or two. */
  ghost predicate IsNewDivisor(nr: nat, val: ULong, field: bv8) {
    if nr == 2 then field == if val >= 8 then 3 else 1 else IsDivisorField(Wrap32(val), field as int)
  }

  /** Once refreshed, a new divisor changes the field of its fan and no other, and keeps bit 7. */
  lemma FanDivChangesOneField(cfg: Config, d: Device, nr: nat, val: ULong)
    requires Apart(cfg.addr) && Coherent(cfg, d) && Exposed(cfg, OpFanDiv(nr, val))
    ensures var d' := SetFanDiv(cfg, d, nr, val);
            && IsNewDivisor(nr, val, FanDivField(nr, val))
            && d'.Read(cfg, FanDiv) & 0x80 == d.Read(cfg, FanDiv) & 0x80
            && DecodeFanDiv(d'.Read(cfg, FanDiv)) == DecodeFanDiv(d.Read(cfg, FanDiv))[nr := FanDivField(nr, val)]
  {
    SetFanDivReads(cfg, d, nr, val);
    NewDivisorMeans(nr, val);
    DivsAreTheChips(cfg, d, nr);
    OneFieldDecodes(d.Read(cfg, FanDiv), d.fanDiv, nr, FanDivField(nr, val));
  }

  lemma DivsAreTheChips(cfg: Config, d: Device, nr: nat)
    requires Coherent(cfg, d) && nr < FAN_DIVS && cfg.hasFan[nr] && !cfg.fans16
    ensures d.fanDiv == DecodeFanDiv(d.Read(cfg, FanDiv))
  {
    assert Agrees(cfg, d, FanDiv, d.Read(cfg, FanDiv));
  }

  lemma NewDivisorMeans(nr: nat, val: ULong)
    ensures IsNewDivisor(nr, val, FanDivField(nr, val))
  {
    DivisorFieldMeans(Wrap32(val));
    ByteRoundTrip(DivToReg(Wrap32(val)));
  }

  lemma OneFieldDecodes(before: bv8, was: DivRow, nr: nat, field: DivField)
    requires nr < FAN_DIVS && was == DecodeFanDiv(before) && (nr == 2 ==> field == 1 || field == 3)
    ensures var v := EncodeFanDiv(before, was[nr := field]);
            v & 0x80 == before & 0x80 && DecodeFanDiv(v) == was[nr := field]
  {
    var div := was[nr := field];
    FanDivDecodes(before, div);
    assert div == [div[0], div[1], div[2]];
  }

  /** The limit in rpm is carried over: the stored count is the nearest one for the new divisor. */
  lemma FanDivKeepsLimit(cfg: Config, d: Device, nr: nat, val: ULong, other: int)
    requires Apart(cfg.addr) && nr < FAN_DIVS && MinRpm(d, nr) > 0 && 1 <= other <= 254
    ensures var d' := SetFanDiv(cfg, d, nr, val);
            var period := MinRpm(d, nr) * DivFromReg(FanDivField(nr, val) as nat);
            && d'.Read(cfg, FanMin(nr)) as int == d'.fanMin[nr]
            && 1 <= d'.fanMin[nr] <= 254
            && Abs(d'.fanMin[nr] * period - FAN_CLOCK) <= Abs(other * period - FAN_CLOCK)
  {
    SetFanDivReads(cfg, d, nr, val);
    var div := DivFromReg(FanDivField(nr, val) as nat);
    FanToRegNearest(MinRpm(d, nr), div, other);
    ByteRoundTrip(FanToReg(MinRpm(d, nr), div));
  }

  // ----- pwm frequencies -----

  function Midpoint(i: nat): nat
    requires i < 7
  {
    (PwmFreq(i) + PwmFreq(i + 1)) / 2
  }

  lemma {:induction false} FreqIndexBounds(scaled: nat, i: nat)
    requires i <= 7 && (i > 0 ==> scaled <= Midpoint(i - 1))
    ensures var r := FreqIndex(scaled, i); (r < 7 ==> scaled > Midpoint(r)) && (r > 0 ==> scaled <= Midpoint(r - 1))
    decreases 7 - i
  {
    if i < 7 && scaled <= Midpoint(i) {
      FreqIndexBounds(scaled, i + 1);
    }
  }

  lemma BetweenMidpoints(scaled: nat, r: nat, j: nat)
    requires r <= 7 && j <= 7
    requires (r < 7 ==> scaled > Midpoint(r)) && (r > 0 ==> scaled <= Midpoint(r - 1))
    ensures Abs(PwmFreq(r) - scaled) <= Abs(PwmFreq(j) - scaled)
  {
  }

  lemma LargeRequest(cfg: Config, val: ULong, j: nat)
    requires j <= 7 && val > 1000000
    ensures RequestedIndex(cfg, val) == 0 && PwmFreq(j) <= PwmFreq(0) <= val * FreqScale(cfg)
  {
    assert 1000000 * FreqScale(cfg) > Midpoint(0);
  }

  /** The index chosen is nearest to the request however large it is, although the search sees a clamped one. */
  lemma NearestFrequency(cfg: Config, val: ULong, j: nat)
    requires j <= 7
    ensures var want := val * FreqScale(cfg);
            Abs(PwmFreq(RequestedIndex(cfg, val)) - want) <= Abs(PwmFreq(j) - want)
  {
    if val <= 1000000 {
      FreqIndexBounds(val * FreqScale(cfg), 0);
      BetweenMidpoints(val * FreqScale(cfg), RequestedIndex(cfg, val), j);
    } else {
      LargeRequest(cfg, val, j);
    }
  }

  /** Only the three frequency bits of one register change. */
  lemma FreqChangesOneField(cfg: Config, d: Device, nr: nat, val: ULong)
    ensures var d' := SetPwmFreq(cfg, d, nr, val);
            var r := if nr == 0 then FanCtl else TempExtra;
            && FreqField(d'.Read(cfg, r)) as nat == RequestedIndex(cfg, val)
            && d'.Read(cfg, r) & 0x8f == d.Read(cfg, r) & 0x8f
            && forall a: nat :: a < 0x100 && a != cfg.addr(r) ==> d'.regs[a] == d.regs[a]
  {
    FreqRegField(d.Read(cfg, if nr == 0 then FanCtl else TempExtra), RequestedIndex(cfg, val));
  }

  lemma FreqRegField(v: bv8, index: nat)
    requires index <= 7
    ensures FreqField(FreqReg(v, index)) as nat == index && FreqReg(v, index) & 0x8f == v & 0x8f
  {
    assert index == index % 0x100;
  }

  lemma IndexUnique(scaled: nat, r: nat)
    requires r <= 7 && (r < 7 ==> scaled > Midpoint(r)) && (r > 0 ==> scaled <= Midpoint(r - 1))
    ensures FreqIndex(scaled, 0) == r
  {
    FreqIndexBounds(scaled, 0);
  }

  lemma ShownTable(cfg: Config, i: nat)
    requires i <= 7
    ensures ShownFreq(cfg, i) ==
            if cfg.newerAutopwm then [187500, 93750, 46875, 31250, 23437, 11718, 5859, 2929][i]
            else [375000, 187500, 93750, 62500, 46875, 23437, 11718, 5859][i]
  {
  }

  lemma ShownIndexRequested(cfg: Config, i: nat)
    requires i <= 7
    ensures RequestedIndex(cfg, ShownFreq(cfg, i)) == i
  {
    ShownTable(cfg, i);
    IndexUnique(ShownFreq(cfg, i) * FreqScale(cfg), i);
  }

  lemma SameFieldSameReg(v: bv8, i: bv8)
    requires i == FreqField(v)
    ensures (v & 0x8f) | (i << 4) == v
  {
  }

  lemma FreqRegSame(v: bv8)
    ensures FreqReg(v, FreqField(v) as nat) == v
  {
    SameFieldSameReg(v, FreqField(v));
  }

  /** Writing back the frequency that is shown for a channel leaves all registers and the index shown as they were. */
  lemma ShownFrequencySelectsItself(cfg: Config, d: Device, nr: nat)
    requires Coherent(cfg, d) && Exposed(cfg, OpPwmFreq(nr, 0))
    ensures var i := ShownFreqIndex(cfg, d, nr) as nat;
            var d' := SetPwmFreq(cfg, d, nr, ShownFreq(cfg, i));
            d'.regs == d.regs && ShownFreqIndex(cfg, d', nr) == ShownFreqIndex(cfg, d, nr)
  {
    var r := if nr == 0 then FanCtl else TempExtra;
    assert Agrees(cfg, d, r, d.Read(cfg, r));
    ShownIndexRequested(cfg, ShownFreqIndex(cfg, d, nr) as nat);
    FreqRegSame(d.Read(cfg, r));
  }

  // ----- temperature maps -----

  /** The map that is shown is accepted again exactly for the first three channels: the later ones show powers
    of two from eight on but accept them only after subtracting three. */
  lemma ShownMapAccepted(d: Device, nr: nat)
    requires nr < PWMS
    ensures TempMapField(nr, ShownTempMap(d, nr)).1 == Ok <==> nr < 3
    ensures nr < 3 && d.chan[nr].tempMap < 3 ==> TempMapField(nr, ShownTempMap(d, nr)) == (d.chan[nr].tempMap, Ok)
  {
  }
}
