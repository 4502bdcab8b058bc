/** The values that setters leave in the registers, and what a refresh reads back, register by register. */
module It87Stored {
  import opened Arithmetic
  import opened Bytes
  import opened It87Registers
  import opened It87Convert
  import opened It87Spec
  import opened It87Coherence
  import opened It87Runs
  import opened It87Pwm

  // ----- voltages -----

  /** The width of a voltage step in units of 0.1 mV, doubled where the input has a divider in front of it. */
  lemma VoltageStep(cfg: Config, nr: nat)
    requires nr < VINS
    ensures AdcLsb(cfg, nr) == (if cfg.inScaled[nr] then 2 else 1)
                               * (if cfg.adc == Adc12mV then 120 else if cfg.adc == Adc10mV9 then 109
                                  else if cfg.adc == Adc11mV then 110 else 160)
  {
  }

  /** A voltage limit goes to the register and the cache it is meant for, as the nearest step; the other limit stays.
    */
  lemma InStored(cfg: Config, d: Device, nr: nat, limit: Limit, val: ULong, other: int)
    requires Apart(cfg.addr) && nr < VIN_LIMITS && limit != Offset
    requires 0 <= other <= 255 && 10 * val + AdcLsb(cfg, nr) / 2 < TWO63
    ensures var e, r, s := SetIn(cfg, d, nr, limit, val), if limit == Min then VinMin(nr) else VinMax(nr),
                           if limit == Min then VinMax(nr) else VinMin(nr);
            var lsb, v := AdcLsb(cfg, nr), e.Read(cfg, r);
            && Abs(v as int * lsb - 10 * val) <= Abs(other * lsb - 10 * val)
            && e.Read(cfg, s) == d.Read(cfg, s)
            && e.inMin == (if limit == Min then d.inMin[nr := v] else d.inMin)
            && e.inMax == if limit == Min then d.inMax else d.inMax[nr := v]
  {
    InNearest(AdcLsb(cfg, nr), val, other);
    ByteRoundTrip(InToReg(AdcLsb(cfg, nr), val));
    assert cfg.addr(VinMin(nr)) != cfg.addr(VinMax(nr));
  }

  // ----- temperatures -----

  ghost predicate Nearest(v: bv8, val: Long) {
    forall t :: -128 <= t <= 127 ==> Abs(1000 * FromS8(v) - val) <= Abs(1000 * t - val)
  }

  lemma StoredDegrees(val: Long)
    requires -TWO63 + 500 <= val < TWO63 - 500
    ensures Nearest(ToS8(TempToReg(val)), val)
  {
    S8RoundTrip(TempToReg(val));
    TempToRegRounds(val);
    forall t | -128 <= t <= 127
      ensures Abs(1000 * TempToReg(val) - val) <= Abs(1000 * t - val)
    {
      NearestOfRounded(val, TempToReg(val), t);
    }
  }

  /** A temperature goes to the one register it is meant for, as the nearest whole degree. */
  lemma TempStored(cfg: Config, d: Device, nr: nat, limit: Limit, val: Long)
    requires nr < TEMPS && limit != Offset && -TWO63 + 500 <= val < TWO63 - 500
    ensures var e := SetTemp(cfg, d, nr, limit, val);
            var v := e.Read(cfg, if limit == Min then TempLow(nr) else TempHigh(nr));
            && Nearest(v, val) && e.valid == d.valid && e.tempOff == d.tempOff
            && e.tempMin == (if limit == Min then d.tempMin[nr := v] else d.tempMin)
            && e.tempMax == if limit == Min then d.tempMax else d.tempMax[nr := v]
  {
    StoredDegrees(val);
  }

  /** An offset as well; bit 7 of the beep register is then set, its other bits are kept, and the cache is invalid. */
  lemma OffsetStored(cfg: Config, d: Device, nr: nat, val: Long)
    requires Apart(cfg.addr) && nr < TEMPS && -TWO63 + 500 <= val < TWO63 - 500
    ensures var e := SetTemp(cfg, d, nr, Offset, val);
            var v := e.Read(cfg, TempOffset(nr));
            && Nearest(v, val) && !e.valid && e.tempOff == d.tempOff[nr := v]
            && e.tempMin == d.tempMin && e.tempMax == d.tempMax
            && e.Read(cfg, BeepEnable) == d.Read(cfg, BeepEnable) | 0x80
  {
    StoredDegrees(val);
    BeepsEnabled(cfg, d);
    assert cfg.addr(BeepEnable) != cfg.addr(TempOffset(nr));
  }

  lemma BeepsEnabled(cfg: Config, d: Device)
    ensures EnableOffsets(cfg, d).Read(cfg, BeepEnable) == d.Read(cfg, BeepEnable) | 0x80
  {
    SetTop(d.Read(cfg, BeepEnable));
  }

  lemma SetTop(v: bv8)
    ensures v & 0x80 != 0 ==> v | 0x80 == v
  {
  }

  // ----- fans -----

  /** The divisor of a fan as the divisor register says. */
  function RegisterDivisor(v: nat, nr: nat): int {
    if nr == 2 then (if v / 64 % 2 == 1 then 8 else 2) else Pow2(if nr == 0 then v % 8 else v / 8 % 8)
  }

  lemma FieldsByNumber(v: bv8)
    ensures (v & 0x07) as nat == v as nat % 8
    ensures ((v >> 3) & 0x07) as nat == v as nat / 8 % 8
    ensures v & 0x40 != 0 <==> v as nat / 64 % 2 == 1
  {
  }

  lemma DivisorIsPower(k: nat)
    requires k <= 7
    ensures DivFromReg(k) == Pow2(k)
  {
    assert Pow2(0) == 1 && Pow2(1) == 2 && Pow2(2) == 4 && Pow2(3) == 8;
    assert Pow2(4) == 16 && Pow2(5) == 32 && Pow2(6) == 64 && Pow2(7) == 128;
  }

  lemma DecodedDivisor(v: bv8, nr: nat)
    requires nr < FAN_DIVS
    ensures DivFromReg(DecodeFanDiv(v)[nr] as nat) == RegisterDivisor(v as nat, nr)
  {
    var field := RegisterField(v as nat, nr);
    FieldIsDecoded(v, nr);
    DivisorIsPower(field);
    assert Pow2(1) == 2 && Pow2(3) == 8;
  }

  function RegisterField(v: nat, nr: nat): (k: nat)
    ensures k <= 7
  {
    if nr == 0 then v % 8 else if nr == 1 then v / 8 % 8 else if v / 64 % 2 == 1 then 3 else 1
  }

  lemma FieldIsDecoded(v: bv8, nr: nat)
    requires nr < FAN_DIVS
    ensures DecodeFanDiv(v)[nr] as nat == RegisterField(v as nat, nr)
  {
    FieldsByNumber(v);
  }

  lemma SetFan8Is(cfg: Config, d: Device, nr: nat, val: Long, div: int)
    requires nr < FAN_DIVS && !cfg.fans16 && div == DivFromReg(DecodeFanDiv(d.Read(cfg, FanDiv))[nr] as nat)
    ensures var e := SetFan(cfg, d, nr, val);
            && e.fanMin == d.fanMin[nr := FanToReg(val, div)]
            && e.Read(cfg, FanMin(nr)) == FanToReg(val, div) as bv8
  {
  }

  /** An 8-bit fan limit: 255 for no limit, 254 for a negative one, otherwise the count nearest to 1350000 over rpm
    times the divisor the register has. */
  lemma FanStored(cfg: Config, d: Device, nr: nat, val: Long, other: int)
    requires nr < FAN_DIVS && !cfg.fans16 && 1 <= other <= 254
    ensures var div := RegisterDivisor(d.Read(cfg, FanDiv) as nat, nr);
            var k := SetFan(cfg, d, nr, val).Read(cfg, FanMin(nr)) as int;
            && (val == 0 ==> k == 255)
            && (-TWO63 < val < 0 ==> k == 254)
            && (val > 0 ==> 1 <= k <= 254
                            && Abs(k * (val * div) - 1350000) <= Abs(other * (val * div) - 1350000))
  {
    var div := RegisterDivisor(d.Read(cfg, FanDiv) as nat, nr);
    DecodedDivisor(d.Read(cfg, FanDiv), nr);
    SetFan8Is(cfg, d, nr, val, div);
    ByteRoundTrip(FanToReg(val, div));
    if val > 0 {
      FanToRegNearest(val, div, other);
    } else {
      FanLimitsOff(div, if -TWO63 < val < 0 then val else -1);
    }
  }

  lemma SetFan16Is(cfg: Config, d: Device, nr: nat, val: Long)
    requires Apart(cfg.addr) && nr < FANS && cfg.fans16 && Dividable(val)
    ensures var e, v := SetFan(cfg, d, nr, val), Fan16ToReg(val);
            && e.fanMin == d.fanMin[nr := v]
            && e.Read(cfg, FanMin(nr)) == (v % 0x100) as bv8 && e.Read(cfg, FanXMin(nr)) == (v / 0x100) as bv8
  {
    assert cfg.addr(FanMin(nr)) != cfg.addr(FanXMin(nr));
  }

  /** A 16-bit fan limit, low byte and high byte: 65535 for no limit, 1 for a negative one, otherwise the count
    nearest to 1350000 over twice the rpm. */
  lemma Fan16Stored(cfg: Config, d: Device, nr: nat, val: Long, other: int)
    requires Apart(cfg.addr) && nr < FANS && cfg.fans16 && Dividable(val) && 1 <= other <= 0xfffe
    ensures var e := SetFan(cfg, d, nr, val);
            var k := e.Read(cfg, FanMin(nr)) as int + e.Read(cfg, FanXMin(nr)) as int * 0x100;
            && k == e.fanMin[nr]
            && (val == 0 ==> k == 65535)
            && (val < 0 ==> k == 1)
            && (0 < val < TWO63 - 1350000 ==>
                  1 <= k <= 65534 && Abs(k * (2 * val) - 1350000) <= Abs(other * (2 * val) - 1350000))
  {
    SetFan16Is(cfg, d, nr, val);
    ByteRoundTrip(Fan16ToReg(val) % 0x100);
    ByteRoundTrip(Fan16ToReg(val) / 0x100);
    if val < 0 {
      Fan16Negative(val);
    } else if 0 < val < FAN16_LIMIT {
      Fan16ToRegFits(val);
      Fan16Nearest(val, other);
    }
  }

  /** A divisor change leaves a limit that is off as off, and makes a count of zero the slowest proper limit. */
  lemma DivisorKeepsOff(cfg: Config, d: Device, nr: nat, val: ULong)
    requires Apart(cfg.addr) && nr < FAN_DIVS && (d.fanMin[nr] == 255 || d.fanMin[nr] == 0)
    ensures SetFanDiv(cfg, d, nr, val).Read(cfg, FanMin(nr)) == if d.fanMin[nr] == 255 then 255 else 254
  {
    var div := DivFromReg(FanDivField(nr, val) as nat);
    FanLimitsOff(div, -1);
    OffRpm(d, nr);
    SetFanDivStores(cfg, d, nr, val, FanToReg(MinRpm(d, nr), div));
  }

  lemma OffRpm(d: Device, nr: nat)
    requires nr < FAN_DIVS && (d.fanMin[nr] == 255 || d.fanMin[nr] == 0)
    ensures MinRpm(d, nr) == if d.fanMin[nr] == 255 then 0 else -1
  {
    FanLimitsOff(DivFromReg(d.fanDiv[nr] as nat), -1);
  }

  lemma SetFanDivStores(cfg: Config, d: Device, nr: nat, val: ULong, v: int)
    requires nr < FAN_DIVS && 0 <= v < 0x100 && v == FanToReg(MinRpm(d, nr), DivFromReg(FanDivField(nr, val) as nat))
    ensures SetFanDiv(cfg, d, nr, val).Read(cfg, FanMin(nr)) == v as bv8
  {
  }

  // ----- temperature maps and trip points -----

  /** The map a value stands for: 1, 2 or 4, three more than that on the later channels. */
  function MapIndex(nr: nat, val: int): int {
    var v := if nr >= 3 then val - 3 else val;
    if v == 1 then 0 else if v == 2 then 1 else if v == 4 then 2 else -1
  }

  lemma MapFieldIs(nr: nat, val: Long)
    requires val >= -TWO63 + 3
    ensures var (field, status) := TempMapField(nr, val);
            && (status == Ok <==> MapIndex(nr, val) >= 0)
            && (status == Ok ==> field == MapIndex(nr, val) as bv8 && field < 4)
  {
    if nr >= 3 {
      WrapFits(val - 3);
    }
  }

  lemma LowTwoBits(v: bv8, field: bv8)
    requires field < 4
    ensures var w := (v & 0xfc) | field; w & 0x03 == field && w & 0xfc == v & 0xfc
  {
  }

  /** A map was stored: in the cache, and in automatic mode in bits 0 and 1 of the control register, whose other bits
    are kept; in manual mode no register changed. */
  ghost predicate HoldsMap(cfg: Config, d: Device, e: Device, nr: nat, field: bv8)
    requires nr < PWMS
  {
    var was, now := d.Read(cfg, Pwm(nr)), e.Read(cfg, Pwm(nr));
    && e.chan[nr].tempMap == field
    && if was & 0x80 != 0 then now & 0x03 == field && now & 0xfc == was & 0xfc else e.regs == d.regs
  }

  /** A map is refused, or stored. */
  lemma MapStored(cfg: Config, d: Device, nr: nat, val: Long)
    requires nr < PWMS && cfg.hasPwm[nr] && val >= -TWO63 + 3
    ensures var (e, status) := SetPwmTempMap(cfg, d, nr, val);
            && (status == Ok <==> MapIndex(nr, val) >= 0)
            && (status != Ok ==> e == d)
            && (status == Ok ==> HoldsMap(cfg, d, e, nr, MapIndex(nr, val) as bv8))
  {
    MapFieldIs(nr, val);
    var (field, status) := TempMapField(nr, val);
    if status == Ok {
      RereadControl(cfg, d, nr);
      StoreMapHolds(cfg, d, RereadChannel(cfg, d, nr), nr, field);
    }
  }

  lemma StoreMapAutomatic(cfg: Config, d: Device, nr: nat, field: bv8, was: bv8)
    requires nr < PWMS && d.chan[nr].ctrl == was && was & 0x80 != 0
    ensures StoreTempMap(cfg, d, nr, field).chan[nr].tempMap == field
    ensures StoreTempMap(cfg, d, nr, field).Read(cfg, Pwm(nr)) == (was & 0xfc) | field
  {
  }

  lemma StoreMapManual(cfg: Config, d: Device, nr: nat, field: bv8, was: bv8)
    requires nr < PWMS && d.chan[nr].ctrl == was && was & 0x80 == 0
    ensures StoreTempMap(cfg, d, nr, field).chan[nr].tempMap == field
    ensures StoreTempMap(cfg, d, nr, field).regs == d.regs
  {
  }

  lemma StoreMapHolds(cfg: Config, d: Device, d1: Device, nr: nat, field: bv8)
    requires nr < PWMS && field < 4 && d1.regs == d.regs && d1.chan[nr].ctrl == d.Read(cfg, Pwm(nr))
    ensures HoldsMap(cfg, d, StoreTempMap(cfg, d1, nr, field), nr, field)
  {
    var was, e := d.Read(cfg, Pwm(nr)), StoreTempMap(cfg, d1, nr, field);
    if was & 0x80 != 0 {
      StoreMapAutomatic(cfg, d1, nr, field, was);
      MapIsHeld(cfg, d, e, nr, field, was);
    } else {
      StoreMapManual(cfg, d1, nr, field, was);
    }
  }

  lemma MapIsHeld(cfg: Config, d: Device, e: Device, nr: nat, field: bv8, was: bv8)
    requires nr < PWMS && field < 4 && was == d.Read(cfg, Pwm(nr)) && was & 0x80 != 0
    requires e.chan[nr].tempMap == field && e.Read(cfg, Pwm(nr)) == (was & 0xfc) | field
    ensures HoldsMap(cfg, d, e, nr, field)
  {
    LowTwoBits(was, field);
  }

  /** The first trip duty of a newer chip is stored as it is, the duties of an older one as half of it. */
  lemma TripDutyStored(cfg: Config, d: Device, nr: nat, point: nat, val: Long)
    requires Exposed(cfg, OpAutoPwm(nr, point, val)) && 0 <= val <= 255
    ensures var e := SetAutoPwm(cfg, d, nr, point, val).0;
            var v := e.Read(cfg, if cfg.newerAutopwm then Auto(nr, 3) else Auto(nr, 5 + point));
            && v as int == (if cfg.newerAutopwm then val else val / 2)
            && e.chan[nr].autoPwm == d.chan[nr].autoPwm[point := v]
  {
    ByteRoundTrip(val);
    HalfOf(val as bv8);
  }

  lemma SlopeBits(was: bv8, v: bv8)
    requires v < 0x80
    ensures var w := (was & 0x80) | v; w & 0x7f == v && w & 0x80 == was & 0x80
  {
  }

  /** A slope is the low seven bits of its register; the top bit is the cached one. Larger ones are refused. */
  lemma SlopeStored(cfg: Config, d: Device, nr: nat, val: ULong)
    requires nr < PWMS
    ensures var (e, status) := SetAutoPwmSlope(cfg, d, nr, val);
            var v := e.Read(cfg, Auto(nr, 4));
            && (status == Ok <==> val < 128) && (status != Ok ==> e == d)
            && (status == Ok ==> (v & 0x7f) as int == val && v & 0x80 == d.chan[nr].autoPwm[1] & 0x80)
  {
    if val < 128 {
      ByteRoundTrip(val);
      ByteOrder(val as bv8, 0x7f);
      SlopeBits(d.chan[nr].autoPwm[1], val as bv8);
    }
  }

  lemma HysteresisBits(was: bv8, v: bv8)
    requires v < 0x20
    ensures var w := v | (was & 0xe0); w & 0x1f == v && w & 0xe0 == was & 0xe0
  {
  }

  /** The hysteresis of a newer chip: the distance of the first trip point from the value, rounded to whole degrees
    and kept between 0 and 31, in the low five bits; the upper three are the cached ones. */
  lemma HysteresisStored(cfg: Config, d: Device, nr: nat, val: Long)
    requires nr < PWMS && cfg.newerAutopwm && -128000 <= val <= 127000
    ensures var v := SetAutoTemp(cfg, d, nr, 0, val).0.Read(cfg, Auto(nr, 5));
            var rounded := if val < 0 then -((500 - val) / 1000) else (val + 500) / 1000;
            var degrees := FromS8(d.chan[nr].autoTemp[1]) - rounded;
            && (v & 0x1f) as int == (if degrees < 0 then 0 else if degrees > 31 then 31 else degrees)
            && v & 0xe0 == d.chan[nr].autoTemp[0] & 0xe0
  {
    var c := d.chan[nr];
    var h := Clamp(FromS8(c.autoTemp[1]) - TempToReg(val), 0, 0x1f);
    ByteRoundTrip(h);
    ByteOrder(h as bv8, 0x1f);
    HysteresisBits(c.autoTemp[0], h as bv8);
    SmallDegrees(val);
    assert SetAutoTemp(cfg, d, nr, 0, val).0.Read(cfg, Auto(nr, 5)) == (h as bv8) | (c.autoTemp[0] & 0xe0);
  }

  lemma SmallDegrees(val: Long)
    requires -128000 <= val <= 127000
    ensures TempToReg(val) == if val < 0 then -((500 - val) / 1000) else (val + 500) / 1000
  {
    WrapFits(if val < 0 then val - 500 else val + 500);
    assert 0 <= (500 - val) / 1000 <= 128 || val >= 0;
    assert (val + 500) / 1000 <= 127;
  }

  /** A trip temperature is stored as the nearest whole degree; on the newer chips the points count from one. */
  lemma TripStored(cfg: Config, d: Device, nr: nat, point: nat, val: Long)
    requires Exposed(cfg, OpAutoTemp(nr, point, val)) && (cfg.newerAutopwm ==> point > 0) && -128000 <= val <= 127000
    ensures var e := SetAutoTemp(cfg, d, nr, point, val).0;
            var v := e.Read(cfg, Auto(nr, if cfg.newerAutopwm then point - 1 else point));
            Nearest(v, val) && e.chan[nr].autoTemp == d.chan[nr].autoTemp[point := v]
  {
    StoredDegrees(val);
  }

  // ----- sensor types -----

  // Of a sensor register, bit nr says diode and bit nr + 3 thermistor.
  function ThermistorBit(nr: nat): bv8 {
    if nr == 0 then 0x08 else if nr == 1 then 0x10 else 0x20
  }

  function SensorNumber(nr: nat): bv8 {
    if nr == 0 then 1 else if nr == 1 then 2 else 3
  }

  // The number of the sensor that has the digital interface, in bits 6 and 7; zero for none.
  function PeciSensor(v: bv8): bv8 {
    v >> 6
  }

  /** What the first sensor register becomes: the diode bit for type 3, the thermistor bit for types 2 and 4, bits 6
    and 7 for type 6 or freed if they named this sensor; nothing else changes. */
  ghost predicate HasType(was: bv8, now: bv8, nr: nat, val: Long, peci: bool) {
    var lo, hi, mine := LowBit(nr), ThermistorBit(nr), SensorNumber(nr);
    && now & lo == (if val == 3 then lo else 0)
    && now & hi == (if val == 2 || val == 4 then hi else 0)
    && now & (0x3f & !(lo | hi)) == was & (0x3f & !(lo | hi))
    && PeciSensor(now) == if peci && val == 6 then mine
                          else if peci && PeciSensor(was) == mine then 0 else PeciSensor(was)
  }

  ghost predicate OfOneSensor(lo: bv8, hi: bv8, top: bv8, mine: bv8) {
    || (lo == 0x01 && hi == 0x08 && top == 0x40 && mine == 1)
    || (lo == 0x02 && hi == 0x10 && top == 0x80 && mine == 2)
    || (lo == 0x04 && hi == 0x20 && top == 0xc0 && mine == 3)
  }

  lemma TypedBits(was: bv8, lo: bv8, hi: bv8, top: bv8, mine: bv8, peci: bool, val: Long)
    requires OfOneSensor(lo, hi, top, mine)
    ensures var now := Typed(was, lo, hi, top, peci, val);
            && now & lo == (if val == 3 then lo else 0)
            && now & hi == (if val == 2 || val == 4 then hi else 0)
            && now & (0x3f & !(lo | hi)) == was & (0x3f & !(lo | hi))
            && now >> 6 == if peci && val == 6 then mine else if peci && was >> 6 == mine then 0 else was >> 6
  {
  }

  lemma TypeBits(cfg: Config, was: bv8, nr: nat, val: Long)
    requires nr < 3
    ensures HasType(was, TempTypeEnable(cfg, was, nr, val), nr, val, cfg.tempPeci[nr])
  {
    SensorBits(nr);
    TypedBits(was, Bit(nr), Bit(nr + 3), PeciField(nr), SensorNumber(nr), cfg.tempPeci[nr], val);
  }

  lemma SensorBits(nr: nat)
    requires nr < 3
    ensures Bit(nr) == LowBit(nr) && Bit(nr + 3) == ThermistorBit(nr)
    ensures OfOneSensor(Bit(nr), Bit(nr + 3), PeciField(nr), SensorNumber(nr))
  {
  }

  /** A type is accepted if it is 0, 2, 3 or 4, or 6 where the sensor can have it; then it is in the first sensor
    register, and for the older kind of digital sensors in bit 7 of the second, whose other bits are kept. */
  lemma TypeStored(cfg: Config, d: Device, nr: nat, val: Long)
    requires Apart(cfg.addr) && nr < 3
    ensures var (e, status) := SetTempType(cfg, d, nr, val);
            && (status == Ok <==> val in {0, 2, 3, 4} || (val == 6 && (cfg.tempPeci[nr] || cfg.tempOldPeci[nr])))
            && (status != Ok ==> e == d)
            && (status == Ok ==>
                  && HasType(d.Read(cfg, TempEnable), e.Read(cfg, TempEnable), nr, val, cfg.tempPeci[nr])
                  && e.sensor == e.Read(cfg, TempEnable) && !e.valid
                  && (cfg.tempOldPeci[nr] ==>
                        SecondHasType(d.Read(cfg, TempExtra), e.Read(cfg, TempExtra), val == 6 && !cfg.tempPeci[nr]))
                  && (!cfg.tempOldPeci[nr] ==> e.Read(cfg, TempExtra) == d.Read(cfg, TempExtra)))
  {
    if TempTypeKnown(cfg, nr, val) {
      TypeBits(cfg, d.Read(cfg, TempEnable), nr, val);
      ExtraBits(cfg, d.Read(cfg, TempExtra), nr, val);
      StoreTypeIs(cfg, d, TempTypeEnable(cfg, d.Read(cfg, TempEnable), nr, val),
                  TempTypeExtra(cfg, d.Read(cfg, TempExtra), nr, val), cfg.tempOldPeci[nr]);
    }
  }

  ghost predicate SecondHasType(was: bv8, now: bv8, digital: bool) {
    now & 0x7f == was & 0x7f && now & 0x80 == if digital then 0x80 else 0
  }

  lemma ExtraBits(cfg: Config, was: bv8, nr: nat, val: Long)
    requires nr < 3
    ensures cfg.tempOldPeci[nr] ==>
              SecondHasType(was, TempTypeExtra(cfg, was, nr, val), val == 6 && !cfg.tempPeci[nr])
  {
  }

  lemma StoreTypeIs(cfg: Config, d: Device, reg: bv8, extra: bv8, oldPeci: bool)
    requires Apart(cfg.addr)
    ensures var e := StoreTempType(cfg, d, reg, extra, oldPeci);
            && e.Read(cfg, TempEnable) == reg && e.sensor == reg && !e.valid
            && e.Read(cfg, TempExtra) == if oldPeci then extra else d.Read(cfg, TempExtra)
  {
    assert cfg.addr(TempEnable) != cfg.addr(TempExtra);
  }

  // ----- what a refresh reads -----

  /** The measured values are those of their registers, high bytes of fans in 16-bit mode only; what a chip lacks
    stays. */
  lemma MeasuredRead(cfg: Config, d: Device)
    ensures var e := Refresh(cfg, d);
            && (forall i: nat :: i < VINS ==> e.inCur[i] == if cfg.hasIn[i] then e.Read(cfg, Vin(i)) else d.inCur[i])
            && (forall i: nat :: i < TEMPS ==>
                  e.tempCur[i] == if cfg.hasTemp[i] then e.Read(cfg, Temp(i)) else d.tempCur[i])
            && e.beeps == e.Read(cfg, BeepEnable) && e.fanCtl == e.Read(cfg, FanCtl)
            && e.extra == e.Read(cfg, TempExtra)
  {
  }

  lemma FansRead(cfg: Config, d: Device, i: nat)
    requires i < FANS
    ensures var e := Refresh(cfg, d);
            e.fanCur[i] == if !cfg.hasFan[i] then d.fanCur[i]
                           else if cfg.fans16 then e.Read(cfg, Fan(i)) as int + 256 * e.Read(cfg, FanX(i)) as int
                           else e.Read(cfg, Fan(i)) as int
  {
    var e := Refresh(cfg, d);
    assert e.fanCur[i] == FanNow(cfg, e.regs, FanAt, FanXAt, d.fanCur, i);
  }

  /** The registers of a refresh: unchanged, but for bit 6 of the configuration register on chips that sample the
    battery voltage only then. */
  lemma BatterySampled(cfg: Config, d: Device)
    ensures Refresh(cfg, d).regs ==
            if cfg.updateVbat then d.regs[cfg.addr(Configuration) := d.Read(cfg, Configuration) | 0x40] else d.regs
  {
  }

  /** A channel: the duty from its own register on the newer chips, on the older from the control register in manual
    mode only; the map from bits 0 and 1 of the control register, on the older chips in automatic mode only. */
  lemma ChannelRead(cfg: Config, d: Device, nr: nat)
    requires nr < PWMS && cfg.hasPwm[nr]
    ensures var e := Refresh(cfg, d);
            var ctrl, was, now := e.Read(cfg, Pwm(nr)), d.chan[nr], e.chan[nr];
            && now.ctrl == ctrl
            && now.duty == (if cfg.newerAutopwm then e.Read(cfg, Auto(nr, 3))
                            else if ctrl & 0x80 == 0 then ctrl else was.duty)
            && now.tempMap == if cfg.newerAutopwm || ctrl & 0x80 != 0 then ctrl & 0x03 else was.tempMap
  {
    var e := Refresh(cfg, d);
    assert e.chan[nr] == UpdateChannel(cfg, e.regs, nr, d.chan[nr]);
    ControlReads(cfg, e, nr, d.chan[nr]);
  }

  lemma ControlReads(cfg: Config, e: Device, nr: nat, was: Channel)
    requires nr < PWMS && (cfg.oldAutopwm ==> nr < 3)
    ensures var now, ctrl := UpdateChannel(cfg, e.regs, nr, was), e.Read(cfg, Pwm(nr));
            && now.ctrl == ctrl
            && now.duty == (if cfg.newerAutopwm then e.Read(cfg, Auto(nr, 3))
                            else if ctrl & 0x80 == 0 then ctrl else was.duty)
            && now.tempMap == if cfg.newerAutopwm || ctrl & 0x80 != 0 then ctrl & 0x03 else was.tempMap
  {
    ClearBit(e.Read(cfg, Pwm(nr)));
  }
}
