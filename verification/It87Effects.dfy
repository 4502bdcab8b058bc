/** What an attribute leaves in the registers, in numbers and bits, and which registers it can change at all. */
module It87Effects {
  import opened Bytes
  import opened It87Registers
  import opened It87Convert
  import opened It87Spec
  import opened It87Coherence
  import opened It87Runs
  import opened It87Pwm

  // ----- which registers -----

  /** The registers an attribute may write. */
  ghost function Footprint(cfg: Config, op: Op): seq<Reg>
    requires Exposed(cfg, op)
  {
    match op
    case OpRefresh => [Configuration]
    case OpIn(nr, limit, _) => [if limit == Min then VinMin(nr) else VinMax(nr)]
    case OpTemp(nr, limit, _) =>
      (match limit
       case Min => [TempLow(nr)]
       case Max => [TempHigh(nr)]
       case Offset => [BeepEnable, TempOffset(nr)])
    case OpTempType(nr, _) => if cfg.tempOldPeci[nr] then [TempEnable, TempExtra] else [TempEnable]
    case OpFan(nr, _) => if cfg.fans16 then [FanMin(nr), FanXMin(nr)] else [FanMin(nr)]
    case OpFanDiv(nr, _) => [FanDiv, FanMin(nr)]
    case OpPwmEnable(nr, val) =>
      if val == 0 then (if cfg.OnOff(nr) then [FanCtl, FanMainCtrl] else [Auto(nr, 3), Pwm(nr)])
      else if cfg.OnOff(nr) then [Pwm(nr), FanMainCtrl] else [Pwm(nr)]
    case OpPwm(nr, _) => [if cfg.newerAutopwm then Auto(nr, 3) else Pwm(nr)]
    case OpPwmFreq(nr, _) => [if nr == 0 then FanCtl else TempExtra]
    case OpPwmTempMap(nr, _) => [Pwm(nr)]
    case OpAutoPwm(nr, point, _) => [Auto(nr, if cfg.newerAutopwm then 3 else 5 + point)]
    case OpAutoPwmSlope(nr, _) => [Auto(nr, 4)]
    case OpAutoTemp(nr, point, _) =>
      [Auto(nr, if !cfg.newerAutopwm then point else if point == 0 then 5 else point - 1)]
  }

  /** No register changes but those at the addresses of some. */
  ghost predicate ChangesOnly(cfg: Config, d: Device, e: Device, rs: seq<Reg>) {
    forall a: nat :: a < 0x100 && Outside(cfg, rs, a) ==> e.regs[a] == d.regs[a]
  }

  ghost predicate Outside(cfg: Config, rs: seq<Reg>, a: nat) {
    forall i :: 0 <= i < |rs| ==> a != cfg.addr(rs[i])
  }

  lemma OneChanges(cfg: Config, d: Device, e: Device, r: Reg, v: bv8)
    requires r.Exists() && e.regs == d.regs[cfg.addr(r) := v]
    ensures ChangesOnly(cfg, d, e, [r])
  {
    forall a: nat | a < 0x100 && Outside(cfg, [r], a)
      ensures e.regs[a] == d.regs[a]
    {
      assert a != cfg.addr([r][0]);
    }
  }

  lemma TwoChange(cfg: Config, d: Device, e: Device, r: Reg, v: bv8, s: Reg, w: bv8)
    requires r.Exists() && s.Exists() && e.regs == d.regs[cfg.addr(r) := v][cfg.addr(s) := w]
    ensures ChangesOnly(cfg, d, e, [r, s])
  {
    forall a: nat | a < 0x100 && Outside(cfg, [r, s], a)
      ensures e.regs[a] == d.regs[a]
    {
      assert a != cfg.addr([r, s][0]) && a != cfg.addr([r, s][1]);
    }
  }

  lemma NoneChanges(cfg: Config, d: Device, e: Device, rs: seq<Reg>)
    requires e.regs == d.regs
    ensures ChangesOnly(cfg, d, e, rs)
  {
  }

  lemma Then(cfg: Config, d: Device, e: Device, f: Device, rs: seq<Reg>, ss: seq<Reg>)
    requires ChangesOnly(cfg, d, e, rs) && ChangesOnly(cfg, e, f, ss)
    ensures ChangesOnly(cfg, d, f, rs + ss)
  {
    var all := rs + ss;
    forall a: nat | a < 0x100 && Outside(cfg, all, a)
      ensures f.regs[a] == d.regs[a]
    {
      assert forall i :: 0 <= i < |rs| ==> rs[i] == all[i];
      assert forall i :: 0 <= i < |ss| ==> ss[i] == all[|rs| + i];
      assert Outside(cfg, rs, a) && Outside(cfg, ss, a);
    }
  }

  lemma FullOnFootprint(cfg: Config, d: Device, nr: nat)
    requires nr < PWMS
    ensures ChangesOnly(cfg, d, FullOn(cfg, d, nr),
                        if cfg.OnOff(nr) then [FanCtl, FanMainCtrl] else [Auto(nr, 3), Pwm(nr)])
  {
    if cfg.OnOff(nr) {
      TwoChange(cfg, d, FullOn(cfg, d, nr), FanCtl, d.Read(cfg, FanCtl) | Bit(nr), FanMainCtrl,
                d.fanMainCtrl & !Bit(nr));
    } else {
      var d1 := StoreDuty(cfg, d, nr, FullSpeed(cfg));
      TwoChange(cfg, d, FullOn(cfg, d, nr), Auto(nr, 3), FullSpeed(cfg), Pwm(nr), ManualCtrl(cfg, d1.chan[nr]));
    }
  }

  lemma ControlFootprint(cfg: Config, d: Device, nr: nat, ctrl: bv8)
    requires nr < PWMS
    ensures ChangesOnly(cfg, d, Control(cfg, d, nr, ctrl), if cfg.OnOff(nr) then [Pwm(nr), FanMainCtrl] else [Pwm(nr)])
  {
    if cfg.OnOff(nr) {
      TwoChange(cfg, d, Control(cfg, d, nr, ctrl), Pwm(nr), ctrl, FanMainCtrl, d.fanMainCtrl | Bit(nr));
    } else {
      OneChanges(cfg, d, Control(cfg, d, nr, ctrl), Pwm(nr), ctrl);
    }
  }

  lemma EnableFootprint(cfg: Config, d: Device, nr: nat, val: Long)
    requires Exposed(cfg, OpPwmEnable(nr, val))
    ensures ChangesOnly(cfg, d, SetPwmEnable(cfg, d, nr, val).0, Footprint(cfg, OpPwmEnable(nr, val)))
  {
    var e := SetPwmEnable(cfg, d, nr, val).0;
    if !PwmEnableAllowed(cfg, d, nr, val) {
      NoneChanges(cfg, d, e, Footprint(cfg, OpPwmEnable(nr, val)));
    } else if val == 0 {
      FullOnFootprint(cfg, d, nr);
    } else {
      ControlFootprint(cfg, d, nr, if val == 2 then AutoCtrl(cfg, d.chan[nr]) else ManualCtrl(cfg, d.chan[nr]));
    }
  }

  lemma InFootprint(cfg: Config, d: Device, nr: nat, limit: Limit, v: bv8)
    requires nr < VIN_LIMITS
    ensures ChangesOnly(cfg, d, StoreIn(cfg, d, nr, limit, v), [if limit == Min then VinMin(nr) else VinMax(nr)])
  {
    OneChanges(cfg, d, StoreIn(cfg, d, nr, limit, v), if limit == Min then VinMin(nr) else VinMax(nr), v);
  }

  lemma TempFootprint(cfg: Config, d: Device, nr: nat, limit: Limit, v: bv8)
    requires nr < TEMPS && limit != Offset
    ensures ChangesOnly(cfg, d, StoreTemp(cfg, d, nr, limit, v), [if limit == Min then TempLow(nr) else TempHigh(nr)])
  {
    OneChanges(cfg, d, StoreTemp(cfg, d, nr, limit, v), if limit == Min then TempLow(nr) else TempHigh(nr), v);
  }

  lemma OffsetFootprint(cfg: Config, d: Device, nr: nat, v: bv8)
    requires nr < TEMPS
    ensures ChangesOnly(cfg, d, StoreTemp(cfg, d, nr, Offset, v), [BeepEnable, TempOffset(nr)])
  {
    var d1 := EnableOffsets(cfg, d);
    var e := StoreTemp(cfg, d, nr, Offset, v);
    if d.Read(cfg, BeepEnable) & 0x80 == 0 {
      OneChanges(cfg, d, d1, BeepEnable, d.Read(cfg, BeepEnable) | 0x80);
    } else {
      NoneChanges(cfg, d, d1, [BeepEnable]);
    }
    OneChanges(cfg, d1, e, TempOffset(nr), v);
    Then(cfg, d, d1, e, [BeepEnable], [TempOffset(nr)]);
    assert [BeepEnable] + [TempOffset(nr)] == [BeepEnable, TempOffset(nr)];
  }

  lemma SetTempFootprint(cfg: Config, d: Device, nr: nat, limit: Limit, val: Long)
    requires Exposed(cfg, OpTemp(nr, limit, val))
    ensures ChangesOnly(cfg, d, SetTemp(cfg, d, nr, limit, val), Footprint(cfg, OpTemp(nr, limit, val)))
  {
    if limit == Offset {
      OffsetFootprint(cfg, d, nr, ToS8(TempToReg(val)));
    } else {
      TempFootprint(cfg, d, nr, limit, ToS8(TempToReg(val)));
    }
  }

  lemma SetTypeFootprint(cfg: Config, d: Device, nr: nat, val: Long)
    requires Exposed(cfg, OpTempType(nr, val))
    ensures ChangesOnly(cfg, d, SetTempType(cfg, d, nr, val).0, Footprint(cfg, OpTempType(nr, val)))
  {
    TypeFootprint(cfg, d, TempTypeEnable(cfg, d.Read(cfg, TempEnable), nr, val),
                  TempTypeExtra(cfg, d.Read(cfg, TempExtra), nr, val), cfg.tempOldPeci[nr]);
  }

  lemma RefreshFootprint(cfg: Config, d: Device)
    ensures ChangesOnly(cfg, d, Refresh(cfg, d), [Configuration])
  {
    if cfg.updateVbat {
      OneChanges(cfg, d, Refresh(cfg, d), Configuration, d.Read(cfg, Configuration) | 0x40);
    } else {
      NoneChanges(cfg, d, Refresh(cfg, d), [Configuration]);
    }
  }

  lemma TypeFootprint(cfg: Config, d: Device, reg: bv8, extra: bv8, oldPeci: bool)
    ensures ChangesOnly(cfg, d, StoreTempType(cfg, d, reg, extra, oldPeci),
                        if oldPeci then [TempEnable, TempExtra] else [TempEnable])
  {
    var e := StoreTempType(cfg, d, reg, extra, oldPeci);
    if oldPeci {
      TwoChange(cfg, d, e, TempEnable, reg, TempExtra, extra);
    } else {
      OneChanges(cfg, d, e, TempEnable, reg);
    }
  }

  lemma Fan16Footprint(cfg: Config, d: Device, nr: nat, v: FanCount)
    requires nr < FANS
    ensures ChangesOnly(cfg, d, StoreFan16(cfg, d, nr, v), [FanMin(nr), FanXMin(nr)])
  {
    TwoChange(cfg, d, StoreFan16(cfg, d, nr, v), FanMin(nr), (v % 0x100) as bv8, FanXMin(nr), (v / 0x100) as bv8);
  }

  lemma Fan8Footprint(cfg: Config, d: Device, nr: nat, v: FanCount)
    requires nr < FANS && v < 0x100
    ensures ChangesOnly(cfg, d, StoreFan8(cfg, d, nr, v), [FanMin(nr)])
  {
    OneChanges(cfg, d, StoreFan8(cfg, d, nr, v), FanMin(nr), v as bv8);
  }

  lemma SetFanFootprint(cfg: Config, d: Device, nr: nat, val: Long)
    requires nr < FANS && if cfg.fans16 then Dividable(val) else nr < FAN_DIVS
    ensures ChangesOnly(cfg, d, SetFan(cfg, d, nr, val), if cfg.fans16 then [FanMin(nr), FanXMin(nr)] else [FanMin(nr)])
  {
    if cfg.fans16 {
      Fan16Footprint(cfg, d, nr, Fan16ToReg(val));
    } else {
      var d1 := RereadDiv(cfg, d, nr);
      Fan8Footprint(cfg, d1, nr, FanToReg(val, DivFromReg(d1.fanDiv[nr] as nat)));
    }
  }

  lemma SetFanDivFootprint(cfg: Config, d: Device, nr: nat, val: ULong)
    requires nr < FAN_DIVS
    ensures ChangesOnly(cfg, d, SetFanDiv(cfg, d, nr, val), [FanDiv, FanMin(nr)])
  {
    var field := FanDivField(nr, val);
    DivThenLimit(cfg, d, nr, d.fanDiv[nr := field], FanToReg(MinRpm(d, nr), DivFromReg(field as nat)));
  }

  lemma DivThenLimit(cfg: Config, d: Device, nr: nat, div: DivRow, v: FanCount)
    requires nr < FANS && v < 0x100
    ensures ChangesOnly(cfg, d, StoreFan8(cfg, StoreDiv(cfg, d, div), nr, v), [FanDiv, FanMin(nr)])
  {
    TwoChange(cfg, d, StoreFan8(cfg, StoreDiv(cfg, d, div), nr, v), FanDiv, EncodeFanDiv(d.Read(cfg, FanDiv), div),
              FanMin(nr), v as bv8);
  }

  lemma FreqFootprint(cfg: Config, d: Device, nr: nat, val: ULong)
    ensures ChangesOnly(cfg, d, SetPwmFreq(cfg, d, nr, val), [if nr == 0 then FanCtl else TempExtra])
  {
    var r := if nr == 0 then FanCtl else TempExtra;
    OneChanges(cfg, d, SetPwmFreq(cfg, d, nr, val), r, FreqReg(d.Read(cfg, r), RequestedIndex(cfg, val)));
  }

  lemma PwmFootprint(cfg: Config, d: Device, nr: nat, duty: bv8)
    requires nr < PWMS
    ensures ChangesOnly(cfg, d, StorePwm(cfg, d, nr, duty).0, [if cfg.newerAutopwm then Auto(nr, 3) else Pwm(nr)])
  {
    var e, r := StorePwm(cfg, d, nr, duty).0, if cfg.newerAutopwm then Auto(nr, 3) else Pwm(nr);
    if Automatic(d, nr) {
      NoneChanges(cfg, d, e, [r]);
    } else {
      OneChanges(cfg, d, e, r, duty);
    }
  }

  lemma SetPwmFootprint(cfg: Config, d: Device, nr: nat, val: Long)
    requires nr < PWMS && cfg.hasPwm[nr]
    ensures ChangesOnly(cfg, d, SetPwm(cfg, d, nr, val).0, [if cfg.newerAutopwm then Auto(nr, 3) else Pwm(nr)])
  {
    if 0 <= val <= 255 {
      PwmFootprint(cfg, RereadChannel(cfg, d, nr), nr, PwmToReg(cfg, val as bv8));
    }
  }

  lemma MapFootprint(cfg: Config, d: Device, nr: nat, field: bv8)
    requires nr < PWMS
    ensures ChangesOnly(cfg, d, StoreTempMap(cfg, d, nr, field), [Pwm(nr)])
  {
    var e := StoreTempMap(cfg, d, nr, field);
    if Automatic(d, nr) {
      OneChanges(cfg, d, e, Pwm(nr), (d.chan[nr].ctrl & 0xfc) | field);
    } else {
      NoneChanges(cfg, d, e, [Pwm(nr)]);
    }
  }

  lemma SetMapFootprint(cfg: Config, d: Device, nr: nat, val: Long)
    requires nr < PWMS && cfg.hasPwm[nr]
    ensures ChangesOnly(cfg, d, SetPwmTempMap(cfg, d, nr, val).0, [Pwm(nr)])
  {
    if TempMapField(nr, val).1 == Ok {
      MapFootprint(cfg, RereadChannel(cfg, d, nr), nr, TempMapField(nr, val).0);
    }
  }

  lemma StoreAutoPwmFootprint(cfg: Config, d: Device, nr: nat, point: nat, k: nat, v: bv8)
    requires nr < PWMS && point < 4 && k < if nr < 3 then 8 else 6
    ensures ChangesOnly(cfg, d, StoreAutoPwm(cfg, d, nr, point, k, v), [Auto(nr, k)])
  {
    OneChanges(cfg, d, StoreAutoPwm(cfg, d, nr, point, k, v), Auto(nr, k), v);
  }

  lemma StoreAutoTempFootprint(cfg: Config, d: Device, nr: nat, point: nat, k: nat, v: bv8)
    requires nr < PWMS && point < 5 && k < 6
    ensures ChangesOnly(cfg, d, StoreAutoTemp(cfg, d, nr, point, k, v), [Auto(nr, k)])
  {
    OneChanges(cfg, d, StoreAutoTemp(cfg, d, nr, point, k, v), Auto(nr, k), v);
  }

  lemma SetAutoPwmFootprint(cfg: Config, d: Device, nr: nat, point: nat, val: Long)
    requires Exposed(cfg, OpAutoPwm(nr, point, val))
    ensures ChangesOnly(cfg, d, SetAutoPwm(cfg, d, nr, point, val).0, Footprint(cfg, OpAutoPwm(nr, point, val)))
  {
    if 0 <= val <= 255 {
      StoreAutoPwmFootprint(cfg, d, nr, point, if cfg.newerAutopwm then 3 else 5 + point, PwmToReg(cfg, val as bv8));
    }
  }

  lemma SlopeFootprint(cfg: Config, d: Device, nr: nat, val: ULong)
    requires nr < PWMS
    ensures ChangesOnly(cfg, d, SetAutoPwmSlope(cfg, d, nr, val).0, [Auto(nr, 4)])
  {
    if val <= 127 {
      StoreAutoPwmFootprint(cfg, d, nr, 1, 4, (d.chan[nr].autoPwm[1] & 0x80) | (val as bv8));
    }
  }

  lemma SetAutoTempFootprint(cfg: Config, d: Device, nr: nat, point: nat, val: Long)
    requires Exposed(cfg, OpAutoTemp(nr, point, val))
    ensures ChangesOnly(cfg, d, SetAutoTemp(cfg, d, nr, point, val).0, Footprint(cfg, OpAutoTemp(nr, point, val)))
  {
    if -128000 <= val <= 127000 {
      if cfg.newerAutopwm && point == 0 {
        StoreAutoTempFootprint(cfg, d, nr, 0, 5, HysteresisReg(d.chan[nr], val));
      } else {
        StoreAutoTempFootprint(cfg, d, nr, point, if cfg.newerAutopwm then point - 1 else point, ToS8(TempToReg(val)));
      }
    }
  }

  /** Every attribute write and every refresh leaves alone all registers that are not its own. */
  lemma StepChangesOnly(cfg: Config, d: Device, op: Op)
    requires Exposed(cfg, op)
    ensures ChangesOnly(cfg, d, Step(cfg, d, op), Footprint(cfg, op))
  {
    match op
    case OpRefresh => RefreshFootprint(cfg, d);
    case OpIn(nr, limit, val) => InFootprint(cfg, d, nr, limit, InToReg(AdcLsb(cfg, nr), val) as bv8);
    case OpTemp(nr, limit, val) => SetTempFootprint(cfg, d, nr, limit, val);
    case OpTempType(nr, val) => SetTypeFootprint(cfg, d, nr, val);
    case OpFan(nr, val) => SetFanFootprint(cfg, d, nr, val);
    case OpFanDiv(nr, val) => SetFanDivFootprint(cfg, d, nr, val);
    case OpPwmEnable(nr, val) => EnableFootprint(cfg, d, nr, val);
    case OpPwm(nr, val) => SetPwmFootprint(cfg, d, nr, val);
    case OpPwmFreq(nr, val) => FreqFootprint(cfg, d, nr, val);
    case OpPwmTempMap(nr, val) => SetMapFootprint(cfg, d, nr, val);
    case OpAutoPwm(nr, point, val) => SetAutoPwmFootprint(cfg, d, nr, point, val);
    case OpAutoPwmSlope(nr, val) => SlopeFootprint(cfg, d, nr, val);
    case OpAutoTemp(nr, point, val) => SetAutoTempFootprint(cfg, d, nr, point, val);
  }

  /** A setting that is not in the footprint keeps its register. */
  lemma StepSpares(cfg: Config, d: Device, op: Op, r: Reg)
    requires Apart(cfg.addr) && Exposed(cfg, op) && Setting(r) && r !in Footprint(cfg, op)
    requires forall s :: s in Footprint(cfg, op) ==> Setting(s)
    ensures Step(cfg, d, op).Read(cfg, r) == d.Read(cfg, r)
  {
    StepChangesOnly(cfg, d, op);
    var rs := Footprint(cfg, op);
    forall i | 0 <= i < |rs|
      ensures cfg.addr(r) != cfg.addr(rs[i])
    {
      assert Setting(rs[i]);
    }
  }

  // ----- manual duties -----

  lemma StoreNewer(cfg: Config, d: Device, nr: nat, v: bv8)
    requires nr < PWMS && cfg.newerAutopwm
    ensures var (e, status) := StorePwm(cfg, d, nr, v);
            && status == (if d.chan[nr].ctrl & 0x80 != 0 then Busy else Ok)
            && (status == Busy ==> e.regs == d.regs)
            && (status == Ok ==> e.regs == d.regs[cfg.addr(Auto(nr, 3)) := v] && e.chan[nr].duty == v)
  {
  }

  lemma StoreOlder(cfg: Config, d: Device, nr: nat, v: bv8)
    requires nr < PWMS && !cfg.newerAutopwm
    ensures var (e, status) := StorePwm(cfg, d, nr, v);
            && status == Ok && e.chan[nr].duty == v
            && e.regs == if d.chan[nr].ctrl & 0x80 != 0 then d.regs else d.regs[cfg.addr(Pwm(nr)) := v]
  {
  }

  /** A duty written to a newer chip: refused while the chip is in control, otherwise the number itself goes into the
    duty register and into the cache. */
  lemma NewerDutyWritten(cfg: Config, d: Device, nr: nat, val: Long)
    requires nr < PWMS && cfg.hasPwm[nr] && cfg.newerAutopwm
    ensures var (d', status) := SetPwm(cfg, d, nr, val);
            var automatic := d.Read(cfg, Pwm(nr)) & 0x80 != 0;
            && status == (if val < 0 || val > 255 then Invalid else if automatic then Busy else Ok)
            && (status != Ok ==> d'.regs == d.regs)
            && (status == Ok ==>
                  && d'.Read(cfg, Auto(nr, 3)) as int == val && d'.chan[nr].duty as int == val
                  && ChangesOnly(cfg, d, d', [Auto(nr, 3)]))
  {
    if 0 <= val <= 255 {
      ByteRoundTrip(val);
      RereadControl(cfg, d, nr);
      StoreNewer(cfg, RereadChannel(cfg, d, nr), nr, val as bv8);
      SetPwmFootprint(cfg, d, nr, val);
    }
  }

  /** On an older chip half of the number is kept, and written to the control register unless the chip is in control. */
  lemma OlderDutyWritten(cfg: Config, d: Device, nr: nat, val: Long)
    requires nr < PWMS && cfg.hasPwm[nr] && !cfg.newerAutopwm && 0 <= val <= 255
    ensures var (d', status) := SetPwm(cfg, d, nr, val);
            && status == Ok && d'.chan[nr].duty as int == val / 2
            && (if d.Read(cfg, Pwm(nr)) & 0x80 != 0 then d'.regs == d.regs
                else d'.Read(cfg, Pwm(nr)) as int == val / 2 && ChangesOnly(cfg, d, d', [Pwm(nr)]))
  {
    ByteRoundTrip(val);
    HalfOf(val as bv8);
    RereadControl(cfg, d, nr);
    StoreOlder(cfg, RereadChannel(cfg, d, nr), nr, (val as bv8) >> 1);
    SetPwmFootprint(cfg, d, nr, val);
  }

  function ShownPwm(cfg: Config, reg: bv8): bv8 {
    if cfg.newerAutopwm then reg else (reg & 0x7f) << 1
  }

  /** The duty shown after a duty was accepted is that duty, on the older chips rounded down to an even one. */
  lemma ShownDuty(cfg: Config, d: Device, nr: nat, val: Long)
    requires nr < PWMS && cfg.hasPwm[nr] && SetPwm(cfg, d, nr, val).1 == Ok
    ensures ShownPwm(cfg, SetPwm(cfg, d, nr, val).0.chan[nr].duty) as int
            == if cfg.newerAutopwm then val else val - val % 2
  {
    if cfg.newerAutopwm {
      NewerDutyWritten(cfg, d, nr, val);
    } else {
      OlderDutyWritten(cfg, d, nr, val);
      ByteRoundTrip(val);
      HalfAndBack(val as bv8);
    }
  }

  lemma HalfAndBack(v: bv8)
    ensures (((v >> 1) & 0x7f) << 1) as int == v as int - v as int % 2
  {
  }

  /** Mode 0 without an on/off bit: full duty, 255 in the duty register of a newer chip, 127 in the control register of
    an older one. */
  lemma FullSpeedWritten(cfg: Config, d: Device, nr: nat)
    requires Apart(cfg.addr) && nr < PWMS && !cfg.OnOff(nr)
    ensures var d' := SetPwmEnable(cfg, d, nr, 0).0;
            if cfg.newerAutopwm then d'.Read(cfg, Auto(nr, 3)) == 0xff else d'.Read(cfg, Pwm(nr)) == 0x7f
  {
    assert Setting(Auto(nr, 3)) && Setting(Pwm(nr)) && Auto(nr, 3) != Pwm(nr);
  }

  /** In both registers the bit, and no other, is what it should be. */
  ghost predicate Switched(cfg: Config, d: Device, e: Device, bit: bv8, full: bool) {
    && e.Read(cfg, FanCtl) == (if full then d.Read(cfg, FanCtl) | bit else d.Read(cfg, FanCtl))
    && e.Read(cfg, FanMainCtrl) == if full then d.fanMainCtrl & !bit else d.fanMainCtrl | bit
  }

  lemma BitIs(nr: nat)
    requires nr < 3
    ensures Bit(nr) == LowBit(nr)
  {
  }

  lemma FanOnReads(cfg: Config, d: Device, nr: nat, bit: bv8)
    requires nr < 3 && bit == Bit(nr)
    ensures FanOn(cfg, d, nr).Read(cfg, FanCtl) == d.Read(cfg, FanCtl) | bit
    ensures FanOn(cfg, d, nr).fanMainCtrl == d.fanMainCtrl
  {
  }

  lemma StoreMainReads(cfg: Config, d: Device, v: bv8)
    requires Apart(cfg.addr)
    ensures StoreMain(cfg, d, v).Read(cfg, FanMainCtrl) == v
    ensures StoreMain(cfg, d, v).Read(cfg, FanCtl) == d.Read(cfg, FanCtl)
  {
    assert cfg.addr(FanCtl) != cfg.addr(FanMainCtrl);
  }

  lemma StoreCtrlReads(cfg: Config, d: Device, nr: nat, v: bv8)
    requires Apart(cfg.addr) && nr < PWMS
    ensures StoreCtrl(cfg, d, nr, v).Read(cfg, FanCtl) == d.Read(cfg, FanCtl)
    ensures StoreCtrl(cfg, d, nr, v).fanMainCtrl == d.fanMainCtrl
  {
    assert cfg.addr(FanCtl) != cfg.addr(Pwm(nr));
  }

  // The steps of the two, with the bit as a value.

  lemma FullOnSteps(cfg: Config, d: Device, nr: nat, bit: bv8)
    requires nr < PWMS && cfg.OnOff(nr) && bit == Bit(nr)
    ensures FullOn(cfg, d, nr) == StoreMain(cfg, FanOn(cfg, d, nr), d.fanMainCtrl & !bit)
  {
  }

  lemma ControlSteps(cfg: Config, d: Device, nr: nat, ctrl: bv8, bit: bv8)
    requires nr < PWMS && cfg.OnOff(nr) && bit == Bit(nr)
    ensures var d1 := StoreCtrl(cfg, d, nr, ctrl); Control(cfg, d, nr, ctrl) == StoreMain(cfg, d1, d1.fanMainCtrl | bit)
  {
  }

  lemma FullOnSwitches(cfg: Config, d: Device, nr: nat)
    requires Apart(cfg.addr) && nr < PWMS && cfg.OnOff(nr)
    ensures Switched(cfg, d, FullOn(cfg, d, nr), LowBit(nr), true)
  {
    var bit := LowBit(nr);
    BitIs(nr);
    FullOnSteps(cfg, d, nr, bit);
    FanOnReads(cfg, d, nr, bit);
    StoreMainReads(cfg, FanOn(cfg, d, nr), d.fanMainCtrl & !bit);
  }

  lemma ControlSwitches(cfg: Config, d: Device, nr: nat, ctrl: bv8)
    requires Apart(cfg.addr) && nr < PWMS && cfg.OnOff(nr)
    ensures Switched(cfg, d, Control(cfg, d, nr, ctrl), LowBit(nr), false)
  {
    var d1, bit := StoreCtrl(cfg, d, nr, ctrl), LowBit(nr);
    BitIs(nr);
    ControlSteps(cfg, d, nr, ctrl, bit);
    StoreCtrlReads(cfg, d, nr, ctrl);
    StoreMainReads(cfg, d1, d1.fanMainCtrl | bit);
  }

  /** The on/off bits: mode 0 switches the fan on in one register and takes it from the controller in the other, the
    other modes hand it back. */
  lemma OnOffWritten(cfg: Config, d: Device, nr: nat, val: Long)
    requires Apart(cfg.addr) && nr < PWMS && cfg.OnOff(nr) && SetPwmEnable(cfg, d, nr, val).1 == Ok
    ensures Switched(cfg, d, SetPwmEnable(cfg, d, nr, val).0, LowBit(nr), val == 0)
  {
    if val == 0 {
      FullOnSwitches(cfg, d, nr);
    } else {
      ControlSwitches(cfg, d, nr, if val == 2 then AutoCtrl(cfg, d.chan[nr]) else ManualCtrl(cfg, d.chan[nr]));
    }
  }

  lemma ControlBits(ctrl: bv8, tempMap: bv8)
    requires tempMap & 0xfc == 0
    ensures var v := (ctrl & 0x7c) | tempMap;
            && v & 0x03 == tempMap && v & 0x7c == ctrl & 0x7c && v & 0x80 == 0
            && (v | 0x80) & 0x03 == tempMap && (v | 0x80) & 0x7c == ctrl & 0x7c && (v | 0x80) & 0x80 == 0x80
  {
  }

  /** A mode on a newer chip: bits 0 and 1 of the control register are the cached temperature map, bits 2 to 6 are the
    cached ones, bit 7 says automatic. */
  lemma NewerModeWritten(cfg: Config, d: Device, nr: nat, val: Long)
    requires Apart(cfg.addr) && nr < PWMS && cfg.newerAutopwm && SetPwmEnable(cfg, d, nr, val).1 == Ok
    requires d.chan[nr].tempMap & 0xfc == 0 && (val == 0 ==> !cfg.OnOff(nr))
    ensures var v := SetPwmEnable(cfg, d, nr, val).0.Read(cfg, Pwm(nr));
            && v & 0x03 == d.chan[nr].tempMap && v & 0x7c == d.chan[nr].ctrl & 0x7c
            && v & 0x80 == if val == 2 then 0x80 else 0
  {
    var c := d.chan[nr];
    ControlBits(c.ctrl, c.tempMap);
    PwmRegisterAfterMode(cfg, d, nr, val);
  }

  /** A mode on an older chip: the cached duty for manual, 0x80 for automatic. */
  lemma OlderModeWritten(cfg: Config, d: Device, nr: nat, val: Long)
    requires Apart(cfg.addr) && nr < PWMS && !cfg.newerAutopwm && SetPwmEnable(cfg, d, nr, val).1 == Ok && val > 0
    ensures SetPwmEnable(cfg, d, nr, val).0.Read(cfg, Pwm(nr)) == if val == 2 then 0x80 else d.chan[nr].duty
  {
    PwmRegisterAfterMode(cfg, d, nr, val);
  }

  lemma PwmRegisterAfterMode(cfg: Config, d: Device, nr: nat, val: Long)
    requires Apart(cfg.addr) && nr < PWMS && SetPwmEnable(cfg, d, nr, val).1 == Ok && (val == 0 ==> !cfg.OnOff(nr))
    ensures SetPwmEnable(cfg, d, nr, val).0.Read(cfg, Pwm(nr)) ==
            if val == 2 then AutoCtrl(cfg, d.chan[nr])
            else if val == 1 then ManualCtrl(cfg, d.chan[nr])
            else ManualCtrl(cfg, d.chan[nr].(duty := FullSpeed(cfg)))
  {
    assert Setting(FanMainCtrl) && Setting(Pwm(nr));
  }

  // ----- the last duty, over every run, on newer chips -----

  /** What the duty register of a newer chip should hold after one more call. */
  function NextWritten(cfg: Config, d: Device, op: Op, nr: nat, duty: bv8): bv8
    requires nr < PWMS
  {
    if op.OpPwm? && op.nr == nr && 0 <= op.val <= 255 && d.Read(cfg, Pwm(nr)) & 0x80 == 0 then op.val as bv8
    else if op.OpPwmEnable? && op.nr == nr && op.val == 0 && !cfg.OnOff(nr) then 0xff
    else duty
  }

  ghost function LastWritten(cfg: Config, d: Device, ops: seq<Op>, nr: nat, duty: bv8): bv8
    requires AllExposed(cfg, ops) && nr < PWMS
    decreases |ops|
  {
    if ops == [] then duty
    else LastWritten(cfg, Step(cfg, d, ops[0]), ops[1..], nr, NextWritten(cfg, d, ops[0], nr, duty))
  }

  /** On the newer chips, over every run that does not write the first trip duty, which shares the register: it holds
    the duty last accepted, or 255 once full speed was asked for without an on/off bit. */
  lemma {:induction false} NewerDutySurvives(cfg: Config, d: Device, ops: seq<Op>, nr: nat)
    requires Apart(cfg.addr) && AllExposed(cfg, ops) && nr < PWMS && cfg.newerAutopwm
    requires forall i :: 0 <= i < |ops| && ops[i].OpAutoPwm? ==> ops[i].nr != nr
    ensures Run(cfg, d, ops).Read(cfg, Auto(nr, 3)) == LastWritten(cfg, d, ops, nr, d.Read(cfg, Auto(nr, 3)))
    decreases |ops|
  {
    if ops != [] {
      StepLeavesDuty(cfg, d, ops[0], nr);
      NewerDutySurvives(cfg, Step(cfg, d, ops[0]), ops[1..], nr);
    }
  }

  lemma StepLeavesDuty(cfg: Config, d: Device, op: Op, nr: nat)
    requires Apart(cfg.addr) && Exposed(cfg, op) && nr < PWMS && cfg.newerAutopwm
    requires op.OpAutoPwm? ==> op.nr != nr
    ensures Step(cfg, d, op).Read(cfg, Auto(nr, 3)) == NextWritten(cfg, d, op, nr, d.Read(cfg, Auto(nr, 3)))
  {
    if op.OpPwm? && op.nr == nr {
      PwmLeavesDuty(cfg, d, nr, op.val);
    } else if op.OpPwmEnable? && op.nr == nr && !cfg.OnOff(nr) {
      EnableLeavesDuty(cfg, d, nr, op.val);
    } else {
      OtherLeavesDuty(cfg, d, op, nr);
    }
  }

  lemma PwmLeavesDuty(cfg: Config, d: Device, nr: nat, val: Long)
    requires Apart(cfg.addr) && nr < PWMS && cfg.hasPwm[nr] && cfg.newerAutopwm
    ensures SetPwm(cfg, d, nr, val).0.Read(cfg, Auto(nr, 3)) ==
            if 0 <= val <= 255 && d.Read(cfg, Pwm(nr)) & 0x80 == 0 then val as bv8 else d.Read(cfg, Auto(nr, 3))
  {
    if 0 <= val <= 255 {
      RereadControl(cfg, d, nr);
      StoreNewer(cfg, RereadChannel(cfg, d, nr), nr, val as bv8);
    }
  }

  lemma OtherLeavesDuty(cfg: Config, d: Device, op: Op, nr: nat)
    requires Apart(cfg.addr) && Exposed(cfg, op) && nr < PWMS && cfg.newerAutopwm
    requires Auto(nr, 3) !in Footprint(cfg, op)
    ensures Step(cfg, d, op).Read(cfg, Auto(nr, 3)) == d.Read(cfg, Auto(nr, 3))
  {
    FootprintSettings(cfg, op);
    StepSpares(cfg, d, op, Auto(nr, 3));
  }

  lemma FootprintSettings(cfg: Config, op: Op)
    requires Exposed(cfg, op)
    ensures forall s :: s in Footprint(cfg, op) ==> Setting(s)
  {
  }

  lemma EnableLeavesDuty(cfg: Config, d: Device, nr: nat, val: Long)
    requires Apart(cfg.addr) && nr < PWMS && cfg.newerAutopwm && !cfg.OnOff(nr)
    ensures SetPwmEnable(cfg, d, nr, val).0.Read(cfg, Auto(nr, 3)) ==
            if val == 0 then 0xff else d.Read(cfg, Auto(nr, 3))
  {
    if val == 0 {
      FullSpeedWritten(cfg, d, nr);
    } else {
      assert Setting(Auto(nr, 3)) && Setting(Pwm(nr));
    }
  }
}
