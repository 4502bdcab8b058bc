/** The fan control machine: a manual duty survives automatic control, and a mode that was set is the mode
  that is reported. */
module It87Pwm {
  import opened It87Registers
  import opened It87Convert
  import opened It87Spec
  import opened It87Coherence
  import opened It87Runs

  // ----- who touches the control register and the duty of a channel -----

  ghost predicate Steers(op: Op, nr: nat) {
    op.OpRefresh? || ((op.OpPwmEnable? || op.OpPwm? || op.OpPwmTempMap?) && op.nr == nr)
  }

  ghost predicate SameSteering(cfg: Config, d: Device, e: Device, nr: nat)
    requires nr < PWMS
  {
    && e.chan[nr].duty == d.chan[nr].duty && e.chan[nr].tempMap == d.chan[nr].tempMap
    && e.Read(cfg, Pwm(nr)) == d.Read(cfg, Pwm(nr))
  }

  lemma InsApart(cfg: Config, d: Device, nr: nat, i: nat, limit: Limit, v: bv8)
    requires Apart(cfg.addr) && nr < PWMS && i < VIN_LIMITS
    ensures SameSteering(cfg, d, StoreIn(cfg, d, i, limit, v), nr)
  {
  }

  lemma WriteApart(cfg: Config, d: Device, nr: nat, r: Reg, v: bv8)
    requires Apart(cfg.addr) && nr < PWMS && Setting(r) && r != Pwm(nr)
    ensures SameSteering(cfg, d, d.Write(cfg, r, v), nr)
  {
  }

  lemma OffsetsApart(cfg: Config, d: Device, nr: nat, i: nat, v: bv8)
    requires Apart(cfg.addr) && nr < PWMS && i < TEMPS
    ensures SameSteering(cfg, d, StoreTemp(cfg, d, i, Offset, v), nr)
  {
    var beep := d.Read(cfg, BeepEnable);
    WriteApart(cfg, d, nr, BeepEnable, beep | 0x80);
    WriteApart(cfg, EnableOffsets(cfg, d), nr, TempOffset(i), v);
  }

  lemma TempsApart(cfg: Config, d: Device, nr: nat, i: nat, limit: Limit, v: bv8)
    requires Apart(cfg.addr) && nr < PWMS && i < TEMPS
    ensures SameSteering(cfg, d, StoreTemp(cfg, d, i, limit, v), nr)
  {
    match limit
    case Min => WriteApart(cfg, d, nr, TempLow(i), v);
    case Max => WriteApart(cfg, d, nr, TempHigh(i), v);
    case Offset => OffsetsApart(cfg, d, nr, i, v);
  }

  lemma TypesApart(cfg: Config, d: Device, nr: nat, reg: bv8, extra: bv8, oldPeci: bool)
    requires Apart(cfg.addr) && nr < PWMS
    ensures SameSteering(cfg, d, StoreTempType(cfg, d, reg, extra, oldPeci), nr)
  {
    WriteApart(cfg, d, nr, TempEnable, reg);
    WriteApart(cfg, StoreSensor(cfg, d, reg), nr, TempExtra, extra);
  }

  lemma FanLimitsApart(cfg: Config, d: Device, nr: nat, i: nat, v: FanCount)
    requires Apart(cfg.addr) && nr < PWMS && i < FANS
    ensures SameSteering(cfg, d, StoreFan16(cfg, d, i, v), nr)
    ensures v < 0x100 ==> SameSteering(cfg, d, StoreFan8(cfg, d, i, v), nr)
  {
  }

  lemma DivsApart(cfg: Config, d: Device, nr: nat, div: DivRow)
    requires Apart(cfg.addr) && nr < PWMS
    ensures SameSteering(cfg, d, StoreDiv(cfg, d, div), nr)
  {
  }

  lemma FreqApart(cfg: Config, d: Device, nr: nat, i: nat, val: ULong)
    requires Apart(cfg.addr) && nr < PWMS
    ensures SameSteering(cfg, d, SetPwmFreq(cfg, d, i, val), nr)
  {
    var index := RequestedIndex(cfg, val);
    WriteApart(cfg, d, nr, FanCtl, FreqReg(d.Read(cfg, FanCtl), index));
    WriteApart(cfg, d, nr, TempExtra, FreqReg(d.Read(cfg, TempExtra), index));
  }

  lemma AutoPwmApart(cfg: Config, d: Device, nr: nat, i: nat, point: nat, k: nat, v: bv8)
    requires Apart(cfg.addr) && nr < PWMS
    requires i < PWMS && point < 4 && k < if i < 3 then 8 else 6
    ensures SameSteering(cfg, d, StoreAutoPwm(cfg, d, i, point, k, v), nr)
  {
  }

  lemma AutoTempApart(cfg: Config, d: Device, nr: nat, i: nat, point: nat, k: nat, v: bv8)
    requires Apart(cfg.addr) && nr < PWMS
    requires i < PWMS && point < 5 && k < 6
    ensures SameSteering(cfg, d, StoreAutoTemp(cfg, d, i, point, k, v), nr)
  {
  }

  lemma MainApart(cfg: Config, d: Device, nr: nat, v: bv8)
    requires Apart(cfg.addr) && nr < PWMS
    ensures SameSteering(cfg, d, StoreMain(cfg, d, v), nr)
  {
    WriteApart(cfg, d, nr, FanMainCtrl, v);
  }

  lemma CtrlApart(cfg: Config, d: Device, nr: nat, i: nat, v: bv8)
    requires Apart(cfg.addr) && nr < PWMS && i < PWMS && i != nr
    ensures SameSteering(cfg, d, StoreCtrl(cfg, d, i, v), nr)
    ensures SameSteering(cfg, d, StoreDuty(cfg, d, i, v), nr)
  {
  }

  lemma FullOnApart(cfg: Config, d: Device, nr: nat, i: nat)
    requires Apart(cfg.addr) && nr < PWMS && i < PWMS && i != nr
    ensures SameSteering(cfg, d, FullOn(cfg, d, i), nr)
  {
    if cfg.OnOff(i) {
      WriteApart(cfg, d, nr, FanCtl, d.Read(cfg, FanCtl) | Bit(i));
      MainApart(cfg, FanOn(cfg, d, i), nr, d.fanMainCtrl & !Bit(i));
    } else {
      var d1 := StoreDuty(cfg, d, i, FullSpeed(cfg));
      CtrlApart(cfg, d, nr, i, FullSpeed(cfg));
      CtrlApart(cfg, d1, nr, i, ManualCtrl(cfg, d1.chan[i]));
    }
  }

  lemma ControlApart(cfg: Config, d: Device, nr: nat, i: nat, ctrl: bv8)
    requires Apart(cfg.addr) && nr < PWMS && i < PWMS && i != nr
    ensures SameSteering(cfg, d, Control(cfg, d, i, ctrl), nr)
  {
    CtrlApart(cfg, d, nr, i, ctrl);
    if cfg.OnOff(i) {
      var d1 := StoreCtrl(cfg, d, i, ctrl);
      MainApart(cfg, d1, nr, d1.fanMainCtrl | Bit(i));
    }
  }

  lemma PutApart(cfg: Config, d: Device, nr: nat, i: nat, c: Channel)
    requires Apart(cfg.addr) && nr < PWMS && i < PWMS && i != nr
    ensures SameSteering(cfg, d, d.Put(i, c), nr)
  {
  }

  lemma StorePwmApart(cfg: Config, d: Device, nr: nat, i: nat, duty: bv8)
    requires Apart(cfg.addr) && nr < PWMS && i < PWMS && i != nr
    ensures SameSteering(cfg, d, StorePwm(cfg, d, i, duty).0, nr)
  {
    PutApart(cfg, d, nr, i, d.chan[i].(duty := duty));
    CtrlApart(cfg, d, nr, i, duty);
    CtrlApart(cfg, d.Put(i, d.chan[i].(duty := duty)), nr, i, duty);
  }

  lemma PwmsApart(cfg: Config, d: Device, nr: nat, i: nat, val: Long)
    requires Apart(cfg.addr) && nr < PWMS && i < PWMS && i != nr && cfg.hasPwm[i]
    ensures SameSteering(cfg, d, SetPwm(cfg, d, i, val).0, nr)
  {
    if 0 <= val <= 255 {
      PutApart(cfg, d, nr, i, UpdateChannel(cfg, d.regs, i, d.chan[i]));
      StorePwmApart(cfg, RereadChannel(cfg, d, i), nr, i, PwmToReg(cfg, val as bv8));
    }
  }

  lemma StoreMapApart(cfg: Config, d: Device, nr: nat, i: nat, field: bv8)
    requires Apart(cfg.addr) && nr < PWMS && i < PWMS && i != nr
    ensures SameSteering(cfg, d, StoreTempMap(cfg, d, i, field), nr)
  {
    var d1 := d.Put(i, d.chan[i].(tempMap := field));
    PutApart(cfg, d, nr, i, d.chan[i].(tempMap := field));
    CtrlApart(cfg, d1, nr, i, (d.chan[i].ctrl & 0xfc) | field);
  }

  lemma MapsApart(cfg: Config, d: Device, nr: nat, i: nat, val: Long)
    requires Apart(cfg.addr) && nr < PWMS && i < PWMS && i != nr && cfg.hasPwm[i]
    ensures SameSteering(cfg, d, SetPwmTempMap(cfg, d, i, val).0, nr)
  {
    PutApart(cfg, d, nr, i, UpdateChannel(cfg, d.regs, i, d.chan[i]));
    StoreMapApart(cfg, RereadChannel(cfg, d, i), nr, i, TempMapField(i, val).0);
  }

  lemma SetFanApart(cfg: Config, d: Device, nr: nat, i: nat, val: Long)
    requires Apart(cfg.addr) && nr < PWMS
    requires i < FANS && if cfg.fans16 then Dividable(val) else i < FAN_DIVS
    ensures SameSteering(cfg, d, SetFan(cfg, d, i, val), nr)
  {
    if cfg.fans16 {
      FanLimitsApart(cfg, d, nr, i, Fan16ToReg(val));
    } else {
      var d1 := RereadDiv(cfg, d, i);
      FanLimitsApart(cfg, d1, nr, i, FanToReg(val, DivFromReg(d1.fanDiv[i] as nat)));
    }
  }

  lemma SetFanDivApart(cfg: Config, d: Device, nr: nat, i: nat, val: ULong)
    requires Apart(cfg.addr) && nr < PWMS && i < FAN_DIVS
    ensures SameSteering(cfg, d, SetFanDiv(cfg, d, i, val), nr)
  {
    var field := FanDivField(i, val);
    var d1 := StoreDiv(cfg, d, d.fanDiv[i := field]);
    DivsApart(cfg, d, nr, d.fanDiv[i := field]);
    FanLimitsApart(cfg, d1, nr, i, FanToReg(MinRpm(d, i), DivFromReg(field as nat)));
  }

  lemma SetAutoApart(cfg: Config, d: Device, nr: nat, i: nat, point: nat, val: Long)
    requires Apart(cfg.addr) && nr < PWMS
    requires i < PWMS && cfg.hasPwm[i] && if cfg.newerAutopwm then point <= 3 else point <= 4
    ensures SameSteering(cfg, d, SetAutoTemp(cfg, d, i, point, val).0, nr)
  {
    if cfg.newerAutopwm && point == 0 {
      AutoTempApart(cfg, d, nr, i, 0, 5, HysteresisReg(d.chan[i], val));
    } else {
      AutoTempApart(cfg, d, nr, i, point, if cfg.newerAutopwm then point - 1 else point, ToS8(TempToReg(val)));
    }
  }

  lemma SetInApart(cfg: Config, d: Device, nr: nat, i: nat, limit: Limit, val: ULong)
    requires Apart(cfg.addr) && nr < PWMS && i < VIN_LIMITS
    ensures SameSteering(cfg, d, SetIn(cfg, d, i, limit, val), nr)
  {
    InsApart(cfg, d, nr, i, limit, InToReg(AdcLsb(cfg, i), val) as bv8);
  }

  lemma SetTempApart(cfg: Config, d: Device, nr: nat, i: nat, limit: Limit, val: Long)
    requires Apart(cfg.addr) && nr < PWMS && i < TEMPS
    ensures SameSteering(cfg, d, SetTemp(cfg, d, i, limit, val), nr)
  {
    TempsApart(cfg, d, nr, i, limit, ToS8(TempToReg(val)));
  }

  lemma SetTempTypeApart(cfg: Config, d: Device, nr: nat, i: nat, val: Long)
    requires Apart(cfg.addr) && nr < PWMS && i < 3
    ensures SameSteering(cfg, d, SetTempType(cfg, d, i, val).0, nr)
  {
    TypesApart(cfg, d, nr, TempTypeEnable(cfg, d.Read(cfg, TempEnable), i, val),
               TempTypeExtra(cfg, d.Read(cfg, TempExtra), i, val), cfg.tempOldPeci[i]);
  }

  lemma SetPwmEnableApart(cfg: Config, d: Device, nr: nat, i: nat, val: Long)
    requires Apart(cfg.addr) && nr < PWMS && i < PWMS && i != nr
    ensures SameSteering(cfg, d, SetPwmEnable(cfg, d, i, val).0, nr)
  {
    FullOnApart(cfg, d, nr, i);
    ControlApart(cfg, d, nr, i, if val == 2 then AutoCtrl(cfg, d.chan[i]) else ManualCtrl(cfg, d.chan[i]));
  }

  lemma SetAutoPwmApart(cfg: Config, d: Device, nr: nat, i: nat, point: nat, val: Long)
    requires Apart(cfg.addr) && nr < PWMS
    requires i < PWMS && cfg.hasPwm[i] && if cfg.newerAutopwm then point == 0 else cfg.oldAutopwm && point < 3
    ensures SameSteering(cfg, d, SetAutoPwm(cfg, d, i, point, val).0, nr)
  {
    if 0 <= val <= 255 {
      AutoPwmApart(cfg, d, nr, i, point, if cfg.newerAutopwm then 3 else 5 + point, PwmToReg(cfg, val as bv8));
    }
  }

  lemma SetAutoPwmSlopeApart(cfg: Config, d: Device, nr: nat, i: nat, val: ULong)
    requires Apart(cfg.addr) && nr < PWMS && i < PWMS
    ensures SameSteering(cfg, d, SetAutoPwmSlope(cfg, d, i, val).0, nr)
  {
    if val <= 127 {
      AutoPwmApart(cfg, d, nr, i, 1, 4, (d.chan[i].autoPwm[1] & 0x80) | (val as bv8));
    }
  }

  /** Only refreshes and the three attributes of the channel itself touch its duty or its control register. */
  lemma OthersDoNotSteer(cfg: Config, d: Device, op: Op, nr: nat)
    requires Apart(cfg.addr) && Exposed(cfg, op) && nr < PWMS && !Steers(op, nr)
    ensures SameSteering(cfg, d, Step(cfg, d, op), nr)
  {
    match op
    case OpIn(i, limit, val) => SetInApart(cfg, d, nr, i, limit, val);
    case OpTemp(i, limit, val) => SetTempApart(cfg, d, nr, i, limit, val);
    case OpTempType(i, val) => SetTempTypeApart(cfg, d, nr, i, val);
    case OpFan(i, val) => SetFanApart(cfg, d, nr, i, val);
    case OpFanDiv(i, val) => SetFanDivApart(cfg, d, nr, i, val);
    case OpPwmEnable(i, val) => SetPwmEnableApart(cfg, d, nr, i, val);
    case OpPwm(i, val) => PwmsApart(cfg, d, nr, i, val);
    case OpPwmFreq(i, val) => FreqApart(cfg, d, nr, i, val);
    case OpPwmTempMap(i, val) => MapsApart(cfg, d, nr, i, val);
    case OpAutoPwm(i, point, val) => SetAutoPwmApart(cfg, d, nr, i, point, val);
    case OpAutoPwmSlope(i, val) => SetAutoPwmSlopeApart(cfg, d, nr, i, val);
    case OpAutoTemp(i, point, val) => SetAutoApart(cfg, d, nr, i, point, val);
  }

  // ----- the manual duty survives -----

  /** The duty a channel of an older chip should run at under manual control, as the attribute writes left it. */
  function NextDuty(cfg: Config, op: Op, nr: nat, duty: bv8): bv8 {
    if op.OpPwm? && op.nr == nr && 0 <= op.val <= 255 then (op.val as bv8) >> 1
    else if op.OpPwmEnable? && op.nr == nr && op.val == 0 && !cfg.OnOff(nr) then 0x7f
    else duty
  }

  function LastDuty(cfg: Config, ops: seq<Op>, nr: nat, duty: bv8): bv8
    decreases |ops|
  {
    if ops == [] then duty else LastDuty(cfg, ops[1..], nr, NextDuty(cfg, ops[0], nr, duty))
  }

  /** What the first refresh finds: the duty in the register, or the initial one while the chip is in control. */
  function FirstDuty(cfg: Config, d0: Device, nr: nat): bv8
    requires nr < PWMS
  {
    if d0.Read(cfg, Pwm(nr)) & 0x80 == 0 then d0.Read(cfg, Pwm(nr)) else d0.chan[nr].duty
  }

  ghost predicate HoldsDuty(cfg: Config, d: Device, nr: nat, duty: bv8)
    requires nr < PWMS
  {
    && duty & 0x80 == 0 && d.chan[nr].duty == duty
    && (d.Read(cfg, Pwm(nr)) & 0x80 == 0 ==> d.Read(cfg, Pwm(nr)) == duty)
  }

  lemma UpdateChannelDuty(cfg: Config, regs: RegisterFile, nr: nat, c: Channel)
    requires nr < PWMS && (cfg.oldAutopwm ==> nr < 3) && !cfg.newerAutopwm
    ensures var c', reg := UpdateChannel(cfg, regs, nr, c), RegAt(cfg, regs, Pwm(nr));
            c'.ctrl == reg && c'.duty == if reg & 0x80 == 0 then reg else c.duty
  {
    ClearBit(RegAt(cfg, regs, Pwm(nr)));
  }

  lemma ClearBit(v: bv8)
    ensures v & 0x80 == 0 ==> v & 0x7f == v
    ensures (v >> 1) & 0x80 == 0
  {
  }

  lemma RefreshChannel(cfg: Config, d: Device, nr: nat)
    requires Apart(cfg.addr) && nr < PWMS && cfg.hasPwm[nr]
    ensures Refresh(cfg, d).regs == Rearm(cfg, d).regs
    ensures Refresh(cfg, d).chan[nr] == UpdateChannel(cfg, Rearm(cfg, d).regs, nr, d.chan[nr])
    ensures Rearm(cfg, d).Read(cfg, Pwm(nr)) == d.Read(cfg, Pwm(nr))
  {
    RearmKeepsSettings(cfg, d, Pwm(nr));
  }

  lemma RefreshHoldsDuty(cfg: Config, d: Device, nr: nat)
    requires Apart(cfg.addr) && nr < PWMS && cfg.hasPwm[nr] && !cfg.newerAutopwm
    requires d.chan[nr].duty & 0x80 == 0
    ensures HoldsDuty(cfg, Refresh(cfg, d), nr, FirstDuty(cfg, d, nr))
  {
    RefreshChannel(cfg, d, nr);
    UpdateChannelDuty(cfg, Rearm(cfg, d).regs, nr, d.chan[nr]);
  }

  lemma EnableHoldsDuty(cfg: Config, d: Device, nr: nat, val: Long, duty: bv8)
    requires Apart(cfg.addr) && nr < PWMS && !cfg.newerAutopwm && HoldsDuty(cfg, d, nr, duty)
    ensures HoldsDuty(cfg, SetPwmEnable(cfg, d, nr, val).0, nr, NextDuty(cfg, OpPwmEnable(nr, val), nr, duty))
  {
    if val == 0 {
      FullOnHoldsDuty(cfg, d, nr, duty);
    } else {
      ControlHoldsDuty(cfg, d, nr, duty, duty);
      ControlHoldsDuty(cfg, d, nr, duty, 0x80);
    }
  }

  lemma FullOnHoldsDuty(cfg: Config, d: Device, nr: nat, duty: bv8)
    requires Apart(cfg.addr) && nr < PWMS && !cfg.newerAutopwm && HoldsDuty(cfg, d, nr, duty)
    ensures HoldsDuty(cfg, FullOn(cfg, d, nr), nr, if cfg.OnOff(nr) then duty else 0x7f)
  {
    if cfg.OnOff(nr) {
      SwitchHoldsDuty(cfg, d, nr, duty);
    } else {
      StoreCtrlHoldsDuty(cfg, StoreDuty(cfg, d, nr, 0x7f), nr, 0x7f);
    }
  }

  lemma SwitchHoldsDuty(cfg: Config, d: Device, nr: nat, duty: bv8)
    requires Apart(cfg.addr) && nr < 3 && HoldsDuty(cfg, d, nr, duty)
    ensures HoldsDuty(cfg, StoreMain(cfg, FanOn(cfg, d, nr), d.fanMainCtrl & !Bit(nr)), nr, duty)
  {
    WriteApart(cfg, d, nr, FanCtl, d.Read(cfg, FanCtl) | Bit(nr));
    MainApart(cfg, FanOn(cfg, d, nr), nr, d.fanMainCtrl & !Bit(nr));
  }

  lemma StoreCtrlHoldsDuty(cfg: Config, d: Device, nr: nat, duty: bv8)
    requires nr < PWMS && d.chan[nr].duty == duty && duty & 0x80 == 0
    ensures HoldsDuty(cfg, StoreCtrl(cfg, d, nr, duty), nr, duty)
  {
  }

  lemma ControlHoldsDuty(cfg: Config, d: Device, nr: nat, duty: bv8, ctrl: bv8)
    requires Apart(cfg.addr) && nr < PWMS && HoldsDuty(cfg, d, nr, duty)
    requires ctrl == duty || ctrl & 0x80 != 0
    ensures HoldsDuty(cfg, Control(cfg, d, nr, ctrl), nr, duty)
  {
    var d1 := StoreCtrl(cfg, d, nr, ctrl);
    if cfg.OnOff(nr) {
      MainApart(cfg, d1, nr, d1.fanMainCtrl | Bit(nr));
    }
  }

  lemma StorePwmHoldsDuty(cfg: Config, d: Device, nr: nat, duty: bv8)
    requires nr < PWMS && !cfg.newerAutopwm && duty & 0x80 == 0
    requires d.chan[nr].ctrl == d.Read(cfg, Pwm(nr))
    ensures HoldsDuty(cfg, StorePwm(cfg, d, nr, duty).0, nr, duty)
  {
  }

  lemma PwmHoldsDuty(cfg: Config, d: Device, nr: nat, val: Long, duty: bv8)
    requires nr < PWMS && cfg.hasPwm[nr] && !cfg.newerAutopwm && HoldsDuty(cfg, d, nr, duty)
    ensures HoldsDuty(cfg, SetPwm(cfg, d, nr, val).0, nr, NextDuty(cfg, OpPwm(nr, val), nr, duty))
  {
    if 0 <= val <= 255 {
      var v := val as bv8;
      UpdateChannelDuty(cfg, d.regs, nr, d.chan[nr]);
      ClearBit(v);
      StorePwmHoldsDuty(cfg, RereadChannel(cfg, d, nr), nr, v >> 1);
    }
  }

  lemma MapHoldsDuty(cfg: Config, d: Device, nr: nat, val: Long, duty: bv8)
    requires nr < PWMS && cfg.hasPwm[nr] && !cfg.newerAutopwm && HoldsDuty(cfg, d, nr, duty)
    ensures HoldsDuty(cfg, SetPwmTempMap(cfg, d, nr, val).0, nr, duty)
  {
    UpdateChannelDuty(cfg, d.regs, nr, d.chan[nr]);
    var d1 := RereadChannel(cfg, d, nr);
    StoreMapHoldsDuty(cfg, d1, nr, TempMapField(nr, val).0, duty);
  }

  lemma StoreMapHoldsDuty(cfg: Config, d: Device, nr: nat, field: bv8, duty: bv8)
    requires nr < PWMS && HoldsDuty(cfg, d, nr, duty) && d.chan[nr].ctrl == d.Read(cfg, Pwm(nr))
    ensures HoldsDuty(cfg, StoreTempMap(cfg, d, nr, field), nr, duty)
  {
    if Automatic(d, nr) {
      KeepsTopBit(d.chan[nr].ctrl, field);
    }
  }

  lemma KeepsTopBit(v: bv8, field: bv8)
    requires v & 0x80 != 0
    ensures ((v & 0xfc) | field) & 0x80 != 0
  {
  }

  lemma StepHoldsDuty(cfg: Config, d: Device, op: Op, nr: nat, duty: bv8)
    requires Apart(cfg.addr) && Exposed(cfg, op)
    requires nr < PWMS && cfg.hasPwm[nr] && !cfg.newerAutopwm && HoldsDuty(cfg, d, nr, duty)
    ensures HoldsDuty(cfg, Step(cfg, d, op), nr, NextDuty(cfg, op, nr, duty))
  {
    if !Steers(op, nr) {
      OthersDoNotSteer(cfg, d, op, nr);
    } else {
      match op
      case OpRefresh => RefreshHoldsDuty(cfg, d, nr);
      case OpPwmEnable(_, val) => EnableHoldsDuty(cfg, d, nr, val, duty);
      case OpPwm(_, val) => PwmHoldsDuty(cfg, d, nr, val, duty);
      case OpPwmTempMap(_, val) => MapHoldsDuty(cfg, d, nr, val, duty);
    }
  }

  lemma {:induction false} RunHoldsDuty(cfg: Config, d: Device, ops: seq<Op>, nr: nat, duty: bv8)
    requires Apart(cfg.addr) && AllExposed(cfg, ops)
    requires nr < PWMS && cfg.hasPwm[nr] && !cfg.newerAutopwm && HoldsDuty(cfg, d, nr, duty)
    ensures HoldsDuty(cfg, Run(cfg, d, ops), nr, LastDuty(cfg, ops, nr, duty))
    decreases |ops|
  {
    if ops != [] {
      StepHoldsDuty(cfg, d, ops[0], nr, duty);
      RunHoldsDuty(cfg, Step(cfg, d, ops[0]), ops[1..], nr, NextDuty(cfg, ops[0], nr, duty));
    }
  }

  /** On the older chips, over every run after the first refresh: whenever the control register says manual, it
    holds the duty last set, or the first one read. Automatic control in between does not lose it. */
  lemma ManualDutySurvives(cfg: Config, d0: Device, ops: seq<Op>, nr: nat)
    requires Apart(cfg.addr) && AllExposed(cfg, ops)
    requires nr < PWMS && cfg.hasPwm[nr] && !cfg.newerAutopwm && d0.chan[nr].duty & 0x80 == 0
    ensures var reg := Run(cfg, Refresh(cfg, d0), ops).Read(cfg, Pwm(nr));
            reg & 0x80 == 0 ==> reg == LastDuty(cfg, ops, nr, FirstDuty(cfg, d0, nr))
  {
    RefreshHoldsDuty(cfg, d0, nr);
    RunHoldsDuty(cfg, Refresh(cfg, d0), ops, nr, FirstDuty(cfg, d0, nr));
  }

  // ----- the mode that was set is the mode that is reported -----

  ghost predicate Orderly(cfg: Config, d: Device, nr: nat)
    requires nr < PWMS
  {
    if cfg.newerAutopwm then d.chan[nr].tempMap & 0x80 == 0 else d.chan[nr].duty & 0x80 == 0
  }

  // The bit of one of the first three channels or sensors.
  function LowBit(nr: nat): bv8 {
    if nr == 0 then 0x01 else if nr == 1 then 0x02 else 0x04
  }

  // The register value for full duty: 255 on the newer chips, 127 on the older.
  function FullDuty(cfg: Config): bv8 {
    if cfg.newerAutopwm then 0xff else 0x7f
  }

  lemma FullSpeedIs(cfg: Config)
    ensures FullSpeed(cfg) == FullDuty(cfg)
  {
  }

  /** After a successful write the mode reads back as written, but for one case: manual mode at full duty on a
    channel without an on/off bit reads as full speed. */
  lemma ModeReadsBack(cfg: Config, d: Device, nr: nat, val: Long)
    requires nr < PWMS && Orderly(cfg, d, nr) && SetPwmEnable(cfg, d, nr, val).1 == Ok
    ensures PwmMode(cfg, SetPwmEnable(cfg, d, nr, val).0, nr) ==
            if val == 1 && !cfg.OnOff(nr) && d.chan[nr].duty == FullDuty(cfg) then 0 else val
  {
    FullSpeedIs(cfg);
    if val == 0 {
      FullOnMode(cfg, d, nr);
    } else {
      ControlledMode(cfg, d, nr, val == 2);
    }
  }

  lemma FullOnShape(cfg: Config, d: Device, nr: nat)
    requires nr < PWMS
    ensures cfg.OnOff(nr) ==> FullOn(cfg, d, nr).fanMainCtrl == d.fanMainCtrl & !Bit(nr)
    ensures !cfg.OnOff(nr) ==>
              var c := d.chan[nr].(duty := FullSpeed(cfg));
              FullOn(cfg, d, nr).chan[nr] == c.(ctrl := ManualCtrl(cfg, c))
  {
  }

  lemma FullOnMode(cfg: Config, d: Device, nr: nat)
    requires nr < PWMS && Orderly(cfg, d, nr)
    ensures PwmMode(cfg, FullOn(cfg, d, nr), nr) == 0
  {
    FullOnShape(cfg, d, nr);
    if cfg.OnOff(nr) {
      ClearThenTest(d.fanMainCtrl, nr);
    } else {
      FullSpeedIsManual(cfg);
      ManualIsManual(cfg, d.chan[nr].(duty := FullSpeed(cfg)));
    }
  }

  lemma FullSpeedIsManual(cfg: Config)
    ensures !cfg.newerAutopwm ==> FullSpeed(cfg) & 0x80 == 0
  {
  }

  lemma ControlShape(cfg: Config, d: Device, nr: nat, ctrl: bv8)
    requires nr < PWMS
    ensures Control(cfg, d, nr, ctrl).chan[nr] == d.chan[nr].(ctrl := ctrl)
    ensures cfg.OnOff(nr) ==> Control(cfg, d, nr, ctrl).fanMainCtrl == d.fanMainCtrl | Bit(nr)
  {
    StoreShape(cfg, d, nr, ctrl);
    if cfg.OnOff(nr) {
      StoreShape(cfg, StoreCtrl(cfg, d, nr, ctrl), nr, d.fanMainCtrl | Bit(nr));
    }
  }

  lemma StoreShape(cfg: Config, d: Device, nr: nat, v: bv8)
    requires nr < PWMS
    ensures StoreCtrl(cfg, d, nr, v).chan[nr] == d.chan[nr].(ctrl := v)
    ensures StoreCtrl(cfg, d, nr, v).fanMainCtrl == d.fanMainCtrl
    ensures StoreMain(cfg, d, v).chan == d.chan && StoreMain(cfg, d, v).fanMainCtrl == v
  {
  }

  lemma ControlMode(cfg: Config, d: Device, nr: nat, ctrl: bv8)
    requires nr < PWMS
    ensures PwmMode(cfg, Control(cfg, d, nr, ctrl), nr) ==
            if ctrl & 0x80 != 0 then 2 else if !cfg.OnOff(nr) && d.chan[nr].duty == FullSpeed(cfg) then 0 else 1
  {
    ControlShape(cfg, d, nr, ctrl);
    if cfg.OnOff(nr) {
      SetThenTest(d.fanMainCtrl, nr);
    }
  }

  lemma ControlledMode(cfg: Config, d: Device, nr: nat, automatic: bool)
    requires nr < PWMS && Orderly(cfg, d, nr)
    ensures PwmMode(cfg, Controlled(cfg, d, nr, automatic), nr) ==
            if automatic then 2 else if !cfg.OnOff(nr) && d.chan[nr].duty == FullSpeed(cfg) then 0 else 1
  {
    ManualIsManual(cfg, d.chan[nr]);
    ControlMode(cfg, d, nr, if automatic then AutoCtrl(cfg, d.chan[nr]) else ManualCtrl(cfg, d.chan[nr]));
  }

  lemma ManualIsManual(cfg: Config, c: Channel)
    requires if cfg.newerAutopwm then c.tempMap & 0x80 == 0 else c.duty & 0x80 == 0
    ensures ManualCtrl(cfg, c) & 0x80 == 0 && AutoCtrl(cfg, c) & 0x80 != 0
  {
  }

  lemma ClearThenTest(v: bv8, nr: nat)
    requires nr < 3
    ensures (v & !Bit(nr)) & Bit(nr) == 0
  {
  }

  lemma SetThenTest(v: bv8, nr: nat)
    requires nr < 3
    ensures (v | Bit(nr)) & Bit(nr) != 0
  {
  }

  // ----- reachable states -----

  lemma UpdateChannelMap(cfg: Config, regs: RegisterFile, nr: nat, c: Channel)
    requires nr < PWMS && (cfg.oldAutopwm ==> nr < 3) && cfg.newerAutopwm
    ensures UpdateChannel(cfg, regs, nr, c).tempMap & 0x80 == 0
  {
    assert (RegAt(cfg, regs, Pwm(nr)) & 0x03) & 0x80 == 0;
  }

  ghost predicate MapFits(d: Device, nr: nat)
    requires nr < PWMS
  {
    d.chan[nr].tempMap & 0x80 == 0
  }

  lemma EnableKeepsMap(cfg: Config, d: Device, nr: nat, val: Long)
    requires nr < PWMS
    ensures SetPwmEnable(cfg, d, nr, val).0.chan[nr].tempMap == d.chan[nr].tempMap
  {
    if val == 0 {
      FullOnShape(cfg, d, nr);
      if cfg.OnOff(nr) {
        StoreShape(cfg, FanOn(cfg, d, nr), nr, d.fanMainCtrl & !Bit(nr));
      }
    } else {
      ControlShape(cfg, d, nr, if val == 2 then AutoCtrl(cfg, d.chan[nr]) else ManualCtrl(cfg, d.chan[nr]));
    }
  }

  lemma PwmMapFits(cfg: Config, d: Device, nr: nat, val: Long)
    requires nr < PWMS && cfg.hasPwm[nr] && cfg.newerAutopwm && MapFits(d, nr)
    ensures MapFits(SetPwm(cfg, d, nr, val).0, nr)
  {
    if 0 <= val <= 255 {
      var d1 := RereadChannel(cfg, d, nr);
      UpdateChannelMap(cfg, d.regs, nr, d.chan[nr]);
      assert StoreDuty(cfg, d1, nr, val as bv8).chan[nr].tempMap == d1.chan[nr].tempMap;
    }
  }

  lemma TempMapMapFits(cfg: Config, d: Device, nr: nat, val: Long)
    requires nr < PWMS && cfg.hasPwm[nr] && MapFits(d, nr)
    ensures MapFits(SetPwmTempMap(cfg, d, nr, val).0, nr)
  {
    StoreTempMapSets(cfg, RereadChannel(cfg, d, nr), nr, TempMapField(nr, val).0);
  }

  lemma StoreTempMapSets(cfg: Config, d: Device, nr: nat, field: bv8)
    requires nr < PWMS
    ensures StoreTempMap(cfg, d, nr, field).chan[nr].tempMap == field
  {
  }

  lemma StepMapFits(cfg: Config, d: Device, op: Op, nr: nat)
    requires Apart(cfg.addr) && Exposed(cfg, op)
    requires nr < PWMS && cfg.hasPwm[nr] && cfg.newerAutopwm && MapFits(d, nr)
    ensures MapFits(Step(cfg, d, op), nr)
  {
    if !Steers(op, nr) {
      OthersDoNotSteer(cfg, d, op, nr);
    } else {
      match op
      case OpRefresh => RefreshMapFits(cfg, d, nr);
      case OpPwmEnable(_, val) => EnableKeepsMap(cfg, d, nr, val);
      case OpPwm(_, val) => PwmMapFits(cfg, d, nr, val);
      case OpPwmTempMap(_, val) => TempMapMapFits(cfg, d, nr, val);
    }
  }

  lemma RefreshMapFits(cfg: Config, d: Device, nr: nat)
    requires Apart(cfg.addr) && nr < PWMS && cfg.hasPwm[nr] && cfg.newerAutopwm
    ensures MapFits(Refresh(cfg, d), nr)
  {
    RefreshChannel(cfg, d, nr);
    UpdateChannelMap(cfg, Rearm(cfg, d).regs, nr, d.chan[nr]);
  }

  lemma {:induction false} RunMapFits(cfg: Config, d: Device, ops: seq<Op>, nr: nat)
    requires Apart(cfg.addr) && AllExposed(cfg, ops)
    requires nr < PWMS && cfg.hasPwm[nr] && cfg.newerAutopwm && MapFits(d, nr)
    ensures MapFits(Run(cfg, d, ops), nr)
    decreases |ops|
  {
    if ops != [] {
      StepMapFits(cfg, d, ops[0], nr);
      RunMapFits(cfg, Step(cfg, d, ops[0]), ops[1..], nr);
    }
  }

  lemma ReachableOrderly(cfg: Config, d0: Device, ops: seq<Op>, nr: nat)
    requires Apart(cfg.addr) && AllExposed(cfg, ops)
    requires nr < PWMS && cfg.hasPwm[nr] && d0.chan[nr].duty & 0x80 == 0
    ensures Orderly(cfg, Run(cfg, Refresh(cfg, d0), ops), nr)
  {
    if cfg.newerAutopwm {
      RefreshMapFits(cfg, d0, nr);
      RunMapFits(cfg, Refresh(cfg, d0), ops, nr);
    } else {
      RefreshHoldsDuty(cfg, d0, nr);
      RunHoldsDuty(cfg, Refresh(cfg, d0), ops, nr, FirstDuty(cfg, d0, nr));
    }
  }

  /** In every state a run can reach, the mode of a channel reads back as it was set. */
  lemma ReachableModeReadsBack(cfg: Config, d0: Device, ops: seq<Op>, nr: nat, val: Long)
    requires Apart(cfg.addr) && AllExposed(cfg, ops)
    requires nr < PWMS && cfg.hasPwm[nr] && d0.chan[nr].duty & 0x80 == 0
    ensures var d := Run(cfg, Refresh(cfg, d0), ops);
            var (d', status) := SetPwmEnable(cfg, d, nr, val);
            status == Ok ==>
              PwmMode(cfg, d', nr) == if val == 1 && !cfg.OnOff(nr) && d.chan[nr].duty == FullDuty(cfg) then 0 else val
  {
    FullSpeedIs(cfg);
    var d := Run(cfg, Refresh(cfg, d0), ops);
    ReachableOrderly(cfg, d0, ops, nr);
    if SetPwmEnable(cfg, d, nr, val).1 == Ok {
      ModeReadsBack(cfg, d, nr, val);
    }
  }

  /** The register that holds the manual duty: the control register itself on the older chips. */
  function DutyRegister(cfg: Config, d: Device, nr: nat): bv8
    requires nr < PWMS
  {
    if cfg.newerAutopwm then d.Read(cfg, PwmDuty(nr)) else d.Read(cfg, Pwm(nr))
  }

  lemma UpdateControlDuty(cfg: Config, regs: RegisterFile, nr: nat, c: Channel)
    requires nr < PWMS && (cfg.oldAutopwm ==> nr < 3)
    ensures var c', reg := UpdateChannel(cfg, regs, nr, c), RegAt(cfg, regs, Pwm(nr));
            && c'.ctrl == reg
            && (reg & 0x80 == 0 ==> c'.duty == if cfg.newerAutopwm then RegAt(cfg, regs, PwmDuty(nr)) else reg)
  {
    ClearBit(RegAt(cfg, regs, Pwm(nr)));
  }

  lemma RereadControl(cfg: Config, d: Device, nr: nat)
    requires nr < PWMS && cfg.hasPwm[nr]
    ensures var d1 := RereadChannel(cfg, d, nr); d1.regs == d.regs && d1.chan[nr].ctrl == d.Read(cfg, Pwm(nr))
  {
    UpdateControlDuty(cfg, d.regs, nr, d.chan[nr]);
  }

  // What a refresh makes of the parts the mode depends on.
  lemma RefreshedMain(cfg: Config, d: Device)
    requires Apart(cfg.addr) && Coherent(cfg, d)
    ensures Refresh(cfg, d).fanMainCtrl == d.fanMainCtrl
  {
    assert Agrees(cfg, d, FanMainCtrl, d.Read(cfg, FanMainCtrl));
    RearmKeepsSettings(cfg, d, FanMainCtrl);
  }

  lemma RefreshedControl(cfg: Config, d: Device, nr: nat)
    requires Apart(cfg.addr) && Coherent(cfg, d) && nr < PWMS && cfg.hasPwm[nr]
    ensures var c := Refresh(cfg, d).chan[nr];
            c.ctrl == d.chan[nr].ctrl && (!Automatic(d, nr) ==> c.duty == DutyRegister(cfg, d, nr))
  {
    ControlIsTheChips(cfg, d, nr);
    RearmedDuty(cfg, d, nr);
    RefreshChannel(cfg, d, nr);
    UpdateControlDuty(cfg, Rearm(cfg, d).regs, nr, d.chan[nr]);
  }

  lemma ControlIsTheChips(cfg: Config, d: Device, nr: nat)
    requires Coherent(cfg, d) && nr < PWMS && cfg.hasPwm[nr]
    ensures d.chan[nr].ctrl == d.Read(cfg, Pwm(nr))
  {
    assert Agrees(cfg, d, Pwm(nr), d.Read(cfg, Pwm(nr)));
  }

  lemma RearmedDuty(cfg: Config, d: Device, nr: nat)
    requires Apart(cfg.addr) && nr < PWMS
    ensures DutyRegister(cfg, Rearm(cfg, d), nr) == DutyRegister(cfg, d, nr)
  {
    RearmKeepsSettings(cfg, d, PwmDuty(nr));
    RearmKeepsSettings(cfg, d, Pwm(nr));
  }

  lemma ModeByDuty(cfg: Config, nr: nat, main: bv8, ctrl: bv8, was: bv8, duty: bv8)
    ensures ModeOf(cfg, nr, main, ctrl, duty) ==
            if cfg.OnOff(nr) || ctrl & 0x80 != 0 then ModeOf(cfg, nr, main, ctrl, was)
            else if duty == FullSpeed(cfg) then 0 else 1
  {
  }

  lemma RefreshedMode(cfg: Config, d: Device, nr: nat)
    requires Apart(cfg.addr) && Coherent(cfg, d) && nr < PWMS && cfg.hasPwm[nr]
    ensures PwmMode(cfg, Refresh(cfg, d), nr) ==
            if cfg.OnOff(nr) || Automatic(d, nr) then PwmMode(cfg, d, nr)
            else if DutyRegister(cfg, d, nr) == FullSpeed(cfg) then 0 else 1
  {
    RefreshedMain(cfg, d);
    RefreshedControl(cfg, d, nr);
    var c := d.chan[nr];
    ModeByDuty(cfg, nr, d.fanMainCtrl, c.ctrl, c.duty, Refresh(cfg, d).chan[nr].duty);
  }

  lemma FullOnDutyRegister(cfg: Config, d: Device, nr: nat)
    requires Apart(cfg.addr) && nr < PWMS && !cfg.OnOff(nr) && Orderly(cfg, d, nr)
    ensures var d' := FullOn(cfg, d, nr); !Automatic(d', nr) && DutyRegister(cfg, d', nr) == FullSpeed(cfg)
  {
    var d1 := StoreDuty(cfg, d, nr, FullSpeed(cfg));
    FullSpeedIsManual(cfg);
    FullOnShape(cfg, d, nr);
    ManualIsManual(cfg, d.chan[nr].(duty := FullSpeed(cfg)));
    assert Setting(PwmDuty(nr)) && PwmDuty(nr) != Pwm(nr);
  }

  /** The same after a refresh, as the attribute is shown; only that what counts for full duty is then the register. */
  lemma RefreshedModeReadsBack(cfg: Config, d0: Device, ops: seq<Op>, nr: nat, val: Long)
    requires Apart(cfg.addr) && AllExposed(cfg, ops)
    requires nr < PWMS && cfg.hasPwm[nr] && d0.chan[nr].duty & 0x80 == 0
    ensures var (d', status) := SetPwmEnable(cfg, Run(cfg, Refresh(cfg, d0), ops), nr, val);
            status == Ok ==>
              PwmMode(cfg, Refresh(cfg, d'), nr) ==
              if val == 1 && !cfg.OnOff(nr) && DutyRegister(cfg, d', nr) == FullDuty(cfg) then 0 else val
  {
    FullSpeedIs(cfg);
    var d := Run(cfg, Refresh(cfg, d0), ops);
    ReachableOrderly(cfg, d0, ops, nr);
    RefreshAgrees(cfg, d0);
    RunKeeps(cfg, Refresh(cfg, d0), ops);
    if SetPwmEnable(cfg, d, nr, val).1 == Ok {
      ModeReadsBackRefreshed(cfg, d, nr, val);
    }
  }

  lemma ModeReadsBackRefreshed(cfg: Config, d: Device, nr: nat, val: Long)
    requires Apart(cfg.addr) && Coherent(cfg, d) && nr < PWMS && cfg.hasPwm[nr] && Orderly(cfg, d, nr)
    requires SetPwmEnable(cfg, d, nr, val).1 == Ok
    ensures var d' := SetPwmEnable(cfg, d, nr, val).0;
            PwmMode(cfg, Refresh(cfg, d'), nr) ==
            if val == 1 && !cfg.OnOff(nr) && DutyRegister(cfg, d', nr) == FullDuty(cfg) then 0 else val
  {
    FullSpeedIs(cfg);
    var d' := SetPwmEnable(cfg, d, nr, val).0;
    SetPwmEnableKeeps(cfg, d, nr, val);
    RefreshedMode(cfg, d', nr);
    ModeReadsBack(cfg, d, nr, val);
    if val == 0 && !cfg.OnOff(nr) {
      FullOnDutyRegister(cfg, d, nr);
    } else if val > 0 {
      ManualIsManual(cfg, d.chan[nr]);
      ControlShape(cfg, d, nr, if val == 2 then AutoCtrl(cfg, d.chan[nr]) else ManualCtrl(cfg, d.chan[nr]));
    }
  }

  // What the older and the newer chips ask of their trip points.

  ghost predicate OldAscend(t0: bv8, t1: bv8, t2: bv8, t3: bv8, p0: bv8, p1: bv8, p2: bv8) {
    FromS8(t0) <= FromS8(t1) <= FromS8(t2) <= FromS8(t3) && p0 <= p1 <= p2
  }

  ghost predicate NewerAscend(t0: bv8, t1: bv8, t2: bv8) {
    FromS8(t0) <= FromS8(t1) <= FromS8(t2)
  }

  function ChipTrip(cfg: Config, d: Device, nr: nat, k: nat): bv8
    requires nr < PWMS && k < 6
  {
    d.Read(cfg, AutoTemp(nr, k))
  }

  /** The trip points as the chip itself holds them do not decrease. */
  ghost predicate ChipTripsOrdered(cfg: Config, d: Device, nr: nat)
    requires nr < PWMS && (cfg.oldAutopwm ==> nr < 3)
  {
    && (cfg.oldAutopwm ==>
          OldAscend(ChipTrip(cfg, d, nr, 0), ChipTrip(cfg, d, nr, 1), ChipTrip(cfg, d, nr, 2), ChipTrip(cfg, d, nr, 3),
                    d.Read(cfg, AutoPwm(nr, 0)), d.Read(cfg, AutoPwm(nr, 1)), d.Read(cfg, AutoPwm(nr, 2))))
    && (cfg.newerAutopwm ==>
          NewerAscend(ChipTrip(cfg, d, nr, 0), ChipTrip(cfg, d, nr, 1), ChipTrip(cfg, d, nr, 2)))
  }

  lemma Ascend(t: seq<int>, lo: nat)
    requires |t| == 5 && lo <= 1
    ensures (forall i, j :: lo <= i < j <= 3 ==> t[i] <= t[j]) <==> (lo == 0 ==> t[0] <= t[1]) && t[1] <= t[2] <= t[3]
  {
  }

  lemma OldMeansAdjacent(cfg: Config, c: Channel)
    requires cfg.oldAutopwm && !cfg.newerAutopwm
    ensures TripPointsOrdered(cfg, c) <==>
            OldAscend(c.autoTemp[0], c.autoTemp[1], c.autoTemp[2], c.autoTemp[3],
                      c.autoPwm[0], c.autoPwm[1], c.autoPwm[2])
  {
    var t := seq(5, k requires 0 <= k < 5 => FromS8(c.autoTemp[k]));
    Ascend(t, 0);
    assert forall i :: 0 <= i < 5 ==> t[i] == FromS8(c.autoTemp[i]);
  }

  lemma NewerMeansAdjacent(cfg: Config, c: Channel)
    requires cfg.newerAutopwm && !cfg.oldAutopwm
    ensures TripPointsOrdered(cfg, c) <==> NewerAscend(c.autoTemp[1], c.autoTemp[2], c.autoTemp[3])
  {
    var t := seq(5, k requires 0 <= k < 5 => FromS8(c.autoTemp[k]));
    Ascend(t, 1);
    assert forall i :: 0 <= i < 5 ==> t[i] == FromS8(c.autoTemp[i]);
  }

  lemma TripAt(cfg: Config, d: Device, nr: nat, k: nat)
    requires Coherent(cfg, d) && nr < PWMS && cfg.hasPwm[nr] && k < if nr < 3 then 8 else 6
    ensures TripAgrees(cfg, d.chan[nr], k, d.Read(cfg, Auto(nr, k)))
  {
    assert Agrees(cfg, d, Auto(nr, k), d.Read(cfg, Auto(nr, k)));
  }

  lemma OldTripsAreTheChips(cfg: Config, d: Device, nr: nat)
    requires Coherent(cfg, d) && nr < PWMS && cfg.hasPwm[nr] && cfg.oldAutopwm
    ensures TripPointsOrdered(cfg, d.chan[nr]) <==> ChipTripsOrdered(cfg, d, nr)
  {
    OldTemp(cfg, d, nr, 0);
    OldTemp(cfg, d, nr, 1);
    OldTemp(cfg, d, nr, 2);
    OldTemp(cfg, d, nr, 3);
    OldDuty(cfg, d, nr, 0);
    OldDuty(cfg, d, nr, 1);
    OldDuty(cfg, d, nr, 2);
    OldTripsMatch(cfg, d, nr);
  }

  lemma OldTripsMatch(cfg: Config, d: Device, nr: nat)
    requires nr < 3 && cfg.oldAutopwm && !cfg.newerAutopwm
    requires d.chan[nr].autoTemp[0] == ChipTrip(cfg, d, nr, 0)
    requires d.chan[nr].autoTemp[1] == ChipTrip(cfg, d, nr, 1)
    requires d.chan[nr].autoTemp[2] == ChipTrip(cfg, d, nr, 2)
    requires d.chan[nr].autoTemp[3] == ChipTrip(cfg, d, nr, 3)
    requires d.chan[nr].autoPwm[0] == d.Read(cfg, AutoPwm(nr, 0))
    requires d.chan[nr].autoPwm[1] == d.Read(cfg, AutoPwm(nr, 1))
    requires d.chan[nr].autoPwm[2] == d.Read(cfg, AutoPwm(nr, 2))
    ensures TripPointsOrdered(cfg, d.chan[nr]) <==> ChipTripsOrdered(cfg, d, nr)
  {
    OldMeansAdjacent(cfg, d.chan[nr]);
  }

  lemma OldTemp(cfg: Config, d: Device, nr: nat, k: nat)
    requires Coherent(cfg, d) && nr < PWMS && cfg.hasPwm[nr] && cfg.oldAutopwm && k < 4
    ensures d.chan[nr].autoTemp[k] == ChipTrip(cfg, d, nr, k)
  {
    TripAt(cfg, d, nr, k);
  }

  lemma OldDuty(cfg: Config, d: Device, nr: nat, k: nat)
    requires Coherent(cfg, d) && nr < PWMS && cfg.hasPwm[nr] && cfg.oldAutopwm && k < 3
    ensures d.chan[nr].autoPwm[k] == d.Read(cfg, AutoPwm(nr, k))
  {
    TripAt(cfg, d, nr, 5 + k);
  }

  lemma NewerTripsAreTheChips(cfg: Config, d: Device, nr: nat)
    requires Coherent(cfg, d) && nr < PWMS && cfg.hasPwm[nr] && cfg.newerAutopwm && !cfg.oldAutopwm
    ensures TripPointsOrdered(cfg, d.chan[nr]) <==> ChipTripsOrdered(cfg, d, nr)
  {
    NewerTemp(cfg, d, nr, 0);
    NewerTemp(cfg, d, nr, 1);
    NewerTemp(cfg, d, nr, 2);
    NewerTripsMatch(cfg, d, nr);
  }

  lemma NewerTripsMatch(cfg: Config, d: Device, nr: nat)
    requires nr < PWMS && cfg.newerAutopwm && !cfg.oldAutopwm
    requires d.chan[nr].autoTemp[1] == ChipTrip(cfg, d, nr, 0)
    requires d.chan[nr].autoTemp[2] == ChipTrip(cfg, d, nr, 1)
    requires d.chan[nr].autoTemp[3] == ChipTrip(cfg, d, nr, 2)
    ensures TripPointsOrdered(cfg, d.chan[nr]) <==> ChipTripsOrdered(cfg, d, nr)
  {
    NewerMeansAdjacent(cfg, d.chan[nr]);
  }

  lemma NewerTemp(cfg: Config, d: Device, nr: nat, k: nat)
    requires Coherent(cfg, d) && nr < PWMS && cfg.hasPwm[nr] && cfg.newerAutopwm && k < 3
    ensures d.chan[nr].autoTemp[k + 1] == ChipTrip(cfg, d, nr, k)
  {
    TripAt(cfg, d, nr, k);
  }

  lemma TripPointsAreTheChips(cfg: Config, d: Device, nr: nat)
    requires Coherent(cfg, d) && nr < PWMS && cfg.hasPwm[nr]
    ensures TripPointsOrdered(cfg, d.chan[nr]) <==> ChipTripsOrdered(cfg, d, nr)
  {
    if cfg.oldAutopwm {
      OldTripsAreTheChips(cfg, d, nr);
    } else if cfg.newerAutopwm {
      NewerTripsAreTheChips(cfg, d, nr);
    }
  }

  /** In every reachable state automatic mode is granted exactly when the trip points in the chip are in order. */
  lemma AutomaticNeedsOrderedTrips(cfg: Config, d0: Device, ops: seq<Op>, nr: nat)
    requires Apart(cfg.addr) && AllExposed(cfg, ops) && nr < PWMS && cfg.hasPwm[nr]
    ensures var d := Run(cfg, Refresh(cfg, d0), ops);
            SetPwmEnable(cfg, d, nr, 2).1 == Ok <==> ChipTripsOrdered(cfg, d, nr)
  {
    RefreshAgrees(cfg, d0);
    RunKeeps(cfg, Refresh(cfg, d0), ops);
    TripPointsAreTheChips(cfg, Run(cfg, Refresh(cfg, d0), ops), nr);
  }
}
