/** The cache never lies: after the first refresh, and as long as only the driver writes the registers, the
  cached settings are what a new refresh would read. */
module It87Coherence {
  import opened Arithmetic
  import opened Bytes
  import opened It87Registers
  import opened It87Convert
  import opened It87Spec

  // Where the automatic-control registers of a channel are cached. Offset 3 of the newer chips is the manual
  // duty as well, and its two cached copies are not kept together.
  predicate TripAgrees(cfg: Config, c: Channel, k: nat, v: bv8)
    requires k < 8
  {
    && (cfg.oldAutopwm ==> (if k < 5 then c.autoTemp[k] else c.autoPwm[k - 5]) == v)
    && (cfg.newerAutopwm ==>
          && (k < 3 ==> c.autoTemp[k + 1] == v)
          && (k == 4 ==> c.autoPwm[1] == v)
          && (k == 5 ==> c.autoTemp[0] == v))
  }

  /** The cached form of setting r is what a refresh would make of the register value v. */
  predicate Agrees(cfg: Config, d: Device, r: Reg, v: bv8)
    requires r.Exists()
  {
    match r
    case VinMin(i) => cfg.hasIn[i] ==> d.inMin[i] == v
    case VinMax(i) => cfg.hasIn[i] ==> d.inMax[i] == v
    case TempLow(i) => HasTempLimit(cfg, i) ==> d.tempMin[i] == v
    case TempHigh(i) => HasTempLimit(cfg, i) ==> d.tempMax[i] == v
    case TempOffset(i) => HasTempLimit(cfg, i) && cfg.tempOffset ==> d.tempOff[i] == v
    case FanMin(i) => cfg.hasFan[i] ==> d.fanMin[i] % 0x100 == v as int && (!cfg.fans16 ==> d.fanMin[i] < 0x100)
    case FanXMin(i) => cfg.hasFan[i] && cfg.fans16 ==> d.fanMin[i] / 0x100 == v as int
    case FanDiv => cfg.HasDividers() ==> d.fanDiv == DecodeFanDiv(v)
    case FanMainCtrl => d.fanMainCtrl == v
    case TempEnable => d.sensor == v
    case FanCtl => FreqField(d.fanCtl) == FreqField(v)
    case TempExtra => FreqField(d.extra) == FreqField(v)
    case Pwm(i) => cfg.hasPwm[i] ==> d.chan[i].ctrl == v
    case Auto(i, k) => cfg.hasPwm[i] ==> TripAgrees(cfg, d.chan[i], k, v)
    case _ => true
  }

  ghost predicate Setting(r: Reg) {
    r.Exists() && !r.Live()
  }

  ghost predicate Coherent(cfg: Config, d: Device)
  {
    forall r: Reg :: Setting(r) ==> Agrees(cfg, d, r, d.Read(cfg, r))
  }

  // ----- how a setter keeps it: edit the cache, then write the registers the edit is about -----

  ghost predicate CoherentBut(cfg: Config, d: Device, stale: set<Reg>)
  {
    forall r: Reg :: Setting(r) && r !in stale ==> Agrees(cfg, d, r, d.Read(cfg, r))
  }

  ghost predicate EditsOnly(cfg: Config, d: Device, e: Device, stale: set<Reg>) {
    && e.regs == d.regs
    && forall r: Reg, v: bv8 :: Setting(r) && r !in stale && Agrees(cfg, d, r, v) ==> Agrees(cfg, e, r, v)
  }

  lemma Edit(cfg: Config, d: Device, e: Device, stale: set<Reg>)
    requires Coherent(cfg, d) && EditsOnly(cfg, d, e, stale)
    ensures CoherentBut(cfg, e, stale)
  {
    forall r: Reg | Setting(r) && r !in stale
      ensures Agrees(cfg, e, r, e.Read(cfg, r))
    {
      assert Agrees(cfg, d, r, d.Read(cfg, r));
    }
  }

  lemma WriteBack(cfg: Config, e: Device, r0: Reg, v: bv8, stale: set<Reg>)
    requires Apart(cfg.addr) && Setting(r0) && CoherentBut(cfg, e, stale) && Agrees(cfg, e, r0, v)
    ensures CoherentBut(cfg, e.Write(cfg, r0, v), stale - {r0})
  {
    var e' := e.Write(cfg, r0, v);
    forall r: Reg | Setting(r) && r !in stale - {r0}
      ensures Agrees(cfg, e', r, e'.Read(cfg, r))
    {
      SameCache(cfg, e, e', r);
      if r != r0 {
        assert e'.Read(cfg, r) == e.Read(cfg, r);
        assert Agrees(cfg, e, r, e.Read(cfg, r));
      }
    }
  }

  lemma SameCache(cfg: Config, e: Device, e': Device, r: Reg)
    requires r.Exists() && e' == e.(regs := e'.regs)
    ensures forall v :: Agrees(cfg, e', r, v) == Agrees(cfg, e, r, v)
  {
  }

  /** Editing the cached form of one setting and writing its register. */
  lemma Store(cfg: Config, d: Device, e: Device, r: Reg, v: bv8)
    requires Apart(cfg.addr) && Setting(r) && Coherent(cfg, d)
    requires EditsOnly(cfg, d, e, {r}) && Agrees(cfg, e, r, v)
    ensures Coherent(cfg, e.Write(cfg, r, v))
  {
    Edit(cfg, d, e, {r});
    WriteBack(cfg, e, r, v, {r});
    assert {r} - {r} == {};
  }

  // ----- the edits -----

  lemma EditIn(cfg: Config, d: Device, nr: nat, v: bv8)
    requires nr < VIN_LIMITS
    ensures EditsOnly(cfg, d, d.(inMin := d.inMin[nr := v]), {VinMin(nr)})
    ensures EditsOnly(cfg, d, d.(inMax := d.inMax[nr := v]), {VinMax(nr)})
  {
  }

  lemma EditTemp(cfg: Config, d: Device, nr: nat, v: bv8)
    requires nr < TEMPS
    ensures EditsOnly(cfg, d, d.(tempMin := d.tempMin[nr := v]), {TempLow(nr)})
    ensures EditsOnly(cfg, d, d.(tempMax := d.tempMax[nr := v]), {TempHigh(nr)})
  {
  }

  lemma EditOffset(cfg: Config, d: Device, nr: nat, v: bv8)
    requires nr < TEMPS
    ensures EditsOnly(cfg, d, d.(valid := false, tempOff := d.tempOff[nr := v]), {TempOffset(nr)})
  {
  }

  lemma EditFan16(cfg: Config, d: Device, nr: nat, v: FanCount)
    requires nr < FANS
    ensures EditsOnly(cfg, d, d.(fanMin := d.fanMin[nr := v]), {FanMin(nr), FanXMin(nr)})
  {
  }

  lemma EditFan8(cfg: Config, d: Device, nr: nat, v: FanCount)
    requires nr < FANS && !cfg.fans16
    ensures EditsOnly(cfg, d, d.(fanMin := d.fanMin[nr := v]), {FanMin(nr)})
  {
  }

  lemma EditDiv(cfg: Config, d: Device, div: DivRow)
    ensures EditsOnly(cfg, d, d.(fanDiv := div), {FanDiv})
  {
  }

  lemma EditSingles(cfg: Config, d: Device, v: bv8)
    ensures EditsOnly(cfg, d, d.(valid := false, sensor := v), {TempEnable})
    ensures EditsOnly(cfg, d, d.(fanMainCtrl := v), {FanMainCtrl})
  {
  }

  lemma EditFreq(cfg: Config, d: Device, v: bv8)
    ensures EditsOnly(cfg, d, d.(extra := v), {TempExtra})
    ensures EditsOnly(cfg, d, d.(fanCtl := v), {FanCtl})
  {
  }

  lemma EditCtrl(cfg: Config, d: Device, nr: nat, v: bv8)
    requires nr < PWMS
    ensures EditsOnly(cfg, d, d.Put(nr, d.chan[nr].(ctrl := v)), {Pwm(nr)})
  {
  }

  // Neither the duty nor the temperature map is compared with a register.
  lemma EditManual(cfg: Config, d: Device, nr: nat, duty: bv8, tempMap: bv8)
    requires nr < PWMS
    ensures EditsOnly(cfg, d, d.Put(nr, d.chan[nr].(duty := duty, tempMap := tempMap)), {})
  {
    var e := d.Put(nr, d.chan[nr].(duty := duty, tempMap := tempMap));
    forall r: Reg, v: bv8 | Setting(r) && Agrees(cfg, d, r, v)
      ensures Agrees(cfg, e, r, v)
    {
    }
  }

  lemma EditAutoPwm(cfg: Config, d: Device, nr: nat, point: nat, k: nat, v: bv8)
    requires nr < PWMS
    requires if cfg.newerAutopwm then (point, k) == (0, 3) || (point, k) == (1, 4) else point < 3 && k == 5 + point
    requires cfg.newerAutopwm ==> !cfg.oldAutopwm
    ensures EditsOnly(cfg, d, d.Put(nr, d.chan[nr].(autoPwm := d.chan[nr].autoPwm[point := v])), {Auto(nr, k)})
  {
  }

  lemma EditAutoTemp(cfg: Config, d: Device, nr: nat, point: nat, k: nat, v: bv8)
    requires nr < PWMS && point < 5
    requires if cfg.newerAutopwm then point <= 3 && k == if point == 0 then 5 else point - 1 else k == point
    requires cfg.newerAutopwm ==> !cfg.oldAutopwm
    ensures EditsOnly(cfg, d, d.Put(nr, d.chan[nr].(autoTemp := d.chan[nr].autoTemp[point := v])), {Auto(nr, k)})
  {
  }

  // ----- every operation keeps it -----

  lemma StoreInKeeps(cfg: Config, d: Device, nr: nat, limit: Limit, v: bv8)
    requires Apart(cfg.addr) && Coherent(cfg, d) && nr < VIN_LIMITS
    ensures Coherent(cfg, StoreIn(cfg, d, nr, limit, v))
  {
    EditIn(cfg, d, nr, v);
    if limit == Min {
      Store(cfg, d, d.(inMin := d.inMin[nr := v]), VinMin(nr), v);
    } else {
      Store(cfg, d, d.(inMax := d.inMax[nr := v]), VinMax(nr), v);
    }
  }

  lemma EnableOffsetsKeeps(cfg: Config, d: Device)
    requires Apart(cfg.addr) && Coherent(cfg, d)
    ensures Coherent(cfg, EnableOffsets(cfg, d))
  {
    var beep := d.Read(cfg, BeepEnable);
    if beep & 0x80 == 0 {
      Store(cfg, d, d, BeepEnable, beep | 0x80);
    }
  }

  lemma StoreTempKeeps(cfg: Config, d: Device, nr: nat, limit: Limit, v: bv8)
    requires Apart(cfg.addr) && Coherent(cfg, d) && nr < TEMPS
    ensures Coherent(cfg, StoreTemp(cfg, d, nr, limit, v))
  {
    match limit
    case Min =>
      EditTemp(cfg, d, nr, v);
      Store(cfg, d, d.(tempMin := d.tempMin[nr := v]), TempLow(nr), v);
    case Max =>
      EditTemp(cfg, d, nr, v);
      Store(cfg, d, d.(tempMax := d.tempMax[nr := v]), TempHigh(nr), v);
    case Offset =>
      EnableOffsetsKeeps(cfg, d);
      var d1 := EnableOffsets(cfg, d);
      EditOffset(cfg, d1, nr, v);
      Store(cfg, d1, d1.(valid := false, tempOff := d1.tempOff[nr := v]), TempOffset(nr), v);
  }

  lemma StoreFan16Keeps(cfg: Config, d: Device, nr: nat, v: FanCount)
    requires Apart(cfg.addr) && Coherent(cfg, d) && nr < FANS && cfg.fans16
    ensures Coherent(cfg, StoreFan16(cfg, d, nr, v))
  {
    var e := d.(fanMin := d.fanMin[nr := v]);
    var lo, hi := v % 0x100, v / 0x100;
    EditFan16(cfg, d, nr, v);
    Edit(cfg, d, e, {FanMin(nr), FanXMin(nr)});
    ByteRoundTrip(lo);
    ByteRoundTrip(hi);
    WriteBack(cfg, e, FanMin(nr), lo as bv8, {FanMin(nr), FanXMin(nr)});
    WriteBack(cfg, e.Write(cfg, FanMin(nr), lo as bv8), FanXMin(nr), hi as bv8,
              {FanMin(nr), FanXMin(nr)} - {FanMin(nr)});
  }

  lemma StoreFan8Keeps(cfg: Config, d: Device, nr: nat, v: FanCount)
    requires Apart(cfg.addr) && Coherent(cfg, d) && nr < FANS && !cfg.fans16 && v < 0x100
    ensures Coherent(cfg, StoreFan8(cfg, d, nr, v))
  {
    EditFan8(cfg, d, nr, v);
    ByteRoundTrip(v);
    Store(cfg, d, d.(fanMin := d.fanMin[nr := v]), FanMin(nr), v as bv8);
  }

  lemma FanDivBits(before: bv8, a: bv8, b: bv8, c: bv8)
    requires a < 8 && b < 8 && (c == 0 || c == 0x40)
    ensures var e := (before & 0x80) | (a & 0x07) | ((b & 0x07) << 3) | c;
            e & 0x07 == a && (e >> 3) & 0x07 == b && e & 0x40 == c && e & 0x80 == before & 0x80
  {
  }

  /** Decoding the divisor register again yields the divisors it was built from, and bit 7 is kept. */
  lemma FanDivDecodes(before: bv8, div: DivRow)
    ensures DecodeFanDiv(EncodeFanDiv(before, div)) == [div[0], div[1], if div[2] == 3 then 3 else 1]
    ensures EncodeFanDiv(before, div) & 0x80 == before & 0x80
  {
    FanDivBits(before, div[0], div[1], if div[2] == 3 then 0x40 else 0);
  }

  lemma StoreDivKeeps(cfg: Config, d: Device, div: DivRow)
    requires Apart(cfg.addr) && Coherent(cfg, d) && (div[2] == 1 || div[2] == 3)
    ensures Coherent(cfg, StoreDiv(cfg, d, div))
  {
    EditDiv(cfg, d, div);
    FanDivDecodes(d.Read(cfg, FanDiv), div);
    assert div == [div[0], div[1], div[2]];
    Store(cfg, d, d.(fanDiv := div), FanDiv, EncodeFanDiv(d.Read(cfg, FanDiv), div));
  }

  lemma RereadDivKeeps(cfg: Config, d: Device, nr: nat)
    requires Coherent(cfg, d) && nr < FAN_DIVS && cfg.HasDividers()
    ensures RereadDiv(cfg, d, nr) == d && (d.fanDiv[2] == 1 || d.fanDiv[2] == 3)
  {
    assert Agrees(cfg, d, FanDiv, d.Read(cfg, FanDiv));
    assert d.fanDiv[nr := d.fanDiv[nr]] == d.fanDiv;
  }

  lemma SetFanKeeps(cfg: Config, d: Device, nr: nat, val: Long)
    requires Apart(cfg.addr) && Coherent(cfg, d) && Exposed(cfg, OpFan(nr, val))
    ensures Coherent(cfg, SetFan(cfg, d, nr, val))
  {
    if cfg.fans16 {
      StoreFan16Keeps(cfg, d, nr, Fan16ToReg(val));
    } else {
      RereadDivKeeps(cfg, d, nr);
      StoreFan8Keeps(cfg, d, nr, FanToReg(val, DivFromReg(d.fanDiv[nr] as nat)));
    }
  }

  lemma SetFanDivKeeps(cfg: Config, d: Device, nr: nat, val: ULong)
    requires Apart(cfg.addr) && Coherent(cfg, d) && Exposed(cfg, OpFanDiv(nr, val))
    ensures Coherent(cfg, SetFanDiv(cfg, d, nr, val))
  {
    var field := FanDivField(nr, val);
    RereadDivKeeps(cfg, d, nr);
    var d1 := StoreDiv(cfg, d, d.fanDiv[nr := field]);
    StoreDivKeeps(cfg, d, d.fanDiv[nr := field]);
    StoreFan8Keeps(cfg, d1, nr, FanToReg(MinRpm(d, nr), DivFromReg(field as nat)));
  }

  lemma StoreSensorKeeps(cfg: Config, d: Device, v: bv8)
    requires Apart(cfg.addr) && Coherent(cfg, d)
    ensures Coherent(cfg, StoreSensor(cfg, d, v))
  {
    EditSingles(cfg, d, v);
    Store(cfg, d, d.(valid := false, sensor := v), TempEnable, v);
  }

  lemma StoreExtraKeeps(cfg: Config, d: Device, v: bv8)
    requires Apart(cfg.addr) && Coherent(cfg, d)
    ensures Coherent(cfg, StoreExtra(cfg, d, v))
    ensures FreqField(v) == FreqField(d.Read(cfg, TempExtra)) ==> Coherent(cfg, d.(extra := v))
  {
    EditFreq(cfg, d, v);
    Store(cfg, d, d.(extra := v), TempExtra, v);
    Edit(cfg, d, d.(extra := v), {TempExtra});
  }

  lemma StoreTempTypeKeeps(cfg: Config, d: Device, reg: bv8, extra: bv8, oldPeci: bool)
    requires Apart(cfg.addr) && Coherent(cfg, d)
    requires FreqField(extra) == FreqField(d.Read(cfg, TempExtra))
    ensures Coherent(cfg, StoreTempType(cfg, d, reg, extra, oldPeci))
  {
    StoreSensorKeeps(cfg, d, reg);
    StoreExtraKeeps(cfg, StoreSensor(cfg, d, reg), extra);
  }

  lemma StoreMainKeeps(cfg: Config, d: Device, v: bv8)
    requires Apart(cfg.addr) && Coherent(cfg, d)
    ensures Coherent(cfg, StoreMain(cfg, d, v))
  {
    EditSingles(cfg, d, v);
    Store(cfg, d, d.(fanMainCtrl := v), FanMainCtrl, v);
  }

  lemma StoreCtrlKeeps(cfg: Config, d: Device, nr: nat, v: bv8)
    requires Apart(cfg.addr) && Coherent(cfg, d) && nr < PWMS
    ensures Coherent(cfg, StoreCtrl(cfg, d, nr, v))
  {
    EditCtrl(cfg, d, nr, v);
    Store(cfg, d, d.Put(nr, d.chan[nr].(ctrl := v)), Pwm(nr), v);
  }

  lemma ManualKeeps(cfg: Config, d: Device, nr: nat, duty: bv8, tempMap: bv8)
    requires Coherent(cfg, d) && nr < PWMS
    ensures Coherent(cfg, d.Put(nr, d.chan[nr].(duty := duty, tempMap := tempMap)))
  {
    EditManual(cfg, d, nr, duty, tempMap);
    Edit(cfg, d, d.Put(nr, d.chan[nr].(duty := duty, tempMap := tempMap)), {});
  }

  lemma StoreDutyKeeps(cfg: Config, d: Device, nr: nat, v: bv8)
    requires Apart(cfg.addr) && Coherent(cfg, d) && nr < PWMS && (cfg.hasPwm[nr] ==> !cfg.oldAutopwm)
    ensures Coherent(cfg, StoreDuty(cfg, d, nr, v))
  {
    EditManual(cfg, d, nr, v, d.chan[nr].tempMap);
    Store(cfg, d, d.Put(nr, d.chan[nr].(duty := v)), PwmDuty(nr), v);
  }

  lemma FanOnKeeps(cfg: Config, d: Device, nr: nat)
    requires Apart(cfg.addr) && Coherent(cfg, d) && nr < 3
    ensures Coherent(cfg, FanOn(cfg, d, nr)) && FanOn(cfg, d, nr).fanMainCtrl == d.fanMainCtrl
  {
    var v := d.Read(cfg, FanCtl);
    LowBitsSpareField(v, nr);
    assert Agrees(cfg, d, FanCtl, v);
    Store(cfg, d, d, FanCtl, v | Bit(nr));
  }

  lemma LowBitsSpareField(v: bv8, nr: nat)
    requires nr < 3
    ensures FreqField(v | Bit(nr)) == FreqField(v)
  {
  }

  lemma FullOnKeeps(cfg: Config, d: Device, nr: nat)
    requires Apart(cfg.addr) && Coherent(cfg, d) && nr < PWMS && cfg.hasPwm[nr]
    ensures Coherent(cfg, FullOn(cfg, d, nr))
  {
    if cfg.OnOff(nr) {
      FanOnKeeps(cfg, d, nr);
      StoreMainKeeps(cfg, FanOn(cfg, d, nr), d.fanMainCtrl & !Bit(nr));
    } else {
      StoreDutyKeeps(cfg, d, nr, FullSpeed(cfg));
      var d1 := StoreDuty(cfg, d, nr, FullSpeed(cfg));
      StoreCtrlKeeps(cfg, d1, nr, ManualCtrl(cfg, d1.chan[nr]));
    }
  }

  lemma ControlKeeps(cfg: Config, d: Device, nr: nat, ctrl: bv8)
    requires Apart(cfg.addr) && Coherent(cfg, d) && nr < PWMS
    ensures Coherent(cfg, Control(cfg, d, nr, ctrl))
  {
    var d1 := StoreCtrl(cfg, d, nr, ctrl);
    StoreCtrlKeeps(cfg, d, nr, ctrl);
    if cfg.OnOff(nr) {
      StoreMainKeeps(cfg, d1, d1.fanMainCtrl | Bit(nr));
    }
  }

  lemma RereadTripsAgree(cfg: Config, regs: RegisterFile, nr: nat, k: nat, c: Channel)
    requires nr < PWMS && k < if nr < 3 then 8 else 6
    ensures cfg.oldAutopwm && nr < 3 ==> TripAgrees(cfg, OldTrips(cfg, regs, nr, c), k, RegAt(cfg, regs, Auto(nr, k)))
    ensures cfg.newerAutopwm ==> TripAgrees(cfg, NewerTrips(cfg, regs, nr, c), k, RegAt(cfg, regs, Auto(nr, k)))
  {
  }

  lemma UpdateChannelAgrees(cfg: Config, d: Device, e: Device, nr: nat, r: Reg)
    requires nr < PWMS && cfg.hasPwm[nr] && Setting(r)
    requires r == Pwm(nr) || (r.Auto? && r.i == nr)
    requires e.chan[nr] == UpdateChannel(cfg, d.regs, nr, d.chan[nr])
    ensures Agrees(cfg, e, r, d.Read(cfg, r))
  {
    if r.Auto? {
      RereadTripsAgree(cfg, d.regs, nr, r.k, UpdateControl(cfg, d.regs, nr, d.chan[nr]));
    }
  }

  lemma RereadChannelKeeps(cfg: Config, d: Device, nr: nat)
    requires Coherent(cfg, d) && nr < PWMS && cfg.hasPwm[nr]
    ensures Coherent(cfg, RereadChannel(cfg, d, nr))
  {
    var e := RereadChannel(cfg, d, nr);
    forall r: Reg | Setting(r)
      ensures Agrees(cfg, e, r, e.Read(cfg, r))
    {
      if r == Pwm(nr) || (r.Auto? && r.i == nr) {
        UpdateChannelAgrees(cfg, d, e, nr, r);
      } else {
        assert Agrees(cfg, d, r, d.Read(cfg, r));
      }
    }
  }

  lemma StorePwmKeeps(cfg: Config, d: Device, nr: nat, duty: bv8)
    requires Apart(cfg.addr) && Coherent(cfg, d) && nr < PWMS && cfg.hasPwm[nr]
    ensures Coherent(cfg, StorePwm(cfg, d, nr, duty).0)
  {
    if cfg.newerAutopwm {
      StoreDutyKeeps(cfg, d, nr, duty);
    } else {
      ManualKeeps(cfg, d, nr, duty, d.chan[nr].tempMap);
      StoreCtrlKeeps(cfg, d.Put(nr, d.chan[nr].(duty := duty)), nr, duty);
    }
  }

  lemma SetPwmKeeps(cfg: Config, d: Device, nr: nat, val: Long)
    requires Apart(cfg.addr) && Coherent(cfg, d) && nr < PWMS && cfg.hasPwm[nr]
    ensures Coherent(cfg, SetPwm(cfg, d, nr, val).0)
  {
    if 0 <= val <= 255 {
      RereadChannelKeeps(cfg, d, nr);
      StorePwmKeeps(cfg, RereadChannel(cfg, d, nr), nr, PwmToReg(cfg, val as bv8));
    }
  }

  lemma StoreTempMapKeeps(cfg: Config, d: Device, nr: nat, field: bv8)
    requires Apart(cfg.addr) && Coherent(cfg, d) && nr < PWMS
    ensures Coherent(cfg, StoreTempMap(cfg, d, nr, field))
  {
    ManualKeeps(cfg, d, nr, d.chan[nr].duty, field);
    StoreCtrlKeeps(cfg, d.Put(nr, d.chan[nr].(tempMap := field)), nr, (d.chan[nr].ctrl & 0xfc) | field);
  }

  lemma SetPwmTempMapKeeps(cfg: Config, d: Device, nr: nat, val: Long)
    requires Apart(cfg.addr) && Coherent(cfg, d) && nr < PWMS && cfg.hasPwm[nr]
    ensures Coherent(cfg, SetPwmTempMap(cfg, d, nr, val).0)
  {
    RereadChannelKeeps(cfg, d, nr);
    StoreTempMapKeeps(cfg, RereadChannel(cfg, d, nr), nr, TempMapField(nr, val).0);
  }

  lemma SetPwmFreqKeeps(cfg: Config, d: Device, nr: nat, val: ULong)
    requires Apart(cfg.addr) && Coherent(cfg, d)
    ensures Coherent(cfg, SetPwmFreq(cfg, d, nr, val))
  {
    var index := RequestedIndex(cfg, val);
    if nr == 0 {
      var v := FreqReg(d.Read(cfg, FanCtl), index);
      EditFreq(cfg, d, v);
      Store(cfg, d, d.(fanCtl := v), FanCtl, v);
    } else {
      StoreExtraKeeps(cfg, d, FreqReg(d.Read(cfg, TempExtra), index));
    }
  }

  lemma SetAutoPwmKeeps(cfg: Config, d: Device, nr: nat, point: nat, val: Long)
    requires Apart(cfg.addr) && Coherent(cfg, d) && Exposed(cfg, OpAutoPwm(nr, point, val))
    ensures Coherent(cfg, SetAutoPwm(cfg, d, nr, point, val).0)
  {
    if 0 <= val <= 255 {
      var v := PwmToReg(cfg, val as bv8);
      var k := if cfg.newerAutopwm then 3 else 5 + point;
      EditAutoPwm(cfg, d, nr, point, k, v);
      Store(cfg, d, d.Put(nr, d.chan[nr].(autoPwm := d.chan[nr].autoPwm[point := v])), Auto(nr, k), v);
    }
  }

  lemma SetAutoPwmSlopeKeeps(cfg: Config, d: Device, nr: nat, val: ULong)
    requires Apart(cfg.addr) && Coherent(cfg, d) && Exposed(cfg, OpAutoPwmSlope(nr, val))
    ensures Coherent(cfg, SetAutoPwmSlope(cfg, d, nr, val).0)
  {
    if val <= 127 {
      var v := (d.chan[nr].autoPwm[1] & 0x80) | (val as bv8);
      EditAutoPwm(cfg, d, nr, 1, 4, v);
      Store(cfg, d, d.Put(nr, d.chan[nr].(autoPwm := d.chan[nr].autoPwm[1 := v])), Auto(nr, 4), v);
    }
  }

  lemma StoreAutoTempKeeps(cfg: Config, d: Device, nr: nat, point: nat, k: nat, v: bv8)
    requires Apart(cfg.addr) && Coherent(cfg, d) && nr < PWMS && point < 5
    requires if cfg.newerAutopwm then point <= 3 && k == if point == 0 then 5 else point - 1 else k == point
    ensures Coherent(cfg, StoreAutoTemp(cfg, d, nr, point, k, v))
  {
    EditAutoTemp(cfg, d, nr, point, k, v);
    Store(cfg, d, d.Put(nr, d.chan[nr].(autoTemp := d.chan[nr].autoTemp[point := v])), Auto(nr, k), v);
  }

  lemma SetAutoTempKeeps(cfg: Config, d: Device, nr: nat, point: nat, val: Long)
    requires Apart(cfg.addr) && Coherent(cfg, d) && Exposed(cfg, OpAutoTemp(nr, point, val))
    ensures Coherent(cfg, SetAutoTemp(cfg, d, nr, point, val).0)
  {
    if cfg.newerAutopwm && point == 0 {
      StoreAutoTempKeeps(cfg, d, nr, 0, 5, HysteresisReg(d.chan[nr], val));
    } else {
      StoreAutoTempKeeps(cfg, d, nr, point, if cfg.newerAutopwm then point - 1 else point, ToS8(TempToReg(val)));
    }
  }

  // ----- a refresh makes it so -----

  lemma RefreshInputsAgrees(cfg: Config, d: Device, r: Reg)
    requires Setting(r) && (r.VinMin? || r.VinMax?)
    ensures Agrees(cfg, Refresh(cfg, d), r, Refresh(cfg, d).Read(cfg, r))
  {
  }

  lemma FanValueSplits(cfg: Config, lo: bv8, hi: bv8)
    ensures FanValue(cfg, lo, hi) % 0x100 == lo as int
    ensures cfg.fans16 ==> FanValue(cfg, lo, hi) / 0x100 == hi as int
  {
    TwoBytes(FanValue(cfg, lo, hi), lo as int, if cfg.fans16 then hi as int else 0);
  }

  lemma RefreshFansAgrees(cfg: Config, d: Device, r: Reg)
    requires Setting(r) && (r.FanMin? || r.FanXMin?)
    ensures Agrees(cfg, Refresh(cfg, d), r, Refresh(cfg, d).Read(cfg, r))
  {
    var e := Refresh(cfg, d);
    FanValueSplits(cfg, e.Read(cfg, FanMin(r.i)), e.Read(cfg, FanXMin(r.i)));
  }

  lemma RefreshTempsAgrees(cfg: Config, d: Device, r: Reg)
    requires Setting(r) && (r.TempLow? || r.TempHigh? || r.TempOffset?)
    ensures Agrees(cfg, Refresh(cfg, d), r, Refresh(cfg, d).Read(cfg, r))
  {
  }

  lemma RefreshControlsAgrees(cfg: Config, d: Device, r: Reg)
    requires r.FanDiv? || r.FanMainCtrl? || r.FanCtl? || r.TempEnable? || r.TempExtra?
    ensures Agrees(cfg, Refresh(cfg, d), r, Refresh(cfg, d).Read(cfg, r))
  {
  }

  lemma RefreshChannelsAgrees(cfg: Config, d: Device, r: Reg)
    requires Setting(r) && (r.Pwm? || r.Auto?)
    ensures Agrees(cfg, Refresh(cfg, d), r, Refresh(cfg, d).Read(cfg, r))
  {
    var e := Refresh(cfg, d);
    if cfg.hasPwm[r.i] {
      UpdateChannelAgrees(cfg, d.(regs := e.regs), e, r.i, r);
    }
  }

  /** After a refresh every cached setting is what the register says. */
  lemma RefreshAgrees(cfg: Config, d: Device)
    ensures Coherent(cfg, Refresh(cfg, d))
  {
    var d' := Refresh(cfg, d);
    forall r: Reg | Setting(r)
      ensures Agrees(cfg, d', r, d'.Read(cfg, r))
    {
      match r
      case VinMin(_) => RefreshInputsAgrees(cfg, d, r);
      case VinMax(_) => RefreshInputsAgrees(cfg, d, r);
      case FanMin(_) => RefreshFansAgrees(cfg, d, r);
      case FanXMin(_) => RefreshFansAgrees(cfg, d, r);
      case TempLow(_) => RefreshTempsAgrees(cfg, d, r);
      case TempHigh(_) => RefreshTempsAgrees(cfg, d, r);
      case TempOffset(_) => RefreshTempsAgrees(cfg, d, r);
      case Pwm(_) => RefreshChannelsAgrees(cfg, d, r);
      case Auto(_, _) => RefreshChannelsAgrees(cfg, d, r);
      case Configuration =>
      case BeepEnable =>
      case _ => RefreshControlsAgrees(cfg, d, r);
    }
  }
}
