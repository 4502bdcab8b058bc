/** What holds over whole runs of attribute writes and refreshes. */
module It87Runs {
  import opened Arithmetic
  import opened It87Registers
  import opened It87Convert
  import opened It87Spec
  import opened It87Coherence

  // ----- the cache stays honest -----

  lemma SetInKeeps(cfg: Config, d: Device, nr: nat, limit: Limit, val: ULong)
    requires Apart(cfg.addr) && Coherent(cfg, d) && nr < VIN_LIMITS
    ensures Coherent(cfg, SetIn(cfg, d, nr, limit, val))
  {
    StoreInKeeps(cfg, d, nr, limit, InToReg(AdcLsb(cfg, nr), val) as bv8);
  }

  lemma SetTempKeeps(cfg: Config, d: Device, nr: nat, limit: Limit, val: Long)
    requires Apart(cfg.addr) && Coherent(cfg, d) && nr < TEMPS
    ensures Coherent(cfg, SetTemp(cfg, d, nr, limit, val))
  {
    StoreTempKeeps(cfg, d, nr, limit, ToS8(TempToReg(val)));
  }

  lemma SetTempTypeKeeps(cfg: Config, d: Device, nr: nat, val: Long)
    requires Apart(cfg.addr) && Coherent(cfg, d) && nr < 3
    ensures Coherent(cfg, SetTempType(cfg, d, nr, val).0)
  {
    StoreTempTypeKeeps(cfg, d, TempTypeEnable(cfg, d.Read(cfg, TempEnable), nr, val),
                       TempTypeExtra(cfg, d.Read(cfg, TempExtra), nr, val), cfg.tempOldPeci[nr]);
  }

  lemma SetPwmEnableKeeps(cfg: Config, d: Device, nr: nat, val: Long)
    requires Apart(cfg.addr) && Coherent(cfg, d) && nr < PWMS && cfg.hasPwm[nr]
    ensures Coherent(cfg, SetPwmEnable(cfg, d, nr, val).0)
  {
    FullOnKeeps(cfg, d, nr);
    ControlKeeps(cfg, d, nr, if val == 2 then AutoCtrl(cfg, d.chan[nr]) else ManualCtrl(cfg, d.chan[nr]));
  }

  /** No attribute write and no refresh makes the cache disagree with the registers. */
  lemma StepKeeps(cfg: Config, d: Device, op: Op)
    requires Apart(cfg.addr) && Coherent(cfg, d) && Exposed(cfg, op)
    ensures Coherent(cfg, Step(cfg, d, op))
  {
    match op
    case OpRefresh => RefreshAgrees(cfg, d);
    case OpIn(nr, limit, val) => SetInKeeps(cfg, d, nr, limit, val);
    case OpTemp(nr, limit, val) => SetTempKeeps(cfg, d, nr, limit, val);
    case OpTempType(nr, val) => SetTempTypeKeeps(cfg, d, nr, val);
    case OpFan(nr, val) => SetFanKeeps(cfg, d, nr, val);
    case OpFanDiv(nr, val) => SetFanDivKeeps(cfg, d, nr, val);
    case OpPwmEnable(nr, val) => SetPwmEnableKeeps(cfg, d, nr, val);
    case OpPwm(nr, val) => SetPwmKeeps(cfg, d, nr, val);
    case OpPwmFreq(nr, val) => SetPwmFreqKeeps(cfg, d, nr, val);
    case OpPwmTempMap(nr, val) => SetPwmTempMapKeeps(cfg, d, nr, val);
    case OpAutoPwm(nr, point, val) => SetAutoPwmKeeps(cfg, d, nr, point, val);
    case OpAutoPwmSlope(nr, val) => SetAutoPwmSlopeKeeps(cfg, d, nr, val);
    case OpAutoTemp(nr, point, val) => SetAutoTempKeeps(cfg, d, nr, point, val);
  }

  lemma {:induction false} RunKeeps(cfg: Config, d: Device, ops: seq<Op>)
    requires Apart(cfg.addr) && Coherent(cfg, d) && AllExposed(cfg, ops)
    ensures Coherent(cfg, Run(cfg, d, ops))
    decreases |ops|
  {
    if ops != [] {
      StepKeeps(cfg, d, ops[0]);
      RunKeeps(cfg, Step(cfg, d, ops[0]), ops[1..]);
    }
  }

  /** The two caches hold the same settings: limits, offsets, divisors, control bytes, frequency selections,
    and the trip points a chip family has. Measured values are not compared. */
  ghost predicate SameSettings(cfg: Config, d: Device, e: Device) {
    && d.inMin == e.inMin && d.inMax == e.inMax
    && d.tempMin == e.tempMin && d.tempMax == e.tempMax && d.tempOff == e.tempOff
    && d.fanMin == e.fanMin && d.fanDiv == e.fanDiv
    && d.fanMainCtrl == e.fanMainCtrl && d.sensor == e.sensor
    && FreqField(d.fanCtl) == FreqField(e.fanCtl) && FreqField(d.extra) == FreqField(e.extra)
    && forall i: nat :: i < PWMS ==> d.chan[i].ctrl == e.chan[i].ctrl && SameTrips(cfg, d.chan[i], e.chan[i])
  }

  ghost predicate SameTrips(cfg: Config, c: Channel, c': Channel) {
    && (cfg.oldAutopwm ==> c.autoTemp == c'.autoTemp && c.autoPwm == c'.autoPwm)
    && (cfg.newerAutopwm ==> c.autoTemp == c'.autoTemp && c.autoPwm[1] == c'.autoPwm[1])
  }

  lemma RearmKeepsSettings(cfg: Config, d: Device, r: Reg)
    requires Apart(cfg.addr) && Setting(r) && r != Configuration
    ensures Rearm(cfg, d).Read(cfg, r) == d.Read(cfg, r)
  {
  }

  // What a refresh leaves alone: the entries the chip lacks.
  ghost predicate AbsentSame(cfg: Config, d: Device, e: Device) {
    && (forall i: nat :: i < VIN_LIMITS && !cfg.hasIn[i] ==> e.inMin[i] == d.inMin[i] && e.inMax[i] == d.inMax[i])
    && (forall i: nat :: i < FANS && !cfg.hasFan[i] ==> e.fanMin[i] == d.fanMin[i])
    && (!cfg.HasDividers() ==> e.fanDiv == d.fanDiv)
    && (forall i: nat :: i < TEMPS && !HasTempLimit(cfg, i) ==>
          e.tempMin[i] == d.tempMin[i] && e.tempMax[i] == d.tempMax[i])
    && (forall i: nat :: i < TEMPS && !(HasTempLimit(cfg, i) && cfg.tempOffset) ==> e.tempOff[i] == d.tempOff[i])
    && (forall i: nat :: i < PWMS && !cfg.hasPwm[i] ==> e.chan[i] == d.chan[i])
    && (forall i: nat :: i < PWMS ==> e.chan[i].autoPwm[3] == d.chan[i].autoPwm[3])
    && (forall i: nat :: i < PWMS && !cfg.oldAutopwm ==> e.chan[i].autoTemp[4] == d.chan[i].autoTemp[4])
  }

  // The last automatic duty of the oldest chips and the fifth trip temperature of the newer have no register.
  lemma UpdateChannelTail(cfg: Config, regs: RegisterFile, nr: nat, c: Channel)
    requires nr < PWMS && (cfg.oldAutopwm ==> nr < 3)
    ensures UpdateChannel(cfg, regs, nr, c).autoPwm[3] == c.autoPwm[3]
    ensures !cfg.oldAutopwm ==> UpdateChannel(cfg, regs, nr, c).autoTemp[4] == c.autoTemp[4]
  {
  }

  lemma RefreshAbsent(cfg: Config, d: Device)
    ensures AbsentSame(cfg, d, Refresh(cfg, d))
  {
    var regs := Rearm(cfg, d).regs;
    assert Refresh(cfg, d).chan == RereadChannels(cfg, regs, d.chan);
    forall i: nat | i < PWMS && cfg.hasPwm[i]
      ensures RereadChannels(cfg, regs, d.chan)[i].autoPwm[3] == d.chan[i].autoPwm[3]
      ensures !cfg.oldAutopwm ==> RereadChannels(cfg, regs, d.chan)[i].autoTemp[4] == d.chan[i].autoTemp[4]
    {
      UpdateChannelTail(cfg, regs, i, d.chan[i]);
    }
  }

  ghost predicate BothAgree(cfg: Config, d: Device, e: Device)
  {
    forall r: Reg :: Setting(r) ==> Agrees(cfg, d, r, d.Read(cfg, r)) && Agrees(cfg, e, r, d.Read(cfg, r))
  }

  lemma RefreshBothAgree(cfg: Config, d: Device)
    requires Apart(cfg.addr) && Coherent(cfg, d)
    ensures BothAgree(cfg, d, Refresh(cfg, d))
  {
    RefreshAgrees(cfg, d);
    var e := Refresh(cfg, d);
    forall r: Reg | Setting(r)
      ensures Agrees(cfg, e, r, d.Read(cfg, r))
    {
      assert Agrees(cfg, e, r, e.Read(cfg, r));
      if r != Configuration {
        RearmKeepsSettings(cfg, d, r);
      }
    }
  }

  lemma LimitsDetermined(cfg: Config, d: Device, e: Device)
    requires BothAgree(cfg, d, e) && AbsentSame(cfg, d, e)
    ensures d.inMin == e.inMin && d.inMax == e.inMax
  {
    forall i: nat | i < VIN_LIMITS
      ensures d.inMin[i] == e.inMin[i] && d.inMax[i] == e.inMax[i]
    {
      var r, r' := VinMin(i), VinMax(i);
      assert Agrees(cfg, e, r, d.Read(cfg, r)) && Agrees(cfg, e, r', d.Read(cfg, r'));
    }
  }

  lemma TempsDetermined(cfg: Config, d: Device, e: Device)
    requires BothAgree(cfg, d, e) && AbsentSame(cfg, d, e)
    ensures d.tempMin == e.tempMin && d.tempMax == e.tempMax && d.tempOff == e.tempOff
  {
    forall i: nat | i < TEMPS
      ensures d.tempMin[i] == e.tempMin[i] && d.tempMax[i] == e.tempMax[i] && d.tempOff[i] == e.tempOff[i]
    {
      var lo, hi, off := TempLow(i), TempHigh(i), TempOffset(i);
      assert Agrees(cfg, e, lo, d.Read(cfg, lo)) && Agrees(cfg, e, hi, d.Read(cfg, hi))
             && Agrees(cfg, e, off, d.Read(cfg, off));
    }
  }

  lemma FanByItsBytes(cfg: Config, v: FanCount, w: FanCount, lo: int, hi: int)
    requires v % 0x100 == w % 0x100 == lo
    requires if cfg.fans16 then v / 0x100 == w / 0x100 == hi else v < 0x100 && w < 0x100
    ensures v == w
  {
    if cfg.fans16 {
      SameBytes(v, w);
    }
  }

  lemma FanDetermined(cfg: Config, d: Device, e: Device, i: nat)
    requires BothAgree(cfg, d, e) && i < FANS && cfg.hasFan[i]
    ensures d.fanMin[i] == e.fanMin[i]
  {
    var lo, hi := FanMin(i), FanXMin(i);
    var vl, vh := d.Read(cfg, lo), d.Read(cfg, hi);
    assert Agrees(cfg, e, lo, vl) && Agrees(cfg, d, lo, vl);
    assert Agrees(cfg, e, hi, vh) && Agrees(cfg, d, hi, vh);
    FanByItsBytes(cfg, d.fanMin[i], e.fanMin[i], vl as int, vh as int);
  }

  lemma FansDetermined(cfg: Config, d: Device, e: Device)
    requires BothAgree(cfg, d, e) && AbsentSame(cfg, d, e)
    ensures d.fanMin == e.fanMin && d.fanDiv == e.fanDiv
  {
    forall i: nat | i < FANS
      ensures d.fanMin[i] == e.fanMin[i]
    {
      if cfg.hasFan[i] {
        FanDetermined(cfg, d, e, i);
      }
    }
    DivsDetermined(cfg, d, e);
  }

  lemma DivsDetermined(cfg: Config, d: Device, e: Device)
    requires BothAgree(cfg, d, e) && (!cfg.HasDividers() ==> e.fanDiv == d.fanDiv)
    ensures d.fanDiv == e.fanDiv
  {
    assert Agrees(cfg, e, FanDiv, d.Read(cfg, FanDiv)) && Agrees(cfg, d, FanDiv, d.Read(cfg, FanDiv));
  }

  lemma BothTripAgree(cfg: Config, d: Device, e: Device, i: nat, k: nat)
    requires BothAgree(cfg, d, e) && i < PWMS && cfg.hasPwm[i] && k < if i < 3 then 8 else 6
    ensures TripAgrees(cfg, d.chan[i], k, d.Read(cfg, Auto(i, k)))
    ensures TripAgrees(cfg, e.chan[i], k, d.Read(cfg, Auto(i, k)))
  {
    var r := Auto(i, k);
    assert Agrees(cfg, e, r, d.Read(cfg, r)) && Agrees(cfg, d, r, d.Read(cfg, r));
  }

  lemma ChannelDetermined(cfg: Config, d: Device, e: Device, i: nat)
    requires BothAgree(cfg, d, e) && AbsentSame(cfg, d, e) && i < PWMS
    ensures d.chan[i].ctrl == e.chan[i].ctrl && SameTrips(cfg, d.chan[i], e.chan[i])
  {
    if cfg.hasPwm[i] {
      var c, c' := d.chan[i], e.chan[i];
      var n := if i < 3 then 8 else 6;
      var v := seq(n, k requires 0 <= k < n => d.Read(cfg, Auto(i, k)));
      assert Agrees(cfg, e, Pwm(i), d.Read(cfg, Pwm(i)));
      forall k: nat | k < n
        ensures TripAgrees(cfg, c, k, v[k]) && TripAgrees(cfg, c', k, v[k])
      {
        BothTripAgree(cfg, d, e, i, k);
      }
      TripsDetermined(cfg, c, c', v);
    }
  }

  lemma TripsDetermined(cfg: Config, c: Channel, c': Channel, v: seq<bv8>)
    requires if cfg.oldAutopwm then |v| == 8 && !cfg.newerAutopwm else 6 <= |v| <= 8
    requires forall k: nat :: k < |v| ==> TripAgrees(cfg, c, k, v[k]) && TripAgrees(cfg, c', k, v[k])
    requires c.autoPwm[3] == c'.autoPwm[3] && (!cfg.oldAutopwm ==> c.autoTemp[4] == c'.autoTemp[4])
    ensures SameTrips(cfg, c, c')
  {
    assert TripAgrees(cfg, c, 0, v[0]) && TripAgrees(cfg, c, 1, v[1]) && TripAgrees(cfg, c, 2, v[2]);
    assert TripAgrees(cfg, c, 3, v[3]) && TripAgrees(cfg, c, 4, v[4]) && TripAgrees(cfg, c, 5, v[5]);
    if cfg.oldAutopwm {
      assert TripAgrees(cfg, c, 6, v[6]) && TripAgrees(cfg, c, 7, v[7]);
    }
  }

  /** Refreshing a coherent cache changes no setting in it. */
  lemma RefreshChangesNothing(cfg: Config, d: Device)
    requires Apart(cfg.addr) && Coherent(cfg, d)
    ensures SameSettings(cfg, d, Refresh(cfg, d))
  {
    RefreshBothAgree(cfg, d);
    RefreshAbsent(cfg, d);
    SettingsDetermined(cfg, d, Refresh(cfg, d));
  }

  lemma SettingsDetermined(cfg: Config, d: Device, e: Device)
    requires BothAgree(cfg, d, e) && AbsentSame(cfg, d, e)
    ensures SameSettings(cfg, d, e)
  {
    LimitsDetermined(cfg, d, e);
    TempsDetermined(cfg, d, e);
    FansDetermined(cfg, d, e);
    SinglesDetermined(cfg, d, e);
    forall i: nat | i < PWMS
      ensures d.chan[i].ctrl == e.chan[i].ctrl && SameTrips(cfg, d.chan[i], e.chan[i])
    {
      ChannelDetermined(cfg, d, e, i);
    }
  }

  lemma SinglesDetermined(cfg: Config, d: Device, e: Device)
    requires BothAgree(cfg, d, e)
    ensures d.fanMainCtrl == e.fanMainCtrl && d.sensor == e.sensor
    ensures FreqField(d.fanCtl) == FreqField(e.fanCtl) && FreqField(d.extra) == FreqField(e.extra)
  {
    assert Agrees(cfg, e, FanMainCtrl, d.Read(cfg, FanMainCtrl));
    assert Agrees(cfg, e, TempEnable, d.Read(cfg, TempEnable));
    assert Agrees(cfg, e, FanCtl, d.Read(cfg, FanCtl));
    assert Agrees(cfg, e, TempExtra, d.Read(cfg, TempExtra));
  }

  /** From any state, after the first refresh, over every run of attribute writes and refreshes: the cached
    settings are exactly the ones another refresh would read. */
  lemma CacheNeverStale(cfg: Config, d0: Device, ops: seq<Op>)
    requires Apart(cfg.addr) && AllExposed(cfg, ops)
    ensures var d := Run(cfg, Refresh(cfg, d0), ops); SameSettings(cfg, d, Refresh(cfg, d))
  {
    RefreshAgrees(cfg, d0);
    RunKeeps(cfg, Refresh(cfg, d0), ops);
    RefreshChangesNothing(cfg, Run(cfg, Refresh(cfg, d0), ops));
  }
}
