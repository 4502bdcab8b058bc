/** The driver as a value: its cached fields together with the registers it can reach, and what every
  attribute does to them. */
module It87Spec {
  import opened It87Registers
  import opened It87Convert

  // ----- rows of fixed length -----

  type RegisterFile = s: seq<bv8> | |s| == 0x100 witness seq(0x100, i => 0)
  type VinRow = s: seq<bv8> | |s| == VINS witness seq(VINS, i => 0)
  type LimitRow = s: seq<bv8> | |s| == VIN_LIMITS witness seq(VIN_LIMITS, i => 0)
  type TempRow = s: seq<bv8> | |s| == TEMPS witness seq(TEMPS, i => 0)
  type FanCount = n: nat | n < 0x1_0000
  type FanRow = s: seq<FanCount> | |s| == FANS witness seq(FANS, i => 0)
  type DivField = b: bv8 | b < 8
  type DivRow = s: seq<DivField> | |s| == FAN_DIVS witness [0, 0, 0]
  type DutyRow = s: seq<bv8> | |s| == 4 witness [0, 0, 0, 0]
  type TripRow = s: seq<bv8> | |s| == 5 witness [0, 0, 0, 0, 0]
  type ChannelRow = s: seq<Channel> | |s| == PWMS
    witness seq(PWMS, i => Channel(0, 0, 0, [0, 0, 0, 0], [0, 0, 0, 0, 0]))
  type VinFlags = s: seq<bool> | |s| == VINS witness seq(VINS, i => false)
  type SixFlags = s: seq<bool> | |s| == 6 witness seq(6, i => false)

  // ----- what is fixed once the chip is known -----

  datatype Adc = Adc12mV | Adc10mV9 | Adc11mV | Adc16mV

  datatype Features = Features(
    addr: Reg -> nat,
    newerAutopwm: bool,
    oldAutopwm: bool,
    fans16: bool,
    tempOffset: bool,
    fanctlOnOff: bool,
    pwmFreq2: bool,
    adc: Adc,
    inScaled: VinFlags,
    tempPeci: SixFlags,
    tempOldPeci: SixFlags,
    numTempLimit: nat,
    hasIn: VinFlags,
    hasFan: SixFlags,
    hasTemp: SixFlags,
    hasPwm: SixFlags,
    updateVbat: bool)
  {
    /** True of every chip in the driver's table: old-style automatic control comes with fan on/off control
      and three channels, and only 16-bit fans go beyond three. */
    ghost predicate Valid() {
      && InRange(addr) && numTempLimit <= TEMPS
      && (oldAutopwm ==> !newerAutopwm && fanctlOnOff && forall i :: 3 <= i < PWMS ==> !hasPwm[i])
      && (!fans16 ==> forall i :: 3 <= i < FANS ==> !hasFan[i])
    }

    // An on/off bit exists for the first three channels of some chips only.
    predicate OnOff(nr: nat) {
      fanctlOnOff && nr < 3
    }

    predicate HasDividers() {
      (hasFan[0] || hasFan[1] || hasFan[2]) && !fans16
    }
  }

  /** The features of one supported chip. */
  type Config = f: Features | f.Valid() ghost witness PlainChip()

  ghost function PlainChip(): (f: Features)
    ensures f.Valid()
  {
    var none: SixFlags := seq(6, i => false);
    LayoutsAreSound(Standard);
    Features(Tables(Standard), false, false, true, false, false, false, Adc16mV, seq(VINS, i => false), none, none, 3,
             seq(VINS, i => false), none, none, none, false)
  }

  function AdcLsb(cfg: Config, nr: nat): (lsb: int)
    requires nr < VINS
    ensures 20 <= lsb < 0x1_0000
  {
    var lsb := match cfg.adc case Adc12mV => 120 case Adc10mV9 => 109 case Adc11mV => 110 case Adc16mV => 160;
    if cfg.inScaled[nr] then lsb * 2 else lsb
  }

  // ----- the state -----

  datatype Channel = Channel(ctrl: bv8, duty: bv8, tempMap: bv8, autoPwm: DutyRow, autoTemp: TripRow)

  datatype Device = Device(
    regs: RegisterFile,
    valid: bool,
    inCur: VinRow, inMin: LimitRow, inMax: LimitRow,
    fanCur: FanRow, fanMin: FanRow,
    tempCur: TempRow, tempMin: TempRow, tempMax: TempRow, tempOff: TempRow,
    fanDiv: DivRow,
    beeps: bv8, fanMainCtrl: bv8, fanCtl: bv8, sensor: bv8, extra: bv8,
    chan: ChannelRow)
  {
    function Read(cfg: Config, r: Reg): bv8
      requires r.Exists()
    {
      RegAt(cfg, regs, r)
    }

    function Write(cfg: Config, r: Reg, v: bv8): (d: Device)
      requires r.Exists()
    {
      this.(regs := regs[cfg.addr(r) := v])
    }

    function Put(nr: nat, c: Channel): Device
      requires nr < PWMS
    {
      this.(chan := chan[nr := c])
    }
  }

  datatype Status = Ok | Invalid | Busy

  function Bit(nr: nat): bv8
    requires nr < 8
  {
    match nr
    case 0 => 1
    case 1 => 2
    case 2 => 4
    case 3 => 8
    case 4 => 16
    case 5 => 32
    case 6 => 64
    case _ => 128
  }

  function PwmToReg(cfg: Config, val: bv8): bv8 {
    if cfg.newerAutopwm then val else val >> 1
  }

  // ----- reading everything back -----

  function RegAt(cfg: Config, regs: RegisterFile, r: Reg): bv8
    requires r.Exists()
  {
    regs[cfg.addr(r)]
  }

  // The part of a channel that shares the control register.
  function UpdateControl(cfg: Config, regs: RegisterFile, nr: nat, c: Channel): (c': Channel)
    requires nr < PWMS
    ensures c'.autoPwm == c.autoPwm && c'.autoTemp == c.autoTemp
  {
    var ctrl := RegAt(cfg, regs, Pwm(nr));
    var c1 := c.(ctrl := ctrl);
    if cfg.newerAutopwm then c1.(tempMap := ctrl & 0x03, duty := RegAt(cfg, regs, PwmDuty(nr)))
    else if ctrl & 0x80 != 0 then c1.(tempMap := ctrl & 0x03)
    else c1.(duty := ctrl & 0x7f)
  }

  function OldTrips(cfg: Config, regs: RegisterFile, nr: nat, c: Channel): Channel
    requires nr < 3
  {
    c.(autoTemp := seq(5, k requires 0 <= k < 5 => RegAt(cfg, regs, AutoTemp(nr, k))),
       autoPwm := seq(3, k requires 0 <= k < 3 => RegAt(cfg, regs, AutoPwm(nr, k))) + c.autoPwm[3..])
  }

  // Offset 5 is the hysteresis, 0 to 2 the trip temperatures, 3 the start duty, 4 the slope.
  function NewerTemps(cfg: Config, regs: RegisterFile, nr: nat, was: TripRow): TripRow
    requires nr < PWMS
  {
    [RegAt(cfg, regs, AutoTemp(nr, 5))] + seq(3, k requires 0 <= k < 3 => RegAt(cfg, regs, AutoTemp(nr, k))) + was[4..]
  }

  function NewerDuties(cfg: Config, regs: RegisterFile, nr: nat, was: DutyRow): DutyRow
    requires nr < PWMS
  {
    [RegAt(cfg, regs, AutoTemp(nr, 3)), RegAt(cfg, regs, AutoTemp(nr, 4))] + was[2..]
  }

  function NewerTrips(cfg: Config, regs: RegisterFile, nr: nat, c: Channel): Channel
    requires nr < PWMS
  {
    c.(autoTemp := NewerTemps(cfg, regs, nr, c.autoTemp), autoPwm := NewerDuties(cfg, regs, nr, c.autoPwm))
  }

  function UpdateChannel(cfg: Config, regs: RegisterFile, nr: nat, c: Channel): Channel
    requires nr < PWMS && (cfg.oldAutopwm ==> nr < 3)
  {
    var c1 := UpdateControl(cfg, regs, nr, c);
    if cfg.oldAutopwm then OldTrips(cfg, regs, nr, c1)
    else if cfg.newerAutopwm then NewerTrips(cfg, regs, nr, c1)
    else c1
  }

  function DecodeFanDiv(v: bv8): DivRow
  {
    [v & 0x07, (v >> 3) & 0x07, if v & 0x40 != 0 then 3 else 1]
  }

  function FanValue(cfg: Config, lo: bv8, hi: bv8): (v: FanCount)
    ensures (!cfg.fans16 ==> v < 0x100)
  {
    if cfg.fans16 then lo as int + hi as int * 0x100 else lo as int
  }

  /** Reread a row of single registers; entries the chip lacks stay as they were. */
  function Reread(cfg: Config, regs: RegisterFile, reg: nat -> Reg, has: seq<bool>, was: seq<bv8>): (r: seq<bv8>)
    requires |was| <= |has| && forall i :: 0 <= i < |was| ==> reg(i).Exists()
    ensures |r| == |was|
    ensures forall i :: 0 <= i < |was| ==> r[i] == if has[i] then RegAt(cfg, regs, reg(i)) else was[i]
  {
    seq(|was|, i requires 0 <= i < |was| => if has[i] then RegAt(cfg, regs, reg(i)) else was[i])
  }

  function FanNow(cfg: Config, regs: RegisterFile, lo: nat -> Reg, hi: nat -> Reg, was: FanRow, i: nat): FanCount
    requires i < FANS && lo(i).Exists() && hi(i).Exists()
  {
    if cfg.hasFan[i] then FanValue(cfg, RegAt(cfg, regs, lo(i)), RegAt(cfg, regs, hi(i))) else was[i]
  }

  function RereadFans(cfg: Config, regs: RegisterFile, lo: nat -> Reg, hi: nat -> Reg, was: FanRow): (r: FanRow)
    requires forall i :: 0 <= i < FANS ==> lo(i).Exists() && hi(i).Exists()
    ensures forall i :: 0 <= i < FANS ==> r[i] == FanNow(cfg, regs, lo, hi, was, i)
  {
    [FanNow(cfg, regs, lo, hi, was, 0), FanNow(cfg, regs, lo, hi, was, 1), FanNow(cfg, regs, lo, hi, was, 2),
     FanNow(cfg, regs, lo, hi, was, 3), FanNow(cfg, regs, lo, hi, was, 4), FanNow(cfg, regs, lo, hi, was, 5)]
  }

  function RereadChannels(cfg: Config, regs: RegisterFile, was: ChannelRow): (r: ChannelRow)
    ensures forall i :: 0 <= i < PWMS ==> r[i] == if cfg.hasPwm[i] then UpdateChannel(cfg, regs, i, was[i]) else was[i]
  {
    seq(PWMS, i requires 0 <= i < PWMS => if cfg.hasPwm[i] then UpdateChannel(cfg, regs, i, was[i]) else was[i])
  }

  function TempLimits(cfg: Config): (has: SixFlags)
    ensures forall i :: 0 <= i < TEMPS ==> has[i] == HasTempLimit(cfg, i)
  {
    seq(TEMPS, i requires 0 <= i < TEMPS => HasTempLimit(cfg, i))
  }

  // The battery voltage is sampled anew when this bit is written.
  function RearmRegs(cfg: Config, regs: RegisterFile): RegisterFile {
    if cfg.updateVbat then regs[cfg.addr(Configuration) := RegAt(cfg, regs, Configuration) | 0x40] else regs
  }

  function Rearm(cfg: Config, d: Device): Device {
    d.(regs := RearmRegs(cfg, d.regs))
  }

  // The rows of registers, as functions of the channel.
  function VinAt(i: nat): Reg { Vin(i) }
  function VinMinAt(i: nat): Reg { VinMin(i) }
  function VinMaxAt(i: nat): Reg { VinMax(i) }
  function FanAt(i: nat): Reg { Fan(i) }
  function FanXAt(i: nat): Reg { FanX(i) }
  function FanMinAt(i: nat): Reg { FanMin(i) }
  function FanXMinAt(i: nat): Reg { FanXMin(i) }
  function TempAt(i: nat): Reg { Temp(i) }
  function TempLowAt(i: nat): Reg { TempLow(i) }
  function TempHighAt(i: nat): Reg { TempHigh(i) }
  function TempOffsetAt(i: nat): Reg { TempOffset(i) }

  function VinCurs(cfg: Config, regs: RegisterFile, was: VinRow): VinRow {
    Reread(cfg, regs, VinAt, cfg.hasIn, was)
  }

  function VinMins(cfg: Config, regs: RegisterFile, was: LimitRow): LimitRow {
    Reread(cfg, regs, VinMinAt, cfg.hasIn, was)
  }

  function VinMaxs(cfg: Config, regs: RegisterFile, was: LimitRow): LimitRow {
    Reread(cfg, regs, VinMaxAt, cfg.hasIn, was)
  }

  function FanCurs(cfg: Config, regs: RegisterFile, was: FanRow): FanRow {
    RereadFans(cfg, regs, FanAt, FanXAt, was)
  }

  function FanMins(cfg: Config, regs: RegisterFile, was: FanRow): FanRow {
    RereadFans(cfg, regs, FanMinAt, FanXMinAt, was)
  }

  function TempCurs(cfg: Config, regs: RegisterFile, was: TempRow): TempRow {
    Reread(cfg, regs, TempAt, cfg.hasTemp, was)
  }

  function TempMins(cfg: Config, regs: RegisterFile, was: TempRow): TempRow {
    Reread(cfg, regs, TempLowAt, TempLimits(cfg), was)
  }

  function TempMaxs(cfg: Config, regs: RegisterFile, was: TempRow): TempRow {
    Reread(cfg, regs, TempHighAt, TempLimits(cfg), was)
  }

  function TempOffs(cfg: Config, regs: RegisterFile, was: TempRow): TempRow {
    if cfg.tempOffset then Reread(cfg, regs, TempOffsetAt, TempLimits(cfg), was) else was
  }

  function Divs(cfg: Config, regs: RegisterFile, was: DivRow): DivRow {
    if cfg.HasDividers() then DecodeFanDiv(RegAt(cfg, regs, FanDiv)) else was
  }

  /** What the periodic refresh does: every setting the chip has is read back into the cache. */
  function Refresh(cfg: Config, d: Device): Device {
    var regs := RearmRegs(cfg, d.regs);
    Device(
      regs, true,
      VinCurs(cfg, regs, d.inCur), VinMins(cfg, regs, d.inMin), VinMaxs(cfg, regs, d.inMax),
      FanCurs(cfg, regs, d.fanCur), FanMins(cfg, regs, d.fanMin),
      TempCurs(cfg, regs, d.tempCur), TempMins(cfg, regs, d.tempMin), TempMaxs(cfg, regs, d.tempMax),
      TempOffs(cfg, regs, d.tempOff),
      Divs(cfg, regs, d.fanDiv),
      RegAt(cfg, regs, BeepEnable), RegAt(cfg, regs, FanMainCtrl), RegAt(cfg, regs, FanCtl),
      RegAt(cfg, regs, TempEnable), RegAt(cfg, regs, TempExtra),
      RereadChannels(cfg, regs, d.chan))
  }

  predicate HasTempLimit(cfg: Config, i: nat)
    requires i < TEMPS
  {
    cfg.hasTemp[i] && i < cfg.numTempLimit
  }

  // ----- the attributes -----

  datatype Limit = Min | Max | Offset

  function StoreIn(cfg: Config, d: Device, nr: nat, limit: Limit, v: bv8): Device
    requires nr < VIN_LIMITS
  {
    if limit == Min then d.(inMin := d.inMin[nr := v]).Write(cfg, VinMin(nr), v)
    else d.(inMax := d.inMax[nr := v]).Write(cfg, VinMax(nr), v)
  }

  function SetIn(cfg: Config, d: Device, nr: nat, limit: Limit, val: ULong): Device
    requires nr < VIN_LIMITS
  {
    StoreIn(cfg, d, nr, limit, InToReg(AdcLsb(cfg, nr), val) as bv8)
  }

  // An offset takes effect only while bit 7 of the beep register is set.
  function EnableOffsets(cfg: Config, d: Device): Device
  {
    var beep := d.Read(cfg, BeepEnable);
    if beep & 0x80 == 0 then d.Write(cfg, BeepEnable, beep | 0x80) else d
  }

  function StoreTemp(cfg: Config, d: Device, nr: nat, limit: Limit, v: bv8): Device
    requires nr < TEMPS
  {
    match limit
    case Min => d.(tempMin := d.tempMin[nr := v]).Write(cfg, TempLow(nr), v)
    case Max => d.(tempMax := d.tempMax[nr := v]).Write(cfg, TempHigh(nr), v)
    case Offset =>
      var d1 := EnableOffsets(cfg, d);
      d1.(valid := false, tempOff := d1.tempOff[nr := v]).Write(cfg, TempOffset(nr), v)
  }

  function SetTemp(cfg: Config, d: Device, nr: nat, limit: Limit, val: Long): Device
    requires nr < TEMPS
  {
    StoreTemp(cfg, d, nr, limit, ToS8(TempToReg(val)))
  }

  // Type 2 is an old name for type 4.
  predicate TempTypeKnown(cfg: Config, nr: nat, val: Long)
    requires nr < 3
  {
    val == 0 || val == 2 || val == 3 || val == 4 || (val == 6 && (cfg.tempPeci[nr] || cfg.tempOldPeci[nr]))
  }

  // The PECI sensor is named by bits 6 and 7.
  function PeciField(nr: nat): bv8
    requires nr < 3
  {
    match nr
    case 0 => 0x40
    case 1 => 0x80
    case _ => 0xc0
  }

  // The register with both bits of the sensor cleared, and the field for the digital interface too if it named this
  // sensor or is about to; then what the type sets.
  function Typed(was: bv8, lo: bv8, hi: bv8, top: bv8, peci: bool, val: Long): bv8 {
    var reg0 := was & !lo & !hi;
    var reg1 := if peci && (reg0 & 0xc0 == top || val == 6) then reg0 & 0x3f else reg0;
    if val == 3 then reg1 | lo
    else if val == 2 || val == 4 then reg1 | hi
    else if peci && val == 6 then reg1 | top
    else reg1
  }

  function TempTypeEnable(cfg: Config, reg: bv8, nr: nat, val: Long): bv8
    requires nr < 3
  {
    Typed(reg, Bit(nr), Bit(nr + 3), PeciField(nr), cfg.tempPeci[nr], val)
  }

  function TempTypeExtraCleared(cfg: Config, extra: bv8, nr: nat, val: Long): bv8
    requires nr < 3
  {
    if cfg.tempOldPeci[nr] && (extra & 0x80 != 0 || val == 6) then extra & 0x7f else extra
  }

  function TempTypeExtra(cfg: Config, extra: bv8, nr: nat, val: Long): (e: bv8)
    requires nr < 3
    ensures FreqField(e) == FreqField(extra)
    ensures !cfg.tempOldPeci[nr] ==> e == extra
  {
    var extra1 := TempTypeExtraCleared(cfg, extra, nr, val);
    if cfg.tempOldPeci[nr] && val == 6 && !cfg.tempPeci[nr] then extra1 | 0x80 else extra1
  }

  function FreqField(v: bv8): bv8 {
    (v >> 4) & 0x07
  }

  function StoreSensor(cfg: Config, d: Device, reg: bv8): Device
  {
    d.(valid := false, sensor := reg).Write(cfg, TempEnable, reg)
  }

  function StoreExtra(cfg: Config, d: Device, extra: bv8): Device
  {
    d.(extra := extra).Write(cfg, TempExtra, extra)
  }

  function StoreTempType(cfg: Config, d: Device, reg: bv8, extra: bv8, oldPeci: bool): Device
  {
    var d1 := StoreSensor(cfg, d, reg);
    if oldPeci then StoreExtra(cfg, d1, extra) else d1.(extra := extra)
  }

  function SetTempType(cfg: Config, d: Device, nr: nat, val: Long): (Device, Status)
    requires nr < 3
  {
    if !TempTypeKnown(cfg, nr, val) then (d, Invalid)
    else (StoreTempType(cfg, d, TempTypeEnable(cfg, d.Read(cfg, TempEnable), nr, val),
                        TempTypeExtra(cfg, d.Read(cfg, TempExtra), nr, val), cfg.tempOldPeci[nr]), Ok)
  }

  function StoreFan16(cfg: Config, d: Device, nr: nat, v: FanCount): Device
    requires nr < FANS
  {
    d.(fanMin := d.fanMin[nr := v])
      .Write(cfg, FanMin(nr), (v % 0x100) as bv8)
      .Write(cfg, FanXMin(nr), (v / 0x100) as bv8)
  }

  function StoreFan8(cfg: Config, d: Device, nr: nat, v: FanCount): Device
    requires nr < FANS && v < 0x100
  {
    d.(fanMin := d.fanMin[nr := v]).Write(cfg, FanMin(nr), v as bv8)
  }

  function RereadDiv(cfg: Config, d: Device, nr: nat): Device
    requires nr < FAN_DIVS
  {
    d.(fanDiv := d.fanDiv[nr := DecodeFanDiv(d.Read(cfg, FanDiv))[nr]])
  }

  function SetFan(cfg: Config, d: Device, nr: nat, val: Long): Device
    requires nr < FANS
    requires if cfg.fans16 then Dividable(val) else nr < FAN_DIVS
  {
    if cfg.fans16 then StoreFan16(cfg, d, nr, Fan16ToReg(val))
    else
      var d1 := RereadDiv(cfg, d, nr);
      StoreFan8(cfg, d1, nr, FanToReg(val, DivFromReg(d1.fanDiv[nr] as nat)))
  }

  function EncodeFanDiv(before: bv8, div: DivRow): bv8 {
    (before & 0x80) | (div[0] & 0x07) | ((div[1] & 0x07) << 3) | (if div[2] == 3 then 0x40 else 0)
  }

  // The third fan knows only the divisors two and eight.
  function FanDivField(nr: nat, val: ULong): DivField {
    if nr == 2 then (if val < 8 then 1 else 3) else DivToReg(Wrap32(val)) as bv8
  }

  function StoreDiv(cfg: Config, d: Device, div: DivRow): Device
  {
    d.(fanDiv := div).Write(cfg, FanDiv, EncodeFanDiv(d.Read(cfg, FanDiv), div))
  }

  function MinRpm(d: Device, nr: nat): (rpm: int)
    requires nr < FAN_DIVS
    ensures -1 <= rpm <= FAN_CLOCK
  {
    FanFromReg(d.fanMin[nr], DivFromReg(d.fanDiv[nr] as nat))
  }

  function SetFanDiv(cfg: Config, d: Device, nr: nat, val: ULong): Device
    requires nr < FAN_DIVS
  {
    var field := FanDivField(nr, val);
    StoreFan8(cfg, StoreDiv(cfg, d, d.fanDiv[nr := field]), nr, FanToReg(MinRpm(d, nr), DivFromReg(field as nat)))
  }

  /** The trip points the chip family checks, read as signed temperatures and unsigned duties. */
  ghost predicate TripPointsOrdered(cfg: Config, c: Channel) {
    && (cfg.oldAutopwm ==>
          && (forall i, j :: 0 <= i < j <= 3 ==> FromS8(c.autoTemp[i]) <= FromS8(c.autoTemp[j]))
          && c.autoPwm[0] <= c.autoPwm[1] <= c.autoPwm[2])
    && (cfg.newerAutopwm ==> forall i, j :: 1 <= i < j <= 3 ==> FromS8(c.autoTemp[i]) <= FromS8(c.autoTemp[j]))
  }

  function FullSpeed(cfg: Config): bv8 {
    PwmToReg(cfg, 0xff)
  }

  function ManualCtrl(cfg: Config, c: Channel): bv8 {
    if cfg.newerAutopwm then (c.ctrl & 0x7c) | c.tempMap else c.duty
  }

  function AutoCtrl(cfg: Config, c: Channel): bv8 {
    if cfg.newerAutopwm then (c.ctrl & 0x7c) | c.tempMap | 0x80 else 0x80
  }

  function StoreMain(cfg: Config, d: Device, v: bv8): Device
  {
    d.(fanMainCtrl := v).Write(cfg, FanMainCtrl, v)
  }

  function StoreCtrl(cfg: Config, d: Device, nr: nat, v: bv8): Device
    requires nr < PWMS
  {
    d.Put(nr, d.chan[nr].(ctrl := v)).Write(cfg, Pwm(nr), v)
  }

  function StoreDuty(cfg: Config, d: Device, nr: nat, v: bv8): Device
    requires nr < PWMS
  {
    d.Put(nr, d.chan[nr].(duty := v)).Write(cfg, PwmDuty(nr), v)
  }

  function FanOn(cfg: Config, d: Device, nr: nat): Device
    requires nr < 3
  {
    d.Write(cfg, FanCtl, d.Read(cfg, FanCtl) | Bit(nr))
  }

  // Fully on: by the on/off bit where there is one, by the largest manual duty elsewhere.
  function FullOn(cfg: Config, d: Device, nr: nat): Device
    requires nr < PWMS
  {
    if cfg.OnOff(nr) then StoreMain(cfg, FanOn(cfg, d, nr), d.fanMainCtrl & !Bit(nr))
    else
      var d1 := StoreDuty(cfg, d, nr, FullSpeed(cfg));
      StoreCtrl(cfg, d1, nr, ManualCtrl(cfg, d1.chan[nr]))
  }

  // Under control of the chip or of the user: the on/off bit, where there is one, hands the fan over.
  function Control(cfg: Config, d: Device, nr: nat, ctrl: bv8): Device
    requires nr < PWMS
  {
    var d1 := StoreCtrl(cfg, d, nr, ctrl);
    if cfg.OnOff(nr) then StoreMain(cfg, d1, d1.fanMainCtrl | Bit(nr)) else d1
  }

  function Controlled(cfg: Config, d: Device, nr: nat, automatic: bool): Device
    requires nr < PWMS
  {
    Control(cfg, d, nr, if automatic then AutoCtrl(cfg, d.chan[nr]) else ManualCtrl(cfg, d.chan[nr]))
  }

  ghost predicate PwmEnableAllowed(cfg: Config, d: Device, nr: nat, val: Long)
    requires nr < PWMS
  {
    0 <= val <= 2 && (val == 2 ==> TripPointsOrdered(cfg, d.chan[nr]))
  }

  ghost function SetPwmEnable(cfg: Config, d: Device, nr: nat, val: Long): (Device, Status)
    requires nr < PWMS
  {
    if !PwmEnableAllowed(cfg, d, nr, val) then (d, Invalid)
    else if val == 0 then (FullOn(cfg, d, nr), Ok)
    else (Controlled(cfg, d, nr, val == 2), Ok)
  }

  function PwmMode(cfg: Config, d: Device, nr: nat): Long
    requires nr < PWMS
  {
    ModeOf(cfg, nr, d.fanMainCtrl, d.chan[nr].ctrl, d.chan[nr].duty)
  }

  function ModeOf(cfg: Config, nr: nat, main: bv8, ctrl: bv8, duty: bv8): Long {
    if cfg.OnOff(nr) && main & Bit(nr) == 0 then 0
    else if ctrl & 0x80 != 0 then 2
    else if !cfg.OnOff(nr) && duty == FullSpeed(cfg) then 0
    else 1
  }

  predicate Automatic(d: Device, nr: nat)
    requires nr < PWMS
  {
    d.chan[nr].ctrl & 0x80 != 0
  }

  function RereadChannel(cfg: Config, d: Device, nr: nat): Device
    requires nr < PWMS && cfg.hasPwm[nr]
  {
    d.Put(nr, UpdateChannel(cfg, d.regs, nr, d.chan[nr]))
  }

  // The newer chips refuse while they are in control; the older ones keep the duty for later.
  function StorePwm(cfg: Config, d: Device, nr: nat, duty: bv8): (Device, Status)
    requires nr < PWMS
  {
    if cfg.newerAutopwm then
      if Automatic(d, nr) then (d, Busy) else (StoreDuty(cfg, d, nr, duty), Ok)
    else
      var d1 := d.Put(nr, d.chan[nr].(duty := duty));
      (if Automatic(d, nr) then d1 else StoreCtrl(cfg, d1, nr, duty), Ok)
  }

  function SetPwm(cfg: Config, d: Device, nr: nat, val: Long): (Device, Status)
    requires nr < PWMS && cfg.hasPwm[nr]
  {
    if val < 0 || val > 255 then (d, Invalid)
    else StorePwm(cfg, RereadChannel(cfg, d, nr), nr, PwmToReg(cfg, val as bv8))
  }

  function TempMapField(nr: nat, val: Long): (bv8, Status) {
    var sel := if nr >= 3 then Wrap64(val - 3) else val;
    if sel == 1 then (0, Ok) else if sel == 2 then (1, Ok) else if sel == 4 then (2, Ok) else (0, Invalid)
  }

  // Written at once in automatic mode, kept for later otherwise.
  function StoreTempMap(cfg: Config, d: Device, nr: nat, field: bv8): Device
    requires nr < PWMS
  {
    var d1 := d.Put(nr, d.chan[nr].(tempMap := field));
    if Automatic(d, nr) then StoreCtrl(cfg, d1, nr, (d.chan[nr].ctrl & 0xfc) | field) else d1
  }

  function SetPwmTempMap(cfg: Config, d: Device, nr: nat, val: Long): (Device, Status)
    requires nr < PWMS && cfg.hasPwm[nr]
  {
    var (field, status) := TempMapField(nr, val);
    if status != Ok then (d, status)
    else (StoreTempMap(cfg, RereadChannel(cfg, d, nr), nr, field), Ok)
  }

  function StoreAutoPwm(cfg: Config, d: Device, nr: nat, point: nat, k: nat, v: bv8): Device
    requires nr < PWMS && point < 4 && k < if nr < 3 then 8 else 6
  {
    d.Put(nr, d.chan[nr].(autoPwm := d.chan[nr].autoPwm[point := v])).Write(cfg, Auto(nr, k), v)
  }

  function StoreAutoTemp(cfg: Config, d: Device, nr: nat, point: nat, k: nat, v: bv8): Device
    requires nr < PWMS && point < 5 && k < 6
  {
    d.Put(nr, d.chan[nr].(autoTemp := d.chan[nr].autoTemp[point := v])).Write(cfg, AutoTemp(nr, k), v)
  }

  function SetAutoPwm(cfg: Config, d: Device, nr: nat, point: nat, val: Long): (Device, Status)
    requires nr < PWMS && cfg.hasPwm[nr]
    requires if cfg.newerAutopwm then point == 0 else cfg.oldAutopwm && point < 3
  {
    if val < 0 || val > 255 then (d, Invalid)
    else (StoreAutoPwm(cfg, d, nr, point, if cfg.newerAutopwm then 3 else 5 + point, PwmToReg(cfg, val as bv8)), Ok)
  }

  function SetAutoPwmSlope(cfg: Config, d: Device, nr: nat, val: ULong): (Device, Status)
    requires nr < PWMS
  {
    if val > 127 then (d, Invalid)
    else (StoreAutoPwm(cfg, d, nr, 1, 4, (d.chan[nr].autoPwm[1] & 0x80) | (val as bv8)), Ok)
  }

  // The hysteresis register keeps its upper three bits.
  function HysteresisReg(c: Channel, val: Long): bv8 {
    (Clamp(FromS8(c.autoTemp[1]) - TempToReg(val), 0, 0x1f) as bv8) | (c.autoTemp[0] & 0xe0)
  }

  function SetAutoTemp(cfg: Config, d: Device, nr: nat, point: nat, val: Long): (Device, Status)
    requires nr < PWMS
    requires if cfg.newerAutopwm then point <= 3 else point <= 4
  {
    if val < -128000 || val > 127000 then (d, Invalid)
    else if cfg.newerAutopwm && point == 0 then
      (StoreAutoTemp(cfg, d, nr, 0, 5, HysteresisReg(d.chan[nr], val)), Ok)
    else
      (StoreAutoTemp(cfg, d, nr, point, if cfg.newerAutopwm then point - 1 else point, ToS8(TempToReg(val))), Ok)
  }

  // ----- pwm frequencies -----

  function PwmFreq(i: nat): nat
    requires i < 8
  {
    match i
    case 0 => 48000000
    case 1 => 24000000
    case 2 => 12000000
    case 3 => 8000000
    case 4 => 6000000
    case 5 => 3000000
    case 6 => 1500000
    case 7 => 750000
  }

  function FreqScale(cfg: Config): nat {
    if cfg.newerAutopwm then 256 else 128
  }

  function FreqIndex(scaled: nat, i: nat): (r: nat)
    requires i <= 7
    ensures i <= r <= 7
    decreases 7 - i
  {
    if i == 7 || scaled > (PwmFreq(i) + PwmFreq(i + 1)) / 2 then i else FreqIndex(scaled, i + 1)
  }

  function RequestedIndex(cfg: Config, val: ULong): (r: nat)
    ensures r <= 7
  {
    FreqIndex(Clamp(val, 0, 1000000) * FreqScale(cfg), 0)
  }

  function FreqReg(v: bv8, index: nat): bv8
    requires index <= 7
  {
    (v & 0x8f) | ((index as bv8) << 4)
  }

  function SetPwmFreq(cfg: Config, d: Device, nr: nat, val: ULong): Device
  {
    var index := RequestedIndex(cfg, val);
    if nr == 0 then
      var v := FreqReg(d.Read(cfg, FanCtl), index);
      d.(fanCtl := v).Write(cfg, FanCtl, v)
    else
      StoreExtra(cfg, d, FreqReg(d.Read(cfg, TempExtra), index))
  }

  function ShownFreqIndex(cfg: Config, d: Device, nr: nat): (i: bv8)
    ensures i < 8
  {
    FreqField(if cfg.pwmFreq2 && nr == 1 then d.extra else d.fanCtl)
  }

  function ShownFreq(cfg: Config, i: nat): nat
    requires i < 8
  {
    PwmFreq(i) / FreqScale(cfg)
  }

  function ShownTempMap(d: Device, nr: nat): Long
    requires nr < PWMS
  {
    var map0 := d.chan[nr].tempMap;
    DivFromReg(if map0 >= 3 then (if nr >= 3 then 3 else 0) else map0 as nat + (if nr >= 3 then 3 else 0))
  }

  // ----- one step of a run -----

  datatype Op =
    | OpRefresh
    | OpIn(nr: nat, limit: Limit, uval: ULong)
    | OpTemp(nr: nat, limit: Limit, val: Long)
    | OpTempType(nr: nat, val: Long)
    | OpFan(nr: nat, val: Long)
    | OpFanDiv(nr: nat, uval: ULong)
    | OpPwmEnable(nr: nat, val: Long)
    | OpPwm(nr: nat, val: Long)
    | OpPwmFreq(nr: nat, uval: ULong)
    | OpPwmTempMap(nr: nat, val: Long)
    | OpAutoPwm(nr: nat, point: nat, val: Long)
    | OpAutoPwmSlope(nr: nat, uval: ULong)
    | OpAutoTemp(nr: nat, point: nat, val: Long)

  /** The attribute is there and writable on this chip. */
  ghost predicate Exposed(cfg: Config, op: Op)
  {
    match op
    case OpRefresh => true
    case OpIn(nr, limit, _) => nr < VIN_LIMITS && cfg.hasIn[nr] && limit != Offset
    case OpTemp(nr, limit, _) => nr < TEMPS && HasTempLimit(cfg, nr) && (limit == Offset ==> cfg.tempOffset)
    case OpTempType(nr, _) => nr < 3 && cfg.hasTemp[nr]
    case OpFan(nr, val) => nr < FANS && cfg.hasFan[nr] && (cfg.fans16 ==> Dividable(val))
    case OpFanDiv(nr, _) => nr < FAN_DIVS && cfg.hasFan[nr] && !cfg.fans16
    case OpPwmEnable(nr, _) => nr < PWMS && cfg.hasPwm[nr]
    case OpPwm(nr, _) => nr < PWMS && cfg.hasPwm[nr]
    case OpPwmFreq(nr, _) => nr == 0 || (nr == 1 && cfg.pwmFreq2)
    case OpPwmTempMap(nr, _) => nr < PWMS && cfg.hasPwm[nr] && (cfg.oldAutopwm || cfg.newerAutopwm)
    case OpAutoPwm(nr, point, _) =>
      nr < PWMS && cfg.hasPwm[nr] && if cfg.newerAutopwm then point == 0 else cfg.oldAutopwm && point < 3
    case OpAutoPwmSlope(nr, _) => nr < PWMS && cfg.hasPwm[nr] && cfg.newerAutopwm
    case OpAutoTemp(nr, point, _) =>
      nr < PWMS && cfg.hasPwm[nr] && if cfg.newerAutopwm then point <= 3 else cfg.oldAutopwm && point <= 4
  }

  ghost function Step(cfg: Config, d: Device, op: Op): Device
    requires Exposed(cfg, op)
  {
    match op
    case OpRefresh => Refresh(cfg, d)
    case OpIn(nr, limit, val) => SetIn(cfg, d, nr, limit, val)
    case OpTemp(nr, limit, val) => SetTemp(cfg, d, nr, limit, val)
    case OpTempType(nr, val) => SetTempType(cfg, d, nr, val).0
    case OpFan(nr, val) => SetFan(cfg, d, nr, val)
    case OpFanDiv(nr, val) => SetFanDiv(cfg, d, nr, val)
    case OpPwmEnable(nr, val) => SetPwmEnable(cfg, d, nr, val).0
    case OpPwm(nr, val) => SetPwm(cfg, d, nr, val).0
    case OpPwmFreq(nr, val) => SetPwmFreq(cfg, d, nr, val)
    case OpPwmTempMap(nr, val) => SetPwmTempMap(cfg, d, nr, val).0
    case OpAutoPwm(nr, point, val) => SetAutoPwm(cfg, d, nr, point, val).0
    case OpAutoPwmSlope(nr, val) => SetAutoPwmSlope(cfg, d, nr, val).0
    case OpAutoTemp(nr, point, val) => SetAutoTemp(cfg, d, nr, point, val).0
  }

  ghost predicate AllExposed(cfg: Config, ops: seq<Op>)
  {
    forall i :: 0 <= i < |ops| ==> Exposed(cfg, ops[i])
  }

  ghost function Run(cfg: Config, d: Device, ops: seq<Op>): Device
    requires AllExposed(cfg, ops)
    decreases |ops|
  {
    if ops == [] then d else Run(cfg, Step(cfg, d, ops[0]), ops[1..])
  }
}
