/** The driver itself: its fields, the chip behind its two ports, and the attribute handlers. */
module It87Driver {
  import opened Bytes
  import opened It87Window
  import opened It87Registers
  import opened It87Convert
  import opened It87Spec

  class It87 {
    const cfg: Config
    const chip: Chip
    var bank: bv8
    var valid: bool
    var inCur: VinRow
    var inMin: LimitRow
    var inMax: LimitRow
    var fanCur: FanRow
    var fanMin: FanRow
    var tempCur: TempRow
    var tempMin: TempRow
    var tempMax: TempRow
    var tempOff: TempRow
    var fanDiv: DivRow
    var beeps: bv8
    var fanMainCtrl: bv8
    var fanCtl: bv8
    var sensor: bv8
    var extra: bv8
    var chan: ChannelRow

    /** The state right after the device structure is allocated: everything zero, the bank unknown, the manual
      duties at full speed and the temperature maps one to one. */
    constructor (cfg: Config, chip: Chip)
      ensures Ready() && this.cfg == cfg && this.chip == chip && bank == UNKNOWN_BANK && !valid
      ensures forall i :: 0 <= i < PWMS ==>
                chan[i].duty == 0x7f && chan[i].tempMap as int == i && chan[i].autoPwm[3] == 0x7f
    {
      this.cfg := cfg;
      this.chip := chip;
      bank, valid := UNKNOWN_BANK, false;
      inCur, inMin, inMax := seq(VINS, i => 0), seq(VIN_LIMITS, i => 0), seq(VIN_LIMITS, i => 0);
      fanCur, fanMin, fanDiv := [0, 0, 0, 0, 0, 0], [0, 0, 0, 0, 0, 0], [0, 0, 0];
      tempCur, tempMin := seq(TEMPS, i => 0), seq(TEMPS, i => 0);
      tempMax, tempOff := seq(TEMPS, i => 0), seq(TEMPS, i => 0);
      beeps, fanMainCtrl, fanCtl, sensor, extra := 0, 0, 0, 0, 0;
      chan := [Initial(0), Initial(1), Initial(2), Initial(3), Initial(4), Initial(5)];
    }

    static function Initial(tempMap: bv8): Channel {
      Channel(0, 0x7f, tempMap, [0, 0, 0, 0x7f], [0, 0, 0, 0, 0])
    }

    // ----- what the fields stand for -----

    ghost function Seen(): Window
      reads this, chip
    {
      Window(bank, chip.bankRegister, chip.cells)
    }

    ghost predicate Ready()
      reads this, chip
    {
      Honest(chip.banked, Seen())
    }

    ghost function Regs(): RegisterFile
      reads chip
    {
      chip.cells[..0x100]
    }

    ghost function State(): Device
      reads this, chip
    {
      Device(Regs(), valid, inCur, inMin, inMax, fanCur, fanMin, tempCur, tempMin, tempMax, tempOff,
             fanDiv, beeps, fanMainCtrl, fanCtl, sensor, extra, chan)
    }

    // ----- the register window -----

    method RawRead(reg: bv8) returns (v: bv8)
      modifies chip`index
      ensures v == It87Window.RawRead(chip.banked, Seen(), reg as nat)
    {
      chip.OutAddress(reg);
      v := chip.InData();
    }

    method RawWrite(reg: bv8, v: bv8)
      modifies chip`index, chip`bankRegister, chip`cells
      ensures Seen() == It87Window.RawWrite(chip.banked, old(Seen()), reg as nat, v)
    {
      chip.OutAddress(reg);
      chip.OutData(v);
    }

    method SetBank(b: bv8)
      modifies `bank, chip`index, chip`bankRegister, chip`cells
      ensures Seen() == It87Window.SetBank(chip.banked, old(Seen()), b)
    {
      if chip.banked && b != bank {
        var breg := RawRead(BANK as bv8);
        breg := breg & 0x1f;
        breg := breg | (b << 5);
        bank := b;
        RawWrite(BANK as bv8, breg);
      }
    }

    method ReadValue(a: Address) returns (v: bv8)
      modifies `bank, chip`index, chip`bankRegister, chip`cells
      ensures (v, Seen()) == It87Window.ReadValue(chip.banked, old(Seen()), a)
    {
      ByteRoundTrip(a % 0x100);
      SetBank(BankOf(a));
      v := RawRead((a % 0x100) as bv8);
    }

    method WriteValue(a: Address, v: bv8)
      modifies `bank, chip`index, chip`bankRegister, chip`cells
      ensures Seen() == It87Window.WriteValue(chip.banked, old(Seen()), a, v)
    {
      ByteRoundTrip(a % 0x100);
      SetBank(BankOf(a));
      RawWrite((a % 0x100) as bv8, v);
    }

    static lemma Flat(c: seq<bv8>, a: nat, v: bv8)
      requires |c| == 0x800 && a < 0x100
      ensures c[..0x100][a] == c[a] && c[a := v][..0x100] == c[..0x100][a := v]
    {
    }

    // Bank zero through the window: plain memory.
    method Load(a: Address) returns (v: bv8)
      requires Ready() && a < 0x100 && a != BANK
      modifies `bank, chip`index, chip`bankRegister, chip`cells
      ensures Ready() && chip.cells == old(chip.cells) && v == chip.cells[a]
    {
      AccessHitsCell(chip.banked, Seen(), a, 0);
      v := ReadValue(a);
    }

    method Store(a: Address, v: bv8)
      requires Ready() && a < 0x100 && a != BANK
      modifies `bank, chip`index, chip`bankRegister, chip`cells
      ensures Ready() && chip.cells == old(chip.cells)[a := v]
    {
      AccessHitsCell(chip.banked, Seen(), a, v);
      WriteValue(a, v);
    }

    /** Reading a setting: its register value; no register moves. */
    method Get(r: Reg) returns (v: bv8)
      requires Ready() && r.Exists()
      modifies `bank, chip`index, chip`bankRegister, chip`cells
      ensures Ready() && Regs() == old(Regs()) && v == Regs()[cfg.addr(r)]
    {
      v := Load(cfg.addr(r));
    }

    /** Writing a setting: its register takes the value, and no other register moves. */
    method Put(r: Reg, v: bv8)
      requires Ready() && r.Exists()
      modifies `bank, chip`index, chip`bankRegister, chip`cells
      ensures Ready() && Regs() == old(Regs())[cfg.addr(r) := v]
    {
      Flat(chip.cells, cfg.addr(r), v);
      Store(cfg.addr(r), v);
    }

    // ----- refreshing the cache -----

    method ReadAutoTemp(nr: nat, point: nat, k: nat)
      requires Ready() && nr < PWMS && point < 5 && k < 6
      modifies `chan, `bank, chip`index, chip`bankRegister, chip`cells
      ensures Ready() && Regs() == old(Regs())
      ensures var c := old(chan[nr]);
              chan == old(chan)[nr := c.(autoTemp := c.autoTemp[point := RegAt(cfg, Regs(), AutoTemp(nr, k))])]
    {
      var v := Get(AutoTemp(nr, k));
      chan := chan[nr := chan[nr].(autoTemp := chan[nr].autoTemp[point := v])];
    }

    method ReadAutoPwm(nr: nat, point: nat, k: nat)
      requires Ready() && nr < PWMS && point < 4 && k < if nr < 3 then 8 else 6
      modifies `chan, `bank, chip`index, chip`bankRegister, chip`cells
      ensures Ready() && Regs() == old(Regs())
      ensures var c := old(chan[nr]);
              chan == old(chan)[nr := c.(autoPwm := c.autoPwm[point := RegAt(cfg, Regs(), Auto(nr, k))])]
    {
      var v := Get(Auto(nr, k));
      chan := chan[nr := chan[nr].(autoPwm := chan[nr].autoPwm[point := v])];
    }

    // The trip temperatures in a row of registers, from the given point on.
    method ReadAutoTemps(nr: nat, first: nat, count: nat)
      requires Ready() && nr < PWMS && first + count <= 5
      modifies `chan, `bank, chip`index, chip`bankRegister, chip`cells
      ensures Ready() && Regs() == old(Regs())
      ensures chan == old(chan)[nr := old(chan[nr]).(autoTemp := chan[nr].autoTemp)]
      ensures forall k: nat :: k < count ==> chan[nr].autoTemp[first + k] == RegAt(cfg, Regs(), AutoTemp(nr, k))
      ensures forall k: nat :: k < first || first + count <= k < 5 ==> chan[nr].autoTemp[k] == old(chan[nr]).autoTemp[k]
    {
      for i := 0 to count
        invariant Ready() && Regs() == old(Regs())
        invariant chan == old(chan)[nr := old(chan[nr]).(autoTemp := chan[nr].autoTemp)]
        invariant forall k: nat :: k < i ==> chan[nr].autoTemp[first + k] == RegAt(cfg, Regs(), AutoTemp(nr, k))
        invariant forall k: nat :: k < first || first + count <= k < 5 ==>
                  chan[nr].autoTemp[k] == old(chan[nr]).autoTemp[k]
      {
        ReadAutoTemp(nr, first + i, i);
      }
    }

    method UpdateOldTrips(nr: nat)
      requires Ready() && nr < 3
      modifies `chan, `bank, chip`index, chip`bankRegister, chip`cells
      ensures Ready() && Regs() == old(Regs())
      ensures chan == old(chan)[nr := OldTrips(cfg, Regs(), nr, old(chan[nr]))]
    {
      ReadAutoTemps(nr, 0, 5);
      ghost var c := chan[nr];
      for i := 0 to 3
        invariant Ready() && Regs() == old(Regs()) && chan == old(chan)[nr := c.(autoPwm := chan[nr].autoPwm)]
        invariant chan[nr].autoPwm[3] == c.autoPwm[3]
        invariant forall k: nat :: k < i ==> chan[nr].autoPwm[k] == RegAt(cfg, Regs(), AutoPwm(nr, k))
      {
        ReadAutoPwm(nr, i, 5 + i);
      }
      assert chan[nr].autoTemp == OldTrips(cfg, Regs(), nr, old(chan[nr])).autoTemp;
      assert chan[nr].autoPwm == OldTrips(cfg, Regs(), nr, old(chan[nr])).autoPwm;
    }

    method UpdateNewerTemps(nr: nat)
      requires Ready() && nr < PWMS
      modifies `chan, `bank, chip`index, chip`bankRegister, chip`cells
      ensures Ready() && Regs() == old(Regs())
      ensures var c := old(chan[nr]); chan == old(chan)[nr := c.(autoTemp := NewerTemps(cfg, Regs(), nr, c.autoTemp))]
    {
      ReadAutoTemp(nr, 0, 5);
      ReadAutoTemps(nr, 1, 3);
      NewerTempsAre(cfg, Regs(), nr, old(chan[nr]).autoTemp, chan[nr].autoTemp);
    }

    static lemma NewerTempsAre(cfg: Config, regs: RegisterFile, nr: nat, was: TripRow, row: TripRow)
      requires nr < PWMS && row[0] == RegAt(cfg, regs, AutoTemp(nr, 5)) && row[4] == was[4]
      requires forall k: nat :: k < 3 ==> row[1 + k] == RegAt(cfg, regs, AutoTemp(nr, k))
      ensures row == NewerTemps(cfg, regs, nr, was)
    {
    }

    method UpdateNewerTrips(nr: nat)
      requires Ready() && nr < PWMS
      modifies `chan, `bank, chip`index, chip`bankRegister, chip`cells
      ensures Ready() && Regs() == old(Regs())
      ensures chan == old(chan)[nr := NewerTrips(cfg, Regs(), nr, old(chan[nr]))]
    {
      UpdateNewerTemps(nr);
      ghost var c := chan[nr];
      ReadAutoPwm(nr, 0, 3);
      ReadAutoPwm(nr, 1, 4);
      assert chan[nr].autoPwm == NewerDuties(cfg, Regs(), nr, c.autoPwm);
      assert chan[nr] == c.(autoPwm := chan[nr].autoPwm);
    }

    method UpdateControl(nr: nat)
      requires Ready() && nr < PWMS
      modifies `chan, `bank, chip`index, chip`bankRegister, chip`cells
      ensures Ready() && Regs() == old(Regs())
      ensures chan == old(chan)[nr := It87Spec.UpdateControl(cfg, Regs(), nr, old(chan[nr]))]
    {
      var ctrl := Get(Pwm(nr));
      var c := chan[nr].(ctrl := ctrl);
      if cfg.newerAutopwm {
        var duty := Get(PwmDuty(nr));
        c := c.(tempMap := ctrl & 0x03, duty := duty);
      } else if ctrl & 0x80 != 0 {
        c := c.(tempMap := ctrl & 0x03);
      } else {
        c := c.(duty := ctrl & 0x7f);
      }
      assert c == It87Spec.UpdateControl(cfg, Regs(), nr, old(chan[nr]));
      chan := chan[nr := c];
    }

    method UpdatePwmCtrl(nr: nat)
      requires Ready() && nr < PWMS && cfg.hasPwm[nr]
      modifies `chan, `bank, chip`index, chip`bankRegister, chip`cells
      ensures Ready() && Regs() == old(Regs())
      ensures chan == old(chan)[nr := UpdateChannel(cfg, Regs(), nr, old(chan[nr]))]
    {
      UpdateControl(nr);
      if cfg.oldAutopwm {
        UpdateOldTrips(nr);
      } else if cfg.newerAutopwm {
        UpdateNewerTrips(nr);
      }
    }

    method UpdateInput(i: nat)
      requires Ready() && i < VINS && cfg.hasIn[i]
      modifies `inCur, `inMin, `inMax, `bank, chip`index, chip`bankRegister, chip`cells
      ensures Ready() && Regs() == old(Regs())
      ensures inCur == old(inCur)[i := RegAt(cfg, Regs(), Vin(i))]
      ensures inMin == if i < VIN_LIMITS then old(inMin)[i := RegAt(cfg, Regs(), VinMin(i))] else old(inMin)
      ensures inMax == if i < VIN_LIMITS then old(inMax)[i := RegAt(cfg, Regs(), VinMax(i))] else old(inMax)
    {
      var cur := Get(Vin(i));
      inCur := inCur[i := cur];
      // The battery and analog supply voltages have no limit registers.
      if i < VIN_LIMITS {
        var min := Get(VinMin(i));
        inMin := inMin[i := min];
        var max := Get(VinMax(i));
        inMax := inMax[i := max];
      }
    }

    // A row that has been reread up to entry n.
    static ghost predicate Partly(cfg: Config, regs: RegisterFile, n: nat, reg: nat -> Reg, has: seq<bool>,
                                  was: seq<bv8>, row: seq<bv8>)
      requires |row| == |was| <= |has| && forall k: nat :: k < |was| ==> reg(k).Exists()
    {
      forall k: nat :: k < |was| ==> row[k] == if k < n && has[k] then RegAt(cfg, regs, reg(k)) else was[k]
    }

    static ghost predicate InputsPartly(cfg: Config, regs: RegisterFile, n: nat, d: Device, cur: VinRow, min: LimitRow,
                                        max: LimitRow) {
      && Partly(cfg, regs, n, VinAt, cfg.hasIn, d.inCur, cur)
      && Partly(cfg, regs, n, VinMinAt, cfg.hasIn, d.inMin, min)
      && Partly(cfg, regs, n, VinMaxAt, cfg.hasIn, d.inMax, max)
    }

    static lemma InputsStep(cfg: Config, regs: RegisterFile, i: nat, d: Device, cur: VinRow, min: LimitRow,
                            max: LimitRow)
      requires i < VINS && InputsPartly(cfg, regs, i, d, cur, min, max)
      ensures !cfg.hasIn[i] ==> InputsPartly(cfg, regs, i + 1, d, cur, min, max)
      ensures cfg.hasIn[i] ==>
                InputsPartly(cfg, regs, i + 1, d, cur[i := RegAt(cfg, regs, Vin(i))],
                             if i < VIN_LIMITS then min[i := RegAt(cfg, regs, VinMin(i))] else min,
                             if i < VIN_LIMITS then max[i := RegAt(cfg, regs, VinMax(i))] else max)
    {
    }

    static lemma InputsDone(cfg: Config, regs: RegisterFile, d: Device, cur: VinRow, min: LimitRow, max: LimitRow)
      requires InputsPartly(cfg, regs, VINS, d, cur, min, max)
      ensures cur == VinCurs(cfg, regs, d.inCur) && min == VinMins(cfg, regs, d.inMin)
              && max == VinMaxs(cfg, regs, d.inMax)
    {
    }

    method UpdateInputs()
      requires Ready()
      modifies `inCur, `inMin, `inMax, `bank, chip`index, chip`bankRegister, chip`cells
      ensures Ready() && Regs() == old(Regs())
      ensures inCur == VinCurs(cfg, Regs(), old(inCur))
      ensures inMin == VinMins(cfg, Regs(), old(inMin))
      ensures inMax == VinMaxs(cfg, Regs(), old(inMax))
    {
      ghost var d := State();
      for i := 0 to VINS
        invariant Ready() && Regs() == d.regs
        invariant InputsPartly(cfg, d.regs, i, d, inCur, inMin, inMax)
      {
        InputsStep(cfg, d.regs, i, d, inCur, inMin, inMax);
        if cfg.hasIn[i] {
          UpdateInput(i);
        }
      }
      InputsDone(cfg, d.regs, d, inCur, inMin, inMax);
    }

    method ReadFan(lo: Reg, hi: Reg) returns (v: FanCount)
      requires Ready() && lo.Exists() && hi.Exists()
      modifies `bank, chip`index, chip`bankRegister, chip`cells
      ensures Ready() && Regs() == old(Regs())
      ensures v == FanValue(cfg, RegAt(cfg, Regs(), lo), RegAt(cfg, Regs(), hi))
    {
      var l := Get(lo);
      v := l as int;
      // The high byte counts in 16-bit mode only.
      if cfg.fans16 {
        var h := Get(hi);
        v := v + h as int * 0x100;
      }
    }

    method UpdateFan(i: nat)
      requires Ready() && i < FANS && cfg.hasFan[i]
      modifies `fanCur, `fanMin, `bank, chip`index, chip`bankRegister, chip`cells
      ensures Ready() && Regs() == old(Regs())
      ensures fanMin == old(fanMin)[i := FanNow(cfg, Regs(), FanMinAt, FanXMinAt, old(fanMin), i)]
      ensures fanCur == old(fanCur)[i := FanNow(cfg, Regs(), FanAt, FanXAt, old(fanCur), i)]
    {
      var min := ReadFan(FanMin(i), FanXMin(i));
      fanMin := fanMin[i := min];
      var cur := ReadFan(Fan(i), FanX(i));
      fanCur := fanCur[i := cur];
    }

    static ghost predicate FansPartly(cfg: Config, regs: RegisterFile, n: nat, d: Device, min: FanRow, cur: FanRow) {
      && (forall k: nat :: k < FANS ==>
            min[k] == if k < n then FanNow(cfg, regs, FanMinAt, FanXMinAt, d.fanMin, k) else d.fanMin[k])
      && (forall k: nat :: k < FANS ==>
            cur[k] == if k < n then FanNow(cfg, regs, FanAt, FanXAt, d.fanCur, k) else d.fanCur[k])
    }

    static lemma FansStep(cfg: Config, regs: RegisterFile, i: nat, d: Device, min: FanRow, cur: FanRow)
      requires i < FANS && FansPartly(cfg, regs, i, d, min, cur)
      ensures !cfg.hasFan[i] ==> FansPartly(cfg, regs, i + 1, d, min, cur)
      ensures cfg.hasFan[i] ==>
                FansPartly(cfg, regs, i + 1, d, min[i := FanNow(cfg, regs, FanMinAt, FanXMinAt, min, i)],
                           cur[i := FanNow(cfg, regs, FanAt, FanXAt, cur, i)])
    {
    }

    static lemma FansDone(cfg: Config, regs: RegisterFile, d: Device, min: FanRow, cur: FanRow)
      requires FansPartly(cfg, regs, FANS, d, min, cur)
      ensures min == FanMins(cfg, regs, d.fanMin) && cur == FanCurs(cfg, regs, d.fanCur)
    {
    }

    method UpdateFans()
      requires Ready()
      modifies `fanCur, `fanMin, `bank, chip`index, chip`bankRegister, chip`cells
      ensures Ready() && Regs() == old(Regs())
      ensures fanMin == FanMins(cfg, Regs(), old(fanMin))
      ensures fanCur == FanCurs(cfg, Regs(), old(fanCur))
    {
      ghost var d := State();
      for i := 0 to FANS
        invariant Ready() && Regs() == d.regs
        invariant FansPartly(cfg, d.regs, i, d, fanMin, fanCur)
      {
        FansStep(cfg, d.regs, i, d, fanMin, fanCur);
        if cfg.hasFan[i] {
          UpdateFan(i);
        }
      }
      FansDone(cfg, d.regs, d, fanMin, fanCur);
    }

    method UpdateTemp(i: nat)
      requires Ready() && i < TEMPS && cfg.hasTemp[i]
      modifies `tempCur, `tempMin, `tempMax, `tempOff, `bank, chip`index, chip`bankRegister, chip`cells
      ensures Ready() && Regs() == old(Regs())
      ensures tempCur == old(tempCur)[i := RegAt(cfg, Regs(), Temp(i))]
      ensures tempMin == if i < cfg.numTempLimit then old(tempMin)[i := RegAt(cfg, Regs(), TempLow(i))]
              else old(tempMin)
      ensures tempMax == if i < cfg.numTempLimit then old(tempMax)[i := RegAt(cfg, Regs(), TempHigh(i))]
              else old(tempMax)
      ensures tempOff == if i < cfg.numTempLimit && cfg.tempOffset
                         then old(tempOff)[i := RegAt(cfg, Regs(), TempOffset(i))]
                         else old(tempOff)
    {
      var cur := Get(Temp(i));
      tempCur := tempCur[i := cur];
      if i < cfg.numTempLimit {
        UpdateTempLimits(i);
      }
    }

    method UpdateTempLimits(i: nat)
      requires Ready() && i < TEMPS
      modifies `tempMin, `tempMax, `tempOff, `bank, chip`index, chip`bankRegister, chip`cells
      ensures Ready() && Regs() == old(Regs())
      ensures tempMin == old(tempMin)[i := RegAt(cfg, Regs(), TempLow(i))]
      ensures tempMax == old(tempMax)[i := RegAt(cfg, Regs(), TempHigh(i))]
      ensures tempOff == if cfg.tempOffset then old(tempOff)[i := RegAt(cfg, Regs(), TempOffset(i))] else old(tempOff)
    {
      if cfg.tempOffset {
        var off := Get(TempOffset(i));
        tempOff := tempOff[i := off];
      }
      var lo := Get(TempLow(i));
      tempMin := tempMin[i := lo];
      var hi := Get(TempHigh(i));
      tempMax := tempMax[i := hi];
    }

    static ghost predicate TempsPartly(cfg: Config, regs: RegisterFile, n: nat, d: Device, cur: TempRow, min: TempRow,
                                       max: TempRow, off: TempRow) {
      && Partly(cfg, regs, n, TempAt, cfg.hasTemp, d.tempCur, cur)
      && Partly(cfg, regs, n, TempLowAt, TempLimits(cfg), d.tempMin, min)
      && Partly(cfg, regs, n, TempHighAt, TempLimits(cfg), d.tempMax, max)
      && (if cfg.tempOffset then Partly(cfg, regs, n, TempOffsetAt, TempLimits(cfg), d.tempOff, off)
          else off == d.tempOff)
    }

    static lemma TempsStep(cfg: Config, regs: RegisterFile, i: nat, d: Device, cur: TempRow, min: TempRow, max: TempRow,
                           off: TempRow)
      requires i < TEMPS && TempsPartly(cfg, regs, i, d, cur, min, max, off)
      ensures !cfg.hasTemp[i] ==> TempsPartly(cfg, regs, i + 1, d, cur, min, max, off)
      ensures cfg.hasTemp[i] ==>
                TempsPartly(cfg, regs, i + 1, d, cur[i := RegAt(cfg, regs, Temp(i))],
                            if i < cfg.numTempLimit then min[i := RegAt(cfg, regs, TempLow(i))] else min,
                            if i < cfg.numTempLimit then max[i := RegAt(cfg, regs, TempHigh(i))] else max,
                            if i < cfg.numTempLimit && cfg.tempOffset then off[i := RegAt(cfg, regs, TempOffset(i))]
                            else off)
    {
    }

    static lemma TempsDone(cfg: Config, regs: RegisterFile, d: Device, cur: TempRow, min: TempRow, max: TempRow,
                           off: TempRow)
      requires TempsPartly(cfg, regs, TEMPS, d, cur, min, max, off)
      ensures cur == TempCurs(cfg, regs, d.tempCur)
      ensures min == TempMins(cfg, regs, d.tempMin)
      ensures max == TempMaxs(cfg, regs, d.tempMax)
      ensures off == TempOffs(cfg, regs, d.tempOff)
    {
    }

    method UpdateTemps()
      requires Ready()
      modifies `tempCur, `tempMin, `tempMax, `tempOff, `bank, chip`index, chip`bankRegister, chip`cells
      ensures Ready() && Regs() == old(Regs())
      ensures tempCur == TempCurs(cfg, Regs(), old(tempCur))
      ensures tempMin == TempMins(cfg, Regs(), old(tempMin))
      ensures tempMax == TempMaxs(cfg, Regs(), old(tempMax))
      ensures tempOff == TempOffs(cfg, Regs(), old(tempOff))
    {
      ghost var d := State();
      for i := 0 to TEMPS
        invariant Ready() && Regs() == d.regs
        invariant TempsPartly(cfg, d.regs, i, d, tempCur, tempMin, tempMax, tempOff)
      {
        TempsStep(cfg, d.regs, i, d, tempCur, tempMin, tempMax, tempOff);
        if cfg.hasTemp[i] {
          UpdateTemp(i);
        }
      }
      TempsDone(cfg, d.regs, d, tempCur, tempMin, tempMax, tempOff);
    }

    method UpdateChannels()
      requires Ready()
      modifies `chan, `bank, chip`index, chip`bankRegister, chip`cells
      ensures Ready() && Regs() == old(Regs())
      ensures chan == It87Spec.RereadChannels(cfg, Regs(), old(chan))
    {
      for i := 0 to PWMS
        invariant Ready() && Regs() == old(Regs())
        invariant forall k: nat :: k < PWMS ==>
          chan[k] == if k < i && cfg.hasPwm[k] then UpdateChannel(cfg, Regs(), k, old(chan)[k]) else old(chan)[k]
      {
        if cfg.hasPwm[i] {
          UpdatePwmCtrl(i);
        }
      }
    }

    method UpdateDivs()
      requires Ready()
      modifies `fanDiv, `bank, chip`index, chip`bankRegister, chip`cells
      ensures Ready() && Regs() == old(Regs())
      ensures fanDiv == Divs(cfg, Regs(), old(fanDiv))
    {
      // Newer chips have no clock dividers.
      if cfg.HasDividers() {
        var i := Get(FanDiv);
        fanDiv := [i & 0x07, (i >> 3) & 0x07, if i & 0x40 != 0 then 3 else 1];
      }
    }

    method UpdateFanControls()
      requires Ready()
      modifies `beeps, `fanMainCtrl, `fanCtl, `bank, chip`index, chip`bankRegister, chip`cells
      ensures Ready() && Regs() == old(Regs())
      ensures beeps == RegAt(cfg, Regs(), BeepEnable) && fanMainCtrl == RegAt(cfg, Regs(), FanMainCtrl)
      ensures fanCtl == RegAt(cfg, Regs(), FanCtl)
    {
      beeps := Get(BeepEnable);
      fanMainCtrl := Get(FanMainCtrl);
      fanCtl := Get(FanCtl);
    }

    method UpdateSensors()
      requires Ready()
      modifies `sensor, `extra, `bank, chip`index, chip`bankRegister, chip`cells
      ensures Ready() && Regs() == old(Regs())
      ensures sensor == RegAt(cfg, Regs(), TempEnable) && extra == RegAt(cfg, Regs(), TempExtra)
    {
      sensor := Get(TempEnable);
      extra := Get(TempExtra);
    }

    method RearmBattery()
      requires Ready()
      modifies `bank, chip`index, chip`bankRegister, chip`cells
      ensures Ready() && State() == Rearm(cfg, old(State()))
    {
      if cfg.updateVbat {
        var conf := Get(Configuration);
        Put(Configuration, conf | 0x40);
      }
    }

    // A refresh, group by group.

    method RereadInputs()
      requires Ready()
      modifies `inCur, `inMin, `inMax, `bank, chip`index, chip`bankRegister, chip`cells
      ensures Ready()
      ensures State() == old(State()).(
                inCur := VinCurs(cfg, old(Regs()), old(inCur)), inMin := VinMins(cfg, old(Regs()), old(inMin)),
                inMax := VinMaxs(cfg, old(Regs()), old(inMax)))
    {
      ghost var d, regs := State(), Regs();
      UpdateInputs();
      assert inCur == VinCurs(cfg, regs, d.inCur);
      assert inMin == VinMins(cfg, regs, d.inMin) && inMax == VinMaxs(cfg, regs, d.inMax);
      assert State() == d.(inCur := inCur, inMin := inMin, inMax := inMax);
    }

    method RereadFans()
      requires Ready()
      modifies `fanCur, `fanMin, `bank, chip`index, chip`bankRegister, chip`cells
      ensures Ready()
      ensures State() == old(State()).(
                fanCur := FanCurs(cfg, old(Regs()), old(fanCur)), fanMin := FanMins(cfg, old(Regs()), old(fanMin)))
    {
      ghost var d := State();
      UpdateFans();
      assert State() == d.(fanCur := fanCur, fanMin := fanMin);
    }

    method RereadTemps()
      requires Ready()
      modifies `tempCur, `tempMin, `tempMax, `tempOff, `bank, chip`index, chip`bankRegister, chip`cells
      ensures Ready()
      ensures State() == old(State()).(
                tempCur := TempCurs(cfg, old(Regs()), old(tempCur)),
                tempMin := TempMins(cfg, old(Regs()), old(tempMin)),
                tempMax := TempMaxs(cfg, old(Regs()), old(tempMax)),
                tempOff := TempOffs(cfg, old(Regs()), old(tempOff)))
    {
      ghost var d, regs := State(), Regs();
      UpdateTemps();
      assert tempCur == TempCurs(cfg, regs, d.tempCur) && tempMin == TempMins(cfg, regs, d.tempMin);
      assert tempMax == TempMaxs(cfg, regs, d.tempMax) && tempOff == TempOffs(cfg, regs, d.tempOff);
      assert State() == d.(tempCur := tempCur, tempMin := tempMin, tempMax := tempMax, tempOff := tempOff);
    }

    method RereadDivs()
      requires Ready()
      modifies `fanDiv, `bank, chip`index, chip`bankRegister, chip`cells
      ensures Ready()
      ensures State() == old(State()).(
                fanDiv := Divs(cfg, old(Regs()), old(fanDiv)))
    {
      ghost var d := State();
      UpdateDivs();
      assert State() == d.(fanDiv := fanDiv);
    }

    method RereadFanControls()
      requires Ready()
      modifies `beeps, `fanMainCtrl, `fanCtl, `bank, chip`index, chip`bankRegister, chip`cells
      ensures Ready()
      ensures State() == old(State()).(
                beeps := RegAt(cfg, old(Regs()), BeepEnable), fanMainCtrl := RegAt(cfg, old(Regs()), FanMainCtrl),
                fanCtl := RegAt(cfg, old(Regs()), FanCtl))
    {
      ghost var d := State();
      UpdateFanControls();
      assert State() == d.(beeps := beeps, fanMainCtrl := fanMainCtrl, fanCtl := fanCtl);
    }

    method RereadChannels()
      requires Ready()
      modifies `chan, `bank, chip`index, chip`bankRegister, chip`cells
      ensures Ready()
      ensures State() == old(State()).(
                chan := It87Spec.RereadChannels(cfg, old(Regs()), old(chan)))
    {
      ghost var d := State();
      UpdateChannels();
      assert State() == d.(chan := chan);
    }

    method RereadSensors()
      requires Ready()
      modifies `sensor, `extra, `bank, chip`index, chip`bankRegister, chip`cells
      ensures Ready()
      ensures State() == old(State()).(
                sensor := RegAt(cfg, old(Regs()), TempEnable), extra := RegAt(cfg, old(Regs()), TempExtra))
    {
      ghost var d := State();
      UpdateSensors();
      assert State() == d.(sensor := sensor, extra := extra);
    }

    method RereadLimits()
      requires Ready()
      modifies `inCur, `inMin, `inMax, `fanCur, `fanMin, `tempCur, `tempMin, `tempMax, `tempOff
      modifies `bank, chip`index, chip`bankRegister, chip`cells
      ensures Ready()
      ensures State() == old(State()).(
                inCur := VinCurs(cfg, old(Regs()), old(inCur)), inMin := VinMins(cfg, old(Regs()), old(inMin)),
                inMax := VinMaxs(cfg, old(Regs()), old(inMax)),
                fanCur := FanCurs(cfg, old(Regs()), old(fanCur)), fanMin := FanMins(cfg, old(Regs()), old(fanMin)),
                tempCur := TempCurs(cfg, old(Regs()), old(tempCur)),
                tempMin := TempMins(cfg, old(Regs()), old(tempMin)),
                tempMax := TempMaxs(cfg, old(Regs()), old(tempMax)),
                tempOff := TempOffs(cfg, old(Regs()), old(tempOff)))
    {
      RereadInputs();
      RereadFans();
      RereadTemps();
    }

    method RereadControls()
      requires Ready()
      modifies `fanDiv, `beeps, `fanMainCtrl, `fanCtl, `chan, `sensor, `extra
      modifies `bank, chip`index, chip`bankRegister, chip`cells
      ensures Ready()
      ensures State() == old(State()).(
                fanDiv := Divs(cfg, old(Regs()), old(fanDiv)), beeps := RegAt(cfg, old(Regs()), BeepEnable),
                fanMainCtrl := RegAt(cfg, old(Regs()), FanMainCtrl), fanCtl := RegAt(cfg, old(Regs()), FanCtl),
                chan := It87Spec.RereadChannels(cfg, old(Regs()), old(chan)),
                sensor := RegAt(cfg, old(Regs()), TempEnable), extra := RegAt(cfg, old(Regs()), TempExtra))
    {
      RereadDivs();
      RereadFanControls();
      RereadChannels();
      RereadSensors();
    }

    method RefreshNow()
      requires Ready()
      modifies this, chip`index, chip`bankRegister, chip`cells
      ensures Ready() && State() == Refresh(cfg, old(State()))
    {
      RearmBattery();
      RereadLimits();
      RereadControls();
      valid := true;
    }

    /** The periodic refresh: nothing while the cache is young and valid. */
    method UpdateDevice(stale: bool)
      requires Ready()
      modifies this, chip`index, chip`bankRegister, chip`cells
      ensures Ready()
      ensures State() == if stale || !old(valid) then Refresh(cfg, old(State())) else old(State())
    {
      if stale || !valid {
        RefreshNow();
      }
    }

    // ----- the attributes -----

    // One register looked at, and one written, as steps on the whole state.
    method Look(r: Reg) returns (v: bv8)
      requires Ready() && r.Exists()
      modifies `bank, chip`index, chip`bankRegister, chip`cells
      ensures Ready() && State() == old(State()) && v == State().Read(cfg, r)
    {
      ghost var d := State();
      v := Get(r);
      assert State() == d;
    }

    method Poke(r: Reg, v: bv8)
      requires Ready() && r.Exists()
      modifies `bank, chip`index, chip`bankRegister, chip`cells
      ensures Ready() && State() == old(State()).Write(cfg, r, v)
    {
      ghost var d := State();
      Put(r, v);
      assert State() == d.(regs := Regs());
    }

    method StoreIn(nr: nat, limit: Limit, v: bv8)
      requires Ready() && nr < VIN_LIMITS
      modifies `inMin, `inMax, `bank, chip`index, chip`bankRegister, chip`cells
      ensures Ready() && State() == It87Spec.StoreIn(cfg, old(State()), nr, limit, v)
    {
      ghost var d := State();
      if limit == Min {
        inMin := inMin[nr := v];
        assert State() == d.(inMin := inMin);
        Poke(VinMin(nr), v);
      } else {
        inMax := inMax[nr := v];
        assert State() == d.(inMax := inMax);
        Poke(VinMax(nr), v);
      }
    }

    method SetIn(nr: nat, limit: Limit, val: ULong)
      requires Ready() && nr < VIN_LIMITS
      modifies `inMin, `inMax, `bank, chip`index, chip`bankRegister, chip`cells
      ensures Ready() && State() == It87Spec.SetIn(cfg, old(State()), nr, limit, val)
    {
      StoreIn(nr, limit, InToReg(AdcLsb(cfg, nr), val) as bv8);
    }

    method EnableOffsets()
      requires Ready()
      modifies `bank, chip`index, chip`bankRegister, chip`cells
      ensures Ready() && State() == It87Spec.EnableOffsets(cfg, old(State()))
    {
      var beep := Look(BeepEnable);
      if beep & 0x80 == 0 {
        Poke(BeepEnable, beep | 0x80);
      }
    }

    method StoreOffset(nr: nat, v: bv8)
      requires Ready() && nr < TEMPS
      modifies `tempOff, `valid, `bank, chip`index, chip`bankRegister, chip`cells
      ensures Ready() && State() == It87Spec.StoreTemp(cfg, old(State()), nr, Offset, v)
    {
      EnableOffsets();
      ghost var d := State();
      valid := false;
      tempOff := tempOff[nr := v];
      assert State() == d.(valid := false, tempOff := tempOff);
      Poke(TempOffset(nr), v);
    }

    method StoreTemp(nr: nat, limit: Limit, v: bv8)
      requires Ready() && nr < TEMPS
      modifies `tempMin, `tempMax, `tempOff, `valid, `bank, chip`index, chip`bankRegister, chip`cells
      ensures Ready() && State() == It87Spec.StoreTemp(cfg, old(State()), nr, limit, v)
    {
      ghost var d := State();
      match limit
      case Min =>
        tempMin := tempMin[nr := v];
        assert State() == d.(tempMin := tempMin);
        Poke(TempLow(nr), v);
      case Max =>
        tempMax := tempMax[nr := v];
        assert State() == d.(tempMax := tempMax);
        Poke(TempHigh(nr), v);
      case Offset =>
        StoreOffset(nr, v);
    }

    method SetTemp(nr: nat, limit: Limit, val: Long)
      requires Ready() && nr < TEMPS
      modifies `tempMin, `tempMax, `tempOff, `valid, `bank, chip`index, chip`bankRegister, chip`cells
      ensures Ready() && State() == It87Spec.SetTemp(cfg, old(State()), nr, limit, val)
    {
      StoreTemp(nr, limit, ToS8(TempToReg(val)));
    }

    method StoreSensor(reg: bv8)
      requires Ready()
      modifies `sensor, `valid, `bank, chip`index, chip`bankRegister, chip`cells
      ensures Ready() && State() == It87Spec.StoreSensor(cfg, old(State()), reg)
    {
      ghost var d := State();
      valid := false;
      sensor := reg;
      assert State() == d.(valid := false, sensor := reg);
      Poke(TempEnable, reg);
    }

    method StoreExtra(e: bv8)
      requires Ready()
      modifies `extra, `bank, chip`index, chip`bankRegister, chip`cells
      ensures Ready() && State() == It87Spec.StoreExtra(cfg, old(State()), e)
    {
      ghost var d := State();
      extra := e;
      assert State() == d.(extra := e);
      Poke(TempExtra, e);
    }

    method SetTempType(nr: nat, val: Long) returns (status: Status)
      requires Ready() && nr < 3
      modifies `sensor, `extra, `valid, `bank, chip`index, chip`bankRegister, chip`cells
      ensures Ready() && (State(), status) == It87Spec.SetTempType(cfg, old(State()), nr, val)
    {
      var reg := Look(TempEnable);
      var ex := Look(TempExtra);
      if !TempTypeKnown(cfg, nr, val) {
        return Invalid;
      }
      reg, ex := TempTypeEnable(cfg, reg, nr, val), TempTypeExtra(cfg, ex, nr, val);
      StoreTempType(reg, ex, cfg.tempOldPeci[nr]);
      status := Ok;
    }

    method StoreTempType(reg: bv8, ex: bv8, oldPeci: bool)
      requires Ready()
      modifies `sensor, `extra, `valid, `bank, chip`index, chip`bankRegister, chip`cells
      ensures Ready() && State() == It87Spec.StoreTempType(cfg, old(State()), reg, ex, oldPeci)
    {
      StoreSensor(reg);
      ghost var d := State();
      if oldPeci {
        StoreExtra(ex);
      } else {
        extra := ex;
        assert State() == d.(extra := ex);
      }
    }

    method StoreFan16(nr: nat, v: FanCount)
      requires Ready() && nr < FANS
      modifies `fanMin, `bank, chip`index, chip`bankRegister, chip`cells
      ensures Ready() && State() == It87Spec.StoreFan16(cfg, old(State()), nr, v)
    {
      ghost var d := State();
      fanMin := fanMin[nr := v];
      assert State() == d.(fanMin := fanMin);
      Poke(FanMin(nr), (v % 0x100) as bv8);
      Poke(FanXMin(nr), (v / 0x100) as bv8);
    }

    method StoreFan8(nr: nat, v: FanCount)
      requires Ready() && nr < FANS && v < 0x100
      modifies `fanMin, `bank, chip`index, chip`bankRegister, chip`cells
      ensures Ready() && State() == It87Spec.StoreFan8(cfg, old(State()), nr, v)
    {
      ghost var d := State();
      fanMin := fanMin[nr := v];
      assert State() == d.(fanMin := fanMin);
      Poke(FanMin(nr), v as bv8);
    }

    // The divisor field of one fan.
    static method DivField(reg: bv8, nr: nat) returns (field: DivField)
      requires nr < FAN_DIVS
      ensures field == DecodeFanDiv(reg)[nr]
    {
      if nr == 0 {
        field := reg & 0x07;
      } else if nr == 1 {
        field := (reg >> 3) & 0x07;
      } else {
        field := if reg & 0x40 != 0 then 3 else 1;
      }
    }

    method RereadDiv(nr: nat)
      requires Ready() && nr < FAN_DIVS
      modifies `fanDiv, `bank, chip`index, chip`bankRegister, chip`cells
      ensures Ready() && State() == It87Spec.RereadDiv(cfg, old(State()), nr)
    {
      ghost var d := State();
      var reg := Look(FanDiv);
      var field := DivField(reg, nr);
      fanDiv := fanDiv[nr := field];
      assert State() == d.(fanDiv := fanDiv);
    }

    method SetFan(nr: nat, val: Long)
      requires Ready() && nr < FANS
      requires if cfg.fans16 then Dividable(val) else nr < FAN_DIVS
      modifies `fanMin, `fanDiv, `bank, chip`index, chip`bankRegister, chip`cells
      ensures Ready() && State() == It87Spec.SetFan(cfg, old(State()), nr, val)
    {
      if cfg.fans16 {
        StoreFan16(nr, Fan16ToReg(val));
      } else {
        RereadDiv(nr);
        StoreFan8(nr, FanToReg(val, DivFromReg(fanDiv[nr] as nat)));
      }
    }

    method ChooseDivisor(nr: nat, val: ULong) returns (field: DivField)
      requires nr < FAN_DIVS
      ensures field == FanDivField(nr, val)
    {
      if nr == 2 {
        field := if val < 8 then 1 else 3;
      } else {
        var answer := ComputeDivToReg(Wrap32(val));
        field := answer as bv8;
      }
    }

    method StoreDiv(nr: nat, field: DivField)
      requires Ready() && nr < FAN_DIVS
      modifies `fanDiv, `bank, chip`index, chip`bankRegister, chip`cells
      ensures Ready() && State() == It87Spec.StoreDiv(cfg, old(State()), old(fanDiv)[nr := field])
    {
      ghost var d := State();
      var before := Look(FanDiv);
      fanDiv := fanDiv[nr := field];
      assert State() == d.(fanDiv := fanDiv);
      Poke(FanDiv, EncodeFanDiv(before, fanDiv));
    }

    /** A new divisor; the rpm limit is saved before and restored after. */
    method SetFanDiv(nr: nat, val: ULong)
      requires Ready() && nr < FAN_DIVS
      modifies `fanMin, `fanDiv, `bank, chip`index, chip`bankRegister, chip`cells
      ensures Ready() && State() == It87Spec.SetFanDiv(cfg, old(State()), nr, val)
    {
      var min := FanFromReg(fanMin[nr], DivFromReg(fanDiv[nr] as nat));
      var field := ChooseDivisor(nr, val);
      StoreDiv(nr, field);
      StoreFan8(nr, FanToReg(min, DivFromReg(fanDiv[nr] as nat)));
    }

    static method Ascends(t: seq<int>, lo: nat, hi: nat) returns (ok: bool)
      requires lo <= hi < |t|
      ensures ok <==> forall k, l :: lo <= k < l <= hi ==> t[k] <= t[l]
    {
      ok := true;
      for i := lo to hi
        invariant ok <==> forall k, l :: lo <= k < l <= i ==> t[k] <= t[l]
      {
        if t[i] > t[i + 1] {
          ok := false;
        }
      }
    }

    static function TripTemps(c: Channel): seq<int> {
      seq(5, k requires 0 <= k < 5 => FromS8(c.autoTemp[k]))
    }

    static function TripDuties(c: Channel): seq<int> {
      seq(3, k requires 0 <= k < 3 => c.autoPwm[k] as int)
    }

    static lemma ThreeAscend(t: seq<int>, a: bv8, b: bv8, c: bv8)
      requires t == [a as int, b as int, c as int]
      ensures a <= b <= c <==> forall k, l :: 0 <= k < l <= 2 ==> t[k] <= t[l]
    {
      ByteOrder(a, b);
      ByteOrder(b, c);
      assert a <= b <= c <==> t[0] <= t[1] <= t[2];
    }

    static lemma DutiesAsNumbers(c: Channel)
      ensures c.autoPwm[0] <= c.autoPwm[1] <= c.autoPwm[2] <==>
              forall k, l :: 0 <= k < l <= 2 ==> TripDuties(c)[k] <= TripDuties(c)[l]
    {
      ThreeAscend(TripDuties(c), c.autoPwm[0], c.autoPwm[1], c.autoPwm[2]);
    }

    static lemma TempsAsNumbers(c: Channel)
      ensures forall k :: 0 <= k < 5 ==> TripTemps(c)[k] == FromS8(c.autoTemp[k])
    {
    }

    /** Whether the trip points of a channel are in order for its chip family. */
    static method CheckTripPoints(cfg: Config, c: Channel) returns (ok: bool)
      ensures ok <==> TripPointsOrdered(cfg, c)
    {
      ok := true;
      DutiesAsNumbers(c);
      TempsAsNumbers(c);
      if cfg.oldAutopwm {
        ok := Ascends(TripTemps(c), 0, 3);
        var duties := Ascends(TripDuties(c), 0, 2);
        ok := ok && duties;
      } else if cfg.newerAutopwm {
        ok := Ascends(TripTemps(c), 1, 3);
      }
    }

    method StoreMain(v: bv8)
      requires Ready()
      modifies `fanMainCtrl, `bank, chip`index, chip`bankRegister, chip`cells
      ensures Ready() && State() == It87Spec.StoreMain(cfg, old(State()), v)
    {
      ghost var d := State();
      fanMainCtrl := v;
      assert State() == d.(fanMainCtrl := v);
      Poke(FanMainCtrl, v);
    }

    method StoreCtrl(nr: nat, v: bv8)
      requires Ready() && nr < PWMS
      modifies `chan, `bank, chip`index, chip`bankRegister, chip`cells
      ensures Ready() && State() == It87Spec.StoreCtrl(cfg, old(State()), nr, v)
    {
      ghost var d := State();
      chan := chan[nr := chan[nr].(ctrl := v)];
      assert State() == d.(chan := chan);
      Poke(Pwm(nr), v);
    }

    method StoreDuty(nr: nat, v: bv8)
      requires Ready() && nr < PWMS
      modifies `chan, `bank, chip`index, chip`bankRegister, chip`cells
      ensures Ready() && State() == It87Spec.StoreDuty(cfg, old(State()), nr, v)
    {
      ghost var d := State();
      chan := chan[nr := chan[nr].(duty := v)];
      assert State() == d.(chan := chan);
      Poke(PwmDuty(nr), v);
    }

    method FanOn(nr: nat)
      requires Ready() && nr < 3
      modifies `bank, chip`index, chip`bankRegister, chip`cells
      ensures Ready() && State() == It87Spec.FanOn(cfg, old(State()), nr)
    {
      var tmp := Look(FanCtl);
      Poke(FanCtl, tmp | Bit(nr));
    }

    method FullOn(nr: nat)
      requires Ready() && nr < PWMS
      modifies `chan, `fanMainCtrl, `bank, chip`index, chip`bankRegister, chip`cells
      ensures Ready() && State() == It87Spec.FullOn(cfg, old(State()), nr)
    {
      if cfg.OnOff(nr) {
        FanOn(nr);
        StoreMain(fanMainCtrl & !Bit(nr));
      } else {
        StoreDuty(nr, FullSpeed(cfg));
        StoreCtrl(nr, ManualCtrl(cfg, chan[nr]));
      }
    }

    method Controlled(nr: nat, automatic: bool)
      requires Ready() && nr < PWMS
      modifies `chan, `fanMainCtrl, `bank, chip`index, chip`bankRegister, chip`cells
      ensures Ready() && State() == It87Spec.Controlled(cfg, old(State()), nr, automatic)
    {
      StoreCtrl(nr, if automatic then AutoCtrl(cfg, chan[nr]) else ManualCtrl(cfg, chan[nr]));
      if cfg.OnOff(nr) {
        StoreMain(fanMainCtrl | Bit(nr));
      }
    }

    method SetPwmEnable(nr: nat, val: Long) returns (status: Status)
      requires Ready() && nr < PWMS
      modifies `chan, `fanMainCtrl, `bank, chip`index, chip`bankRegister, chip`cells
      ensures Ready() && (State(), status) == It87Spec.SetPwmEnable(cfg, old(State()), nr, val)
    {
      if val < 0 || val > 2 {
        return Invalid;
      }
      if val == 2 {
        var ok := CheckTripPoints(cfg, chan[nr]);
        if !ok {
          return Invalid;
        }
      }
      if val == 0 {
        FullOn(nr);
      } else {
        Controlled(nr, val == 2);
      }
      status := Ok;
    }

    method RereadChannel(nr: nat)
      requires Ready() && nr < PWMS && cfg.hasPwm[nr]
      modifies `chan, `bank, chip`index, chip`bankRegister, chip`cells
      ensures Ready() && State() == It87Spec.RereadChannel(cfg, old(State()), nr)
    {
      ghost var d := State();
      UpdatePwmCtrl(nr);
      assert State() == d.(chan := chan);
    }

    method KeepDuty(nr: nat, duty: bv8)
      requires nr < PWMS
      modifies `chan
      ensures Seen() == old(Seen()) && State() == old(State()).Put(nr, old(chan[nr]).(duty := duty))
    {
      ghost var d := State();
      chan := chan[nr := chan[nr].(duty := duty)];
      assert State() == d.(chan := chan);
    }

    method StorePwm(nr: nat, duty: bv8) returns (status: Status)
      requires Ready() && nr < PWMS
      modifies `chan, `bank, chip`index, chip`bankRegister, chip`cells
      ensures Ready() && (State(), status) == It87Spec.StorePwm(cfg, old(State()), nr, duty)
    {
      status := Ok;
      if cfg.newerAutopwm {
        if chan[nr].ctrl & 0x80 != 0 {
          return Busy;
        }
        StoreDuty(nr, duty);
      } else {
        KeepDuty(nr, duty);
        if chan[nr].ctrl & 0x80 == 0 {
          StoreCtrl(nr, duty);
        }
      }
    }

    method SetPwm(nr: nat, val: Long) returns (status: Status)
      requires Ready() && nr < PWMS && cfg.hasPwm[nr]
      modifies `chan, `bank, chip`index, chip`bankRegister, chip`cells
      ensures Ready() && (State(), status) == It87Spec.SetPwm(cfg, old(State()), nr, val)
    {
      if val < 0 || val > 255 {
        return Invalid;
      }
      RereadChannel(nr);
      status := StorePwm(nr, PwmToReg(cfg, val as bv8));
    }

    method StoreTempMap(nr: nat, field: bv8)
      requires Ready() && nr < PWMS
      modifies `chan, `bank, chip`index, chip`bankRegister, chip`cells
      ensures Ready() && State() == It87Spec.StoreTempMap(cfg, old(State()), nr, field)
    {
      ghost var d := State();
      chan := chan[nr := chan[nr].(tempMap := field)];
      assert State() == d.(chan := chan);
      if chan[nr].ctrl & 0x80 != 0 {
        StoreCtrl(nr, (chan[nr].ctrl & 0xfc) | chan[nr].tempMap);
      }
    }

    method SetPwmTempMap(nr: nat, val: Long) returns (status: Status)
      requires Ready() && nr < PWMS && cfg.hasPwm[nr]
      modifies `chan, `bank, chip`index, chip`bankRegister, chip`cells
      ensures Ready() && (State(), status) == It87Spec.SetPwmTempMap(cfg, old(State()), nr, val)
    {
      var sel: int := val;
      if nr >= 3 {
        sel := Wrap64(sel - 3);
      }
      var field: bv8;
      if sel == 1 {
        field := 0;
      } else if sel == 2 {
        field := 1;
      } else if sel == 4 {
        field := 2;
      } else {
        return Invalid;
      }
      RereadChannel(nr);
      StoreTempMap(nr, field);
      status := Ok;
    }

    /** The table entry nearest to the scaled request, found from the top down. */
    method FindFreq(scaled: nat) returns (i: nat)
      ensures i == FreqIndex(scaled, 0)
    {
      i := 0;
      while i < 7
        invariant i <= 7 && FreqIndex(scaled, 0) == FreqIndex(scaled, i)
      {
        if scaled > (PwmFreq(i) + PwmFreq(i + 1)) / 2 { break; }
        i := i + 1;
      }
    }

    method StoreFanCtl(v: bv8)
      requires Ready()
      modifies `fanCtl, `bank, chip`index, chip`bankRegister, chip`cells
      ensures Ready() && State() == old(State()).(fanCtl := v).Write(cfg, FanCtl, v)
    {
      ghost var d := State();
      fanCtl := v;
      assert State() == d.(fanCtl := v);
      Poke(FanCtl, v);
    }

    method SetPwmFreq(nr: nat, val: ULong)
      requires Ready()
      modifies `fanCtl, `extra, `bank, chip`index, chip`bankRegister, chip`cells
      ensures Ready() && State() == It87Spec.SetPwmFreq(cfg, old(State()), nr, val)
    {
      var i := FindFreq(Clamp(val, 0, 1000000) * FreqScale(cfg));
      if nr == 0 {
        var v := Look(FanCtl);
        StoreFanCtl(FreqReg(v, i));
      } else {
        var v := Look(TempExtra);
        StoreExtra(FreqReg(v, i));
      }
    }

    method StoreAutoPwm(nr: nat, point: nat, k: nat, v: bv8)
      requires Ready() && nr < PWMS && point < 4 && k < if nr < 3 then 8 else 6
      modifies `chan, `bank, chip`index, chip`bankRegister, chip`cells
      ensures Ready() && State() == It87Spec.StoreAutoPwm(cfg, old(State()), nr, point, k, v)
    {
      ghost var d := State();
      chan := chan[nr := chan[nr].(autoPwm := chan[nr].autoPwm[point := v])];
      assert State() == d.(chan := chan);
      Poke(Auto(nr, k), v);
    }

    method StoreAutoTemp(nr: nat, point: nat, k: nat, v: bv8)
      requires Ready() && nr < PWMS && point < 5 && k < 6
      modifies `chan, `bank, chip`index, chip`bankRegister, chip`cells
      ensures Ready() && State() == It87Spec.StoreAutoTemp(cfg, old(State()), nr, point, k, v)
    {
      ghost var d := State();
      chan := chan[nr := chan[nr].(autoTemp := chan[nr].autoTemp[point := v])];
      assert State() == d.(chan := chan);
      Poke(AutoTemp(nr, k), v);
    }

    method SetAutoPwm(nr: nat, point: nat, val: Long) returns (status: Status)
      requires Ready() && nr < PWMS && cfg.hasPwm[nr]
      requires if cfg.newerAutopwm then point == 0 else cfg.oldAutopwm && point < 3
      modifies `chan, `bank, chip`index, chip`bankRegister, chip`cells
      ensures Ready() && (State(), status) == It87Spec.SetAutoPwm(cfg, old(State()), nr, point, val)
    {
      if val < 0 || val > 255 {
        return Invalid;
      }
      StoreAutoPwm(nr, point, if cfg.newerAutopwm then 3 else 5 + point, PwmToReg(cfg, val as bv8));
      status := Ok;
    }

    method SetAutoPwmSlope(nr: nat, val: ULong) returns (status: Status)
      requires Ready() && nr < PWMS
      modifies `chan, `bank, chip`index, chip`bankRegister, chip`cells
      ensures Ready() && (State(), status) == It87Spec.SetAutoPwmSlope(cfg, old(State()), nr, val)
    {
      if val > 127 {
        return Invalid;
      }
      StoreAutoPwm(nr, 1, 4, (chan[nr].autoPwm[1] & 0x80) | (val as bv8));
      status := Ok;
    }

    method SetAutoTemp(nr: nat, point: nat, val: Long) returns (status: Status)
      requires Ready() && nr < PWMS
      requires if cfg.newerAutopwm then point <= 3 else point <= 4
      modifies `chan, `bank, chip`index, chip`bankRegister, chip`cells
      ensures Ready() && (State(), status) == It87Spec.SetAutoTemp(cfg, old(State()), nr, point, val)
    {
      if val < -128000 || val > 127000 {
        return Invalid;
      }
      if cfg.newerAutopwm && point == 0 {
        StoreAutoTemp(nr, 0, 5, HysteresisReg(chan[nr], val));
      } else {
        StoreAutoTemp(nr, point, if cfg.newerAutopwm then point - 1 else point, ToS8(TempToReg(val)));
      }
      status := Ok;
    }
  }
}
