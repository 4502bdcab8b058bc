/** The register map: which address each chip family uses for what, and that no two settings share one. */
module It87Registers {

  /** The four register layouts chosen when the device is initialised. */
  datatype Layout = Standard | L8622 | L8655 | L8686

  const BANK: nat := 0x06
  const FANS: nat := 6
  const TEMPS: nat := 6
  const PWMS: nat := 6
  const VINS: nat := 13
  const VIN_LIMITS: nat := 8
  const FAN_DIVS: nat := 3

  /** A register by what it is for. The automatic-control block of a channel counts one register per offset. */
  datatype Reg =
    | Vin(i: nat) | Fan(i: nat) | FanX(i: nat) | Temp(i: nat)
    | VinMin(i: nat) | VinMax(i: nat) | FanMin(i: nat) | FanXMin(i: nat)
    | TempOffset(i: nat) | TempHigh(i: nat) | TempLow(i: nat)
    | Pwm(i: nat) | Auto(i: nat, k: nat)
    | Configuration | FanDiv | FanMainCtrl | FanCtl | TempEnable | TempExtra | BeepEnable
  {
    // Measured values; the driver only reads these.
    predicate Live() {
      Vin? || Fan? || FanX? || Temp?
    }

    predicate Exists() {
      match this
      case Vin(i) => i < VINS
      case VinMin(i) => i < VIN_LIMITS
      case VinMax(i) => i < VIN_LIMITS
      case Fan(i) => i < FANS
      case FanX(i) => i < FANS
      case FanMin(i) => i < FANS
      case FanXMin(i) => i < FANS
      case Temp(i) => i < TEMPS
      case TempOffset(i) => i < TEMPS
      case TempHigh(i) => i < TEMPS
      case TempLow(i) => i < TEMPS
      case Pwm(i) => i < PWMS
      case Auto(i, k) => i < PWMS && if i < 3 then k < 8 else k < 6
      case _ => true
    }
  }

  // The manual duty of the newer chips sits in the automatic-control block.
  function PwmDuty(i: nat): Reg {
    Auto(i, 3)
  }

  function AutoTemp(i: nat, k: nat): Reg {
    Auto(i, k)
  }

  function AutoPwm(i: nat, k: nat): Reg {
    Auto(i, 5 + k)
  }

  function AddressOf(l: Layout, r: Reg): (a: nat)
    requires r.Exists()
    ensures a < 0x100 && a != BANK
  {
    match r
    case Vin(i) => [0x20, 0x21, 0x22, 0x23, 0x24, 0x25, 0x26, 0x27, 0x28, 0x2f, 0x2c, 0x2d, 0x2e][i]
    case VinMin(i) => 0x31 + i * 2
    case VinMax(i) => 0x30 + i * 2
    case Fan(i) => if l.L8655? then [0x0d, 0x0e, 0x0f, 0x80, 0x82, 0x93][i] else [0x0d, 0x0e, 0x0f, 0x80, 0x82, 0x4c][i]
    case FanX(i) => if l.L8655? then [0x18, 0x19, 0x1a, 0x81, 0x83, 0x94][i]
      else [0x18, 0x19, 0x1a, 0x81, 0x83, 0x4d][i]
    case FanMin(i) => if l.L8655? then [0x10, 0x11, 0x12, 0x84, 0x86, 0xb2][i]
      else [0x10, 0x11, 0x12, 0x84, 0x86, 0x4e][i]
    case FanXMin(i) => if l.L8655? then [0x1b, 0x1c, 0x1d, 0x85, 0x87, 0xb3][i]
      else [0x1b, 0x1c, 0x1d, 0x85, 0x87, 0x4f][i]
    case Temp(i) => 0x29 + i
    case TempOffset(i) => if l.L8686? then [0x56, 0x57, 0x59, 0x90, 0x91, 0x92][i]
      else [0x56, 0x57, 0x59, 0x5a, 0x90, 0x91][i]
    case TempHigh(i) => if l.L8686? then [0x40, 0x42, 0x44, 0xb4, 0xb6, 0xb8][i]
      else [0x40, 0x42, 0x44, 0x46, 0xb4, 0xb6][i]
    case TempLow(i) => if l.L8686? then [0x41, 0x43, 0x45, 0xb5, 0xb7, 0xb9][i]
      else [0x41, 0x43, 0x45, 0x47, 0xb5, 0xb7][i]
    case Pwm(i) =>
      if l.L8622? || l.L8655? then [0x15, 0x16, 0x17, 0x1e, 0x1f, 0x92][i] else [0x15, 0x16, 0x17, 0x7f, 0xa7, 0xaf][i]
    case Auto(i, k) => [0x60, 0x68, 0x70, 0x78, 0xa0, 0xa8][i] + k
    case Configuration => 0x00
    case FanDiv => 0x0b
    case FanMainCtrl => 0x13
    case FanCtl => 0x14
    case TempEnable => 0x51
    case TempExtra => 0x55
    case BeepEnable => 0x5c
  }

  // The tables of a layout as the driver holds them once the device is initialised.
  function Tables(l: Layout): Reg -> nat {
    (r: Reg) => if r.Exists() then AddressOf(l, r) else 0
  }

  // ----- no two settings share an address -----

  function UseOf(l: Layout, a: nat): Reg {
    if 0x30 <= a <= 0x3f then (if a % 2 == 0 then VinMax((a - 0x30) / 2) else VinMin((a - 0x31) / 2))
    else if 0x40 <= a <= 0x45 || (!l.L8686? && 0x46 <= a <= 0x47) then
      (if a % 2 == 0 then TempHigh((a - 0x40) / 2) else TempLow((a - 0x41) / 2))
    else if 0xb4 <= a <= 0xb7 || (l.L8686? && 0xb8 <= a <= 0xb9) then
      var first := if l.L8686? then 3 else 4;
      (if a % 2 == 0 then TempHigh((a - 0xb4) / 2 + first) else TempLow((a - 0xb5) / 2 + first))
    else if 0x10 <= a <= 0x12 then FanMin(a - 0x10)
    else if a == 0x84 then FanMin(3)
    else if a == 0x86 then FanMin(4)
    else if a == (if l.L8655? then 0xb2 else 0x4e) then FanMin(5)
    else if 0x1b <= a <= 0x1d then FanXMin(a - 0x1b)
    else if a == 0x85 then FanXMin(3)
    else if a == 0x87 then FanXMin(4)
    else if a == (if l.L8655? then 0xb3 else 0x4f) then FanXMin(5)
    else if a == 0x56 then TempOffset(0)
    else if a == 0x57 then TempOffset(1)
    else if a == 0x59 then TempOffset(2)
    else if a == (if l.L8686? then 0x90 else 0x5a) then TempOffset(3)
    else if a == (if l.L8686? then 0x91 else 0x90) then TempOffset(4)
    else if a == (if l.L8686? then 0x92 else 0x91) then TempOffset(5)
    else if 0x15 <= a <= 0x17 then Pwm(a - 0x15)
    else if a == (if l.L8622? || l.L8655? then 0x1e else 0x7f) then Pwm(3)
    else if a == (if l.L8622? || l.L8655? then 0x1f else 0xa7) then Pwm(4)
    else if a == (if l.L8622? || l.L8655? then 0x92 else 0xaf) then Pwm(5)
    else if 0x60 <= a <= 0x7d then Auto((a - 0x60) / 8, (a - 0x60) % 8)
    else if 0xa0 <= a <= 0xad then Auto((a - 0xa0) / 8 + 4, (a - 0xa0) % 8)
    else if a == 0x00 then Configuration
    else if a == 0x0b then FanDiv
    else if a == 0x13 then FanMainCtrl
    else if a == 0x14 then FanCtl
    else if a == 0x51 then TempEnable
    else if a == 0x55 then TempExtra
    else BeepEnable
  }

  lemma UseOfVin(l: Layout, r: Reg)
    requires r.Exists() && (r.VinMin? || r.VinMax?)
    ensures UseOf(l, AddressOf(l, r)) == r
  {
  }

  lemma UseOfTemp(l: Layout, r: Reg)
    requires r.Exists() && (r.TempHigh? || r.TempLow?)
    ensures UseOf(l, AddressOf(l, r)) == r
  {
  }

  lemma UseOfOffset(l: Layout, r: Reg)
    requires r.Exists() && r.TempOffset?
    ensures UseOf(l, AddressOf(l, r)) == r
  {
  }

  lemma UseOfFan(l: Layout, r: Reg)
    requires r.Exists() && (r.FanMin? || r.FanXMin?)
    ensures UseOf(l, AddressOf(l, r)) == r
  {
  }

  lemma UseOfPwm(l: Layout, r: Reg)
    requires r.Exists() && r.Pwm?
    ensures UseOf(l, AddressOf(l, r)) == r
  {
  }

  lemma UseOfAuto(l: Layout, r: Reg)
    requires r.Exists() && r.Auto?
    ensures UseOf(l, AddressOf(l, r)) == r
  {
    assert AddressOf(l, r) == if r.i < 4 then 0x60 + r.i * 8 + r.k else 0xa0 + (r.i - 4) * 8 + r.k;
  }

  lemma UseOfSetting(l: Layout, r: Reg)
    requires r.Exists() && !r.Live()
    ensures UseOf(l, AddressOf(l, r)) == r
  {
    if r.VinMin? || r.VinMax? {
      UseOfVin(l, r);
    } else if r.TempHigh? || r.TempLow? {
      UseOfTemp(l, r);
    } else if r.TempOffset? {
      UseOfOffset(l, r);
    } else if r.FanMin? || r.FanXMin? {
      UseOfFan(l, r);
    } else if r.Pwm? {
      UseOfPwm(l, r);
    } else if r.Auto? {
      UseOfAuto(l, r);
    }
  }

  /** The tables of every layout are disjoint and without repetition. */
  lemma SettingsApart(l: Layout, r: Reg, r': Reg)
    requires r.Exists() && r'.Exists() && !r.Live() && !r'.Live()
    ensures AddressOf(l, r) == AddressOf(l, r') ==> r == r'
  {
    UseOfSetting(l, r);
    UseOfSetting(l, r');
  }

  /** Every register has an address, and it is never the bank register. */
  ghost predicate InRange(addr: Reg -> nat) {
    forall r: Reg {:trigger addr(r)} :: r.Exists() ==> addr(r) < 0x100 && addr(r) != BANK
  }

  /** No two settings share an address. */
  ghost predicate Apart(addr: Reg -> nat) {
    forall r: Reg, r': Reg {:trigger addr(r), addr(r')} ::
      r.Exists() && r'.Exists() && !r.Live() && !r'.Live() && addr(r) == addr(r') ==> r == r'
  }

  lemma LayoutsAreSound(l: Layout)
    ensures InRange(Tables(l)) && Apart(Tables(l))
  {
    var addr := Tables(l);
    forall r: Reg, r': Reg | r.Exists() && r'.Exists() && !r.Live() && !r'.Live() && addr(r) == addr(r')
      ensures r == r'
    {
      SettingsApart(l, r, r');
    }
  }

  /** The registers that only measure, and the beep register: the ones no inverse table is made for. */
  lemma MeasuredTable(l: Layout)
    ensures [AddressOf(l, Vin(0)), AddressOf(l, Vin(7)), AddressOf(l, Vin(8)), AddressOf(l, Vin(9)),
             AddressOf(l, Vin(10)), AddressOf(l, Vin(12))] == [0x20, 0x27, 0x28, 0x2f, 0x2c, 0x2e]
    ensures forall i: nat :: i < 8 ==> AddressOf(l, Vin(i)) == 0x20 + i
    ensures forall i: nat :: i < TEMPS ==> AddressOf(l, Temp(i)) == 0x29 + i
    ensures forall i: nat :: i < 3 ==> AddressOf(l, Fan(i)) == 0x0d + i && AddressOf(l, FanX(i)) == 0x18 + i
    ensures forall i: nat :: 3 <= i < 6 ==> AddressOf(l, FanX(i)) == AddressOf(l, Fan(i)) + 1
    ensures [AddressOf(l, Fan(3)), AddressOf(l, Fan(4)), AddressOf(l, Fan(5))] 
            == [0x80, 0x82, if l.L8655? then 0x93 else 0x4c]
    ensures AddressOf(l, BeepEnable) == 0x5c
  {
  }

  lemma ManualDutyTable(l: Layout, i: nat)
    requires i < PWMS
    ensures AddressOf(l, PwmDuty(i)) == [0x63, 0x6b, 0x73, 0x7b, 0xa3, 0xab][i]
  {
  }
}
