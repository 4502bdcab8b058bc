/** The register window of the IT87 environment controller.

  The chip is reached through an address port and a data port. Chips with bank select show one of eight
  banks of 256 registers at a time; bits 5-7 of register 0x06, which is visible in every bank, choose it.
  The driver hides this behind 16-bit addresses and caches the bank it selected last. */
module It87Window {
  import opened Bytes

  const BANK_REGISTER: nat := 0x06
  const UNKNOWN_BANK: bv8 := 0xff

  type Address = a: nat | a < 0x1_0000

  // ----- the hardware -----

  // Eight banks of 256 registers; only the first counts when there is no bank select.
  type Cells = s: seq<bv8> | |s| == 0x800 witness seq(0x800, i => 0)
  type Index = i: nat | i < 0x100

  class Chip {
    const banked: bool
    var cells: Cells
    var index: Index  // latched by the address port
    var bankRegister: bv8

    constructor (banked: bool, contents: Cells, bankRegister: bv8)
      ensures this.banked == banked && this.bankRegister == bankRegister && cells == contents
    {
      this.banked := banked;
      this.cells := contents;
      this.index := 0;
      this.bankRegister := bankRegister;
    }

    ghost predicate ShowsBankRegister()
      reads this
    {
      banked && index == BANK_REGISTER
    }

    function Selected(): (c: nat)
      reads this
      ensures c < 0x800
    {
      BankOffset(banked, bankRegister) + index
    }

    // outb to the address port
    method OutAddress(reg: bv8)
      modifies `index
      ensures index == reg as nat
    {
      index := reg as nat;
    }

    // inb from the data port
    method InData() returns (v: bv8)
      ensures v == if ShowsBankRegister() then bankRegister else cells[Selected()]
    {
      if banked && index == BANK_REGISTER {
        v := bankRegister;
      } else {
        v := cells[Selected()];
      }
    }

    // outb to the data port
    method OutData(v: bv8)
      modifies `bankRegister, `cells
      ensures bankRegister == if ShowsBankRegister() then v else old(bankRegister)
      ensures cells == if ShowsBankRegister() then old(cells) else old(cells)[old(Selected()) := v]
    {
      if banked && index == BANK_REGISTER {
        bankRegister := v;
      } else {
        cells := cells[Selected() := v];
      }
    }
  }

  function BankOffset(banked: bool, bankRegister: bv8): (o: nat)
    ensures o <= 0x700
  {
    if banked then (bankRegister >> 5) as nat * 0x100 else 0
  }

  // ----- the window as a value -----

  /** What the driver and the chip know together: the cached bank, the bank register, the cells. */
  datatype Window = Window(bank: bv8, bankRegister: bv8, cells: Cells)

  /** The cache is unknown, or it agrees with the bank bits of the chip. */
  ghost predicate Honest(banked: bool, w: Window) {
    banked && w.bank != UNKNOWN_BANK ==> w.bank & 0x07 == w.bankRegister >> 5
  }

  function RawRead(banked: bool, w: Window, reg: nat): bv8
    requires reg < 0x100
  {
    if banked && reg == BANK_REGISTER then w.bankRegister
    else w.cells[BankOffset(banked, w.bankRegister) + reg]
  }

  function RawWrite(banked: bool, w: Window, reg: nat, v: bv8): (w': Window)
    requires reg < 0x100
  {
    if banked && reg == BANK_REGISTER then w.(bankRegister := v)
    else w.(cells := w.cells[BankOffset(banked, w.bankRegister) + reg := v])
  }

  // The shift drops the upper bits of the bank number, as storing into a byte does.
  function SetBank(banked: bool, w: Window, bank: bv8): (w': Window)
    ensures w'.cells == w.cells
  {
    if banked && bank != w.bank then
      RawWrite(banked, w.(bank := bank), BANK_REGISTER, (RawRead(banked, w, BANK_REGISTER) & 0x1f) | (bank << 5))
    else
      w
  }

  function BankOf(a: Address): bv8 {
    (a / 0x100) as bv8
  }

  function ReadValue(banked: bool, w: Window, a: Address): (bv8, Window)
  {
    var w' := SetBank(banked, w, BankOf(a));
    (RawRead(banked, w', a % 0x100), w')
  }

  function WriteValue(banked: bool, w: Window, a: Address, v: bv8): (w': Window)
  {
    RawWrite(banked, SetBank(banked, w, BankOf(a)), a % 0x100, v)
  }

  // ----- where an address lands -----

  /** The cell behind an address: eight banks, so the bank number counts modulo eight. */
  function CellOf(banked: bool, a: Address): (c: nat)
    ensures c < 0x800
  {
    if banked then a / 0x100 % 8 * 0x100 + a % 0x100 else a % 0x100
  }

  /** Addresses for which the window is meant: not the bank register, not the number that means "unknown". */
  predicate Plain(banked: bool, a: Address) {
    banked ==> a % 0x100 != BANK_REGISTER && a < 0xff00
  }

  lemma BankBits(breg: bv8, bank: bv8)
    ensures ((breg & 0x1f) | (bank << 5)) >> 5 == bank & 0x07
    ensures ((breg & 0x1f) | (bank << 5)) & 0x1f == breg & 0x1f
  {
  }

  lemma LowThreeBits(b: bv8)
    ensures (b & 0x07) as nat == b as nat % 8
  {
  }

  lemma BankNumber(n: nat)
    requires n < 0x100
    ensures ((n as bv8) & 0x07) as nat == n % 8
    ensures (n as bv8) == UNKNOWN_BANK <==> n == 0xff
  {
    ByteRoundTrip(n);
    LowThreeBits(n as bv8);
  }

  lemma SetBankBits(banked: bool, w: Window, bank: bv8)
    requires Honest(banked, w)
    ensures var w' := SetBank(banked, w, bank);
            && Honest(banked, w')
            && w'.bankRegister & 0x1f == w.bankRegister & 0x1f
            && (banked && bank != UNKNOWN_BANK ==> w'.bankRegister >> 5 == bank & 0x07)
  {
    BankBits(w.bankRegister, bank);
  }

  /** Selecting a bank leaves an honest cache, selects that bank modulo eight, and keeps the low five bits. */
  lemma SetBankSelects(banked: bool, w: Window, a: Address)
    requires Honest(banked, w)
    ensures var w' := SetBank(banked, w, BankOf(a));
            && Honest(banked, w')
            && w'.bankRegister & 0x1f == w.bankRegister & 0x1f
            && (!banked || a < 0xff00 ==> BankOffset(banked, w'.bankRegister) + a % 0x100 == CellOf(banked, a))
  {
    SetBankBits(banked, w, BankOf(a));
    BankNumber(a / 0x100);
  }

  /** One access through the window is one access to the cell behind the address. */
  lemma AccessHitsCell(banked: bool, w: Window, a: Address, v: bv8)
    requires Honest(banked, w) && Plain(banked, a)
    ensures ReadValue(banked, w, a).0 == w.cells[CellOf(banked, a)]
    ensures ReadValue(banked, w, a).1.cells == w.cells
    ensures WriteValue(banked, w, a, v).cells == w.cells[CellOf(banked, a) := v]
    ensures Honest(banked, ReadValue(banked, w, a).1) && Honest(banked, WriteValue(banked, w, a, v))
    ensures ReadValue(banked, w, a).1.bankRegister & 0x1f == w.bankRegister & 0x1f
    ensures WriteValue(banked, w, a, v).bankRegister & 0x1f == w.bankRegister & 0x1f
  {
    SetBankSelects(banked, w, a);
  }

  // ----- runs -----

  datatype Access = Load(a: Address) | Store(a: Address, v: bv8)

  function Run(banked: bool, w: Window, accesses: seq<Access>): (r: (seq<bv8>, Window))
    decreases |accesses|
  {
    if accesses == [] then ([], w)
    else match accesses[0]
      case Load(a) =>
        var (v, w') := ReadValue(banked, w, a);
        var (vs, w'') := Run(banked, w', accesses[1..]);
        ([v] + vs, w'')
      case Store(a, v) =>
        Run(banked, WriteValue(banked, w, a, v), accesses[1..])
  }

  /** A plain memory: what each load of a run returns when every address is its own cell. */
  ghost function FlatRun(mem: Address -> bv8, accesses: seq<Access>): seq<bv8> {
    if accesses == [] then []
    else match accesses[0]
      case Load(a) => [mem(a)] + FlatRun(mem, accesses[1..])
      case Store(a, v) => FlatRun((b: Address) => if b == a then v else mem(b), accesses[1..])
  }

  ghost predicate Within(banked: bool, limit: nat, accesses: seq<Access>) {
    forall i :: 0 <= i < |accesses| ==>
      accesses[i].a < limit && (banked ==> accesses[i].a % 0x100 != BANK_REGISTER)
  }

  ghost predicate Mirrors(banked: bool, limit: nat, w: Window, mem: Address -> bv8)
  {
    forall a: Address :: a < limit && (banked ==> a % 0x100 != BANK_REGISTER) ==> mem(a) == w.cells[CellOf(banked, a)]
  }

  function Reach(banked: bool): nat {
    if banked then 0x800 else 0x100
  }

  lemma CellsAreDistinct(banked: bool, a: Address, b: Address)
    requires a < Reach(banked) && b < Reach(banked)
    ensures CellOf(banked, a) == CellOf(banked, b) ==> a == b
  {
  }

  lemma StoreMirrors(banked: bool, w: Window, w': Window, mem: Address -> bv8, mem': Address -> bv8, a: Address, v: bv8)
    requires a < Reach(banked) && Mirrors(banked, Reach(banked), w, mem)
    requires w'.cells == w.cells[CellOf(banked, a) := v]
    requires forall b: Address :: mem'(b) == if b == a then v else mem(b)
    ensures Mirrors(banked, Reach(banked), w', mem')
  {
    forall b: Address | b < Reach(banked) && (banked ==> b % 0x100 != BANK_REGISTER)
      ensures mem'(b) == w'.cells[CellOf(banked, b)]
    {
      CellsAreDistinct(banked, a, b);
    }
  }

  /** Below the reach of the window every run returns what a plain memory would return, the cache stays
    honest, and the bits of the bank register that are not the bank never change. */
  lemma {:induction false} WindowIsFlatMemory(banked: bool, w: Window, mem: Address -> bv8, accesses: seq<Access>)
    requires Honest(banked, w) && Within(banked, Reach(banked), accesses)
    requires Mirrors(banked, Reach(banked), w, mem)
    ensures Run(banked, w, accesses).0 == FlatRun(mem, accesses)
    ensures Honest(banked, Run(banked, w, accesses).1)
    ensures Run(banked, w, accesses).1.bankRegister & 0x1f == w.bankRegister & 0x1f
    decreases |accesses|
  {
    if accesses != [] {
      var a := accesses[0].a;
      match accesses[0] {
        case Load(_) =>
          AccessHitsCell(banked, w, a, 0);
          WindowIsFlatMemory(banked, ReadValue(banked, w, a).1, mem, accesses[1..]);
        case Store(_, v) =>
          AccessHitsCell(banked, w, a, v);
          var w' := WriteValue(banked, w, a, v);
          var mem' := (b: Address) => if b == a then v else mem(b);
          StoreMirrors(banked, w, w', mem, mem', a, v);
          WindowIsFlatMemory(banked, w', mem', accesses[1..]);
      }
    }
  }

  ghost predicate BehavesFlat(banked: bool, limit: nat) {
    forall w: Window, mem: Address -> bv8, accesses: seq<Access> ::
      Honest(banked, w) && Within(banked, limit, accesses) && Mirrors(banked, limit, w, mem) ==>
      Run(banked, w, accesses).0 == FlatRun(mem, accesses)
  }

  lemma TwoStoresThenLoad(banked: bool, w: Window, mem: Address -> bv8, a: Address, b: Address)
    requires Honest(banked, w) && Plain(banked, a) && Plain(banked, b) && a != b
    ensures var accesses := [Store(a, 1), Store(b, 2), Load(a)];
            && Run(banked, w, accesses).0 == [if CellOf(banked, a) == CellOf(banked, b) then 2 else 1]
            && FlatRun(mem, accesses) == [1]
  {
    var accesses := [Store(a, 1), Store(b, 2), Load(a)];
    AccessHitsCell(banked, w, a, 1);
    var w1 := WriteValue(banked, w, a, 1);
    AccessHitsCell(banked, w1, b, 2);
    var w2 := WriteValue(banked, w1, b, 2);
    AccessHitsCell(banked, w2, a, 0);
    var mem1 := (x: Address) => if x == a then 1 else mem(x);
    var mem2 := (x: Address) => if x == b then 2 else mem1(x);
    assert accesses[1..] == [Store(b, 2), Load(a)] && accesses[1..][1..] == [Load(a)] && [Load(a)][1..] == [];
    assert Run(banked, w2, [Load(a)]).0 == [ReadValue(banked, w2, a).0] + [];
    assert FlatRun(mem2, [Load(a)]) == [mem2(a)] + FlatRun(mem2, []);
    calc {
      FlatRun(mem, accesses);
      FlatRun(mem1, accesses[1..]);
      FlatRun(mem2, [Load(a)]);
      [1];
    }
  }

  /** The window is a flat memory exactly up to its reach: 0x800 addresses with bank select (bank numbers
    above seven wrap around), 0x100 without (the bank number is ignored). */
  lemma FlatExactlyWithinReach(banked: bool, limit: nat)
    requires limit <= 0x1_0000
    ensures BehavesFlat(banked, limit) <==> limit <= Reach(banked)
  {
    if limit <= Reach(banked) {
      forall w: Window, mem: Address -> bv8, accesses: seq<Access> |
        Honest(banked, w) && Within(banked, limit, accesses) && Mirrors(banked, limit, w, mem)
        ensures Run(banked, w, accesses).0 == FlatRun(mem, accesses)
      {
        var mem' := (a: Address) => if a < limit then mem(a) else w.cells[CellOf(banked, a)];
        FlatRunDependsOnLimit(banked, limit, mem, mem', accesses);
        WindowIsFlatMemory(banked, w, mem', accesses);
      }
    } else {
      var w := Window(UNKNOWN_BANK, 0, seq(0x800, i => 0));
      var mem := (a: Address) => 0 as bv8;
      var accesses := [Store(0, 1), Store(Reach(banked), 2), Load(0)];
      TwoStoresThenLoad(banked, w, mem, 0, Reach(banked));
      assert Honest(banked, w) && Within(banked, limit, accesses) && Mirrors(banked, limit, w, mem);
      assert Run(banked, w, accesses).0[0] != FlatRun(mem, accesses)[0];
    }
  }

  lemma {:induction false} FlatRunDependsOnLimit(banked: bool, limit: nat, mem: Address -> bv8, mem': Address -> bv8,
                                                  accesses: seq<Access>)
    requires Within(banked, limit, accesses)
    requires forall a: Address :: a < limit ==> mem(a) == mem'(a)
    ensures FlatRun(mem, accesses) == FlatRun(mem', accesses)
  {
    if accesses != [] {
      match accesses[0]
      case Load(_) => FlatRunDependsOnLimit(banked, limit, mem, mem', accesses[1..]);
      case Store(a, v) =>
        FlatRunDependsOnLimit(banked, limit, (b: Address) => if b == a then v else mem(b),
                              (b: Address) => if b == a then v else mem'(b), accesses[1..]);
    }
  }
}
