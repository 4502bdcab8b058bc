/** What the GPIO driver does to the pads' registers, and to one pad seen alone. */
module GpioSpec {
  import opened GpioMap

  /** A register as its 32 bits, lowest first. */
  type Word = w: seq<bool> | |w| == 32 witness seq(32, i => false)
  type Memory = s: seq<Word> | |s| == SIZE witness seq(SIZE, i => seq(32, j => false))

  const LEVEL: Bit := 0
  const OUTPUT_DIS: Bit := 8
  const INPUT_DIS: Bit := 9
  const PMODE0: Bit := 10
  const ROUTE_SCI: Bit := 19
  const RXINV: Bit := 23
  const TRIG_EDGE: Bit := 25

  const EDGE_RISING: nat := 1
  const EDGE_FALLING: nat := 2
  const EDGE_BOTH: nat := 3
  const LEVEL_HIGH: nat := 4
  const LEVEL_LOW: nat := 8

  /** One register for each address that has one. Status registers clear the bits written as one. */
  function Writel(m: Memory, a: Address, v: Word): Memory {
    m[a := if IsStatus(a) then seq(32, i requires 0 <= i < 32 => m[a][i] && !v[i]) else v]
  }

  function Only(bit: Bit): Word {
    seq(32, i => i == bit)
  }

  // ----- the configuration word, by operation -----

  // Some pads come up with another function selected.
  function Requested(w: Word): Word {
    if w[PMODE0] then w[PMODE0 := false] else w
  }

  function AsInput(w: Word): Word {
    w[OUTPUT_DIS := true][INPUT_DIS := false]
  }

  function AsOutput(w: Word, high: bool): Word {
    w[INPUT_DIS := true][OUTPUT_DIS := false][LEVEL := high]
  }

  // None of the four lowest bits turns the interrupt off.
  predicate Senses(kind: nat) {
    kind % 16 != 0
  }

  predicate KindKnown(kind: nat) {
    !Senses(kind) || kind in {EDGE_RISING, EDGE_FALLING, EDGE_BOTH, LEVEL_HIGH, LEVEL_LOW}
  }

  // Without routing and without a trigger.
  function Unrouted(w: Word): Word {
    w[17 := false][18 := false][19 := false][20 := false][25 := false][26 := false]
  }

  function Configured(w: Word, kind: nat): Word {
    var w1 := Unrouted(w);
    var w2 := w1[ROUTE_SCI := true];
    if !Senses(kind) then w1
    else if kind == EDGE_RISING then w2[TRIG_EDGE := true][RXINV := false]
    else if kind == EDGE_FALLING then w2[TRIG_EDGE := true][RXINV := true]
    else if kind == EDGE_BOTH then w2[TRIG_EDGE := true][RXINV := !w[RXINV]]
    else if kind == LEVEL_HIGH then w2[RXINV := false]
    else w2[RXINV := true]
  }

  function Flipped(w: Word): Word {
    w[RXINV := !w[RXINV]]
  }

  // ----- the registers, by operation -----

  function ClearOwner(m: Memory, r: Regs): Memory
    requires r.ownBit + 1 < 32
  {
    Writel(m, r.owner, m[r.owner][r.ownBit := false][r.ownBit + 1 := false])
  }

  function ClearHost(m: Memory, r: Regs): Memory {
    Writel(m, r.host, m[r.host][r.bit := false])
  }

  function SetEnable(m: Memory, r: Regs, on: bool): Memory {
    Writel(m, r.enable, m[r.enable][r.bit := on])
  }

  // Both owners are taken from the pad before the kind is looked at.
  function SetKindRegs(m: Memory, kind: nat, r: Regs): Memory
    requires r.ownBit + 1 < 32
  {
    var m2 := ClearHost(ClearOwner(m, r), r);
    if !KindKnown(kind) then m2
    else SetEnable(Writel(m2, r.dw0, Configured(m2[r.dw0], kind)), r, Senses(kind))
  }

  // With both edges wanted, the next edge to wait for is the other one.
  function AckRegs(m: Memory, kind: nat, r: Regs): Memory {
    if !m[r.status][r.bit] then m
    else Writel(if kind == EDGE_BOTH then Writel(m, r.dw0, Flipped(m[r.dw0])) else m, r.status, Only(r.bit))
  }

  // ----- one pad seen alone -----

  /** The two words that are the pad's own, and its bits in the registers it shares. */
  datatype PadView = PadView(dw0: Word, dw1: Word, enabled: bool, pending: bool, hosted: bool, owner0: bool,
                             owner1: bool, locked: bool, kind: nat)

  function View(m: Memory, kind: nat, r: Regs): PadView
    requires r.ownBit + 1 < 32
  {
    PadView(m[r.dw0], m[r.dw1], m[r.enable][r.bit], m[r.status][r.bit], m[r.host][r.bit], m[r.owner][r.ownBit],
            m[r.owner][r.ownBit + 1], m[r.lock][r.bit], kind)
  }

  function SetKindView(v: PadView, kind: nat): PadView {
    var v1 := v.(hosted := false, owner0 := false, owner1 := false);
    if KindKnown(kind) then v1.(dw0 := Configured(v.dw0, kind), enabled := Senses(kind), kind := kind) else v1
  }

  function AckView(v: PadView): PadView {
    if !v.pending then v
    else if v.kind == EDGE_BOTH then v.(dw0 := Flipped(v.dw0), pending := false)
    else v.(pending := false)
  }

  // Each single write, as the pad itself sees it.

  lemma ClearOwnerOnView(m: Memory, k: nat, r: Regs)
    requires Tidy(r)
    ensures View(ClearOwner(m, r), k, r) == View(m, k, r).(owner0 := false, owner1 := false)
  {
  }

  lemma ClearHostOnView(m: Memory, k: nat, r: Regs)
    requires Tidy(r)
    ensures View(ClearHost(m, r), k, r) == View(m, k, r).(hosted := false)
  {
  }

  lemma SetEnableOnView(m: Memory, k: nat, r: Regs, on: bool)
    requires Tidy(r)
    ensures View(SetEnable(m, r, on), k, r) == View(m, k, r).(enabled := on)
  {
  }

  lemma ConfigOnView(m: Memory, k: nat, r: Regs, w: Word)
    requires Tidy(r)
    ensures View(Writel(m, r.dw0, w), k, r) == View(m, k, r).(dw0 := w)
  {
  }

  lemma ClearStatusOnView(m: Memory, k: nat, r: Regs)
    requires Tidy(r)
    ensures View(Writel(m, r.status, Only(r.bit)), k, r) == View(m, k, r).(pending := false)
  {
  }

  lemma SetKindOnView(m: Memory, kind: nat, was: nat, r: Regs)
    requires Tidy(r)
    ensures View(SetKindRegs(m, kind, r), if KindKnown(kind) then kind else was, r)
            == SetKindView(View(m, was, r), kind)
  {
    var k := if KindKnown(kind) then kind else was;
    var m1 := ClearOwner(m, r);
    var m2 := ClearHost(m1, r);
    var w := Configured(m2[r.dw0], kind);
    ClearOwnerOnView(m, k, r);
    ClearHostOnView(m1, k, r);
    ConfigOnView(m2, k, r, w);
    SetEnableOnView(Writel(m2, r.dw0, w), k, r, Senses(kind));
    assert View(m2, k, r).dw0 == m[r.dw0];
  }

  lemma AckOnView(m: Memory, kind: nat, r: Regs)
    requires Tidy(r)
    ensures View(AckRegs(m, kind, r), kind, r) == AckView(View(m, kind, r))
  {
    var w := Flipped(m[r.dw0]);
    ConfigOnView(m, kind, r, w);
    ClearStatusOnView(Writel(m, r.dw0, w), kind, r);
    ClearStatusOnView(m, kind, r);
  }

  // Each single write, as another pad sees it.

  lemma ClearOwnerElsewhere(m: Memory, k: nat, r: Regs, q: Regs)
    requires Tidy(r) && Tidy(q) && RegsApart(r, q)
    ensures View(ClearOwner(m, r), k, q) == View(m, k, q)
  {
  }

  lemma ClearHostElsewhere(m: Memory, k: nat, r: Regs, q: Regs)
    requires Tidy(r) && Tidy(q) && RegsApart(r, q)
    ensures View(ClearHost(m, r), k, q) == View(m, k, q)
  {
  }

  lemma SetEnableElsewhere(m: Memory, k: nat, r: Regs, on: bool, q: Regs)
    requires Tidy(r) && Tidy(q) && RegsApart(r, q)
    ensures View(SetEnable(m, r, on), k, q) == View(m, k, q)
  {
  }

  lemma ConfigElsewhere(m: Memory, k: nat, a: Address, w: Word, q: Regs)
    requires q.ownBit + 1 < 32
    requires !IsStatus(a) && a !in {q.dw0, q.dw1, q.enable, q.status, q.host, q.owner, q.lock}
    ensures View(Writel(m, a, w), k, q) == View(m, k, q)
  {
  }

  lemma ClearStatusElsewhere(m: Memory, k: nat, r: Regs, q: Regs)
    requires Tidy(r) && Tidy(q) && RegsApart(r, q)
    ensures View(Writel(m, r.status, Only(r.bit)), k, q) == View(m, k, q)
  {
  }

  lemma SetKindElsewhere(m: Memory, kind: nat, r: Regs, was: nat, q: Regs)
    requires Tidy(r) && Tidy(q) && RegsApart(r, q)
    ensures View(SetKindRegs(m, kind, r), was, q) == View(m, was, q)
  {
    var m1 := ClearOwner(m, r);
    var m2 := ClearHost(m1, r);
    var w := Configured(m2[r.dw0], kind);
    ClearOwnerElsewhere(m, was, r, q);
    ClearHostElsewhere(m1, was, r, q);
    ConfigElsewhere(m2, was, r.dw0, w, q);
    SetEnableElsewhere(Writel(m2, r.dw0, w), was, r, Senses(kind), q);
  }

  lemma AckElsewhere(m: Memory, kind: nat, r: Regs, was: nat, q: Regs)
    requires Tidy(r) && Tidy(q) && RegsApart(r, q)
    ensures View(AckRegs(m, kind, r), was, q) == View(m, was, q)
  {
    var w := Flipped(m[r.dw0]);
    ConfigElsewhere(m, was, r.dw0, w, q);
    ClearStatusElsewhere(Writel(m, r.dw0, w), was, r, q);
    ClearStatusElsewhere(m, was, r, q);
  }
}
