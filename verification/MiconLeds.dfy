/** LED registers: two bytes each, changed by reading, masking and writing back. */
module MiconLeds {
  import opened Bytes
  import opened MiconFrames
  import opened MiconCommands
  import opened MiconLine

  const LED_OFF: int := 0
  const LED_BLINK: int := 2

  type Mask = s: seq<Byte> | |s| == 2 witness [0, 0]

  // ----- bits -----

  // Bytes as their bits, lowest first.

  predicate HasBit(b: nat, i: nat) {
    if i == 0 then b % 2 == 1 else HasBit(b / 2, i - 1)
  }

  function Bits(n: nat): nat {
    if n == 0 then 1 else 2 * Bits(n - 1)
  }

  /** The low n bits: set where a has one and, by keep, m has one or has none. */
  function Combine(a: nat, m: nat, or: bool, n: nat): (r: nat)
    ensures r < Bits(n)
  {
    if n == 0 then 0
    else
      var bit := if or then a % 2 == 1 || m % 2 == 1 else a % 2 == 1 && m % 2 == 0;
      2 * Combine(a / 2, m / 2, or, n - 1) + if bit then 1 else 0
  }

  lemma Doubled(x: nat, bit: nat)
    requires bit < 2
    ensures (2 * x + bit) / 2 == x && (2 * x + bit) % 2 == bit
  {
  }

  lemma {:induction false} BitOfCombine(a: nat, m: nat, or: bool, n: nat, i: nat)
    requires i < n
    ensures HasBit(Combine(a, m, or, n), i) <==>
            if or then HasBit(a, i) || HasBit(m, i) else HasBit(a, i) && !HasBit(m, i)
    decreases n
  {
    var rest := Combine(a / 2, m / 2, or, n - 1);
    Doubled(rest, 0);
    Doubled(rest, 1);
    if i > 0 {
      BitOfCombine(a / 2, m / 2, or, n - 1, i - 1);
    }
  }

  // The bitwise or, and the bitwise and with the complement.
  function Or(a: Byte, m: Byte): Byte {
    assert Bits(8) == 0x100;
    Combine(a, m, true, 8)
  }

  function AndNot(a: Byte, m: Byte): Byte {
    assert Bits(8) == 0x100;
    Combine(a, m, false, 8)
  }

  function Change(b: Byte, on: bool, m: Byte): Byte {
    if on then Or(b, m) else AndNot(b, m)
  }

  // ----- what a call does -----

  /** Which bits of a register a call sets: all it names, those it makes blink, or those it does not turn off. */
  datatype Rule = Enable | Blink | OnOff
  {
    predicate Sets(mode: int) {
      match this
      case Enable => true
      case Blink => mode == LED_BLINK
      case OnOff => mode != LED_OFF
    }
  }

  datatype Entry = Entry(addr: Byte, rule: Rule)

  const LED_PANEL: seq<Entry> := [Entry(0x50, Enable), Entry(0x52, Blink), Entry(0x51, OnOff)]
  const SATA_PANEL: seq<Entry> := [Entry(0x59, Blink), Entry(0x58, OnOff)]

  function Changed(data: seq<Byte>, on: bool, mask: Mask): seq<Byte>
    requires |data| >= 2
  {
    [Change(data[0], on, mask[0]), Change(data[1], on, mask[1])] + data[2..]
  }

  // Anything but two bytes of data makes the driver raise.
  function Modify<W>(ch: Channel<W>, l: W, addr: Byte, on: bool, mask: Mask): (W, bool) {
    var t := SendRead(ch, l, addr);
    if !t.outcome.Answer? || |t.outcome.bytes| < 2 then (t.line, false)
    else
      var u := SendWrite(ch, t.line, 2, addr, Changed(t.outcome.bytes, on, mask));
      (u.line, !u.outcome.Raised?)
  }

  function SetLeds<W>(ch: Channel<W>, l: W, panel: seq<Entry>, mode: int, mask: Mask): (W, bool)
    decreases |panel|
  {
    if panel == [] then (l, true)
    else
      var (l1, ok) := Modify(ch, l, panel[0].addr, panel[0].rule.Sets(mode), mask);
      if ok then SetLeds(ch, l1, panel[1..], mode, mask) else (l1, false)
  }

  datatype Call = Call(mode: int, mask: Mask)

  function Calls<W>(ch: Channel<W>, l: W, panel: seq<Entry>, calls: seq<Call>): (W, bool)
    decreases |calls|
  {
    if calls == [] then (l, true)
    else
      var (l1, ok) := SetLeds(ch, l, panel, calls[0].mode, calls[0].mask);
      if ok then Calls(ch, l1, panel, calls[1..]) else (l1, false)
  }

  // ----- a device that does what it is told -----

  type Registers = map<Byte, seq<Byte>>

  /** With nothing unread on the line, a read of a two-byte register is answered with it. */
  ghost predicate ReadAnswered<W>(ch: Channel<W>, regs: W -> Registers, quiet: W -> bool, l: W, addr: Byte) {
    quiet(l) && addr in regs(l) && |regs(l)[addr]| == 2 ==>
      var (l', reply) := ch.respond(ch.write(l, ReadFrame(addr)));
      reply == Frame(0x82, addr, regs(l)[addr]) && regs(l') == regs(l) && quiet(l')
  }

  /** A write of two bytes is acknowledged and takes effect. */
  ghost predicate WriteTaken<W>(ch: Channel<W>, regs: W -> Registers, quiet: W -> bool, l: W, addr: Byte,
                                data: seq<Byte>) {
    quiet(l) && |data| == 2 ==>
      var (l', reply) := ch.respond(ch.write(l, Frame(2, addr, data)));
      reply == Frame(1, addr, [0]) && regs(l') == regs(l)[addr := data] && quiet(l')
  }

  ghost predicate Obeys<W(!new)>(ch: Channel<W>, regs: W -> Registers, quiet: W -> bool) {
    && (forall l, addr :: ReadAnswered(ch, regs, quiet, l, addr))
    && (forall l, addr, data :: WriteTaken(ch, regs, quiet, l, addr, data))
  }

  ghost predicate HasPanel(regs: Registers, panel: seq<Entry>) {
    forall k :: 0 <= k < |panel| ==> panel[k].addr in regs && |regs[panel[k].addr]| == 2
  }

  lemma ReadObeyed<W(!new)>(ch: Channel<W>, regs: W -> Registers, quiet: W -> bool, l: W, addr: Byte)
    requires Obeys(ch, regs, quiet) && quiet(l) && addr in regs(l) && |regs(l)[addr]| == 2
    ensures var t := SendRead(ch, l, addr);
            t.outcome == Answer(regs(l)[addr]) && regs(t.line) == regs(l) && quiet(t.line)
  {
    assert ReadAnswered(ch, regs, quiet, l, addr);
    var data := regs(l)[addr];
    var reply := Frame(0x82, addr, data);
    FrameWellFormed(0x82, addr, data);
    assert Payload(reply) == data;
    var t := Command(ch, l, ReadFrame(addr), RETRIES);
    assert t.outcome == Answer(reply);
  }

  lemma WriteObeyed<W(!new)>(ch: Channel<W>, regs: W -> Registers, quiet: W -> bool, l: W, addr: Byte, data: seq<Byte>)
    requires Obeys(ch, regs, quiet) && quiet(l) && addr in regs(l) && |data| == 2
    ensures var t := SendWrite(ch, l, 2, addr, data);
            t.outcome.Answer? && regs(t.line) == regs(l)[addr := data] && quiet(t.line)
  {
    assert WriteTaken(ch, regs, quiet, l, addr, data);
    FrameWellFormed(1, addr, [0]);
    assert Closed([2, addr] + data) == Frame(2, addr, data);
  }

  function SetRegister(regs: Registers, e: Entry, mode: int, mask: Mask): Registers
    requires e.addr in regs && |regs[e.addr]| == 2
  {
    regs[e.addr := Changed(regs[e.addr], e.rule.Sets(mode), mask)]
  }

  lemma ModifyObeyed<W(!new)>(ch: Channel<W>, regs: W -> Registers, quiet: W -> bool, l: W, e: Entry, mode: int,
                              mask: Mask)
    requires Obeys(ch, regs, quiet) && quiet(l) && e.addr in regs(l) && |regs(l)[e.addr]| == 2
    ensures var (l', ok) := Modify(ch, l, e.addr, e.rule.Sets(mode), mask);
            ok && quiet(l') && regs(l') == SetRegister(regs(l), e, mode, mask)
  {
    var t := SendRead(ch, l, e.addr);
    ReadObeyed(ch, regs, quiet, l, e.addr);
    WriteObeyed(ch, regs, quiet, t.line, e.addr, Changed(regs(l)[e.addr], e.rule.Sets(mode), mask));
  }

  function SetRegisters(regs: Registers, panel: seq<Entry>, mode: int, mask: Mask): (r: Registers)
    requires HasPanel(regs, panel)
    ensures r.Keys == regs.Keys
    ensures forall a :: a in regs && |regs[a]| == 2 ==> |r[a]| == 2
    decreases |panel|
  {
    if panel == [] then regs
    else
      var r1 := SetRegister(regs, panel[0], mode, mask);
      assert HasPanel(r1, panel[1..]);
      SetRegisters(r1, panel[1..], mode, mask)
  }

  lemma {:induction false} SetLedsObeyed<W(!new)>(ch: Channel<W>, regs: W -> Registers, quiet: W -> bool, l: W,
                                                 panel: seq<Entry>, mode: int, mask: Mask)
    requires Obeys(ch, regs, quiet) && quiet(l) && HasPanel(regs(l), panel)
    ensures var (l', ok) := SetLeds(ch, l, panel, mode, mask);
            ok && quiet(l') && regs(l') == SetRegisters(regs(l), panel, mode, mask)
    decreases |panel|
  {
    if panel != [] {
      ModifyObeyed(ch, regs, quiet, l, panel[0], mode, mask);
      var (l1, ok) := Modify(ch, l, panel[0].addr, panel[0].rule.Sets(mode), mask);
      SetLedsObeyed(ch, regs, quiet, l1, panel[1..], mode, mask);
    }
  }

  // A device on the serial line that obeys: it follows the frames written to it.

  function Take(regs: Registers, f: seq<Byte>): Registers {
    if WellFormed(f) && !Top(f[0]) then regs[f[1] := Payload(f)] else regs
  }

  function RegistersAfter(regs: Registers, sent: seq<seq<Byte>>): Registers {
    if sent == [] then regs
    else Take(RegistersAfter(regs, sent[..|sent| - 1]), sent[|sent| - 1])
  }

  function Reply(regs: Registers, f: seq<Byte>): seq<Byte> {
    if |f| < 3 || !Closes(f) then []
    else if !Top(f[0]) then Frame(1, f[1], [0])
    else if f[1] in regs && |regs[f[1]]| < 0x80 then Frame(0x80 + |regs[f[1]]|, f[1], regs[f[1]])
    else []
  }

  ghost predicate Faithful(dev: Device, regs: Registers) {
    && Patient(dev)
    && forall sent, f :: dev.reply(sent + [f]) == Reply(RegistersAfter(regs, sent), f)
  }

  lemma AfterOneMore(regs: Registers, sent: seq<seq<Byte>>, f: seq<Byte>)
    ensures RegistersAfter(regs, sent + [f]) == Take(RegistersAfter(regs, sent), f)
  {
    assert (sent + [f])[..|sent|] == sent;
  }

  lemma AnsweredBy(dev: Device, l: Line, f: seq<Byte>, reply: seq<Byte>)
    requires Patient(dev) && l.incoming == [] && dev.reply(l.sent + [f]) == reply && WellFormed(reply)
    ensures Respond(Wired(dev), Write(dev, l, f)) == (Line(l.sent + [f], [], l.turn + 2), reply)
  {
    var l1 := Write(dev, l, f);
    assert l1.incoming == reply + [];
    ResponseIsFrame(dev, l1, reply, []);
  }

  lemma WriteOn(dev: Device, regs: Registers, l: Line, f: seq<Byte>)
    requires Faithful(dev, regs) && l.incoming == [] && WellFormed(Reply(RegistersAfter(regs, l.sent), f))
    ensures var (l', reply) := Respond(Wired(dev), Write(dev, l, f));
            && reply == Reply(RegistersAfter(regs, l.sent), f)
            && l'.incoming == []
            && RegistersAfter(regs, l'.sent) == Take(RegistersAfter(regs, l.sent), f)
  {
    var reply := Reply(RegistersAfter(regs, l.sent), f);
    AnsweredBy(dev, l, f, reply);
    AfterOneMore(regs, l.sent, f);
  }

  lemma FaithfulReads(dev: Device, regs: Registers, l: Line, addr: Byte)
    requires Faithful(dev, regs) && l.incoming == []
    requires var r := RegistersAfter(regs, l.sent); addr in r && |r[addr]| == 2
    ensures var (l', reply) := Respond(Wired(dev), Write(dev, l, ReadFrame(addr)));
            && reply == Frame(0x82, addr, RegistersAfter(regs, l.sent)[addr])
            && RegistersAfter(regs, l'.sent) == RegistersAfter(regs, l.sent) && l'.incoming == []
  {
    CheckByteCloses([0x80, addr]);
    FrameWellFormed(0x82, addr, RegistersAfter(regs, l.sent)[addr]);
    WriteOn(dev, regs, l, ReadFrame(addr));
  }

  lemma FaithfulWrites(dev: Device, regs: Registers, l: Line, addr: Byte, data: seq<Byte>)
    requires Faithful(dev, regs) && l.incoming == [] && |data| == 2
    ensures var (l', reply) := Respond(Wired(dev), Write(dev, l, Frame(2, addr, data)));
            && reply == Frame(1, addr, [0])
            && RegistersAfter(regs, l'.sent) == RegistersAfter(regs, l.sent)[addr := data] && l'.incoming == []
  {
    FrameWellFormed(2, addr, data);
    FrameWellFormed(1, addr, [0]);
    WriteOn(dev, regs, l, Frame(2, addr, data));
    assert Payload(Frame(2, addr, data)) == data;
  }

  /** Such a device meets what is asked of it, whatever its registers hold at first. */
  lemma FaithfulObeys(dev: Device, regs: Registers)
    requires Faithful(dev, regs)
    ensures Obeys(Over(Wired(dev)), (l: Line) => RegistersAfter(regs, l.sent), (l: Line) => l.incoming == [])
  {
    var ch, r, q := Over(Wired(dev)), (l: Line) => RegistersAfter(regs, l.sent), (l: Line) => l.incoming == [];
    forall l, addr
      ensures ReadAnswered(ch, r, q, l, addr)
    {
      if q(l) && addr in r(l) && |r(l)[addr]| == 2 {
        FaithfulReads(dev, regs, l, addr);
      }
    }
    forall l, addr, data
      ensures WriteTaken(ch, r, q, l, addr, data)
    {
      if q(l) && |data| == 2 {
        FaithfulWrites(dev, regs, l, addr, data);
      }
    }
  }

  // ----- what a run of calls leaves behind -----

  function RunRegisters(regs: Registers, panel: seq<Entry>, calls: seq<Call>): (r: Registers)
    requires HasPanel(regs, panel)
    ensures HasPanel(r, panel)
    decreases |calls|
  {
    if calls == [] then regs
    else RunRegisters(SetRegisters(regs, panel, calls[0].mode, calls[0].mask), panel, calls[1..])
  }

  lemma {:induction false} CallsObeyed<W(!new)>(ch: Channel<W>, regs: W -> Registers, quiet: W -> bool, l: W,
                                               panel: seq<Entry>, calls: seq<Call>)
    requires Obeys(ch, regs, quiet) && quiet(l) && HasPanel(regs(l), panel)
    ensures var (l', ok) := Calls(ch, l, panel, calls);
            ok && quiet(l') && regs(l') == RunRegisters(regs(l), panel, calls)
    decreases |calls|
  {
    if calls != [] {
      SetLedsObeyed(ch, regs, quiet, l, panel, calls[0].mode, calls[0].mask);
      var (l1, ok) := SetLeds(ch, l, panel, calls[0].mode, calls[0].mask);
      CallsObeyed(ch, regs, quiet, l1, panel, calls[1..]);
    }
  }

  ghost predicate Distinct(panel: seq<Entry>) {
    forall k, m :: 0 <= k < m < |panel| ==> panel[k].addr != panel[m].addr
  }

  lemma {:induction false} SetRegistersAt(regs: Registers, panel: seq<Entry>, mode: int, mask: Mask, a: Byte)
    requires HasPanel(regs, panel) && Distinct(panel) && a in regs
    ensures var r := SetRegisters(regs, panel, mode, mask);
            && (forall k :: 0 <= k < |panel| && panel[k].addr == a ==>
                  r[a] == Changed(regs[a], panel[k].rule.Sets(mode), mask))
            && ((forall k :: 0 <= k < |panel| ==> panel[k].addr != a) ==> r[a] == regs[a])
    decreases |panel|
  {
    if panel != [] {
      var r1 := SetRegister(regs, panel[0], mode, mask);
      assert HasPanel(r1, panel[1..]);
      SetRegistersAt(r1, panel[1..], mode, mask, a);
    }
  }

  /** The LED at bit i of byte j is named by a mask. */
  predicate Mentions(mask: Mask, j: nat, i: nat)
    requires j < 2 && i < 8
  {
    HasBit(mask[j], i)
  }

  /** What the last call naming the LED asks of its bit in a register, or the bit as it was. */
  function Demanded(was: bool, rule: Rule, calls: seq<Call>, j: nat, i: nat): bool
    requires j < 2 && i < 8
    decreases |calls|
  {
    if calls == [] then was
    else
      var last := calls[|calls| - 1];
      if Mentions(last.mask, j, i) then rule.Sets(last.mode) else Demanded(was, rule, calls[..|calls| - 1], j, i)
  }

  lemma {:induction false} DemandedFrom(was: bool, rule: Rule, calls: seq<Call>, j: nat, i: nat)
    requires j < 2 && i < 8 && calls != []
    ensures Demanded(was, rule, calls, j, i) ==
            Demanded(if Mentions(calls[0].mask, j, i) then rule.Sets(calls[0].mode) else was, rule, calls[1..], j, i)
    decreases |calls|
  {
    var n := |calls| - 1;
    if n > 0 {
      assert calls[1..][..n - 1] == calls[..n][1..];
      DemandedFrom(was, rule, calls[..n], j, i);
    }
  }

  /** The call at k, the last to name the LED, decides. */
  lemma {:induction false} LastDecides(was: bool, rule: Rule, calls: seq<Call>, j: nat, i: nat, k: nat)
    requires j < 2 && i < 8 && k < |calls| && Mentions(calls[k].mask, j, i)
    requires forall m :: k < m < |calls| ==> !Mentions(calls[m].mask, j, i)
    ensures Demanded(was, rule, calls, j, i) == rule.Sets(calls[k].mode)
    decreases |calls|
  {
    if k < |calls| - 1 {
      LastDecides(was, rule, calls[..|calls| - 1], j, i, k);
    }
  }

  lemma {:induction false} UnnamedStays(was: bool, rule: Rule, calls: seq<Call>, j: nat, i: nat)
    requires j < 2 && i < 8 && forall m :: 0 <= m < |calls| ==> !Mentions(calls[m].mask, j, i)
    ensures Demanded(was, rule, calls, j, i) == was
    decreases |calls|
  {
    if calls != [] {
      UnnamedStays(was, rule, calls[..|calls| - 1], j, i);
    }
  }

  lemma ChangeBit(b: Byte, on: bool, m: Byte, i: nat)
    requires i < 8
    ensures HasBit(Change(b, on, m), i) <==> if HasBit(m, i) then on else HasBit(b, i)
  {
    BitOfCombine(b, m, on, 8, i);
  }

  lemma {:induction false} RunLeavesDemanded(regs: Registers, panel: seq<Entry>, calls: seq<Call>, k: nat, j: nat,
                                             i: nat)
    requires HasPanel(regs, panel) && Distinct(panel) && k < |panel| && j < 2 && i < 8
    ensures var a := panel[k].addr;
            HasBit(RunRegisters(regs, panel, calls)[a][j], i)
            == Demanded(HasBit(regs[a][j], i), panel[k].rule, calls, j, i)
    decreases |calls|
  {
    if calls != [] {
      var a, c := panel[k].addr, calls[0];
      var r1 := SetRegisters(regs, panel, c.mode, c.mask);
      SetRegistersAt(regs, panel, c.mode, c.mask, a);
      ChangeBit(regs[a][j], panel[k].rule.Sets(c.mode), c.mask[j], i);
      RunLeavesDemanded(r1, panel, calls[1..], k, j, i);
      DemandedFrom(HasBit(regs[a][j], i), panel[k].rule, calls, j, i);
    }
  }

  lemma {:induction false} RunLeavesOthers(regs: Registers, panel: seq<Entry>, calls: seq<Call>, a: Byte)
    requires HasPanel(regs, panel) && Distinct(panel) && a in regs
    requires forall k :: 0 <= k < |panel| ==> panel[k].addr != a
    ensures a in RunRegisters(regs, panel, calls) && RunRegisters(regs, panel, calls)[a] == regs[a]
    decreases |calls|
  {
    if calls != [] {
      SetRegistersAt(regs, panel, calls[0].mode, calls[0].mask, a);
      RunLeavesOthers(SetRegisters(regs, panel, calls[0].mode, calls[0].mask), panel, calls[1..], a);
    }
  }

  /** Over any run of calls against a device that obeys, every LED's bit in every register of the panel ends as the last
    call naming the LED demands, or as it was if none does; and no other register changes. */
  lemma LedsEndAsLastDemanded<W(!new)>(ch: Channel<W>, regs: W -> Registers, quiet: W -> bool, l: W, panel: seq<Entry>,
                                       calls: seq<Call>)
    requires Obeys(ch, regs, quiet) && quiet(l) && HasPanel(regs(l), panel) && Distinct(panel)
    ensures var (l', ok) := Calls(ch, l, panel, calls);
            && ok && HasPanel(regs(l'), panel)
            && (forall k, j, i :: 0 <= k < |panel| && 0 <= j < 2 && 0 <= i < 8 ==>
                  var a := panel[k].addr;
                  HasBit(regs(l')[a][j], i) == Demanded(HasBit(regs(l)[a][j], i), panel[k].rule, calls, j, i))
            && (forall a :: a in regs(l) && (forall k :: 0 <= k < |panel| ==> panel[k].addr != a) ==>
                  a in regs(l') && regs(l')[a] == regs(l)[a])
  {
    CallsObeyed(ch, regs, quiet, l, panel, calls);
    forall k, j, i | 0 <= k < |panel| && 0 <= j < 2 && 0 <= i < 8
      ensures var a := panel[k].addr;
              HasBit(RunRegisters(regs(l), panel, calls)[a][j], i)
              == Demanded(HasBit(regs(l)[a][j], i), panel[k].rule, calls, j, i)
    {
      RunLeavesDemanded(regs(l), panel, calls, k, j, i);
    }
    forall a | a in regs(l) && forall k :: 0 <= k < |panel| ==> panel[k].addr != a
      ensures a in RunRegisters(regs(l), panel, calls) && RunRegisters(regs(l), panel, calls)[a] == regs(l)[a]
    {
      RunLeavesOthers(regs(l), panel, calls, a);
    }
  }

  lemma PanelsDistinct()
    ensures Distinct(LED_PANEL) && Distinct(SATA_PANEL)
  {
  }

  /** The same on the wire, from any registers, for both panels. */
  lemma PanelsOnTheWire(dev: Device, regs: Registers, l: Line, panel: seq<Entry>, calls: seq<Call>, k: nat, j: nat,
                        i: nat)
    requires Faithful(dev, regs) && l.incoming == [] && (panel == LED_PANEL || panel == SATA_PANEL)
    requires HasPanel(RegistersAfter(regs, l.sent), panel) && k < |panel| && j < 2 && i < 8
    ensures var (l', ok) := Calls(Over(Wired(dev)), l, panel, calls);
            var before, after, a := RegistersAfter(regs, l.sent), RegistersAfter(regs, l'.sent), panel[k].addr;
            && ok && l'.incoming == [] && HasPanel(after, panel)
            && HasBit(after[a][j], i) == Demanded(HasBit(before[a][j], i), panel[k].rule, calls, j, i)
  {
    var r, q := (l: Line) => RegistersAfter(regs, l.sent), (l: Line) => l.incoming == [];
    FaithfulObeys(dev, regs);
    PanelsDistinct();
    assert q(l) && HasPanel(r(l), panel);
    CallsObeyed(Over(Wired(dev)), r, q, l, panel, calls);
    RunLeavesDemanded(r(l), panel, calls, k, j, i);
  }

  // ----- the panels by number -----

  ghost predicate BitIs(regs: Registers, a: Byte, j: nat, i: nat, on: bool)
    requires j < 2
  {
    a in regs && |regs[a]| == 2 && HasBit(regs[a][j], i) == on
  }

  /** An LED that call k is the last to name: it is enabled, blinks exactly for mode 2 and is on exactly if the mode is
    not 0. */
  lemma LedEnds(dev: Device, regs: Registers, l: Line, calls: seq<Call>, k: nat, j: nat, i: nat)
    requires Faithful(dev, regs) && l.incoming == [] && HasPanel(RegistersAfter(regs, l.sent), LED_PANEL)
    requires j < 2 && i < 8 && k < |calls| && Mentions(calls[k].mask, j, i)
    requires forall m :: k < m < |calls| ==> !Mentions(calls[m].mask, j, i)
    ensures var (l', ok) := Calls(Over(Wired(dev)), l, LED_PANEL, calls);
            var after := RegistersAfter(regs, l'.sent);
            && ok && BitIs(after, 0x50, j, i, true)
            && BitIs(after, 0x52, j, i, calls[k].mode == 2)
            && BitIs(after, 0x51, j, i, calls[k].mode != 0)
  {
    PanelEnds(dev, regs, l, LED_PANEL, calls, k, j, i, 0);
    PanelEnds(dev, regs, l, LED_PANEL, calls, k, j, i, 1);
    PanelEnds(dev, regs, l, LED_PANEL, calls, k, j, i, 2);
    assert LED_PANEL[0].addr == 0x50 && LED_PANEL[1].addr == 0x52 && LED_PANEL[2].addr == 0x51;
  }

  /** The same for the disk LEDs, which have no register that enables them. */
  lemma SataLedEnds(dev: Device, regs: Registers, l: Line, calls: seq<Call>, k: nat, j: nat, i: nat)
    requires Faithful(dev, regs) && l.incoming == [] && HasPanel(RegistersAfter(regs, l.sent), SATA_PANEL)
    requires j < 2 && i < 8 && k < |calls| && Mentions(calls[k].mask, j, i)
    requires forall m :: k < m < |calls| ==> !Mentions(calls[m].mask, j, i)
    ensures var (l', ok) := Calls(Over(Wired(dev)), l, SATA_PANEL, calls);
            var after := RegistersAfter(regs, l'.sent);
            && ok && BitIs(after, 0x59, j, i, calls[k].mode == 2)
            && BitIs(after, 0x58, j, i, calls[k].mode != 0)
  {
    PanelEnds(dev, regs, l, SATA_PANEL, calls, k, j, i, 0);
    PanelEnds(dev, regs, l, SATA_PANEL, calls, k, j, i, 1);
    assert SATA_PANEL[0].addr == 0x59 && SATA_PANEL[1].addr == 0x58;
  }

  lemma PanelEnds(dev: Device, regs: Registers, l: Line, panel: seq<Entry>, calls: seq<Call>, k: nat, j: nat, i: nat,
                  n: nat)
    requires Faithful(dev, regs) && l.incoming == [] && (panel == LED_PANEL || panel == SATA_PANEL)
    requires HasPanel(RegistersAfter(regs, l.sent), panel) && n < |panel|
    requires j < 2 && i < 8 && k < |calls| && Mentions(calls[k].mask, j, i)
    requires forall m :: k < m < |calls| ==> !Mentions(calls[m].mask, j, i)
    ensures var (l', ok) := Calls(Over(Wired(dev)), l, panel, calls);
            ok && BitIs(RegistersAfter(regs, l'.sent), panel[n].addr, j, i, panel[n].rule.Sets(calls[k].mode))
  {
    PanelsOnTheWire(dev, regs, l, panel, calls, n, j, i);
    LastDecides(HasBit(RegistersAfter(regs, l.sent)[panel[n].addr][j], i), panel[n].rule, calls, j, i, k);
  }
}
