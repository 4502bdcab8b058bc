/** Runs of GPIO calls, suspend and resume. */
module GpioRuns {
  import opened GpioMap
  import opened GpioSpec

  datatype Context = Context(conf0: Word, conf1: Word)

  type Kinds = s: seq<nat> | |s| == IRQ_PADS witness seq(IRQ_PADS, i => 0)
  type Contexts = s: seq<Context> | |s| == PADS
    witness seq(PADS, i => Context(seq(32, j => false), seq(32, j => false)))

  /** The registers, the interrupt kind remembered for each interrupt pad, and what suspend saved. */
  datatype State = State(mem: Memory, kinds: Kinds, saved: Contexts)

  // ----- the calls -----

  datatype Op =
    | Request(pad: nat)
    | Input(pad: nat)
    | Output(pad: nat, high: bool)
    | Level(pad: nat, high: bool)
    | SetKind(pad: nat, kind: nat)
    | Ack(pad: nat)

  /** The numbers the two frameworks pass in: interrupts are asked for on the first thirteen pads only. */
  predicate Callable(op: Op) {
    if op.SetKind? || op.Ack? then op.pad < IRQ_PADS else op.pad < PADS
  }

  function OnWord(op: Op, w: Word): Word {
    match op
    case Request(_) => Requested(w)
    case Input(_) => AsInput(w)
    case Output(_, high) => AsOutput(w, high)
    case Level(_, high) => w[LEVEL := high]
    case _ => w
  }

  function Step(s: State, op: Op): State
    requires Callable(op)
  {
    match op
    case SetKind(p, kind) =>
      State(SetKindRegs(s.mem, kind, RegsOf(p)), if KindKnown(kind) then s.kinds[p := kind] else s.kinds, s.saved)
    case Ack(p) => s.(mem := AckRegs(s.mem, s.kinds[p], RegsOf(p)))
    case _ =>
      // The numbers in the gaps of the table are refused.
      if IsPad(op.pad) then s.(mem := Writel(s.mem, Dw0(op.pad), OnWord(op, s.mem[Dw0(op.pad)]))) else s
  }

  predicate AllCallable(ops: seq<Op>) {
    forall i :: 0 <= i < |ops| ==> Callable(ops[i])
  }

  function Run(s: State, ops: seq<Op>): State
    requires AllCallable(ops)
    decreases |ops|
  {
    if ops == [] then s else Run(Step(s, ops[0]), ops[1..])
  }

  // ----- each pad by itself -----

  /** What there is of a pad: its two words, and for an interrupt pad its bits in the shared registers as well. */
  datatype Seen = Words(dw0: Word, dw1: Word) | Whole(view: PadView)

  function See(s: State, q: nat): Seen
    requires IsPad(q)
  {
    if q < IRQ_PADS then Whole(View(s.mem, s.kinds[q], RegsOf(q))) else Words(s.mem[Dw0(q)], s.mem[Dw1(q)])
  }

  function StepSeen(v: Seen, op: Op): Seen {
    match v
    case Words(dw0, dw1) => Words(OnWord(op, dw0), dw1)
    case Whole(view) =>
      match op
      case SetKind(_, kind) => Whole(SetKindView(view, kind))
      case Ack(_) => Whole(AckView(view))
      case _ => Whole(view.(dw0 := OnWord(op, view.dw0)))
  }

  function RunSeen(v: Seen, ops: seq<Op>): Seen
    decreases |ops|
  {
    if ops == [] then v else RunSeen(StepSeen(v, ops[0]), ops[1..])
  }

  /** The calls on one pad, in order. */
  function OnPad(ops: seq<Op>, q: nat): seq<Op>
    decreases |ops|
  {
    if ops == [] then []
    else if ops[0].pad == q then [ops[0]] + OnPad(ops[1..], q)
    else OnPad(ops[1..], q)
  }

  /** A call does to its own pad what it would do to that pad alone. */
  lemma OwnStep(s: State, op: Op)
    requires Callable(op) && IsPad(op.pad)
    ensures See(Step(s, op), op.pad) == StepSeen(See(s, op.pad), op)
  {
    var p := op.pad;
    if op.SetKind? {
      RegsTidy(p);
      SetKindOnView(s.mem, op.kind, s.kinds[p], RegsOf(p));
    } else if op.Ack? {
      RegsTidy(p);
      AckOnView(s.mem, s.kinds[p], RegsOf(p));
    } else if p < IRQ_PADS {
      RegsTidy(p);
      ConfigOnView(s.mem, s.kinds[p], RegsOf(p), OnWord(op, s.mem[Dw0(p)]));
    } else {
      WordsApart(p, 0);
    }
  }

  lemma OtherWords(m: Memory, a: Address, v: Word, q: nat)
    requires IsPad(q) && a != Dw0(q) && a != Dw1(q)
    ensures Writel(m, a, v)[Dw0(q)] == m[Dw0(q)] && Writel(m, a, v)[Dw1(q)] == m[Dw1(q)]
  {
  }

  lemma SetKindOtherWords(m: Memory, kind: nat, p: nat, q: nat)
    requires p < IRQ_PADS && IsPad(q) && p != q
    ensures var m' := SetKindRegs(m, kind, RegsOf(p)); m'[Dw0(q)] == m[Dw0(q)] && m'[Dw1(q)] == m[Dw1(q)]
  {
    PadsApart(p, q);
    WordsApart(q, p);
  }

  lemma AckOtherWords(m: Memory, kind: nat, p: nat, q: nat)
    requires p < IRQ_PADS && IsPad(q) && p != q
    ensures var m' := AckRegs(m, kind, RegsOf(p)); m'[Dw0(q)] == m[Dw0(q)] && m'[Dw1(q)] == m[Dw1(q)]
  {
    PadsApart(p, q);
    WordsApart(q, p);
  }

  lemma ConfigElsewhereOf(m: Memory, k: nat, p: nat, w: Word, q: nat)
    requires IsPad(p) && q < IRQ_PADS && p != q
    ensures View(Writel(m, Dw0(p), w), k, RegsOf(q)) == View(m, k, RegsOf(q))
  {
    PadsApart(p, q);
    WordsApart(p, q);
    ConfigElsewhere(m, k, Dw0(p), w, RegsOf(q));
  }

  lemma OtherSetKind(s: State, op: Op, q: nat)
    requires op.SetKind? && Callable(op) && IsPad(q) && op.pad != q
    ensures See(Step(s, op), q) == See(s, q)
  {
    if q < IRQ_PADS {
      RegsTidy(op.pad);
      RegsTidy(q);
      RegsOfApart(op.pad, q);
      SetKindElsewhere(s.mem, op.kind, RegsOf(op.pad), s.kinds[q], RegsOf(q));
    } else {
      SetKindOtherWords(s.mem, op.kind, op.pad, q);
    }
  }

  lemma OtherAck(s: State, op: Op, q: nat)
    requires op.Ack? && Callable(op) && IsPad(q) && op.pad != q
    ensures See(Step(s, op), q) == See(s, q)
  {
    if q < IRQ_PADS {
      RegsTidy(op.pad);
      RegsTidy(q);
      RegsOfApart(op.pad, q);
      AckElsewhere(s.mem, s.kinds[op.pad], RegsOf(op.pad), s.kinds[q], RegsOf(q));
    } else {
      AckOtherWords(s.mem, s.kinds[op.pad], op.pad, q);
    }
  }

  lemma OtherConfig(s: State, p: nat, w: Word, q: nat)
    requires IsPad(p) && IsPad(q) && p != q
    ensures See(s.(mem := Writel(s.mem, Dw0(p), w)), q) == See(s, q)
  {
    if q < IRQ_PADS {
      ConfigElsewhereOf(s.mem, s.kinds[q], p, w, q);
    } else {
      PadsApart(p, q);
      OtherWords(s.mem, Dw0(p), w, q);
    }
  }

  /** A call on one pad changes nothing of another. */
  lemma OtherStep(s: State, op: Op, q: nat)
    requires Callable(op) && IsPad(q) && op.pad != q
    ensures See(Step(s, op), q) == See(s, q)
  {
    if op.SetKind? {
      OtherSetKind(s, op, q);
    } else if op.Ack? {
      OtherAck(s, op, q);
    } else if IsPad(op.pad) {
      OtherConfig(s, op.pad, OnWord(op, s.mem[Dw0(op.pad)]), q);
    }
  }

  /** Over any run of calls every pad ends up as if the calls on it had been made on that pad alone. */
  lemma {:induction false} PadsAreIndependent(s: State, ops: seq<Op>, q: nat)
    requires AllCallable(ops) && IsPad(q)
    ensures See(Run(s, ops), q) == RunSeen(See(s, q), OnPad(ops, q))
    decreases |ops|
  {
    if ops != [] {
      PadsAreIndependent(Step(s, ops[0]), ops[1..], q);
      if ops[0].pad == q {
        OwnStep(s, ops[0]);
        var mine := OnPad(ops, q);
        assert mine[1..] == OnPad(ops[1..], q);
      } else {
        OtherStep(s, ops[0], q);
      }
    }
  }

  // ----- suspend and resume -----

  function Mask0(): Word {
    seq(32, i => i in {0, 8, 9, 10, 11, 19, 23, 25, 26, 28, 29, 30, 31})
  }

  function Mask1(): Word {
    seq(32, i => i in {10, 11, 12, 13})
  }

  function Masked(w: Word, mask: Word): Word {
    seq(32, i requires 0 <= i < 32 => w[i] && mask[i])
  }

  function Restored(w: Word, mask: Word, conf: Word): Word {
    seq(32, i requires 0 <= i < 32 => (w[i] && !mask[i]) || conf[i])
  }

  predicate Locked(m: Memory, pin: nat)
    requires pin < IRQ_PADS
  {
    m[Lock(pin)][PadBit(pin)]
  }

  function Save(m: Memory, pin: nat): Context
    requires pin < IRQ_PADS
  {
    Context(Masked(m[Dw0(pin)], Mask0()), Masked(m[Dw1(pin)], Mask1()))
  }

  function SuspendPin(s: State, pin: nat): State
    requires pin < IRQ_PADS
  {
    if Locked(s.mem, pin) then s else s.(saved := s.saved[pin := Save(s.mem, pin)])
  }

  // A word that already agrees is not written.
  function RestoreWord(m: Memory, a: Address, mask: Word, conf: Word): Memory {
    if Masked(m[a], mask) != conf then Writel(m, a, Restored(m[a], mask, conf)) else m
  }

  function ResumeWords(m: Memory, pin: nat, c: Context): Memory
    requires pin < IRQ_PADS
  {
    RestoreWord(RestoreWord(m, Dw0(pin), Mask0(), c.conf0), Dw1(pin), Mask1(), c.conf1)
  }

  function ResumePin(s: State, pin: nat): State
    requires pin < IRQ_PADS
  {
    if Locked(s.mem, pin) then s else s.(mem := ResumeWords(s.mem, pin, s.saved[pin]))
  }

  function SuspendTo(s: State, n: nat): State
    requires n <= IRQ_PADS
  {
    if n == 0 then s else SuspendPin(SuspendTo(s, n - 1), n - 1)
  }

  function ResumeTo(s: State, n: nat): State
    requires n <= IRQ_PADS
  {
    if n == 0 then s else ResumePin(ResumeTo(s, n - 1), n - 1)
  }

  function Suspend(s: State): State {
    SuspendTo(s, IRQ_PADS)
  }

  function Resume(s: State): State {
    ResumeTo(s, IRQ_PADS)
  }

  /** What resume will find for a pad: saved now, or left from an earlier suspend if the pad is locked now. */
  function ContextFor(s: State, pin: nat): Context
    requires pin < IRQ_PADS
  {
    if Locked(s.mem, pin) then s.saved[pin] else Save(s.mem, pin)
  }

  lemma {:induction false} SuspendSaves(s: State, n: nat)
    requires n <= IRQ_PADS
    ensures var s' := SuspendTo(s, n);
            && s'.mem == s.mem && s'.kinds == s.kinds
            && forall k: nat :: k < PADS ==> s'.saved[k] == if k < n then ContextFor(s, k) else s.saved[k]
  {
    if n > 0 {
      SuspendSaves(s, n - 1);
    }
  }

  lemma RestoreWordDoes(m: Memory, a: Address, mask: Word, conf: Word)
    requires !IsStatus(a)
    ensures var m' := RestoreWord(m, a, mask, conf);
            m'[a] == Restored(m[a], mask, conf) && forall x: Address :: x != a ==> m'[x] == m[x]
  {
    if Masked(m[a], mask) == conf {
      forall i | 0 <= i < 32
        ensures Restored(m[a], mask, conf)[i] == m[a][i]
      {
        assert Masked(m[a], mask)[i] == conf[i];
      }
      assert Restored(m[a], mask, conf) == m[a];
    }
  }

  lemma ResumeWordsDo(m: Memory, pin: nat, c: Context)
    requires pin < IRQ_PADS
    ensures var m' := ResumeWords(m, pin, c);
            && m'[Dw0(pin)] == Restored(m[Dw0(pin)], Mask0(), c.conf0)
            && m'[Dw1(pin)] == Restored(m[Dw1(pin)], Mask1(), c.conf1)
            && forall x: Address :: x != Dw0(pin) && x != Dw1(pin) ==> m'[x] == m[x]
  {
    WordsApart(pin, pin);
    RestoreWordDoes(m, Dw0(pin), Mask0(), c.conf0);
    RestoreWordDoes(RestoreWord(m, Dw0(pin), Mask0(), c.conf0), Dw1(pin), Mask1(), c.conf1);
  }

  /** The memory after resuming the first n pads. */
  ghost predicate ResumedTo(s: State, m: Memory, n: nat)
    requires n <= IRQ_PADS
  {
    && (forall k: nat :: k < n && !Locked(s.mem, k) ==> PadRestored(s, m, k))
    && (forall x: Address :: (forall k: nat :: k < n && !Locked(s.mem, k) ==> x != Dw0(k) && x != Dw1(k)) ==>
          m[x] == s.mem[x])
  }

  ghost predicate PadRestored(s: State, m: Memory, k: nat)
    requires k < IRQ_PADS
  {
    && m[Dw0(k)] == Restored(s.mem[Dw0(k)], Mask0(), s.saved[k].conf0)
    && m[Dw1(k)] == Restored(s.mem[Dw1(k)], Mask1(), s.saved[k].conf1)
  }

  lemma NotYet(s: State, m: Memory, n: nat)
    requires n < IRQ_PADS && ResumedTo(s, m, n)
    ensures m[Dw0(n)] == s.mem[Dw0(n)] && m[Dw1(n)] == s.mem[Dw1(n)] && m[Lock(n)] == s.mem[Lock(n)]
  {
    forall k: nat | k < n
      ensures Dw0(n) !in {Dw0(k), Dw1(k)} && Dw1(n) !in {Dw0(k), Dw1(k)} && Lock(n) !in {Dw0(k), Dw1(k)}
    {
      PadsApart(n, k);
      WordsApart(k, n);
    }
  }

  lemma ResumeOne(s: State, m: Memory, n: nat)
    requires n < IRQ_PADS && ResumedTo(s, m, n)
    ensures ResumedTo(s, if Locked(s.mem, n) then m else ResumeWords(m, n, s.saved[n]), n + 1)
  {
    NotYet(s, m, n);
    if !Locked(s.mem, n) {
      ResumeWordsDo(m, n, s.saved[n]);
      ResumedOneMore(s, m, ResumeWords(m, n, s.saved[n]), n);
    }
  }

  lemma ResumedOneMore(s: State, m: Memory, m': Memory, n: nat)
    requires n < IRQ_PADS && ResumedTo(s, m, n) && !Locked(s.mem, n)
    requires PadRestored(s, m', n)
    requires forall x: Address :: x != Dw0(n) && x != Dw1(n) ==> m'[x] == m[x]
    ensures ResumedTo(s, m', n + 1)
  {
    forall k: nat | k < n && !Locked(s.mem, k)
      ensures PadRestored(s, m', k)
    {
      PadsApart(n, k);
      assert PadRestored(s, m, k);
    }
  }

  lemma ResumeStep(s: State, s1: State, n: nat)
    requires n < IRQ_PADS && ResumedTo(s, s1.mem, n) && s1.saved == s.saved
    ensures ResumedTo(s, ResumePin(s1, n).mem, n + 1)
  {
    NotYet(s, s1.mem, n);
    ResumeOne(s, s1.mem, n);
  }

  lemma {:induction false} ResumeRestores(s: State, n: nat)
    requires n <= IRQ_PADS
    ensures var s' := ResumeTo(s, n); ResumedTo(s, s'.mem, n) && s'.saved == s.saved && s'.kinds == s.kinds
  {
    if n > 0 {
      ResumeRestores(s, n - 1);
      ResumeStep(s, ResumeTo(s, n - 1), n - 1);
    }
  }

  /** The bits of a word under a mask are those of one word, the others those of another. */
  ghost predicate Mixed(w: Word, mask: Word, under: Word, beside: Word) {
    forall i :: 0 <= i < 32 ==> w[i] == if mask[i] then under[i] else beside[i]
  }

  /** Whatever happens to the registers between suspend and resume: a pad unlocked at both gets back the bits under the
    two masks and keeps the others as the hardware left them; a pad locked at resume, and every other register, is
    left alone. */
  lemma SuspendResume(s: State, between: Memory, pin: nat)
    requires pin < IRQ_PADS
    ensures var after := Resume(Suspend(s).(mem := between)).mem;
            && (!Locked(s.mem, pin) && !Locked(between, pin) ==>
                  && Mixed(after[Dw0(pin)], Mask0(), s.mem[Dw0(pin)], between[Dw0(pin)])
                  && Mixed(after[Dw1(pin)], Mask1(), s.mem[Dw1(pin)], between[Dw1(pin)]))
            && (Locked(between, pin) ==> after[Dw0(pin)] == between[Dw0(pin)] && after[Dw1(pin)] == between[Dw1(pin)])
            && (forall x: Address :: (forall k: nat :: k < IRQ_PADS ==> x != Dw0(k) && x != Dw1(k)) ==>
                  after[x] == between[x])
  {
    SuspendSaves(s, IRQ_PADS);
    var s1 := Suspend(s).(mem := between);
    ResumeRestores(s1, IRQ_PADS);
    var after := Resume(s1).mem;
    if Locked(between, pin) {
      forall k: nat | k < IRQ_PADS && !Locked(between, k)
        ensures Dw0(pin) !in {Dw0(k), Dw1(k)} && Dw1(pin) !in {Dw0(k), Dw1(k)}
      {
        PadsApart(pin, k);
      }
    }
  }

  /** Saved words have no bits but those under the two masks. */
  ghost predicate UnderMasks(saved: Contexts) {
    forall p: nat :: p < IRQ_PADS ==> Fits(saved[p])
  }

  ghost predicate Fits(c: Context) {
    forall i :: 0 <= i < 32 ==> (c.conf0[i] ==> Mask0()[i]) && (c.conf1[i] ==> Mask1()[i])
  }

  /** All that happens to the driver: calls, suspend, resume, and whatever others do to the registers. */
  datatype Event = Call(op: Op) | Sleep | Wake | Foreign(mem: Memory)

  predicate Possible(events: seq<Event>) {
    forall i :: 0 <= i < |events| && events[i].Call? ==> Callable(events[i].op)
  }

  function Live(s: State, events: seq<Event>): State
    requires Possible(events)
    decreases |events|
  {
    if events == [] then s
    else
      var s1 := match events[0]
        case Call(op) => Step(s, op)
        case Sleep => Suspend(s)
        case Wake => Resume(s)
        case Foreign(mem) => s.(mem := mem);
      Live(s1, events[1..])
  }

  lemma SuspendKeepsUnderMasks(s: State)
    requires UnderMasks(s.saved)
    ensures UnderMasks(Suspend(s).saved)
  {
    SuspendSaves(s, IRQ_PADS);
    forall p: nat | p < IRQ_PADS
      ensures Fits(Suspend(s).saved[p])
    {
      assert Suspend(s).saved[p] == ContextFor(s, p);
    }
  }

  /** Saved words are masked words for ever. */
  lemma {:induction false} LiveKeepsUnderMasks(s: State, events: seq<Event>)
    requires Possible(events) && UnderMasks(s.saved)
    ensures UnderMasks(Live(s, events).saved)
    decreases |events|
  {
    if events != [] {
      match events[0]
      case Call(op) => LiveKeepsUnderMasks(Step(s, op), events[1..]);
      case Sleep =>
        SuspendKeepsUnderMasks(s);
        LiveKeepsUnderMasks(Suspend(s), events[1..]);
      case Wake =>
        ResumeRestores(s, IRQ_PADS);
        LiveKeepsUnderMasks(Resume(s), events[1..]);
      case Foreign(mem) => LiveKeepsUnderMasks(s.(mem := mem), events[1..]);
    }
  }

  lemma MixedExactly(now: Word, mask: Word, conf: Word, was: Word)
    requires forall i :: 0 <= i < 32 ==> (conf[i] ==> mask[i])
    ensures Mixed(Restored(now, mask, conf), mask, was, now) <==> conf == Masked(was, mask)
  {
    if Mixed(Restored(now, mask, conf), mask, was, now) {
      forall i | 0 <= i < 32
        ensures conf[i] == Masked(was, mask)[i]
      {
        assert mask[i] ==> Restored(now, mask, conf)[i] == was[i];
      }
      assert conf == Masked(was, mask);
    }
  }

  /** The pad's words have their masked bits from suspend and the others from before resume. */
  ghost predicate GotBack(was: Memory, between: Memory, after: Memory, pin: nat)
    requires pin < IRQ_PADS
  {
    && Mixed(after[Dw0(pin)], Mask0(), was[Dw0(pin)], between[Dw0(pin)])
    && Mixed(after[Dw1(pin)], Mask1(), was[Dw1(pin)], between[Dw1(pin)])
  }

  lemma GotBackWhenContextIs(s: State, between: Memory, pin: nat)
    requires pin < IRQ_PADS && UnderMasks(s.saved) && !Locked(between, pin)
    ensures GotBack(s.mem, between, Resume(Suspend(s).(mem := between)).mem, pin)
            <==> ContextFor(s, pin) == Save(s.mem, pin)
  {
    SuspendSaves(s, IRQ_PADS);
    var s1 := Suspend(s).(mem := between);
    ResumeRestores(s1, IRQ_PADS);
    var c := ContextFor(s, pin);
    assert s1.saved[pin] == c;
    SuspendKeepsUnderMasks(s);
    assert Fits(s1.saved[pin]);
    MixedExactly(between[Dw0(pin)], Mask0(), c.conf0, s.mem[Dw0(pin)]);
    MixedExactly(between[Dw1(pin)], Mask1(), c.conf1, s.mem[Dw1(pin)]);
  }

  /** A pad unlocked at resume gets its words back exactly if it was unlocked at suspend too, or an earlier suspend
    happens to have saved what it held: from every state the driver can be in. */
  lemma RestoredExactly(start: State, events: seq<Event>, between: Memory, pin: nat)
    requires Possible(events) && UnderMasks(start.saved) && pin < IRQ_PADS && !Locked(between, pin)
    ensures var s := Live(start, events);
            GotBack(s.mem, between, Resume(Suspend(s).(mem := between)).mem, pin)
            <==> !Locked(s.mem, pin) || s.saved[pin] == Save(s.mem, pin)
  {
    LiveKeepsUnderMasks(start, events);
    GotBackWhenContextIs(Live(start, events), between, pin);
  }

  // A driver that has never suspended, over registers where the first word and the lock register of pad 0 are all ones.
  function LockedState(): State {
    State(seq(SIZE, a => seq(32, i => a == Dw0(0) || a == Lock(0))), seq(IRQ_PADS, i => 0),
          seq(PADS, i => Context(seq(32, j => false), seq(32, j => false))))
  }

  /** The condition does fail: a pad locked at the first suspend, and unlocked and cleared at resume, stays cleared. */
  lemma LockedPadIsLost()
    ensures var s := LockedState();
            var between := seq(SIZE, a => seq(32, i => false));
            && UnderMasks(s.saved) && Locked(s.mem, 0) && !Locked(between, 0)
            && !GotBack(s.mem, between, Resume(Suspend(s).(mem := between)).mem, 0)
  {
    var s := LockedState();
    assert s.mem[Dw0(0)][0] && Mask0()[0];
    assert Save(s.mem, 0).conf0[0] && !s.saved[0].conf0[0];
    GotBackWhenContextIs(s, seq(SIZE, a => seq(32, i => false)), 0);
  }
}
