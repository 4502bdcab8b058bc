/** What the calls do to the registers bit by bit, and where the shared bits are. */
module GpioBits {
  import opened GpioMap
  import opened GpioSpec
  import opened GpioRuns

  // ----- configuration words -----

  ghost predicate OthersKept(w: Word, w': Word, bits: set<int>) {
    forall i :: 0 <= i < 32 && i !in bits ==> w'[i] == w[i]
  }

  /** Requests, directions and levels on any pad: function select is bit 10, output disable bit 8, input disable bit 9,
    the level bit 0; the other bits and the second word are as before. */
  lemma PadBits(s: State, op: Op)
    requires Callable(op) && !op.SetKind? && !op.Ack? && IsPad(op.pad)
    ensures var w, w' := s.mem[Dw0(op.pad)], Step(s, op).mem[Dw0(op.pad)];
            match op
            case Request(_) => !w'[10] && OthersKept(w, w', {10})
            case Input(_) => w'[8] && !w'[9] && OthersKept(w, w', {8, 9})
            case Output(_, high) => w'[9] && !w'[8] && w'[0] == high && OthersKept(w, w', {0, 8, 9})
            case Level(_, high) => w'[0] == high && OthersKept(w, w', {0})
            case _ => true
    ensures Step(s, op).mem[Dw1(op.pad)] == s.mem[Dw1(op.pad)]
  {
    WordsApart(op.pad, 0);
    assert Dw0(op.pad) != Dw1(op.pad);
  }

  // ----- interrupt kinds -----

  predicate Accepted(kind: nat) {
    kind % 16 == 0 || kind in {1, 2, 3, 4, 8}
  }

  /** The configuration word for a kind. Bit 23 inverts the input, bits 25 and 26 say edge, and bit 19 routes
    the interrupt. */
  ghost predicate ForKind(w: Word, w': Word, kind: nat) {
    && w'[23] == (if kind % 16 == 0 then w[23] else if kind == 3 then !w[23] else kind == 2 || kind == 8)
    && w'[25] == (kind == 1 || kind == 2 || kind == 3) && !w'[26]
    && w'[19] == (kind % 16 != 0) && !w'[17] && !w'[18] && !w'[20]
    && OthersKept(w, w', {17, 18, 19, 20, 23, 25, 26})
  }

  lemma ConfiguredBits(w: Word, kind: nat)
    requires Accepted(kind)
    ensures ForKind(w, Configured(w, kind), kind)
  {
  }

  /** Setting the interrupt kind. The pad's two ownership bits and its host bit are cleared in any case; an accepted
    kind is remembered, its word is written and the event bit says whether it senses anything; another kind changes no
    more. */
  lemma KindBits(s: State, p: nat, kind: nat)
    requires p < IRQ_PADS
    ensures var s' := Step(s, SetKind(p, kind));
            var w, w' := s.mem[Dw0(p)], s'.mem[Dw0(p)];
            && !s'.mem[Owner(p)][OwnBit(p)] && !s'.mem[Owner(p)][OwnBit(p) + 1] && !s'.mem[HostOwner(p)][PadBit(p)]
            && s'.mem[Dw1(p)] == s.mem[Dw1(p)] && s'.mem[Status(p)][PadBit(p)] == s.mem[Status(p)][PadBit(p)]
            && (if Accepted(kind) then
                  ForKind(w, w', kind) && s'.mem[Enable(p)][PadBit(p)] == (kind % 16 != 0)
                    && s'.kinds == s.kinds[p := kind]
                else
                  w' == w && s'.mem[Enable(p)][PadBit(p)] == s.mem[Enable(p)][PadBit(p)] && s'.kinds == s.kinds)
  {
    var s' := Step(s, SetKind(p, kind));
    OwnStep(s, SetKind(p, kind));
    assert See(s', p) == Whole(SetKindView(View(s.mem, s.kinds[p], RegsOf(p)), kind));
    assert See(s', p) == Whole(View(s'.mem, s'.kinds[p], RegsOf(p)));
    if Accepted(kind) {
      ConfiguredBits(s.mem[Dw0(p)], kind);
    }
  }

  /** Acknowledging clears the pad's pending bit and, with both edges wanted, inverts bit 23; without a pending bit it
    does nothing. */
  lemma AckBits(s: State, p: nat)
    requires p < IRQ_PADS
    ensures var s' := Step(s, Ack(p));
            var w, w' := s.mem[Dw0(p)], s'.mem[Dw0(p)];
            && !s'.mem[Status(p)][PadBit(p)] && s'.kinds == s.kinds && s'.mem[Dw1(p)] == s.mem[Dw1(p)]
            && (if s.mem[Status(p)][PadBit(p)] && s.kinds[p] == 3 then w'[23] == !w[23] && OthersKept(w, w', {23})
                else w' == w)
  {
    var s' := Step(s, Ack(p));
    OwnStep(s, Ack(p));
    assert See(s', p) == Whole(AckView(View(s.mem, s.kinds[p], RegsOf(p))));
    assert See(s', p) == Whole(View(s'.mem, s'.kinds[p], RegsOf(p)));
  }

  // ----- suspend and resume -----

  /** The bits that come back: level, directions, functions, routing, inversion, trigger and the upper four of the first
    word, four termination bits of the second. */
  lemma BitsRestored(s: State, between: Memory, pin: nat, i: int)
    requires pin < IRQ_PADS && !Locked(s.mem, pin) && !Locked(between, pin) && 0 <= i < 32
    ensures var after := Resume(Suspend(s).(mem := between)).mem;
            && after[Dw0(pin)][i] == (if i in {0, 8, 9, 10, 11, 19, 23, 25, 26, 28, 29, 30, 31} then s.mem[Dw0(pin)][i]
                                      else between[Dw0(pin)][i])
            && after[Dw1(pin)][i] == if 10 <= i <= 13 then s.mem[Dw1(pin)][i] else between[Dw1(pin)][i]
  {
    SuspendResume(s, between, pin);
  }

  // ----- where the shared bits are -----

  /** The lock bits. */
  lemma LockTable()
    ensures [Lock(0), Lock(1), Lock(2), Lock(3), Lock(4), Lock(5), Lock(6), Lock(7), Lock(8), Lock(9), Lock(10),
             Lock(11), Lock(12)] ==
            [0x90, 0x98, 0x98, 0x300b0, 0x30098, 0x30098, 0x30098, 0x30098, 0x300a0, 0x300a0, 0x300a8, 0x300a8, 0x30098]
  {
  }

  /** The event enable registers; status and host ownership are at fixed distances from them. */
  lemma EventTable()
    ensures [Enable(0), Enable(1), Enable(2), Enable(3), Enable(4), Enable(5), Enable(6), Enable(7), Enable(8),
             Enable(9), Enable(10), Enable(11), Enable(12)] ==
            [0x160, 0x164, 0x164, 0x30170, 0x30164, 0x30164, 0x30164, 0x30164, 0x30168, 0x30168, 0x3016c, 0x3016c,
             0x30164]
    ensures forall p: nat :: p < IRQ_PADS ==> Status(p) == Enable(p) - 0x20 && HostOwner(p) == Enable(p) - 0xa0
  {
  }

  lemma OwnerTable()
    ensures [Owner(0), Owner(1), Owner(2), Owner(3), Owner(4), Owner(5), Owner(6), Owner(7), Owner(8), Owner(9),
             Owner(10), Owner(11), Owner(12)] ==
            [0x2c, 0x30, 0x30, 0x3005c, 0x30038, 0x30038, 0x30038, 0x30038, 0x3003c, 0x30040, 0x30048, 0x30048, 0x3002c]
  {
  }

  lemma BitTables()
    ensures [PadBit(0), PadBit(1), PadBit(2), PadBit(3), PadBit(4), PadBit(5), PadBit(6), PadBit(7), PadBit(8),
             PadBit(9), PadBit(10), PadBit(11), PadBit(12)] == [27, 1, 2, 9, 27, 28, 29, 30, 7, 8, 27, 28, 0]
    ensures [OwnBit(0), OwnBit(1), OwnBit(2), OwnBit(3), OwnBit(4), OwnBit(5), OwnBit(6), OwnBit(7), OwnBit(8),
             OwnBit(9), OwnBit(10), OwnBit(11), OwnBit(12)] == [12, 4, 8, 4, 12, 16, 20, 24, 28, 0, 12, 16, 12]
  {
  }

  /** The two words of a pad follow each other; the first and the last pads of each stretch of each community. */
  lemma WordPlaces()
    ensures forall p: nat :: IsPad(p) ==> Dw1(p) == Dw0(p) + 4
    ensures [Dw0(0), Dw0(2), Dw0(14), Dw0(45), Dw0(47), Dw0(52)] == [0x4d8, 0x510, 0x400, 0x500, 0x518, 0x540]
    ensures [Dw0(3), Dw0(13), Dw0(53), Dw0(140), Dw0(146), Dw0(152)] ==
            [0x30780, 0x30498, 0x30400, 0x30488, 0x30600, 0x30630]
    ensures forall p: nat :: IsPad(p) <==> p < 153 && p != 46 && !(141 <= p <= 145)
  {
  }
}
