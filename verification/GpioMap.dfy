/** Where the Denverton pads keep their registers: the address tables and bit tables, and that no two pads meet in
  them. */
module GpioMap {
  const PADS: nat := 153
  const IRQ_PADS: nat := 13

  type Address = a: nat | a < SIZE
  type Bit = b: nat | b < 32
  const SIZE: nat := 0x31000

  // ----- the configuration words -----

  /** The offset of a pad's configuration words within its community; -1 for the numbers that name no pad. */
  function PadOffset(pad: nat): (offset: int)
    requires pad < PADS
    ensures -1 <= offset <= 0x380
  {
    if pad == 0 then 0xd8
    else if pad <= 2 then 0x108 + 8 * (pad - 1)
    else if pad == 3 then 0x380
    else if pad <= 7 then 0x168 + 8 * (pad - 4)
    else if pad <= 9 then 0x1c8 + 8 * (pad - 8)
    else if pad <= 11 then 0x310 + 8 * (pad - 10)
    else if pad <= 13 then 0x90 + 8 * (pad - 12)
    else if pad <= 40 then 8 * (pad - 14)
    else if pad <= 45 then 0xe0 + 8 * (pad - 41)
    else if pad == 46 then -1
    else if pad <= 52 then 0x118 + 8 * (pad - 47)
    else if pad <= 63 then 8 * (pad - 53)
    else if pad <= 71 then 0x2d0 + 8 * (pad - 64)
    else if pad <= 78 then 0x290 + 8 * (pad - 72)
    else if pad <= 89 then 0x238 + 8 * (pad - 79)
    else if pad <= 97 then 0x188 + 8 * (pad - 90)
    else if pad <= 122 then 0xa0 + 8 * (pad - 98)
    else if pad <= 133 then 0x328 + 8 * (pad - 123)
    else if pad <= 140 then 0x58 + 8 * (pad - 134)
    else if pad <= 145 then -1
    else 0x200 + 8 * (pad - 146)
  }

  // The same table, number by number.

  lemma PadTable0()
    ensures [PadOffset(0), PadOffset(1), PadOffset(2), PadOffset(3), PadOffset(4), PadOffset(5), PadOffset(6),
             PadOffset(7), PadOffset(8), PadOffset(9), PadOffset(10), PadOffset(11), PadOffset(12), PadOffset(13),
             PadOffset(14), PadOffset(15), PadOffset(16), PadOffset(17), PadOffset(18), PadOffset(19),
             PadOffset(20), PadOffset(21), PadOffset(22), PadOffset(23), PadOffset(24), PadOffset(25),
             PadOffset(26), PadOffset(27), PadOffset(28), PadOffset(29), PadOffset(30), PadOffset(31),
             PadOffset(32), PadOffset(33), PadOffset(34), PadOffset(35), PadOffset(36), PadOffset(37),
             PadOffset(38), PadOffset(39)] ==
            [0xd8, 0x108, 0x110, 0x380, 0x168, 0x170, 0x178, 0x180, 0x1c8, 0x1d0, 0x310, 0x318, 0x90, 0x98, 0x0,
             0x8, 0x10, 0x18, 0x20, 0x28, 0x30, 0x38, 0x40, 0x48, 0x50, 0x58, 0x60, 0x68, 0x70, 0x78, 0x80, 0x88,
             0x90, 0x98, 0xa0, 0xa8, 0xb0, 0xb8, 0xc0, 0xc8]
  {
  }

  lemma PadTable40()
    ensures [PadOffset(40), PadOffset(41), PadOffset(42), PadOffset(43), PadOffset(44), PadOffset(45),
             PadOffset(46), PadOffset(47), PadOffset(48), PadOffset(49), PadOffset(50), PadOffset(51),
             PadOffset(52), PadOffset(53), PadOffset(54), PadOffset(55), PadOffset(56), PadOffset(57),
             PadOffset(58), PadOffset(59), PadOffset(60), PadOffset(61), PadOffset(62), PadOffset(63),
             PadOffset(64), PadOffset(65), PadOffset(66), PadOffset(67), PadOffset(68), PadOffset(69),
             PadOffset(70), PadOffset(71), PadOffset(72), PadOffset(73), PadOffset(74), PadOffset(75),
             PadOffset(76), PadOffset(77), PadOffset(78), PadOffset(79)] ==
            [0xd0, 0xe0, 0xe8, 0xf0, 0xf8, 0x100, -1, 0x118, 0x120, 0x128, 0x130, 0x138, 0x140, 0x0, 0x8, 0x10,
             0x18, 0x20, 0x28, 0x30, 0x38, 0x40, 0x48, 0x50, 0x2d0, 0x2d8, 0x2e0, 0x2e8, 0x2f0, 0x2f8, 0x300, 0x308,
             0x290, 0x298, 0x2a0, 0x2a8, 0x2b0, 0x2b8, 0x2c0, 0x238]
  {
  }

  lemma PadTable80()
    ensures [PadOffset(80), PadOffset(81), PadOffset(82), PadOffset(83), PadOffset(84), PadOffset(85),
             PadOffset(86), PadOffset(87), PadOffset(88), PadOffset(89), PadOffset(90), PadOffset(91),
             PadOffset(92), PadOffset(93), PadOffset(94), PadOffset(95), PadOffset(96), PadOffset(97),
             PadOffset(98), PadOffset(99), PadOffset(100), PadOffset(101), PadOffset(102), PadOffset(103),
             PadOffset(104), PadOffset(105), PadOffset(106), PadOffset(107), PadOffset(108), PadOffset(109),
             PadOffset(110), PadOffset(111), PadOffset(112), PadOffset(113), PadOffset(114), PadOffset(115),
             PadOffset(116), PadOffset(117), PadOffset(118), PadOffset(119)] ==
            [0x240, 0x248, 0x250, 0x258, 0x260, 0x268, 0x270, 0x278, 0x280, 0x288, 0x188, 0x190, 0x198, 0x1a0,
             0x1a8, 0x1b0, 0x1b8, 0x1c0, 0xa0, 0xa8, 0xb0, 0xb8, 0xc0, 0xc8, 0xd0, 0xd8, 0xe0, 0xe8, 0xf0, 0xf8,
             0x100, 0x108, 0x110, 0x118, 0x120, 0x128, 0x130, 0x138, 0x140, 0x148]
  {
  }

  lemma PadTable120()
    ensures [PadOffset(120), PadOffset(121), PadOffset(122), PadOffset(123), PadOffset(124), PadOffset(125),
             PadOffset(126), PadOffset(127), PadOffset(128), PadOffset(129), PadOffset(130), PadOffset(131),
             PadOffset(132), PadOffset(133), PadOffset(134), PadOffset(135), PadOffset(136), PadOffset(137),
             PadOffset(138), PadOffset(139), PadOffset(140), PadOffset(141), PadOffset(142), PadOffset(143),
             PadOffset(144), PadOffset(145), PadOffset(146), PadOffset(147), PadOffset(148), PadOffset(149),
             PadOffset(150), PadOffset(151), PadOffset(152)] ==
            [0x150, 0x158, 0x160, 0x328, 0x330, 0x338, 0x340, 0x348, 0x350, 0x358, 0x360, 0x368, 0x370, 0x378, 0x58,
             0x60, 0x68, 0x70, 0x78, 0x80, 0x88, -1, -1, -1, -1, -1, 0x200, 0x208, 0x210, 0x218, 0x220, 0x228,
             0x230]
  {
  }

  predicate IsPad(pad: nat) {
    pad < PADS && PadOffset(pad) >= 0
  }

  // The two communities of pads.
  function Community(pad: nat): nat {
    if pad <= 2 || 14 <= pad <= 52 then 0 else 0x30000
  }

  function Dw0(pad: nat): Address
    requires IsPad(pad)
  {
    0x400 + PadOffset(pad) + Community(pad)
  }

  function Dw1(pad: nat): Address
    requires IsPad(pad)
  {
    0x404 + PadOffset(pad) + Community(pad)
  }

  /** Which pad of a community owns a slot of two words: the table read backwards. */
  function PadAt(community: nat, slot: int): int {
    if community == 0 then
      if slot <= 26 then slot + 14
      else if slot <= 27 then slot - 27
      else if slot <= 32 then slot + 13
      else if slot <= 34 then slot - 32
      else slot + 12
    else
      if slot <= 10 then slot + 53
      else if slot <= 17 then slot + 123
      else if slot <= 19 then slot - 6
      else if slot <= 44 then slot + 78
      else if slot <= 48 then slot - 41
      else if slot <= 56 then slot + 41
      else if slot <= 58 then slot - 49
      else if slot <= 70 then slot + 82
      else if slot <= 81 then slot + 8
      else if slot <= 88 then slot - 10
      else if slot <= 97 then slot - 26
      else if slot <= 99 then slot - 88
      else if slot <= 111 then slot + 22
      else slot - 109
  }

  lemma FirstPadsUndone(p: nat)
    requires IsPad(p) && p < 70
    ensures PadAt(Community(p), PadOffset(p) / 8) == p && PadOffset(p) % 8 == 0
  {
  }

  lemma LastPadsUndone(p: nat)
    requires IsPad(p) && p >= 70
    ensures PadAt(Community(p), PadOffset(p) / 8) == p && PadOffset(p) % 8 == 0
  {
  }

  lemma PadAtUndoes(p: nat)
    requires IsPad(p)
    ensures PadAt(Community(p), PadOffset(p) / 8) == p && PadOffset(p) % 8 == 0
  {
    if p < 70 {
      FirstPadsUndone(p);
    } else {
      LastPadsUndone(p);
    }
  }

  lemma SlotsDiffer(p: nat, q: nat)
    requires IsPad(p) && IsPad(q) && p != q
    ensures PadOffset(p) != PadOffset(q) || Community(p) != Community(q)
    ensures PadOffset(p) % 8 == 0 && PadOffset(q) % 8 == 0
  {
    PadAtUndoes(p);
    PadAtUndoes(q);
  }

  lemma WordsDiffer(o: nat, c: nat, o': nat, c': nat)
    requires o % 8 == 0 && o' % 8 == 0 && o <= 0x380 && o' <= 0x380 && c in {0, 0x30000} && c' in {0, 0x30000}
    requires o != o' || c != c'
    ensures o + c != o' + c' && o + c + 4 != o' + c' && o + c != o' + c' + 4
  {
  }

  /** No two pads share a configuration word. */
  lemma PadsApart(p: nat, q: nat)
    requires IsPad(p) && IsPad(q) && p != q
    ensures Dw0(p) != Dw0(q) && Dw1(p) != Dw1(q) && Dw0(p) != Dw1(q) && Dw1(p) != Dw0(q)
  {
    SlotsDiffer(p, q);
    WordsDiffer(PadOffset(p), Community(p), PadOffset(q), Community(q));
  }

  // ----- the registers that interrupt pads share -----

  function GroupOffset(pad: nat): nat
    requires pad < IRQ_PADS
  {
    match pad
    case 0 => 0x0
    case 1 => 0x4
    case 2 => 0x4
    case 3 => 0x10
    case 4 => 0x4
    case 5 => 0x4
    case 6 => 0x4
    case 7 => 0x4
    case 8 => 0x8
    case 9 => 0x8
    case 10 => 0xc
    case 11 => 0xc
    case _ => 0x4
  }

  function LockOffset(pad: nat): nat
    requires pad < IRQ_PADS
  {
    match pad
    case 0 => 0x0
    case 1 => 0x8
    case 2 => 0x8
    case 3 => 0x20
    case 4 => 0x8
    case 5 => 0x8
    case 6 => 0x8
    case 7 => 0x8
    case 8 => 0x10
    case 9 => 0x10
    case 10 => 0x18
    case 11 => 0x18
    case _ => 0x8
  }

  function OwnOffset(pad: nat): nat
    requires pad < IRQ_PADS
  {
    match pad
    case 0 => 0x0
    case 1 => 0x4
    case 2 => 0x4
    case 3 => 0x30
    case 4 => 0xc
    case 5 => 0xc
    case 6 => 0xc
    case 7 => 0xc
    case 8 => 0x10
    case 9 => 0x14
    case 10 => 0x1c
    case 11 => 0x1c
    case _ => 0x0
  }

  /** A pad's bit in its lock, event and host ownership registers. */
  function PadBit(pad: nat): Bit
    requires pad < IRQ_PADS
  {
    match pad
    case 0 => 27
    case 1 => 1
    case 2 => 2
    case 3 => 9
    case 4 => 27
    case 5 => 28
    case 6 => 29
    case 7 => 30
    case 8 => 7
    case 9 => 8
    case 10 => 27
    case 11 => 28
    case _ => 0
  }

  /** The lower of a pad's two bits in its ownership register. */
  function OwnBit(pad: nat): (b: Bit)
    requires pad < IRQ_PADS
    ensures b + 1 < 32
  {
    match pad
    case 0 => 12
    case 1 => 4
    case 2 => 8
    case 3 => 4
    case 4 => 12
    case 5 => 16
    case 6 => 20
    case 7 => 24
    case 8 => 28
    case 9 => 0
    case 10 => 12
    case 11 => 16
    case _ => 12
  }

  function Lock(pad: nat): Address
    requires pad < IRQ_PADS
  {
    0x90 + LockOffset(pad) + Community(pad)
  }

  function Enable(pad: nat): Address
    requires pad < IRQ_PADS
  {
    0x160 + GroupOffset(pad) + Community(pad)
  }

  function Status(pad: nat): Address
    requires pad < IRQ_PADS
  {
    0x140 + GroupOffset(pad) + Community(pad)
  }

  function HostOwner(pad: nat): Address
    requires pad < IRQ_PADS
  {
    0xc0 + GroupOffset(pad) + Community(pad)
  }

  function Owner(pad: nat): Address
    requires pad < IRQ_PADS
  {
    0x2c + OwnOffset(pad) + Community(pad)
  }

  /** Status registers clear the bits that are written as one. */
  predicate IsStatus(a: Address) {
    0x140 <= a < 0x154 || 0x30140 <= a < 0x30154
  }

  // ----- one pad's registers, and two pads' -----

  /** The registers of an interrupt pad, and its bits in the shared ones. */
  datatype Regs = Regs(dw0: Address, dw1: Address, enable: Address, status: Address, host: Address, owner: Address,
                       lock: Address, bit: Bit, ownBit: Bit)

  function RegsOf(pad: nat): Regs
    requires pad < IRQ_PADS
  {
    Regs(Dw0(pad), Dw1(pad), Enable(pad), Status(pad), HostOwner(pad), Owner(pad), Lock(pad), PadBit(pad), OwnBit(pad))
  }

  ghost predicate Tidy(r: Regs) {
    && r.ownBit + 1 < 32
    && IsStatus(r.status) && !IsStatus(r.dw0) && !IsStatus(r.dw1)
    && !IsStatus(r.enable) && !IsStatus(r.host) && !IsStatus(r.owner)
    && r.dw0 != r.dw1
    && r.dw0 !in {r.enable, r.status, r.host, r.owner, r.lock}
    && r.dw1 !in {r.enable, r.status, r.host, r.owner, r.lock}
    && r.enable !in {r.status, r.host, r.owner, r.lock} && r.status !in {r.host, r.owner, r.lock}
    && r.host !in {r.owner, r.lock} && r.owner != r.lock
  }

  /** Whatever r shares with q, it shares no bit of it. */
  ghost predicate RegsApart(r: Regs, q: Regs) {
    && r.dw0 !in {q.dw0, q.dw1, q.enable, q.status, q.host, q.owner, q.lock}
    && r.enable !in {q.dw0, q.dw1, q.status, q.host, q.owner, q.lock} && (r.enable == q.enable ==> r.bit != q.bit)
    && r.status !in {q.dw0, q.dw1, q.enable, q.host, q.owner, q.lock} && (r.status == q.status ==> r.bit != q.bit)
    && r.host !in {q.dw0, q.dw1, q.enable, q.status, q.owner, q.lock} && (r.host == q.host ==> r.bit != q.bit)
    && r.owner !in {q.dw0, q.dw1, q.enable, q.status, q.host, q.lock}
    && (r.owner == q.owner ==> r.ownBit + 1 < q.ownBit || q.ownBit + 1 < r.ownBit)
  }

  /** Pads that share a group register have different bits in it. */
  lemma BitsApart(p: nat, q: nat)
    requires p < IRQ_PADS && q < IRQ_PADS && p != q
    ensures GroupOffset(p) == GroupOffset(q) && Community(p) == Community(q) ==> PadBit(p) != PadBit(q)
  {
  }

  lemma OwnBitsApart(p: nat, q: nat)
    requires p < IRQ_PADS && q < IRQ_PADS && p != q
    ensures Owner(p) == Owner(q) ==> OwnBit(p) + 1 < OwnBit(q) || OwnBit(q) + 1 < OwnBit(p)
  {
  }

  lemma SameGroup(p: nat, q: nat)
    requires p < IRQ_PADS && q < IRQ_PADS
    ensures Enable(p) == Enable(q) || Status(p) == Status(q) || HostOwner(p) == HostOwner(q) ==>
              GroupOffset(p) == GroupOffset(q) && Community(p) == Community(q)
  {
  }

  /** Registers of different kinds never coincide. */
  lemma KindsApart(p: nat, q: nat)
    requires p < IRQ_PADS && q < IRQ_PADS
    ensures Enable(p) !in {Status(q), HostOwner(q), Owner(q), Lock(q)}
    ensures Status(p) !in {HostOwner(q), Owner(q), Lock(q)}
    ensures HostOwner(p) !in {Owner(q), Lock(q)} && Owner(p) != Lock(q)
    ensures IsStatus(Status(p)) && !IsStatus(Enable(p)) && !IsStatus(HostOwner(p)) && !IsStatus(Owner(p))
  {
  }

  lemma WordsApart(p: nat, q: nat)
    requires IsPad(p) && q < IRQ_PADS
    ensures {Dw0(p), Dw1(p)} !! {Enable(q), Status(q), HostOwner(q), Owner(q), Lock(q)}
    ensures !IsStatus(Dw0(p)) && !IsStatus(Dw1(p))
  {
  }

  lemma RegsTidy(p: nat)
    requires p < IRQ_PADS
    ensures Tidy(RegsOf(p))
  {
    KindsApart(p, p);
    WordsApart(p, p);
  }

  /** The tables keep every two interrupt pads apart. */
  lemma RegsOfApart(p: nat, q: nat)
    requires p < IRQ_PADS && q < IRQ_PADS && p != q
    ensures RegsApart(RegsOf(p), RegsOf(q))
  {
    PadsApart(p, q);
    BitsApart(p, q);
    OwnBitsApart(p, q);
    SameGroup(p, q);
    KindsApart(p, q);
    KindsApart(q, p);
    WordsApart(p, q);
    WordsApart(q, p);
  }
}
