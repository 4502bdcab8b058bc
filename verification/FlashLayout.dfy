/** Where the installer puts its images in NAND flash, what it erases for them, and what it leaves alone. */
module FlashLayout {
  import opened Arithmetic
  import opened Bytes
  import FwTable

  const ERASE: nat := FwTable.ERASE_SIZE
  const AUDIO_SIZE: nat := 1010368

  /** The files to install; the audio firmware is left as it is. */
  datatype Images = Images(table: seq<Byte>, rescueDt: seq<Byte>, kernelDt: seq<Byte>, kernel: seq<Byte>,
                           rootfs: seq<Byte>)

  datatype Slot = Table | RescueDt | KernelDt | Audio | Kernel | Rootfs

  function Blocks(n: nat): nat {
    (n + ERASE - 1) / ERASE
  }

  function RoundUp(n: nat): (r: nat)
    ensures n <= r < n + ERASE
  {
    Blocks(n) * ERASE
  }

  function Size(im: Images, s: Slot): nat {
    match s
    case Table => |im.table|
    case RescueDt => |im.rescueDt|
    case KernelDt => |im.kernelDt|
    case Audio => AUDIO_SIZE
    case Kernel => |im.kernel|
    case Rootfs => |im.rootfs|
  }

  // The table has its own place; the other images follow each other.
  function Offset(im: Images, s: Slot): nat {
    match s
    case Table => 0x48_0000
    case RescueDt => 0xc4_0000
    case KernelDt => 0xc4_0000 + RoundUp(|im.rescueDt|)
    case Audio => 0xc4_0000 + RoundUp(|im.rescueDt|) + RoundUp(|im.kernelDt|)
    case Kernel => 0xc4_0000 + RoundUp(|im.rescueDt|) + RoundUp(|im.kernelDt|) + RoundUp(AUDIO_SIZE)
    case Rootfs => 0xc4_0000 + RoundUp(|im.rescueDt|) + RoundUp(|im.kernelDt|) + RoundUp(AUDIO_SIZE)
                   + RoundUp(|im.kernel|)
  }

  function End(im: Images, s: Slot): nat {
    Offset(im, s) + RoundUp(Size(im, s))
  }

  predicate Before(s: Slot, t: Slot) {
    Rank(s) < Rank(t)
  }

  function Rank(s: Slot): nat {
    match s
    case Table => 0
    case RescueDt => 1
    case KernelDt => 2
    case Audio => 3
    case Kernel => 4
    case Rootfs => 5
  }

  // The same offsets counted in erase blocks.
  function BlockAt(im: Images, s: Slot): nat {
    match s
    case Table => 36
    case RescueDt => 98
    case KernelDt => 98 + Blocks(|im.rescueDt|)
    case Audio => 98 + Blocks(|im.rescueDt|) + Blocks(|im.kernelDt|)
    case Kernel => 98 + Blocks(|im.rescueDt|) + Blocks(|im.kernelDt|) + Blocks(AUDIO_SIZE)
    case Rootfs => 98 + Blocks(|im.rescueDt|) + Blocks(|im.kernelDt|) + Blocks(AUDIO_SIZE) + Blocks(|im.kernel|)
  }

  lemma WholeBlocks(k: nat)
    ensures k * ERASE % ERASE == 0 && k * ERASE / ERASE == k
  {
    QuotientIs(k * ERASE, ERASE, k);
  }

  /** Every image starts and ends at an erase block. */
  lemma Aligned(im: Images, s: Slot)
    ensures Offset(im, s) % ERASE == 0 && End(im, s) % ERASE == 0
  {
    WholeBlocks(BlockAt(im, s));
    WholeBlocks(BlockAt(im, s) + Blocks(Size(im, s)));
    assert Offset(im, s) == BlockAt(im, s) * ERASE;
    assert End(im, s) == (BlockAt(im, s) + Blocks(Size(im, s))) * ERASE;
  }

  /** The regions follow each other without gap or overlap; the table stays clear of them exactly when it fits between
    its offset and the first of them. */
  lemma RegionsApart(im: Images, s: Slot, t: Slot)
    requires Before(s, t) && s != Table
    ensures End(im, s) <= Offset(im, t) && (Rank(t) == Rank(s) + 1 ==> End(im, s) == Offset(im, t))
  {
  }

  /** The places by number; one megabyte is left for the audio firmware. */
  lemma Places(im: Images)
    ensures Offset(im, Table) == 0x48_0000 && Offset(im, RescueDt) == 0xc4_0000
    ensures End(im, Audio) == Offset(im, Audio) + 0x10_0000
    ensures forall n: nat :: RoundUp(n) == (if n % 0x2_0000 == 0 then n else n / 0x2_0000 * 0x2_0000 + 0x2_0000)
  {
    forall n: nat
      ensures RoundUp(n) == (if n % 0x2_0000 == 0 then n else n / 0x2_0000 * 0x2_0000 + 0x2_0000)
    {
      QuotientIs(n + ERASE - 1, ERASE, if n % ERASE == 0 then n / ERASE else n / ERASE + 1);
    }
  }

  lemma TableFits(im: Images)
    ensures End(im, Table) <= Offset(im, RescueDt) <==> |im.table| <= 0x7c_0000
  {
  }

  // ----- erasing and writing -----

  /** A cell can be programmed once after it has been erased; a second time spoils it. */
  datatype Cell = Free | Data(b: Byte) | Spoiled

  type Flash = seq<Cell>

  // A count of zero blocks means all blocks up to the end of the device.
  function EraseEnd(f: Flash, off: nat, count: nat): nat {
    if count == 0 then |f| else off + count * ERASE
  }

  function Erase(f: Flash, off: nat, count: nat): (g: Flash)
    ensures |g| == |f|
  {
    seq(|f|, a requires 0 <= a < |f| => if off <= a < EraseEnd(f, off, count) then Free else f[a])
  }

  function PageUp(n: nat, page: nat): nat
    requires page > 0
  {
    QuotientBound(n + page - 1, page);
    Times((n + page - 1) / page, page)
  }

  function Times(a: nat, b: nat): nat {
    MulMono(0, a, b);
    a * b
  }

  function Programmed(c: Cell, b: Byte): Cell {
    if c.Free? then Data(b) else Spoiled
  }

  // The last page is filled up.
  function Program(f: Flash, off: nat, image: seq<Byte>, page: nat): (g: Flash)
    requires page > 0
    ensures |g| == |f|
  {
    seq(|f|, a requires 0 <= a < |f| =>
      if off <= a < off + |image| then Programmed(f[a], image[a - off])
      else if off + |image| <= a < off + PageUp(|image|, page) then Programmed(f[a], 0xff)
      else f[a])
  }

  function Install1(f: Flash, off: nat, image: seq<Byte>, page: nat): Flash
    requires page > 0
  {
    Program(Erase(f, off, RoundUp(|image|) / ERASE), off, image, page)
  }

  /** A whole number of pages makes an erase block. */
  ghost predicate PageFits(page: nat) {
    page > 0 && exists k: nat :: k * page == ERASE
  }

  /** The pages written for an image lie in the blocks erased for it. */
  lemma PagesInBlocks(n: nat, page: nat)
    requires PageFits(page)
    ensures n <= PageUp(n, page) <= RoundUp(n)
  {
    var k: nat :| k * page == ERASE;
    var q := (n + ERASE - 1) / ERASE;
    var pages := (n + page - 1) / page;
    QuotientOf(n + page - 1, page);
    Associate(q, k, page);
    Distribute(q * k, 1, page);
    MulMono(0, q, k);
    QuotientBelow(n + page - 1, page, q * k + 1);
    MulMono(pages, q * k, page);
  }

  ghost predicate AllFree(f: Flash, lo: nat, hi: nat) {
    hi <= |f| && forall a :: lo <= a < hi ==> f[a] == Free
  }

  /** The image at its place, the rest of its last page filled with ones, and the rest of its last block free. */
  ghost predicate Fills(f: Flash, off: nat, image: seq<Byte>, page: nat)
    requires page > 0
  {
    && off + RoundUp(|image|) <= |f|
    && |image| <= PageUp(|image|, page) <= RoundUp(|image|)
    && (forall i :: 0 <= i < |image| ==> f[off + i] == Data(image[i]))
    && (forall a :: off + |image| <= a < off + PageUp(|image|, page) ==> f[a] == Data(0xff))
    && AllFree(f, off + PageUp(|image|, page), off + RoundUp(|image|))
  }

  ghost predicate SameOutside(f: Flash, g: Flash, lo: nat, hi: nat) {
    |g| == |f| && forall a :: 0 <= a < |f| && !(lo <= a < hi) ==> g[a] == f[a]
  }

  lemma EraseLocal(f: Flash, off: nat, n: nat)
    requires n > 0 && off + RoundUp(n) <= |f|
    ensures var g := Erase(f, off, RoundUp(n) / ERASE);
            AllFree(g, off, off + RoundUp(n)) && SameOutside(f, g, off, off + RoundUp(n))
  {
    WholeBlocks(Blocks(n));
    assert RoundUp(n) / ERASE == Blocks(n) > 0;
    assert EraseEnd(f, off, Blocks(n)) == off + RoundUp(n);
  }

  /** What is written onto free blocks fills them. */
  lemma ProgramFills(f: Flash, off: nat, image: seq<Byte>, page: nat)
    requires PageFits(page) && AllFree(f, off, off + RoundUp(|image|))
    ensures var g := Program(f, off, image, page);
            Fills(g, off, image, page) && SameOutside(f, g, off, off + RoundUp(|image|))
  {
    PagesInBlocks(|image|, page);
  }

  /** The state in which a non-empty image is written: all pages it needs are free, and nothing outside its blocks has
    changed. */
  ghost predicate Ready(f: Flash, e: Flash, off: nat, image: seq<Byte>, page: nat)
    requires page > 0
  {
    AllFree(e, off, off + PageUp(|image|, page)) && SameOutside(f, e, off, off + RoundUp(|image|))
  }

  /** Installing a non-empty image writes it onto free cells only, fills its blocks and changes nothing outside them. */
  lemma Install1Local(f: Flash, off: nat, image: seq<Byte>, page: nat)
    requires PageFits(page) && image != [] && off + RoundUp(|image|) <= |f|
    ensures var g := Install1(f, off, image, page);
            && Fills(g, off, image, page) && SameOutside(f, g, off, off + RoundUp(|image|))
            && exists e :: Ready(f, e, off, image, page) && g == Program(e, off, image, page)
  {
    var erased := Erase(f, off, RoundUp(|image|) / ERASE);
    EraseLocal(f, off, |image|);
    ProgramFills(erased, off, image, page);
    PagesInBlocks(|image|, page);
    assert Ready(f, erased, off, image, page);
    var g := Install1(f, off, image, page);
    forall a | 0 <= a < |f| && !(off <= a < off + RoundUp(|image|))
      ensures g[a] == f[a]
    {
      assert g[a] == erased[a] == f[a];
    }
  }

  function Image(im: Images, s: Slot): seq<Byte>
    requires s != Audio
  {
    match s
    case Table => im.table
    case RescueDt => im.rescueDt
    case KernelDt => im.kernelDt
    case Kernel => im.kernel
    case Rootfs => im.rootfs
  }

  function Put(f: Flash, im: Images, s: Slot, page: nat): (g: Flash)
    requires page > 0 && s != Audio
    ensures |g| == |f|
  {
    Install1(f, Offset(im, s), Image(im, s), page)
  }

  /** The flash when the turn of a slot comes. */
  function Upto(f: Flash, im: Images, page: nat, s: Slot): (g: Flash)
    requires page > 0 && s != Audio
    ensures |g| == |f|
    decreases Rank(s)
  {
    match s
    case Table => f
    case RescueDt => Put(f, im, Table, page)
    case KernelDt => Put(Upto(f, im, page, RescueDt), im, RescueDt, page)
    case Kernel => Put(Upto(f, im, page, KernelDt), im, KernelDt, page)
    case Rootfs => Put(Upto(f, im, page, Kernel), im, Kernel, page)
  }

  /** The installation, image by image. */
  function Install(f: Flash, im: Images, page: nat): Flash
    requires page > 0
  {
    Put(Upto(f, im, page, Rootfs), im, Rootfs, page)
  }

  ghost predicate Installable(f: Flash, im: Images, page: nat) {
    && PageFits(page) && |im.table| <= 0x7c_0000 && End(im, Rootfs) <= |f|
    && forall s: Slot :: Size(im, s) > 0
  }

  /** What has been put in place stays, and the rest of the flash is as it was. */
  ghost predicate Installed(f: Flash, g: Flash, im: Images, page: nat, done: set<Slot>)
    requires page > 0 && Audio !in done
  {
    && |g| == |f|
    && (forall s :: s in done ==> Fills(g, Offset(im, s), Image(im, s), page))
    && (forall a :: 0 <= a < |f| && (forall s :: s in done ==> !(Offset(im, s) <= a < End(im, s))) ==> g[a] == f[a])
  }

  lemma Apart(im: Images, s: Slot, t: Slot)
    requires |im.table| <= 0x7c_0000 && s != t
    ensures End(im, s) <= Offset(im, t) || End(im, t) <= Offset(im, s)
  {
    TableFits(im);
    if s != Table && t != Table {
      if Before(s, t) {
        RegionsApart(im, s, t);
      } else {
        RegionsApart(im, t, s);
      }
    }
  }

  lemma EndsInside(im: Images, s: Slot)
    requires |im.table| <= 0x7c_0000
    ensures End(im, s) <= End(im, Rootfs)
  {
    TableFits(im);
  }

  lemma FillsKept(g: Flash, h: Flash, off: nat, image: seq<Byte>, page: nat, lo: nat, hi: nat)
    requires page > 0 && Fills(g, off, image, page) && SameOutside(g, h, lo, hi)
    requires off + RoundUp(|image|) <= lo || hi <= off
    ensures Fills(h, off, image, page)
  {
  }

  lemma PutInstalls(f: Flash, g: Flash, im: Images, page: nat, done: set<Slot>, s: Slot)
    requires Installable(f, im, page) && Audio !in done && s !in done && s != Audio && Installed(f, g, im, page, done)
    ensures Installed(f, Put(g, im, s, page), im, page, done + {s})
  {
    EndsInside(im, s);
    assert Size(im, s) > 0;
    Install1Local(g, Offset(im, s), Image(im, s), page);
    var h := Put(g, im, s, page);
    forall t | t in done
      ensures Fills(h, Offset(im, t), Image(im, t), page)
    {
      Apart(im, s, t);
      FillsKept(g, h, Offset(im, t), Image(im, t), page, Offset(im, s), End(im, s));
    }
    forall a | 0 <= a < |f| && (forall t :: t in done + {s} ==> !(Offset(im, t) <= a < End(im, t)))
      ensures h[a] == f[a]
    {
      assert s in done + {s};
      assert forall t :: t in done ==> t in done + {s};
    }
  }

  lemma PutOnFree(f: Flash, g: Flash, im: Images, page: nat, s: Slot)
    requires Installable(f, im, page) && s != Audio && |g| == |f|
    ensures exists e :: Ready(g, e, Offset(im, s), Image(im, s), page)
                        && Put(g, im, s, page) == Program(e, Offset(im, s), Image(im, s), page)
  {
    EndsInside(im, s);
    assert Size(im, s) > 0;
    Install1Local(g, Offset(im, s), Image(im, s), page);
  }

  /** Each of the five images is written onto free cells only. */
  lemma WrittenOnFree(f: Flash, im: Images, page: nat, s: Slot)
    requires Installable(f, im, page) && s != Audio
    ensures var g := Upto(f, im, page, s);
            exists e :: Ready(g, e, Offset(im, s), Image(im, s), page)
                        && Put(g, im, s, page) == Program(e, Offset(im, s), Image(im, s), page)
  {
    PutOnFree(f, Upto(f, im, page, s), im, page, s);
  }

  function DoneBefore(s: Slot): set<Slot>
    requires s != Audio
  {
    match s
    case Table => {}
    case RescueDt => {Table}
    case KernelDt => {Table, RescueDt}
    case Kernel => {Table, RescueDt, KernelDt}
    case Rootfs => {Table, RescueDt, KernelDt, Kernel}
  }

  lemma {:induction false} UptoInstalls(f: Flash, im: Images, page: nat, s: Slot)
    requires Installable(f, im, page) && s != Audio
    ensures Installed(f, Upto(f, im, page, s), im, page, DoneBefore(s))
    decreases Rank(s)
  {
    if s != Table {
      var last := match s case RescueDt => Table case KernelDt => RescueDt case Kernel => KernelDt case _ => Kernel;
      UptoInstalls(f, im, page, last);
      PutInstalls(f, Upto(f, im, page, last), im, page, DoneBefore(last), last);
      assert DoneBefore(last) + {last} == DoneBefore(s);
    }
  }

  /** With no empty image and a table that fits: afterwards the flash holds every image at its offset, and outside the
    blocks of the five images nothing has changed; the audio firmware in particular. */
  lemma InstallDoes(f: Flash, im: Images, page: nat)
    requires Installable(f, im, page)
    ensures var g := Install(f, im, page);
            && Installed(f, g, im, page, {Table, RescueDt, KernelDt, Kernel, Rootfs})
            && g[Offset(im, Audio)..End(im, Audio)] == f[Offset(im, Audio)..End(im, Audio)]
  {
    UptoInstalls(f, im, page, Rootfs);
    PutInstalls(f, Upto(f, im, page, Rootfs), im, page, DoneBefore(Rootfs), Rootfs);
    assert DoneBefore(Rootfs) + {Rootfs} == {Table, RescueDt, KernelDt, Kernel, Rootfs};
    AudioKept(f, Install(f, im, page), im, page);
  }

  lemma AudioKept(f: Flash, g: Flash, im: Images, page: nat)
    requires page > 0 && |im.table| <= 0x7c_0000 && End(im, Rootfs) <= |f|
    requires Installed(f, g, im, page, {Table, RescueDt, KernelDt, Kernel, Rootfs})
    ensures End(im, Audio) <= |f| && g[Offset(im, Audio)..End(im, Audio)] == f[Offset(im, Audio)..End(im, Audio)]
  {
    EndsInside(im, Audio);
    forall a: nat | Offset(im, Audio) <= a < End(im, Audio)
      ensures g[a] == f[a]
    {
      forall s: Slot | s != Audio
        ensures !(Offset(im, s) <= a < End(im, s))
      {
        Apart(im, s, Audio);
      }
    }
  }

  // ----- exactly when the audio firmware is safe -----

  /** Installing slot s erases or writes the cell at a. */
  predicate Touches(f: Flash, im: Images, s: Slot, page: nat, a: nat)
    requires page > 0 && s != Audio
  {
    || Offset(im, s) <= a < EraseEnd(f, Offset(im, s), RoundUp(Size(im, s)) / ERASE)
    || Offset(im, s) <= a < Offset(im, s) + PageUp(Size(im, s), page)
  }

  ghost predicate AudioTouched(f: Flash, im: Images, s: Slot, page: nat)
    requires page > 0 && s != Audio
  {
    exists a: nat :: Offset(im, Audio) <= a < End(im, Audio) && Touches(f, im, s, page, a)
  }

  lemma SlotTouchesAudio(f: Flash, im: Images, s: Slot, page: nat)
    requires PageFits(page) && s != Audio && End(im, Rootfs) <= |f|
    ensures AudioTouched(f, im, s, page) <==>
            Before(s, Audio) && (Size(im, s) == 0 || End(im, s) > Offset(im, Audio))
  {
    PagesInBlocks(Size(im, s), page);
    WholeBlocks(Blocks(Size(im, s)));
    var a := Offset(im, Audio);
    assert a < End(im, Audio) <= |f|;
    if Before(s, Audio) && (Size(im, s) == 0 || End(im, s) > a) {
      assert Touches(f, im, s, page, a);
    }
  }

  /** No cell of the audio firmware is erased or written exactly when the table and both device trees are not empty and
    the table's blocks end before it; the kernel and the root file system lie behind it. */
  lemma AudioSafeExactly(f: Flash, im: Images, page: nat)
    requires PageFits(page) && End(im, Rootfs) <= |f|
    ensures (forall s: Slot :: s != Audio ==> !AudioTouched(f, im, s, page)) <==>
            im.table != [] && im.rescueDt != [] && im.kernelDt != [] && End(im, Table) <= Offset(im, Audio)
  {
    forall s: Slot | s != Audio
      ensures AudioTouched(f, im, s, page) <==> Before(s, Audio) && (Size(im, s) == 0 || End(im, s) > Offset(im, Audio))
    {
      SlotTouchesAudio(f, im, s, page);
    }
    assert AudioTouched(f, im, Table, page) <==> |im.table| == 0 || End(im, Table) > Offset(im, Audio);
    assert AudioTouched(f, im, RescueDt, page) <==> |im.rescueDt| == 0;
    assert AudioTouched(f, im, KernelDt, page) <==> |im.kernelDt| == 0;
  }

  // ----- the script's steps -----

  class Nand {
    var cells: Flash

    constructor (cells: Flash)
      ensures this.cells == cells
    {
      this.cells := cells;
    }

    method FlashErase(off: nat, count: nat)
      modifies this
      ensures cells == Erase(old(cells), off, count)
    {
      cells := Erase(cells, off, count);
    }

    method NandWrite(off: nat, image: seq<Byte>, page: nat)
      requires page > 0
      modifies this
      ensures cells == Program(old(cells), off, image, page)
    {
      cells := Program(cells, off, image, page);
    }

    method PutImage(off: nat, pad: nat, image: seq<Byte>, page: nat)
      requires page > 0 && pad == RoundUp(|image|)
      modifies this
      ensures cells == Install1(old(cells), off, image, page)
    {
      FlashErase(off, pad / ERASE);
      NandWrite(off, image, page);
    }

    /** Offsets computed one from the other, then each image erased for and written. */
    method InstallAll(im: Images, page: nat)
      requires page > 0
      modifies this
      ensures cells == Install(old(cells), im, page)
    {
      var kernelPad := RoundUp(|im.kernel|);
      var kernelDtPad := RoundUp(|im.kernelDt|);
      var rescueDtPad := RoundUp(|im.rescueDt|);
      var rootfsPad := RoundUp(|im.rootfs|);
      var audioPad := RoundUp(AUDIO_SIZE);
      var rescueDtOffset: nat := 0xc4_0000;
      var kernelDtOffset := rescueDtOffset + rescueDtPad;
      var audioOffset := kernelDtOffset + kernelDtPad;
      var kernelOffset := audioOffset + audioPad;
      var rootfsOffset := kernelOffset + kernelPad;
      var tableOffset: nat := 0x48_0000;
      var tablePad := RoundUp(|im.table|);
      assert tableOffset == Offset(im, Table) && rescueDtOffset == Offset(im, RescueDt);
      assert kernelDtOffset == Offset(im, KernelDt) && kernelOffset == Offset(im, Kernel);
      assert rootfsOffset == Offset(im, Rootfs);
      ghost var f := cells;
      PutImage(tableOffset, tablePad, im.table, page);
      assert cells == Upto(f, im, page, RescueDt);
      PutImage(rescueDtOffset, rescueDtPad, im.rescueDt, page);
      assert cells == Upto(f, im, page, KernelDt);
      PutImage(kernelDtOffset, kernelDtPad, im.kernelDt, page);
      assert cells == Upto(f, im, page, Kernel);
      PutImage(kernelOffset, kernelPad, im.kernel, page);
      assert cells == Upto(f, im, page, Rootfs);
      PutImage(rootfsOffset, rootfsPad, im.rootfs, page);
    }
  }
}
