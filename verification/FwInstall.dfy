/** The installed flash, analyzed: the table just written is the one that is found. */
module FwInstall {
  import opened Bytes
  import opened FwTable
  import opened FwReader
  import opened FwScan
  import L = FlashLayout

  const TABLE_AT: nat := 0x48_0000

  // An erased cell reads as ones; zero stands for whatever a spoiled one reads as.
  function Dump(f: L.Flash): (s: seq<Byte>)
    ensures |s| == |f|
  {
    seq(|f|, a requires 0 <= a < |f| =>
      match f[a]
      case Free => 0xff
      case Data(b) => b
      case Spoiled => 0)
  }

  lemma MagicIsNotOne(i: nat)
    requires i < 8
    ensures MAGIC[i] != 1
  {
  }

  /** The blocks below the table are not written, and no match can reach into it: nothing new starts there. */
  lemma NothingStartsBelow(was: seq<Byte>, src: seq<Byte>, t: nat, k: nat)
    requires |src| == |was| && t + 8 <= |src| && k < t && MagicAt(src, t) && !TableStart(was, k)
    requires forall i :: 0 <= i < t ==> src[i] == was[i]
    ensures !TableStart(src, k)
  {
    if MagicAt(src, k) {
      MagicApart(src, k, t);
      if k + 12 < t {
        assert was[k..k + 8] == src[k..k + 8];
      } else {
        MagicByte(src, t, k + 12 - t);
        MagicIsNotOne(k + 12 - t);
      }
    }
  }

  /** After an installation onto flash with no table below the new one, analyzing the flash finds the new table, reads
    back every field of it, and with any firmware entry shows two equal checksums. */
  lemma InstalledTableIsFound(f: L.Flash, im: L.Images, page: nat, parts: seq<Part>, fws: seq<Fw>)
    requires PartsFit(parts) && FwsFit(fws) && im.table == Table(parts, fws) && |im.table| <= 0x38_0000
    requires L.Installable(f, im, page)
    requires forall k: nat :: k < TABLE_AT ==> !TableStart(Window(Dump(f)), k)
    ensures var found := ReadBack(TABLE_AT, parts, fws);
            && Parse(Dump(L.Install(f, im, page))) == Some(found)
            && (fws != [] ==> found.stored == found.calculated)
  {
    TableVerifies(parts, fws);
    var g := L.Install(f, im, page);
    L.InstallDoes(f, im, page);
    TableInPlace(f, g, im, page);
    var src := Window(Dump(g));
    TableReadsBack(src, TABLE_AT, parts, fws);
    forall k: nat | k < TABLE_AT
      ensures !TableStart(src, k)
    {
      NothingStartsBelow(Window(Dump(f)), src, TABLE_AT, k);
    }
    FirstIs(src, 0, TABLE_AT);
  }

  lemma TableInPlace(f: L.Flash, g: L.Flash, im: L.Images, page: nat)
    requires page > 0 && L.Installed(f, g, im, page, {L.Table, L.RescueDt, L.KernelDt, L.Kernel, L.Rootfs})
    requires |im.table| <= 0x38_0000 && L.End(im, L.Rootfs) <= |f|
    ensures var was, src := Window(Dump(f)), Window(Dump(g));
            && |src| == |was| == WINDOW && Matches(src, TABLE_AT, im.table)
            && forall i :: 0 <= i < TABLE_AT ==> src[i] == was[i]
  {
    assert L.Fills(g, L.Offset(im, L.Table), L.Image(im, L.Table), page);
    var src := Window(Dump(g));
    forall i | 0 <= i < |im.table|
      ensures src[TABLE_AT + i] == im.table[i]
    {
      assert g[TABLE_AT + i] == L.Data(im.table[i]);
    }
    forall i: nat | i < TABLE_AT
      ensures src[i] == Window(Dump(f))[i]
    {
      assert forall s: L.Slot :: L.Offset(im, s) >= TABLE_AT;
      assert g[i] == f[i];
    }
  }
}
