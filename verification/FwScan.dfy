/** The installer's own loops over the bytes: the search for tables, the walk over the entries, the checksum. */
module FwScan {
  import opened Bytes
  import opened FwTable
  import opened FwReader

  // ----- finding tables -----

  lemma MagicByte(src: seq<Byte>, t: nat, i: nat)
    requires MagicAt(src, t) && i < 8
    ensures src[t + i] == MAGIC[i]
  {
    assert src[t..t + 8][i] == MAGIC[i];
  }

  lemma FirstByteOnce(i: nat)
    requires 0 < i < 8
    ensures MAGIC[i] != MAGIC[0]
  {
  }

  /** Two places that carry the magic never overlap. */
  lemma MagicApart(src: seq<Byte>, t: nat, u: nat)
    requires MagicAt(src, t) && MagicAt(src, u) && t < u
    ensures t + 8 <= u
  {
    MagicByte(src, u, 0);
    if u < t + 8 {
      FirstByteOnce(u - t);
      MagicByte(src, t, u - t);
    }
  }

  /** All matches from left to right, each search going on behind the last match. */
  method TableOffsets(src: seq<Byte>) returns (offsets: seq<nat>)
    ensures forall i, j :: 0 <= i < j < |offsets| ==> offsets[i] < offsets[j]
    ensures forall t: nat :: t in offsets <==> MagicAt(src, t)
  {
    offsets := [];
    var t := 0;
    while t < |src|
      invariant forall i, j :: 0 <= i < j < |offsets| ==> offsets[i] < offsets[j]
      invariant forall i :: 0 <= i < |offsets| ==> MagicAt(src, offsets[i]) && offsets[i] < t
      invariant forall u: nat :: MagicAt(src, u) && u < t ==> u in offsets
    {
      if t + 8 <= |src| && src[t..t + 8] == MAGIC {
        forall u: nat | MagicAt(src, u) && t < u
          ensures t + 8 <= u
        {
          MagicApart(src, t, u);
        }
        ghost var before := offsets;
        offsets := offsets + [t];
        assert forall u: nat :: u in before || u == t ==> u in offsets;
        t := t + 8;
      } else {
        t := t + 1;
      }
    }
  }

  // ----- reading one table -----

  method ReadPart(src: seq<Byte>, start: nat) returns (p: PartRead, offset: nat)
    ensures p == PartAt(src, start) && offset == start + 48
  {
    offset := start;
    var kind: nat := At(src, offset);
    offset := offset + 1;
    var flags: nat := At(src, offset);
    offset := offset + 1;
    var len := Shown(Long(src, offset));
    offset := offset + 8;
    var count: nat := At(src, offset);
    offset := offset + 1;
    var fwType: nat := At(src, offset);
    offset := offset + 1;
    offset := offset + 4;
    var mount := Field(src, offset, 32);
    offset := offset + 32;
    p := PartRead(kind, flags, len, count, fwType, mount);
  }

  method ReadFw(src: seq<Byte>, start: nat) returns (f: FwRead, offset: nat)
    ensures f == FwAt(src, start) && offset == start + 32
  {
    offset := start;
    var kind: nat := At(src, offset);
    offset := offset + 1;
    var flags: nat := At(src, offset);
    offset := offset + 1;
    var version := Word(src, offset);
    offset := offset + 4;
    var target := Word(src, offset);
    offset := offset + 4;
    var fwOffset := Word(src, offset);
    offset := offset + 4;
    var len := Word(src, offset);
    offset := offset + 4;
    var paddings := Word(src, offset);
    offset := offset + 4;
    var checksum := Word(src, offset);
    offset := offset + 4;
    offset := offset + 6;
    f := FwRead(kind, flags, version, target, fwOffset, len, paddings, checksum);
  }

  lemma {:induction false} ReadAllAppend<R>(read: nat -> R, off: nat, size: nat, n: nat, last: nat)
    requires last == off + size * n
    ensures ReadAll(read, off, size, n + 1) == ReadAll(read, off, size, n) + [read(last)]
    decreases n
  {
    if n > 0 {
      assert off + size + size * (n - 1) == last;
      ReadAllAppend(read, off + size, size, n - 1, last);
    } else {
      assert ReadAll(read, off, size, 1) == [read(off)] + ReadAll(read, off + size, size, 0);
    }
  }

  method ReadParts(src: seq<Byte>, start: nat, n: nat) returns (parts: seq<PartRead>, offset: nat)
    ensures parts == ReadAll(Of(src).part, start, 48, n) && offset == start + 48 * n
  {
    ghost var read := Of(src).part;
    parts, offset := [], start;
    var x := 0;
    while x < n
      invariant x <= n && offset == start + 48 * x && parts == ReadAll(read, start, 48, x)
    {
      ReadAllAppend(read, start, 48, x, offset);
      var p;
      p, offset := ReadPart(src, offset);
      parts := parts + [p];
      x := x + 1;
    }
  }

  method ReadFws(src: seq<Byte>, start: nat, n: nat) returns (fws: seq<FwRead>, offset: nat)
    ensures fws == ReadAll(Of(src).fw, start, 32, n) && offset == start + 32 * n
  {
    ghost var read := Of(src).fw;
    fws, offset := [], start;
    var x := 0;
    while x < n
      invariant x <= n && offset == start + 32 * x && fws == ReadAll(read, start, 32, x)
    {
      ReadAllAppend(read, start, 32, x, offset);
      var f;
      f, offset := ReadFw(src, offset);
      fws := fws + [f];
      x := x + 1;
    }
  }

  /** The byte sum of a stretch of the file, brought below the limit step by step. */
  method Checksum(src: seq<Byte>, off: nat, n: nat) returns (sum: nat)
    ensures sum == CalculatedSum(Extract(src, off, n))
  {
    var bytes := Extract(src, off, n);
    sum := 0;
    for i := 0 to |bytes|
      invariant sum == ReducedTo(bytes, i)
    {
      sum := sum + bytes[i];
      if sum >= LIMIT {
        sum := sum - LIMIT;
      }
    }
  }

  // Both lists, from where the first one starts.
  ghost predicate AreLists(r: Reader, start: nat, partLen: nat, listLen: nat, parts: seq<PartRead>, fws: seq<FwRead>) {
    && parts == ReadAll(r.part, start, 48, partLen / 48)
    && fws == ReadAll(r.fw, start + 48 * (partLen / 48), 32, listLen / 32)
  }

  method ReadLists(src: seq<Byte>, start: nat, partLen: nat, listLen: nat)
    returns (parts: seq<PartRead>, fws: seq<FwRead>)
    ensures AreLists(Of(src), start, partLen, listLen, parts, fws)
  {
    var afterParts, afterFws;
    parts, afterParts := ReadParts(src, start, partLen / 48);
    fws, afterFws := ReadFws(src, afterParts, listLen / 32);
  }

  lemma ReadsBy(r: Reader, t: nat, sum: nat, parts: seq<PartRead>, fws: seq<FwRead>)
    requires AreLists(r, t + 32, r.word(t + 24), r.word(t + 28), parts, fws)
    ensures TableBy(r, t, sum) ==
            Found(t, r.word(t + 8), sum, r.word(t + 20), r.word(t + 24), r.word(t + 28), parts, fws)
  {
  }

  lemma ReadsAs(src: seq<Byte>, t: nat, partLen: nat, listLen: nat, parts: seq<PartRead>, fws: seq<FwRead>)
    requires partLen == Word(src, t + 24) && listLen == Word(src, t + 28)
    requires AreLists(Of(src), t + 32, partLen, listLen, parts, fws)
    ensures TableAt(src, t) ==
            Found(t, Word(src, t + 8), SumAt(src, t), Word(src, t + 20), partLen, listLen, parts, fws)
  {
    ReadsBy(Of(src), t, SumAt(src, t), parts, fws);
  }

  method ReadHead(src: seq<Byte>, table: nat)
    returns (stored: nat, calculated: nat, paddings: nat, partLen: nat, listLen: nat)
    ensures stored == Word(src, table + 8) && calculated == SumAt(src, table) && paddings == Word(src, table + 20)
    ensures partLen == Word(src, table + 24) && listLen == Word(src, table + 28)
  {
    stored := Word(src, table + 8);
    paddings := Word(src, table + 20);
    partLen := Word(src, table + 24);
    listLen := Word(src, table + 28);
    var size := partLen + listLen + 19;
    calculated := Checksum(src, table + 12, size);
  }

  method ReadTable(src: seq<Byte>, table: nat) returns (found: Found)
    ensures found == TableAt(src, table)
  {
    var stored, calculated, paddings, partLen, listLen := ReadHead(src, table);
    var parts, fws := ReadLists(src, table + 32, partLen, listLen);
    ReadsAs(src, table, partLen, listLen, parts, fws);
    found := Found(table, stored, calculated, paddings, partLen, listLen, parts, fws);
  }

  /** The first table of version one in the first eight megabytes, if there is one. */
  method Analyze(file: seq<Byte>) returns (found: Option<Found>)
    ensures found == Parse(file)
  {
    var src := Window(file);
    var offsets := TableOffsets(src);
    for k := 0 to |offsets|
      invariant forall i :: 0 <= i < k ==> !TableStart(src, offsets[i])
    {
      var table := offsets[k];
      assert table in offsets;
      if At(src, table + 12) == 1 {
        forall u: nat | u < table
          ensures !TableStart(src, u)
        {
          if MagicAt(src, u) {
            var i :| 0 <= i < |offsets| && offsets[i] == u;
            assert i < k;
          }
        }
        FirstIs(src, 0, table);
        var t := ReadTable(src, table);
        return Some(t);
      }
    }
    NoneStarts(src, 0);
    found := None;
  }

  // ----- the two checksums -----

  lemma {:induction false} ReducedIsSum(s: seq<Byte>, n: nat)
    requires n <= |s|
    ensures ReducedTo(s, n) == SumTo(s, n) % 0xffff_ffff
  {
    if n > 0 {
      ReducedIsSum(s, n - 1);
      ReduceStep(SumTo(s, n - 1), ReducedTo(s, n - 1), s[n - 1]);
    }
  }

  lemma ReduceStep(x: nat, r: nat, b: Byte)
    requires r == x % LIMIT
    ensures (x + b) % LIMIT == if r + b >= LIMIT then r + b - LIMIT else r + b
  {
  }

  lemma {:induction false} SumBound(s: seq<Byte>, n: nat)
    requires n <= |s|
    ensures SumTo(s, n) <= 0xff * n
  {
    if n > 0 {
      SumBound(s, n - 1);
    }
  }

  lemma {:induction false} SumOfPrefix(s: seq<Byte>, t: seq<Byte>, n: nat)
    requires n <= |s| && n <= |t| && forall i :: 0 <= i < n ==> s[i] == t[i]
    ensures SumTo(s, n) == SumTo(t, n)
  {
    if n > 0 {
      SumOfPrefix(s, t, n - 1);
    }
  }

  /** The stored sum covers every byte modulo 2^32, the recalculated one all but the last modulo 2^32 - 1: below that
    limit they agree exactly when the last byte is zero. */
  lemma SumsAgree(body: seq<Byte>)
    requires body != [] && Sum(body) < 0xffff_ffff
    ensures StoredSum(body) == CheckedSum(body) <==> body[|body| - 1] == 0
  {
    var s, n := body[..|body| - 1], |body| - 1;
    ReducedIsSum(s, n);
    SumOfPrefix(s, body, n);
    assert Sum(body) == SumTo(body, n) + body[n];
    BelowBoth(Sum(body));
    BelowBoth(SumTo(s, n));
  }

  lemma BelowBoth(x: nat)
    requires x < LIMIT
    ensures x % LIMIT == x && x % TWO32 == x
  {
  }

  lemma WindowBelowLimit(body: seq<Byte>)
    requires |body| <= WINDOW
    ensures Sum(body) < LIMIT
  {
    SumBound(body, |body|);
  }

  /** Whether a printed body ends in a zero byte can be told from the lists. */
  predicate EndsInZero(parts: seq<Part>, fws: seq<Fw>) {
    fws != [] || parts == [] || |parts[|parts| - 1].mount| < 32 || parts[|parts| - 1].mount[31] == 0
  }

  lemma {:induction false} LastOfAll<T>(print1: T -> seq<Byte>, xs: seq<T>)
    requires xs != [] && print1(xs[|xs| - 1]) != []
    ensures var all, last := PrintAll(print1, xs), print1(xs[|xs| - 1]); all != [] && all[|all| - 1] == last[|last| - 1]
    decreases |xs|
  {
    if |xs| > 1 {
      LastOfAll(print1, xs[1..]);
    } else {
      assert PrintAll(print1, xs) == print1(xs[0]) + PrintAll(print1, xs[1..]);
    }
  }

  lemma LastOfPart(p: Part)
    requires PartFits(p)
    ensures var s := PrintPart(p); s != [] && (s[|s| - 1] == 0 <==> |p.mount| < 32 || p.mount[31] == 0)
  {
    var m := PrintMount(p.mount);
    MountSize(p.mount);
    assert m[31] == if |p.mount| < 32 then 0 else p.mount[31];
  }

  lemma LastOfFw(f: Fw)
    ensures var s := PrintFw(f); s != [] && s[|s| - 1] == 0
  {
  }

  lemma LastOfHead()
    ensures var s := Head(0, 0); s != [] && s[|s| - 1] == 0
  {
    assert Le(0, 4) == [0] + Le(0, 3) && Le(0, 3) == [0] + Le(0, 2) && Le(0, 2) == [0] + Le(0, 1)
           && Le(0, 1) == [0] + Le(0, 0);
    assert Le32(0)[3] == 0;
  }

  lemma BodyEnds(parts: seq<Part>, fws: seq<Fw>)
    requires PartsFit(parts)
    ensures var body := Body(parts, fws); body != [] && (body[|body| - 1] == 0 <==> EndsInZero(parts, fws))
  {
    if fws != [] {
      LastOfFw(fws[|fws| - 1]);
      LastOfAll(PrintFw, fws);
    } else if parts != [] {
      LastOfPart(parts[|parts| - 1]);
      LastOfAll(PrintPart, parts);
    } else {
      LastOfHead();
    }
  }

  /** The two checksums of a printed table of at most eight megabytes agree exactly when its last byte is zero, as it
    is with any firmware entry. */
  lemma TableVerifies(parts: seq<Part>, fws: seq<Fw>)
    requires PartsFit(parts) && |Body(parts, fws)| <= 0x80_0000
    ensures StoredSum(Body(parts, fws)) == CheckedSum(Body(parts, fws)) <==> EndsInZero(parts, fws)
  {
    BodyEnds(parts, fws);
    WindowBelowLimit(Body(parts, fws));
    SumsAgree(Body(parts, fws));
  }

  /** So the installer, reading back what it printed, shows two equal checksums in exactly those cases. */
  lemma PrintedTableVerifies(pre: seq<Byte>, parts: seq<Part>, fws: seq<Fw>, post: seq<Byte>)
    requires PartsFit(parts) && FwsFit(fws) && |pre| + |Table(parts, fws)| <= 0x80_0000
    requires forall k: nat :: k < |pre| ==> !TableStart(Window(pre + Table(parts, fws) + post), k)
    ensures var found := Parse(pre + Table(parts, fws) + post);
            found.Some? && (found.value.stored == found.value.calculated <==> EndsInZero(parts, fws))
  {
    ParseUndoesPrint(pre, parts, fws, post);
    TableVerifies(parts, fws);
  }
}
