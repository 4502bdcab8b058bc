/** The reader: it looks for the table in the first eight megabytes and takes it apart, field by field. */
module FwReader {
  import opened Arithmetic
  import opened Bytes
  import opened FwTable

  const WINDOW: nat := 0x80_0000

  datatype Option<T> = None | Some(value: T)

  datatype PartRead = PartRead(kind: nat, flags: nat, len: nat, count: nat, fwType: nat, mount: seq<Byte>)

  datatype FwRead = FwRead(kind: nat, flags: nat, version: nat, target: nat, offset: nat, length: nat, paddings: nat,
                           checksum: nat)

  datatype Found = Found(offset: nat, stored: nat, calculated: nat, paddings: nat, partLen: nat, listLen: nat,
                         parts: seq<PartRead>, fws: seq<FwRead>)

  // ----- fields -----

  // The dump pads with zeros what lies beyond the end.
  function At(src: seq<Byte>, i: nat): Byte {
    if i < |src| then src[i] else 0
  }

  function Field(src: seq<Byte>, off: nat, n: nat): (s: seq<Byte>)
    ensures |s| == n
  {
    seq<Byte>(n, i requires 0 <= i < n => At(src, off + i))
  }

  // Least significant byte first.
  function Four(a: nat, b: nat, c: nat, d: nat): nat {
    a + 0x100 * b + 0x1_0000 * c + 0x100_0000 * d
  }

  function Word(src: seq<Byte>, off: nat): nat {
    Four(At(src, off), At(src, off + 1), At(src, off + 2), At(src, off + 3))
  }

  // The high word is printed in front of the low one.
  function Long(src: seq<Byte>, off: nat): nat {
    Word(src, off) + TWO32 * Word(src, off + 4)
  }

  // The shell's signed 64-bit integers: larger ones are clamped.
  function Shown(v: nat): nat {
    if v < TWO63 then v else TWO63 - 1
  }

  function PartAt(src: seq<Byte>, off: nat): PartRead {
    PartRead(At(src, off), At(src, off + 1), Shown(Long(src, off + 2)), At(src, off + 10),
             At(src, off + 11), Field(src, off + 16, 32))
  }

  function FwAt(src: seq<Byte>, off: nat): FwRead {
    FwRead(At(src, off), At(src, off + 1), Word(src, off + 2), Word(src, off + 6),
           Word(src, off + 10), Word(src, off + 14), Word(src, off + 18), Word(src, off + 22))
  }

  // Entries one after another.
  function ReadAll<R>(read: nat -> R, off: nat, size: nat, n: nat): seq<R>
    decreases n
  {
    if n == 0 then [] else [read(off)] + ReadAll(read, off + size, size, n - 1)
  }

  // ----- the recalculated checksum -----

  const LIMIT: int := 0xffff_ffff

  /** The bytes from off on, at most n of them. */
  function Extract(src: seq<Byte>, off: nat, n: nat): seq<Byte> {
    if off >= |src| then [] else if off + n <= |src| then src[off..off + n] else src[off..]
  }

  // Reduced as it grows: the limit is taken off whenever it is reached.
  function ReducedTo(s: seq<Byte>, n: nat): (r: nat)
    requires n <= |s|
    ensures r < LIMIT
  {
    if n == 0 then 0
    else
      var sum := ReducedTo(s, n - 1) + s[n - 1];
      if sum >= LIMIT then sum - LIMIT else sum
  }

  function CalculatedSum(s: seq<Byte>): nat {
    ReducedTo(s, |s|)
  }

  /** The sum the reader compares for a body: of all its bytes but the last. */
  function CheckedSum(body: seq<Byte>): nat {
    CalculatedSum(if body == [] then [] else body[..|body| - 1])
  }

  // ----- tables -----

  predicate MagicAt(src: seq<Byte>, t: nat) {
    t + 8 <= |src| && src[t..t + 8] == MAGIC
  }

  predicate TableStart(src: seq<Byte>, t: nat) {
    MagicAt(src, t) && At(src, t + 12) == 1
  }

  /** The ways in which the bytes are looked at. */
  datatype Reader = Reader(word: nat -> nat, part: nat -> PartRead, fw: nat -> FwRead)

  function Of(src: seq<Byte>): Reader {
    Reader((off: nat) => Word(src, off), (off: nat) => PartAt(src, off), (off: nat) => FwAt(src, off))
  }

  // Entries are counted by the lengths in the header; the firmware list starts where the partitions end.
  function TableBy(r: Reader, t: nat, calculated: nat): Found {
    var partLen, listLen := r.word(t + 24), r.word(t + 28);
    Found(t, r.word(t + 8), calculated, r.word(t + 20), partLen, listLen,
          ReadAll(r.part, t + 32, 48, partLen / 48), ReadAll(r.fw, t + 32 + 48 * (partLen / 48), 32, listLen / 32))
  }

  // The sum starts behind the stored one and stops one byte short of the end.
  function SumAt(src: seq<Byte>, t: nat): nat {
    CalculatedSum(Extract(src, t + 12, Word(src, t + 24) + Word(src, t + 28) + 19))
  }

  function TableAt(src: seq<Byte>, t: nat): Found {
    TableBy(Of(src), t, SumAt(src, t))
  }

  /** Where the first table starts, from t on. */
  function FirstStart(src: seq<Byte>, t: nat): Option<nat>
    decreases |src| - t
  {
    if t >= |src| then None else if TableStart(src, t) then Some(t) else FirstStart(src, t + 1)
  }

  function Window(file: seq<Byte>): seq<Byte> {
    if |file| <= WINDOW then file else file[..WINDOW]
  }

  function Parse(file: seq<Byte>): Option<Found> {
    match FirstStart(Window(file), 0)
    case None => None
    case Some(t) => Some(TableAt(Window(file), t))
  }

  // ----- what was printed is what is read -----

  ghost predicate Matches(src: seq<Byte>, off: nat, s: seq<Byte>) {
    off + |s| <= |src| && forall i {:trigger s[i]} :: 0 <= i < |s| ==> src[off + i] == s[i]
  }

  lemma MatchSplit(src: seq<Byte>, off: nat, a: seq<Byte>, b: seq<Byte>)
    requires Matches(src, off, a + b)
    ensures Matches(src, off, a) && Matches(src, off + |a|, b)
  {
    forall i | 0 <= i < |a|
      ensures src[off + i] == a[i]
    {
      assert (a + b)[i] == a[i];
    }
    forall i | 0 <= i < |b|
      ensures src[off + |a| + i] == b[i]
    {
      assert (a + b)[|a| + i] == b[i];
    }
  }

  lemma MatchSplit3(src: seq<Byte>, off: nat, a: seq<Byte>, b: seq<Byte>, c: seq<Byte>)
    requires Matches(src, off, a + b + c)
    ensures Matches(src, off, a) && Matches(src, off + |a|, b) && Matches(src, off + |a| + |b|, c)
  {
    MatchSplit(src, off, a + b, c);
    MatchSplit(src, off, a, b);
  }

  lemma FieldIs(src: seq<Byte>, off: nat, s: seq<Byte>)
    requires Matches(src, off, s)
    ensures Field(src, off, |s|) == s
  {
    forall i | 0 <= i < |s|
      ensures Field(src, off, |s|)[i] == s[i]
    {
      assert Field(src, off, |s|)[i] == At(src, off + i);
    }
  }

  lemma AtIs(src: seq<Byte>, off: nat, s: seq<Byte>, i: nat)
    requires Matches(src, off, s) && i < |s|
    ensures At(src, off + i) == s[i]
  {
  }

  lemma ByteIs(src: seq<Byte>, off: nat, n: nat)
    requires n < 0x100 && Matches(src, off, Uchar(n))
    ensures At(src, off) == n
  {
    AtIs(src, off, [n], 0);
  }

  lemma WordOf(src: seq<Byte>, off: nat, s: seq<Byte>)
    requires |s| == 4 && Matches(src, off, s)
    ensures Word(src, off) == Four(s[0], s[1], s[2], s[3])
  {
    AtIs(src, off, s, 0);
    AtIs(src, off, s, 1);
    AtIs(src, off, s, 2);
    AtIs(src, off, s, 3);
  }

  lemma FourBytes(s: seq<Byte>)
    requires |s| == 4
    ensures Little(s) == Four(s[0], s[1], s[2], s[3])
  {
    var s1, s2, s3 := s[1..], s[2..], s[3..];
    assert s1[1..] == s2 && s2[1..] == s3 && s3[1..] == [];
    LittleStep(s);
    LittleStep(s1);
    LittleStep(s2);
    LittleStep(s3);
  }

  lemma LittleStep(s: seq<Byte>)
    requires s != []
    ensures Little(s) == s[0] + 0x100 * Little(s[1..])
  {
  }

  lemma WordIs(src: seq<Byte>, off: nat, n: nat)
    requires n < TWO32 && Matches(src, off, Le32(n))
    ensures Word(src, off) == n
  {
    WordOf(src, off, Le32(n));
    FourBytes(Le32(n));
    Le32Carries(n);
  }

  lemma {:induction false} LittleAppend(a: seq<Byte>, b: seq<Byte>)
    ensures Little(a + b) == Little(a) + Power(|a|) * Little(b)
    decreases |a|
  {
    if a == [] {
      assert a + b == b;
    } else {
      assert (a + b)[1..] == a[1..] + b;
      LittleAppend(a[1..], b);
      Associate(0x100, Power(|a| - 1), Little(b));
    }
  }

  /** The shell shows exactly the lengths below 2^63. */
  lemma LongIs(src: seq<Byte>, off: nat, n: nat)
    requires Matches(src, off, Le64(n))
    ensures Shown(Long(src, off)) == n <==> n < TWO63
  {
    var s := Le64(n);
    assert s[..4] + s[4..] == s;
    MatchSplit(src, off, s[..4], s[4..]);
    WordOf(src, off, s[..4]);
    WordOf(src, off + 4, s[4..]);
    FourBytes(s[..4]);
    FourBytes(s[4..]);
    LittleAppend(s[..4], s[4..]);
    Powers();
    LittleLe(Leading(n, TWO64), 8);
  }

  // The mount name comes back with the zeros that fill its field.
  function ReadBackPart(p: Part): PartRead {
    PartRead(p.kind, p.ro * 0x80, p.len, p.count, p.fwType,
             p.mount + Zeros(if |p.mount| <= 32 then 32 - |p.mount| else 0))
  }

  function ReadBackFw(f: Fw): FwRead {
    FwRead(f.kind, f.ro * 0x80, f.version, f.target, f.offset, f.length, f.paddings, f.checksum)
  }

  lemma PartReadsBack(src: seq<Byte>, off: nat, p: Part)
    requires PartFits(p) && Matches(src, off, PrintPart(p))
    ensures PartAt(src, off) == ReadBackPart(p)
  {
    var a, b, c, d, e := Uchar(p.kind), Uchar(p.ro * 0x80), Le64(p.len), Uchar(p.count), Uchar(p.fwType);
    var m := PrintMount(p.mount);
    MatchSplit(src, off, a + b + c + d + e + Zeros(4), m);
    MatchSplit(src, off, a + b + c + d + e, Zeros(4));
    MatchSplit(src, off, a + b + c + d, e);
    MatchSplit(src, off, a + b + c, d);
    MatchSplit(src, off, a + b, c);
    MatchSplit(src, off, a, b);
    ByteIs(src, off, p.kind);
    ByteIs(src, off + 1, p.ro * 0x80);
    LongIs(src, off + 2, p.len);
    ByteIs(src, off + 10, p.count);
    ByteIs(src, off + 11, p.fwType);
    MountField(p.mount);
    FieldIs(src, off + 16, m);
  }

  lemma FwReadsBack(src: seq<Byte>, off: nat, f: Fw)
    requires FwFits(f) && Matches(src, off, PrintFw(f))
    ensures FwAt(src, off) == ReadBackFw(f)
  {
    var a, b, v, t, o := Uchar(f.kind), Uchar(f.ro * 0x80), Le32(f.version), Le32(f.target), Le32(f.offset);
    var l, p, c := Le32(f.length), Le32(f.paddings), Le32(f.checksum);
    MatchSplit(src, off, a + b + v + t + o + l + p + c, Zeros(6));
    MatchSplit(src, off, a + b + v + t + o + l + p, c);
    MatchSplit(src, off, a + b + v + t + o + l, p);
    MatchSplit(src, off, a + b + v + t + o, l);
    MatchSplit(src, off, a + b + v + t, o);
    MatchSplit(src, off, a + b + v, t);
    MatchSplit(src, off, a + b, v);
    MatchSplit(src, off, a, b);
    ByteIs(src, off, f.kind);
    ByteIs(src, off + 1, f.ro * 0x80);
    WordIs(src, off + 2, f.version);
    WordIs(src, off + 6, f.target);
    WordIs(src, off + 10, f.offset);
    WordIs(src, off + 14, f.length);
    WordIs(src, off + 18, f.paddings);
    WordIs(src, off + 22, f.checksum);
  }

  // ----- lists of entries -----

  ghost predicate AllOfSize<T>(print1: T -> seq<Byte>, size: nat, xs: seq<T>) {
    forall i :: 0 <= i < |xs| ==> |print1(xs[i])| == size
  }

  lemma {:induction false} ListSize<T>(print1: T -> seq<Byte>, size: nat, xs: seq<T>)
    requires AllOfSize(print1, size, xs)
    ensures |PrintAll(print1, xs)| == size * |xs|
  {
    if xs != [] {
      ListSize(print1, size, xs[1..]);
      Distribute(|xs| - 1, 1, size);
    }
  }

  /** What one entry prints, the reader gives back wherever it stands. */
  ghost predicate ReadsEach<T, R>(src: seq<Byte>, print1: T -> seq<Byte>, read: nat -> R, back: T -> R, xs: seq<T>) {
    forall i, o: nat {:trigger Matches(src, o, print1(xs[i]))} ::
      0 <= i < |xs| && Matches(src, o, print1(xs[i])) ==> read(o) == back(xs[i])
  }

  function BackAll<T, R>(back: T -> R, xs: seq<T>): seq<R> {
    if xs == [] then [] else [back(xs[0])] + BackAll(back, xs[1..])
  }

  /** So a list of entries of one size is given back entry by entry. */
  lemma {:induction false} ListReadsBack<T, R>(src: seq<Byte>, off: nat, print1: T -> seq<Byte>, size: nat, xs: seq<T>,
                                               read: nat -> R, back: T -> R)
    requires AllOfSize(print1, size, xs) && ReadsEach(src, print1, read, back, xs)
    requires Matches(src, off, PrintAll(print1, xs))
    ensures ReadAll(read, off, size, |xs|) == BackAll(back, xs)
    decreases |xs|
  {
    if xs != [] {
      MatchSplit(src, off, print1(xs[0]), PrintAll(print1, xs[1..]));
      ListReadsBack(src, off + size, print1, size, xs[1..], read, back);
    }
  }

  predicate PartsFit(parts: seq<Part>) {
    forall i :: 0 <= i < |parts| ==> PartFits(parts[i])
  }

  predicate FwsFit(fws: seq<Fw>) {
    forall i :: 0 <= i < |fws| ==> FwFits(fws[i])
  }

  lemma PartsAlike(src: seq<Byte>, parts: seq<Part>)
    requires PartsFit(parts)
    ensures AllOfSize(PrintPart, 48, parts) && ReadsEach(src, PrintPart, Of(src).part, ReadBackPart, parts)
  {
    forall i | 0 <= i < |parts|
      ensures |PrintPart(parts[i])| == 48
    {
      PartSize(parts[i]);
    }
    forall i, o: nat | 0 <= i < |parts| && Matches(src, o, PrintPart(parts[i]))
      ensures PartAt(src, o) == ReadBackPart(parts[i])
    {
      PartReadsBack(src, o, parts[i]);
    }
  }

  lemma FwsAlike(src: seq<Byte>, fws: seq<Fw>)
    requires FwsFit(fws)
    ensures AllOfSize(PrintFw, 32, fws) && ReadsEach(src, PrintFw, Of(src).fw, ReadBackFw, fws)
  {
    forall i | 0 <= i < |fws|
      ensures |PrintFw(fws[i])| == 32
    {
      FwSize(fws[i]);
    }
    forall i, o: nat | 0 <= i < |fws| && Matches(src, o, PrintFw(fws[i]))
      ensures FwAt(src, o) == ReadBackFw(fws[i])
    {
      FwReadsBack(src, o, fws[i]);
    }
  }

  // ----- the table around them -----

  /** Printed words are read back. */
  ghost predicate ReadsWords(src: seq<Byte>, r: Reader) {
    forall o: nat, n: nat {:trigger Matches(src, o, Le32(n))} :: n < TWO32 && Matches(src, o, Le32(n)) ==>
      r.word(o) == n
  }

  lemma ExtractIs(src: seq<Byte>, off: nat, s: seq<Byte>)
    requires Matches(src, off, s) && s != []
    ensures Extract(src, off, |s| - 1) == s[..|s| - 1]
  {
    var x := src[off..off + |s| - 1];
    forall i | 0 <= i < |x|
      ensures x[i] == s[i]
    {
    }
  }

  lemma OfReadsWords(src: seq<Byte>)
    ensures ReadsWords(src, Of(src))
  {
    forall o: nat, n: nat | n < TWO32 && Matches(src, o, Le32(n))
      ensures Word(src, o) == n
    {
      WordIs(src, o, n);
    }
  }

  lemma HeadReadsBack(src: seq<Byte>, r: Reader, off: nat, partLen: nat, fwLen: nat)
    requires ReadsWords(src, r) && partLen < TWO32 && fwLen < TWO32 && Matches(src, off, Head(partLen, fwLen))
    ensures At(src, off) == 1 && r.word(off + 8) == ERASE_SIZE && r.word(off + 12) == partLen
            && r.word(off + 16) == fwLen
  {
    MatchSplit(src, off, Uchar(1) + Zeros(7) + Le32(ERASE_SIZE) + Le32(partLen), Le32(fwLen));
    MatchSplit(src, off, Uchar(1) + Zeros(7) + Le32(ERASE_SIZE), Le32(partLen));
    MatchSplit(src, off, Uchar(1) + Zeros(7), Le32(ERASE_SIZE));
    MatchSplit(src, off, Uchar(1), Zeros(7));
    AtIs(src, off, Uchar(1), 0);
  }

  /** What reading a printed table must give. */
  function ReadBack(t: nat, parts: seq<Part>, fws: seq<Fw>): Found {
    var body := Body(parts, fws);
    Found(t, StoredSum(body), CheckedSum(body), ERASE_SIZE, 48 * |parts|, 32 * |fws|,
          BackAll(ReadBackPart, parts), BackAll(ReadBackFw, fws))
  }

  lemma TableByIs(r: Reader, t: nat, stored: nat, calculated: nat, paddings: nat, m: nat, n: nat, at: nat)
    requires at == t + 32 + 48 * m
    requires r.word(t + 8) == stored && r.word(t + 20) == paddings && r.word(t + 24) == 48 * m
             && r.word(t + 28) == 32 * n
    ensures TableBy(r, t, calculated) == Found(t, stored, calculated, paddings, 48 * m, 32 * n,
                                               ReadAll(r.part, t + 32, 48, m), ReadAll(r.fw, at, 32, n))
  {
    assert 48 * m / 48 == m && 32 * n / 32 == n;
  }

  /** A table of any two lists of whole entries, and where its pieces are found. */
  lemma BytesReadBack(src: seq<Byte>, r: Reader, t: nat, partList: seq<Byte>, fwDesc: seq<Byte>, m: nat, n: nat,
                      at: nat, calculated: nat)
    requires at == t + 32 + 48 * m
    requires ReadsWords(src, r) && |src| <= WINDOW && |partList| == 48 * m && |fwDesc| == 32 * n
    requires Matches(src, t, TableOf(BodyOf(partList, fwDesc)))
    ensures TableStart(src, t) && Matches(src, t + 12, BodyOf(partList, fwDesc))
    ensures Matches(src, t + 32, partList) && Matches(src, at, fwDesc)
    ensures TableBy(r, t, calculated) ==
              Found(t, StoredSum(BodyOf(partList, fwDesc)), calculated, ERASE_SIZE, 48 * m, 32 * n,
                    ReadAll(r.part, t + 32, 48, m), ReadAll(r.fw, at, 32, n))
  {
    var body := BodyOf(partList, fwDesc);
    MatchSplit3(src, t, MAGIC, Le32(StoredSum(body)), body);
    MatchSplit3(src, t + 12, Head(48 * m, 32 * n), partList, fwDesc);
    HeadReadsBack(src, r, t + 12, 48 * m, 32 * n);
    TableByIs(r, t, StoredSum(body), calculated, ERASE_SIZE, m, n, at);
  }

  /** The whole table from its bytes, its entries from what each of them prints. */
  lemma WholeReadsBack<S, T>(src: seq<Byte>, r: Reader, t: nat, printPart: S -> seq<Byte>, parts: seq<S>,
                             backPart: S -> PartRead, printFw: T -> seq<Byte>, fws: seq<T>, backFw: T -> FwRead,
                             partList: seq<Byte>, fwDesc: seq<Byte>, calculated: nat)
    requires ReadsWords(src, r) && |src| <= WINDOW
    requires AllOfSize(printPart, 48, parts) && ReadsEach(src, printPart, r.part, backPart, parts)
    requires AllOfSize(printFw, 32, fws) && ReadsEach(src, printFw, r.fw, backFw, fws)
    requires partList == PrintAll(printPart, parts) && fwDesc == PrintAll(printFw, fws)
    requires Matches(src, t, TableOf(BodyOf(partList, fwDesc)))
    ensures TableStart(src, t) && Matches(src, t + 12, BodyOf(partList, fwDesc))
    ensures |BodyOf(partList, fwDesc)| == 48 * |parts| + 32 * |fws| + 20
    ensures TableBy(r, t, calculated) ==
              Found(t, StoredSum(BodyOf(partList, fwDesc)), calculated, ERASE_SIZE, 48 * |parts|, 32 * |fws|,
                    BackAll(backPart, parts), BackAll(backFw, fws))
  {
    ListSize(printPart, 48, parts);
    ListSize(printFw, 32, fws);
    var at := t + 32 + 48 * |parts|;
    BytesReadBack(src, r, t, partList, fwDesc, |parts|, |fws|, at, calculated);
    ListReadsBack(src, t + 32, printPart, 48, parts, r.part, backPart);
    ListReadsBack(src, at, printFw, 32, fws, r.fw, backFw);
  }

  lemma SumReadsBack(src: seq<Byte>, t: nat, body: seq<Byte>)
    requires body != [] && Matches(src, t + 12, body) && Word(src, t + 24) + Word(src, t + 28) + 20 == |body|
    ensures SumAt(src, t) == CheckedSum(body)
  {
    ExtractIs(src, t + 12, body);
  }

  /** A printed table is read back field by field; the checksum is recalculated over all of its body but the last
    byte. */
  lemma TableReadsBack(src: seq<Byte>, t: nat, parts: seq<Part>, fws: seq<Fw>)
    requires PartsFit(parts) && FwsFit(fws) && |src| <= WINDOW && Matches(src, t, Table(parts, fws))
    ensures TableStart(src, t) && TableAt(src, t) == ReadBack(t, parts, fws)
  {
    var partList, fwDesc, sum := PrintParts(parts), PrintFws(fws), SumAt(src, t);
    OfReadsWords(src);
    PartsAlike(src, parts);
    FwsAlike(src, fws);
    WholeReadsBack(src, Of(src), t, PrintPart, parts, ReadBackPart, PrintFw, fws, ReadBackFw, partList, fwDesc, sum);
    assert Body(parts, fws) == BodyOf(partList, fwDesc);
    assert Word(src, t + 24) == TableAt(src, t).partLen && Word(src, t + 28) == TableAt(src, t).listLen;
    SumReadsBack(src, t, BodyOf(partList, fwDesc));
  }

  lemma {:induction false} FirstIs(src: seq<Byte>, t: nat, at: nat)
    requires t <= at < |src| && TableStart(src, at) && forall k: nat :: t <= k < at ==> !TableStart(src, k)
    ensures FirstStart(src, t) == Some(at)
    decreases at - t
  {
    if t < at {
      FirstIs(src, t + 1, at);
    }
  }

  lemma {:induction false} NoneStarts(src: seq<Byte>, t: nat)
    requires forall k: nat :: t <= k < |src| ==> !TableStart(src, k)
    ensures FirstStart(src, t) == None
    decreases |src| - t
  {
    if t < |src| {
      NoneStarts(src, t + 1);
    }
  }

  /** Nothing behind the first eight megabytes is looked at. */
  lemma OnlyEightMegabytes(f: seq<Byte>, g: seq<Byte>)
    requires |f| >= 0x80_0000 && |g| >= 0x80_0000 && f[..0x80_0000] == g[..0x80_0000]
    ensures Parse(f) == Parse(g)
  {
    assert Window(f) == f[..0x80_0000] == Window(g);
  }

  /** Parsing undoes printing: for any lists whose fields fit and whatever stands before and after it, a table that
    lies in the window and has no table before it is found, and gives back every field. */
  lemma ParseUndoesPrint(pre: seq<Byte>, parts: seq<Part>, fws: seq<Fw>, post: seq<Byte>)
    requires PartsFit(parts) && FwsFit(fws) && |pre| + |Table(parts, fws)| <= 0x80_0000
    requires forall k: nat :: k < |pre| ==> !TableStart(Window(pre + Table(parts, fws) + post), k)
    ensures Parse(pre + Table(parts, fws) + post) == Some(ReadBack(|pre|, parts, fws))
  {
    var table := Table(parts, fws);
    var file := pre + table + post;
    var src := Window(file);
    InWindow(pre, table, post);
    TableReadsBack(src, |pre|, parts, fws);
    FirstIs(src, 0, |pre|);
  }

  lemma InWindow(pre: seq<Byte>, table: seq<Byte>, post: seq<Byte>)
    requires |pre| + |table| <= WINDOW
    ensures Matches(Window(pre + table + post), |pre|, table) && |Window(pre + table + post)| <= WINDOW
  {
    var file := pre + table + post;
    forall i | 0 <= i < |table|
      ensures Window(file)[|pre| + i] == table[i]
    {
      assert file[|pre| + i] == table[i];
    }
  }
}
