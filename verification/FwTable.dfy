/** The firmware table as the installer prints it: numbers as bytes, entries, and the whole table. */
module FwTable {
  import opened Arithmetic
  import opened Bytes

  const TWO32: int := 0x1_0000_0000

  const ERASE_SIZE: nat := 0x2_0000
  const MAGIC: seq<Byte> := [0x56, 0x45, 0x52, 0x4f, 0x4e, 0x41, 0x5f, 0x5f]

  // ----- numbers -----

  function Le(n: nat, k: nat): (s: seq<Byte>)
    ensures |s| == k
  {
    if k == 0 then [] else [n % 0x100] + Le(n / 0x100, k - 1)
  }

  function Little(s: seq<Byte>): nat {
    if s == [] then 0 else s[0] + 0x100 * Little(s[1..])
  }

  function Power(k: nat): (p: nat)
    ensures p > 0
  {
    if k == 0 then 1 else 0x100 * Power(k - 1)
  }

  lemma {:induction false} LittleLe(n: nat, k: nat)
    requires n < Power(k)
    ensures Little(Le(n, k)) == n
  {
    if k > 0 {
      QuotientBelow(n, 0x100, Power(k - 1));
      LittleLe(n / 0x100, k - 1);
      assert Le(n, k)[1..] == Le(n / 0x100, k - 1);
    }
  }

  lemma Powers()
    ensures Power(1) == 0x100 && Power(4) == TWO32 && Power(8) == TWO64
  {
    assert Power(2) == 0x1_0000 && Power(3) == 0x100_0000;
    assert Power(5) == 0x100 * TWO32 && Power(6) == 0x1_0000 * TWO32 && Power(7) == 0x100_0000 * TWO32;
  }

  // A number is printed in hexadecimal, and the bytes are cut from its first digits: one that is too long loses its
  // last.
  function Leading(n: nat, limit: nat): (r: nat)
    requires limit > 0
    ensures r < limit && (n < limit ==> r == n)
  {
    if n < limit then n else Leading(n / 16, limit)
  }

  function Le32(n: nat): (s: seq<Byte>)
    ensures |s| == 4
  {
    Le(Leading(n, TWO32), 4)
  }

  function Le64(n: nat): (s: seq<Byte>)
    ensures |s| == 8
  {
    Le(Leading(n, TWO64), 8)
  }

  /** Four bytes carry exactly the numbers below 2^32. */
  lemma Le32Carries(n: nat)
    ensures Little(Le32(n)) == n <==> n < TWO32
  {
    Powers();
    LittleLe(Leading(n, TWO32), 4);
  }

  function HexChar(d: nat): Byte
    requires d < 16
  {
    if d < 10 then 0x30 + d else 0x57 + d
  }

  // Two digits make the byte; the rest of a longer number is printed as text.
  function Uchar(n: nat): (s: seq<Byte>)
    ensures |s| >= 1
  {
    if n < 0x100 then [n] else Uchar(n / 16) + [HexChar(n % 16)]
  }

  lemma UcharOneByte(n: nat)
    ensures |Uchar(n)| == 1 <==> n < 0x100
  {
  }

  // ----- entries -----

  datatype Part = Part(kind: nat, ro: nat, len: nat, count: nat, fwType: nat, mount: seq<Byte>)

  datatype Fw = Fw(kind: nat, ro: nat, version: nat, target: nat, offset: nat, length: nat, paddings: nat,
                   checksum: nat)

  // The shell's echo takes such a name for options and prints nothing.
  predicate OptionLike(name: seq<Byte>) {
    |name| >= 2 && name[0] == 0x2d && forall i :: 1 <= i < |name| ==> name[i] in {0x6e, 0x65, 0x45}
  }

  function Echo(name: seq<Byte>): (s: seq<Byte>)
    ensures |s| == if OptionLike(name) then 0 else |name|
  {
    if OptionLike(name) then [] else name
  }

  // The first of 32 zeros, or with a negative number all but the last.
  function Padding(pad: int): nat
    requires pad <= 32
  {
    if pad >= 0 then pad else if pad > -32 then 32 + pad else 0
  }

  function PrintMount(name: seq<Byte>): seq<Byte> {
    Echo(name) + Zeros(Padding(32 - |name|))
  }

  function PrintPart(p: Part): seq<Byte> {
    Uchar(p.kind) + Uchar(p.ro * 0x80) + Le64(p.len) + Uchar(p.count) + Uchar(p.fwType) + Zeros(4) + PrintMount(p.mount)
  }

  function PrintFw(f: Fw): seq<Byte> {
    Uchar(f.kind) + Uchar(f.ro * 0x80) + Le32(f.version) + Le32(f.target) + Le32(f.offset) + Le32(f.length)
    + Le32(f.paddings) + Le32(f.checksum) + Zeros(6)
  }

  /** Every number fits its field. */
  predicate PartFields(p: Part) {
    p.kind < 0x100 && p.ro < 2 && p.len < TWO63 && p.count < 0x100 && p.fwType < 0x100
  }

  predicate PartFits(p: Part) {
    PartFields(p) && |p.mount| <= 32 && !OptionLike(p.mount)
  }

  predicate FwFits(f: Fw) {
    && f.kind < 0x100 && f.ro < 2 && f.version < TWO32 && f.target < TWO32 && f.offset < TWO32 && f.length < TWO32
    && f.paddings < TWO32 && f.checksum < TWO32
  }

  /** The field of a name that fits: the name, then zeros. */
  lemma MountField(name: seq<Byte>)
    requires |name| <= 32 && !OptionLike(name)
    ensures PrintMount(name) == name + Zeros(32 - |name|)
    ensures forall i :: 0 <= i < 32 ==> PrintMount(name)[i] == if i < |name| then name[i] else 0
  {
  }

  lemma NameEnds(name: seq<Byte>)
    requires |name| <= 32 && !OptionLike(name) && 0 !in name
    ensures |PrintMount(name)| == 32 && forall i :: 0 <= i < 32 ==> (PrintMount(name)[i] == 0 <==> |name| <= i)
  {
    MountField(name);
    forall i | 0 <= i < 32
      ensures PrintMount(name)[i] == 0 <==> |name| <= i
    {
      assert i < |name| ==> PrintMount(name)[i] in name;
    }
  }

  /** Names without zero bytes can be told apart by their fields. */
  lemma MountTellsNames(a: seq<Byte>, b: seq<Byte>)
    requires |a| <= 32 && |b| <= 32 && !OptionLike(a) && !OptionLike(b) && 0 !in a && 0 !in b
    ensures PrintMount(a) == PrintMount(b) <==> a == b
  {
    if PrintMount(a) == PrintMount(b) {
      var field := PrintMount(a);
      NameEnds(a);
      NameEnds(b);
      assert |a| < 32 ==> field[|a|] == 0;
      assert |b| < 32 ==> field[|b|] == 0;
      MountField(a);
      MountField(b);
      assert a == field[..|a|] == b;
    }
  }

  /** What the shell does to names that do not fit: one that does not start with a dash is printed whole, the padding of
    one longer than the field is a full field less, and names that look like options leave only their padding. */
  lemma MountUnfit(name: seq<Byte>)
    ensures (name == [] || name[0] != 0x2d) && |name| > 32 ==>
              PrintMount(name) == name + Zeros(if |name| < 64 then 64 - |name| else 0)
    ensures |name| == 2 && name[0] == 0x2d && name[1] in {0x6e, 0x65, 0x45} ==> PrintMount(name) == Zeros(30)
  {
  }

  /** The text that marks a table. */
  lemma MagicText()
    ensures |MAGIC| == 8 && forall i :: 0 <= i < 8 ==> MAGIC[i] == "VERONA__"[i] as int
  {
  }

  /** A mount name fills exactly 32 bytes unless it is longer or looks like an option. */
  lemma MountSize(name: seq<Byte>)
    ensures |PrintMount(name)| == 32 <==> |name| <= 32 && !OptionLike(name)
  {
  }

  /** A partition entry is 48 bytes exactly when its mount name is printable in 32. */
  lemma PartSize(p: Part)
    requires PartFields(p)
    ensures |PrintPart(p)| == 48 <==> |p.mount| <= 32 && !OptionLike(p.mount)
  {
    MountSize(p.mount);
  }

  /** A firmware entry is 32 bytes exactly when its two single-byte fields fit. */
  lemma FwSize(f: Fw)
    ensures |PrintFw(f)| == 32 <==> f.kind < 0x100 && f.ro < 2
  {
    UcharOneByte(f.kind);
    UcharOneByte(f.ro * 0x80);
  }

  // ----- lists and the table -----

  function PrintAll<T>(print1: T -> seq<Byte>, xs: seq<T>): seq<Byte> {
    if xs == [] then [] else print1(xs[0]) + PrintAll(print1, xs[1..])
  }

  function PrintParts(parts: seq<Part>): seq<Byte> {
    PrintAll(PrintPart, parts)
  }

  function PrintFws(fws: seq<Fw>): seq<Byte> {
    PrintAll(PrintFw, fws)
  }

  function Head(partLen: nat, fwLen: nat): seq<Byte> {
    Uchar(1) + Zeros(7) + Le32(ERASE_SIZE) + Le32(partLen) + Le32(fwLen)
  }

  function BodyOf(partList: seq<Byte>, fwDesc: seq<Byte>): seq<Byte> {
    Head(|partList|, |fwDesc|) + partList + fwDesc
  }

  function Body(parts: seq<Part>, fws: seq<Fw>): seq<Byte> {
    BodyOf(PrintParts(parts), PrintFws(fws))
  }

  function StoredSum(body: seq<Byte>): nat {
    Sum(body) % TWO32
  }

  function TableOf(body: seq<Byte>): seq<Byte> {
    MAGIC + Le32(StoredSum(body)) + body
  }

  function Table(parts: seq<Part>, fws: seq<Fw>): seq<Byte> {
    TableOf(Body(parts, fws))
  }

  // ----- as the script prints them -----

  lemma {:induction false} PrintAllAppend<T>(print1: T -> seq<Byte>, xs: seq<T>, x: T)
    ensures PrintAll(print1, xs + [x]) == PrintAll(print1, xs) + print1(x)
    decreases |xs|
  {
    if xs == [] {
      assert xs + [x] == [x];
      assert PrintAll(print1, [x]) == print1(x) + PrintAll(print1, []);
    } else {
      assert (xs + [x])[1..] == xs[1..] + [x];
      PrintAllAppend(print1, xs[1..], x);
    }
  }

  /** The byte sum stored in the table. */
  method ChecksumFile(file: seq<Byte>) returns (sum: nat)
    ensures sum == StoredSum(file)
  {
    sum := 0;
    for i := 0 to |file|
      invariant sum == SumTo(file, i)
    {
      sum := sum + file[i];
    }
    sum := sum % TWO32;
  }

  /** A file that output is appended to. */
  class File {
    var bytes: seq<Byte>

    constructor ()
      ensures bytes == []
    {
      bytes := [];
    }

    method Append(s: seq<Byte>)
      modifies this
      ensures bytes == old(bytes) + s
    {
      bytes := bytes + s;
    }
  }

  method WriteFws(fws: seq<Fw>) returns (file: File)
    ensures fresh(file) && file.bytes == PrintFws(fws)
  {
    file := new File();
    for i := 0 to |fws|
      invariant fresh(file) && file.bytes == PrintFws(fws[..i])
    {
      file.Append(PrintFw(fws[i]));
      PrintAllAppend(PrintFw, fws[..i], fws[i]);
      assert fws[..i + 1] == fws[..i] + [fws[i]];
    }
    assert fws[..|fws|] == fws;
  }

  method WriteParts(parts: seq<Part>) returns (file: File)
    ensures fresh(file) && file.bytes == PrintParts(parts)
  {
    file := new File();
    for i := 0 to |parts|
      invariant fresh(file) && file.bytes == PrintParts(parts[..i])
    {
      file.Append(PrintPart(parts[i]));
      PrintAllAppend(PrintPart, parts[..i], parts[i]);
      assert parts[..i + 1] == parts[..i] + [parts[i]];
    }
    assert parts[..|parts|] == parts;
  }

  // Version, reserved bytes, erase size and the lengths of the two lists.
  method WriteHead(partLen: nat, fwLen: nat) returns (file: File)
    ensures fresh(file) && file.bytes == Head(partLen, fwLen)
  {
    file := new File();
    file.Append(Uchar(1));
    file.Append(Zeros(7));
    file.Append(Le32(ERASE_SIZE));
    file.Append(Le32(partLen));
    file.Append(Le32(fwLen));
  }

  /** The two lists, then the body with their lengths, then the table around the body. */
  method WriteTable(parts: seq<Part>, fws: seq<Fw>) returns (file: File)
    ensures fresh(file) && file.bytes == Table(parts, fws)
  {
    var fwDesc := WriteFws(fws);
    var partList := WriteParts(parts);
    var body := WriteHead(|partList.bytes|, |fwDesc.bytes|);
    body.Append(partList.bytes);
    body.Append(fwDesc.bytes);
    var sum := ChecksumFile(body.bytes);
    file := new File();
    file.Append(MAGIC);
    file.Append(Le32(sum));
    file.Append(body.bytes);
  }
}
