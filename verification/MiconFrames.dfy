/** Micon v2 frames: a length byte, an address, the data and a check byte that brings the sum to zero. */
module MiconFrames {
  import opened Bytes

  // Bit 7 of a byte, and its other bits as a number.
  predicate Top(b: Byte) {
    b >= 0x80
  }

  function Low(b: Byte): (n: nat)
    ensures n < 0x80
  {
    if b >= 0x80 then b - 0x80 else b
  }

  // ----- sums -----

  function Add(a: Byte, b: Byte): Byte {
    if a + b >= 0x100 then a + b - 0x100 else a + b
  }

  /** The sum modulo 256, reduced byte by byte. */
  function ResidueTo(s: seq<Byte>, n: nat): Byte
    requires n <= |s|
  {
    if n == 0 then 0 else Add(ResidueTo(s, n - 1), s[n - 1])
  }

  function Residue(s: seq<Byte>): Byte {
    ResidueTo(s, |s|)
  }

  lemma ModStep(x: nat, r: Byte, b: Byte)
    requires x % 0x100 == r
    ensures (x + b) % 0x100 == Add(r, b)
  {
  }

  lemma {:induction false} ResidueIsSumTo(s: seq<Byte>, n: nat)
    requires n <= |s|
    ensures ResidueTo(s, n) == SumTo(s, n) % 0x100
  {
    if n > 0 {
      ResidueIsSumTo(s, n - 1);
      ModStep(SumTo(s, n - 1), ResidueTo(s, n - 1), s[n - 1]);
    }
  }

  lemma ResidueIsSum(s: seq<Byte>)
    ensures Residue(s) == Sum(s) % 0x100
  {
    ResidueIsSumTo(s, |s|);
  }

  lemma {:induction false} ResidueOfPrefix(s: seq<Byte>, t: seq<Byte>, n: nat)
    requires n <= |s| && n <= |t| && s[..n] == t[..n]
    ensures ResidueTo(s, n) == ResidueTo(t, n)
  {
    if n > 0 {
      assert s[..n - 1] == s[..n][..n - 1] == t[..n - 1];
      assert s[n - 1] == s[..n][n - 1] == t[n - 1];
      ResidueOfPrefix(s, t, n - 1);
    }
  }

  predicate Closes(s: seq<Byte>) {
    Residue(s) == 0
  }

  function CheckByte(s: seq<Byte>): Byte {
    if Residue(s) == 0 then 0 else 0x100 - Residue(s)
  }

  function Closed(s: seq<Byte>): (f: seq<Byte>)
    ensures |f| == |s| + 1
  {
    s + [CheckByte(s)]
  }

  lemma ResidueAppend(s: seq<Byte>, b: Byte)
    ensures Residue(s + [b]) == Add(Residue(s), b)
  {
    assert (s + [b])[..|s|] == s == s[..|s|];
    ResidueOfPrefix(s + [b], s, |s|);
  }

  /** The check byte closes any bytes; bytes that close already get a zero. */
  lemma CheckByteCloses(s: seq<Byte>)
    ensures Closes(Closed(s)) && Sum(Closed(s)) % 0x100 == 0
    ensures Closes(s) <==> CheckByte(s) == 0
  {
    ResidueAppend(s, CheckByte(s));
    ResidueIsSum(Closed(s));
  }

  lemma {:induction false} ChangedByteShifts(s: seq<Byte>, i: nat, b: Byte, n: nat)
    requires i < n <= |s| && b != s[i]
    ensures ResidueTo(s[i := b], n) != ResidueTo(s, n)
  {
    if i == n - 1 {
      assert s[i := b][..i] == s[..i];
      ResidueOfPrefix(s[i := b], s, i);
    } else {
      ChangedByteShifts(s, i, b, n - 1);
    }
  }

  /** Any one changed byte breaks the sum. */
  lemma ChangedByteShows(s: seq<Byte>, i: nat, b: Byte)
    requires Closes(s) && i < |s| && b != s[i]
    ensures !Closes(s[i := b]) && Sum(s[i := b]) % 0x100 != 0
  {
    ChangedByteShifts(s, i, b, |s|);
    ResidueIsSum(s[i := b]);
  }

  // ----- the two sums as the driver computes them -----

  method CalcCheckByte(s: seq<Byte>) returns (c: Byte)
    ensures c == CheckByte(s)
  {
    var check: int := 0;
    for i := 0 to |s|
      invariant check == ResidueTo(s, i)
    {
      check := check + s[i];
      check := check % 0x100;
    }
    // Complement and add one.
    check := 0xff - check;
    check := check + 1;
    c := check % 0x100;
  }

  method CalcChecksum(s: seq<Byte>) returns (c: Byte)
    ensures c == Residue(s)
  {
    var sum: int := 0;
    for i := 0 to |s|
      invariant sum == SumTo(s, i)
    {
      sum := sum + s[i];
    }
    ResidueIsSum(s);
    c := sum % 0x100;
  }

  // ----- frames -----

  function Frame(head: Byte, addr: Byte, data: seq<Byte>): seq<Byte> {
    Closed([head, addr] + data)
  }

  predicate WellFormed(f: seq<Byte>) {
    |f| >= 3 && |f| == Low(f[0]) + 3 && Closes(f)
  }

  function Concat(frames: seq<seq<Byte>>): seq<Byte> {
    if frames == [] then [] else frames[0] + Concat(frames[1..])
  }

  lemma FrameWellFormed(head: Byte, addr: Byte, data: seq<Byte>)
    requires |data| == Low(head)
    ensures WellFormed(Frame(head, addr, data))
  {
    CheckByteCloses([head, addr] + data);
  }
}
