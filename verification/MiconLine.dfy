/** The serial line: what the device answers to each write, and how much of it each read waits for. */
module MiconLine {
  import opened Bytes
  import opened MiconFrames
  import opened MiconCommands

  /** The bytes the device sends after each write, given all the writes so far, and how many of the bytes on the line
    each read gets to see before it times out. */
  datatype Device = Device(reply: seq<seq<Byte>> -> seq<Byte>, patience: nat -> nat)

  /** All writes so far, the bytes that came back and are still unread, and the number of reads. */
  datatype Line = Line(sent: seq<seq<Byte>>, incoming: seq<Byte>, turn: nat)

  function Write(dev: Device, l: Line, f: seq<Byte>): Line {
    l.(sent := l.sent + [f], incoming := l.incoming + dev.reply(l.sent + [f]))
  }

  function Arrived(dev: Device, l: Line, n: nat): (k: nat)
    ensures k <= n && k <= |l.incoming|
  {
    var k := if dev.patience(l.turn) < n then dev.patience(l.turn) else n;
    if |l.incoming| < k then |l.incoming| else k
  }

  function Read(dev: Device, l: Line, n: nat): (Line, seq<Byte>) {
    var k := Arrived(dev, l, n);
    (l.(incoming := l.incoming[k..], turn := l.turn + 1), l.incoming[..k])
  }

  // After a first byte the length is known; without one the driver waits for up to 32 bytes of anything.
  function Expected(first: seq<Byte>): nat {
    if |first| == 1 then Low(first[0]) + 2 else 32
  }

  /** A port: what writing and reading do to the line. */
  datatype Serial = Serial(write: (Line, seq<Byte>) -> Line, read: (Line, nat) -> (Line, seq<Byte>))

  function Wired(dev: Device): Serial {
    Serial((l: Line, f: seq<Byte>) => Write(dev, l, f), (l: Line, n: nat) => Read(dev, l, n))
  }

  // One byte first; it tells how many more.
  function Respond(s: Serial, l: Line): (Line, seq<Byte>) {
    var (l1, first) := s.read(l, 1);
    var (l2, rest) := s.read(l1, Expected(first));
    (l2, first + rest)
  }

  /** A response is one byte and as many more as its low seven bits announce, with address and check byte; when no byte
    comes, up to 32. */
  lemma ResponseReads(s: Serial, l: Line)
    ensures var (l1, first) := s.read(l, 1);
            var (l2, rest) := s.read(l1, if |first| == 1 then first[0] % 0x80 + 2 else 32);
            Respond(s, l) == (l2, first + rest)
  {
  }

  function Over(s: Serial): Channel<Line> {
    Channel(s.write, (l: Line) => Respond(s, l))
  }

  // ----- splitting a stream of frames -----

  /** No read times out on bytes that are there. */
  ghost predicate Patient(dev: Device) {
    forall n :: dev.patience(n) >= 0x81
  }

  lemma ResponseIsFrame(dev: Device, l: Line, f: seq<Byte>, rest: seq<Byte>)
    requires Patient(dev) && WellFormed(f) && l.incoming == f + rest
    ensures Respond(Wired(dev), l) == (Line(l.sent, rest, l.turn + 2), f)
  {
    var (l1, first) := Read(dev, l, 1);
    assert dev.patience(l.turn) >= 0x81;
    assert first == [f[0]] && l1.incoming == f[1..] + rest;
    var (l2, more) := Read(dev, l1, Expected(first));
    assert dev.patience(l1.turn) >= 0x81;
    assert more == f[1..] && l2.incoming == rest;
    assert first + more == f;
  }

  lemma OverFrames(dev: Device)
    requires Patient(dev)
    ensures ReadsFrames(Over(Wired(dev)), (l: Line) => l.incoming)
  {
    forall l: Line, f, rest | WellFormed(f) && l.incoming == f + rest
      ensures Respond(Wired(dev), l).1 == f && Respond(Wired(dev), l).0.incoming == rest
    {
      ResponseIsFrame(dev, l, f, rest);
    }
  }

  /** On a line where no read times out early, repeated reading splits any concatenation of well-formed frames into
    exactly those frames, and leaves what follows them. */
  lemma LineSplits(dev: Device, l: Line, frames: seq<seq<Byte>>, rest: seq<Byte>)
    requires Patient(dev) && (forall f :: f in frames ==> WellFormed(f)) && l.incoming == Concat(frames) + rest
    ensures var (l', got) := Responses(Over(Wired(dev)), l, |frames|); got == frames && l'.incoming == rest
  {
    OverFrames(dev);
    StreamSplits(Over(Wired(dev)), (l: Line) => l.incoming, l, frames, rest);
  }

  // ----- a read command on the line -----

  /** What the device sends in answer to some writes, one after the other. */
  function Replies(dev: Device, sent: seq<seq<Byte>>, log: seq<seq<Byte>>): seq<Byte>
    decreases |log|
  {
    if log == [] then [] else dev.reply(sent + [log[0]]) + Replies(dev, sent + [log[0]], log[1..])
  }

  lemma {:induction false} RepliesAppend(dev: Device, sent: seq<seq<Byte>>, a: seq<seq<Byte>>, b: seq<seq<Byte>>)
    ensures Replies(dev, sent, a + b) == Replies(dev, sent, a) + Replies(dev, sent + a, b)
    decreases |a|
  {
    if a == [] {
      assert a + b == b && sent + a == sent;
    } else {
      assert (a + b)[1..] == a[1..] + b;
      assert sent + [a[0]] + a[1..] == sent + a;
      RepliesAppend(dev, sent + [a[0]], a[1..], b);
    }
  }

  lemma {:induction false} ConcatAppend(a: seq<seq<Byte>>, b: seq<seq<Byte>>)
    ensures Concat(a + b) == Concat(a) + Concat(b)
    decreases |a|
  {
    if a == [] {
      assert a + b == b;
    } else {
      assert (a + b)[1..] == a[1..] + b;
      ConcatAppend(a[1..], b);
    }
  }

  /** From one line to another: the writes were recorded, and every byte that was there or came in answer has either
    been heard, in order, or is still unread. */
  ghost predicate Conserves(dev: Device, l: Line, log: seq<seq<Byte>>, heard: seq<seq<Byte>>, l': Line) {
    && l'.sent == l.sent + log
    && l.incoming + Replies(dev, l.sent, log) == Concat(heard) + l'.incoming
  }

  lemma WriteConserves(dev: Device, l: Line, f: seq<Byte>)
    ensures Conserves(dev, l, [f], [], Write(dev, l, f))
  {
    assert Replies(dev, l.sent, [f]) == dev.reply(l.sent + [f]);
  }

  lemma RespondTakes(dev: Device, l: Line)
    ensures var (l', resp) := Respond(Wired(dev), l); l'.sent == l.sent && l.incoming == resp + l'.incoming
  {
    var (l1, first) := Read(dev, l, 1);
    var (l2, rest) := Read(dev, l1, Expected(first));
    ReadTakes(dev, l, 1);
    ReadTakes(dev, l1, Expected(first));
    Regroup(first, rest, l2.incoming);
  }

  lemma ReadTakes(dev: Device, l: Line, n: nat)
    ensures var (l', got) := Read(dev, l, n); l'.sent == l.sent && l.incoming == got + l'.incoming
  {
  }

  lemma RespondConserves(dev: Device, l: Line)
    ensures var (l', resp) := Respond(Wired(dev), l); Conserves(dev, l, [], [resp], l')
  {
    var (l', resp) := Respond(Wired(dev), l);
    RespondTakes(dev, l);
    assert Concat([resp]) == resp;
  }

  lemma Balance(a: seq<Byte>, in1: seq<Byte>, out1: seq<Byte>, b: seq<Byte>, in2: seq<Byte>, out2: seq<Byte>,
                c: seq<Byte>)
    requires a + in1 == out1 + b && b + in2 == out2 + c
    ensures a + (in1 + in2) == out1 + out2 + c
  {
    Regroup(a, in1, in2);
    Regroup(out1, b, in2);
    Regroup(out1, out2, c);
  }

  lemma ConservesOn(dev: Device, a: Line, log1: seq<seq<Byte>>, heard1: seq<seq<Byte>>, b: Line,
                    log2: seq<seq<Byte>>, heard2: seq<seq<Byte>>, c: Line)
    requires Conserves(dev, a, log1, heard1, b) && Conserves(dev, b, log2, heard2, c)
    ensures Conserves(dev, a, log1 + log2, heard1 + heard2, c)
  {
    RepliesAppend(dev, a.sent, log1, log2);
    ConcatAppend(heard1, heard2);
    Regroup(a.sent, log1, log2);
    Balance(a.incoming, Replies(dev, a.sent, log1), Concat(heard1), b.incoming, Replies(dev, b.sent, log2),
            Concat(heard2), c.incoming);
  }

  lemma ReadConserves(dev: Device, l: Line, buf: seq<Byte>, tries: nat)
    ensures var t := ReadAttempts(Over(Wired(dev)), l, buf, tries); Conserves(dev, l, t.log, t.heard, t.line)
  {
    var rel: Passage<Line> := (a: Line, log: seq<seq<Byte>>, heard: seq<seq<Byte>>, b: Line) =>
      Conserves(dev, a, log, heard, b);
    forall a, f
      ensures rel(a, [f], [], Write(dev, a, f))
    {
      WriteConserves(dev, a, f);
    }
    forall a
      ensures rel(a, [], [Respond(Wired(dev), a).1], Respond(Wired(dev), a).0)
    {
      RespondConserves(dev, a);
    }
    forall a, log1, heard1, b, log2, heard2, c
      ensures Joins(rel, a, log1, heard1, b, log2, heard2, c)
    {
      if rel(a, log1, heard1, b) && rel(b, log2, heard2, c) {
        ConservesOn(dev, a, log1, heard1, b, log2, heard2, c);
      }
    }
    ReadFollows(Over(Wired(dev)), rel, l, buf, tries);
  }

  /** A read command on the wire, whatever the device answers and however late: it puts at most nine command frames on
    the line, each closing; the bytes that were there and those sent in answer are the responses heard and what is
    still unread; and data it returns is the exact payload of the last of these responses. */
  lemma ReadOnTheWire(dev: Device, l: Line, addr: Byte)
    ensures var t := SendRead(Over(Wired(dev)), l, addr);
            && t.line.sent == l.sent + t.log && Transmits(addr, t.log)
            && l.incoming + Replies(dev, l.sent, t.log) == Concat(t.heard) + t.line.incoming
            && Delivers(t.heard, t.outcome)
  {
    ReadConserves(dev, l, [0x80, addr], RETRIES);
    ReadTransmits(Over(Wired(dev)), l, addr);
    ReadReturnsPayload(Over(Wired(dev)), l, [0x80, addr], RETRIES);
  }
}
