/** How often a command is sent, and when it is given up, by number. */
module MiconRetries {
  import opened Bytes
  import opened MiconFrames
  import opened MiconCommands

  // ----- tries that fail -----

  /** The frames to be sent, one for each try. */
  type Frames = nat -> seq<Byte>

  /** A try fails when nothing comes back, or something that does not close. */
  predicate FailsTry<W>(ch: Channel<W>, l: W, f: seq<Byte>) {
    var resp := ch.respond(ch.write(l, f)).1;
    resp == [] || !Closes(resp)
  }

  // After a response that does not close, 32 bytes of ones are sent.
  function AfterTry<W>(ch: Channel<W>, l: W, f: seq<Byte>): W {
    var (l1, resp) := ch.respond(ch.write(l, f));
    if resp == [] then l1 else ch.write(l1, seq(32, i => 0xff))
  }

  function TryLog<W>(ch: Channel<W>, l: W, f: seq<Byte>): seq<seq<Byte>> {
    if ch.respond(ch.write(l, f)).1 == [] then [f] else [f, seq(32, i => 0xff)]
  }

  /** The line when the k-th frame, counted from zero, is about to be sent. */
  function LineAt<W>(ch: Channel<W>, l: W, frames: Frames, k: nat): W {
    if k == 0 then l
    else
      var before := LineAt(ch, l, frames, k - 1);
      AfterTry(ch, before, frames(k - 1))
  }

  function Written<W>(ch: Channel<W>, l: W, frames: Frames, k: nat): seq<seq<Byte>> {
    if k == 0 then [] else Written(ch, l, frames, k - 1) + TryLog(ch, LineAt(ch, l, frames, k - 1), frames(k - 1))
  }

  ghost predicate FirstFail<W(!new)>(ch: Channel<W>, l: W, frames: Frames, k: nat) {
    forall i: nat :: i < k ==> FailsTry(ch, LineAt(ch, l, frames, i), frames(i))
  }

  lemma CommandFails<W>(ch: Channel<W>, l: W, f: seq<Byte>, tries: nat)
    requires tries > 0 && FailsTry(ch, l, f)
    ensures Command(ch, l, f, tries) ==
            Command(ch, AfterTry(ch, l, f), f, tries - 1).After(TryLog(ch, l, f), [ch.respond(ch.write(l, f)).1])
  {
    assert Preamble() == seq(32, i => 0xff);
  }

  // ----- one command -----

  // The same frame every time.
  function SameFrame(f: seq<Byte>): Frames {
    i => f
  }

  /** What is left of a command when its k-th frame is about to be sent. */
  function CommandAt<W>(ch: Channel<W>, l: W, f: seq<Byte>, k: nat): Talk<W> {
    Command(ch, l, f, if k < 3 then 3 - k else 0)
  }

  lemma CommandAtFails<W>(ch: Channel<W>, l: W, f: seq<Byte>, k: nat)
    requires k < 3 && FailsTry(ch, l, f)
    ensures CommandAt(ch, l, f, k) ==
            CommandAt(ch, AfterTry(ch, l, f), f, k + 1).After(TryLog(ch, l, f), [ch.respond(ch.write(l, f)).1])
  {
    CommandFails(ch, l, f, 3 - k);
  }

  lemma {:induction false} CommandGoesOn<W(!new)>(ch: Channel<W>, l: W, f: seq<Byte>, k: nat)
    requires k <= 3 && FirstFail(ch, l, SameFrame(f), k)
    ensures var t, u := CommandAt(ch, l, f, 0), CommandAt(ch, LineAt(ch, l, SameFrame(f), k), f, k);
            t.line == u.line && t.outcome == u.outcome && t.log == Written(ch, l, SameFrame(f), k) + u.log
  {
    var frames := SameFrame(f);
    if k > 0 {
      var before := LineAt(ch, l, frames, k - 1);
      CommandGoesOn(ch, l, f, k - 1);
      assert FailsTry(ch, before, frames(k - 1));
      CommandAtFails(ch, before, f, k - 1);
      var u := CommandAt(ch, LineAt(ch, l, frames, k), f, k);
      Regroup(Written(ch, l, frames, k - 1), TryLog(ch, before, f), u.log);
    }
  }

  lemma SendWriteIs<W>(ch: Channel<W>, l: W, length: Byte, addr: Byte, data: seq<Byte>)
    ensures SendWrite(ch, l, length, addr, data) == CommandAt(ch, l, Closed([length, addr] + data), 0)
  {
  }

  /** A write command is sent again until a response closes, three times at the most: after k < 3 failed tries and then
    such a response, k + 1 frames have gone out and the response decides. */
  lemma WriteRetries<W(!new)>(ch: Channel<W>, l: W, length: Byte, addr: Byte, data: seq<Byte>, k: nat, f: seq<Byte>)
    requires f == Closed([length, addr] + data) && k < 3
    requires FirstFail(ch, l, SameFrame(f), k) && !FailsTry(ch, LineAt(ch, l, SameFrame(f), k), f)
    ensures var (l', resp) := ch.respond(ch.write(LineAt(ch, l, SameFrame(f), k), f));
            var t := SendWrite(ch, l, length, addr, data);
            && t.line == l' && t.log == Written(ch, l, SameFrame(f), k) + [f]
            && t.outcome == if resp[0] < 0x80 && |resp| < 3 then Raised else Answer(resp)
  {
    SendWriteIs(ch, l, length, addr, data);
    CommandGoesOn(ch, l, f, k);
  }

  /** After three failed tries it is given up. */
  lemma WriteGivesUp<W(!new)>(ch: Channel<W>, l: W, length: Byte, addr: Byte, data: seq<Byte>, f: seq<Byte>)
    requires f == Closed([length, addr] + data) && FirstFail(ch, l, SameFrame(f), 3)
    ensures var t := SendWrite(ch, l, length, addr, data);
            && t.line == LineAt(ch, l, SameFrame(f), 3) && t.log == Written(ch, l, SameFrame(f), 3)
            && t.outcome == NoAnswer && Commands(t.log) == [f, f, f]
  {
    SendWriteIs(ch, l, length, addr, data);
    CommandGoesOn(ch, l, f, 3);
    CheckByteCloses([length, addr] + data);
    SameWritten(ch, l, f, 3);
    assert Repeat(f, 3) == [f, f, f];
  }

  lemma PreambleDoesNotClose()
    ensures !Closes(seq(32, i => 0xff))
  {
    var p: seq<Byte> := seq(32, i => 0xff);
    ResidueIsSum(p);
    PreambleSum(p, 32);
  }

  lemma {:induction false} PreambleSum(p: seq<Byte>, n: nat)
    requires n <= |p| && forall i :: 0 <= i < |p| ==> p[i] == 0xff
    ensures SumTo(p, n) == 0xff * n
  {
    if n > 0 {
      PreambleSum(p, n - 1);
    }
  }

  lemma {:induction false} SameWritten<W(!new)>(ch: Channel<W>, l: W, f: seq<Byte>, k: nat)
    requires Closes(f)
    ensures Commands(Written(ch, l, SameFrame(f), k)) == Repeat(f, k)
  {
    if k > 0 {
      var before := LineAt(ch, l, SameFrame(f), k - 1);
      SameWritten(ch, l, f, k - 1);
      PreambleDoesNotClose();
      FrameOfTry(f);
      CommandsAppend(Written(ch, l, SameFrame(f), k - 1), TryLog(ch, before, f));
      assert Repeat(f, k) == Repeat(f, k - 1) + [f];
    }
  }

  lemma FrameOfTry(f: seq<Byte>)
    requires f != seq(32, i => 0xff)
    ensures Commands([f]) == [f] && Commands([f, seq(32, i => 0xff)]) == [f]
  {
    var p: seq<Byte> := seq(32, i => 0xff);
    assert p == Preamble() && [f][1..] == [] && [f, p][1..] == [p] && [p][1..] == [];
  }

  // ----- read commands -----

  /** What a read command makes of one command and of the attempts after it. */
  function Finish<W>(ch: Channel<W>, t: Talk<W>, f: seq<Byte>, attempts: nat): Talk<W> {
    if t.outcome.Raised? then t
    else if Satisfied(t.outcome) then t.(outcome := Answer(Payload(t.outcome.bytes)))
    else ReadAttempts(ch, t.line, f, attempts).After(t.log, t.heard)
  }

  lemma FinishAfter<W>(ch: Channel<W>, t: Talk<W>, f: seq<Byte>, attempts: nat, log: seq<seq<Byte>>,
                       heard: seq<seq<Byte>>)
    ensures Finish(ch, t.After(log, heard), f, attempts) == Finish(ch, t, f, attempts).After(log, heard)
  {
    var more := ReadAttempts(ch, t.line, f, attempts);
    Regroup(log, t.log, more.log);
    Regroup(heard, t.heard, more.heard);
  }

  lemma AttemptIsFinish<W>(ch: Channel<W>, l: W, buf: seq<Byte>, attempts: nat)
    requires attempts > 0
    ensures ReadAttempts(ch, l, buf, attempts) == Finish(ch, Command(ch, l, Closed(buf), 3), Closed(buf), attempts - 1)
  {
  }

  /** What is left of a read command when attempt a has n tries left. */
  function Rest<W>(ch: Channel<W>, l: W, addr: Byte, a: nat, n: nat): Talk<W>
    requires a < 3
  {
    Finish(ch, Command(ch, l, AttemptFrame(addr, a), n), AttemptFrame(addr, a), 2 - a)
  }

  lemma RestFromStart<W>(ch: Channel<W>, l: W, addr: Byte)
    ensures SendRead(ch, l, addr) == Rest(ch, l, addr, 0, 3)
  {
    assert Closed([0x80, addr]) == AttemptFrame(addr, 0);
    AttemptIsFinish(ch, l, [0x80, addr], 3);
  }

  /** An attempt with no tries left: the next one, or nothing. */
  lemma AttemptOver<W>(ch: Channel<W>, l: W, addr: Byte, a: nat)
    requires a < 3
    ensures Rest(ch, l, addr, a, 0) == if a < 2 then Rest(ch, l, addr, a + 1, 3) else Talk(l, [], [], NoAnswer)
  {
    var f := AttemptFrame(addr, a);
    var more := ReadAttempts(ch, l, f, 2 - a);
    assert more.After([], []) == more;
    if a < 2 {
      NextAttempt(addr, a);
      AttemptIsFinish(ch, l, f, 2 - a);
    }
  }

  lemma FinishFails<W>(ch: Channel<W>, l: W, f: seq<Byte>, tries: nat, attempts: nat)
    requires tries > 0 && FailsTry(ch, l, f)
    ensures Finish(ch, Command(ch, l, f, tries), f, attempts) ==
            Finish(ch, Command(ch, AfterTry(ch, l, f), f, tries - 1), f, attempts)
              .After(TryLog(ch, l, f), [ch.respond(ch.write(l, f)).1])
  {
    CommandFails(ch, l, f, tries);
    FinishAfter(ch, Command(ch, AfterTry(ch, l, f), f, tries - 1), f, attempts, TryLog(ch, l, f),
                [ch.respond(ch.write(l, f)).1]);
  }

  lemma RestFails<W>(ch: Channel<W>, l: W, addr: Byte, a: nat, n: nat, f: seq<Byte>)
    requires a < 3 && n > 0 && f == AttemptFrame(addr, a) && FailsTry(ch, l, f)
    ensures Rest(ch, l, addr, a, n) ==
            Rest(ch, AfterTry(ch, l, f), addr, a, n - 1).After(TryLog(ch, l, f), [ch.respond(ch.write(l, f)).1])
  {
    FinishFails(ch, l, f, n, 2 - a);
  }

  lemma RestSucceeds<W>(ch: Channel<W>, l: W, addr: Byte, a: nat, n: nat)
    requires a < 3 && n > 0 && CarriesData(ch.respond(ch.write(l, AttemptFrame(addr, a))).1)
    ensures var f := AttemptFrame(addr, a);
            var (l', resp) := ch.respond(ch.write(l, f));
            Rest(ch, l, addr, a, n) == Talk(l', [f], [resp], Answer(Payload(resp)))
  {
  }

  // Three tries for each attempt, the frame of each attempt one zero byte longer.
  function ReadFrames(addr: Byte): Frames {
    i => AttemptFrame(addr, i / 3)
  }

  function SentFrames(addr: Byte, n: nat): seq<seq<Byte>> {
    seq(n, i requires 0 <= i < n => AttemptFrame(addr, i / 3))
  }

  function RestAt<W>(ch: Channel<W>, l: W, addr: Byte, k: nat): Talk<W> {
    if k >= 9 then Talk(l, [], [], NoAnswer) else Rest(ch, l, addr, k / 3, 3 - k % 3)
  }

  lemma RestAtFails<W>(ch: Channel<W>, l: W, addr: Byte, k: nat)
    requires k < 9 && FailsTry(ch, l, AttemptFrame(addr, k / 3))
    ensures var f := AttemptFrame(addr, k / 3);
            RestAt(ch, l, addr, k) ==
            RestAt(ch, AfterTry(ch, l, f), addr, k + 1).After(TryLog(ch, l, f), [ch.respond(ch.write(l, f)).1])
  {
    var f := AttemptFrame(addr, k / 3);
    RestFails(ch, l, addr, k / 3, 3 - k % 3, f);
    assert k % 3 < 2 ==> (k + 1) / 3 == k / 3 && (k + 1) % 3 == k % 3 + 1;
    if k % 3 == 2 {
      AttemptOver(ch, AfterTry(ch, l, f), addr, k / 3);
    }
  }

  lemma {:induction false} ReadGoesOn<W(!new)>(ch: Channel<W>, l: W, addr: Byte, k: nat)
    requires k <= 9 && FirstFail(ch, l, ReadFrames(addr), k)
    ensures var t, u := SendRead(ch, l, addr), RestAt(ch, LineAt(ch, l, ReadFrames(addr), k), addr, k);
            t.line == u.line && t.outcome == u.outcome && t.log == Written(ch, l, ReadFrames(addr), k) + u.log
  {
    var frames := ReadFrames(addr);
    if k == 0 {
      RestFromStart(ch, l, addr);
    } else {
      var before := LineAt(ch, l, frames, k - 1);
      ReadGoesOn(ch, l, addr, k - 1);
      assert FailsTry(ch, before, frames(k - 1));
      RestAtFails(ch, before, addr, k - 1);
      var u := RestAt(ch, LineAt(ch, l, frames, k), addr, k);
      Regroup(Written(ch, l, frames, k - 1), TryLog(ch, before, frames(k - 1)), u.log);
    }
  }

  /** A read command is sent again until it is answered, nine times at the most: after k < 9 failed tries and then a
    response with data, exactly k + 1 frames have gone out and the data is returned. */
  lemma ReadRetries<W(!new)>(ch: Channel<W>, l: W, addr: Byte, k: nat)
    requires k < 9 && FirstFail(ch, l, ReadFrames(addr), k)
    requires CarriesData(ch.respond(ch.write(LineAt(ch, l, ReadFrames(addr), k), AttemptFrame(addr, k / 3))).1)
    ensures var f := AttemptFrame(addr, k / 3);
            var (l', resp) := ch.respond(ch.write(LineAt(ch, l, ReadFrames(addr), k), f));
            var t := SendRead(ch, l, addr);
            && t.line == l' && t.log == Written(ch, l, ReadFrames(addr), k) + [f]
            && t.outcome == Answer(resp[2..|resp| - 1]) && Carries(resp, resp[2..|resp| - 1])
            && Commands(t.log) == SentFrames(addr, k + 1)
  {
    var before := LineAt(ch, l, ReadFrames(addr), k);
    ReadGoesOn(ch, l, addr, k);
    RestSucceeds(ch, before, addr, k / 3, 3 - k % 3);
    PayloadCarried(ch.respond(ch.write(before, AttemptFrame(addr, k / 3))).1);
    LastFrame(ch, l, addr, k);
  }

  lemma LastFrame<W(!new)>(ch: Channel<W>, l: W, addr: Byte, k: nat)
    requires k < 9
    ensures Commands(Written(ch, l, ReadFrames(addr), k) + [AttemptFrame(addr, k / 3)]) == SentFrames(addr, k + 1)
  {
    var f := AttemptFrame(addr, k / 3);
    WrittenFrames(ch, l, addr, k);
    CommandsAppend(Written(ch, l, ReadFrames(addr), k), [f]);
    OneFrame(addr, k / 3);
    assert SentFrames(addr, k + 1) == SentFrames(addr, k) + [f];
  }

  /** After nine failed tries it is given up: three frames for each of the attempts 0, 1 and 2. */
  lemma ReadGivesUp<W(!new)>(ch: Channel<W>, l: W, addr: Byte)
    requires FirstFail(ch, l, ReadFrames(addr), 9)
    ensures var t := SendRead(ch, l, addr);
            && t.line == LineAt(ch, l, ReadFrames(addr), 9) && t.log == Written(ch, l, ReadFrames(addr), 9)
            && t.outcome == NoAnswer
            && Commands(t.log) == SentFrames(addr, 9)
  {
    ReadGoesOn(ch, l, addr, 9);
    WrittenFrames(ch, l, addr, 9);
  }

  lemma OneFrame(addr: Byte, a: nat)
    requires a < 3
    ensures AttemptFrame(addr, a) != Preamble() && Commands([AttemptFrame(addr, a)]) == [AttemptFrame(addr, a)]
    ensures Commands([AttemptFrame(addr, a), Preamble()]) == [AttemptFrame(addr, a)]
  {
    var f := AttemptFrame(addr, a);
    assert |f| != |Preamble()|;
    assert [f, Preamble()][1..] == [Preamble()] && [Preamble()][1..] == [];
  }

  lemma {:induction false} WrittenFrames<W(!new)>(ch: Channel<W>, l: W, addr: Byte, k: nat)
    requires k <= 9
    ensures Commands(Written(ch, l, ReadFrames(addr), k)) == SentFrames(addr, k)
  {
    if k > 0 {
      var before := LineAt(ch, l, ReadFrames(addr), k - 1);
      WrittenFrames(ch, l, addr, k - 1);
      OneFrame(addr, (k - 1) / 3);
      assert Preamble() == seq(32, i => 0xff);
      CommandsAppend(Written(ch, l, ReadFrames(addr), k - 1), TryLog(ch, before, AttemptFrame(addr, (k - 1) / 3)));
      assert SentFrames(addr, k) == SentFrames(addr, k - 1) + [AttemptFrame(addr, (k - 1) / 3)];
    }
  }
}
