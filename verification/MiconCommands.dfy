/** Commands and their retries, over any line at all: writing moves the line on, a response is whatever it gives. */
module MiconCommands {
  import opened Bytes
  import opened MiconFrames

  const RETRIES: nat := 3

  datatype Channel<!W> = Channel(write: (W, seq<Byte>) -> W, respond: W -> (W, seq<Byte>))

  datatype Outcome = Answer(bytes: seq<Byte>) | NoAnswer | Raised

  /** Where the line is after a command, what was written, the responses to it, and what came of it. */
  datatype Talk<W> = Talk(line: W, log: seq<seq<Byte>>, heard: seq<seq<Byte>>, outcome: Outcome)
  {
    function After(written: seq<seq<Byte>>, responses: seq<seq<Byte>>): Talk<W> {
      this.(log := written + log, heard := responses + heard)
    }
  }

  function Preamble(): seq<Byte> {
    seq(32, i => 0xff)
  }

  // An answer that closes counts as one, except that the code of a short write reply cannot be looked at.
  function Judge(resp: seq<Byte>): Outcome
    requires resp != []
  {
    if !Top(resp[0]) && |resp| < 3 then Raised else Answer(resp)
  }

  function Command<W>(ch: Channel<W>, l: W, f: seq<Byte>, tries: nat): Talk<W>
    decreases tries
  {
    if tries == 0 then Talk(l, [], [], NoAnswer)
    else
      var (l1, resp) := ch.respond(ch.write(l, f));
      if resp == [] then Command(ch, l1, f, tries - 1).After([f], [resp])
      else if Closes(resp) then Talk(l1, [f], [resp], Judge(resp))
      else Command(ch, ch.write(l1, Preamble()), f, tries - 1).After([f, Preamble()], [resp])
  }

  predicate AnswersRead(resp: seq<Byte>) {
    resp != [] && Top(resp[0]) && |resp| == Low(resp[0]) + 3
  }

  predicate Satisfied(o: Outcome) {
    o.Answer? && AnswersRead(o.bytes)
  }

  // The bytes between the address and the check byte.
  function Payload(resp: seq<Byte>): seq<Byte>
    requires |resp| >= 3
  {
    resp[2..|resp| - 1]
  }

  // Every attempt closes the same buffer once more.
  function ReadAttempts<W>(ch: Channel<W>, l: W, buf: seq<Byte>, tries: nat): Talk<W>
    decreases tries
  {
    if tries == 0 then Talk(l, [], [], NoAnswer)
    else
      var t := Command(ch, l, Closed(buf), RETRIES);
      if t.outcome.Raised? then t
      else if Satisfied(t.outcome) then t.(outcome := Answer(Payload(t.outcome.bytes)))
      else ReadAttempts(ch, t.line, Closed(buf), tries - 1).After(t.log, t.heard)
  }

  function SendRead<W>(ch: Channel<W>, l: W, addr: Byte): Talk<W> {
    ReadAttempts(ch, l, [0x80, addr], RETRIES)
  }

  function SendWrite<W>(ch: Channel<W>, l: W, length: Byte, addr: Byte, data: seq<Byte>): Talk<W> {
    Command(ch, l, Closed([length, addr] + data), RETRIES)
  }

  // ----- what a read command transmits -----

  function Repeat(f: seq<Byte>, n: nat): (s: seq<seq<Byte>>)
    ensures |s| == n
  {
    seq(n, i => f)
  }

  /** The command frames of a log; the preambles between them left out. */
  function Commands(log: seq<seq<Byte>>): seq<seq<Byte>> {
    if log == [] then []
    else if log[0] == Preamble() then Commands(log[1..])
    else [log[0]] + Commands(log[1..])
  }

  lemma {:induction false} CommandsAppend(a: seq<seq<Byte>>, b: seq<seq<Byte>>)
    ensures Commands(a + b) == Commands(a) + Commands(b)
    decreases |a|
  {
    if a == [] {
      assert a + b == b;
    } else {
      assert (a + b)[1..] == a[1..] + b;
      CommandsAppend(a[1..], b);
    }
  }

  function ReadFrame(addr: Byte): seq<Byte> {
    Closed([0x80, addr])
  }

  function AttemptFrame(addr: Byte, k: nat): seq<Byte> {
    ReadFrame(addr) + Zeros(k)
  }

  /** Closing a frame that closes appends a zero byte. */
  lemma {:induction false} NextAttempt(addr: Byte, k: nat)
    ensures Closes(AttemptFrame(addr, k))
    ensures Closed(AttemptFrame(addr, k)) == AttemptFrame(addr, k + 1)
  {
    var f := AttemptFrame(addr, k);
    if k == 0 {
      assert f == ReadFrame(addr);
      CheckByteCloses([0x80, addr]);
    } else {
      NextAttempt(addr, k - 1);
      CheckByteCloses(AttemptFrame(addr, k - 1));
    }
    CheckByteCloses(f);
    assert f + [0] == AttemptFrame(addr, k + 1);
  }

  // One more try in front of a log: the frame, and a preamble after a response that does not close.
  lemma OneMoreTry(f: seq<Byte>, garbled: bool, more: seq<seq<Byte>>, n: nat)
    requires f != Preamble() && Commands(more) == Repeat(f, n)
    ensures Commands((if garbled then [f, Preamble()] else [f]) + more) == Repeat(f, n + 1)
  {
    var log := (if garbled then [f, Preamble()] else [f]) + more;
    if garbled {
      assert log[1..] == [Preamble()] + more && log[1..][1..] == more;
    } else {
      assert log[1..] == more;
    }
    assert Repeat(f, n + 1) == [f] + Repeat(f, n);
  }

  lemma {:induction false} CommandLog<W>(ch: Channel<W>, l: W, f: seq<Byte>, tries: nat) returns (n: nat)
    requires f != Preamble()
    ensures Commands(Command(ch, l, f, tries).log) == Repeat(f, n) && n <= tries && (tries > 0 ==> n > 0)
    decreases tries
  {
    if tries == 0 {
      return 0;
    }
    var (l1, resp) := ch.respond(ch.write(l, f));
    if resp == [] {
      n := CommandLog(ch, l1, f, tries - 1);
      OneMoreTry(f, false, Command(ch, l1, f, tries - 1).log, n);
    } else if Closes(resp) {
      OneMoreTry(f, false, [], 0);
      assert [f] + [] == [f];
      return 1;
    } else {
      var l2 := ch.write(l1, Preamble());
      n := CommandLog(ch, l2, f, tries - 1);
      OneMoreTry(f, true, Command(ch, l2, f, tries - 1).log, n);
    }
    n := n + 1;
  }

  /** The frames of a read command from attempt k on: one to three copies of the frame of each attempt made. */
  ghost predicate AttemptsFrom(addr: Byte, k: nat, tries: nat, frames: seq<seq<Byte>>)
    decreases tries
  {
    if tries == 0 then frames == []
    else exists n: nat :: 1 <= n <= RETRIES && n <= |frames|
                          && frames[..n] == Repeat(AttemptFrame(addr, k), n)
                          && (frames[n..] == [] || AttemptsFrom(addr, k + 1, tries - 1, frames[n..]))
  }

  lemma OneMoreAttempt(addr: Byte, k: nat, tries: nat, n: nat, first: seq<seq<Byte>>, more: seq<seq<Byte>>)
    requires 1 <= n <= RETRIES && first == Repeat(AttemptFrame(addr, k), n)
    requires tries > 0 && (more == [] || AttemptsFrom(addr, k + 1, tries - 1, more))
    ensures AttemptsFrom(addr, k, tries, first + more)
  {
    var all := first + more;
    assert all[..n] == first && all[n..] == more;
  }

  lemma {:induction false} AttemptsLog<W>(ch: Channel<W>, l: W, addr: Byte, buf: seq<Byte>, k: nat, tries: nat)
    requires k + tries <= RETRIES && Closed(buf) == AttemptFrame(addr, k)
    ensures AttemptsFrom(addr, k, tries, Commands(ReadAttempts(ch, l, buf, tries).log))
    decreases tries
  {
    if tries > 0 {
      var f := AttemptFrame(addr, k);
      assert |f| != |Preamble()|;
      var t := Command(ch, l, f, RETRIES);
      var n := CommandLog(ch, l, f, RETRIES);
      var frames := Commands(t.log);
      if t.outcome.Raised? || Satisfied(t.outcome) {
        OneMoreAttempt(addr, k, tries, n, frames, []);
        assert frames + [] == frames;
      } else {
        NextAttempt(addr, k);
        AttemptsLog(ch, t.line, addr, f, k + 1, tries - 1);
        var more := ReadAttempts(ch, t.line, f, tries - 1).log;
        CommandsAppend(t.log, more);
        OneMoreAttempt(addr, k, tries, n, frames, Commands(more));
      }
    }
  }

  lemma {:induction false} AttemptsBounded(addr: Byte, k: nat, tries: nat, frames: seq<seq<Byte>>)
    requires AttemptsFrom(addr, k, tries, frames)
    ensures |frames| <= 3 * tries
    decreases tries
  {
    if tries > 0 {
      var n: nat :| 1 <= n <= RETRIES && n <= |frames|
                    && frames[..n] == Repeat(AttemptFrame(addr, k), n)
                    && (frames[n..] == [] || AttemptsFrom(addr, k + 1, tries - 1, frames[n..]));
      if frames[n..] != [] {
        AttemptsBounded(addr, k + 1, tries - 1, frames[n..]);
      }
    }
  }

  lemma {:induction false} AttemptOf(addr: Byte, k: nat, tries: nat, frames: seq<seq<Byte>>, i: nat) returns (j: nat)
    requires AttemptsFrom(addr, k, tries, frames) && i < |frames|
    ensures k <= j < k + tries && frames[i] == AttemptFrame(addr, j)
    decreases tries
  {
    var n: nat :| 1 <= n <= RETRIES && n <= |frames|
                  && frames[..n] == Repeat(AttemptFrame(addr, k), n)
                  && (frames[n..] == [] || AttemptsFrom(addr, k + 1, tries - 1, frames[n..]));
    if i < n {
      j := k;
      assert frames[i] == frames[..n][i] == Repeat(AttemptFrame(addr, k), n)[i];
    } else {
      j := AttemptOf(addr, k + 1, tries - 1, frames[n..], i - n);
      assert frames[i] == frames[n..][i - n];
    }
  }

  /** At most nine frames: for attempt k = 0, 1, 2 at most three copies of the first frame followed by k zero bytes;
    and every one closes. */
  ghost predicate Transmits(addr: Byte, log: seq<seq<Byte>>) {
    var frames := Commands(log);
    && AttemptsFrom(addr, 0, RETRIES, frames)
    && |frames| <= 9
    && forall i :: 0 <= i < |frames| ==>
         Closes(frames[i]) && exists j: nat :: j < 3 && frames[i] == AttemptFrame(addr, j)
  }

  /** Whatever the line does, a read command sends that much and no more. */
  lemma ReadTransmits<W>(ch: Channel<W>, l: W, addr: Byte)
    ensures Transmits(addr, SendRead(ch, l, addr).log)
  {
    assert Closed([0x80, addr]) == AttemptFrame(addr, 0);
    AttemptsLog(ch, l, addr, [0x80, addr], 0, RETRIES);
    var frames := Commands(SendRead(ch, l, addr).log);
    AttemptsBounded(addr, 0, RETRIES, frames);
    forall i: nat | i < |frames|
      ensures Closes(frames[i]) && exists j: nat :: j < 3 && frames[i] == AttemptFrame(addr, j)
    {
      var j := AttemptOf(addr, 0, RETRIES, frames, i);
      NextAttempt(addr, j);
    }
  }

  // ----- what a read command returns -----

  /** A well-formed read answer around the data. */
  ghost predicate Carries(resp: seq<Byte>, data: seq<Byte>) {
    && WellFormed(resp) && Top(resp[0]) && |data| == Low(resp[0])
    && resp == [resp[0], resp[1]] + data + [resp[|resp| - 1]]
  }

  ghost predicate CarriesData(resp: seq<Byte>) {
    Closes(resp) && AnswersRead(resp)
  }

  lemma PayloadCarried(resp: seq<Byte>)
    requires CarriesData(resp)
    ensures Carries(resp, Payload(resp))
  {
    assert resp == [resp[0], resp[1]] + Payload(resp) + [resp[|resp| - 1]];
  }

  /** The responses up to the last carry no data. */
  ghost predicate NoneBefore(heard: seq<seq<Byte>>) {
    forall i :: 0 <= i < |heard| - 1 ==> !CarriesData(heard[i])
  }

  /** What came of it is what the last response says, and no earlier one carries data. */
  ghost predicate Tells(heard: seq<seq<Byte>>, o: Outcome) {
    && NoneBefore(heard)
    && (o.Answer? ==> heard != [] && heard[|heard| - 1] == o.bytes && o.bytes != [] && Closes(o.bytes))
    && (!o.Answer? && heard != [] ==> !CarriesData(heard[|heard| - 1]))
  }

  lemma OneMoreResponse(resp: seq<Byte>, heard: seq<seq<Byte>>, o: Outcome)
    requires Tells(heard, o) && (resp == [] || !Closes(resp))
    ensures Tells([resp] + heard, o)
  {
  }

  lemma {:induction false} CommandAnswers<W>(ch: Channel<W>, l: W, f: seq<Byte>, tries: nat)
    ensures var t := Command(ch, l, f, tries); Tells(t.heard, t.outcome)
    decreases tries
  {
    if tries > 0 {
      var (l1, resp) := ch.respond(ch.write(l, f));
      if resp == [] || !Closes(resp) {
        var l2 := if resp == [] then l1 else ch.write(l1, Preamble());
        CommandAnswers(ch, l2, f, tries - 1);
        var t := Command(ch, l2, f, tries - 1);
        OneMoreResponse(resp, t.heard, t.outcome);
      }
    }
  }

  /** Data is the exact payload of the last response, a well-formed read answer; and no response before it, and none
    at all when there is no data, was one. */
  ghost predicate Delivers(heard: seq<seq<Byte>>, o: Outcome) {
    && NoneBefore(heard)
    && (o.Answer? ==> heard != [] && Carries(heard[|heard| - 1], o.bytes))
    && (!o.Answer? && heard != [] ==> !CarriesData(heard[|heard| - 1]))
  }

  lemma DeliversAfter(first: seq<seq<Byte>>, heard: seq<seq<Byte>>, o: Outcome)
    requires Delivers(first, NoAnswer) && Delivers(heard, o)
    ensures Delivers(first + heard, o)
  {
    var all := first + heard;
    forall i | 0 <= i < |all| - 1
      ensures !CarriesData(all[i])
    {
      assert all[i] == if i < |first| then first[i] else heard[i - |first|];
    }
    if heard == [] {
      assert all == first;
    }
  }

  /** Whatever the line does: data that a read command returns is the exact payload of the last response received, and
    this is the first response that carries any. */
  lemma {:induction false} ReadReturnsPayload<W>(ch: Channel<W>, l: W, buf: seq<Byte>, tries: nat)
    ensures var t := ReadAttempts(ch, l, buf, tries); Delivers(t.heard, t.outcome)
    decreases tries
  {
    if tries > 0 {
      var t := Command(ch, l, Closed(buf), RETRIES);
      CommandAnswers(ch, l, Closed(buf), RETRIES);
      if Satisfied(t.outcome) {
        PayloadCarried(t.outcome.bytes);
      } else if !t.outcome.Raised? {
        ReadReturnsPayload(ch, t.line, Closed(buf), tries - 1);
        var more := ReadAttempts(ch, t.line, Closed(buf), tries - 1);
        DeliversAfter(t.heard, more.heard, more.outcome);
      }
    }
  }

  // ----- the logs are what a line sees -----

  /** What holds between two lines with some writes and some responses in between. */
  type Passage<!W> = (W, seq<seq<Byte>>, seq<seq<Byte>>, W) -> bool

  ghost predicate Joins<W>(rel: Passage<W>, a: W, log1: seq<seq<Byte>>, heard1: seq<seq<Byte>>, b: W,
                           log2: seq<seq<Byte>>, heard2: seq<seq<Byte>>, c: W) {
    rel(a, log1, heard1, b) && rel(b, log2, heard2, c) ==> rel(a, log1 + log2, heard1 + heard2, c)
  }

  /** It holds over nothing, over each write and each response, and over what is put together of such. */
  ghost predicate Follows<W(!new)>(ch: Channel<W>, rel: Passage<W>) {
    && (forall l :: rel(l, [], [], l))
    && (forall l, f :: rel(l, [f], [], ch.write(l, f)))
    && (forall l :: rel(l, [], [ch.respond(l).1], ch.respond(l).0))
    && (forall a, log1, heard1, b, log2, heard2, c :: Joins(rel, a, log1, heard1, b, log2, heard2, c))
  }

  lemma TryFollows<W(!new)>(ch: Channel<W>, rel: Passage<W>, l: W, f: seq<Byte>)
    requires Follows(ch, rel)
    ensures var (l1, resp) := ch.respond(ch.write(l, f));
            rel(l, [f], [resp], l1) && rel(l, [f, Preamble()], [resp], ch.write(l1, Preamble()))
  {
    var (l1, resp) := ch.respond(ch.write(l, f));
    assert Joins(rel, l, [f], [], ch.write(l, f), [], [resp], l1);
    assert [f] + [] == [f] && [] + [resp] == [resp];
    assert Joins(rel, l, [f], [resp], l1, [Preamble()], [], ch.write(l1, Preamble()));
    assert [f] + [Preamble()] == [f, Preamble()] && [resp] + [] == [resp];
  }

  lemma {:induction false} CommandFollows<W(!new)>(ch: Channel<W>, rel: Passage<W>, l: W, f: seq<Byte>, tries: nat)
    requires Follows(ch, rel)
    ensures var t := Command(ch, l, f, tries); rel(l, t.log, t.heard, t.line)
    decreases tries
  {
    if tries > 0 {
      var (l1, resp) := ch.respond(ch.write(l, f));
      TryFollows(ch, rel, l, f);
      if resp == [] || !Closes(resp) {
        var l2 := if resp == [] then l1 else ch.write(l1, Preamble());
        var t := Command(ch, l2, f, tries - 1);
        CommandFollows(ch, rel, l2, f, tries - 1);
        assert Joins(rel, l, if resp == [] then [f] else [f, Preamble()], [resp], l2, t.log, t.heard, t.line);
      }
    }
  }

  /** What holds over writes and responses holds over a read command, with what it is said to write and to hear. */
  lemma {:induction false} ReadFollows<W(!new)>(ch: Channel<W>, rel: Passage<W>, l: W, buf: seq<Byte>, tries: nat)
    requires Follows(ch, rel)
    ensures var t := ReadAttempts(ch, l, buf, tries); rel(l, t.log, t.heard, t.line)
    decreases tries
  {
    if tries > 0 {
      var t := Command(ch, l, Closed(buf), RETRIES);
      CommandFollows(ch, rel, l, Closed(buf), RETRIES);
      if !t.outcome.Raised? && !Satisfied(t.outcome) {
        var u := ReadAttempts(ch, t.line, Closed(buf), tries - 1);
        ReadFollows(ch, rel, t.line, Closed(buf), tries - 1);
        assert Joins(rel, l, t.log, t.heard, t.line, u.log, u.heard, u.line);
      }
    }
  }

  /** A record of the writes, and one of the responses: each kind of step extends its own and leaves the other. */
  ghost predicate Records<W(!new)>(ch: Channel<W>, sent: W -> seq<seq<Byte>>, got: W -> seq<seq<Byte>>) {
    && (forall l, f :: sent(ch.write(l, f)) == sent(l) + [f] && got(ch.write(l, f)) == got(l))
    && (forall l :: sent(ch.respond(l).0) == sent(l) && got(ch.respond(l).0) == got(l) + [ch.respond(l).1])
  }

  lemma Regroup<T>(a: seq<T>, b: seq<T>, c: seq<T>)
    ensures a + (b + c) == a + b + c
  {
  }

  /** What a read command is said to write and to hear is what a line that keeps records has recorded. */
  lemma ReadRecorded<W(!new)>(ch: Channel<W>, sent: W -> seq<seq<Byte>>, got: W -> seq<seq<Byte>>, l: W,
                              buf: seq<Byte>, tries: nat)
    requires Records(ch, sent, got)
    ensures var t := ReadAttempts(ch, l, buf, tries);
            sent(t.line) == sent(l) + t.log && got(t.line) == got(l) + t.heard
  {
    var rel: Passage<W> := (a: W, log: seq<seq<Byte>>, heard: seq<seq<Byte>>, b: W) =>
      sent(b) == sent(a) + log && got(b) == got(a) + heard;
    forall a, log1, heard1, b, log2, heard2, c
      ensures Joins(rel, a, log1, heard1, b, log2, heard2, c)
    {
      Regroup(sent(a), log1, log2);
      Regroup(got(a), heard1, heard2);
    }
    ReadFollows(ch, rel, l, buf, tries);
  }

  // ----- splitting a stream of frames -----

  function Responses<W>(ch: Channel<W>, l: W, n: nat): (W, seq<seq<Byte>>)
    decreases n
  {
    if n == 0 then (l, [])
    else
      var (l1, resp) := ch.respond(l);
      var (l2, more) := Responses(ch, l1, n - 1);
      (l2, [resp] + more)
  }

  /** A response to a stream that starts with a well-formed frame is that frame. */
  ghost predicate ReadsFrames<W(!new)>(ch: Channel<W>, incoming: W -> seq<Byte>) {
    forall l, f, rest :: WellFormed(f) && incoming(l) == f + rest ==>
      ch.respond(l).1 == f && incoming(ch.respond(l).0) == rest
  }

  lemma {:induction false} StreamSplits<W(!new)>(ch: Channel<W>, incoming: W -> seq<Byte>, l: W,
                                                 frames: seq<seq<Byte>>, rest: seq<Byte>)
    requires ReadsFrames(ch, incoming) && (forall f :: f in frames ==> WellFormed(f))
    requires incoming(l) == Concat(frames) + rest
    ensures var (l', got) := Responses(ch, l, |frames|); got == frames && incoming(l') == rest
    decreases |frames|
  {
    if frames == [] {
      assert Concat(frames) + rest == rest;
    } else {
      var after := Concat(frames[1..]) + rest;
      assert incoming(l) == frames[0] + after;
      StreamSplits(ch, incoming, ch.respond(l).0, frames[1..], rest);
    }
  }
}
