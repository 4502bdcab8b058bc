/** The driver's objects: the serial port, the byte arrays it is handed, and the calls on them. */
module MiconDriver {
  import opened Bytes
  import opened MiconFrames
  import opened MiconCommands
  import opened MiconLine
  import opened MiconLeds

  /** The serial port, over any line. */
  class Port {
    const serial: Serial
    var now: Line

    constructor (serial: Serial, now: Line)
      ensures this.serial == serial && this.now == now
    {
      this.serial := serial;
      this.now := now;
    }

    method Write(output: seq<Byte>)
      modifies this
      ensures now == serial.write(old(now), output)
    {
      now := serial.write(now, output);
    }

    method Read(n: nat) returns (got: seq<Byte>)
      modifies this
      ensures (now, got) == serial.read(old(now), n)
    {
      var (after, bytes) := serial.read(now, n);
      now := after;
      got := bytes;
    }
  }

  class ByteArray {
    var bytes: seq<Byte>

    constructor (bytes: seq<Byte>)
      ensures this.bytes == bytes
    {
      this.bytes := bytes;
    }

    method Append(b: Byte)
      modifies this
      ensures bytes == old(bytes) + [b]
    {
      bytes := bytes + [b];
    }
  }

  ghost predicate SameEnd(t: Talk<Line>, u: Talk<Line>) {
    t.line == u.line && t.outcome == u.outcome
  }

  lemma OneTry(ch: Channel<Line>, l: Line, f: seq<Byte>, tries: nat)
    requires tries > 0
    ensures var (l1, resp) := ch.respond(ch.write(l, f));
            if resp != [] && Closes(resp) then SameEnd(Command(ch, l, f, tries), Talk(l1, [], [], Judge(resp)))
            else
              var l2 := if resp == [] then l1 else ch.write(l1, Preamble());
              SameEnd(Command(ch, l, f, tries), Command(ch, l2, f, tries - 1))
  {
  }

  class Micon {
    const port: Port

    /** The device first hears a preamble. */
    constructor (port: Port)
      modifies port
      ensures this.port == port
      ensures port.now == port.serial.write(old(port.now), Preamble())
    {
      this.port := port;
      new;
      SendPreamble();
    }

    method SendPreamble()
      modifies port
      ensures port.now == port.serial.write(old(port.now), Preamble())
    {
      port.Write(Preamble());
    }

    method GetResponse() returns (response: seq<Byte>)
      modifies port
      ensures (port.now, response) == Respond(port.serial, old(port.now))
    {
      response := port.Read(1);
      var length: nat := 32;
      if |response| == 1 {
        length := Low(response[0]) + 2;
      }
      var rest := port.Read(length);
      response := response + rest;
    }

    /** The check byte goes onto the caller's array; the command is tried three times. */
    method SendCmd(cmd: ByteArray) returns (o: Outcome)
      modifies port, cmd
      ensures cmd.bytes == Closed(old(cmd.bytes))
      ensures SameEnd(Talk(port.now, [], [], o), Command(Over(port.serial), old(port.now), cmd.bytes, RETRIES))
    {
      var check := CalcCheckByte(cmd.bytes);
      cmd.Append(check);
      ghost var ch, start, f := Over(port.serial), port.now, cmd.bytes;
      for x := 0 to RETRIES
        invariant cmd.bytes == f
        invariant SameEnd(Command(ch, start, f, RETRIES), Command(ch, port.now, f, RETRIES - x))
      {
        OneTry(ch, port.now, f, RETRIES - x);
        port.Write(cmd.bytes);
        var response := GetResponse();
        if |response| != 0 {
          var sum := CalcChecksum(response);
          if sum == 0 {
            if !Top(response[0]) && |response| < 3 {
              return Raised;
            }
            return Answer(response);
          }
          SendPreamble();
        }
      }
      o := NoAnswer;
    }

    /** Three attempts on one array: the check byte of each goes onto what the last one left. */
    method SendReadCmd(addr: Byte) returns (o: Outcome)
      modifies port
      ensures SameEnd(Talk(port.now, [], [], o), SendRead(Over(port.serial), old(port.now), addr))
    {
      var cmd := new ByteArray([]);
      cmd.Append(0x80);
      cmd.Append(addr);
      assert cmd.bytes == [0x80, addr];
      ghost var ch, start, buf := Over(port.serial), port.now, cmd.bytes;
      for x := 0 to RETRIES
        invariant fresh(cmd) && allocated(port)
        invariant SameEnd(ReadAttempts(ch, start, buf, RETRIES), ReadAttempts(ch, port.now, cmd.bytes, RETRIES - x))
      {
        var response := SendCmd(cmd);
        if response.Raised? {
          return Raised;
        }
        if response.Answer? && AnswersRead(response.bytes) {
          var output := PayloadOf(response.bytes);
          return Answer(output);
        }
      }
      o := NoAnswer;
    }

    static method PayloadOf(response: seq<Byte>) returns (output: seq<Byte>)
      requires AnswersRead(response)
      ensures output == Payload(response)
    {
      output := [];
      for y := 0 to Low(response[0])
        invariant output == response[2..2 + y]
      {
        output := output + [response[y + 2]];
      }
    }

    method SendWriteCmd(length: Byte, addr: Byte, data: seq<Byte>) returns (o: Outcome)
      modifies port
      ensures SameEnd(Talk(port.now, [], [], o), SendWrite(Over(port.serial), old(port.now), length, addr, data))
    {
      var cmd := new ByteArray([]);
      cmd.Append(length);
      cmd.Append(addr);
      for i := 0 to |data|
        invariant fresh(cmd) && cmd.bytes == [length, addr] + data[..i] && port.now == old(port.now)
      {
        cmd.Append(data[i]);
      }
      assert data[..|data|] == data;
      o := SendCmd(cmd);
    }

    // One register: read, mask in place, write back.
    method ModifyRegister(addr: Byte, on: bool, mask: Mask) returns (ok: bool)
      modifies port
      ensures (port.now, ok) == Modify(Over(port.serial), old(port.now), addr, on, mask)
    {
      var status := SendReadCmd(addr);
      if !status.Answer? || |status.bytes| < 2 {
        return false;
      }
      var led := status.bytes;
      led := led[0 := Change(led[0], on, mask[0])];
      led := led[1 := Change(led[1], on, mask[1])];
      assert led == Changed(status.bytes, on, mask);
      var o := SendWriteCmd(2, addr, led);
      ok := !o.Raised?;
    }

    method CmdSetLed(mode: int, led: Mask) returns (ok: bool)
      modifies port
      ensures (port.now, ok) == SetLeds(Over(port.serial), old(port.now), LED_PANEL, mode, led)
    {
      LedSteps(Over(port.serial), port.now, mode, led);
      ok := ModifyRegister(0x50, true, led);
      if ok {
        ok := ModifyRegister(0x52, mode == LED_BLINK, led);
      }
      if ok {
        ok := ModifyRegister(0x51, mode != LED_OFF, led);
      }
    }

    method CmdSetSataled(mode: int, led: Mask) returns (ok: bool)
      modifies port
      ensures (port.now, ok) == SetLeds(Over(port.serial), old(port.now), SATA_PANEL, mode, led)
    {
      SataSteps(Over(port.serial), port.now, mode, led);
      ok := ModifyRegister(0x59, mode == LED_BLINK, led);
      if ok {
        ok := ModifyRegister(0x58, mode != LED_OFF, led);
      }
    }
  }

  // The panels, register by register.
  lemma SataSteps(ch: Channel<Line>, l: Line, mode: int, mask: Mask)
    ensures SetLeds(ch, l, SATA_PANEL, mode, mask) ==
            var (l1, ok) := Modify(ch, l, 0x59, mode == LED_BLINK, mask);
            if ok then Modify(ch, l1, 0x58, mode != LED_OFF, mask) else (l1, false)
  {
    assert SATA_PANEL[1..] == [Entry(0x58, OnOff)] && SATA_PANEL[1..][1..] == [];
  }

  lemma LedSteps(ch: Channel<Line>, l: Line, mode: int, mask: Mask)
    ensures SetLeds(ch, l, LED_PANEL, mode, mask) ==
            var (l1, ok) := Modify(ch, l, 0x50, true, mask);
            if !ok then (l1, false)
            else
              var (l2, ok') := Modify(ch, l1, 0x52, mode == LED_BLINK, mask);
              if ok' then Modify(ch, l2, 0x51, mode != LED_OFF, mask) else (l2, false)
  {
    assert LED_PANEL[1..] == [Entry(0x52, Blink), Entry(0x51, OnOff)];
    assert LED_PANEL[1..][1..] == [Entry(0x51, OnOff)] && LED_PANEL[1..][1..][1..] == [];
  }
}
