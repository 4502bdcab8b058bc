/** The driver: memory-mapped registers, and the calls of the GPIO and interrupt frameworks. */
module GpioDriver {
  import opened GpioMap
  import opened GpioSpec
  import opened GpioRuns

  class DnvGpio {
    var mem: Memory
    var kinds: Kinds
    var saved: Contexts

    /** Nothing saved and no interrupt kind remembered, over the registers as found. */
    constructor (mem: Memory)
      ensures this.mem == mem && UnderMasks(saved) && forall p :: 0 <= p < IRQ_PADS ==> kinds[p] == 0
    {
      this.mem := mem;
      kinds := seq(IRQ_PADS, i => 0);
      saved := seq(PADS, i => Context(seq(32, j => false), seq(32, j => false)));
    }

    ghost function Now(): State
      reads this
    {
      State(mem, kinds, saved)
    }

    method Read(a: Address) returns (v: Word)
      ensures v == mem[a]
    {
      v := mem[a];
    }

    method Write(a: Address, v: Word)
      modifies `mem
      ensures mem == Writel(old(mem), a, v)
    {
      mem := Writel(mem, a, v);
    }

    /** Takes the pad over as a GPIO; false for a number that names none. */
    method RequestPad(gpi: nat) returns (ok: bool)
      requires gpi < PADS
      modifies `mem
      ensures Now() == Step(old(Now()), Request(gpi)) && ok == IsPad(gpi)
    {
      ok := IsPad(gpi);
      if ok {
        var val := Read(Dw0(gpi));
        WordsApart(gpi, 0);
        assert mem == mem[Dw0(gpi) := val];
        if val[PMODE0] {
          Write(Dw0(gpi), val[PMODE0 := false]);
        }
      }
    }

    method SetLevel(gpi: nat, high: bool)
      requires gpi < PADS
      modifies `mem
      ensures Now() == Step(old(Now()), Level(gpi, high))
    {
      if IsPad(gpi) {
        var val := Read(Dw0(gpi));
        Write(Dw0(gpi), val[LEVEL := high]);
      }
    }

    method DirectionInput(gpi: nat) returns (ok: bool)
      requires gpi < PADS
      modifies `mem
      ensures Now() == Step(old(Now()), Input(gpi)) && ok == IsPad(gpi)
    {
      ok := IsPad(gpi);
      if ok {
        var val := Read(Dw0(gpi));
        Write(Dw0(gpi), val[OUTPUT_DIS := true][INPUT_DIS := false]);
      }
    }

    method DirectionOutput(gpi: nat, high: bool) returns (ok: bool)
      requires gpi < PADS
      modifies `mem
      ensures Now() == Step(old(Now()), Output(gpi, high)) && ok == IsPad(gpi)
    {
      ok := IsPad(gpi);
      if ok {
        var val := Read(Dw0(gpi));
        val := val[INPUT_DIS := true][OUTPUT_DIS := false];
        Write(Dw0(gpi), val[LEVEL := high]);
      }
    }

    /** An unknown kind is refused, but only after the pad's owners have been cleared. */
    method IrqSetType(gpi: nat, kind: nat) returns (ok: bool)
      requires gpi < IRQ_PADS
      modifies `mem, `kinds
      ensures Now() == Step(old(Now()), SetKind(gpi, kind)) && ok == KindKnown(kind)
    {
      var own := Read(Owner(gpi));
      Write(Owner(gpi), own[OwnBit(gpi) := false][OwnBit(gpi) + 1 := false]);
      var host := Read(HostOwner(gpi));
      Write(HostOwner(gpi), host[PadBit(gpi) := false]);
      var cfg := Read(Dw0(gpi));
      var en := Read(Enable(gpi));
      ok, cfg := ForKind(cfg, kind);
      if ok {
        ReadsApart(mem, gpi, cfg);
        Write(Dw0(gpi), cfg);
        Write(Enable(gpi), en[PadBit(gpi) := Senses(kind)]);
        kinds := kinds[gpi := kind];
      }
    }

    // Routing, trigger and inversion for a kind.
    static method ForKind(before: Word, kind: nat) returns (known: bool, cfg: Word)
      ensures known == KindKnown(kind) && (known ==> cfg == Configured(before, kind))
    {
      cfg := before[17 := false][18 := false][19 := false][20 := false][25 := false][26 := false];
      known := true;
      if Senses(kind) {
        cfg := cfg[ROUTE_SCI := true];
        if kind == EDGE_RISING {
          cfg := cfg[TRIG_EDGE := true][RXINV := false];
        } else if kind == EDGE_FALLING {
          cfg := cfg[TRIG_EDGE := true][RXINV := true];
        } else if kind == EDGE_BOTH {
          cfg := cfg[TRIG_EDGE := true][RXINV := !cfg[RXINV]];
        } else if kind == LEVEL_HIGH {
          cfg := cfg[RXINV := false];
        } else if kind == LEVEL_LOW {
          cfg := cfg[RXINV := true];
        } else {
          known := false;
        }
      }
    }

    static lemma ReadsApart(m: Memory, gpi: nat, w: Word)
      requires gpi < IRQ_PADS
      ensures Writel(m, Dw0(gpi), w)[Enable(gpi)] == m[Enable(gpi)]
    {
      WordsApart(gpi, gpi);
    }

    method IrqAck(gpi: nat)
      requires gpi < IRQ_PADS
      modifies `mem
      ensures Now() == Step(old(Now()), Ack(gpi))
    {
      var sts := Read(Status(gpi));
      if sts[PadBit(gpi)] {
        if kinds[gpi] == EDGE_BOTH {
          var val := Read(Dw0(gpi));
          Write(Dw0(gpi), Flipped(val));
        }
        Write(Status(gpi), Only(PadBit(gpi)));
      }
    }

    method SuspendAll()
      modifies `saved
      ensures Now() == Suspend(old(Now()))
    {
      for pin := 0 to IRQ_PADS
        invariant Now() == SuspendTo(old(Now()), pin)
      {
        var lock := Read(Lock(pin));
        if !lock[PadBit(pin)] {
          var conf0 := Read(Dw0(pin));
          var conf1 := Read(Dw1(pin));
          saved := saved[pin := Context(Masked(conf0, Mask0()), Masked(conf1, Mask1()))];
        }
      }
    }

    method ResumeAll()
      modifies `mem
      ensures Now() == Resume(old(Now()))
    {
      for pin := 0 to IRQ_PADS
        invariant Now() == ResumeTo(old(Now()), pin)
      {
        var lock := Read(Lock(pin));
        if !lock[PadBit(pin)] {
          Restore(Dw0(pin), Mask0(), saved[pin].conf0);
          Restore(Dw1(pin), Mask1(), saved[pin].conf1);
        }
      }
    }

    method Restore(a: Address, mask: Word, conf: Word)
      modifies `mem
      ensures mem == RestoreWord(old(mem), a, mask, conf)
    {
      var val := Read(a);
      if Masked(val, mask) != conf {
        Write(a, Restored(val, mask, conf));
      }
    }
  }
}
