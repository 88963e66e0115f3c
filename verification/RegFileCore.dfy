/**
 The always_ff block itself: registers of an object, assigned in the order of the source. Every
 right-hand side reads the values from before the edge and the last assignment to a register wins,
 so the order of the statements is what gives a register write its priority; the contract says that
 one call has the effect of one clock edge.
 */
module RegFileCore {
  import opened Ledger
  import opened RegFile

  class Core {
    var wr: WriteChannel
    var rd: ReadChannel
    var cfg: Config
    var flags: seq<bool>
    var counters: seq<nat>
    var mbox: Mailbox

    function View(): Regs
      reads this
    {
      Regs(wr, rd, cfg, flags, counters, mbox)
    }

    constructor ()
      ensures View() == PowerUp && Shaped(View())
    {
      wr, rd, cfg := PowerUp.wr, PowerUp.rd, PowerUp.cfg;
      flags, counters, mbox := PowerUp.flags, PowerUp.counters, PowerUp.mbox;
    }

    method Tick(i: Signals)
      requires Shaped(View()) && WellFormed(i)
      modifies this
      ensures View() == Next(old(View()), i)
      ensures Shaped(View())
    {
      var was := View();
      if !i.resetn {
        ResetRegisters(was);
        return;
      }
      Clock(was, i);
    }

    /** An edge without a reset. */
    method Clock(was: Regs, i: Signals)
      requires Shaped(was) && WellFormed(i) && i.resetn && View() == was
      modifies this
      ensures View() == Next(was, i)
    {
      CaptureWrite(was, i);
      CountEvents(was, i);
      HandOff(was, i);
      if DoWrite(was.wr) { WriteRegister(was, i); }
      ServeRead(was, i);
      assert counters == Next(was, i).counters;
    }

    method ResetRegisters(was: Regs)
      requires Shaped(was) && View() == was
      modifies this
      ensures View() == Reset(was)
    {
      wr := wr.(awReady := false, wReady := false, bValid := false, awGot := false, wGot := false);
      rd := rd.(arReady := false, rValid := false, arGot := false);
      cfg, flags, counters, mbox := DefaultConfig, PowerUp.flags, PowerUp.counters, EmptyMailbox;
    }

    /** Write address and data capture, and the end of a response. */
    method CaptureWrite(was: Regs, i: Signals)
      requires wr == was.wr
      modifies this`wr
      ensures wr == WriteChannel(TakesAw(was.wr, i), TakesW(was.wr, i), was.wr.bValid && !i.bready,
                                 was.wr.awGot || TakesAw(was.wr, i), was.wr.wGot || TakesW(was.wr, i),
                                 if TakesAw(was.wr, i) then i.aw.value else was.wr.awAddr,
                                 if TakesW(was.wr, i) then i.w.value else was.wr.wBeat)
    {
      wr := wr.(awReady := false, wReady := false);
      if i.aw.Some? && !was.wr.awGot && !was.wr.awReady {
        wr := wr.(awReady := true, awAddr := i.aw.value, awGot := true);
      }
      if i.w.Some? && !was.wr.wGot && !was.wr.wReady {
        wr := wr.(wReady := true, wBeat := i.w.value, wGot := true);
      }
      if was.wr.bValid && i.bready { wr := wr.(bValid := false); }
    }

    /** Sticky flags and counters, before any write. */
    method CountEvents(was: Regs, i: Signals)
      requires Shaped(was) && WellFormed(i) && flags == was.flags && counters == was.counters
      modifies this`flags, this`counters
      ensures |flags| == 6 && forall k :: 0 <= k < 6 ==> flags[k] == NextFlag(was.flags[k], i.errors[k], false)
      ensures |counters| == 6 && forall k :: 0 <= k < 6 ==> counters[k] == NextCounter(was.counters[k], CounterEvent(i, k), false)
    {
      flags := seq(6, k requires 0 <= k < 6 => was.flags[k] || i.errors[k]);
      counters := seq(6, k requires 0 <= k < 6 =>
        if CounterEvent(i, k) then (was.counters[k] + 1) % U32 else was.counters[k]);
    }

    /** The MDIO command leaves, read data arrives. */
    method HandOff(was: Regs, i: Signals)
      requires mbox == was.mbox
      modifies this`mbox
      ensures mbox == NextMailbox(was.mbox, None, i.cmdReady, i.rd)
    {
      if was.mbox.valid && i.cmdReady { mbox := mbox.(valid := false); }
      if i.rd.Some? { mbox := mbox.(rdata := i.rd.value, rdValid := true); }
    }

    /** A write to MDIO_CMD: queued if there is room, dropped otherwise. */
    method QueueCommand(was: Regs, i: Signals, data: nat)
      requires mbox == NextMailbox(was.mbox, None, i.cmdReady, i.rd)
      modifies this`mbox
      ensures mbox == NextMailbox(was.mbox, Some(data), i.cmdReady, i.rd)
    {
      if !was.mbox.valid || i.cmdReady {
        mbox := mbox.(cmd := Frame(data), valid := true, rdValid := false, drop := false);
      } else {
        mbox := mbox.(drop := true);
      }
    }

    /** The control registers. */
    method SetConfig(was: Regs, reg: nat)
      requires Shaped(was) && DoWrite(was.wr) && cfg == was.cfg && reg == Aligned(was.wr.awAddr)
      modifies this`cfg
      ensures cfg == NextConfig(was.cfg, was.wr)
    {
      var beat := was.wr.wBeat;
      if reg == CTRL {
        if beat.strb[0] {
          cfg := cfg.(ctrl := [Bit(beat.data, 0), Bit(beat.data, 1), Bit(beat.data, 2), Bit(beat.data, 3)]);
        }
      } else if reg == TX_IFG {
        cfg := cfg.(txIfg := Merge(was.cfg.txIfg, beat) % 0x100);
      } else if reg == TX_MAX_LEN {
        cfg := cfg.(txMaxLen := Merge(was.cfg.txMaxLen, beat) % 0x1_0000);
      } else if reg == RX_MAX_LEN {
        cfg := cfg.(rxMaxLen := Merge(was.cfg.rxMaxLen, beat) % 0x1_0000);
      } else if reg == MDIO_DIV {
        cfg := cfg.(mdioDiv := Merge(was.cfg.mdioDiv, beat) % 0x100);
      }
    }

    /** The register write, whose assignments override those made so far. */
    method WriteRegister(was: Regs, i: Signals)
      requires Shaped(was) && WellFormed(i) && DoWrite(was.wr) && cfg == was.cfg
      requires |flags| == 6 && |counters| == 6
      requires mbox == NextMailbox(was.mbox, None, i.cmdReady, i.rd)
      modifies this
      ensures wr == old(wr).(awGot := false, wGot := false, bValid := true) && rd == old(rd)
      ensures cfg == NextConfig(was.cfg, was.wr)
      ensures flags == if WriteTo(was.wr, FLAGS).Some? then NextFlags(was.flags, i.errors, Some(was.wr.wBeat)) else old(flags)
      ensures |counters| == 6
      ensures forall k :: 0 <= k < 6 ==>
                counters[k] == if WriteTo(was.wr, COUNTERS + 4 * k).Some? then 0 else old(counters)[k]
      ensures mbox == NextMailbox(was.mbox, DataOf(WriteTo(was.wr, MDIO_CMD)), i.cmdReady, i.rd)
    {
      wr := wr.(awGot := false, wGot := false, bValid := true);
      var reg, data := Aligned(was.wr.awAddr), was.wr.wBeat.data;
      SetConfig(was, reg);
      if reg == FLAGS {
        flags := seq(6, k requires 0 <= k < 6 => (was.flags[k] && !Bit(data, k)) || i.errors[k]);
      } else if reg in {0x20, 0x24, 0x28, 0x2C, 0x30, 0x34} {
        counters := counters[(reg - COUNTERS) / 4 := 0];
      } else if reg == MDIO_CMD {
        QueueCommand(was, i, data);
      }
    }

    /** The address handshake, then the data one edge later. */
    method ServeRead(was: Regs, i: Signals)
      requires Shaped(was) && WellFormed(i) && rd == was.rd
      modifies this`rd
      ensures rd == NextRead(was.rd, i, ReadMux(was, i, Aligned(was.rd.arAddr)))
    {
      rd := rd.(arReady := false);
      if was.rd.rValid && i.rready { rd := rd.(rValid := false); }
      if i.ar.Some? && !was.rd.arReady && !was.rd.arGot && !was.rd.rValid {
        rd := rd.(arReady := true, arGot := true, arAddr := i.ar.value);
      }
      if was.rd.arGot {
        rd := rd.(arGot := false, rValid := true, rData := ReadMux(was, i, Aligned(was.rd.arAddr)));
      }
    }
  }
}
