/**
 What each address of the register map reads as over time, by the numbers of the documented map: which pulse
 drives which counter and which flag, and the registers that are not software's to set.
 */
module RegCounts {
  import opened RegFile
  import opened RegMap
  import HwStats

  /** The pulse behind the counter at an address; the error pulses are numbered as in FLAGS: transmit underflow,
      transmit FIFO overflow, bad transmit frame, receive FIFO overflow, bad receive frame, bad check sequence. */
  predicate Pulse(addr: nat, i: Signals)
    requires WellFormed(i)
  {
    if addr == 0x20 then i.rxGood
    else if addr == 0x24 then i.errors[4]
    else if addr == 0x28 then i.txGood
    else if addr == 0x2C then i.errors[2]
    else if addr == 0x30 then i.errors[3]
    else addr == 0x34 && i.errors[1]
  }

  predicate IsCounter(addr: nat) {
    addr in {0x20, 0x24, 0x28, 0x2C, 0x30, 0x34}
  }

  /** At how many of the edges it comes. */
  function Pulses(addr: nat, ticks: seq<Signals>): nat
    requires forall i <- ticks :: WellFormed(i)
    decreases ticks
  {
    if ticks == [] then 0
    else
      assert ticks[0] in ticks && forall i <- ticks[1..] :: i in ticks;
      (if Pulse(addr, ticks[0]) then 1 else 0) + Pulses(addr, ticks[1..])
  }

  /** The counters are 32 bits wide. */
  predicate Narrow(r: Regs)
    requires Shaped(r)
  {
    forall k :: 0 <= k < 6 ==> r.counters[k] < 0x1_0000_0000
  }

  lemma CounterReads(r: Regs, j: Signals, k: nat)
    requires Shaped(r) && k < 6
    ensures ReadMux(r, j, 0x20 + 4 * k) == r.counters[k]
  {
  }

  lemma CounterSteps(r: Regs, i: Signals, k: nat)
    requires Shaped(r) && WellFormed(i) && i.resetn && k < 6 && r.counters[k] < 0x1_0000_0000
    ensures Shaped(Next(r, i))
    ensures Next(r, i).counters[k]
         == if WriteTo(r.wr, 0x20 + 4 * k).Some? then 0
            else (r.counters[k] + if CounterEvent(i, k) then 1 else 0) % 0x1_0000_0000
  {
    NextIsShaped(r, i);
  }

  lemma PulseOf(i: Signals, k: nat)
    requires WellFormed(i) && k < 6
    ensures Pulse(0x20 + 4 * k, i) == CounterEvent(i, k)
  {
  }

  lemma StaysNarrow(r: Regs, i: Signals)
    requires Shaped(r) && WellFormed(i) && i.resetn && Narrow(r)
    ensures Shaped(Next(r, i)) && Narrow(Next(r, i))
  {
    NextIsShaped(r, i);
    forall k | 0 <= k < 6 ensures Next(r, i).counters[k] < 0x1_0000_0000 { CounterSteps(r, i, k); }
  }

  /** One edge of a counter. */
  lemma OneEdge(r: Regs, i: Signals, j: Signals, addr: nat)
    requires Shaped(r) && WellFormed(i) && i.resetn && IsCounter(addr) && Narrow(r)
    ensures Shaped(Next(r, i)) && Narrow(Next(r, i))
    ensures ReadMux(Next(r, i), j, addr)
         == if WriteTo(r.wr, addr).Some? then 0
            else (ReadMux(r, j, addr) + if Pulse(addr, i) then 1 else 0) % 0x1_0000_0000
  {
    StaysNarrow(r, i);
    var k := (addr - 0x20) / 4;
    assert addr == 0x20 + 4 * k && k < 6;
    CounterReads(r, j, k);
    CounterReads(Next(r, i), j, k);
    CounterSteps(r, i, k);
    PulseOf(i, k);
  }

  lemma Wrapped(x: nat, a: nat, b: nat)
    ensures ((x + a) % 0x1_0000_0000 + b) % 0x1_0000_0000 == (x + (a + b)) % 0x1_0000_0000
  {
    assert x + a == 0x1_0000_0000 * ((x + a) / 0x1_0000_0000) + (x + a) % 0x1_0000_0000;
  }

  lemma RunUnwritten(r: Regs, ticks: seq<Signals>, addr: nat)
    requires ticks != [] && Shaped(r) && (forall i <- ticks :: WellFormed(i)) && Unwritten(r, ticks, addr)
    ensures (forall i <- ticks[1..] :: WellFormed(i)) && Shaped(Next(r, ticks[0])) && ticks[0].resetn
    ensures WriteTo(r.wr, addr).None? && Unwritten(Next(r, ticks[0]), ticks[1..], addr)
    ensures Run(r, ticks) == Run(Next(r, ticks[0]), ticks[1..])
  {
    assert ticks[0] in ticks && forall i <- ticks[1..] :: i in ticks;
    NextIsShaped(r, ticks[0]);
  }

  /** Over any number of edges at which it is neither written nor reset, a counter grows by the pulses behind it,
      in 32 bits. */
  lemma {:induction false} CounterCounts(r: Regs, ticks: seq<Signals>, j: Signals, addr: nat)
    requires Shaped(r) && (forall i <- ticks :: WellFormed(i)) && IsCounter(addr) && Unwritten(r, ticks, addr)
    requires Narrow(r)
    ensures ReadMux(Run(r, ticks), j, addr) == (ReadMux(r, j, addr) + Pulses(addr, ticks)) % 0x1_0000_0000
    decreases |ticks|, 0
  {
    if ticks == [] {
      CounterIsNarrow(r, j, addr);
    } else {
      RunUnwritten(r, ticks, addr);
      OneEdge(r, ticks[0], j, addr);
      CounterCountsOn(ReadMux(r, j, addr), Next(r, ticks[0]), ticks, j, addr);
    }
  }

  /** After the first edge, which has brought the registers to `n` and the counter on from `was`. */
  lemma {:induction false} CounterCountsOn(was: nat, n: Regs, ticks: seq<Signals>, j: Signals, addr: nat)
    requires ticks != [] && (forall i <- ticks :: WellFormed(i)) && IsCounter(addr)
    requires Shaped(n) && Narrow(n) && (forall i <- ticks[1..] :: WellFormed(i)) && Unwritten(n, ticks[1..], addr)
    requires ReadMux(n, j, addr) == (was + if Pulse(addr, ticks[0]) then 1 else 0) % 0x1_0000_0000
    ensures ReadMux(Run(n, ticks[1..]), j, addr) == (was + Pulses(addr, ticks)) % 0x1_0000_0000
    decreases |ticks| - 1, 1
  {
    CounterCounts(n, ticks[1..], j, addr);
    Wrapped(was, if Pulse(addr, ticks[0]) then 1 else 0, Pulses(addr, ticks[1..]));
  }

  lemma CounterIsNarrow(r: Regs, j: Signals, addr: nat)
    requires Shaped(r) && IsCounter(addr) && Narrow(r)
    ensures ReadMux(r, j, addr) < 0x1_0000_0000
  {
    assert ReadMux(r, j, addr) == r.counters[(addr - 0x20) / 4];
  }

  /** A write to it, whatever is written, clears it, even at an edge with a pulse. */
  lemma WriteClears(r: Regs, i: Signals, j: Signals, addr: nat)
    requires Shaped(r) && WellFormed(i) && i.resetn && IsCounter(addr) && WriteTo(r.wr, addr).Some?
    requires Narrow(r)
    ensures Shaped(Next(r, i)) && ReadMux(Next(r, i), j, addr) == 0
  {
    OneEdge(r, i, j, addr);
  }

  // ---------------------------------------------------------------- flags

  /** No edge resets the registers or writes a 1 to bit `k` of FLAGS. */
  predicate Uncleared(r: Regs, ticks: seq<Signals>, k: nat)
    requires Shaped(r) && forall i <- ticks :: WellFormed(i)
    decreases ticks
  {
    ticks == [] ||
    (assert ticks[0] in ticks && forall i <- ticks[1..] :: i in ticks;
     NextIsShaped(r, ticks[0]);
     ticks[0].resetn && (WriteTo(r.wr, 0x10).Some? ==> !Bit(r.wr.wBeat.data, k))
     && Uncleared(Next(r, ticks[0]), ticks[1..], k))
  }

  /** A flag not cleared shows exactly whether it was set before or its pulse has come since. */
  lemma {:induction false} FlagTells(r: Regs, ticks: seq<Signals>, j: Signals, k: nat)
    requires Shaped(r) && (forall i <- ticks :: WellFormed(i)) && k < 6 && Uncleared(r, ticks, k)
    ensures Bit(ReadMux(Run(r, ticks), j, 0x10), k)
            <==> Bit(ReadMux(r, j, 0x10), k) || exists i <- ticks :: i.errors[k]
    decreases ticks
  {
    HwStats.FlagsWordBits(r.flags, k);
    if ticks != [] {
      assert ticks[0] in ticks && forall i <- ticks[1..] :: i in ticks;
      NextIsShaped(r, ticks[0]);
      var t := Next(r, ticks[0]);
      HwStats.FlagsWordBits(t.flags, k);
      FlagTells(t, ticks[1..], j, k);
      assert t.flags[k] <==> r.flags[k] || ticks[0].errors[k];
      assert forall i :: i in ticks <==> i == ticks[0] || i in ticks[1..];
    }
  }

  // ---------------------------------------------------------------- the rest of the map

  /** The identification, the version and the status are not software's to set, and an address that is not on the
      map reads as zero. */
  lemma FixedRegisters(r: Regs, j: Signals, addr: nat)
    requires Shaped(r) && WellFormed(j)
    ensures ReadMux(r, j, 0x00) == 0x5441_5849 && ReadMux(r, j, 0x04) == 0x0001_0000
    ensures ReadMux(r, j, 0x0C) % 4 == j.speed && ReadMux(r, j, 0x0C) / 256 == (if j.mdioBusy then 1 else 0)
    ensures (addr > 0x4C || (0x34 < addr < 0x40)) && addr % 4 == 0 ==> ReadMux(r, j, addr) == 0
  {
  }

  /** What software reads after a reset. */
  lemma ReadsAfterReset(r: Regs, i: Signals, j: Signals)
    requires Shaped(r) && WellFormed(i) && !i.resetn
    ensures var t := Next(r, i);
            && Shaped(t) && ReadMux(t, j, 0x08) == 15 && ReadMux(t, j, 0x10) == 0 && ReadMux(t, j, 0x14) == 12
            && ReadMux(t, j, 0x18) == 1517 && ReadMux(t, j, 0x1C) == 1517 && ReadMux(t, j, 0x4C) == 19
            && forall addr :: IsCounter(addr) ==> ReadMux(t, j, addr) == 0
  {
  }

  // ---------------------------------------------------------------- writes

  /** A flag that a 1 is written to, with any strobes, reads as clear unless its pulse comes at that very edge. */
  lemma FlagClears(r: Regs, i: Signals, j: Signals, k: nat)
    requires Shaped(r) && WellFormed(i) && i.resetn && k < 6
    requires WriteTo(r.wr, 0x10).Some? && Bit(r.wr.wBeat.data, k)
    ensures Shaped(Next(r, i)) && (Bit(ReadMux(Next(r, i), j, 0x10), k) <==> i.errors[k])
  {
    NextIsShaped(r, i);
    HwStats.FlagsWordBits(Next(r, i).flags, k);
  }

  /** The registers that strobes apply to byte by byte, with their width in bytes. */
  function Width(addr: nat): nat {
    if addr == 0x14 || addr == 0x4C then 1 else if addr == 0x18 || addr == 0x1C then 2 else 0
  }

  lemma LowParts(b: nat, a: nat)
    requires a < 256 && b < 256
    ensures (a + 0x100 * b) % 256 == a && (a + 0x100 * b) / 256 == b
  {
  }

  lemma LowHalf(w: nat)
    ensures w % 0x1_0000 == w % 0x100 + 0x100 * (w / 0x100 % 0x100)
  {
    assert w / 0x1_0000 == w / 0x100 / 0x100;
  }

  lemma LowBytes(w: nat)
    ensures Byte(w % 0x100, 0) == Byte(w, 0)
    ensures Byte(w % 0x1_0000, 0) == Byte(w, 0) && Byte(w % 0x1_0000, 1) == Byte(w, 1)
  {
    var h := w / 0x100;
    BytesOf(w);
    BytesOf(w % 0x100);
    BytesOf(w % 0x1_0000);
    LowHalf(w);
    LowParts(h % 0x100, w % 0x100);
  }

  /** A write changes just the strobed bytes of what the register reads as. */
  lemma PartialWrite(r: Regs, i: Signals, j: Signals, addr: nat, k: nat)
    requires Shaped(r) && WellFormed(i) && i.resetn && WriteTo(r.wr, addr).Some? && k < Width(addr)
    ensures Shaped(Next(r, i))
    ensures Byte(ReadMux(Next(r, i), j, addr), k)
         == if r.wr.wBeat.strb[k] then Byte(r.wr.wBeat.data, k) else Byte(ReadMux(r, j, addr), k)
  {
    var was, beat := ReadMux(r, j, addr), r.wr.wBeat;
    NextIsShaped(r, i);
    MergeIsBytewise(was, beat, k);
    LowBytes(Merge(was, beat));
    assert k == 0 || k == 1;
    assert ReadMux(Next(r, i), j, addr) == Merge(was, beat) % (if Width(addr) == 1 then 0x100 else 0x1_0000);
  }

  /** CTRL takes its four bits from the low byte, or stays as it is. */
  lemma ControlWrite(r: Regs, i: Signals, k: nat)
    requires Shaped(r) && WellFormed(i) && i.resetn && WriteTo(r.wr, 0x08).Some? && k < 4
    ensures Shaped(Next(r, i))
    ensures Next(r, i).cfg.ctrl[k] == if r.wr.wBeat.strb[0] then Bit(r.wr.wBeat.data, k) else r.cfg.ctrl[k]
  {
    NextIsShaped(r, i);
  }

  /** Which setting of the MAC each address is: the gap, the two longest frames, and the MDC divider. */
  lemma SettingsByAddress(r: Regs, i: Signals, j: Signals)
    requires Shaped(r) && WellFormed(i) && i.resetn
    ensures var t := Next(r, i);
            && (t.cfg.txIfg != r.cfg.txIfg ==> WriteTo(r.wr, 0x14).Some?) && ReadMux(r, j, 0x14) == r.cfg.txIfg
            && (t.cfg.txMaxLen != r.cfg.txMaxLen ==> WriteTo(r.wr, 0x18).Some?) && ReadMux(r, j, 0x18) == r.cfg.txMaxLen
            && (t.cfg.rxMaxLen != r.cfg.rxMaxLen ==> WriteTo(r.wr, 0x1C).Some?) && ReadMux(r, j, 0x1C) == r.cfg.rxMaxLen
            && (t.cfg.mdioDiv != r.cfg.mdioDiv ==> WriteTo(r.wr, 0x4C).Some?) && ReadMux(r, j, 0x4C) == r.cfg.mdioDiv
  {
  }

  /** CTRL reads as its four bits. */
  lemma ControlReads(r: Regs, j: Signals, k: nat)
    requires Shaped(r) && k < 4
    ensures Bit(ReadMux(r, j, 0x08), k) == r.cfg.ctrl[k]
  {
    assert Pow2(1) == 2 && Pow2(2) == 4 && Pow2(3) == 8;
  }

  /** The management registers: a write of a whole word to 0x40 reaches the mailbox, which is read back there; the
      last data read is at 0x44; and the bits at 0x48 tell whether the master is busy or has a command waiting,
      whether there is data, and whether the last command was dropped. */
  lemma ManagementByAddress(r: Regs, i: Signals, j: Signals)
    requires Shaped(r) && WellFormed(i) && i.resetn
    ensures WriteTo(r.wr, 0x40).Some? && !r.mbox.valid ==>
              Next(r, i).mbox.valid && Next(r, i).mbox.cmd == Frame(r.wr.wBeat.data) && !Next(r, i).mbox.rdValid
    ensures WriteTo(r.wr, 0x40).None? && i.rd.Some? ==> Next(r, i).mbox.rdValid && Next(r, i).mbox.rdata == i.rd.value
    ensures ReadMux(r, j, 0x40) == r.mbox.cmd && ReadMux(r, j, 0x44) == r.mbox.rdata
    ensures Bit(ReadMux(r, j, 0x48), 0) == (j.mdioBusy || r.mbox.valid)
    ensures Bit(ReadMux(r, j, 0x48), 1) == r.mbox.rdValid && Bit(ReadMux(r, j, 0x48), 2) == r.mbox.drop
  {
    assert Pow2(1) == 2 && Pow2(2) == 4;
  }
}
