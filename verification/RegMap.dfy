/**
 What software sees of the register file: a write with byte strobes changes exactly the strobed bytes of
 exactly the register it addresses, and a whole-word write is read back in the register's own width.
 */
module RegMap {
  import opened RegFile

  /** The registers that read back what was written, and how many values each can hold. */
  function Range(reg: nat): nat {
    if reg == CTRL then 0x10
    else if reg == TX_IFG || reg == MDIO_DIV then 0x100
    else if reg == TX_MAX_LEN || reg == RX_MAX_LEN then 0x1_0000
    else 0
  }

  /** Software may write and read it back. */
  predicate Holds(reg: nat) {
    Range(reg) > 0
  }

  lemma Powers()
    ensures Pow2(0) == 1 && Pow2(1) == 2 && Pow2(2) == 4 && Pow2(3) == 8
    ensures Pow2(8) == 0x100 && Pow2(16) == 0x1_0000 && Pow2(24) == 0x100_0000
  {
    Doubled(0, 4);
    Doubled(4, 4);
    Doubled(8, 4);
    Doubled(12, 4);
    Doubled(16, 4);
    Doubled(20, 4);
  }

  lemma Doubled(i: nat, n: nat)
    requires n == 4
    ensures Pow2(i + n) == 16 * Pow2(i)
  {
    assert Pow2(i + 1) == 2 * Pow2(i) && Pow2(i + 2) == 2 * Pow2(i + 1);
    assert Pow2(i + 3) == 2 * Pow2(i + 2) && Pow2(i + 4) == 2 * Pow2(i + 3);
  }

  lemma BytesOf(w: nat)
    ensures Byte(w, 0) == w % 256 && Byte(w, 1) == w / 0x100 % 256
    ensures Byte(w, 2) == w / 0x1_0000 % 256 && Byte(w, 3) == w / 0x100_0000 % 256
  {
    Powers();
  }

  function Word(a: nat, b: nat, c: nat, d: nat): nat {
    a + 0x100 * b + 0x1_0000 * c + 0x100_0000 * d
  }

  lemma UpperBytes(a: nat, b: nat, c: nat, d: nat)
    requires a < 256 && b < 256 && c < 256 && d < 256
    ensures var w := Word(a, b, c, d);
            w / 0x100 == b + 0x100 * (c + 0x100 * d) && w / 0x1_0000 == c + 0x100 * d && w / 0x100_0000 == d
  {
    Quotient(0x100, b + 0x100 * (c + 0x100 * d), a);
    Quotient(0x1_0000, c + 0x100 * d, a + 0x100 * b);
    Quotient(0x100_0000, d, a + 0x100 * b + 0x1_0000 * c);
  }

  /** A word of four bytes, and its bytes. */
  lemma Assembled(a: nat, b: nat, c: nat, d: nat)
    requires a < 256 && b < 256 && c < 256 && d < 256
    ensures var w := Word(a, b, c, d);
            w < U32 && Byte(w, 0) == a && Byte(w, 1) == b && Byte(w, 2) == c && Byte(w, 3) == d
  {
    var w := Word(a, b, c, d);
    BytesOf(w);
    UpperBytes(a, b, c, d);
    assert w == a + 0x100 * (b + 0x100 * (c + 0x100 * d));
    LowByte(a, b + 0x100 * (c + 0x100 * d));
    LowByte(b, c + 0x100 * d);
    LowByte(c, d);
  }

  lemma LowByte(b: nat, rest: nat)
    requires b < 256
    ensures (b + 0x100 * rest) % 256 == b
  {
  }

  lemma Quotient(m: nat, q: nat, r: nat)
    requires r < m && m in {0x100, 0x1_0000, 0x100_0000}
    ensures (m * q + r) / m == q
  {
  }

  function Chosen(was: nat, beat: Beat, k: nat): (b: nat)
    requires |beat.strb| == 4 && k < 4
    ensures b < 256
  {
    if beat.strb[k] then Byte(beat.data, k) else Byte(was, k)
  }

  lemma MergeIsWord(was: nat, beat: Beat)
    requires |beat.strb| == 4
    ensures Merge(was, beat)
         == Word(Chosen(was, beat, 0), Chosen(was, beat, 1), Chosen(was, beat, 2), Chosen(was, beat, 3))
  {
  }

  lemma MergedBytes(w: nat, a: nat, b: nat, c: nat, d: nat)
    requires a < 256 && b < 256 && c < 256 && d < 256 && w == Word(a, b, c, d)
    ensures w < U32 && Byte(w, 0) == a && Byte(w, 1) == b && Byte(w, 2) == c && Byte(w, 3) == d
  {
    Assembled(a, b, c, d);
  }

  lemma EachByte(m: nat, was: nat, beat: Beat)
    requires |beat.strb| == 4 && m == Merge(was, beat)
    ensures m < U32 && Byte(m, 0) == Chosen(was, beat, 0) && Byte(m, 1) == Chosen(was, beat, 1)
    ensures Byte(m, 2) == Chosen(was, beat, 2) && Byte(m, 3) == Chosen(was, beat, 3)
  {
    MergeIsWord(was, beat);
    MergedBytes(m, Chosen(was, beat, 0), Chosen(was, beat, 1), Chosen(was, beat, 2), Chosen(was, beat, 3));
  }

  /** Merging takes the strobed bytes from the new word and keeps the others. */
  lemma MergeIsBytewise(was: nat, beat: Beat, k: nat)
    requires |beat.strb| == 4 && k < 4
    ensures Merge(was, beat) < U32
    ensures Byte(Merge(was, beat), k) == if beat.strb[k] then Byte(beat.data, k) else Byte(was, k)
  {
    EachByte(Merge(was, beat), was, beat);
    assert k == 0 || k == 1 || k == 2 || k == 3;
  }

  predicate Whole(b: Beat) {
    b.strb == [true, true, true, true]
  }

  lemma TwiceDivided(w: nat)
    ensures w / 0x1_0000 == w / 0x100 / 0x100 && w / 0x100_0000 == w / 0x1_0000 / 0x100
  {
  }

  lemma LastByte(w: nat)
    ensures w == 0x100 * (w / 0x100) + w % 0x100
  {
  }

  lemma SmallByte(w: nat)
    ensures w < 256 ==> w % 256 == w
  {
  }

  lemma WordOfBytes(w: nat)
    requires w < U32
    ensures Word(w % 256, w / 0x100 % 256, w / 0x1_0000 % 256, w / 0x100_0000 % 256) == w
  {
    var h := w / 0x100;
    var q := h / 0x100;
    TwiceDivided(w);
    LastByte(w);
    LastByte(h);
    LastByte(q);
    SmallByte(q / 0x100);
  }

  lemma WholeWordReplaces(was: nat, beat: Beat)
    requires Whole(beat) && beat.data < U32
    ensures Merge(was, beat) == beat.data
  {
    MergeIsWord(was, beat);
    BytesOf(beat.data);
    WordOfBytes(beat.data);
  }

  lemma Halves(w: nat)
    ensures w == w / 2 * 2 + w % 2
  {
  }

  lemma FourBits(w: nat)
    ensures B2N(Bit(w, 0)) + 2 * B2N(Bit(w, 1)) + 4 * B2N(Bit(w, 2)) + 8 * B2N(Bit(w, 3)) == w % 16
  {
    Powers();
    Halves(w);
    Halves(w / 2);
    Halves(w / 4);
    Halves(w / 8);
    assert w / 4 == w / 2 / 2 && w / 8 == w / 4 / 2 && w / 16 == w / 8 / 2;
  }

  /** A whole word written to a register is what a read shows after that edge, in the register's width. */
  lemma WriteReadsBack(r: Regs, i: Signals, j: Signals, reg: nat)
    requires Shaped(r) && WellFormed(i) && i.resetn && Holds(reg)
    requires WriteTo(r.wr, reg).Some? && Whole(r.wr.wBeat) && r.wr.wBeat.data < U32
    ensures ReadMux(Next(r, i), j, reg) == r.wr.wBeat.data % Range(reg)
  {
    var beat := r.wr.wBeat;
    if reg == CTRL {
      FourBits(beat.data);
    } else {
      WholeWordReplaces(if reg == TX_IFG then r.cfg.txIfg else if reg == TX_MAX_LEN then r.cfg.txMaxLen
                        else if reg == RX_MAX_LEN then r.cfg.rxMaxLen else r.cfg.mdioDiv, beat);
    }
  }

  /** A register keeps its value at every edge at which it is not written, whatever else is. */
  lemma OnlyItsOwnWrites(r: Regs, i: Signals, j: Signals, reg: nat)
    requires Shaped(r) && WellFormed(i) && i.resetn && Holds(reg) && WriteTo(r.wr, reg).None?
    ensures ReadMux(Next(r, i), j, reg) == ReadMux(r, j, reg)
  {
  }

  /** What the registers hold after some edges. */
  function Run(r: Regs, ticks: seq<Signals>): (t: Regs)
    requires Shaped(r) && forall i <- ticks :: WellFormed(i)
    ensures Shaped(t)
    decreases ticks
  {
    if ticks == [] then r
    else
      assert ticks[0] in ticks && forall i <- ticks[1..] :: i in ticks;
      NextIsShaped(r, ticks[0]);
      Run(Next(r, ticks[0]), ticks[1..])
  }

  lemma NextIsShaped(r: Regs, i: Signals)
    requires Shaped(r) && WellFormed(i)
    ensures Shaped(Next(r, i))
  {
  }

  /** No edge resets the registers or writes `reg`. */
  predicate Unwritten(r: Regs, ticks: seq<Signals>, reg: nat)
    requires Shaped(r) && forall i <- ticks :: WellFormed(i)
    decreases ticks
  {
    ticks == [] ||
    (assert ticks[0] in ticks && forall i <- ticks[1..] :: i in ticks;
     NextIsShaped(r, ticks[0]);
     ticks[0].resetn && WriteTo(r.wr, reg).None? && Unwritten(Next(r, ticks[0]), ticks[1..], reg))
  }

  lemma {:induction false} UnwrittenIsKept(r: Regs, ticks: seq<Signals>, j: Signals, reg: nat)
    requires Shaped(r) && (forall i <- ticks :: WellFormed(i)) && Holds(reg) && Unwritten(r, ticks, reg)
    ensures ReadMux(Run(r, ticks), j, reg) == ReadMux(r, j, reg)
    decreases ticks
  {
    if ticks != [] {
      assert ticks[0] in ticks && forall i <- ticks[1..] :: i in ticks;
      NextIsShaped(r, ticks[0]);
      OnlyItsOwnWrites(r, ticks[0], j, reg);
      UnwrittenIsKept(Next(r, ticks[0]), ticks[1..], j, reg);
    }
  }

  /** A whole word written to a register is read back, in the register's width, however many edges later,
      until the register is next written or reset. */
  lemma ReadsBackUntilWritten(r: Regs, i: Signals, ticks: seq<Signals>, j: Signals, reg: nat)
    requires Shaped(r) && WellFormed(i) && i.resetn && Holds(reg) && forall k <- ticks :: WellFormed(k)
    requires WriteTo(r.wr, reg).Some? && Whole(r.wr.wBeat) && r.wr.wBeat.data < U32
    requires Shaped(Next(r, i)) && Unwritten(Next(r, i), ticks, reg)
    ensures ReadMux(Run(Next(r, i), ticks), j, reg) == r.wr.wBeat.data % Range(reg)
  {
    WriteReadsBack(r, i, j, reg);
    UnwrittenIsKept(Next(r, i), ticks, j, reg);
  }

  /** A flag changes only by an error pulse or by a 1 written to its own bit. */
  lemma FlagChangesOnlyWhenTold(r: Regs, i: Signals, k: nat)
    requires Shaped(r) && WellFormed(i) && i.resetn && k < 6
    ensures Next(r, i).flags[k] != r.flags[k] ==>
              if r.flags[k] then WriteTo(r.wr, FLAGS).Some? && Bit(r.wr.wBeat.data, k) && !i.errors[k] else i.errors[k]
    ensures i.errors[k] ==> Next(r, i).flags[k]
  {
  }
}
