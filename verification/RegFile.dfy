/**
 The AXI4-Lite register file of taxi_rgmii_mac_core: what each group of registers holds after one
 rising clock edge, as a function of what it held before and of the signals sampled at the edge.
 */
module RegFile {
  import opened Ledger

  const U32: nat := 0x1_0000_0000

  const CTRL: nat := 0x08
  const FLAGS: nat := 0x10
  const TX_IFG: nat := 0x14
  const TX_MAX_LEN: nat := 0x18
  const RX_MAX_LEN: nat := 0x1C
  const COUNTERS: nat := 0x20
  const MDIO_CMD: nat := 0x40
  const MDIO_RDATA: nat := 0x44
  const MDIO_STATUS: nat := 0x48
  const MDIO_DIV: nat := 0x4C

  datatype Beat = Beat(data: nat, strb: seq<bool>)

  /** The signals sampled at a clock edge. A valid signal and its payload are one optional value. */
  datatype Signals = Signals(
    resetn: bool,
    aw: Option<nat>,
    w: Option<Beat>,
    bready: bool,
    ar: Option<nat>,
    rready: bool,
    errors: seq<bool>,     // the six error pulses, in FLAGS bit order
    rxGood: bool,
    txGood: bool,
    cmdReady: bool,        // the MDIO master takes a command
    rd: Option<nat>,       // the MDIO master presents read data
    mdioBusy: bool,
    speed: nat)

  predicate WellFormed(i: Signals) {
    && |i.errors| == 6 && i.speed < 4
    && (i.aw.Some? ==> i.aw.value < 256) && (i.ar.Some? ==> i.ar.value < 256)
    && (i.w.Some? ==> i.w.value.data < U32 && |i.w.value.strb| == 4)
    && (i.rd.Some? ==> i.rd.value < 0x1_0000)
  }

  datatype WriteChannel = WriteChannel(
    awReady: bool, wReady: bool, bValid: bool, awGot: bool, wGot: bool, awAddr: nat, wBeat: Beat)

  datatype ReadChannel = ReadChannel(arReady: bool, rValid: bool, arGot: bool, arAddr: nat, rData: nat)

  datatype Mailbox = Mailbox(cmd: nat, valid: bool, rdata: nat, rdValid: bool, drop: bool)

  datatype Config = Config(ctrl: seq<bool>, txIfg: nat, txMaxLen: nat, rxMaxLen: nat, mdioDiv: nat)

  datatype Regs = Regs(
    wr: WriteChannel,
    rd: ReadChannel,
    cfg: Config,
    flags: seq<bool>,
    counters: seq<nat>,    // rx_good, rx_bad, tx_good, tx_bad, rx_ovf, tx_ovf
    mbox: Mailbox)

  const NoBeat := Beat(0, [false, false, false, false])
  const IdleWrite := WriteChannel(false, false, false, false, false, 0, NoBeat)
  const IdleRead := ReadChannel(false, false, false, 0, 0)
  const EmptyMailbox := Mailbox(0, false, 0, false, false)
  const DefaultConfig := Config([true, true, true, true], 12, 1517, 1517, 19)
  const PowerUp := Regs(IdleWrite, IdleRead, DefaultConfig, [false, false, false, false, false, false],
                        [0, 0, 0, 0, 0, 0], EmptyMailbox)

  function Reset(r: Regs): Regs {
    PowerUp.(wr := IdleWrite.(awAddr := r.wr.awAddr, wBeat := r.wr.wBeat),
             rd := IdleRead.(arAddr := r.rd.arAddr, rData := r.rd.rData))
  }

  function Pow2(i: nat): (p: nat)
    ensures p > 0
  {
    if i == 0 then 1 else 2 * Pow2(i - 1)
  }

  predicate Bit(w: nat, i: nat) {
    w / Pow2(i) % 2 == 1
  }

  /** Byte `k` of a word. */
  function Byte(w: nat, k: nat): nat {
    w / Pow2(8 * k) % 256
  }

  /** The merge function: the strobed bytes of `nw`, the other bytes of `old`. */
  function Merge(was: nat, beat: Beat): nat
    requires |beat.strb| == 4
  {
    var b := (k: nat) requires k < 4 => if beat.strb[k] then Byte(beat.data, k) else Byte(was, k);
    b(0) + 0x100 * b(1) + 0x1_0000 * b(2) + 0x100_0000 * b(3)
  }

  // ---------------------------------------------------------------- the write channel

  predicate TakesAw(c: WriteChannel, i: Signals) {
    i.aw.Some? && !c.awGot && !c.awReady
  }

  predicate TakesW(c: WriteChannel, i: Signals) {
    i.w.Some? && !c.wGot && !c.wReady
  }

  predicate DoWrite(c: WriteChannel) {
    c.awGot && c.wGot && !c.bValid
  }

  function NextWrite(c: WriteChannel, i: Signals): WriteChannel {
    WriteChannel(
      TakesAw(c, i), TakesW(c, i),
      DoWrite(c) || (c.bValid && !i.bready),
      !DoWrite(c) && (c.awGot || TakesAw(c, i)),
      !DoWrite(c) && (c.wGot || TakesW(c, i)),
      if TakesAw(c, i) then i.aw.value else c.awAddr,
      if TakesW(c, i) then i.w.value else c.wBeat)
  }

  /** The word-aligned register an address selects. */
  function Aligned(addr: nat): nat {
    addr - addr % 4
  }

  /** The beat being written to `reg` at this edge, if any. */
  function WriteTo(c: WriteChannel, reg: nat): Option<Beat> {
    if DoWrite(c) && Aligned(c.awAddr) == reg then Some(c.wBeat) else None
  }

  // ---------------------------------------------------------------- the read channel

  predicate TakesAr(c: ReadChannel, i: Signals) {
    i.ar.Some? && !c.arReady && !c.arGot && !c.rValid
  }

  function NextRead(c: ReadChannel, i: Signals, value: nat): ReadChannel {
    ReadChannel(
      TakesAr(c, i),
      c.arGot || (c.rValid && !i.rready),
      TakesAr(c, i),
      if TakesAr(c, i) then i.ar.value else c.arAddr,
      if c.arGot then value else c.rData)
  }

  function B2N(b: bool): nat {
    if b then 1 else 0
  }

  function FlagsWord(f: seq<bool>): nat
    requires |f| == 6
  {
    B2N(f[0]) + 2 * B2N(f[1]) + 4 * B2N(f[2]) + 8 * B2N(f[3]) + 16 * B2N(f[4]) + 32 * B2N(f[5])
  }

  function StatusWord(m: Mailbox, busy: bool): nat {
    B2N(busy || m.valid) + 2 * B2N(m.rdValid) + 4 * B2N(m.drop)
  }

  /** What a read of `reg` returns. */
  function ReadMux(r: Regs, i: Signals, reg: nat): nat
    requires |r.cfg.ctrl| == 4 && |r.flags| == 6 && |r.counters| == 6
  {
    if reg == 0x00 then 0x5441_5849
    else if reg == 0x04 then 0x0001_0000
    else if reg == CTRL then
      B2N(r.cfg.ctrl[0]) + 2 * B2N(r.cfg.ctrl[1]) + 4 * B2N(r.cfg.ctrl[2]) + 8 * B2N(r.cfg.ctrl[3])
    else if reg == 0x0C then i.speed + 256 * B2N(i.mdioBusy)
    else if reg == FLAGS then FlagsWord(r.flags)
    else if reg == TX_IFG then r.cfg.txIfg
    else if reg == TX_MAX_LEN then r.cfg.txMaxLen
    else if reg == RX_MAX_LEN then r.cfg.rxMaxLen
    else if COUNTERS <= reg < COUNTERS + 24 && reg % 4 == 0 then r.counters[(reg - COUNTERS) / 4]
    else if reg == MDIO_CMD then r.mbox.cmd
    else if reg == MDIO_RDATA then r.mbox.rdata
    else if reg == MDIO_STATUS then StatusWord(r.mbox, i.mdioBusy)
    else if reg == MDIO_DIV then r.cfg.mdioDiv
    else 0
  }

  // ---------------------------------------------------------------- the registers

  /** Set by an error pulse, cleared by writing 1; a pulse at the clearing edge wins. */
  function NextFlag(flag: bool, error: bool, cleared: bool): bool {
    (flag && !cleared) || error
  }

  function NextFlags(f: seq<bool>, errors: seq<bool>, wr: Option<Beat>): seq<bool>
    requires |f| == 6 && |errors| == 6
  {
    seq(6, k requires 0 <= k < 6 => NextFlag(f[k], errors[k], wr.Some? && Bit(wr.value.data, k)))
  }

  /** A 32-bit event counter; a write clears it even if an event arrives at the same edge. */
  function NextCounter(c: nat, event: bool, cleared: bool): nat {
    if cleared then 0 else if event then (c + 1) % U32 else c
  }

  function CounterEvent(i: Signals, k: nat): bool
    requires |i.errors| == 6
  {
    match k
    case 0 => i.rxGood
    case 1 => i.errors[4]
    case 2 => i.txGood
    case 3 => i.errors[2]
    case 4 => i.errors[3]
    case _ => i.errors[1]
  }

  /** The frame the hardware builds from a command word: the turnaround bits are forced to 10. */
  function Frame(word: nat): nat {
    word / 0x4_0000 * 0x4_0000 + 0x2_0000 + word % 0x1_0000
  }

  predicate Accepts(m: Mailbox, wr: Option<nat>, ready: bool) {
    wr.Some? && (!m.valid || ready)
  }

  function NextMailbox(m: Mailbox, wr: Option<nat>, ready: bool, rd: Option<nat>): Mailbox {
    var accept := Accepts(m, wr, ready);
    Mailbox(
      if accept then Frame(wr.value) else m.cmd,
      accept || (m.valid && !ready),
      if rd.Some? then rd.value else m.rdata,
      !accept && (m.rdValid || rd.Some?),
      if wr.Some? then !accept else m.drop)
  }

  function DataOf(b: Option<Beat>): Option<nat> {
    if b.Some? then Some(b.value.data) else None
  }

  function NextConfig(c: Config, w: WriteChannel): Config
    requires |c.ctrl| == 4 && |w.wBeat.strb| == 4
  {
    var reg := Aligned(w.awAddr);
    if !DoWrite(w) then c
    else if reg == CTRL && w.wBeat.strb[0] then
      c.(ctrl := [Bit(w.wBeat.data, 0), Bit(w.wBeat.data, 1), Bit(w.wBeat.data, 2), Bit(w.wBeat.data, 3)])
    else if reg == TX_IFG then c.(txIfg := Merge(c.txIfg, w.wBeat) % 0x100)
    else if reg == TX_MAX_LEN then c.(txMaxLen := Merge(c.txMaxLen, w.wBeat) % 0x1_0000)
    else if reg == RX_MAX_LEN then c.(rxMaxLen := Merge(c.rxMaxLen, w.wBeat) % 0x1_0000)
    else if reg == MDIO_DIV then c.(mdioDiv := Merge(c.mdioDiv, w.wBeat) % 0x100)
    else c
  }

  predicate Shaped(r: Regs) {
    |r.cfg.ctrl| == 4 && |r.flags| == 6 && |r.counters| == 6 && |r.wr.wBeat.strb| == 4
  }

  /** One clock edge. */
  function Next(r: Regs, i: Signals): Regs
    requires Shaped(r) && WellFormed(i)
  {
    if !i.resetn then Reset(r)
    else
      Regs(NextWrite(r.wr, i),
           NextRead(r.rd, i, ReadMux(r, i, Aligned(r.rd.arAddr))),
           NextConfig(r.cfg, r.wr),
           NextFlags(r.flags, i.errors, WriteTo(r.wr, FLAGS)),
           seq(6, k requires 0 <= k < 6 =>
             NextCounter(r.counters[k], CounterEvent(i, k), WriteTo(r.wr, COUNTERS + 4 * k).Some?)),
           NextMailbox(r.mbox, DataOf(WriteTo(r.wr, MDIO_CMD)), i.cmdReady, i.rd))
  }
}
