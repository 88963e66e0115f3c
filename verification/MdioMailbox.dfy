/**
 The one-deep command mailbox between the register file and the MDIO master: its registers always
 tell the truth about the history of commands and read data.
 */
module MdioMailbox {
  import opened Ledger
  import opened RegFile

  datatype Event =
    | HandedOver(cmd: nat)     // the master took the command
    | ReadDone(data: nat)      // the master presented read data
    | Accepted(cmd: nat)       // a write to MDIO_CMD was queued
    | Rejected                 // a write to MDIO_CMD was dropped

  /** The signals of one edge that concern the mailbox. */
  datatype Signal = Signal(wr: Option<nat>, ready: bool, rd: Option<nat>)

  function Edge(m: Mailbox, s: Signal): Mailbox {
    NextMailbox(m, s.wr, s.ready, s.rd)
  }

  /** What happens at an edge, in the order the registers resolve it: a write wins over a completion. */
  function Events(m: Mailbox, s: Signal): seq<Event> {
    (if m.valid && s.ready then [HandedOver(m.cmd)] else [])
    + (if s.rd.Some? then [ReadDone(s.rd.value)] else [])
    + (if s.wr.None? then [] else if Accepts(m, s.wr, s.ready) then [Accepted(Frame(s.wr.value))] else [Rejected])
  }

  function Edges(m: Mailbox, ss: seq<Signal>): Mailbox {
    if ss == [] then m else Edge(Edges(m, ss[..|ss| - 1]), ss[|ss| - 1])
  }

  function History(m: Mailbox, ss: seq<Signal>): seq<Event> {
    if ss == [] then []
    else History(m, ss[..|ss| - 1]) + Events(Edges(m, ss[..|ss| - 1]), ss[|ss| - 1])
  }

  // ---------------------------------------------------------------- what a history says

  function Queued(h: seq<Event>): seq<nat> {
    if h == [] then []
    else Queued(h[..|h| - 1]) + (if h[|h| - 1].Accepted? then [h[|h| - 1].cmd] else [])
  }

  function Handed(h: seq<Event>): seq<nat> {
    if h == [] then []
    else Handed(h[..|h| - 1]) + (if h[|h| - 1].HandedOver? then [h[|h| - 1].cmd] else [])
  }

  /** The latest write to MDIO_CMD was dropped. */
  predicate LastRejected(h: seq<Event>) {
    h != [] && (h[|h| - 1].Rejected? || (!h[|h| - 1].Accepted? && LastRejected(h[..|h| - 1])))
  }

  /** A read completed after the last accepted command. */
  predicate ReadSinceAccepted(h: seq<Event>) {
    h != [] && (h[|h| - 1].ReadDone? || (!h[|h| - 1].Accepted? && ReadSinceAccepted(h[..|h| - 1])))
  }

  function LastRead(h: seq<Event>): nat {
    if h == [] then 0
    else if h[|h| - 1].ReadDone? then h[|h| - 1].data else LastRead(h[..|h| - 1])
  }

  ghost predicate Truthful(m: Mailbox, h: seq<Event>) {
    && Queued(h) == Handed(h) + (if m.valid then [m.cmd] else [])
    && m.drop == LastRejected(h)
    && m.rdValid == ReadSinceAccepted(h)
    && m.rdata == LastRead(h)
  }

  lemma OneMore(h: seq<Event>, e: Event)
    ensures var g := h + [e];
            && Queued(g) == Queued(h) + (if e.Accepted? then [e.cmd] else [])
            && Handed(g) == Handed(h) + (if e.HandedOver? then [e.cmd] else [])
            && LastRejected(g) == (e.Rejected? || (!e.Accepted? && LastRejected(h)))
            && ReadSinceAccepted(g) == (e.ReadDone? || (!e.Accepted? && ReadSinceAccepted(h)))
            && LastRead(g) == if e.ReadDone? then e.data else LastRead(h)
  {
    assert (h + [e])[..|h|] == h;
  }

  /** Each event taken by itself, with the registers it leaves. */
  lemma EventTruthful(m: Mailbox, h: seq<Event>, e: Event, n: Mailbox)
    requires Truthful(m, h)
    requires match e
             case HandedOver(cmd) => m.valid && cmd == m.cmd && n == m.(valid := false)
             case ReadDone(data) => n == m.(rdata := data, rdValid := true)
             case Accepted(cmd) => !m.valid && n == m.(cmd := cmd, valid := true, rdValid := false, drop := false)
             case Rejected => n == m.(drop := true)
    ensures Truthful(n, h + [e])
  {
    OneMore(h, e);
  }

  /** The three parts of an edge, in the order the registers resolve them. */
  lemma EventsInOrder(m: Mailbox, s: Signal, h: seq<Event>)
    ensures var taken := if m.valid && s.ready then [HandedOver(m.cmd)] else [];
            var read := if s.rd.Some? then [ReadDone(s.rd.value)] else [];
            var written := if s.wr.None? then []
                           else if Accepts(m, s.wr, s.ready) then [Accepted(Frame(s.wr.value))] else [Rejected];
            h + Events(m, s) == ((h + taken) + read) + written
  {
  }

  lemma EdgeTruthful(m: Mailbox, h: seq<Event>, s: Signal)
    requires Truthful(m, h)
    ensures Truthful(Edge(m, s), h + Events(m, s))
  {
    var n, g := m, h;
    if m.valid && s.ready {
      EventTruthful(n, g, HandedOver(m.cmd), n.(valid := false));
      n, g := n.(valid := false), g + [HandedOver(m.cmd)];
    } else {
      assert g + [] == g;
    }
    if s.rd.Some? {
      var r := n.(rdata := s.rd.value, rdValid := true);
      EventTruthful(n, g, ReadDone(s.rd.value), r);
      n, g := r, g + [ReadDone(s.rd.value)];
    } else {
      assert g + [] == g;
    }
    EventsInOrder(m, s, h);
    if s.wr.Some? {
      var e := if Accepts(m, s.wr, s.ready) then Accepted(Frame(s.wr.value)) else Rejected;
      var r := if Accepts(m, s.wr, s.ready)
        then n.(cmd := Frame(s.wr.value), valid := true, rdValid := false, drop := false)
        else n.(drop := true);
      EventTruthful(n, g, e, r);
      n, g := r, g + [e];
    } else {
      assert g + [] == g;
    }
    assert n == Edge(m, s);
  }

  /** In every run since reset: the commands queued are those handed to the master plus the one
      pending, the drop bit tells whether the latest write was rejected, the read-valid bit whether a
      read has completed since the last accepted command, and the data register holds the last read. */
  lemma {:induction false} MailboxTellsTheTruth(ss: seq<Signal>)
    ensures Truthful(Edges(EmptyMailbox, ss), History(EmptyMailbox, ss))
  {
    if ss != [] {
      var front := ss[..|ss| - 1];
      MailboxTellsTheTruth(front);
      EdgeTruthful(Edges(EmptyMailbox, front), History(EmptyMailbox, front), ss[|ss| - 1]);
    }
  }

  /** A write to MDIO_CMD is queued unless a command is pending that the master does not take at that very edge: it
      is then dropped, and said to be. The master takes the pending command whenever it is ready. */
  lemma WriteIsQueuedUnlessFull(ss: seq<Signal>, s: Signal)
    ensures var h, g := History(EmptyMailbox, ss), History(EmptyMailbox, ss + [s]);
            var pending := |Queued(h)| > |Handed(h)|;
            var full := pending && !s.ready;
            && Queued(g) == Queued(h) + (if s.wr.Some? && !full then [Frame(s.wr.value)] else [])
            && Handed(g) == Handed(h) + (if pending && s.ready then [Queued(h)[|Queued(h)| - 1]] else [])
            && (s.wr.Some? ==> Edges(EmptyMailbox, ss + [s]).drop == full)
  {
    var m, h := Edges(EmptyMailbox, ss), History(EmptyMailbox, ss);
    assert (ss + [s])[..|ss|] == ss;
    MailboxTellsTheTruth(ss);
    EventsInOrder(m, s, h);
    EventsAdd(m, s, h);
  }

  /** At most one event more. */
  lemma OneOrNone(h: seq<Event>, es: seq<Event>)
    requires |es| <= 1
    ensures Queued(h + es) == Queued(h) + (if es != [] && es[0].Accepted? then [es[0].cmd] else [])
    ensures Handed(h + es) == Handed(h) + (if es != [] && es[0].HandedOver? then [es[0].cmd] else [])
  {
    if es == [] {
      assert h + es == h;
    } else {
      assert es == [es[0]];
      OneMore(h, es[0]);
    }
  }

  /** What one edge adds to the two lists. */
  lemma EventsAdd(m: Mailbox, s: Signal, h: seq<Event>)
    ensures Queued(h + Events(m, s)) == Queued(h) + (if Accepts(m, s.wr, s.ready) then [Frame(s.wr.value)] else [])
    ensures Handed(h + Events(m, s)) == Handed(h) + (if m.valid && s.ready then [m.cmd] else [])
  {
    var taken := if m.valid && s.ready then [HandedOver(m.cmd)] else [];
    var read := if s.rd.Some? then [ReadDone(s.rd.value)] else [];
    var written := if s.wr.None? then []
                   else if Accepts(m, s.wr, s.ready) then [Accepted(Frame(s.wr.value))] else [Rejected];
    EventsInOrder(m, s, h);
    OneOrNone(h, taken);
    OneOrNone(h + taken, read);
    OneOrNone((h + taken) + read, written);
  }

  /** A command on offer is neither withdrawn nor changed until the master takes it, whatever software
      writes meanwhile. */
  lemma {:induction false} OfferIsStable(m: Mailbox, ss: seq<Signal>)
    requires m.valid && forall s <- ss :: !s.ready
    ensures Edges(m, ss).valid && Edges(m, ss).cmd == m.cmd
  {
    if ss != [] {
      forall s <- ss[..|ss| - 1] ensures !s.ready { assert s in ss; }
      assert ss[|ss| - 1] in ss;
      OfferIsStable(m, ss[..|ss| - 1]);
    }
  }

  /** The mailbox of the register file is this one, driven by the writes to MDIO_CMD. */
  lemma RegisterFileHasIt(r: Regs, i: Signals)
    requires Shaped(r) && WellFormed(i) && i.resetn
    ensures Next(r, i).mbox == Edge(r.mbox, Signal(DataOf(WriteTo(r.wr, MDIO_CMD)), i.cmdReady, i.rd))
    ensures ReadMux(r, i, MDIO_STATUS) == StatusWord(r.mbox, i.mdioBusy) && ReadMux(r, i, MDIO_RDATA) == r.mbox.rdata
  {
  }
}
