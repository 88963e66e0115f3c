/**
 The transmit path of the Linux driver as a machine of atomic steps: the three parts of
 taxi_start_xmit, the DMA completion callback, which names no buffer, and the start and stop paths.
 Head and tail are free-running 32-bit counters.
 */
module LinuxTx {
  import opened Ledger

  const RING: nat := 64                // TAXI_TX_RING
  const CAPACITY: nat := 63            // one slot is always left empty
  const WAKE_THRESH: nat := 16         // TAXI_TX_WAKE_THRESH
  const U32: nat := 0x1_0000_0000

  /** struct taxi_tx_buf. */
  datatype Slot = Slot(skb: Option<nat>, dma: nat, len: nat)

  /** A buffer and the length the engine is to read from it. */
  datatype Frame = Frame(skb: nat, len: nat)

  /** How far the one taxi_start_xmit in progress has got; it owns the frame it carries. */
  datatype Xmit = NoXmit | Checked(skb: nat, len: nat) | Prepared(skb: nat, len: nat)

  /** Live: between the start of the queue and netif_tx_disable. */
  datatype Phase = Closed | Live | Draining

  datatype Stats = Stats(packets: nat, bytes: nat, errors: nat, dropped: nat)

  datatype State = State(
    ring: seq<Slot>,
    head: nat,               // tx_head
    tail: nat,               // tx_tail
    stopped: bool,           // the queue state bit of the net device
    engine: seq<nat>,        // frames the DMA engine has been given and not completed, oldest first
    xmit: Xmit,
    phase: Phase,
    led: Ledger,
    stats: Stats,
    accepted: seq<nat>,      // frames put into the ring since it was last started
    retired: seq<nat>,       // frames the callback took out of it
    refused: nat,            // NETDEV_TX_BUSY returns
    handed: seq<Frame>,      // what the engine has been given, as its descriptors say, ever
    issued: nat)             // how many of the frames it holds it has been told to start on

  datatype PrepOutcome = LinearizeFails | MapFails | PrepFails | Ready

  datatype Event =
    | Start
    | XmitCheck(len: nat)
    | XmitPrepare(outcome: PrepOutcome)
    | XmitSubmit(ok: bool)
    | Complete(ok: bool)
    | Disable
    | Stop

  function Initial(): State {
    State(seq(RING, _ => Slot(None, 0, 0)), 0, 0, true, [], NoXmit, Closed, Empty,
          Stats(0, 0, 0, 0), [], [], 0, [], 0)
  }

  /** CIRC_SPACE(head, tail, TAXI_TX_RING) on unsigned ints. */
  function CircSpace(head: nat, tail: nat): nat {
    (tail - (head + 1)) % U32 % RING
  }

  function Succ(i: nat): nat {
    (i + 1) % U32
  }

  /** Frames between tail and head, however often either has wrapped. */
  function Count(head: nat, tail: nat): nat {
    (head - tail) % U32
  }

  function At(tail: nat, k: nat): nat {
    (tail + k) % RING
  }

  // ---------------------------------------------------------------- the steps

  function Drop(s: State, skb: nat): State {
    s.(led := Free(s.led, skb), stats := s.stats.(dropped := s.stats.dropped + 1), xmit := NoXmit)
  }

  /** The space check on a snapshot of tx_tail; a full ring hands the frame back. */
  function CheckStep(s: State, len: nat): State {
    if CircSpace(s.head, s.tail) == 0 then s.(stopped := true, refused := s.refused + 1)
    else s.(led := Alloc(s.led), xmit := Checked(s.led.next, len))
  }

  /** Linearize, map and prepare a descriptor. */
  function PrepareStep(s: State, o: PrepOutcome): State
    requires s.xmit.Checked?
  {
    var Checked(skb, len) := s.xmit;
    if o == LinearizeFails || o == MapFails then Drop(s, skb)
    else
      var mapped := s.(led := Map(s.led, skb, len));
      if o == PrepFails then Drop(mapped.(led := Unmap(mapped.led, skb, len)), skb)
      else mapped.(xmit := Prepared(skb, len))
  }

  /** The critical section of taxi_start_xmit with the start of the engine that follows it, and the clean-up
      when the engine refuses. */
  function SubmitStep(s: State, ok: bool): State
    requires s.xmit.Prepared? && |s.ring| == RING
  {
    var Prepared(skb, len) := s.xmit;
    var i := s.head % RING;
    if !ok then
      Drop(s.(ring := s.ring[i := Slot(None, skb, len)], led := Unmap(s.led, skb, len)), skb)
    else
      var head := Succ(s.head);
      s.(ring := s.ring[i := Slot(Some(skb), skb, len)], head := head, xmit := NoXmit,
         engine := s.engine + [skb], accepted := s.accepted + [skb],
         handed := s.handed + [Frame(skb, len)], issued := |s.engine| + 1,
         stopped := s.stopped || CircSpace(head, s.tail) == 0)
  }

  /** taxi_tx_complete. The engine completes its oldest frame; the driver retires the slot at tail. */
  function CompleteStep(s: State, ok: bool): State
    requires |s.ring| == RING
  {
    var t := s.(engine := if s.engine == [] then [] else s.engine[1..], issued := if s.issued == 0 then 0 else s.issued - 1);
    if s.tail == s.head then t else RetireSlot(t, ok)
  }

  function RetireSlot(s: State, ok: bool): State
    requires |s.ring| == RING
  {
    var i := s.tail % RING;
    var buf := s.ring[i];
    var skb := if buf.skb.Some? then buf.skb.value else 0;
    var tail := Succ(s.tail);
    s.(ring := s.ring[i := buf.(skb := None)], tail := tail,
       led := Deliver(Unmap(s.led, buf.dma, buf.len), skb), retired := s.retired + [skb],
       stats := if ok then s.stats.(packets := s.stats.packets + 1, bytes := s.stats.bytes + buf.len)
                else s.stats.(errors := s.stats.errors + 1),
       stopped := s.stopped && CircSpace(s.head, tail) < WAKE_THRESH)
  }

  /** The loop of taxi_tx_ring_stop. */
  function FlushFrom(ring: seq<Slot>, led: Ledger, head: nat, tail: nat): (seq<Slot>, Ledger)
    requires |ring| == RING && head < U32 && tail < U32
    decreases Count(head, tail)
  {
    if tail == head then (ring, led)
    else
      var i := tail % RING;
      var skb := if ring[i].skb.Some? then ring[i].skb.value else 0;
      CountShrinks(head, tail);
      FlushFrom(ring[i := ring[i].(skb := None)],
                Free(Unmap(led, ring[i].dma, ring[i].len), skb), head, Succ(tail))
  }

  function StopStep(s: State): State
    requires |s.ring| == RING && s.head < U32 && s.tail < U32
  {
    var (ring, led) := FlushFrom(s.ring, s.led, s.head, s.tail);
    s.(ring := ring, led := led, head := 0, tail := 0, engine := [], issued := 0, phase := Closed)
  }

  predicate Enabled(s: State, e: Event) {
    && |s.ring| == RING && s.head < U32 && s.tail < U32
    && match e
       case Start => s.phase == Closed
       // the stack calls the driver only for a queue that is not stopped, one frame at a time
       case XmitCheck(_) => s.phase == Live && !s.stopped && s.xmit == NoXmit
       case XmitPrepare(_) => s.xmit.Checked?
       case XmitSubmit(_) => s.xmit.Prepared?
       case Complete(_) => s.phase != Closed && (s.engine != [] ==> s.issued > 0)
       // netif_tx_disable waits for the transmit in progress, and none is admitted afterwards
       case Disable => s.phase == Live && s.xmit == NoXmit
       // a port whose PHY could not be attached is stopped without ever having been live
       case Stop => s.phase != Live
  }

  function Step(s: State, e: Event): State
    requires Enabled(s, e)
  {
    match e
    case Start => s.(phase := Live, stopped := false, accepted := [], retired := [])
    case XmitCheck(len) => CheckStep(s, len)
    case XmitPrepare(o) => PrepareStep(s, o)
    case XmitSubmit(ok) => SubmitStep(s, ok)
    case Complete(ok) => CompleteStep(s, ok)
    case Disable => s.(phase := Draining, stopped := true)
    case Stop => StopStep(s)
  }

  // ---------------------------------------------------------------- counters that wrap

  lemma CountShrinks(head: nat, tail: nat)
    requires head < U32 && tail < U32 && head != tail
    ensures Count(head, Succ(tail)) == Count(head, tail) - 1
  {
  }

  lemma CountGrows(head: nat, tail: nat)
    requires head < U32 && tail < U32 && Count(head, tail) < U32 - 1
    ensures Count(Succ(head), tail) == Count(head, tail) + 1
  {
  }

  /** The macro computes the free slots, one held back, through any wrap of either counter. */
  lemma SpaceIsFree(head: nat, tail: nat)
    requires head < U32 && tail < U32 && Count(head, tail) <= CAPACITY
    ensures CircSpace(head, tail) == CAPACITY - Count(head, tail)
  {
    var n := Count(head, tail);
    assert head == (tail + n) % U32;
    assert (tail - (head + 1)) % U32 == U32 - 1 - n;
    assert (U32 - 1 - n) % RING == CAPACITY - n;
  }

  /** Retiring moves every frame one place forward; slots do not move, because 64 divides 2^32. */
  lemma AtSucc(tail: nat, k: nat)
    requires tail < U32
    ensures At(Succ(tail), k) == At(tail, k + 1)
  {
    if tail == U32 - 1 {
      assert (U32 + k) % RING == k % RING;
    }
  }

  lemma AtHead(head: nat, tail: nat)
    requires head < U32 && tail < U32
    ensures head % RING == At(tail, Count(head, tail))
  {
  }

  lemma AtDistinct(tail: nat, j: nat, k: nat)
    requires j < k < RING
    ensures At(tail, j) != At(tail, k)
  {
  }

  // ---------------------------------------------------------------- invariants

  ghost predicate Distinct(q: seq<nat>) {
    forall i, j :: 0 <= i < j < |q| ==> q[i] != q[j]
  }

  function Members(q: seq<nat>): set<nat> {
    set k | k in q
  }

  /** The occupied slots are exactly those from tail to head, and hold the engine's frames in order. */
  ghost predicate RingOk(ring: seq<Slot>, tail: nat, q: seq<nat>) {
    && |ring| == RING && |q| <= CAPACITY
    && (forall k: nat :: k < |q| ==> Occupied(ring, At(tail, k), q[k]))
    && (forall k: nat :: |q| <= k < RING ==> ring[At(tail, k)].skb.None?)
  }

  predicate Occupied(ring: seq<Slot>, i: nat, skb: nat) {
    i < |ring| && ring[i].skb == Some(skb) && ring[i].dma == skb
  }

  /** The driver owes the kernel the frames in the ring, each mapped with the length in its slot, and
      the frame being transmitted, mapped with its own length once it is prepared. */
  ghost predicate LedgerOk(ring: seq<Slot>, tail: nat, q: seq<nat>, led: Ledger, xmit: Xmit) {
    && Sound(led) && Distinct(q)
    && led.live == Members(q) + Carried(xmit)
    && led.maps.Keys == Members(q) + (if xmit.Prepared? then {xmit.skb} else {})
    && (forall k: nat :: k < |q| && At(tail, k) < |ring| && q[k] in led.maps ==>
          led.maps[q[k]] == ring[At(tail, k)].len)
    && (xmit.Prepared? && xmit.skb in led.maps ==> led.maps[xmit.skb] == xmit.len)
    && Carried(xmit) !! Members(q)
  }

  function Carried(x: Xmit): set<nat> {
    if x == NoXmit then {} else {x.skb}
  }

  /** While the queue is live a full ring means a stopped queue, and a stopped queue has so much in
      flight that a completion is still to come which will wake it. A frame past the space check
      still has its slot. */
  ghost predicate FlowOk(s: State) {
    && s.refused == 0
    && (s.phase == Live ==>
          && (|s.engine| == CAPACITY ==> s.stopped)
          && (s.stopped ==> |s.engine| > CAPACITY - WAKE_THRESH))
    && (s.xmit != NoXmit ==> s.phase == Live && !s.stopped)
    && (s.phase == Closed ==> s.engine == [] && s.head == 0 && s.tail == 0)
  }

  ghost predicate Inv(s: State) {
    && s.head < U32 && s.tail < U32
    && Count(s.head, s.tail) == |s.engine|
    && RingOk(s.ring, s.tail, s.engine)
    && LedgerOk(s.ring, s.tail, s.engine, s.led, s.xmit)
    && (s.phase != Closed ==> s.accepted == s.retired + s.engine)
    && s.issued == |s.engine|
    && FlowOk(s)
  }

  // ---------------------------------------------------------------- the ring as a queue

  lemma Enqueued(ring: seq<Slot>, tail: nat, q: seq<nat>, slot: Slot, skb: nat)
    requires RingOk(ring, tail, q) && |q| < CAPACITY
    requires slot.skb == Some(skb) && slot.dma == skb
    ensures RingOk(ring[At(tail, |q|) := slot], tail, q + [skb])
  {
    var i := At(tail, |q|);
    var r := ring[i := slot];
    forall k: nat | k < RING && k != |q| ensures r[At(tail, k)] == ring[At(tail, k)] {
      if k < |q| { AtDistinct(tail, k, |q|); } else { AtDistinct(tail, |q|, k); }
    }
  }

  /** Emptying the slot at the tail leaves the others alone. */
  lemma TailEmptied(ring: seq<Slot>, tail: nat, r: seq<Slot>)
    requires |ring| == RING && tail < U32 && r == ring[tail % RING := ring[tail % RING].(skb := None)]
    ensures tail % RING == At(tail, 0) && forall k: nat :: 0 < k < RING ==> r[At(tail, k)] == ring[At(tail, k)]
  {
    forall k: nat | 0 < k < RING ensures r[At(tail, k)] == ring[At(tail, k)] {
      AtDistinct(tail, 0, k);
    }
  }

  lemma DequeuedRest(ring: seq<Slot>, tail: nat, q: seq<nat>, r: seq<Slot>, k: nat)
    requires RingOk(ring, tail, q) && q != [] && tail < U32 && |q[1..]| <= k < RING
    requires r == ring[tail % RING := ring[tail % RING].(skb := None)]
    ensures r[At(Succ(tail), k)].skb.None?
  {
    TailEmptied(ring, tail, r);
    AtSucc(tail, k);
    if k + 1 == RING { assert At(tail, k + 1) == At(tail, 0); }
  }

  lemma Dequeued(ring: seq<Slot>, tail: nat, q: seq<nat>)
    requires RingOk(ring, tail, q) && q != [] && tail < U32
    ensures Occupied(ring, tail % RING, q[0])
    ensures RingOk(ring[tail % RING := ring[tail % RING].(skb := None)], Succ(tail), q[1..])
  {
    var r := ring[tail % RING := ring[tail % RING].(skb := None)];
    TailEmptied(ring, tail, r);
    forall k: nat | k < |q[1..]| ensures Occupied(r, At(Succ(tail), k), q[1..][k]) {
      AtSucc(tail, k);
      assert Occupied(ring, At(tail, k + 1), q[k + 1]);
    }
    forall k: nat | |q[1..]| <= k < RING ensures r[At(Succ(tail), k)].skb.None? {
      DequeuedRest(ring, tail, q, r, k);
    }
  }

  lemma Refused(ring: seq<Slot>, tail: nat, q: seq<nat>, slot: Slot)
    requires RingOk(ring, tail, q) && slot.skb.None?
    ensures RingOk(ring[At(tail, |q|) := slot], tail, q)
  {
    var i := At(tail, |q|);
    var r := ring[i := slot];
    forall k: nat | k < |q| ensures r[At(tail, k)] == ring[At(tail, k)] {
      AtDistinct(tail, k, |q|);
    }
  }

  // ---------------------------------------------------------------- the ledger

  lemma FrameOffered(ring: seq<Slot>, tail: nat, q: seq<nat>, led: Ledger, len: nat)
    requires LedgerOk(ring, tail, q, led, NoXmit)
    ensures LedgerOk(ring, tail, q, Alloc(led), Checked(led.next, len))
  {
    assert led.next !in led.live;
  }

  lemma FrameMapped(ring: seq<Slot>, tail: nat, q: seq<nat>, led: Ledger, skb: nat, len: nat)
    requires LedgerOk(ring, tail, q, led, Checked(skb, len))
    ensures LedgerOk(ring, tail, q, Map(led, skb, len), Prepared(skb, len))
    ensures Unmap(Map(led, skb, len), skb, len) == led
  {
    assert skb in Carried(Checked(skb, len));
    assert skb in led.live && skb !in led.maps.Keys;
    assert led.maps[skb := len] - {skb} == led.maps;
  }

  lemma FrameUnmapped(ring: seq<Slot>, tail: nat, q: seq<nat>, led: Ledger, skb: nat, len: nat)
    requires LedgerOk(ring, tail, q, led, Prepared(skb, len))
    ensures LedgerOk(ring, tail, q, Unmap(led, skb, len), Checked(skb, len))
  {
    assert skb in Carried(Prepared(skb, len));
    assert skb in led.maps.Keys && led.maps[skb] == len;
  }

  lemma FrameDropped(ring: seq<Slot>, tail: nat, q: seq<nat>, led: Ledger, skb: nat, len: nat)
    requires LedgerOk(ring, tail, q, led, Checked(skb, len))
    ensures LedgerOk(ring, tail, q, Free(led, skb), NoXmit)
  {
    assert skb in Carried(Checked(skb, len));
    assert skb in led.live && skb !in led.maps.Keys;
  }

  lemma FrameQueued(ring: seq<Slot>, tail: nat, q: seq<nat>, led: Ledger, skb: nat, len: nat)
    requires RingOk(ring, tail, q) && |q| < CAPACITY
    requires LedgerOk(ring, tail, q, led, Prepared(skb, len))
    ensures LedgerOk(ring[At(tail, |q|) := Slot(Some(skb), skb, len)], tail, q + [skb], led, NoXmit)
  {
    var r := ring[At(tail, |q|) := Slot(Some(skb), skb, len)];
    assert skb in Carried(Prepared(skb, len));
    assert Members(q + [skb]) == Members(q) + {skb};
    assert skb in led.maps.Keys;
    forall k: nat | k < |q| ensures r[At(tail, k)] == ring[At(tail, k)] && q[k] in Members(q) {
      AtDistinct(tail, k, |q|);
    }
  }

  lemma MembersRest(q: seq<nat>)
    requires Distinct(q) && q != []
    ensures Distinct(q[1..]) && q[0] in Members(q) && Members(q[1..]) == Members(q) - {q[0]}
  {
    assert q == [q[0]] + q[1..];
  }

  lemma LengthsShift(ring: seq<Slot>, tail: nat, slot: Slot, k: nat)
    requires |ring| == RING && tail < U32 && k < CAPACITY
    ensures ring[tail % RING := slot][At(Succ(tail), k)] == ring[At(tail, k + 1)]
  {
    AtSucc(tail, k);
    AtDistinct(tail, 0, k + 1);
    assert At(tail, 0) == tail % RING;
  }

  lemma FrameRetired(ring: seq<Slot>, tail: nat, q: seq<nat>, led: Ledger, xmit: Xmit, fate: Fate)
    requires RingOk(ring, tail, q) && q != [] && tail < U32
    requires LedgerOk(ring, tail, q, led, xmit)
    ensures var i := tail % RING;
            LedgerOk(ring[i := ring[i].(skb := None)], Succ(tail), q[1..],
                     Dispose(Unmap(led, ring[i].dma, ring[i].len), q[0], fate), xmit)
  {
    var i := tail % RING;
    assert i == At(tail, 0);
    assert Occupied(ring, At(tail, 0), q[0]);
    MembersRest(q);
    assert q[0] in led.maps.Keys && led.maps[q[0]] == ring[i].len;
    var l := Dispose(Unmap(led, q[0], ring[i].len), q[0], fate);
    assert l.live == led.live - {q[0]} && l.maps == led.maps - {q[0]};
    var r := ring[i := ring[i].(skb := None)];
    forall k: nat | k < |q[1..]| && q[1..][k] in l.maps
      ensures l.maps[q[1..][k]] == r[At(Succ(tail), k)].len
    {
      LengthsShift(ring, tail, r[i], k);
      assert q[1..][k] == q[k + 1];
    }
  }

  // ---------------------------------------------------------------- every step keeps the invariant

  lemma InitialOk()
    ensures Inv(Initial())
  {
  }

  lemma CheckKeeps(s: State, len: nat)
    requires Inv(s) && Enabled(s, XmitCheck(len))
    ensures Inv(CheckStep(s, len))
    ensures CircSpace(s.head, s.tail) > 0
  {
    SpaceIsFree(s.head, s.tail);
    FrameOffered(s.ring, s.tail, s.engine, s.led, len);
  }

  lemma PrepareKeeps(s: State, o: PrepOutcome)
    requires Inv(s) && s.xmit.Checked?
    ensures Inv(PrepareStep(s, o))
  {
    var Checked(skb, len) := s.xmit;
    FrameMapped(s.ring, s.tail, s.engine, s.led, skb, len);
    FrameDropped(s.ring, s.tail, s.engine, s.led, skb, len);
  }

  lemma SubmitKeeps(s: State, ok: bool)
    requires Inv(s) && s.xmit.Prepared?
    ensures Inv(SubmitStep(s, ok))
  {
    var Prepared(skb, len) := s.xmit;
    AtHead(s.head, s.tail);
    if ok {
      Enqueued(s.ring, s.tail, s.engine, Slot(Some(skb), skb, len), skb);
      FrameQueued(s.ring, s.tail, s.engine, s.led, skb, len);
      CountGrows(s.head, s.tail);
      SpaceIsFree(Succ(s.head), s.tail);
      assert s.retired + s.engine + [skb] == s.retired + (s.engine + [skb]);
    } else {
      var slot := Slot(None, skb, len);
      Refused(s.ring, s.tail, s.engine, slot);
      FrameUnmapped(s.ring, s.tail, s.engine, s.led, skb, len);
      var led := Unmap(s.led, skb, len);
      FrameDropped(s.ring, s.tail, s.engine, led, skb, len);
      RefusedLengths(s.ring, s.tail, s.engine, Free(led, skb), slot);
    }
  }

  lemma RefusedLengths(ring: seq<Slot>, tail: nat, q: seq<nat>, led: Ledger, slot: Slot)
    requires LedgerOk(ring, tail, q, led, NoXmit) && RingOk(ring, tail, q)
    ensures LedgerOk(ring[At(tail, |q|) := slot], tail, q, led, NoXmit)
  {
    forall k: nat | k < |q| ensures ring[At(tail, |q|) := slot][At(tail, k)] == ring[At(tail, k)] {
      AtDistinct(tail, k, |q|);
    }
  }

  lemma CompleteFrame(s: State, ok: bool)
    requires Inv(s) && s.engine != []
    ensures var t := CompleteStep(s, ok);
            var i := s.tail % RING;
            && s.ring[i].skb == Some(s.engine[0])
            && t == s.(ring := s.ring[i := s.ring[i].(skb := None)], tail := Succ(s.tail),
                       engine := s.engine[1..], issued := s.issued - 1, retired := s.retired + [s.engine[0]],
                       led := Deliver(Unmap(s.led, s.ring[i].dma, s.ring[i].len), s.engine[0]),
                       stats := t.stats,
                       stopped := s.stopped && CircSpace(s.head, Succ(s.tail)) < WAKE_THRESH)
  {
    Dequeued(s.ring, s.tail, s.engine);
    assert s.tail != s.head;
  }

  lemma RetiredOrder(retired: seq<nat>, q: seq<nat>)
    requires q != []
    ensures retired + q == (retired + [q[0]]) + q[1..]
  {
  }

  /** An in-order completion retires exactly the frame the engine completed, and wakes the queue as
      soon as a quarter of the ring is free. */
  lemma CompleteKeeps(s: State, ok: bool)
    requires Inv(s) && Enabled(s, Complete(ok))
    ensures Inv(CompleteStep(s, ok))
    ensures var t := CompleteStep(s, ok);
            && (s.engine == [] ==> t == s)
            && (s.engine != [] ==> t.retired == s.retired + [s.engine[0]])
  {
    if s.engine != [] {
      CompleteFrame(s, ok);
      var t := CompleteStep(s, ok);
      Dequeued(s.ring, s.tail, s.engine);
      FrameRetired(s.ring, s.tail, s.engine, s.led, s.xmit, Delivered);
      CountShrinks(s.head, s.tail);
      SpaceIsFree(s.head, Succ(s.tail));
      RetiredOrder(s.retired, s.engine);
      assert FlowOk(t);
    }
  }

  /** One turn of the stop loop. */
  lemma FlushOne(ring: seq<Slot>, led: Ledger, head: nat, tail: nat, q: seq<nat>)
    requires head < U32 && tail < U32 && Count(head, tail) == |q| && q != []
    requires RingOk(ring, tail, q) && LedgerOk(ring, tail, q, led, NoXmit)
    ensures var i := tail % RING;
            var r, l := ring[i := ring[i].(skb := None)], Free(Unmap(led, ring[i].dma, ring[i].len), q[0]);
            && Count(head, Succ(tail)) == |q[1..]| && ring[i].skb == Some(q[0])
            && RingOk(r, Succ(tail), q[1..]) && LedgerOk(r, Succ(tail), q[1..], l, NoXmit)
  {
    CountShrinks(head, tail);
    Dequeued(ring, tail, q);
    FrameRetired(ring, tail, q, led, NoXmit, Freed);
    assert At(tail, 0) == tail % RING;
    assert Occupied(ring, At(tail, 0), q[0]);
  }

  lemma FlushEnd(ring: seq<Slot>, led: Ledger, tail: nat)
    requires tail < U32 && RingOk(ring, tail, []) && LedgerOk(ring, tail, [], led, NoXmit)
    ensures |ring| == RING && (forall i: nat :: i < RING ==> ring[i].skb.None?)
    ensures Sound(led) && led.live == {} && led.maps == map[]
  {
    forall i: nat | i < RING ensures ring[i].skb.None? {
      var k := (i - tail) % RING;
      assert At(tail, k) == i;
    }
    assert led.maps.Keys == {};
  }

  /** The stop loop releases every frame still in the ring. */
  lemma {:induction false} FlushKeeps(ring: seq<Slot>, led: Ledger, head: nat, tail: nat, q: seq<nat>)
    requires head < U32 && tail < U32 && Count(head, tail) == |q|
    requires RingOk(ring, tail, q) && LedgerOk(ring, tail, q, led, NoXmit)
    ensures var (r, l) := FlushFrom(ring, led, head, tail);
            && |r| == RING && (forall i: nat :: i < RING ==> r[i].skb.None?)
            && Sound(l) && l.live == {} && l.maps == map[]
    decreases |q|
  {
    if tail == head {
      assert q == [];
      FlushEnd(ring, led, tail);
    } else {
      FlushOne(ring, led, head, tail, q);
      var i := tail % RING;
      FlushKeeps(ring[i := ring[i].(skb := None)],
                 Free(Unmap(led, ring[i].dma, ring[i].len), q[0]), head, Succ(tail), q[1..]);
    }
  }

  lemma StopKeeps(s: State)
    requires Inv(s) && s.phase != Live
    ensures Inv(StopStep(s))
  {
    FlushKeeps(s.ring, s.led, s.head, s.tail, s.engine);
  }

  lemma StepKeeps(s: State, e: Event)
    requires Inv(s) && Enabled(s, e)
    ensures Inv(Step(s, e))
  {
    match e
    case XmitCheck(len) => CheckKeeps(s, len);
    case XmitPrepare(o) => PrepareKeeps(s, o);
    case XmitSubmit(ok) => SubmitKeeps(s, ok);
    case Complete(ok) => CompleteKeeps(s, ok);
    case Stop => StopKeeps(s);
    case _ =>
  }

  // ---------------------------------------------------------------- runs

  predicate Legal(s: State, es: seq<Event>)
    decreases es
  {
    es == [] || (Enabled(s, es[0]) && Legal(Step(s, es[0]), es[1..]))
  }

  function Run(s: State, es: seq<Event>): State
    requires Legal(s, es)
    decreases es
  {
    if es == [] then s else Run(Step(s, es[0]), es[1..])
  }

  lemma {:induction false} RunKeeps(s: State, es: seq<Event>)
    requires Inv(s) && Legal(s, es)
    ensures Inv(Run(s, es))
    decreases es
  {
    if es != [] {
      StepKeeps(s, es[0]);
      RunKeeps(Step(s, es[0]), es[1..]);
    }
  }

  /** In every run, through any number of counter wraps, the occupied slots are exactly the at most 63
      from tail to head, they hold the frames the engine still has in the order they were accepted,
      and the frames retired so far are the oldest accepted ones. */
  lemma EveryRunIsAFifo(es: seq<Event>)
    requires Legal(Initial(), es)
    ensures var s := Run(Initial(), es);
            && |s.ring| == RING && |s.engine| <= CAPACITY
            && Count(s.head, s.tail) == |s.engine|
            && (forall k: nat :: k < RING ==>
                  s.ring[At(s.tail, k)].skb == if k < |s.engine| then Some(s.engine[k]) else None)
            && (s.phase != Closed ==> s.accepted == s.retired + s.engine)
  {
    InitialOk();
    RunKeeps(Initial(), es);
    var s := Run(Initial(), es);
    forall k: nat | k < RING
      ensures s.ring[At(s.tail, k)].skb == if k < |s.engine| then Some(s.engine[k]) else None
    {
      assert k < |s.engine| ==> Occupied(s.ring, At(s.tail, k), s.engine[k]);
    }
  }

  /** Every frame the driver accepted is in the ring, being transmitted, or was disposed of once; no
      mapping is ever released twice or with another length; and a closed ring holds nothing. */
  lemma EveryRunOwnsItsFrames(es: seq<Event>)
    requires Legal(Initial(), es)
    ensures var s := Run(Initial(), es);
            && s.led.faults == 0
            && (forall b: nat :: b < s.led.next ==>
                  (b in s.led.fate <==> !(b in s.engine || b in Carried(s.xmit))))
            && (s.phase == Closed ==> s.led.live == {} && s.led.maps == map[])
  {
    InitialOk();
    RunKeeps(Initial(), es);
    var s := Run(Initial(), es);
    if s.phase == Closed {
      assert s.led.maps.Keys == {};
    }
  }

  /** The engine has been started on every frame it holds. */
  lemma EveryRunIssues(es: seq<Event>)
    requires Legal(Initial(), es)
    ensures Run(Initial(), es).issued == |Run(Initial(), es).engine|
  {
    InitialOk();
    RunKeeps(Initial(), es);
  }

  /** NETDEV_TX_BUSY is never returned: the stack never offers a frame to a full ring. */
  lemma BusyIsUnreachable(es: seq<Event>, len: nat)
    requires Legal(Initial(), es + [XmitCheck(len)])
    ensures Legal(Initial(), es)
    ensures CircSpace(Run(Initial(), es).head, Run(Initial(), es).tail) > 0
    ensures Run(Initial(), es + [XmitCheck(len)]).refused == 0
  {
    LegalPrefix(Initial(), es, [XmitCheck(len)]);
    InitialOk();
    RunKeeps(Initial(), es);
    RunKeeps(Initial(), es + [XmitCheck(len)]);
    CheckKeeps(Run(Initial(), es), len);
  }

  lemma {:induction false} LegalPrefix(s: State, es: seq<Event>, fs: seq<Event>)
    requires Legal(s, es + fs)
    ensures Legal(s, es) && Legal(Run(s, es), fs) && Run(s, es + fs) == Run(Run(s, es), fs)
    decreases es
  {
    if es == [] {
      assert es + fs == fs;
    } else {
      assert (es + fs)[1..] == es[1..] + fs;
      LegalPrefix(Step(s, es[0]), es[1..], fs);
    }
  }

  /** A full ring implies a stopped queue, and a stopped queue has at least 48 frames in flight. */
  lemma EveryRunControlsFlow(es: seq<Event>)
    requires Legal(Initial(), es) && Run(Initial(), es).phase == Live
    ensures var s := Run(Initial(), es);
            && (CircSpace(s.head, s.tail) == 0 ==> s.stopped)
            && (s.stopped ==> |s.engine| >= 48)
  {
    InitialOk();
    RunKeeps(Initial(), es);
    var s := Run(Initial(), es);
    SpaceIsFree(s.head, s.tail);
  }

  lemma CompleteWakes(s: State)
    requires Inv(s) && s.phase == Live && s.engine != []
    ensures Enabled(s, Complete(true))
    ensures var t := CompleteStep(s, true);
            && Inv(t) && t.phase == Live && |t.engine| == |s.engine| - 1
            && (t.stopped <==> s.stopped && |t.engine| >= 48)
  {
    CompleteKeeps(s, true);
    CompleteFrame(s, true);
    CountShrinks(s.head, s.tail);
    SpaceIsFree(s.head, Succ(s.tail));
  }

  function Completions(n: nat): seq<Event> {
    if n == 0 then [] else [Complete(true)] + Completions(n - 1)
  }

  /** The frames in flight decide when a stopped live queue wakes: completing them one by one does it
      exactly when 47 are left, so no wake-up is lost; and no completion ever stops a queue. */
  lemma {:induction false} CompletionsWake(s: State, n: nat)
    requires Inv(s) && s.phase == Live && n <= |s.engine|
    ensures Legal(s, Completions(n))
    ensures Run(s, Completions(n)).stopped <==> s.stopped && |s.engine| - n >= 48
    decreases n
  {
    if n > 0 {
      CompleteWakes(s);
      assert Completions(n)[1..] == Completions(n - 1);
      CompletionsWake(CompleteStep(s, true), n - 1);
    }
  }

  /** The stopped queue does not stay stopped through a drain. After netif_tx_disable a completion
      re-opens it exactly when at most 48 frames were in flight, which every drain comes to; only the
      stack's promise not to transmit then keeps frames out. */
  lemma DrainReopensQueue(s: State, ok: bool)
    requires Inv(s) && s.phase == Draining && s.stopped && s.engine != []
    ensures !CompleteStep(s, ok).stopped <==> |s.engine| <= 48
  {
    CompleteFrame(s, ok);
    CountShrinks(s.head, s.tail);
    SpaceIsFree(s.head, Succ(s.tail));
  }

  /** One step more. */
  lemma Follow(s: State, e: Event, es: seq<Event>)
    requires Enabled(s, e) && Legal(Step(s, e), es)
    ensures Legal(s, [e] + es) && Run(s, [e] + es) == Run(Step(s, e), es)
  {
    assert ([e] + es)[0] == e && ([e] + es)[1..] == es;
  }

  /** Such a drain is reached by stopping an interface with one frame in flight: the queue it closes is open
      again once the frame completes. */
  lemma DrainReopensOnOneFrame() returns (es: seq<Event>, last: Event)
    ensures Legal(Initial(), es) && Run(Initial(), es).phase == Draining && Run(Initial(), es).stopped
    ensures Legal(Run(Initial(), es), [last]) && Run(Run(Initial(), es), [last]).phase == Draining
    ensures !Run(Run(Initial(), es), [last]).stopped
  {
    var e0, e1, e2, e3, e4 := Start, XmitCheck(60), XmitPrepare(Ready), XmitSubmit(true), Disable;
    last := Complete(true);
    var s1 := Step(Initial(), e0);
    var s2 := Step(s1, e1);
    var s3 := Step(s2, e2);
    var s4 := Step(s3, e3);
    var s5 := Step(s4, e4);
    Follow(s4, e4, []);
    Follow(s3, e3, [e4]);
    Follow(s2, e2, [e3] + [e4]);
    Follow(s1, e1, [e2] + ([e3] + [e4]));
    Follow(Initial(), e0, [e1] + ([e2] + ([e3] + [e4])));
    es := [e0] + ([e1] + ([e2] + ([e3] + [e4])));
    assert [e4] + [] == [e4];
    Follow(s5, last, []);
    assert [last] + [] == [last];
  }
}
