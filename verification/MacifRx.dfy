/**
 The receive side of the lwIP driver: four ports, each with a descriptor ring refilled from the
 receive interrupt and an index queue from the interrupt to the main loop, sharing one pbuf pool. The
 interrupt may strike between any two statements of the main loop.
 */
module MacifRx {
  import opened Ledger

  const N_PORTS: nat := 4
  const N_RX_BD: nat := 64
  const QUEUE_LEN: nat := 128
  const RX_BUF_LEN: nat := 1536
  const POOL: nat := 2048
  const U32: nat := 0x1_0000_0000

  /** Where a pool pbuf is. Being a function of the pbuf, it is in exactly one place. */
  datatype Place = Free | Armed(port: nat) | Queued(port: nat) | Hand | Stack

  datatype Port = Port(
    armed: seq<nat>,       // pbufs under hardware descriptors, oldest first
    rxQ: seq<nat>,         // the slots of rx_q
    head: nat,             // rx_q_head, written by the interrupt
    tail: nat,             // rx_q_tail, written by the main loop
    bdErr: nat, qDrop: nat, frames: nat, nobuf: nat, inputErr: nat, dmaErr: nat,
    reclaimed: nat,        // descriptors taken back from the hardware, ever
    entered: seq<nat>,     // pbufs put into the queue, in order
    left: seq<nat>)        // pbufs taken out of it, in order

  /** Where taxi_macif_input is. */
  datatype Main =
    | Out
    | Read(port: nat, pbuf: nat)       // slot read, tail not yet advanced
    | Advanced(port: nat, pbuf: nat)   // tail advanced, frame not yet counted
    | Counted(port: nat, pbuf: nat)    // about to call netif->input

  /** A call of netif->input: which port's frame, in which pbuf, how long, and whether the stack took it. */
  datatype Offer = Offer(port: nat, pbuf: nat, len: nat, ok: bool)

  datatype State = State(
    place: seq<Place>,
    ports: seq<Port>,
    main: Main,
    len: seq<nat>,         // how much of each pbuf is in use
    offered: seq<Offer>)   // what the stack has been offered, in order

  /** The status word and length the hardware leaves in a completed descriptor. */
  datatype Completion = Completion(error: bool, sof: bool, eof: bool, len: nat)

  /** An error, or a frame that did not fit in one buffer. */
  predicate Bad(c: Completion) {
    c.error || !c.sof || !c.eof || c.len == 0 || c.len > RX_BUF_LEN
  }

  /** How far the refill of one descriptor gets once the pool has a pbuf for it. */
  datatype Fault =
    | NoFault
    | Chained       // a pbuf of the wrong shape
    | NoBd          // the ring library hands out no descriptor
    | NotTaken      // or does not accept it for the hardware

  /** The pbuf the pool would rather hand out, and what goes wrong. */
  datatype Answer = Answer(hint: nat, fault: Fault)

  datatype Event =
    | Isr(port: nat, done: seq<Completion>, answers: seq<Answer>)
    | IsrError(port: nat, answers: seq<Answer>)   // the DMA engine reports an error
    | InputRead(port: nat)
    | InputAdvance
    | InputCount
    | InputDeliver(ok: bool)
    | StackAlloc(pbuf: nat)
    | StackFree(pbuf: nat)

  const EmptyPort := Port([], seq(QUEUE_LEN, _ => 0), 0, 0, 0, 0, 0, 0, 0, 0, 0, [], [])

  /** Before taxi_macif_init has filled any ring. */
  function Initial(): State {
    State(seq(POOL, _ => Free), seq(N_PORTS, _ => EmptyPort), Out, seq(POOL, _ => 0), [])
  }

  function Min(a: nat, b: nat): nat {
    if a < b then a else b
  }

  function Next(i: nat): nat {
    (i + 1) % QUEUE_LEN
  }

  function Count(head: nat, tail: nat): nat {
    (head - tail) % QUEUE_LEN
  }

  /** The queue's contents, oldest first. */
  function Contents(q: seq<nat>, head: nat, tail: nat): seq<nat>
    requires |q| == QUEUE_LEN
  {
    seq(Count(head, tail), k requires 0 <= k < Count(head, tail) => q[(tail + k) % QUEUE_LEN])
  }

  function Waiting(t: Port): seq<nat>
    requires |t.rxQ| == QUEUE_LEN
  {
    Contents(t.rxQ, t.head, t.tail)
  }

  function Moved(s: State, b: nat, to: Place): State
    requires b < |s.place|
  {
    s.(place := s.place[b := to])
  }

  function WithPort(s: State, p: nat, t: Port): State
    requires p < |s.ports|
  {
    s.(ports := s.ports[p := t])
  }

  predicate Shaped(s: State) {
    && |s.place| == POOL && |s.ports| == N_PORTS && |s.len| == POOL
    && forall p :: 0 <= p < N_PORTS ==>
         |s.ports[p].rxQ| == QUEUE_LEN && s.ports[p].head < QUEUE_LEN && s.ports[p].tail < QUEUE_LEN
  }

  // ---------------------------------------------------------------- the interrupt

  /** Where the oldest reclaimed pbuf goes: an errored frame and a frame that finds the queue full are
      freed, any other is queued. */
  function Destination(t: Port, p: nat, bad: bool): Place {
    if bad || Next(t.head) == t.tail then Free else Queued(p)
  }

  function TakenBack(t: Port, bad: bool): Port
    requires |t.rxQ| == QUEUE_LEN && t.head < QUEUE_LEN && t.armed != []
  {
    var u := t.(armed := t.armed[1..], reclaimed := t.reclaimed + 1);
    if bad then u.(bdErr := (t.bdErr + 1) % U32)
    else if Next(t.head) == t.tail then u.(qDrop := (t.qDrop + 1) % U32)
    else u.(rxQ := t.rxQ[t.head := t.armed[0]], head := Next(t.head), entered := t.entered + [t.armed[0]])
  }

  /** One turn of the loop in taxi_macif_rx_isr. */
  function ReclaimOne(s: State, p: nat, c: Completion): (r: State)
    requires Shaped(s) && p < N_PORTS
    ensures Shaped(r)
  {
    var t := s.ports[p];
    if t.armed == [] || t.armed[0] >= POOL then s
    else
      WithPort(Moved(s, t.armed[0], Destination(t, p, Bad(c))), p, TakenBack(t, Bad(c)))
        .(len := if Bad(c) then s.len else s.len[t.armed[0] := c.len])
  }

  function ReclaimAll(s: State, p: nat, done: seq<Completion>): (r: State)
    requires Shaped(s) && p < N_PORTS
    ensures Shaped(r)
    decreases done
  {
    if done == [] then s else ReclaimAll(ReclaimOne(s, p, done[0]), p, done[1..])
  }

  /** A free pbuf, the hinted one if it is free; none only when the pool is empty. */
  function Alloc(place: seq<Place>, hint: nat): (r: Option<nat>)
    ensures r.Some? ==> r.value < |place| && place[r.value] == Free
    ensures r.None? ==> forall i :: 0 <= i < |place| ==> place[i] != Free
  {
    if hint < |place| && place[hint] == Free then Some(hint) else FirstFree(place)
  }

  function FirstFree(place: seq<Place>): (r: Option<nat>)
    ensures r.Some? ==> r.value < |place| && place[r.value] == Free
    ensures r.None? ==> forall i :: 0 <= i < |place| ==> place[i] != Free
  {
    if place == [] then None
    else if place[|place| - 1] == Free then Some(|place| - 1)
    else FirstFree(place[..|place| - 1])
  }

  /** What the next allocation meets; nothing goes wrong where nothing is said. */
  function First(answers: seq<Answer>): Answer {
    if answers == [] then Answer(0, NoFault) else answers[0]
  }

  function Rest(answers: seq<Answer>): seq<Answer> {
    if answers == [] then [] else answers[1..]
  }

  function Starved(t: Port): Port {
    t.(nobuf := (t.nobuf + 1) % U32)
  }

  /** setup_rx_bds: arm every free descriptor, or stop at the first pbuf the pool refuses, the first of the
      wrong shape, or the first descriptor the ring library refuses. What was allocated is freed again. */
  function Refill(s: State, p: nat, answers: seq<Answer>): (r: State)
    requires Shaped(s) && p < N_PORTS
    ensures Shaped(r)
    decreases N_RX_BD - |s.ports[p].armed|
  {
    var t := s.ports[p];
    if |t.armed| >= N_RX_BD then s
    else
      var a := First(answers);
      var b := Alloc(s.place, a.hint);
      if b.None? || a.fault == Chained then WithPort(s, p, Starved(t))
      else if a.fault != NoFault then s
      else Refill(Arm(s, p, b.value), p, Rest(answers))
  }

  function Erred(t: Port): Port {
    t.(dmaErr := (t.dmaErr + 1) % U32)
  }

  /** The error branch of taxi_macif_rx_isr: no completed descriptor is taken back. */
  function ErrorStep(s: State, p: nat, answers: seq<Answer>): (r: State)
    requires Shaped(s) && p < N_PORTS
    ensures Shaped(r)
  {
    Refill(WithPort(s, p, Erred(s.ports[p])), p, answers)
  }

  function Arm(s: State, p: nat, b: nat): (r: State)
    requires Shaped(s) && p < N_PORTS && b < POOL
    ensures Shaped(r)
  {
    WithPort(Moved(s, b, Armed(p)), p, s.ports[p].(armed := s.ports[p].armed + [b]))
  }

  // ---------------------------------------------------------------- the main loop

  /** The loop condition of taxi_macif_input and the read of the slot. */
  function InputReadStep(s: State, p: nat): (r: State)
    requires Shaped(s) && p < N_PORTS && s.ports[p].head != s.ports[p].tail
    ensures Shaped(r)
  {
    s.(main := Read(p, s.ports[p].rxQ[s.ports[p].tail]))
  }

  function InputAdvanceStep(s: State): (r: State)
    requires Shaped(s) && s.main.Read? && s.main.port < N_PORTS && s.main.pbuf < POOL
    ensures Shaped(r)
  {
    var Read(p, b) := s.main;
    var t := s.ports[p];
    WithPort(Moved(s, b, Hand), p, t.(tail := Next(t.tail), left := t.left + [b])).(main := Advanced(p, b))
  }

  function InputCountStep(s: State): (r: State)
    requires Shaped(s) && s.main.Advanced? && s.main.port < N_PORTS
    ensures Shaped(r)
  {
    var Advanced(p, b) := s.main;
    var t := s.ports[p];
    WithPort(s, p, t.(frames := (t.frames + 1) % U32)).(main := Counted(p, b))
  }

  /** netif->input takes the pbuf, or refuses it and the driver frees it. */
  function InputDeliverStep(s: State, ok: bool): (r: State)
    requires Shaped(s) && s.main.Counted? && s.main.port < N_PORTS && s.main.pbuf < POOL
    ensures Shaped(r)
  {
    var Counted(p, b) := s.main;
    var t := s.ports[p];
    WithPort(Moved(s, b, if ok then Stack else Free), p,
             if ok then t else t.(inputErr := (t.inputErr + 1) % U32))
      .(main := Out, offered := s.offered + [Offer(p, b, s.len[b], ok)])
  }

  predicate Enabled(s: State, e: Event) {
    && Shaped(s)
    && match e
       case IsrError(p, _) => p < N_PORTS
       case Isr(p, done, _) => p < N_PORTS && |done| <= |s.ports[p].armed|
       case InputRead(p) => s.main == Out && p < N_PORTS && s.ports[p].head != s.ports[p].tail
       case InputAdvance => s.main.Read? && s.main.port < N_PORTS && s.main.pbuf < POOL
       case InputCount => s.main.Advanced? && s.main.port < N_PORTS
       case InputDeliver(_) => s.main.Counted? && s.main.port < N_PORTS && s.main.pbuf < POOL
       case StackAlloc(b) => b < POOL && s.place[b] == Free
       case StackFree(b) => b < POOL && s.place[b] == Stack
  }

  function Step(s: State, e: Event): (r: State)
    requires Enabled(s, e)
    ensures Shaped(r)
  {
    match e
    case Isr(p, done, answers) => Refill(ReclaimAll(s, p, done), p, answers)
    case IsrError(p, answers) => ErrorStep(s, p, answers)
    case InputRead(p) => InputReadStep(s, p)
    case InputAdvance => InputAdvanceStep(s)
    case InputCount => InputCountStep(s)
    case InputDeliver(ok) => InputDeliverStep(s, ok)
    case StackAlloc(b) => Moved(s, b, Stack)
    case StackFree(b) => Moved(s, b, Free)
  }

  // ---------------------------------------------------------------- counting places

  function Number(place: seq<Place>, x: Place): nat {
    if place == [] then 0
    else Number(place[..|place| - 1], x) + (if place[|place| - 1] == x then 1 else 0)
  }

  lemma {:induction false} NumberMoved(place: seq<Place>, b: nat, to: Place, x: Place)
    requires b < |place|
    ensures Number(place[b := to], x)
         == Number(place, x) - (if place[b] == x then 1 else 0) + (if to == x then 1 else 0)
    ensures place[b] == x ==> Number(place, x) > 0
    decreases |place|
  {
    var n := |place| - 1;
    var r := place[b := to];
    if b == n {
      assert r[..n] == place[..n];
    } else {
      assert r[..n] == place[..n][b := to];
      NumberMoved(place[..n], b, to, x);
    }
  }

  lemma {:induction false} NoneLeft(place: seq<Place>, x: Place)
    ensures Number(place, x) == 0 <==> forall i :: 0 <= i < |place| ==> place[i] != x
    decreases |place|
  {
    if place != [] {
      var n := |place| - 1;
      NoneLeft(place[..n], x);
      if Number(place, x) == 0 {
        forall i | 0 <= i < |place| ensures place[i] != x {
          if i < n { assert place[..n][i] == place[i]; }
        }
      } else if place[n] != x {
        var i :| 0 <= i < n && place[..n][i] == x;
        assert place[i] == x;
      }
    }
  }

  predicate Sensible(x: Place) {
    (x.Armed? || x.Queued?) ==> x.port < N_PORTS
  }

  function AtPort(place: seq<Place>, p: nat): nat {
    Number(place, Armed(p)) + Number(place, Queued(p))
  }

  function Everywhere(place: seq<Place>): nat {
    Number(place, Free) + Number(place, Hand) + Number(place, Stack)
    + AtPort(place, 0) + AtPort(place, 1) + AtPort(place, 2) + AtPort(place, 3)
  }

  lemma AtPortGrows(place: seq<Place>, p: nat)
    requires place != []
    ensures var n := |place| - 1;
            AtPort(place, p) == AtPort(place[..n], p) + if place[n] == Armed(p) || place[n] == Queued(p) then 1 else 0
  {
  }

  /** The places partition the pool. */
  lemma {:induction false} PlacesPartition(place: seq<Place>)
    requires forall i :: 0 <= i < |place| ==> Sensible(place[i])
    ensures |place| == Everywhere(place)
    decreases |place|
  {
    if place != [] {
      var n := |place| - 1;
      PlacesPartition(place[..n]);
      AtPortGrows(place, 0);
      AtPortGrows(place, 1);
      AtPortGrows(place, 2);
      AtPortGrows(place, 3);
      assert Sensible(place[n]);
    }
  }

  // ---------------------------------------------------------------- lists and places

  ghost predicate Distinct(q: seq<nat>) {
    forall i, j :: 0 <= i < j < |q| ==> q[i] != q[j]
  }

  /** A list holds every pbuf that is at place `x`, once. */
  ghost predicate ListAt(place: seq<Place>, list: seq<nat>, x: Place) {
    && Distinct(list)
    && (forall b <- list :: b < |place| && place[b] == x)
    && Number(place, x) == |list|
  }

  lemma ListKept(place: seq<Place>, list: seq<nat>, x: Place, b: nat, to: Place)
    requires ListAt(place, list, x) && b < |place| && place[b] != x && to != x
    ensures ListAt(place[b := to], list, x)
  {
    NumberMoved(place, b, to, x);
  }

  lemma ListPopped(place: seq<Place>, list: seq<nat>, x: Place, to: Place)
    requires ListAt(place, list, x) && list != [] && to != x
    ensures list[0] < |place| && place[list[0]] == x
    ensures ListAt(place[list[0] := to], list[1..], x)
  {
    assert list[0] in list;
    NumberMoved(place, list[0], to, x);
    forall c <- list[1..] ensures c in list && c != list[0] {
      var i :| 0 <= i < |list[1..]| && list[1..][i] == c;
      assert list[i + 1] == c;
    }
  }

  lemma ListPushed(place: seq<Place>, list: seq<nat>, x: Place, b: nat)
    requires ListAt(place, list, x) && b < |place| && place[b] != x
    ensures ListAt(place[b := x], list + [b], x)
  {
    NumberMoved(place, b, x, x);
  }

  lemma Pushed(q: seq<nat>, head: nat, tail: nat, b: nat)
    requires |q| == QUEUE_LEN && head < QUEUE_LEN && tail < QUEUE_LEN && Next(head) != tail
    ensures Contents(q[head := b], Next(head), tail) == Contents(q, head, tail) + [b]
  {
    var n := Count(head, tail);
    assert Count(Next(head), tail) == n + 1;
    var c := Contents(q[head := b], Next(head), tail);
    assert (tail + n) % QUEUE_LEN == head;
    forall k | 0 <= k < n ensures c[k] == Contents(q, head, tail)[k] {
      assert (tail + k) % QUEUE_LEN != head;
    }
  }

  lemma Popped(q: seq<nat>, head: nat, tail: nat)
    requires |q| == QUEUE_LEN && head < QUEUE_LEN && tail < QUEUE_LEN && head != tail
    ensures Contents(q, head, tail) != [] && Contents(q, head, tail)[0] == q[tail]
    ensures Contents(q, head, Next(tail)) == Contents(q, head, tail)[1..]
  {
    var n := Count(head, tail);
    assert Count(head, Next(tail)) == n - 1;
    var c := Contents(q, head, Next(tail));
    forall k | 0 <= k < n - 1 ensures c[k] == Contents(q, head, tail)[k + 1] {
      assert (Next(tail) + k) % QUEUE_LEN == (tail + (k + 1)) % QUEUE_LEN;
    }
  }

  lemma QueueFull(head: nat, tail: nat)
    requires head < QUEUE_LEN && tail < QUEUE_LEN
    ensures Next(head) == tail <==> Count(head, tail) == QUEUE_LEN - 1
  {
  }

  // ---------------------------------------------------------------- invariants

  ghost predicate PortOk(place: seq<Place>, p: nat, t: Port) {
    && |t.rxQ| == QUEUE_LEN && t.head < QUEUE_LEN && t.tail < QUEUE_LEN
    && |t.armed| <= N_RX_BD
    && ListAt(place, t.armed, Armed(p))
    && ListAt(place, Waiting(t), Queued(p))
    && t.entered == t.left + Waiting(t)
  }

  /** Frames taken off the queue and not yet counted. */
  function InHand(m: Main, p: nat): nat {
    if m.Advanced? && m.port == p then 1 else 0
  }

  /** Every reclaimed descriptor is an error, a drop, a delivered frame, queued, or in hand. */
  predicate TallyOk(t: Port, hand: nat)
    requires |t.rxQ| == QUEUE_LEN
  {
    (t.bdErr + t.qDrop + t.frames + |Waiting(t)| + hand) % U32 == t.reclaimed % U32
  }

  predicate HoldsOne(m: Main) {
    m.Advanced? || m.Counted?
  }

  ghost predicate MainOk(s: State)
    requires Shaped(s)
  {
    && (s.main != Out ==> s.main.port < N_PORTS && s.main.pbuf < POOL)
    && (s.main.Read? ==>
          Waiting(s.ports[s.main.port]) != [] && Waiting(s.ports[s.main.port])[0] == s.main.pbuf)
    && (HoldsOne(s.main) ==> s.place[s.main.pbuf] == Hand)
    && Number(s.place, Hand) == (if HoldsOne(s.main) then 1 else 0)
  }

  ghost predicate Inv(s: State) {
    && Shaped(s)
    && (forall b :: 0 <= b < POOL ==> Sensible(s.place[b]))
    && (forall p :: 0 <= p < N_PORTS ==> PortOk(s.place, p, s.ports[p]) && TallyOk(s.ports[p], InHand(s.main, p)))
    && MainOk(s)
  }

  /** Moving a pbuf between places that are not a port's leaves that port alone. */
  lemma PortKept(place: seq<Place>, p: nat, t: Port, b: nat, to: Place)
    requires PortOk(place, p, t) && b < |place|
    requires place[b] != Armed(p) && place[b] != Queued(p) && to != Armed(p) && to != Queued(p)
    ensures PortOk(place[b := to], p, t)
  {
    ListKept(place, t.armed, Armed(p), b, to);
    ListKept(place, Waiting(t), Queued(p), b, to);
  }

  lemma OthersKept(s: State, p: nat, b: nat, to: Place)
    requires Shaped(s) && p < N_PORTS && b < POOL
    requires forall r :: 0 <= r < N_PORTS ==> PortOk(s.place, r, s.ports[r])
    requires forall r :: 0 <= r < N_PORTS && r != p ==>
               s.place[b] != Armed(r) && s.place[b] != Queued(r) && to != Armed(r) && to != Queued(r)
    ensures forall r :: 0 <= r < N_PORTS && r != p ==> PortOk(s.place[b := to], r, s.ports[r])
  {
    forall r | 0 <= r < N_PORTS && r != p ensures PortOk(s.place[b := to], r, s.ports[r]) {
      PortKept(s.place, r, s.ports[r], b, to);
    }
  }

  lemma HandKept(s: State, b: nat, to: Place)
    requires Shaped(s) && MainOk(s) && b < POOL && s.place[b] != Hand && to != Hand
    ensures Number(s.place[b := to], Hand) == Number(s.place, Hand)
    ensures HoldsOne(s.main) ==> s.place[b := to][s.main.pbuf] == Hand
  {
    NumberMoved(s.place, b, to, Hand);
  }

  lemma Bumped(x: nat, rest: nat, total: nat)
    requires (x + rest) % U32 == total % U32
    ensures ((x + 1) % U32 + rest) % U32 == (total + 1) % U32
  {
    Shifted(x + 1, rest);
    SumsAgree(x + rest, total, 1);
  }

  lemma SumsAgree(a: nat, b: nat, c: nat)
    requires a % U32 == b % U32
    ensures (a + c) % U32 == (b + c) % U32
  {
    Shifted(a, c);
    Shifted(b, c);
  }

  lemma Shifted(a: nat, c: nat)
    ensures (a + c) % U32 == (a % U32 + c) % U32
  {
    assert a + c == U32 * (a / U32) + (a % U32 + c);
  }

  lemma FreedTally(t: Port, bad: bool, hand: nat)
    requires |t.rxQ| == QUEUE_LEN && t.head < QUEUE_LEN && t.armed != [] && TallyOk(t, hand)
    requires bad || Next(t.head) == t.tail
    ensures TallyOk(TakenBack(t, bad), hand)
  {
    if bad {
      Bumped(t.bdErr, t.qDrop + t.frames + |Waiting(t)| + hand, t.reclaimed);
    } else {
      Bumped(t.qDrop, t.bdErr + t.frames + |Waiting(t)| + hand, t.reclaimed);
    }
  }

  lemma FreedPort(place: seq<Place>, p: nat, t: Port, bad: bool)
    requires PortOk(place, p, t) && t.armed != [] && (bad || Next(t.head) == t.tail)
    ensures var b, u := t.armed[0], TakenBack(t, bad);
            b < |place| && place[b] == Armed(p) && PortOk(place[b := Free], p, u)
  {
    var b := t.armed[0];
    ListPopped(place, t.armed, Armed(p), Free);
    ListKept(place, Waiting(t), Queued(p), b, Free);
  }

  lemma QueuedPort(place: seq<Place>, p: nat, t: Port)
    requires PortOk(place, p, t) && t.armed != [] && Next(t.head) != t.tail
    ensures var b, u := t.armed[0], TakenBack(t, false);
            && b < |place| && place[b] == Armed(p) && PortOk(place[b := Queued(p)], p, u)
            && Waiting(u) == Waiting(t) + [b]
  {
    var b := t.armed[0];
    ListPopped(place, t.armed, Armed(p), Queued(p));
    Pushed(t.rxQ, t.head, t.tail, b);
    ListPushed(place, Waiting(t), Queued(p), b);
    assert t.entered + [b] == t.left + (Waiting(t) + [b]);
  }

  lemma QueuedTally(t: Port, hand: nat)
    requires |t.rxQ| == QUEUE_LEN && t.head < QUEUE_LEN && t.armed != [] && TallyOk(t, hand)
    requires |Waiting(TakenBack(t, false))| == |Waiting(t)| + 1 && Next(t.head) != t.tail
    ensures TallyOk(TakenBack(t, false), hand)
  {
    SumsAgree(t.bdErr + t.qDrop + t.frames + |Waiting(t)| + hand, t.reclaimed, 1);
  }

  lemma ReclaimedPort(place: seq<Place>, p: nat, t: Port, bad: bool, hand: nat)
    requires PortOk(place, p, t) && t.armed != [] && TallyOk(t, hand)
    ensures var b, u := t.armed[0], TakenBack(t, bad);
            && b < |place| && place[b] == Armed(p)
            && PortOk(place[b := Destination(t, p, bad)], p, u) && TallyOk(u, hand)
            && Waiting(u) == if bad || Next(t.head) == t.tail then Waiting(t) else Waiting(t) + [b]
  {
    if bad || Next(t.head) == t.tail {
      FreedPort(place, p, t, bad);
      FreedTally(t, bad, hand);
    } else {
      QueuedPort(place, p, t);
      QueuedTally(t, hand);
    }
  }

  /** The lengths in use are no part of the invariant. */
  lemma LengthsAreFree(s: State, len: seq<nat>)
    requires Inv(s) && |len| == POOL
    ensures Inv(s.(len := len))
  {
    var t := s.(len := len);
    assert forall p :: 0 <= p < N_PORTS ==> PortOk(t.place, p, t.ports[p]) && TallyOk(t.ports[p], InHand(t.main, p));
  }

  lemma TakenBackKeeps(s: State, p: nat, bad: bool)
    requires Inv(s) && p < N_PORTS && s.ports[p].armed != []
    ensures s.ports[p].armed[0] < POOL
    ensures var t := s.ports[p];
            Inv(WithPort(Moved(s, t.armed[0], Destination(t, p, bad)), p, TakenBack(t, bad)))
  {
    var t := s.ports[p];
    ReclaimedPort(s.place, p, t, bad, InHand(s.main, p));
    OthersKept(s, p, t.armed[0], Destination(t, p, bad));
    HandKept(s, t.armed[0], Destination(t, p, bad));
  }

  lemma ReclaimOneKeeps(s: State, p: nat, c: Completion)
    requires Inv(s) && p < N_PORTS && s.ports[p].armed != []
    ensures s.ports[p].armed[0] < POOL
    ensures Inv(ReclaimOne(s, p, c))
    ensures ReclaimOne(s, p, c).ports[p].armed == s.ports[p].armed[1..]
  {
    var t := s.ports[p];
    TakenBackKeeps(s, p, Bad(c));
    var r := WithPort(Moved(s, t.armed[0], Destination(t, p, Bad(c))), p, TakenBack(t, Bad(c)));
    LengthsAreFree(r, if Bad(c) then s.len else s.len[t.armed[0] := c.len]);
  }

  lemma ArmedPort(place: seq<Place>, p: nat, t: Port, b: nat)
    requires PortOk(place, p, t) && b < |place| && place[b] == Free && |t.armed| < N_RX_BD
    ensures PortOk(place[b := Armed(p)], p, t.(armed := t.armed + [b]))
  {
    ListPushed(place, t.armed, Armed(p), b);
    ListKept(place, Waiting(t), Queued(p), b, Armed(p));
  }

  lemma ArmKeeps(s: State, p: nat, b: nat)
    requires Inv(s) && p < N_PORTS && b < POOL && s.place[b] == Free && |s.ports[p].armed| < N_RX_BD
    ensures Inv(Arm(s, p, b))
  {
    ArmedPort(s.place, p, s.ports[p], b);
    OthersKept(s, p, b, Armed(p));
    HandKept(s, b, Armed(p));
    assert Waiting(Arm(s, p, b).ports[p]) == Waiting(s.ports[p]);
  }

  lemma {:induction false} ReclaimAllKeeps(s: State, p: nat, done: seq<Completion>)
    requires Inv(s) && p < N_PORTS && |done| <= |s.ports[p].armed|
    ensures Inv(ReclaimAll(s, p, done))
    ensures ReclaimAll(s, p, done).ports[p].armed == s.ports[p].armed[|done|..]
    decreases done
  {
    if done != [] {
      ReclaimOneKeeps(s, p, done[0]);
      ReclaimAllKeeps(ReclaimOne(s, p, done[0]), p, done[1..]);
    }
  }

  /** Counting something else leaves a port in order. */
  lemma CountedPort(s: State, p: nat, u: Port)
    requires Inv(s) && p < N_PORTS && u == s.ports[p].(nobuf := u.nobuf, dmaErr := u.dmaErr)
    ensures Inv(WithPort(s, p, u))
  {
    assert Waiting(u) == Waiting(s.ports[p]);
    assert PortOk(s.place, p, s.ports[p]) && TallyOk(s.ports[p], InHand(s.main, p));
  }

  lemma {:induction false} RefillKeeps(s: State, p: nat, answers: seq<Answer>)
    requires Inv(s) && p < N_PORTS
    ensures Inv(Refill(s, p, answers))
    decreases N_RX_BD - |s.ports[p].armed|
  {
    var t := s.ports[p];
    if |t.armed| < N_RX_BD {
      var a := First(answers);
      var b := Alloc(s.place, a.hint);
      if b.None? || a.fault == Chained {
        CountedPort(s, p, Starved(t));
      } else if a.fault == NoFault {
        ArmKeeps(s, p, b.value);
        RefillKeeps(Arm(s, p, b.value), p, Rest(answers));
      }
    }
  }

  lemma ErrorKeeps(s: State, p: nat, answers: seq<Answer>)
    requires Inv(s) && p < N_PORTS
    ensures Inv(ErrorStep(s, p, answers))
  {
    CountedPort(s, p, Erred(s.ports[p]));
    RefillKeeps(WithPort(s, p, Erred(s.ports[p])), p, answers);
  }

  /** How many of the next `n` allocations come before the first fault. */
  function Granted(answers: seq<Answer>, n: nat): (m: nat)
    ensures m <= n
    decreases n
  {
    if n == 0 || First(answers).fault != NoFault then 0 else 1 + Granted(Rest(answers), n - 1)
  }

  predicate AllGranted(answers: seq<Answer>, n: int) {
    forall i :: 0 <= i < n && i < |answers| ==> answers[i].fault == NoFault
  }

  lemma {:induction false} GrantedIff(answers: seq<Answer>, n: nat)
    ensures Granted(answers, n) == n <==> AllGranted(answers, n)
    decreases n
  {
    if n > 0 {
      GrantedIff(Rest(answers), n - 1);
      forall i | 0 < i < |answers| ensures answers[i] == Rest(answers)[i - 1] { }
      if answers != [] && answers[0].fault == NoFault && AllGranted(Rest(answers), n - 1) {
        forall i | 0 <= i < n && i < |answers| ensures answers[i].fault == NoFault {
          if i > 0 { assert Rest(answers)[i - 1].fault == NoFault; }
        }
      }
      if answers != [] && AllGranted(answers, n) {
        forall i | 0 <= i < n - 1 && i < |Rest(answers)| ensures Rest(answers)[i].fault == NoFault {
          assert answers[i + 1].fault == NoFault;
        }
      }
    }
  }

  lemma ArmCounts(s: State, p: nat, b: nat)
    requires Shaped(s) && p < N_PORTS && b < POOL && s.place[b] == Free
    ensures var r := Arm(s, p, b);
            |r.ports[p].armed| == |s.ports[p].armed| + 1 && Number(r.place, Free) == Number(s.place, Free) - 1
  {
    NumberMoved(s.place, b, Armed(p), Free);
  }

  lemma AllocIff(place: seq<Place>, hint: nat)
    ensures Alloc(place, hint).Some? <==> Number(place, Free) > 0
  {
    NoneLeft(place, Free);
  }

  lemma GrantOne(answers: seq<Answer>, n: nat)
    requires n > 0 && First(answers).fault == NoFault
    ensures Granted(answers, n) == 1 + Granted(Rest(answers), n - 1)
  {
  }

  /** One turn of the refill. */
  lemma RefillStops(s: State, p: nat, answers: seq<Answer>)
    requires Shaped(s) && p < N_PORTS
    requires |s.ports[p].armed| >= N_RX_BD || Number(s.place, Free) == 0 || First(answers).fault != NoFault
    ensures |Refill(s, p, answers).ports[p].armed| == |s.ports[p].armed|
  {
    AllocIff(s.place, First(answers).hint);
  }

  lemma RefillGoesOn(s: State, p: nat, answers: seq<Answer>) returns (r: State)
    requires Shaped(s) && p < N_PORTS
    requires |s.ports[p].armed| < N_RX_BD && Number(s.place, Free) > 0 && First(answers).fault == NoFault
    ensures Shaped(r) && Refill(s, p, answers) == Refill(r, p, Rest(answers))
    ensures |r.ports[p].armed| == |s.ports[p].armed| + 1 && Number(r.place, Free) == Number(s.place, Free) - 1
  {
    AllocIff(s.place, First(answers).hint);
    var b := Alloc(s.place, First(answers).hint).value;
    ArmCounts(s, p, b);
    r := Arm(s, p, b);
  }

  lemma {:induction false} RefillCountsFrom(s: State, p: nat, answers: seq<Answer>, armed: nat, free: nat)
    requires Shaped(s) && p < N_PORTS && |s.ports[p].armed| == armed <= N_RX_BD && Number(s.place, Free) == free
    ensures |Refill(s, p, answers).ports[p].armed| == armed + Granted(answers, Min(N_RX_BD - armed, free))
    decreases N_RX_BD - armed
  {
    if armed < N_RX_BD && free > 0 && First(answers).fault == NoFault {
      GrantNext(answers, N_RX_BD - armed, free);
      var r := RefillGoesOn(s, p, answers);
      RefillCountsFrom(r, p, Rest(answers), armed + 1, free - 1);
    } else {
      GrantsNone(answers, N_RX_BD - armed, free);
      RefillStops(s, p, answers);
    }
  }

  /** A refill arms every free descriptor, or as many as the pool has pbufs for, or as many as come before
      the first fault. */
  lemma RefillCounts(s: State, p: nat, answers: seq<Answer>)
    requires Shaped(s) && p < N_PORTS && |s.ports[p].armed| <= N_RX_BD
    ensures |Refill(s, p, answers).ports[p].armed|
         == |s.ports[p].armed| + Granted(answers, Min(N_RX_BD - |s.ports[p].armed|, Number(s.place, Free)))
  {
    RefillCountsFrom(s, p, answers, |s.ports[p].armed|, Number(s.place, Free));
  }

  lemma GrantNext(answers: seq<Answer>, missing: nat, free: nat)
    requires missing > 0 && free > 0 && First(answers).fault == NoFault
    ensures Granted(answers, Min(missing, free)) == 1 + Granted(Rest(answers), Min(missing - 1, free - 1))
  {
    GrantOne(answers, Min(missing, free));
  }

  lemma GrantsNone(answers: seq<Answer>, missing: nat, free: nat)
    requires missing == 0 || free == 0 || First(answers).fault != NoFault
    ensures Granted(answers, Min(missing, free)) == 0
  {
  }

  /** So it arms them all exactly when the pool has enough and nothing goes wrong on the way. */
  lemma RefillFillsIff(s: State, p: nat, answers: seq<Answer>)
    requires Shaped(s) && p < N_PORTS && |s.ports[p].armed| <= N_RX_BD
    ensures var missing := N_RX_BD - |s.ports[p].armed|;
            |Refill(s, p, answers).ports[p].armed| == N_RX_BD
            <==> Number(s.place, Free) >= missing && AllGranted(answers, missing)
  {
    RefillCounts(s, p, answers);
    GrantedIff(answers, N_RX_BD - |s.ports[p].armed|);
  }

  lemma AdvancedPort(place: seq<Place>, p: nat, t: Port, b: nat)
    requires PortOk(place, p, t) && t.head != t.tail && Waiting(t)[0] == b
    ensures b < |place| && place[b] == Queued(p)
    ensures var u := t.(tail := Next(t.tail), left := t.left + [b]);
            PortOk(place[b := Hand], p, u) && |Waiting(u)| == |Waiting(t)| - 1
  {
    Popped(t.rxQ, t.head, t.tail);
    ListPopped(place, Waiting(t), Queued(p), Hand);
    ListKept(place, t.armed, Armed(p), b, Hand);
    assert t.left + Waiting(t) == (t.left + [b]) + Waiting(t)[1..];
  }

  lemma AdvanceKeeps(s: State)
    requires Inv(s) && s.main.Read?
    ensures Inv(InputAdvanceStep(s))
  {
    var Read(p, b) := s.main;
    AdvancedPort(s.place, p, s.ports[p], b);
    OthersKept(s, p, b, Hand);
    NumberMoved(s.place, b, Hand, Hand);
  }

  lemma DeliverKeeps(s: State, ok: bool)
    requires Inv(s) && s.main.Counted?
    ensures Inv(InputDeliverStep(s, ok))
  {
    var Counted(p, b) := s.main;
    var to := if ok then Stack else Free;
    OthersKept(s, p, b, to);
    PortKept(s.place, p, s.ports[p], b, to);
    NumberMoved(s.place, b, to, Hand);
  }

  lemma StackKeeps(s: State, b: nat, to: Place)
    requires Inv(s) && b < POOL && to in {Free, Stack} && s.place[b] in {Free, Stack}
    ensures Inv(Moved(s, b, to))
  {
    OthersKept(s, N_PORTS - 1, b, to);
    PortKept(s.place, N_PORTS - 1, s.ports[N_PORTS - 1], b, to);
    HandKept(s, b, to);
  }

  lemma ReadKeeps(s: State, p: nat)
    requires Inv(s) && s.main == Out && p < N_PORTS && s.ports[p].head != s.ports[p].tail
    ensures Inv(InputReadStep(s, p))
  {
    var t := s.ports[p];
    Popped(t.rxQ, t.head, t.tail);
    assert Waiting(t)[0] in Waiting(t);
  }

  lemma IsrKeeps(s: State, p: nat, done: seq<Completion>, answers: seq<Answer>)
    requires Inv(s) && p < N_PORTS && |done| <= |s.ports[p].armed|
    ensures Inv(Refill(ReclaimAll(s, p, done), p, answers))
  {
    ReclaimAllKeeps(s, p, done);
    RefillKeeps(ReclaimAll(s, p, done), p, answers);
  }

  lemma CountKeeps(s: State)
    requires Inv(s) && s.main.Advanced?
    ensures Inv(InputCountStep(s))
  {
    var t := s.ports[s.main.port];
    assert PortOk(s.place, s.main.port, t) && TallyOk(t, 1);
    Shifted(t.frames + 1, t.bdErr + t.qDrop + |Waiting(t)|);
  }

  lemma StepKeeps(s: State, e: Event)
    requires Inv(s) && Enabled(s, e)
    ensures Inv(Step(s, e))
  {
    match e
    case Isr(p, done, answers) => IsrKeeps(s, p, done, answers);
    case IsrError(p, answers) => ErrorKeeps(s, p, answers);
    case InputRead(p) => ReadKeeps(s, p);
    case InputAdvance => AdvanceKeeps(s);
    case InputCount => CountKeeps(s);
    case InputDeliver(ok) => DeliverKeeps(s, ok);
    case StackAlloc(b) => StackKeeps(s, b, Stack);
    case StackFree(b) => StackKeeps(s, b, Free);
  }

  lemma EmptyPortOk(place: seq<Place>, p: nat)
    requires Number(place, Armed(p)) == 0 && Number(place, Queued(p)) == 0
    ensures PortOk(place, p, EmptyPort) && TallyOk(EmptyPort, 0)
  {
  }

  lemma InitialOk()
    ensures Inv(Initial())
  {
    var place := Initial().place;
    forall x | x != Free ensures Number(place, x) == 0 { NoneLeft(place, x); }
    forall p | 0 <= p < N_PORTS ensures PortOk(place, p, EmptyPort) && TallyOk(EmptyPort, 0) { EmptyPortOk(place, p); }
  }

  // ---------------------------------------------------------------- what one interrupt does

  /** A frame of 1 to 1536 bytes, received without error and whole in its buffer. */
  predicate Whole(c: Completion) {
    !c.error && c.sof && c.eof && 1 <= c.len <= 1536
  }

  /** The pbufs of the completed descriptors that carry a good frame. */
  function Good(armed: seq<nat>, done: seq<Completion>): (g: seq<nat>)
    requires |done| <= |armed|
    ensures |g| <= |done|
  {
    if done == [] then [] else (if Whole(done[0]) then [armed[0]] else []) + Good(armed[1..], done[1..])
  }

  /** How many of `good` frames still find room. */
  function Fitting(t: Port, good: nat): nat
    requires |t.rxQ| == QUEUE_LEN && |Waiting(t)| < QUEUE_LEN
  {
    Min(good, QUEUE_LEN - 1 - |Waiting(t)|)
  }

  /** The good frames join the queue in the order of completion, as many as fit. */
  predicate JoinQueue(t: Port, u: Port, good: seq<nat>)
    requires |t.rxQ| == |u.rxQ| == QUEUE_LEN && |Waiting(t)| < QUEUE_LEN
  {
    var k := Fitting(t, |good|);
    u.entered == t.entered + good[..k] && u.left == t.left && |Waiting(u)| == |Waiting(t)| + k
  }

  /** Every other descriptor is counted as an error or a drop. */
  predicate Tallied(t: Port, u: Port, taken: nat, good: nat, fitting: nat)
    requires fitting <= good <= taken
  {
    && u.bdErr % U32 == (t.bdErr + taken - good) % U32 && u.qDrop % U32 == (t.qDrop + good - fitting) % U32
    && u.reclaimed == t.reclaimed + taken && u.frames == t.frames
  }

  /** From `t` to `u` the descriptors `armed` were taken back as `done`. */
  predicate HandedOff(t: Port, u: Port, armed: seq<nat>, done: seq<Completion>)
    requires |t.rxQ| == |u.rxQ| == QUEUE_LEN && |done| <= |armed|
  {
    var g := Good(armed, done);
    && |Waiting(t)| < QUEUE_LEN && JoinQueue(t, u, g)
    && Tallied(t, u, |done|, |g|, Fitting(t, |g|))
  }

  lemma OneHandedOff(t: Port, c: Completion)
    requires |t.rxQ| == QUEUE_LEN && t.head < QUEUE_LEN && t.tail < QUEUE_LEN && t.armed != []
    ensures HandedOff(t, TakenBack(t, Bad(c)), t.armed, [c])
  {
    var u := TakenBack(t, Bad(c));
    QueueFull(t.head, t.tail);
    assert Good(t.armed, [c]) == if Whole(c) then [t.armed[0]] else [];
    if Bad(c) || Next(t.head) == t.tail {
      assert Waiting(u) == Waiting(t);
      assert t.entered + [] == t.entered;
    } else {
      Pushed(t.rxQ, t.head, t.tail, t.armed[0]);
      assert [t.armed[0]][..1] == [t.armed[0]];
    }
  }

  lemma JoinTwice(t: Port, v: Port, u: Port, one: seq<nat>, rest: seq<nat>)
    requires |t.rxQ| == |v.rxQ| == |u.rxQ| == QUEUE_LEN && |Waiting(t)| < QUEUE_LEN && |Waiting(v)| < QUEUE_LEN
    requires JoinQueue(t, v, one) && JoinQueue(v, u, rest) && |one| <= 1
    ensures JoinQueue(t, u, one + rest)
    ensures Fitting(t, |one + rest|) == Fitting(t, |one|) + Fitting(v, |rest|)
  {
    var i, j, k := Fitting(t, |one|), Fitting(v, |rest|), Fitting(t, |one + rest|);
    assert k == i + j;
    assert (one + rest)[..k] == one[..i] + rest[..j];
    assert (t.entered + one[..i]) + rest[..j] == t.entered + (one + rest)[..k];
  }

  lemma TallyTwice(t: Port, v: Port, u: Port, m: nat, n: nat, g: nat, h: nat, i: nat, j: nat)
    requires i <= g <= m && j <= h <= n && Tallied(t, v, m, g, i) && Tallied(v, u, n, h, j)
    ensures Tallied(t, u, m + n, g + h, i + j)
  {
    SumsAgree(v.bdErr, t.bdErr + m - g, n - h);
    SumsAgree(v.qDrop, t.qDrop + g - i, h - j);
  }

  lemma HandedOffTwice(t: Port, v: Port, u: Port, armed: seq<nat>, done: seq<Completion>)
    requires |t.rxQ| == |v.rxQ| == |u.rxQ| == QUEUE_LEN && 0 < |done| <= |armed|
    requires HandedOff(t, v, armed, [done[0]]) && HandedOff(v, u, armed[1..], done[1..])
    ensures HandedOff(t, u, armed, done)
  {
    var one, h := Good(armed, [done[0]]), Good(armed[1..], done[1..]);
    assert one == if Whole(done[0]) then [armed[0]] else [];
    assert Good(armed, done) == one + h;
    JoinTwice(t, v, u, one, h);
    TallyTwice(t, v, u, 1, |done| - 1, |one|, |h|, Fitting(t, |one|), Fitting(v, |h|));
  }

  lemma NothingHandedOff(t: Port)
    requires |t.rxQ| == QUEUE_LEN && |Waiting(t)| < QUEUE_LEN
    ensures HandedOff(t, t, t.armed, [])
  {
    assert t.entered + [] == t.entered;
  }

  /** An interrupt appends the good frames to the queue in the order the hardware completed them, as
      many as fit, and counts every other descriptor as an error or a drop. */
  lemma {:induction false} InterruptHandsOff(s: State, p: nat, done: seq<Completion>)
    requires Inv(s) && p < N_PORTS && |done| <= |s.ports[p].armed|
    ensures HandedOff(s.ports[p], ReclaimAll(s, p, done).ports[p], s.ports[p].armed, done)
    decreases done
  {
    var t := s.ports[p];
    if done == [] {
      NothingHandedOff(t);
    } else {
      var r := ReclaimOne(s, p, done[0]);
      ReclaimOneKeeps(s, p, done[0]);
      OneHandedOff(t, done[0]);
      InterruptHandsOff(r, p, done[1..]);
      HandedOffTwice(t, r.ports[p], ReclaimAll(s, p, done).ports[p], t.armed, done);
    }
  }

  /** What an interrupt on one port leaves alone. */
  predicate Untouched(s: State, r: State, p: nat)
    requires Shaped(s) && Shaped(r)
  {
    && r.main == s.main && r.offered == s.offered
    && (forall q :: 0 <= q < N_PORTS && q != p ==> r.ports[q] == s.ports[q])
    && Number(r.place, Stack) == Number(s.place, Stack) && Number(r.place, Hand) == Number(s.place, Hand)
  }

  lemma {:induction false} ReclaimTouchesOnePort(s: State, p: nat, done: seq<Completion>)
    requires Inv(s) && p < N_PORTS && |done| <= |s.ports[p].armed|
    ensures Untouched(s, ReclaimAll(s, p, done), p)
    decreases done
  {
    if done != [] {
      var b := s.ports[p].armed[0];
      ReclaimOneKeeps(s, p, done[0]);
      assert b in s.ports[p].armed;
      NumberMoved(s.place, b, Free, Stack);
      NumberMoved(s.place, b, Free, Hand);
      NumberMoved(s.place, b, Queued(p), Stack);
      NumberMoved(s.place, b, Queued(p), Hand);
      ReclaimTouchesOnePort(ReclaimOne(s, p, done[0]), p, done[1..]);
    }
  }

  lemma {:induction false} RefillTouchesOnePort(s: State, p: nat, answers: seq<Answer>)
    requires Inv(s) && p < N_PORTS
    ensures Untouched(s, Refill(s, p, answers), p)
    ensures Waiting(Refill(s, p, answers).ports[p]) == Waiting(s.ports[p])
    decreases N_RX_BD - |s.ports[p].armed|
  {
    var t := s.ports[p];
    if |t.armed| < N_RX_BD {
      var a := First(answers);
      var b := Alloc(s.place, a.hint);
      if b.Some? && a.fault == NoFault {
        ArmKeeps(s, p, b.value);
        NumberMoved(s.place, b.value, Armed(p), Stack);
        NumberMoved(s.place, b.value, Armed(p), Hand);
        RefillTouchesOnePort(Arm(s, p, b.value), p, Rest(answers));
      }
    }
  }

  lemma UntouchedTwice(s: State, m: State, r: State, p: nat)
    requires Shaped(s) && Shaped(m) && Shaped(r) && Untouched(s, m, p) && Untouched(m, r, p)
    ensures Untouched(s, r, p)
  {
  }

  /** An error interrupt takes nothing back; it only refills. */
  lemma ErrorTouchesOnePort(s: State, p: nat, answers: seq<Answer>)
    requires Inv(s) && p < N_PORTS
    ensures Untouched(s, ErrorStep(s, p, answers), p)
    ensures Waiting(ErrorStep(s, p, answers).ports[p]) == Waiting(s.ports[p])
  {
    var c := WithPort(s, p, Erred(s.ports[p]));
    CountedPort(s, p, Erred(s.ports[p]));
    assert Untouched(s, c, p) && Waiting(c.ports[p]) == Waiting(s.ports[p]);
    RefillTouchesOnePort(c, p, answers);
    UntouchedTwice(s, c, ErrorStep(s, p, answers), p);
  }

  /** The pbufs a port holds. */
  function Held(t: Port): nat
    requires |t.rxQ| == QUEUE_LEN
  {
    |t.armed| + |Waiting(t)|
  }

  predicate AllAccounted(s: State)
    requires Shaped(s)
  {
    POOL == Number(s.place, Free) + Number(s.place, Stack) + Number(s.place, Hand)
          + Held(s.ports[0]) + Held(s.ports[1]) + Held(s.ports[2]) + Held(s.ports[3])
  }

  /** Every pool pbuf is in exactly one place: free, under a descriptor of one port, waiting in the
      queue of one port, in the main loop's hand, or with the stack. */
  lemma PbufsAreConserved(s: State)
    requires Inv(s)
    ensures AllAccounted(s)
    ensures forall p :: 0 <= p < N_PORTS ==> |s.ports[p].armed| <= N_RX_BD && |Waiting(s.ports[p])| < QUEUE_LEN
  {
    PlacesPartition(s.place);
    assert forall p :: 0 <= p < N_PORTS ==> PortOk(s.place, p, s.ports[p]);
    assert PortOk(s.place, 0, s.ports[0]) && PortOk(s.place, 1, s.ports[1]);
    assert PortOk(s.place, 2, s.ports[2]) && PortOk(s.place, 3, s.ports[3]);
  }

  lemma TakenFromRing(s: State, p: nat, done: seq<Completion>)
    requires Inv(s) && p < N_PORTS && |done| <= |s.ports[p].armed|
    ensures |ReclaimAll(s, p, done).ports[p].armed| == |s.ports[p].armed| - |done| <= N_RX_BD
  {
    ReclaimAllKeeps(s, p, done);
    assert PortOk(s.place, p, s.ports[p]);
  }

  /** An interrupt leaves every descriptor of its port armed exactly when the pool has a pbuf for each free
      one and nothing goes wrong in arming them. */
  lemma RefillCompletesIff(s: State, p: nat, done: seq<Completion>, answers: seq<Answer>)
    requires Inv(s) && Enabled(s, Isr(p, done, answers))
    ensures var r := ReclaimAll(s, p, done);
            var missing := N_RX_BD - |r.ports[p].armed|;
            |Step(s, Isr(p, done, answers)).ports[p].armed| == N_RX_BD
            <==> Number(r.place, Free) >= missing && AllGranted(answers, missing)
  {
    var r := ReclaimAll(s, p, done);
    TakenFromRing(s, p, done);
    RefillFillsIff(r, p, answers);
    assert Step(s, Isr(p, done, answers)) == Refill(r, p, answers);
  }

  /** The interrupt leaves every descriptor armed exactly when nothing goes wrong in arming them. */
  predicate RefillsIfGranted(s: State, p: nat, done: seq<Completion>, answers: seq<Answer>)
    requires Enabled(s, Isr(p, done, answers))
  {
    |Step(s, Isr(p, done, answers)).ports[p].armed| == N_RX_BD
    <==> AllGranted(answers, N_RX_BD - |s.ports[p].armed| + |done|)
  }

  lemma RoomForAll(r: State, p: nat)
    requires Inv(r) && p < N_PORTS
    requires Number(r.place, Stack) + Number(r.place, Hand) <= POOL - N_PORTS * (N_RX_BD + QUEUE_LEN - 1)
    ensures Number(r.place, Free) >= N_RX_BD - |r.ports[p].armed|
  {
    PbufsAreConserved(r);
    forall q | 0 <= q < N_PORTS && q != p ensures Held(r.ports[q]) <= N_RX_BD + QUEUE_LEN - 1 { }
    assert Held(r.ports[p]) <= |r.ports[p].armed| + QUEUE_LEN - 1;
  }

  lemma RoomAfter(s: State, p: nat, done: seq<Completion>)
    requires Inv(s) && p < N_PORTS && |done| <= |s.ports[p].armed|
    requires Number(s.place, Stack) + Number(s.place, Hand) <= POOL - N_PORTS * (N_RX_BD + QUEUE_LEN - 1)
    ensures var r := ReclaimAll(s, p, done);
            Shaped(r) && Number(r.place, Free) >= N_RX_BD - |r.ports[p].armed|
  {
    ReclaimAllKeeps(s, p, done);
    ReclaimTouchesOnePort(s, p, done);
    RoomForAll(ReclaimAll(s, p, done), p);
  }

  /** The pool is big enough as long as the stack and the main loop together hold no more than the
      rings and queues of all four ports leave over. */
  lemma RefillCompletes(s: State, p: nat, done: seq<Completion>, answers: seq<Answer>)
    requires Inv(s) && Enabled(s, Isr(p, done, answers))
    requires Number(s.place, Stack) + Number(s.place, Hand) <= POOL - N_PORTS * (N_RX_BD + QUEUE_LEN - 1)
    ensures RefillsIfGranted(s, p, done, answers)
  {
    TakenFromRing(s, p, done);
    RoomAfter(s, p, done);
    RefillCompletesIff(s, p, done, answers);
  }

  // ---------------------------------------------------------------- runs

  predicate Legal(s: State, es: seq<Event>)
    decreases es
  {
    es == [] || (Enabled(s, es[0]) && Legal(Step(s, es[0]), es[1..]))
  }

  function Run(s: State, es: seq<Event>): (r: State)
    requires Shaped(s) && Legal(s, es)
    ensures Shaped(r)
    decreases es
  {
    if es == [] then s else Run(Step(s, es[0]), es[1..])
  }

  lemma {:induction false} RunKeeps(s: State, es: seq<Event>)
    requires Inv(s) && Legal(s, es)
    ensures Inv(Run(s, es))
    decreases es
  {
    if es != [] {
      StepKeeps(s, es[0]);
      RunKeeps(Step(s, es[0]), es[1..]);
    }
  }

  lemma {:induction false} RunOneMore(s: State, es: seq<Event>, e: Event)
    requires Shaped(s) && Legal(s, es) && Enabled(Run(s, es), e)
    ensures Legal(s, es + [e]) && Run(s, es + [e]) == Step(Run(s, es), e)
    decreases es
  {
    if es == [] {
      assert es + [e] == [e] && [e][1..] == [];
    } else {
      assert (es + [e])[1..] == es[1..] + [e];
      RunOneMore(Step(s, es[0]), es[1..], e);
    }
  }

  lemma QueueIsAFifo(s: State, p: nat)
    requires Inv(s) && p < N_PORTS
    ensures s.ports[p].entered == s.ports[p].left + Waiting(s.ports[p])
    ensures |Waiting(s.ports[p])| <= QUEUE_LEN - 1
    ensures Next(s.ports[p].head) == s.ports[p].tail <==> |Waiting(s.ports[p])| == QUEUE_LEN - 1
  {
    assert PortOk(s.place, p, s.ports[p]);
    QueueFull(s.ports[p].head, s.ports[p].tail);
  }

  /** Over every run, wherever the interrupts strike, each port's index queue is a FIFO of capacity 127. */
  lemma EveryRunIsAFifo(es: seq<Event>, p: nat)
    requires Legal(Initial(), es) && p < N_PORTS
    ensures var t := Run(Initial(), es).ports[p];
            && t.entered == t.left + Waiting(t) && |Waiting(t)| <= QUEUE_LEN - 1
            && (Next(t.head) == t.tail <==> |Waiting(t)| == QUEUE_LEN - 1)
  {
    InitialOk();
    RunKeeps(Initial(), es);
    QueueIsAFifo(Run(Initial(), es), p);
  }

  /** Over every run each reclaimed descriptor is an error, a drop, a counted frame, one still waiting,
      or the one the main loop has just taken (modulo the width of the counters). */
  lemma EveryRunTallies(es: seq<Event>, p: nat)
    requires Legal(Initial(), es) && p < N_PORTS
    ensures var s := Run(Initial(), es);
            var t := s.ports[p];
            (t.bdErr + t.qDrop + t.frames + |Waiting(t)| + InHand(s.main, p)) % U32 == t.reclaimed % U32
  {
    InitialOk();
    RunKeeps(Initial(), es);
    var s := Run(Initial(), es);
    assert TallyOk(s.ports[p], InHand(s.main, p));
  }

  /** Over every run no pbuf is lost or in two places, and an interrupt arms every descriptor of its
      port while the stack and the main loop hold no more than the pool has left over. */
  lemma EveryRunConservesPbufs(es: seq<Event>)
    requires Legal(Initial(), es)
    ensures var s := Run(Initial(), es);
            && POOL == Number(s.place, Free) + Number(s.place, Stack) + Number(s.place, Hand)
                     + Held(s.ports[0]) + Held(s.ports[1]) + Held(s.ports[2]) + Held(s.ports[3])
            && (forall p :: 0 <= p < N_PORTS ==> ListAt(s.place, s.ports[p].armed, Armed(p)))
            && (forall p :: 0 <= p < N_PORTS ==> ListAt(s.place, Waiting(s.ports[p]), Queued(p)))
  {
    InitialOk();
    RunKeeps(Initial(), es);
    PbufsAreConserved(Run(Initial(), es));
    var s := Run(Initial(), es);
    assert forall p :: 0 <= p < N_PORTS ==> PortOk(s.place, p, s.ports[p]);
  }

  lemma EveryRunRefills(es: seq<Event>, p: nat, done: seq<Completion>, answers: seq<Answer>)
    requires Legal(Initial(), es) && Enabled(Run(Initial(), es), Isr(p, done, answers))
    requires Number(Run(Initial(), es).place, Stack) + Number(Run(Initial(), es).place, Hand) <= 1284
    ensures RefillsIfGranted(Run(Initial(), es), p, done, answers)
  {
    InitialOk();
    RunKeeps(Initial(), es);
    RefillCompletes(Run(Initial(), es), p, done, answers);
  }

  // ---------------------------------------------------------------- the bound is tight

  ghost predicate Reachable(s: State) {
    exists es :: Legal(Initial(), es) && Run(Initial(), es) == s
  }

  lemma ReachMore(s: State, e: Event)
    requires Reachable(s) && Enabled(s, e)
    ensures Reachable(Step(s, e))
  {
    var es :| Legal(Initial(), es) && Run(Initial(), es) == s;
    RunOneMore(Initial(), es, e);
  }

  lemma ReachedInv(s: State)
    requires Reachable(s)
    ensures Inv(s)
  {
    var es :| Legal(Initial(), es) && Run(Initial(), es) == s;
    InitialOk();
    RunKeeps(Initial(), es);
  }

  /** A reachable state described by what each port and the stack hold. */
  ghost predicate Stands(s: State, armed: seq<nat>, waiting: seq<nat>, stack: nat) {
    && |armed| == |waiting| == N_PORTS
    && Reachable(s) && Shaped(s) && s.main == Out && Number(s.place, Stack) == stack
    && (forall p :: 0 <= p < N_PORTS ==> |s.ports[p].armed| == armed[p] && |Waiting(s.ports[p])| == waiting[p])
  }

  function Frames(n: nat): seq<Completion> {
    seq(n, _ => Completion(false, true, true, 64))
  }

  lemma {:induction false} AllGood(armed: seq<nat>, n: nat)
    requires n <= |armed|
    ensures |Good(armed, Frames(n))| == n
    decreases n
  {
    if n > 0 {
      assert Frames(n)[1..] == Frames(n - 1);
      AllGood(armed[1..], n - 1);
    }
  }

  /** Taking `n` good frames back moves them to the queue and frees nothing. */
  lemma AllTakenBack(s: State, p: nat, n: nat)
    requires Inv(s) && p < N_PORTS && n <= |s.ports[p].armed|
    requires |Waiting(s.ports[p])| + n < QUEUE_LEN
    ensures var m := ReclaimAll(s, p, Frames(n));
            && Inv(m) && Untouched(s, m, p) && Number(m.place, Free) == Number(s.place, Free)
            && |m.ports[p].armed| == |s.ports[p].armed| - n && |Waiting(m.ports[p])| == |Waiting(s.ports[p])| + n
  {
    var m := ReclaimAll(s, p, Frames(n));
    QueueGrows(s, p, n);
    ReclaimAllKeeps(s, p, Frames(n));
    ReclaimTouchesOnePort(s, p, Frames(n));
    PbufsAreConserved(s);
    PbufsAreConserved(m);
    NothingFreed(s, m, p);
  }

  lemma QueueGrows(s: State, p: nat, n: nat)
    requires Inv(s) && p < N_PORTS && n <= |s.ports[p].armed|
    requires |Waiting(s.ports[p])| + n < QUEUE_LEN
    ensures |Waiting(ReclaimAll(s, p, Frames(n)).ports[p])| == |Waiting(s.ports[p])| + n
  {
    AllGood(s.ports[p].armed, n);
    InterruptHandsOff(s, p, Frames(n));
  }

  /** If one port holds as many pbufs as before and nothing else changed, as many are free. */
  lemma NothingFreed(s: State, m: State, p: nat)
    requires Shaped(s) && Shaped(m) && p < N_PORTS && Untouched(s, m, p) && Held(s.ports[p]) == Held(m.ports[p])
    requires AllAccounted(s) && AllAccounted(m)
    ensures Number(m.place, Free) == Number(s.place, Free)
  {
    forall q | 0 <= q < N_PORTS ensures Held(m.ports[q]) == Held(s.ports[q]) { }
  }

  lemma Received(s: State, p: nat, n: nat)
    requires Inv(s) && p < N_PORTS && n <= |s.ports[p].armed|
    requires |Waiting(s.ports[p])| + n < QUEUE_LEN
    ensures var r := Step(s, Isr(p, Frames(n), []));
            && Untouched(s, r, p) && |Waiting(r.ports[p])| == |Waiting(s.ports[p])| + n
            && |r.ports[p].armed| == Min(|s.ports[p].armed| - n + Number(s.place, Free), N_RX_BD)
  {
    AllTakenBack(s, p, n);
    var m := ReclaimAll(s, p, Frames(n));
    RefillTouchesOnePort(m, p, []);
    assert PortOk(m.place, p, m.ports[p]);
    RefillCounts(m, p, []);
    GrantedIff([], Min(N_RX_BD - |m.ports[p].armed|, Number(m.place, Free)));
  }

  lemma ReceiveReached(s: State, p: nat, n: nat)
    requires Reachable(s) && Shaped(s) && p < N_PORTS && n <= |s.ports[p].armed|
    requires |Waiting(s.ports[p])| + n < QUEUE_LEN
    ensures Enabled(s, Isr(p, Frames(n), []))
    ensures var r := Step(s, Isr(p, Frames(n), []));
            && Reachable(r) && Untouched(s, r, p) && |Waiting(r.ports[p])| == |Waiting(s.ports[p])| + n
            && |r.ports[p].armed| == Min(|s.ports[p].armed| - n + Number(s.place, Free), N_RX_BD)
  {
    ReachMore(s, Isr(p, Frames(n), []));
    ReachedInv(s);
    Received(s, p, n);
  }

  /** `n` frames arrive at a port whose queue has room for them. */
  lemma Receive(s: State, armed: seq<nat>, waiting: seq<nat>, stack: nat, p: nat, n: nat) returns (r: State)
    requires Stands(s, armed, waiting, stack) && p < N_PORTS
    requires n <= armed[p] && waiting[p] + n < QUEUE_LEN
    requires N_RX_BD - armed[p] + n <= Number(s.place, Free)
    ensures Stands(r, armed[p := N_RX_BD], waiting[p := waiting[p] + n], stack)
  {
    ReceiveReached(s, p, n);
    r := Step(s, Isr(p, Frames(n), []));
  }

  lemma {:induction false} GiveToStack(s: State, armed: seq<nat>, waiting: seq<nat>, stack: nat, n: nat) returns (r: State)
    requires Stands(s, armed, waiting, stack) && n <= Number(s.place, Free)
    ensures Stands(r, armed, waiting, stack + n)
    decreases n
  {
    r := s;
    if n > 0 {
      NoneLeft(s.place, Free);
      var b :| 0 <= b < POOL && s.place[b] == Free;
      ReachMore(s, StackAlloc(b));
      NumberMoved(s.place, b, Stack, Stack);
      NumberMoved(s.place, b, Stack, Free);
      r := GiveToStack(Step(s, StackAlloc(b)), armed, waiting, stack + 1, n - 1);
    }
  }

  lemma FreeLeft(s: State, armed: seq<nat>, waiting: seq<nat>, stack: nat)
    requires Stands(s, armed, waiting, stack)
    ensures Number(s.place, Free) == POOL - stack - armed[0] - armed[1] - armed[2] - armed[3]
                                   - waiting[0] - waiting[1] - waiting[2] - waiting[3]
  {
    ReachedInv(s);
    PbufsAreConserved(s);
  }

  lemma Started() returns (s: State)
    ensures Stands(s, [0, 0, 0, 0], [0, 0, 0, 0], 0)
  {
    s := Initial();
    InitialOk();
    assert Legal(s, []) && Run(s, []) == s;
    NoneLeft(s.place, Stack);
  }

  lemma ArmPort(s: State, armed: seq<nat>, waiting: seq<nat>, p: nat) returns (r: State)
    requires Stands(s, armed, waiting, 1284) && p < N_PORTS && armed[p] == 0 && waiting[p] == 0
    requires Number(s.place, Free) >= 64
    ensures Stands(r, armed[p := 64], waiting, 1284)
  {
    r := Receive(s, armed, waiting, 1284, p, 0);
    assert waiting[p := 0] == waiting;
  }

  lemma FillPort(s: State, armed: seq<nat>, waiting: seq<nat>, p: nat) returns (r: State)
    requires Stands(s, armed, waiting, 1284) && p < N_PORTS && armed[p] == 0 && waiting[p] == 0
    requires Number(s.place, Free) >= 191
    ensures Stands(r, armed[p := 64], waiting[p := 127], 1284)
  {
    FreeLeft(s, armed, waiting, 1284);
    var full := armed[p := 64];
    assert full[p := 64] == full && waiting[p := 64][p := 127] == waiting[p := 127];
    r := ArmPort(s, armed, waiting, p);
    FreeLeft(r, full, waiting, 1284);
    r := Receive(r, full, waiting, 1284, p, 64);
    FreeLeft(r, full, waiting[p := 64], 1284);
    r := Receive(r, full, waiting[p := 64], 1284, p, 63);
  }

  lemma Stocked() returns (s: State)
    ensures Stands(s, [0, 0, 0, 0], [0, 0, 0, 0], 1284)
  {
    s := Started();
    FreeLeft(s, [0, 0, 0, 0], [0, 0, 0, 0], 0);
    s := GiveToStack(s, [0, 0, 0, 0], [0, 0, 0, 0], 0, 1284);
  }

  lemma HalfBrimming() returns (s: State)
    ensures Stands(s, [64, 64, 0, 0], [127, 127, 0, 0], 1284)
  {
    s := Stocked();
    FreeLeft(s, [0, 0, 0, 0], [0, 0, 0, 0], 1284);
    s := FillPort(s, [0, 0, 0, 0], [0, 0, 0, 0], 0);
    FreeLeft(s, [64, 0, 0, 0], [127, 0, 0, 0], 1284);
    s := FillPort(s, [64, 0, 0, 0], [127, 0, 0, 0], 1);
  }

  /** Every ring armed and every queue full, with the rest of the pool at the stack. */
  lemma Brimming() returns (s: State)
    ensures Stands(s, [64, 64, 64, 64], [127, 127, 127, 127], 1284)
  {
    s := HalfBrimming();
    FreeLeft(s, [64, 64, 0, 0], [127, 127, 0, 0], 1284);
    s := FillPort(s, [64, 64, 0, 0], [127, 127, 0, 0], 2);
    FreeLeft(s, [64, 64, 64, 0], [127, 127, 127, 0], 1284);
    s := FillPort(s, [64, 64, 64, 0], [127, 127, 127, 0], 3);
  }

  /** The main loop takes a pbuf off a queue. */
  lemma TakeAny(b: State, p: nat) returns (s: State)
    requires Reachable(b) && Shaped(b) && b.main == Out && p < N_PORTS && |Waiting(b.ports[p])| > 0
    ensures Reachable(s) && Shaped(s) && HoldsOne(s.main) && Number(s.place, Stack) == Number(b.place, Stack)
    ensures forall q :: 0 <= q < N_PORTS && q != p ==> s.ports[q] == b.ports[q]
    ensures s.ports[p].armed == b.ports[p].armed && |Waiting(s.ports[p])| == |Waiting(b.ports[p])| - 1
  {
    ReachMore(b, InputRead(p));
    var c := Step(b, InputRead(p));
    ReachedInv(c);
    ReachMore(c, InputAdvance);
    s := Step(c, InputAdvance);
    AdvancedCounts(c);
  }

  /** The main loop takes one pbuf off port 0's full queue. */
  lemma TakeOne(b: State) returns (s: State)
    requires Stands(b, [64, 64, 64, 64], [127, 127, 127, 127], 1284)
    ensures Reachable(s) && Shaped(s) && Number(s.place, Stack) == 1284
    ensures Number(s.place, Hand) == 1 && Number(s.place, Free) == 0
    ensures |s.ports[0].armed| == 64 && |Waiting(s.ports[0])| == 126
  {
    assert forall p :: 0 <= p < N_PORTS ==> Held(b.ports[p]) == 191;
    s := TakeAny(b, 0);
    ReachedInv(s);
    PbufsAreConserved(s);
  }

  lemma AdvancedCounts(c: State)
    requires Inv(c) && c.main.Read?
    ensures var s, p := InputAdvanceStep(c), c.main.port;
            && HoldsOne(s.main) && Number(s.place, Stack) == Number(c.place, Stack)
            && (forall q :: 0 <= q < N_PORTS && q != p ==> s.ports[q] == c.ports[q])
            && s.ports[p].armed == c.ports[p].armed && |Waiting(s.ports[p])| == |Waiting(c.ports[p])| - 1
  {
    var Read(p, b) := c.main;
    var t := c.ports[p];
    Popped(t.rxQ, t.head, t.tail);
    assert PortOk(c.place, p, t) && b in Waiting(t);
    NumberMoved(c.place, b, Hand, Stack);
  }

  /** With the pool empty one frame more leaves a descriptor without a buffer. */
  lemma OneShort(s: State, p: nat)
    requires Reachable(s) && Shaped(s) && p < N_PORTS && |s.ports[p].armed| == N_RX_BD
    requires |Waiting(s.ports[p])| + 1 < QUEUE_LEN && Number(s.place, Free) == 0
    ensures Enabled(s, Isr(p, Frames(1), []))
    ensures |Step(s, Isr(p, Frames(1), [])).ports[p].armed| == N_RX_BD - 1
  {
    ReceiveReached(s, p, 1);
  }

  /** The pbuf in the main loop's hand counts: with 1284 at the stack and one in hand, a reachable
      interrupt finds the pool empty and leaves a descriptor without a buffer. */
  lemma OneInHandIsOneTooMany() returns (s: State)
    ensures Reachable(s) && Number(s.place, Stack) == 1284 && Number(s.place, Hand) == 1
    ensures Enabled(s, Isr(0, Frames(1), []))
    ensures |Step(s, Isr(0, Frames(1), [])).ports[0].armed| == N_RX_BD - 1
  {
    var b := Brimming();
    s := TakeOne(b);
    OneShort(s, 0);
  }
}
