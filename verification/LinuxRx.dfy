/**
 The receive path of the Linux driver as a machine of atomic steps. The DMA callback, the NAPI poll
 routine, the re-check at the end of a poll, and the start/stop/MTU-change path each contribute
 steps, and a run is any interleaving of enabled steps.
 */
module LinuxRx {
  import opened Ledger

  const RING: nat := 128            // TAXI_RX_RING
  const FRAME_OVERHEAD: nat := 22   // ETH_HLEN + VLAN_HLEN + ETH_FCS_LEN
  const ETH_HLEN: nat := 14

  /** struct taxi_rx_buf; the list node is the slot's own index. */
  datatype Slot = Slot(skb: Option<nat>, dma: nat, len: nat, error: bool)

  /** Where the NAPI instance and the poll routine that may be running for it are. */
  datatype Napi =
    | Off                                            // disabled, or never enabled
    | Idle
    | Scheduled
    | Loop(done: nat, budget: nat)                   // at the head of the poll loop
    | Took(slot: nat, done: nat, budget: nat)        // a node was unlinked from rx_pending
    | InHand(slot: nat, skb: nat, done: nat, budget: nat)  // its buffer waits to be re-armed
    | Finishing                                      // loop left with budget to spare

  /** Progress of taxi_rx_ring_start and taxi_rx_ring_stop, which the rtnl lock serialises. */
  datatype Ctl = Down | Filling(next: nat) | Up | Failing | Stopping | Quiesced | Disabled

  /** A buffer as the stack gets it. */
  datatype Frame = Frame(skb: nat, len: nat)

  datatype Stats = Stats(packets: nat, bytes: nat, errors: nat, dropped: nat)

  datatype State = State(
    ring: seq<Slot>,
    bufLen: nat,             // rx_buf_len
    running: bool,           // rx_running
    rxDone: seq<nat>,        // llist rx_done, newest first
    rxPending: seq<nat>,     // rx_pending, oldest first
    armed: set<nat>,         // slots whose descriptor the DMA engine holds
    callbacks: nat,          // callbacks between llist_add and napi_schedule
    napi: Napi,
    checking: nat,           // polls between napi_complete_done and llist_empty
    rescheduling: nat,       // polls that saw a non-empty list and will schedule
    ctl: Ctl,
    led: Ledger,
    stats: Stats,
    completed: seq<nat>,     // completions since the ring was started, in order
    taken: seq<nat>,         // those the poll routine has unlinked, in order
    issued: set<nat>,        // armed slots the engine has been told to start on
    given: seq<Frame>)       // what the stack has been given, in order

  datatype SubmitOutcome = MapFails | PrepFails | SubmitFails | Submits

  datatype Event =
    | Start(mtu: nat)
    | Fill(gotSkb: bool, outcome: SubmitOutcome)
    | FillEnd
    | Callback(slot: nat, ok: bool, residue: nat)
    | CallbackSchedule
    | PollBegin(budget: nat)
    | PollTake
    | PollProcess(gotSkb: bool)
    | PollRearm(outcome: SubmitOutcome)
    | PollFull
    | PollComplete(missed: bool)
    | PollCheck
    | PollSchedule
    | StopFlag
    | Terminate
    | NapiDisable
    | Cleanup

  function Initial(): State {
    State(seq(RING, _ => Slot(None, 0, 0, false)), 0, false, [], [], {}, 0, Off, 0, 0, Down,
          Empty, Stats(0, 0, 0, 0), [], [], {}, [])
  }

  function Reverse(s: seq<nat>): (r: seq<nat>)
    ensures |r| == |s|
    ensures forall k :: k in r <==> k in s
  {
    if s == [] then [] else Reverse(s[1..]) + [s[0]]
  }

  /** The completions waiting for the poll routine, oldest first. */
  function Queue(s: State): seq<nat> {
    s.rxPending + Reverse(s.rxDone)
  }

  function Schedule(n: Napi): Napi {
    if n == Idle then Scheduled else n
  }

  /** taxi_rx_submit: the state it leaves for each way the DMA layer can answer. */
  function Submit(s: State, i: nat, skb: nat, o: SubmitOutcome): State
    requires i < |s.ring|
  {
    if o == MapFails then s
    else
      var mapped := s.(led := Map(s.led, skb, s.bufLen));
      if o == PrepFails then mapped.(led := Unmap(mapped.led, skb, s.bufLen))
      else if o == SubmitFails then
        mapped.(ring := s.ring[i := s.ring[i].(skb := None, dma := skb)],
                led := Unmap(mapped.led, skb, s.bufLen))
      else
        mapped.(ring := s.ring[i := s.ring[i].(skb := Some(skb), dma := skb)],
                armed := s.armed + {i})
  }

  /** The loop of taxi_rx_ring_stop from slot `i` on: unmap and free whatever still holds a buffer. */
  function ReleaseFrom(ring: seq<Slot>, led: Ledger, bufLen: nat, i: nat): (seq<Slot>, Ledger)
    decreases |ring| - i
  {
    if i >= |ring| then (ring, led)
    else if ring[i].skb.None? then ReleaseFrom(ring, led, bufLen, i + 1)
    else
      ReleaseFrom(ring[i := ring[i].(skb := None)],
                  Free(Unmap(led, ring[i].dma, bufLen), ring[i].skb.value), bufLen, i + 1)
  }

  // ---------------------------------------------------------------- the steps

  function StartStep(s: State, mtu: nat): State {
    s.(bufLen := mtu + FRAME_OVERHEAD, running := true, napi := Idle, ctl := Filling(0),
       completed := [], taken := [])
  }

  /** One iteration of the loop in taxi_rx_ring_start. */
  function FillStep(s: State, gotSkb: bool, o: SubmitOutcome): State
    requires s.ctl.Filling? && s.ctl.next < |s.ring|
  {
    if !gotSkb then s.(ctl := Failing)
    else
      var t := Submit(s.(led := Alloc(s.led)), s.ctl.next, s.led.next, o);
      if o == Submits then t.(ctl := Filling(s.ctl.next + 1))
      else t.(led := Free(t.led, s.led.next), ctl := Failing)
  }

  /** taxi_rx_complete up to llist_add. */
  function CallbackStep(s: State, i: nat, ok: bool, residue: nat): State
    requires i < |s.ring|
  {
    var bad := !ok || residue > s.bufLen;
    s.(ring := s.ring[i := s.ring[i].(error := bad, len := if bad then 0 else s.bufLen - residue)],
       armed := s.armed - {i}, issued := s.issued - {i}, rxDone := [i] + s.rxDone, callbacks := s.callbacks + 1,
       completed := s.completed + [i])
  }

  /** dma_async_issue_pending at the end of a poll that handled something. */
  function Issued(s: State, done: nat): set<nat> {
    if done > 0 then s.armed else s.issued
  }

  /** The head of the poll loop: refill rx_pending if it is empty, then unlink one node or leave. */
  function TakeStep(s: State): State
    requires s.napi.Loop?
  {
    if s.rxPending == [] && s.rxDone == [] then s.(napi := Finishing, issued := Issued(s, s.napi.done))
    else
      var t := if s.rxPending != [] then s else s.(rxPending := Reverse(s.rxDone), rxDone := []);
      t.(rxPending := t.rxPending[1..], taken := t.taken + [t.rxPending[0]],
         napi := Took(t.rxPending[0], s.napi.done, s.napi.budget))
  }

  /** taxi_rx_process up to the resubmit label: unmap, then deliver a good frame or keep its buffer. */
  function ProcessStep(s: State, gotSkb: bool): State
    requires s.napi.Took? && Holds(s.ring, s.napi.slot)
  {
    var i := s.napi.slot;
    var buf := s.ring[i];
    var skb := buf.skb.value;
    var t := s.(led := Unmap(s.led, buf.dma, s.bufLen), ring := s.ring[i := buf.(skb := None)],
                napi := InHand(i, skb, s.napi.done, s.napi.budget));
    if buf.error || buf.len < ETH_HLEN then
      t.(stats := t.stats.(errors := t.stats.errors + 1))
    else if !gotSkb then
      t.(stats := t.stats.(dropped := t.stats.dropped + 1))
    else
      t.(led := Deliver(Alloc(t.led), skb),
         napi := InHand(i, t.led.next, s.napi.done, s.napi.budget),
         stats := t.stats.(packets := t.stats.packets + 1, bytes := t.stats.bytes + buf.len),
         given := t.given + [Frame(skb, buf.len)])
  }

  /** The critical section at the resubmit label, and the free that follows a refusal. */
  function RearmStep(s: State, o: SubmitOutcome): State
    requires s.napi.InHand? && s.napi.slot < |s.ring|
  {
    var skb := s.napi.skb;
    var t := s.(napi := Loop(s.napi.done + 1, s.napi.budget));
    if s.running then
      var u := Submit(t, s.napi.slot, skb, o);
      if o == Submits then u else u.(led := Free(u.led, skb))
    else t.(led := Free(t.led, skb))
  }

  function CompleteStep(s: State, missed: bool): State {
    s.(napi := if missed then Scheduled else Idle, checking := s.checking + 1)
  }

  function CheckStep(s: State): State
    requires s.checking > 0
  {
    s.(checking := s.checking - 1,
       rescheduling := if s.rxDone != [] then s.rescheduling + 1 else s.rescheduling)
  }

  function CleanupStep(s: State): State {
    var (ring, led) := ReleaseFrom(s.ring, s.led, s.bufLen, 0);
    s.(ring := ring, led := led, rxDone := [], rxPending := [], ctl := Down)
  }

  predicate Enabled(s: State, e: Event) {
    && |s.ring| == RING
    && match e
       case Start(_) => s.ctl == Down
       case Fill(_, _) => s.ctl.Filling? && s.ctl.next < RING
       case FillEnd => s.ctl == Filling(RING)
       case Callback(i, _, _) => i in s.armed && i in s.issued && i < RING
       case CallbackSchedule => s.callbacks > 0
       case PollBegin(_) => s.napi == Scheduled
       case PollTake => s.napi.Loop? && s.napi.done < s.napi.budget
       case PollProcess(_) => s.napi.Took? && Holds(s.ring, s.napi.slot)
       case PollRearm(_) => s.napi.InHand? && s.napi.slot < RING
       case PollFull => s.napi.Loop? && s.napi.done >= s.napi.budget
       case PollComplete(_) => s.napi == Finishing
       case PollCheck => s.checking > 0
       case PollSchedule => s.rescheduling > 0
       case StopFlag => s.ctl == Up || s.ctl == Failing
       // terminate_sync waits for running callbacks, napi_disable for a running poll
       case Terminate => s.ctl == Stopping && s.callbacks == 0
       case NapiDisable => s.ctl == Quiesced && (s.napi == Idle || s.napi == Scheduled)
       case Cleanup => s.ctl == Disabled
  }

  function Step(s: State, e: Event): State
    requires Enabled(s, e)
  {
    match e
    case Start(mtu) => StartStep(s, mtu)
    case Fill(gotSkb, o) => FillStep(s, gotSkb, o)
    case FillEnd => s.(ctl := Up, issued := s.armed)
    case Callback(i, ok, residue) => CallbackStep(s, i, ok, residue)
    case CallbackSchedule => s.(callbacks := s.callbacks - 1, napi := Schedule(s.napi))
    case PollBegin(budget) => s.(napi := Loop(0, budget))
    case PollTake => TakeStep(s)
    case PollProcess(gotSkb) => ProcessStep(s, gotSkb)
    case PollRearm(o) => RearmStep(s, o)
    case PollFull => s.(napi := Scheduled, issued := Issued(s, s.napi.done))
    case PollComplete(missed) => CompleteStep(s, missed)
    case PollCheck => CheckStep(s)
    case PollSchedule => s.(rescheduling := s.rescheduling - 1, napi := Schedule(s.napi))
    case StopFlag => s.(running := false, ctl := Stopping)
    case Terminate => s.(armed := {}, issued := {}, ctl := Quiesced)
    case NapiDisable => s.(napi := Off, ctl := Disabled)
    case Cleanup => CleanupStep(s)
  }

  // ---------------------------------------------------------------- invariants

  ghost predicate Distinct(q: seq<nat>) {
    forall i, j :: 0 <= i < j < |q| ==> q[i] != q[j]
  }

  predicate Holds(ring: seq<Slot>, k: nat) {
    k < |ring| && ring[k].skb.Some?
  }

  function RingSkbs(ring: seq<Slot>): set<nat> {
    set i | 0 <= i < |ring| && ring[i].skb.Some? :: ring[i].skb.value
  }

  function Hand(n: Napi): set<nat> {
    if n.InHand? then {n.skb} else {}
  }

  /** The slot whose node or buffer the poll routine is holding, if any. */
  function HeldSlot(n: Napi): set<nat> {
    if n.Took? || n.InHand? then {n.slot} else {}
  }

  /** A node is on one list at most, never while its buffer is armed or in the poll routine's hands. */
  ghost predicate ListsOk(q: seq<nat>, armed: set<nat>, held: set<nat>) {
    && Distinct(q)
    && (forall k <- q :: k < RING && k !in armed && k !in held)
    && (forall k <- armed :: k < RING && k !in held)
    && (forall k <- held :: k < RING)
  }

  /** Until the engine is shut down, a slot holds a buffer exactly while its node is with the engine,
      on a list, or unlinked by the poll routine; afterwards it may also hold one nobody will use. */
  ghost predicate SlotsOk(ring: seq<Slot>, q: seq<nat>, armed: set<nat>, napi: Napi, ctl: Ctl) {
    && |ring| == RING
    && (forall k <- q :: Holds(ring, k))
    && (forall k <- armed :: Holds(ring, k))
    && (napi.Took? ==> Holds(ring, napi.slot))
    && (napi.InHand? ==> !Holds(ring, napi.slot))
    && (ctl !in {Quiesced, Disabled} ==>
          forall k: nat :: Holds(ring, k) ==> k in armed || k in q || k in HeldSlot(napi))
  }

  /** A slot is mapped exactly when it holds a buffer, always with the current length, and the driver
      owes the kernel exactly the buffers in the ring and the one in the poll routine's hands. */
  ghost predicate LedgerOk(ring: seq<Slot>, led: Ledger, bufLen: nat, hand: set<nat>) {
    && Sound(led)
    && (forall k: nat :: Holds(ring, k) ==>
          ring[k].dma == ring[k].skb.value && ring[k].dma in led.maps
          && led.maps[ring[k].dma] == bufLen)
    && (forall j: nat, k: nat :: Holds(ring, j) && Holds(ring, k) && j != k ==>
          ring[j].skb != ring[k].skb)
    && led.maps.Keys == RingSkbs(ring)
    && led.live == RingSkbs(ring) + hand
    && hand !! RingSkbs(ring)
  }

  ghost predicate CtlOk(s: State) {
    && (s.running <==> s.ctl in {Up, Failing} || s.ctl.Filling?)
    && (s.napi == Off <==> s.ctl in {Down, Disabled})
    && (s.ctl in {Down, Quiesced, Disabled} ==> s.armed == {} && s.callbacks == 0)
    && (s.ctl == Down ==> s.rxDone == [] && s.rxPending == [] && RingSkbs(s.ring) == {})
    && (s.ctl.Filling? ==> s.ctl.next <= RING && Untouched(s, s.ctl.next))
  }

  /** The slots a start that is still filling the ring has not reached. */
  ghost predicate Untouched(s: State, from: nat) {
    forall k: nat :: from <= k < RING ==>
      k !in s.armed && k !in Queue(s) && k !in HeldSlot(s.napi)
  }

  /** The hand-off is a queue: what was completed is what was taken followed by what is waiting. */
  ghost predicate FifoOk(s: State) {
    && s.taken <= s.completed
    && (s.ctl != Down ==> s.completed == s.taken + Queue(s))
  }

  /** Some step in progress will get the poll routine to look at the lists again. */
  predicate WakeupDue(s: State) {
    s.callbacks > 0 || s.checking > 0 || s.rescheduling > 0
  }

  ghost predicate NoLostCompletion(s: State) {
    s.running && (s.rxDone != [] || s.rxPending != []) ==> (s.napi != Idle && s.napi != Off) || WakeupDue(s)
  }

  ghost predicate WakeOk(s: State) {
    && NoLostCompletion(s)
    && (s.running && s.rxPending != [] ==> s.napi != Idle && s.napi != Finishing)
  }

  /** The poll routine has re-armed slots it has not told the engine of. */
  predicate Rearmed(n: Napi) {
    (n.Loop? || n.Took? || n.InHand?) && n.done > 0
  }

  ghost predicate IssueOk(s: State) {
    s.issued <= s.armed && (s.ctl == Up && !Rearmed(s.napi) ==> s.issued == s.armed)
  }

  ghost predicate Inv(s: State) {
    && ListsOk(Queue(s), s.armed, HeldSlot(s.napi))
    && SlotsOk(s.ring, Queue(s), s.armed, s.napi, s.ctl)
    && LedgerOk(s.ring, s.led, s.bufLen, Hand(s.napi))
    && CtlOk(s) && FifoOk(s) && WakeOk(s) && IssueOk(s)
  }

  // ---------------------------------------------------------------- the ring as a set of buffers

  lemma FillSlot(ring: seq<Slot>, i: nat, slot: Slot)
    requires i < |ring| && ring[i].skb.None? && slot.skb.Some?
    ensures RingSkbs(ring[i := slot]) == RingSkbs(ring) + {slot.skb.value}
  {
    var r := ring[i := slot];
    forall k | k in RingSkbs(ring) ensures k in RingSkbs(r) {
      var j :| 0 <= j < |ring| && ring[j].skb.Some? && ring[j].skb.value == k;
      assert r[j] == ring[j];
    }
    assert r[i].skb.value in RingSkbs(r);
  }

  lemma EmptySlot(ring: seq<Slot>, i: nat, slot: Slot)
    requires i < |ring| && ring[i].skb.Some? && slot.skb.None?
    requires forall j: nat, k: nat :: Holds(ring, j) && Holds(ring, k) && j != k ==>
               ring[j].skb != ring[k].skb
    ensures RingSkbs(ring[i := slot]) == RingSkbs(ring) - {ring[i].skb.value}
  {
    var r := ring[i := slot];
    assert forall j: nat :: Holds(r, j) ==> Holds(ring, j) && j != i && r[j] == ring[j];
    assert Holds(ring, i);
    forall k | k in RingSkbs(ring) && k != ring[i].skb.value ensures k in RingSkbs(r) {
      var j :| 0 <= j < |ring| && ring[j].skb.Some? && ring[j].skb.value == k;
      assert r[j] == ring[j];
    }
  }

  lemma SameSkbs(ring: seq<Slot>, i: nat, slot: Slot)
    requires i < |ring| && slot.skb == ring[i].skb
    ensures RingSkbs(ring[i := slot]) == RingSkbs(ring)
  {
    var r := ring[i := slot];
    forall k | k in RingSkbs(ring) ensures k in RingSkbs(r) {
      var j :| 0 <= j < |ring| && ring[j].skb.Some? && ring[j].skb.value == k;
      assert r[j].skb == ring[j].skb;
    }
  }

  lemma RingEmptyIffNoSkbs(ring: seq<Slot>)
    ensures RingSkbs(ring) == {} <==> forall k: nat :: !Holds(ring, k)
  {
    if exists k: nat :: Holds(ring, k) {
      var k: nat :| Holds(ring, k);
      assert ring[k].skb.value in RingSkbs(ring);
    }
    if RingSkbs(ring) != {} {
      var b :| b in RingSkbs(ring);
      var i :| 0 <= i < |ring| && ring[i].skb.Some? && ring[i].skb.value == b;
      assert Holds(ring, i);
    }
  }

  // ---------------------------------------------------------------- every step keeps the invariant

  lemma InitialOk()
    ensures Inv(Initial())
  {
  }

  lemma RingRelabelled(ring: seq<Slot>, led: Ledger, bufLen: nat, hand: set<nat>, i: nat, slot: Slot)
    requires LedgerOk(ring, led, bufLen, hand)
    requires i < |ring| && slot.skb == ring[i].skb && slot.dma == ring[i].dma
    ensures LedgerOk(ring[i := slot], led, bufLen, hand)
  {
    SameSkbs(ring, i, slot);
    assert forall k: nat :: Holds(ring[i := slot], k) <==> Holds(ring, k);
  }

  lemma CompletedListsOk(q: seq<nat>, armed: set<nat>, held: set<nat>, i: nat)
    requires ListsOk(q, armed, held) && i in armed
    ensures ListsOk(q + [i], armed - {i}, held)
  {
  }

  lemma CallbackQueue(s: State, i: nat, ok: bool, residue: nat)
    requires i < |s.ring|
    ensures Queue(CallbackStep(s, i, ok, residue)) == Queue(s) + [i]
  {
    assert CallbackStep(s, i, ok, residue).rxDone[1..] == s.rxDone;
  }

  lemma CompletedSlotsOk(ring: seq<Slot>, r: seq<Slot>, q: seq<nat>, armed: set<nat>, napi: Napi, ctl: Ctl, i: nat)
    requires SlotsOk(ring, q, armed, napi, ctl) && i in armed && |r| == |ring|
    requires forall k: nat :: Holds(r, k) <==> Holds(ring, k)
    ensures SlotsOk(r, q + [i], armed - {i}, napi, ctl)
  {
  }

  lemma CallbackFifo(taken: seq<nat>, q: seq<nat>, completed: seq<nat>, i: nat)
    requires completed == taken + q
    ensures completed + [i] == taken + (q + [i])
  {
  }

  lemma CallbackCtl(s: State, i: nat, ok: bool, residue: nat)
    requires CtlOk(s) && FifoOk(s) && i in s.armed && i < |s.ring| && ListsOk(Queue(s), s.armed, HeldSlot(s.napi))
    ensures CtlOk(CallbackStep(s, i, ok, residue)) && FifoOk(CallbackStep(s, i, ok, residue))
  {
    var t := CallbackStep(s, i, ok, residue);
    CallbackQueue(s, i, ok, residue);
    SameSkbs(s.ring, i, t.ring[i]);
    CallbackFifo(s.taken, Queue(s), s.completed, i);
    if s.ctl.Filling? { assert Untouched(s, s.ctl.next); }
  }

  lemma CallbackWakes(s: State, i: nat, ok: bool, residue: nat)
    requires WakeOk(s) && IssueOk(s) && i in s.armed && i < |s.ring|
    ensures WakeOk(CallbackStep(s, i, ok, residue)) && IssueOk(CallbackStep(s, i, ok, residue))
  {
  }

  lemma CallbackRing(s: State, i: nat, ok: bool, residue: nat)
    requires LedgerOk(s.ring, s.led, s.bufLen, Hand(s.napi)) && i < |s.ring|
    ensures var t := CallbackStep(s, i, ok, residue);
            && LedgerOk(t.ring, t.led, t.bufLen, Hand(t.napi)) && |t.ring| == |s.ring|
            && forall k: nat :: Holds(t.ring, k) <==> Holds(s.ring, k)
  {
    var t := CallbackStep(s, i, ok, residue);
    RingRelabelled(s.ring, s.led, s.bufLen, Hand(s.napi), i, t.ring[i]);
    SameSkbs(s.ring, i, t.ring[i]);
  }

  /** A completed buffer leaves the engine and joins the end of the queue. */
  lemma CallbackKeeps(s: State, i: nat, ok: bool, residue: nat)
    requires Inv(s) && i in s.armed
    ensures i < |s.ring|
    ensures Queue(CallbackStep(s, i, ok, residue)) == Queue(s) + [i]
    ensures Inv(CallbackStep(s, i, ok, residue))
  {
    var t := CallbackStep(s, i, ok, residue);
    CallbackQueue(s, i, ok, residue);
    CallbackRing(s, i, ok, residue);
    CompletedListsOk(Queue(s), s.armed, HeldSlot(s.napi), i);
    CompletedSlotsOk(s.ring, t.ring, Queue(s), s.armed, s.napi, s.ctl, i);
    CallbackCtl(s, i, ok, residue);
    CallbackWakes(s, i, ok, residue);
  }

  lemma TakenOk(ring: seq<Slot>, q: seq<nat>, armed: set<nat>, napi: Napi, taken: Napi, ctl: Ctl)
    requires q != [] && napi.Loop? && taken.Took? && taken.slot == q[0]
    requires ListsOk(q, armed, {}) && SlotsOk(ring, q, armed, napi, ctl)
    ensures ListsOk(q[1..], armed, HeldSlot(taken)) && SlotsOk(ring, q[1..], armed, taken, ctl)
  {
    assert forall k <- q[1..] :: k in q && k != q[0];
    assert forall k <- q :: k in q[1..] || k == q[0];
  }

  lemma TakeQueue(s: State)
    requires s.napi.Loop?
    ensures Queue(s) == [] ==> TakeStep(s) == s.(napi := Finishing, issued := Issued(s, s.napi.done))
    ensures Queue(s) != [] ==>
              && Queue(TakeStep(s)) == Queue(s)[1..]
              && TakeStep(s).taken == s.taken + [Queue(s)[0]]
              && TakeStep(s).napi == Took(Queue(s)[0], s.napi.done, s.napi.budget)
  {
    assert |Queue(s)| == |s.rxPending| + |s.rxDone|;
    if s.rxPending == [] {
      assert Queue(s) == Reverse(s.rxDone);
      assert TakeStep(s).rxDone == [];
    }
  }

  lemma TakeFifo(taken: seq<nat>, q: seq<nat>)
    requires q != []
    ensures taken + q == (taken + [q[0]]) + q[1..]
  {
  }

  lemma TakeCtl(s: State)
    requires CtlOk(s) && s.napi.Loop? && Queue(s) != []
    ensures CtlOk(TakeStep(s))
  {
    TakeQueue(s);
    var q := Queue(s);
    assert q[0] in q && forall k <- q[1..] :: k in q;
    assert s.ctl == Down ==> q == [];
  }

  /** The poll routine unlinks the oldest completion, or finds both lists empty. */
  lemma TakeKeeps(s: State)
    requires Inv(s) && s.napi.Loop?
    ensures Inv(TakeStep(s))
  {
    var t := TakeStep(s);
    TakeQueue(s);
    assert |Queue(s)| == |s.rxPending| + |s.rxDone|;
    if Queue(s) != [] {
      TakenOk(s.ring, Queue(s), s.armed, s.napi, t.napi, s.ctl);
      TakeFifo(s.taken, Queue(s));
      assert t.ring == s.ring && t.led == s.led && t.armed == s.armed;
      TakeCtl(s);
      assert FifoOk(t);
    }
  }

  // The ledger lemmas speak of a ring and of the buffers outside it: those in `rest` and one more.

  lemma HandEmptied(ring: seq<Slot>, led: Ledger, bufLen: nat, rest: set<nat>, skb: nat, fate: Fate)
    requires LedgerOk(ring, led, bufLen, rest + {skb}) && skb !in rest
    ensures LedgerOk(ring, Dispose(led, skb, fate), bufLen, rest)
  {
    assert skb in rest + {skb};
    assert skb in led.live && skb !in led.maps.Keys;
  }

  lemma HandFilled(ring: seq<Slot>, led: Ledger, bufLen: nat, rest: set<nat>)
    requires LedgerOk(ring, led, bufLen, rest)
    ensures LedgerOk(ring, Alloc(led), bufLen, rest + {led.next}) && led.next !in rest
  {
    assert led.next !in led.live;
  }

  lemma SlotEmptied(ring: seq<Slot>, led: Ledger, bufLen: nat, rest: set<nat>, i: nat)
    requires LedgerOk(ring, led, bufLen, rest) && Holds(ring, i)
    ensures LedgerOk(ring[i := ring[i].(skb := None)], Unmap(led, ring[i].dma, bufLen), bufLen,
                     rest + {ring[i].skb.value})
    ensures ring[i].skb.value !in rest
  {
    var r := ring[i := ring[i].(skb := None)];
    EmptySlot(ring, i, r[i]);
    var skb := ring[i].skb.value;
    assert skb in RingSkbs(ring);
    forall k: nat | Holds(r, k)
      ensures r[k].dma != skb
    {
      assert Holds(ring, k) && k != i && r[k] == ring[k];
    }
    assert (led.maps - {skb}).Keys == RingSkbs(r);
  }

  lemma SlotFilled(ring: seq<Slot>, led: Ledger, bufLen: nat, rest: set<nat>, i: nat, skb: nat)
    requires LedgerOk(ring, led, bufLen, rest + {skb}) && skb !in rest
    requires i < |ring| && !Holds(ring, i)
    ensures LedgerOk(ring[i := ring[i].(skb := Some(skb), dma := skb)], Map(led, skb, bufLen), bufLen, rest)
  {
    var r := ring[i := ring[i].(skb := Some(skb), dma := skb)];
    FillSlot(ring, i, r[i]);
    assert skb in rest + {skb};
    assert skb !in led.maps.Keys;
    forall k: nat | Holds(r, k) && k != i
      ensures Holds(ring, k) && r[k] == ring[k] && r[k].skb.value in RingSkbs(ring)
    {
    }
  }

  /** Mapping a buffer and unmapping it again leaves the ledger as it was. */
  lemma MapUnmap(ring: seq<Slot>, led: Ledger, bufLen: nat, rest: set<nat>, skb: nat)
    requires LedgerOk(ring, led, bufLen, rest + {skb})
    ensures Unmap(Map(led, skb, bufLen), skb, bufLen) == led
  {
    assert skb in rest + {skb};
    assert skb in led.live && skb !in led.maps.Keys;
    assert led.maps[skb := bufLen] - {skb} == led.maps;
  }

  lemma SlotForgot(ring: seq<Slot>, led: Ledger, bufLen: nat, hand: set<nat>, i: nat, slot: Slot)
    requires LedgerOk(ring, led, bufLen, hand)
    requires i < |ring| && !Holds(ring, i) && slot.skb.None?
    ensures LedgerOk(ring[i := slot], led, bufLen, hand)
  {
    SameSkbs(ring, i, slot);
    assert forall k: nat :: Holds(ring[i := slot], k) ==> Holds(ring, k) && ring[i := slot][k] == ring[k];
  }

  /** A refused submission leaves the buffer with the caller; an accepted one maps it and arms the slot. */
  lemma SubmitKeeps(s: State, i: nat, rest: set<nat>, skb: nat, o: SubmitOutcome)
    requires i < |s.ring| && !Holds(s.ring, i) && skb !in rest
    requires LedgerOk(s.ring, s.led, s.bufLen, rest + {skb})
    ensures var t := Submit(s, i, skb, o);
            && LedgerOk(t.ring, t.led, s.bufLen, if o == Submits then rest else rest + {skb})
            && |t.ring| == |s.ring|
            && (forall k: nat :: Holds(t.ring, k) <==> Holds(s.ring, k) || (k == i && o == Submits))
            && t == s.(ring := t.ring, led := t.led,
                       armed := if o == Submits then s.armed + {i} else s.armed)
  {
    MapUnmap(s.ring, s.led, s.bufLen, rest, skb);
    if o == Submits {
      SlotFilled(s.ring, s.led, s.bufLen, rest, i, skb);
    } else if o == SubmitFails {
      SlotForgot(s.ring, s.led, s.bufLen, rest + {skb}, i, s.ring[i].(skb := None, dma := skb));
    }
  }

  lemma ProcessLedger(ring: seq<Slot>, led: Ledger, bufLen: nat, i: nat)
    requires LedgerOk(ring, led, bufLen, {}) && Holds(ring, i)
    ensures var r := ring[i := ring[i].(skb := None)];
            var skb := ring[i].skb.value;
            var unmapped := Unmap(led, ring[i].dma, bufLen);
            && LedgerOk(r, unmapped, bufLen, {skb})
            && LedgerOk(r, Deliver(Alloc(unmapped), skb), bufLen, {unmapped.next})
  {
    var r := ring[i := ring[i].(skb := None)];
    var skb := ring[i].skb.value;
    var unmapped := Unmap(led, ring[i].dma, bufLen);
    SlotEmptied(ring, led, bufLen, {}, i);
    assert {} + {skb} == {skb};
    HandFilled(r, unmapped, bufLen, {skb});
    assert {skb} + {unmapped.next} == {unmapped.next} + {skb};
    HandEmptied(r, Alloc(unmapped), bufLen, {unmapped.next}, skb, Delivered);
  }

  lemma ProcessSlots(ring: seq<Slot>, r: seq<Slot>, q: seq<nat>, armed: set<nat>, napi: Napi, next: Napi, ctl: Ctl)
    requires ListsOk(q, armed, HeldSlot(napi)) && SlotsOk(ring, q, armed, napi, ctl) && napi.Took? && |r| == |ring|
    requires forall k: nat :: Holds(r, k) <==> Holds(ring, k) && k != napi.slot
    requires next.Loop? || (next.InHand? && next.slot == napi.slot)
    ensures ListsOk(q, armed, HeldSlot(next)) && SlotsOk(r, q, armed, next, ctl)
  {
  }

  lemma ProcessKeeps(s: State, gotSkb: bool)
    requires Inv(s) && s.napi.Took? && Holds(s.ring, s.napi.slot)
    ensures Inv(ProcessStep(s, gotSkb))
  {
    var t := ProcessStep(s, gotSkb);
    var i := s.napi.slot;
    ProcessLedger(s.ring, s.led, s.bufLen, i);
    assert t.rxPending == s.rxPending && t.rxDone == s.rxDone && t.armed == s.armed && t.ctl == s.ctl;
    ProcessSlots(s.ring, t.ring, Queue(s), s.armed, s.napi, t.napi, s.ctl);
    assert LedgerOk(t.ring, t.led, t.bufLen, Hand(t.napi));
  }

  lemma RearmLedger(s: State, o: SubmitOutcome)
    requires Inv(s) && s.napi.InHand? && s.napi.slot < |s.ring|
    ensures var t := RearmStep(s, o);
            var armed := s.running && o == Submits;
            && LedgerOk(t.ring, t.led, t.bufLen, {})
            && |t.ring| == |s.ring|
            && (forall k: nat :: Holds(t.ring, k) <==> Holds(s.ring, k) || (k == s.napi.slot && armed))
            && t == s.(ring := t.ring, led := t.led, napi := Loop(s.napi.done + 1, s.napi.budget),
                       armed := if armed then s.armed + {s.napi.slot} else s.armed)
  {
    var i, skb := s.napi.slot, s.napi.skb;
    assert {} + {skb} == {skb};
    var lowered := s.(napi := Loop(s.napi.done + 1, s.napi.budget));
    if s.running {
      SubmitKeeps(lowered, i, {}, skb, o);
      if o != Submits {
        var u := Submit(lowered, i, skb, o);
        HandEmptied(u.ring, u.led, u.bufLen, {}, skb, Freed);
      }
    } else {
      HandEmptied(s.ring, s.led, s.bufLen, {}, skb, Freed);
    }
  }

  lemma RearmKeeps(s: State, o: SubmitOutcome)
    requires Inv(s) && s.napi.InHand? && s.napi.slot < |s.ring|
    ensures Inv(RearmStep(s, o))
  {
    RearmLedger(s, o);
    var t := RearmStep(s, o);
    assert Queue(t) == Queue(s);
    assert ListsOk(Queue(t), t.armed, {});
    assert SlotsOk(t.ring, Queue(t), t.armed, t.napi, t.ctl);
  }

  lemma FillLedger(s: State, o: SubmitOutcome)
    requires s.ctl.Filling? && s.ctl.next < |s.ring| && !Holds(s.ring, s.ctl.next)
    requires LedgerOk(s.ring, s.led, s.bufLen, Hand(s.napi))
    ensures var t, i := FillStep(s, true, o), s.ctl.next;
            && LedgerOk(t.ring, t.led, t.bufLen, Hand(t.napi))
            && |t.ring| == |s.ring|
            && (forall k: nat :: Holds(t.ring, k) <==> Holds(s.ring, k) || (k == i && o == Submits))
            && t == s.(ring := t.ring, led := t.led, ctl := if o == Submits then Filling(i + 1) else Failing,
                       armed := if o == Submits then s.armed + {i} else s.armed)
  {
    var i, skb, hand := s.ctl.next, s.led.next, Hand(s.napi);
    var funded := s.(led := Alloc(s.led));
    HandFilled(s.ring, s.led, s.bufLen, hand);
    SubmitKeeps(funded, i, hand, skb, o);
    if o != Submits {
      var u := Submit(funded, i, skb, o);
      HandEmptied(u.ring, u.led, u.bufLen, hand, skb, Freed);
    }
  }

  lemma FillSlots(ring: seq<Slot>, r: seq<Slot>, q: seq<nat>, armed: set<nat>, napi: Napi, ctl: Ctl, next: Ctl, i: nat)
    requires ListsOk(q, armed, HeldSlot(napi)) && SlotsOk(ring, q, armed, napi, ctl) && |r| == |ring|
    requires i < RING && i !in q && i !in HeldSlot(napi) && ctl.Filling?
    requires forall k: nat :: Holds(r, k) <==> Holds(ring, k) || k == i
    ensures ListsOk(q, armed + {i}, HeldSlot(napi)) && SlotsOk(r, q, armed + {i}, napi, next)
  {
  }

  lemma FillKeeps(s: State, gotSkb: bool, o: SubmitOutcome)
    requires Inv(s) && s.ctl.Filling? && s.ctl.next < |s.ring|
    ensures Inv(FillStep(s, gotSkb, o))
  {
    var t := FillStep(s, gotSkb, o);
    assert !Holds(s.ring, s.ctl.next);
    if gotSkb { FillLedger(s, o); }
    assert Queue(t) == Queue(s);
    if gotSkb && o == Submits {
      FillSlots(s.ring, t.ring, Queue(s), s.armed, s.napi, s.ctl, t.ctl, s.ctl.next);
      assert Untouched(t, t.ctl.next);
    } else {
      assert SlotsOk(t.ring, Queue(t), t.armed, t.napi, t.ctl);
    }
    assert CtlOk(t);
  }

  /** The clean-up loop leaves an empty ring and nothing owed for it. */
  lemma {:induction false} ReleaseKeeps(ring: seq<Slot>, led: Ledger, bufLen: nat, i: nat)
    requires LedgerOk(ring, led, bufLen, {})
    requires i <= |ring| && forall k: nat :: k < i ==> !Holds(ring, k)
    ensures var (r, l) := ReleaseFrom(ring, led, bufLen, i);
            && |r| == |ring| && (forall k: nat :: !Holds(r, k))
            && LedgerOk(r, l, bufLen, {}) && l.live == {}
    decreases |ring| - i
  {
    if i == |ring| {
      RingEmptyIffNoSkbs(ring);
    } else if ring[i].skb.None? {
      ReleaseKeeps(ring, led, bufLen, i + 1);
    } else {
      var skb := ring[i].skb.value;
      SlotEmptied(ring, led, bufLen, {}, i);
      var r := ring[i := ring[i].(skb := None)];
      HandEmptied(r, Unmap(led, ring[i].dma, bufLen), bufLen, {}, skb, Freed);
      assert forall k: nat :: Holds(r, k) ==> Holds(ring, k) && k != i;
      ReleaseKeeps(r, Free(Unmap(led, ring[i].dma, bufLen), skb), bufLen, i + 1);
    }
  }

  lemma CleanupKeeps(s: State)
    requires Inv(s) && s.ctl == Disabled
    ensures Inv(CleanupStep(s))
  {
    var t := CleanupStep(s);
    ReleaseKeeps(s.ring, s.led, s.bufLen, 0);
    RingEmptyIffNoSkbs(t.ring);
    assert Queue(t) == [];
  }

  lemma StartKeeps(s: State, mtu: nat)
    requires Inv(s) && s.ctl == Down
    ensures Inv(StartStep(s, mtu))
  {
    var t := StartStep(s, mtu);
    assert Queue(t) == [];
    RingEmptyIffNoSkbs(s.ring);
    assert LedgerOk(t.ring, t.led, t.bufLen, {});
  }

  /** The steps that end a poll, or look at the lists afterwards, and move neither a buffer nor a list node. */
  lemma PollEndKeeps(s: State, e: Event)
    requires Inv(s) && Enabled(s, e) && (e in {PollFull, PollCheck} || e.PollComplete?)
    ensures Inv(Step(s, e))
  {
    var t := Step(s, e);
    assert Queue(t) == Queue(s);
    assert t.ring == s.ring && t.led == s.led && t.armed == s.armed && t.ctl == s.ctl;
  }

  /** The steps that schedule or begin one. */
  lemma PollBeginKeeps(s: State, e: Event)
    requires Inv(s) && Enabled(s, e) && (e in {CallbackSchedule, PollSchedule} || e.PollBegin?)
    ensures Inv(Step(s, e))
  {
    var t := Step(s, e);
    assert Queue(t) == Queue(s);
    assert t.ring == s.ring && t.led == s.led && t.armed == s.armed && t.ctl == s.ctl;
  }

  /** Those of a start or a stop. */
  lemma ControlKeeps(s: State, e: Event)
    requires Inv(s) && Enabled(s, e) && e in {FillEnd, StopFlag, NapiDisable}
    ensures Inv(Step(s, e))
  {
    var t := Step(s, e);
    assert Queue(t) == Queue(s);
    assert t.ring == s.ring && t.led == s.led && t.armed == s.armed;
  }

  lemma TerminateKeeps(s: State)
    requires Inv(s) && Enabled(s, Terminate)
    ensures Inv(Step(s, Terminate))
  {
    var t := Step(s, Terminate);
    assert Queue(t) == Queue(s);
  }

  lemma StepKeeps(s: State, e: Event)
    requires Inv(s) && Enabled(s, e)
    ensures Inv(Step(s, e))
  {
    match e
    case Start(mtu) => StartKeeps(s, mtu);
    case Fill(gotSkb, o) => FillKeeps(s, gotSkb, o);
    case Callback(i, ok, residue) => CallbackKeeps(s, i, ok, residue);
    case PollTake => TakeKeeps(s);
    case PollProcess(gotSkb) => ProcessKeeps(s, gotSkb);
    case PollRearm(o) => RearmKeeps(s, o);
    case Terminate => TerminateKeeps(s);
    case Cleanup => CleanupKeeps(s);
    case FillEnd => ControlKeeps(s, e);
    case StopFlag => ControlKeeps(s, e);
    case NapiDisable => ControlKeeps(s, e);
    case CallbackSchedule => PollBeginKeeps(s, e);
    case PollSchedule => PollBeginKeeps(s, e);
    case PollBegin(_) => PollBeginKeeps(s, e);
    case _ => PollEndKeeps(s, e);
  }

  // ---------------------------------------------------------------- runs

  predicate Legal(s: State, es: seq<Event>)
    decreases es
  {
    es == [] || (Enabled(s, es[0]) && Legal(Step(s, es[0]), es[1..]))
  }

  function Run(s: State, es: seq<Event>): State
    requires Legal(s, es)
    decreases es
  {
    if es == [] then s else Run(Step(s, es[0]), es[1..])
  }

  lemma {:induction false} RunKeeps(s: State, es: seq<Event>)
    requires Inv(s) && Legal(s, es)
    ensures Inv(Run(s, es))
    decreases es
  {
    if es != [] {
      StepKeeps(s, es[0]);
      RunKeeps(Step(s, es[0]), es[1..]);
    }
  }

  /** In every interleaving of start, completion, poll and stop a slot is mapped, with the current
      length, exactly when it holds a buffer; no kernel call is ever misused; and every buffer ever
      allocated is in one slot, in the poll routine's hands, or has been delivered or freed once. */
  lemma EveryRunOwnsItsBuffers(es: seq<Event>)
    requires Legal(Initial(), es)
    ensures var s := Run(Initial(), es);
            && s.led.faults == 0
            && (forall k: nat :: Holds(s.ring, k) ==>
                  s.ring[k].dma in s.led.maps && s.led.maps[s.ring[k].dma] == s.bufLen)
            && (forall dma <- s.led.maps :: exists k: nat :: Holds(s.ring, k) && s.ring[k].dma == dma)
            && (forall b: nat :: b < s.led.next ==>
                  (b in s.led.fate <==> !(b in Hand(s.napi) || exists k: nat :: Holds(s.ring, k) && s.ring[k].skb == Some(b))))
  {
    InitialOk();
    RunKeeps(Initial(), es);
    var s := Run(Initial(), es);
    forall dma <- s.led.maps
      ensures exists k: nat :: Holds(s.ring, k) && s.ring[k].dma == dma
    {
      assert dma in RingSkbs(s.ring);
      var k :| 0 <= k < |s.ring| && s.ring[k].skb.Some? && s.ring[k].skb.value == dma;
      assert Holds(s.ring, k);
    }
    forall b: nat | b < s.led.next
      ensures b in s.led.fate <==> !(b in Hand(s.napi) || exists k: nat :: Holds(s.ring, k) && s.ring[k].skb == Some(b))
    {
      if b in RingSkbs(s.ring) {
        var k :| 0 <= k < |s.ring| && s.ring[k].skb.Some? && s.ring[k].skb.value == b;
        assert Holds(s.ring, k);
      }
      assert b in s.led.live <==> b in RingSkbs(s.ring) || b in Hand(s.napi);
    }
  }

  /** Whenever the ring is down, after a stop or after a start that failed part-way, no buffer, mapping,
      armed descriptor or list node is left, and every buffer ever allocated was disposed of. */
  lemma DownLeavesNothing(es: seq<Event>)
    requires Legal(Initial(), es) && Run(Initial(), es).ctl == Down
    ensures var s := Run(Initial(), es);
            && s.led.maps == map[] && s.led.live == {} && s.led.faults == 0
            && (forall b: nat :: b < s.led.next <==> b in s.led.fate)
            && |s.ring| == RING && (forall k: nat :: k < RING ==> s.ring[k].skb == None)
            && s.armed == {} && s.rxDone == [] && s.rxPending == []
  {
    InitialOk();
    RunKeeps(Initial(), es);
    var s := Run(Initial(), es);
    assert s.led.maps.Keys == {};
    RingEmptyIffNoSkbs(s.ring);
    assert forall k: nat :: k < RING ==> !Holds(s.ring, k);
  }

  lemma StoppedStep(s: State, e: Event)
    requires Inv(s) && !s.running && Enabled(s, e) && !e.Start?
    ensures var t := Step(s, e);
            !t.running && t.armed <= s.armed && t.led.maps.Keys <= s.led.maps.Keys
  {
    if e.Cleanup? {
      ReleaseKeeps(s.ring, s.led, s.bufLen, 0);
      assert Step(s, e).led.maps.Keys == {};
    } else if e.PollProcess? {
      ProcessLedger(s.ring, s.led, s.bufLen, s.napi.slot);
    }
  }

  /** Once rx_running is cleared nothing is armed or mapped again until the next start. */
  lemma {:induction false} StoppedNeverRearms(s: State, es: seq<Event>)
    requires Inv(s) && !s.running && Legal(s, es)
    requires forall e <- es :: !e.Start?
    ensures var t := Run(s, es);
            !t.running && t.armed <= s.armed && t.led.maps.Keys <= s.led.maps.Keys
    decreases es
  {
    if es != [] {
      assert es[0] in es;
      StepKeeps(s, es[0]);
      StoppedStep(s, es[0]);
      forall f <- es[1..] ensures !f.Start? { assert f in es; }
      StoppedNeverRearms(Step(s, es[0]), es[1..]);
    }
  }

  lemma OtherStepsKeepTheLists(s: State, e: Event)
    requires Enabled(s, e) && !e.Callback? && !e.PollTake? && !e.Cleanup?
    ensures Step(s, e).rxPending == s.rxPending && Step(s, e).rxDone == s.rxDone
  {
    match e
    case Fill(_, _) =>
    case PollRearm(_) =>
    case _ =>
  }

  /** The two lists refine one queue: a completion joins its end, the poll routine takes its front,
      stopping empties it, and no other step touches it. */
  lemma HandOffIsFifo(s: State, e: Event)
    requires Inv(s) && Enabled(s, e)
    ensures var q, r := Queue(s), Queue(Step(s, e));
            match e
            case Callback(i, _, _) => r == q + [i]
            case PollTake => if q == [] then r == [] else r == q[1..] && Step(s, e).napi.slot == q[0]
            case Cleanup => r == []
            case _ => r == q
  {
    match e
    case Callback(i, ok, residue) => CallbackQueue(s, i, ok, residue);
    case PollTake =>
      TakeQueue(s);
      assert |Queue(s)| == |s.rxPending| + |s.rxDone|;
    case Cleanup =>
    case _ => OtherStepsKeepTheLists(s, e);
  }

  /** In every run the buffers taken are, in order, those completed, and the rest are still waiting;
      no node is on two lists, or on a list while its buffer is armed. */
  lemma EveryRunDeliversInOrder(es: seq<Event>)
    requires Legal(Initial(), es)
    ensures var s := Run(Initial(), es);
            && s.taken <= s.completed
            && (s.ctl != Down ==> s.completed == s.taken + s.rxPending + Reverse(s.rxDone))
            && Distinct(s.rxPending + Reverse(s.rxDone))
            && (forall k <- s.armed :: k !in s.rxPending && k !in s.rxDone)
  {
    InitialOk();
    RunKeeps(Initial(), es);
    var s := Run(Initial(), es);
    if s.ctl != Down {
      assert s.taken + Queue(s) == s.taken + s.rxPending + Reverse(s.rxDone);
    }
    forall k <- s.armed ensures k !in s.rxPending && k !in s.rxDone {
      assert k !in Queue(s);
    }
  }

  /** No completion is ever stranded: while the ring runs and a list is not empty, NAPI is scheduled or
      polling, or a callback or the tail of a poll is on its way to schedule it. */
  lemma EveryRunKeepsWakeups(es: seq<Event>)
    requires Legal(Initial(), es)
    ensures NoLostCompletion(Run(Initial(), es))
  {
    InitialOk();
    RunKeeps(Initial(), es);
  }

  /** No buffer waits for an engine that has not been told of it: once a ring is up, and whenever no poll is
      re-arming it, the engine has been started on every armed slot. */
  lemma EveryRunIssues(es: seq<Event>)
    requires Legal(Initial(), es)
    ensures var s := Run(Initial(), es);
            s.ctl == Up && !s.napi.Loop? && !s.napi.Took? && !s.napi.InHand? ==> s.issued == s.armed
  {
    InitialOk();
    RunKeeps(Initial(), es);
  }

  /** Completions unlinked since the last start that have been neither counted nor are about to be. */
  function Uncounted(s: State): int {
    |s.taken| - (s.stats.packets + s.stats.errors + s.stats.dropped) - (if s.napi.Took? then 1 else 0)
  }

  lemma StepCounts(s: State, e: Event)
    requires Enabled(s, e) && !e.Start?
    ensures Uncounted(Step(s, e)) == Uncounted(s)
  {
    match e
    case Fill(_, _) =>
    case PollRearm(_) =>
    case PollTake =>
    case _ =>
  }

  /** Between two starts every completion the poll routine unlinks is counted once: as a packet, an
      error or a drop. */
  lemma {:induction false} EveryCompletionIsCounted(s: State, es: seq<Event>)
    requires Legal(s, es) && forall e <- es :: !e.Start?
    ensures Uncounted(Run(s, es)) == Uncounted(s)
    decreases es
  {
    if es != [] {
      assert es[0] in es;
      forall f <- es[1..] ensures !f.Start? { assert f in es; }
      StepCounts(s, es[0]);
      EveryCompletionIsCounted(Step(s, es[0]), es[1..]);
    }
  }
}
