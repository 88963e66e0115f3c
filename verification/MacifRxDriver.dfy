/**
 One port's receive code as the driver writes it: the interrupt handler, the refill and the main loop's
 input routine, over a queue array with two indices. Between any two statements of the input routine
 the caller may let interrupts strike and the stack take or free pbufs.
 */
module MacifRxDriver {
  import opened MacifRx

  /** What happens around the statements of one turn of the input loop, and the stack's answer. */
  datatype Turn = Turn(afterRead: seq<Event>, afterAdvance: seq<Event>, afterCount: seq<Event>,
                       afterInput: seq<Event>, accepts: bool)

  const QUIET := Turn([], [], [], [], true)

  function TurnAt(turns: seq<Turn>, k: nat): Turn {
    if k < |turns| then turns[k] else QUIET
  }

  /** How many of the first `n` frames the stack refuses. */
  function Refusals(turns: seq<Turn>, n: nat): nat {
    if n == 0 then 0 else Refusals(turns, n - 1) + if TurnAt(turns, n - 1).accepts then 0 else 1
  }

  predicate IsOffer(o: Offer, port: nat, pbuf: nat, ok: bool) {
    o.port == port && o.pbuf == pbuf && o.ok == ok
  }

  /** One more call of netif->input. */
  predicate OneOffered(was: seq<Offer>, now: seq<Offer>, port: nat, pbuf: nat, ok: bool) {
    |now| == |was| + 1 && now[..|was|] == was && IsOffer(now[|was|], port, pbuf, ok)
  }

  /** `n` more, for the pbufs taken off the queue, with the answers of the turns. */
  predicate AllOffered(was: seq<Offer>, now: seq<Offer>, port: nat, pbufs: seq<nat>, turns: seq<Turn>) {
    && |now| == |was| + |pbufs| && now[..|was|] == was
    && forall k :: 0 <= k < |pbufs| ==> IsOffer(now[|was| + k], port, pbufs[k], TurnAt(turns, k).accepts)
  }

  lemma OfferedMore(was: seq<Offer>, mid: seq<Offer>, now: seq<Offer>, port: nat, pbufs: seq<nat>, pbuf: nat, turns: seq<Turn>)
    requires AllOffered(was, mid, port, pbufs, turns) && OneOffered(mid, now, port, pbuf, TurnAt(turns, |pbufs|).accepts)
    ensures AllOffered(was, now, port, pbufs + [pbuf], turns)
  {
    var all := pbufs + [pbuf];
    SamePrefix(mid, now, |was|);
    forall k | 0 <= k < |all| ensures IsOffer(now[|was| + k], port, all[k], TurnAt(turns, k).accepts) {
      if k < |pbufs| {
        assert IsOffer(mid[|was| + k], port, pbufs[k], TurnAt(turns, k).accepts);
        assert now[|was| + k] == now[..|mid|][|was| + k];
      }
    }
  }

  lemma SamePrefix(mid: seq<Offer>, now: seq<Offer>, n: nat)
    requires n <= |mid| <= |now| && now[..|mid|] == mid
    ensures now[..n] == mid[..n]
  {
    assert now[..n] == now[..|mid|][..n];
  }

  /** Where a call of the input routine began. */
  datatype Begun = Begun(entered: seq<nat>, left: seq<nat>, offered: seq<Offer>, frames: nat, inputErr: nat)

  /** What it has done after `n` frames. */
  predicate InputDone(b: Begun, now: Begun, port: nat, turns: seq<Turn>, n: nat) {
    && b.entered <= now.entered && b.left <= now.left && |now.left| == |b.left| + n
    && AllOffered(b.offered, now.offered, port, now.left[|b.left|..], turns)
    && (b.frames + n) % U32 == now.frames % U32 && (b.inputErr + Refusals(turns, n)) % U32 == now.inputErr % U32
  }

  lemma CountedOneMore(first: nat, n: nat, now: nat)
    requires (first + n) % U32 == now % U32
    ensures (first + (n + 1)) % U32 == ((now + 1) % U32) % U32
  {
    SumsAgree(first + n, now, 1);
  }

  lemma InputOneMore(b: Begun, mid: Begun, now: Begun, port: nat, turns: seq<Turn>, n: nat)
    requires InputDone(b, mid, port, turns, n) && mid.entered <= now.entered && mid.left < now.left
    requires |now.left| == |mid.left| + 1
    requires OneOffered(mid.offered, now.offered, port, now.left[|mid.left|], TurnAt(turns, n).accepts)
    requires now.frames == (mid.frames + 1) % U32
    requires now.inputErr == if TurnAt(turns, n).accepts then mid.inputErr else (mid.inputErr + 1) % U32
    ensures InputDone(b, now, port, turns, n + 1)
  {
    CountedOneMore(b.frames, n, mid.frames);
    CountedOneMore(b.inputErr, Refusals(turns, n), mid.inputErr);
    OfferedMore(b.offered, mid.offered, now.offered, port, mid.left[|b.left|..], now.left[|mid.left|], turns);
    assert now.left[|b.left|..] == mid.left[|b.left|..] + [now.left[|mid.left|]];
  }

  /** What may strike the main loop: interrupts, and the stack using the pool. */
  predicate Strikes(e: Event) {
    e.Isr? || e.IsrError? || e.StackAlloc? || e.StackFree?
  }

  predicate Interrupts(e: Event, p: nat) {
    (e.Isr? || e.IsrError?) && e.port == p
  }

  /** The causes the DMA engine reports: an error, and a completion or its delay timer. */
  datatype Irq = Irq(error: bool, transfer: bool)

  /** What a run guarantees about a port, as far as its code needs it. */
  lemma Reached(history: seq<Event>, p: nat)
    requires Legal(Initial(), history) && p < N_PORTS
    ensures var s := Run(Initial(), history);
            && Shaped(s) && |s.ports[p].armed| <= N_RX_BD
            && (forall b <- s.ports[p].armed :: b < POOL)
            && s.ports[p].entered == s.ports[p].left + Waiting(s.ports[p])
            && (s.main != Out ==> s.main.port < N_PORTS && s.main.pbuf < POOL)
            && (s.main.Read? ==> s.ports[s.main.port].rxQ[s.ports[s.main.port].tail] == s.main.pbuf
                                 && s.ports[s.main.port].head != s.ports[s.main.port].tail)
  {
    InitialOk();
    RunKeeps(Initial(), history);
    var s := Run(Initial(), history);
    assert PortOk(s.place, p, s.ports[p]);
    if s.main.Read? {
      var t := s.ports[s.main.port];
      Popped(t.rxQ, t.head, t.tail);
    }
  }

  /** An interrupt on another port, or the stack, does not touch this port. */
  lemma OthersLeaveAlone(history: seq<Event>, p: nat, e: Event)
    requires Legal(Initial(), history) && p < N_PORTS && Strikes(e) && Enabled(Run(Initial(), history), e)
    requires !Interrupts(e, p)
    ensures var s := Run(Initial(), history);
            Step(s, e).ports[p] == s.ports[p] && Step(s, e).main == s.main && Step(s, e).offered == s.offered
  {
    InitialOk();
    RunKeeps(Initial(), history);
    var s := Run(Initial(), history);
    if e.Isr? {
      ReclaimAllKeeps(s, e.port, e.done);
      ReclaimTouchesOnePort(s, e.port, e.done);
      RefillTouchesOnePort(ReclaimAll(s, e.port, e.done), e.port, e.answers);
    } else if e.IsrError? {
      ErrorTouchesOnePort(s, e.port, e.answers);
    }
  }

  lemma {:induction false} RefillLeavesAlone(s: State, p: nat, answers: seq<Answer>)
    requires Shaped(s) && p < N_PORTS
    ensures var t, u := s.ports[p], Refill(s, p, answers).ports[p];
            u.entered == t.entered && u.left == t.left && u.tail == t.tail && u.frames == t.frames && u.inputErr == t.inputErr
    ensures Refill(s, p, answers).main == s.main && Refill(s, p, answers).offered == s.offered
    decreases N_RX_BD - |s.ports[p].armed|
  {
    var t := s.ports[p];
    if |t.armed| < N_RX_BD {
      var a := First(answers);
      var b := MacifRx.Alloc(s.place, a.hint);
      if b.Some? && a.fault == NoFault { RefillLeavesAlone(Arm(s, p, b.value), p, Rest(answers)); }
    }
  }

  lemma {:induction false} ReclaimLeavesAlone(s: State, p: nat, done: seq<Completion>)
    requires Shaped(s) && p < N_PORTS
    ensures var t, u := s.ports[p], ReclaimAll(s, p, done).ports[p];
            t.entered <= u.entered && u.left == t.left && u.tail == t.tail && u.frames == t.frames && u.inputErr == t.inputErr
    ensures ReclaimAll(s, p, done).main == s.main && ReclaimAll(s, p, done).offered == s.offered
    decreases done
  {
    if done != [] { ReclaimLeavesAlone(ReclaimOne(s, p, done[0]), p, done[1..]); }
  }

  class Macif {
    const port: nat
    const rxQ: array<nat>
    var head: nat
    var tail: nat
    var armed: seq<nat>
    var bdErr: nat
    var qDrop: nat
    var frames: nat
    var nobuf: nat
    var inputErr: nat
    var dmaErr: nat
    var main: Main
    var place: seq<Place>          // the pbuf pool, shared with the stack and the other ports
    var others: seq<Port>          // the other ports
    var len: seq<nat>              // tot_len of each pbuf
    var offered: seq<Offer>        // calls of netif->input
    var reclaimed: nat             // what has passed through, for the specification
    var entered: seq<nat>
    var left: seq<nat>
    ghost var history: seq<Event>

    function PortView(): Port
      reads this, rxQ
    {
      Port(armed, rxQ[..], head, tail, bdErr, qDrop, frames, nobuf, inputErr, dmaErr, reclaimed, entered, left)
    }

    function View(): State
      reads this, rxQ
      requires port < |others|
    {
      State(place, others[port := PortView()], main, len, offered)
    }

    ghost predicate Valid()
      reads this, rxQ
    {
      && port < N_PORTS == |others| && rxQ.Length == QUEUE_LEN
      && Legal(Initial(), history) && Run(Initial(), history) == View()
    }

    constructor (p: nat)
      requires p < N_PORTS
      ensures Valid() && port == p && history == [] && fresh(rxQ)
    {
      port := p;
      rxQ := new nat[QUEUE_LEN](_ => 0);
      head, tail, armed, bdErr, qDrop, frames, nobuf, inputErr, dmaErr := 0, 0, [], 0, 0, 0, 0, 0, 0;
      main, place, others := Out, seq(POOL, _ => Free), seq(N_PORTS, _ => EmptyPort);
      reclaimed, entered, left, history := 0, [], [], [];
      len, offered := seq(POOL, _ => 0), [];
      new;
      assert rxQ[..] == EmptyPort.rxQ;
      assert View().ports == Initial().ports;
    }

    /** Its own data is well formed even where the history does not yet include what was just done. */
    ghost predicate Formed()
      reads this, rxQ
    {
      && port < N_PORTS == |others| && rxQ.Length == QUEUE_LEN && Shaped(View())
      && head < QUEUE_LEN && tail < QUEUE_LEN
    }

    /** A pbuf just taken from the pool is of the wrong shape, or the ring library refuses it. */
    method GiveBack(p: nat, fault: Fault)
      requires p < |place| && place[p] == Free
      modifies this`place, this`nobuf
      ensures place == old(place) && nobuf == if fault == Chained then (old(nobuf) + 1) % U32 else old(nobuf)
    {
      place := place[p := Hand];
      PbufFree(p);
      if fault == Chained { nobuf := (nobuf + 1) % U32; }
    }

    /** One turn of the loop in setup_rx_bds. */
    method SetupRxBd(a: Answer) returns (more: bool)
      requires Formed() && |armed| < N_RX_BD
      modifies this
      ensures Formed() && history == old(history) && (|armed| == |old(armed)| + if more then 1 else 0)
      ensures forall answers :: First(answers) == a ==>
                Refill(old(View()), port, answers) == if more then Refill(View(), port, Rest(answers)) else View()
    {
      ghost var s := View();
      assert s.ports[port] == PortView();
      more := false;
      var p := MacifRx.Alloc(place, a.hint);
      if p.None? {
        nobuf := (nobuf + 1) % U32;
        assert View().ports == s.ports[port := PortView()];
        return;
      }
      if a.fault != NoFault {
        GiveBack(p.value, a.fault);
        assert View().ports == s.ports[port := PortView()];
        return;
      }
      armed := armed + [p.value];
      place := place[p.value := Armed(port)];
      assert View().ports == s.ports[port := PortView()];
      assert View() == Arm(s, port, p.value);
      more := true;
    }

    /** setup_rx_bds. */
    method SetupRxBds(answers: seq<Answer>)
      requires Formed() && |armed| <= N_RX_BD
      modifies this
      ensures Formed() && View() == Refill(old(View()), port, answers) && history == old(history)
    {
      var n, rest := N_RX_BD - |armed|, answers;
      while n > 0
        invariant Formed() && n == N_RX_BD - |armed| && history == old(history)
        invariant Refill(View(), port, rest) == Refill(old(View()), port, answers)
      {
        assert View().ports[port] == PortView();
        var more := SetupRxBd(First(rest));
        if !more { return; }
        rest := Rest(rest);
        n := n - 1;
        assert View().ports[port] == PortView();
      }
      assert View().ports[port] == PortView();
    }

    /** pbuf_free of a pool pbuf. */
    method PbufFree(p: nat)
      requires p < |place|
      modifies this`place
      ensures place == old(place)[p := Free]
    {
      place := place[p := Free];
    }

    /** pbuf_realloc. */
    method PbufRealloc(p: nat, n: nat)
      requires p < |len|
      modifies this`len
      ensures len == old(len)[p := n]
    {
      len := len[p := n];
    }

    /** The slot is written before the index that publishes it moves. */
    method Enqueue(p: nat, next: nat)
      requires rxQ.Length == QUEUE_LEN && head < QUEUE_LEN && p < |place|
      modifies this`head, this`place, this`entered, rxQ
      ensures rxQ[..] == old(rxQ[..])[old(head) := p] && head == next
      ensures place == old(place)[p := Queued(port)] && entered == old(entered) + [p]
    {
      rxQ[head] := p;
      head := next;
      place := place[p := Queued(port)];
      entered := entered + [p];
    }

    /** A good frame: queued if there is room. */
    method Accept(p: nat)
      requires rxQ.Length == QUEUE_LEN && head < QUEUE_LEN && p < |place|
      modifies this`qDrop, this`head, this`entered, this`place, rxQ
      ensures var t := old(PortView());
              PortView() == if Next(t.head) == t.tail then t.(qDrop := (t.qDrop + 1) % U32)
                            else t.(rxQ := t.rxQ[t.head := p], head := Next(t.head), entered := t.entered + [p])
      ensures place == old(place)[p := Destination(old(PortView()), port, false)]
    {
      var next := Next(head);
      if next == tail {
        qDrop := (qDrop + 1) % U32;
        PbufFree(p);
      } else {
        Enqueue(p, next);
      }
    }

    /** The body of the loop in taxi_macif_rx_isr. */
    method Handle(c: Completion)
      requires rxQ.Length == QUEUE_LEN && head < QUEUE_LEN && armed != [] && armed[0] < |place| == |len|
      modifies this`armed, this`reclaimed, this`bdErr, this`qDrop, this`head, this`entered, this`place, this`len, rxQ
      ensures PortView() == TakenBack(old(PortView()), Bad(c))
      ensures place == old(place)[old(armed[0]) := Destination(old(PortView()), port, Bad(c))]
      ensures len == if Bad(c) then old(len) else old(len)[old(armed[0]) := c.len]
    {
      var p := armed[0];
      armed, reclaimed := armed[1..], reclaimed + 1;
      if c.error || !c.sof || !c.eof || c.len == 0 || c.len > RX_BUF_LEN {
        bdErr := (bdErr + 1) % U32;
        PbufFree(p);
      } else {
        PbufRealloc(p, c.len);
        Accept(p);
      }
    }

    method TakeBack(c: Completion)
      requires Formed() && armed != [] && armed[0] < POOL
      modifies this, rxQ
      ensures Formed() && View() == ReclaimOne(old(View()), port, c) && history == old(history)
      ensures armed == old(armed)[1..]
    {
      ghost var s := View();
      assert s.ports[port] == PortView();
      Handle(c);
      assert others[port := PortView()] == s.ports[port := PortView()];
    }

    /** The descriptors the hardware has completed, one after the other, and the refill. */
    method TakeAllBack(done: seq<Completion>, answers: seq<Answer>)
      requires Valid() && Enabled(View(), Isr(port, done, answers))
      modifies this, rxQ
      ensures Valid() && View() == Step(old(View()), Isr(port, done, answers))
      ensures history == old(history) + [Isr(port, done, answers)]
    {
      Reached(history, port);
      assert View().ports[port] == PortView();
      ghost var s, e := View(), Isr(port, done, answers);
      var i := 0;
      while i < |done|
        invariant Formed() && i <= |done| && history == old(history) && armed == old(armed)[i..]
        invariant ReclaimAll(View(), port, done[i..]) == ReclaimAll(s, port, done)
      {
        assert armed[0] in old(armed) && done[i..][1..] == done[i + 1..];
        TakeBack(done[i]);
        i := i + 1;
      }
      SetupRxBds(answers);
      history := history + [e];
      RunOneMore(Initial(), old(history), e);
    }

    /** What taxi_macif_rx_isr amounts to: an error is counted, what is missing is armed, and the engine is
        reset; otherwise completions are taken back, if the interrupt is about any. */
    ghost function IsrEvents(irq: Irq, done: seq<Completion>, answers: seq<Answer>): seq<Event> {
      if irq.error then [IsrError(port, answers)] else if irq.transfer then [Isr(port, done, answers)] else []
    }

    /** taxi_macif_rx_isr, for the descriptors the hardware has completed as `done`. */
    method RxIsr(irq: Irq, done: seq<Completion>, answers: seq<Answer>)
      requires Valid() && Enabled(View(), Isr(port, done, answers))
      modifies this, rxQ
      ensures Valid() && history == old(history) + IsrEvents(irq, done, answers)
      ensures View() == if irq.error then Step(old(View()), IsrError(port, answers))
                        else if irq.transfer then Step(old(View()), Isr(port, done, answers)) else old(View())
    {
      if irq.error {
        ErrorRefill(answers);
      } else if irq.transfer {
        TakeAllBack(done, answers);
      } else {
        assert history + [] == history;
      }
    }

    method CountError()
      requires port < N_PORTS == |others| && rxQ.Length == QUEUE_LEN
      modifies this`dmaErr
      ensures View().ports[port] == Erred(old(View()).ports[port])
      ensures View() == WithPort(old(View()), port, Erred(old(View()).ports[port]))
    {
      ghost var s := View();
      assert s.ports[port] == PortView();
      dmaErr := (dmaErr + 1) % U32;
      assert View().ports == s.ports[port := PortView()];
    }

    method ErrorRefill(answers: seq<Answer>)
      requires Valid()
      modifies this, rxQ
      ensures Valid() && Enabled(old(View()), IsrError(port, answers))
      ensures View() == Step(old(View()), IsrError(port, answers))
      ensures history == old(history) + [IsrError(port, answers)]
    {
      Reached(history, port);
      ghost var e := IsrError(port, answers);
      CountError();
      SetupRxBds(answers);
      history := history + [e];
      RunOneMore(Initial(), old(history), e);
    }

    /** A step of another port or of the stack. */
    method Elsewhere(e: Event)
      requires Valid() && Strikes(e) && Enabled(View(), e) && !Interrupts(e, port)
      modifies this`place, this`others, this`len, this`history
      ensures Valid() && View() == Step(old(View()), e) && history == old(history) + [e]
    {
      OthersLeaveAlone(history, port, e);
      RunOneMore(Initial(), history, e);
      TakeOver(Step(View(), e));
      history := history + [e];
    }

    /** Take over what another port or the stack has changed. */
    method TakeOver(r: State)
      requires port < |others| && Shaped(View()) && Shaped(r) && r.ports[port] == PortView()
      requires r.main == main && r.offered == offered && |others| == N_PORTS
      modifies this`place, this`others, this`len
      ensures |others| == N_PORTS && View() == r
    {
      place, others, len := r.place, r.ports, r.len;
    }

    /** Whatever strikes: those of `es` that can happen here, in order. The main loop's own progress
        is not disturbed, and the queue only grows. */
    method Struck(es: seq<Event>)
      requires Valid()
      modifies this, rxQ
      ensures Valid() && main == old(main) && tail == old(tail) && left == old(left) && frames == old(frames)
      ensures offered == old(offered) && inputErr == old(inputErr)
      ensures old(entered) <= entered && old(history) <= history && (es == [] ==> entered == old(entered))
    {
      for k := 0 to |es|
        invariant es == [] ==> entered == old(entered)
        invariant Valid() && main == old(main) && tail == old(tail) && left == old(left) && frames == old(frames)
        invariant offered == old(offered) && inputErr == old(inputErr)
        invariant old(entered) <= entered && old(history) <= history
      {
        if Strikes(es[k]) && Enabled(View(), es[k]) { Strike(es[k]); }
      }
    }

    method Strike(e: Event)
      requires Valid() && Strikes(e) && Enabled(View(), e)
      modifies this, rxQ
      ensures Valid() && main == old(main) && tail == old(tail) && left == old(left) && frames == old(frames)
      ensures offered == old(offered) && inputErr == old(inputErr)
      ensures old(entered) <= entered && old(history) <= history
    {
      ghost var s := View();
      assert s.ports[port] == PortView();
      if e.Isr? && e.port == port {
        ReclaimLeavesAlone(s, port, e.done);
        RefillLeavesAlone(ReclaimAll(s, port, e.done), port, e.answers);
        RxIsr(Irq(false, true), e.done, e.answers);
      } else if e.IsrError? && e.port == port {
        RefillLeavesAlone(WithPort(s, port, Erred(s.ports[port])), port, e.answers);
        RxIsr(Irq(true, false), [], e.answers);
      } else {
        OthersLeaveAlone(history, port, e);
        Elsewhere(e);
      }
      assert View().ports[port] == PortView();
    }

    /** Record a step once its effect is in place. */
    ghost method Record(e: Event, was: State)
      requires Legal(Initial(), history) && Run(Initial(), history) == was && Enabled(was, e)
      requires port < N_PORTS == |others| && rxQ.Length == QUEUE_LEN && View() == Step(was, e)
      modifies this`history
      ensures Valid() && history == old(history) + [e]
    {
      RunOneMore(Initial(), history, e);
      history := history + [e];
    }

    /** The head of the loop in taxi_macif_input: the slot is read before the tail moves. */
    method ReadSlot() returns (p: nat)
      requires Valid() && main == Out && tail != head
      modifies this
      ensures Valid() && main == Read(port, p) && tail == old(tail) && left == old(left)
      ensures entered == old(entered) && frames == old(frames) && history == old(history) + [InputRead(port)]
      ensures offered == old(offered) && inputErr == old(inputErr)
    {
      Reached(history, port);
      assert View().ports[port] == PortView();
      ghost var s := View();
      p := rxQ[tail];
      main := Read(port, p);
      Record(InputRead(port), s);
    }

    method AdvanceTail(p: nat)
      requires Valid() && main == Read(port, p)
      modifies this
      ensures Valid() && main == Advanced(port, p) && left == old(left) + [p]
      ensures entered == old(entered) && frames == old(frames) && history == old(history) + [InputAdvance]
      ensures offered == old(offered) && inputErr == old(inputErr)
    {
      Reached(history, port);
      ghost var s := View();
      assert s.ports[port] == PortView();
      tail := Next(tail);
      main, place, left := Advanced(port, p), place[p := Hand], left + [p];
      assert View().ports == s.ports[port := PortView()];
      assert View() == InputAdvanceStep(s);
      Record(InputAdvance, s);
    }

    method CountFrame(p: nat)
      requires Valid() && main == Advanced(port, p)
      modifies this
      ensures Valid() && main == Counted(port, p) && left == old(left)
      ensures entered == old(entered) && frames == (old(frames) + 1) % U32
      ensures history == old(history) + [InputCount]
      ensures offered == old(offered) && inputErr == old(inputErr)
    {
      Reached(history, port);
      ghost var s := View();
      assert s.ports[port] == PortView();
      frames := (frames + 1) % U32;
      main := Counted(port, p);
      assert View().ports == s.ports[port := PortView()];
      assert View() == InputCountStep(s);
      Record(InputCount, s);
    }

    /** What becomes of a pbuf offered to the stack. */
    method OfferFrame(p: nat, accepts: bool)
      requires p < |place| == |len|
      modifies this`place, this`inputErr, this`main, this`offered
      ensures place == old(place)[p := if accepts then Stack else Free] && main == Out
      ensures inputErr == if accepts then old(inputErr) else (old(inputErr) + 1) % U32
      ensures offered == old(offered) + [Offer(port, p, len[p], accepts)]
    {
      offered := offered + [Offer(port, p, len[p], accepts)];
      if accepts {
        place := place[p := Stack];
      } else {
        inputErr := (inputErr + 1) % U32;
        PbufFree(p);
      }
      main := Out;
    }

    /** netif->input, and the release of a pbuf it refuses. */
    method Deliver(p: nat, accepts: bool)
      requires Valid() && main == Counted(port, p)
      modifies this
      ensures Valid() && main == Out && left == old(left)
      ensures entered == old(entered) && frames == old(frames) && history == old(history) + [InputDeliver(accepts)]
      ensures OneOffered(old(offered), offered, port, p, accepts)
      ensures inputErr == if accepts then old(inputErr) else (old(inputErr) + 1) % U32
    {
      Reached(history, port);
      ghost var s := View();
      assert s.ports[port] == PortView();
      OfferFrame(p, accepts);
      assert View().ports == s.ports[port := PortView()];
      assert View() == InputDeliverStep(s, accepts);
      Record(InputDeliver(accepts), s);
    }

    /** Read the front of the queue and move the tail past it. */
    method TakeFront(afterRead: seq<Event>) returns (p: nat)
      requires Valid() && main == Out && tail != head
      modifies this, rxQ
      ensures Valid() && main == Advanced(port, p) && old(entered) <= entered && old(history) <= history
      ensures left == old(left) + [p] && frames == old(frames)
      ensures afterRead == [] ==> entered == old(entered)
      ensures offered == old(offered) && inputErr == old(inputErr)
    {
      p := ReadSlot();
      Struck(afterRead);
      AdvanceTail(p);
    }

    /** One turn of the loop in taxi_macif_input. */
    method InputOne(turn: Turn)
      requires Valid() && main == Out && tail != head
      modifies this, rxQ
      ensures Valid() && main == Out && old(entered) <= entered && old(history) <= history
      ensures |left| == |old(left)| + 1 && old(left) < left
      ensures frames == (old(frames) + 1) % U32
      ensures turn == QUIET ==> entered == old(entered)
      ensures OneOffered(old(offered), offered, port, left[|old(left)|], turn.accepts)
      ensures inputErr == if turn.accepts then old(inputErr) else (old(inputErr) + 1) % U32
    {
      var p := TakeFront(turn.afterRead);
      Struck(turn.afterAdvance);
      CountFrame(p);
      Struck(turn.afterCount);
      Deliver(p, turn.accepts);
    }

    /** What is still waiting, from the indices alone. */
    lemma Backlog()
      requires Valid()
      ensures left <= entered && |entered| - |left| == Count(head, tail)
      ensures head == tail ==> left == entered
    {
      Reached(history, port);
      assert View().ports[port] == PortView();
      assert Waiting(PortView()) == entered[|left|..];
    }

    ghost function Now(): Begun
      reads this
    {
      Begun(entered, left, offered, frames, inputErr)
    }

    /** One turn of its loop, and what strikes before the next. */
    method InputTurn(turns: seq<Turn>, n: nat, ghost b: Begun)
      requires Valid() && main == Out && tail != head && InputDone(b, Now(), port, turns, n)
      modifies this, rxQ
      ensures Valid() && main == Out && old(history) <= history && InputDone(b, Now(), port, turns, n + 1)
      ensures |left| == |old(left)| + 1 && (n >= |turns| ==> entered == old(entered))
    {
      ghost var mid := Now();
      InputOne(TurnAt(turns, n));
      InputOneMore(b, mid, Now(), port, turns, n);
      Struck(TurnAt(turns, n).afterInput);
    }

    /** taxi_macif_input. However often it is struck, it offers the stack exactly the frames it reports, in the
        order they entered the queue, leaves it those it takes and counts those it refuses, and returns only with
        the queue empty: every frame that was waiting when it was called, and every one that arrived meanwhile,
        has been offered. */
    method Input(turns: seq<Turn>) returns (n: nat)
      requires Valid() && main == Out
      modifies this, rxQ
      ensures Valid() && main == Out && old(history) <= history
      ensures left == entered && old(entered) <= entered && |left| == |old(left)| + n
      ensures tail == head && (old(frames) + n) % U32 == frames % U32
      ensures old(left) <= left && AllOffered(old(offered), offered, port, left[|old(left)|..], turns)
      ensures (old(inputErr) + Refusals(turns, n)) % U32 == inputErr % U32
    {
      n := 0;
      ghost var b := Now();
      assert left[|left|..] == [];
      Backlog();
      while tail != head
        invariant Valid() && main == Out && old(history) <= history
        invariant InputDone(b, Now(), port, turns, n)
        invariant left <= entered && (head == tail ==> left == entered)
        decreases if n < |turns| then |turns| - n else 0, |entered| - |left|
      {
        InputTurn(turns, n, b);
        Backlog();
        n := n + 1;
      }
    }
  }
}
