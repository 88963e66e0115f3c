/**
 The receive path as the driver writes it: fields updated in place by the callback, by the poll loop
 and by the start and stop loops. Each atomic section is a method that takes the machine of LinuxRx
 through one step, and the loops are runs of it. Wherever another context may run in between, the
 caller supplies the events that happen there, so a contract speaks of every interleaving.
 */
module LinuxRxDriver {
  import opened Ledger
  import opened LinuxRx

  /** Which part of the driver is being run, and so which events only it may cause. */
  datatype Context = PollLoop | PollTail | Rtnl

  predicate Outside(c: Context, e: Event) {
    match c
    case PollLoop =>
      !(e.PollBegin? || e.PollTake? || e.PollProcess? || e.PollRearm? || e.PollFull? || e.PollComplete?)
    case PollTail => !(e.PollCheck? || e.PollSchedule?)
    case Rtnl =>
      !(e.Start? || e.Fill? || e.FillEnd? || e.StopFlag? || e.Terminate? || e.NapiDisable? || e.Cleanup?)
  }

  ghost predicate AllOutside(c: Context, es: seq<Event>) {
    forall e <- es :: Outside(c, e)
  }

  predicate Polling(n: Napi) {
    n.Loop? || n.Took? || n.InHand? || n.Finishing?
  }

  lemma {:induction false} RunAppend(s: State, es: seq<Event>, fs: seq<Event>)
    requires Legal(s, es) && Legal(Run(s, es), fs)
    ensures Legal(s, es + fs) && Run(s, es + fs) == Run(Run(s, es), fs)
    decreases es
  {
    if es == [] {
      assert es + fs == fs;
    } else {
      assert (es + fs)[1..] == es[1..] + fs;
      RunAppend(Step(s, es[0]), es[1..], fs);
    }
  }

  lemma OneStep(t: State, e: Event)
    requires Enabled(t, e)
    ensures Legal(t, [e]) && Run(t, [e]) == Step(t, e)
  {
    var u := Step(t, e);
    assert [e][0] == e && [e][1..] == [];
    assert Legal(u, []) && Run(u, []) == u;
    assert Legal(t, [e]);
  }

  lemma RunOneMore(s: State, es: seq<Event>, e: Event)
    requires Legal(s, es) && Enabled(Run(s, es), e)
    ensures Legal(s, es + [e]) && Run(s, es + [e]) == Step(Run(s, es), e)
  {
    OneStep(Run(s, es), e);
    RunAppend(s, es, [e]);
  }

  /** What every reachable state guarantees about the slot the poll routine is holding. */
  lemma Reached(history: seq<Event>)
    requires Legal(Initial(), history)
    ensures var s := Run(Initial(), history);
            && |s.ring| == RING
            && (s.napi.Took? ==> Holds(s.ring, s.napi.slot))
            && (s.napi.InHand? ==> s.napi.slot < RING)
            && (s.napi == Off <==> s.ctl in {Down, Disabled})
  {
    InitialOk();
    RunKeeps(Initial(), history);
  }

  /** What the other contexts leave alone: the poll routine keeps its place in the loop, the tail of a
      poll keeps its turn to look, and a start or stop keeps its progress. */
  predicate Keeps(c: Context, s: State, t: State) {
    match c
    case PollLoop => Polling(s.napi) ==> t.napi == s.napi
    case PollTail => t.checking >= s.checking && t.rescheduling >= s.rescheduling
    case Rtnl => t.ctl == s.ctl && t.bufLen == s.bufLen
  }

  lemma StepUndisturbed(c: Context, s: State, e: Event)
    requires Enabled(s, e) && Outside(c, e)
    requires s.napi == Off <==> s.ctl in {Down, Disabled}
    ensures Keeps(c, s, Step(s, e))
  {
    match e
    case Start(_) =>
    case Fill(_, _) =>
    case PollTake =>
    case PollProcess(_) =>
    case PollRearm(_) =>
    case Cleanup =>
    case _ =>
  }

  /** The buffers a trace re-arms or gives up on: the work a poll reports. */
  function Handled(trace: seq<Event>): nat {
    if trace == [] then 0
    else Handled(trace[..|trace| - 1]) + (if trace[|trace| - 1].PollRearm? then 1 else 0)
  }

  lemma HandledMore(trace: seq<Event>, e: Event)
    ensures Handled(trace + [e]) == Handled(trace) + (if e.PollRearm? then 1 else 0)
  {
    assert (trace + [e])[..|trace|] == trace;
  }

  lemma {:induction false} HandledOutside(trace: seq<Event>, more: seq<Event>)
    requires AllOutside(PollLoop, more)
    ensures Handled(trace + more) == Handled(trace)
    decreases more
  {
    if more == [] {
      assert trace + more == trace;
    } else {
      var front, e := more[..|more| - 1], more[|more| - 1];
      assert e in more;
      forall f <- front ensures Outside(PollLoop, f) { assert f in more; }
      assert trace + more == (trace + front) + [e];
      HandledMore(trace + front, e);
      HandledOutside(trace, front);
    }
  }

  /** The poll completes NAPI at position `k` of the trace and looks at rx_done after that. */
  ghost predicate LeavesAt(trace: seq<Event>, k: nat) {
    k < |trace| && trace[k].PollComplete? && exists m: nat :: k < m < |trace| && trace[m] == PollCheck
  }

  /** An upper bound on the steps a poll in progress still takes. */
  function StepsLeft(n: Napi): nat {
    match n
    case Loop(d, b) => if d < b then 4 * (b - d) + 2 else 2
    case Took(_, d, b) => if d < b then 4 * (b - d) + 1 else 4
    case InHand(_, _, d, b) => if d < b then 4 * (b - d) else 3
    case Finishing => 1
    case _ => 0
  }

  lemma PollEffect(s: State, e: Event)
    requires Enabled(s, e)
    ensures var n := Step(s, e).napi;
            && (e == PollTake ==> n == Finishing || (n.Took? && n.done == s.napi.done && n.budget == s.napi.budget))
            && (e.PollProcess? ==> n.InHand? && n.done == s.napi.done && n.budget == s.napi.budget)
            && (e.PollRearm? ==> n == Loop(s.napi.done + 1, s.napi.budget))
            && (e.PollBegin? ==> n == Loop(0, e.budget))
            && (e.PollFull? ==> n == Scheduled)
  {
    match e
    case PollTake =>
    case PollProcess(_) =>
    case PollRearm(_) =>
    case _ =>
  }

  lemma FillEffect(s: State, gotSkb: bool, o: SubmitOutcome)
    requires Enabled(s, Fill(gotSkb, o))
    ensures var t := Step(s, Fill(gotSkb, o));
            && t.bufLen == s.bufLen
            && t.ctl == if gotSkb && o == Submits then Filling(s.ctl.next + 1) else Failing
  {
  }

  lemma WaitingShrinks(s: State, e: Event)
    requires Polling(s.napi) && Enabled(s, e)
    requires e == PollTake || e == PollFull || e.PollProcess? || e.PollRearm? || e.PollComplete?
    ensures StepsLeft(Step(s, e).napi) < StepsLeft(s.napi) && Step(s, e).ctl == s.ctl
    ensures Polling(Step(s, e).napi) || Step(s, e).napi in {Idle, Scheduled}
  {
    match e
    case PollTake =>
    case PollRearm(_) =>
    case _ =>
  }

  class RxPath {
    const rxRing: array<Slot>
    var rxBufLen: nat
    var rxRunning: bool
    var rxDone: seq<nat>
    var rxPending: seq<nat>
    var stats: Stats
    // What the kernel and the DMA engine know about this device.
    var armed: set<nat>
    var callbacks: nat
    var napi: Napi
    var checking: nat
    var rescheduling: nat
    var ctl: Ctl
    var led: Ledger
    // The order of events since the last start.
    var completed: seq<nat>
    var taken: seq<nat>
    var issued: set<nat>
    var given: seq<Frame>
    ghost var history: seq<Event>  // everything that has happened to this device

    function View(): State
      reads this, rxRing
    {
      State(rxRing[..], rxBufLen, rxRunning, rxDone, rxPending, armed, callbacks, napi, checking,
            rescheduling, ctl, led, stats, completed, taken, issued, given)
    }

    constructor ()
      ensures View() == Initial() && fresh(rxRing) && history == [] && Valid()
    {
      rxRing := new Slot[RING](_ => Slot(None, 0, 0, false));
      rxBufLen, rxRunning, rxDone, rxPending := 0, false, [], [];
      stats := Stats(0, 0, 0, 0);
      armed, callbacks, napi, checking, rescheduling := {}, 0, Off, 0, 0;
      ctl, led, completed, taken, history := Down, Empty, [], [], [];
      issued, given := {}, [];
      new;
      assert rxRing[..] == Initial().ring;
    }

    method NapiSchedule()
      modifies this`napi
      ensures napi == Schedule(old(napi))
    {
      if napi == Idle { napi := Scheduled; }
    }

    /** taxi_rx_submit. */
    method RxSubmit(i: nat, skb: nat, o: SubmitOutcome) returns (ok: bool)
      requires i < rxRing.Length
      modifies this`led, this`armed, rxRing
      ensures View() == Submit(old(View()), i, skb, o)
      ensures ok == (o == Submits)
    {
      if o == MapFails { return false; }
      led := Map(led, skb, rxBufLen);
      if o == PrepFails {
        led := Unmap(led, skb, rxBufLen);
        return false;
      }
      rxRing[i] := rxRing[i].(skb := Some(skb), dma := skb);
      if o == SubmitFails {
        rxRing[i] := rxRing[i].(skb := None);
        led := Unmap(led, skb, rxBufLen);
        return false;
      }
      armed := armed + {i};
      return true;
    }

    /** taxi_rx_complete, up to the point where it schedules NAPI. */
    method RxComplete(i: nat, noError: bool, residue: nat)
      requires i < rxRing.Length
      modifies this`armed, this`issued, this`rxDone, this`callbacks, this`completed, rxRing
      ensures View() == CallbackStep(old(View()), i, noError, residue)
    {
      var error := !noError || residue > rxBufLen;
      rxRing[i] := rxRing[i].(error := error, len := if error then 0 else rxBufLen - residue);
      armed, issued := armed - {i}, issued - {i};
      rxDone := [i] + rxDone;
      callbacks := callbacks + 1;
      completed := completed + [i];
    }

    /** llist_reverse_order on a list nobody else can see. */
    method ReverseOrder(list: seq<nat>) returns (r: seq<nat>)
      ensures r == Reverse(list)
    {
      r := [];
      var rest := list;
      while rest != []
        invariant Reverse(rest) + r == Reverse(list)
      {
        assert Reverse(rest) + r == Reverse(rest[1..]) + ([rest[0]] + r);
        r := [rest[0]] + r;
        rest := rest[1..];
      }
    }

    /** The head of the loop in taxi_rx_poll; `more` tells whether a node was unlinked. */
    method TakeNode() returns (more: bool)
      requires napi.Loop?
      modifies this`rxDone, this`rxPending, this`napi, this`taken, this`issued
      ensures View() == TakeStep(old(View()))
      ensures more == napi.Took?
    {
      var done, budget := napi.done, napi.budget;
      if rxPending == [] {
        var node := rxDone;
        rxDone := [];
        if node == [] {
          napi := Finishing;
          if done > 0 { IssuePending(); }
          return false;
        }
        rxPending := ReverseOrder(node);
      }
      taken := taken + [rxPending[0]];
      napi := Took(rxPending[0], done, budget);
      rxPending := rxPending[1..];
      return true;
    }

    /** dma_async_issue_pending. */
    method IssuePending()
      modifies this`issued
      ensures issued == armed
    {
      issued := armed;
    }

    /** taxi_rx_process up to its resubmit label. */
    method ProcessBuffer(gotSkb: bool)
      requires napi.Took? && Holds(rxRing[..], napi.slot)
      modifies this`led, this`stats, this`given, this`napi, rxRing
      ensures View() == ProcessStep(old(View()), gotSkb)
    {
      var Took(i, done, budget) := napi;
      var buf := rxRing[i];
      var skb := buf.skb.value;
      led := Unmap(led, buf.dma, rxBufLen);
      rxRing[i] := buf.(skb := None);
      var newSkb := skb;
      if buf.error || buf.len < ETH_HLEN {
        stats := stats.(errors := stats.errors + 1);
      } else if !gotSkb {
        stats := stats.(dropped := stats.dropped + 1);
      } else {
        newSkb := led.next;
        led := Alloc(led);
        stats := stats.(packets := stats.packets + 1, bytes := stats.bytes + buf.len);
        led, given := Deliver(led, skb), given + [Frame(skb, buf.len)];
      }
      napi := InHand(i, newSkb, done, budget);
    }

    /** The rest of taxi_rx_process: re-arm under the lock, or free the buffer. */
    method RearmBuffer(o: SubmitOutcome)
      requires napi.InHand? && napi.slot < rxRing.Length
      modifies this`napi, this`led, this`armed, rxRing
      ensures View() == RearmStep(old(View()), o)
    {
      var InHand(i, skb, done, budget) := napi;
      napi := Loop(done + 1, budget);
      var ok := false;
      if rxRunning { ok := RxSubmit(i, skb, o); }
      if !ok { led := Free(led, skb); }
    }

    /** One event caused by a context other than the one being modelled. */
    method Happen(e: Event)
      requires Enabled(View(), e)
      modifies this, rxRing
      ensures history == old(history)
      ensures View() == Step(old(View()), e)
    {
      match e
      case Callback(i, ok, residue) => RxComplete(i, ok, residue);
      case CallbackSchedule => callbacks := callbacks - 1; NapiSchedule();
      case PollBegin(_) => HappenInPoll(e);
      case PollTake => HappenInPoll(e);
      case PollProcess(_) => HappenInPoll(e);
      case PollRearm(_) => HappenInPoll(e);
      case PollFull => HappenInPoll(e);
      case PollComplete(_) => HappenInPoll(e);
      case PollCheck => HappenInPoll(e);
      case PollSchedule => HappenInPoll(e);
      case _ => HappenInControl(e);
    }

    predicate InPoll(e: Event) {
      e.PollBegin? || e.PollTake? || e.PollProcess? || e.PollRearm? || e.PollFull? || e.PollComplete? || e.PollCheck?
      || e.PollSchedule?
    }

    /** A step of the poll routine. */
    method HappenInPoll(e: Event)
      requires Enabled(View(), e) && InPoll(e)
      modifies this, rxRing
      ensures history == old(history)
      ensures View() == Step(old(View()), e)
    {
      match e
      case PollBegin(budget) => napi := Loop(0, budget);
      case PollTake => var _ := TakeNode();
      case PollProcess(gotSkb) => ProcessBuffer(gotSkb);
      case PollRearm(o) => RearmBuffer(o);
      case PollFull => if napi.done > 0 { IssuePending(); } napi := Scheduled;
      case PollComplete(missed) => NapiCompleteDone(missed);
      case PollCheck => CheckAgain();
      case PollSchedule => rescheduling := rescheduling - 1; NapiSchedule();
    }

    /** A step of a start or a stop. */
    method HappenInControl(e: Event)
      requires Enabled(View(), e) && !InPoll(e) && !e.Callback? && !e.CallbackSchedule?
      modifies this, rxRing
      ensures history == old(history)
      ensures View() == Step(old(View()), e)
    {
      match e
      case Start(mtu) => StartFields(mtu);
      case Fill(gotSkb, o) => FillOne(gotSkb, o);
      case FillEnd => IssuePending(); ctl := Up;
      case StopFlag => rxRunning := false; ctl := Stopping;
      case Terminate => armed, issued := {}, {}; ctl := Quiesced;
      case NapiDisable => napi := Off; ctl := Disabled;
      case Cleanup => ReleaseBuffers();
    }

    method NapiCompleteDone(missed: bool)
      modifies this`napi, this`checking
      ensures View() == CompleteStep(old(View()), missed)
    {
      napi := if missed then Scheduled else Idle;
      checking := checking + 1;
    }

    /** The re-check of rx_done after napi_complete_done. */
    method CheckAgain()
      requires checking > 0
      modifies this`checking, this`rescheduling
      ensures View() == CheckStep(old(View()))
    {
      checking := checking - 1;
      if rxDone != [] { rescheduling := rescheduling + 1; }
    }

    /** taxi_rx_ring_start up to its loop. */
    method StartFields(mtu: nat)
      modifies this`rxBufLen, this`rxRunning, this`napi, this`ctl, this`completed, this`taken
      ensures View() == StartStep(old(View()), mtu)
    {
      rxBufLen, rxRunning := mtu + FRAME_OVERHEAD, true;
      napi, ctl, completed, taken := Idle, Filling(0), [], [];
    }

    /** One iteration of the loop in taxi_rx_ring_start. */
    method FillOne(gotSkb: bool, o: SubmitOutcome)
      requires ctl.Filling? && ctl.next < rxRing.Length
      modifies this`ctl, this`led, this`armed, rxRing
      ensures View() == FillStep(old(View()), gotSkb, o)
    {
      if !gotSkb {
        ctl := Failing;
        return;
      }
      var skb := led.next;
      led := Alloc(led);
      var ok := RxSubmit(ctl.next, skb, o);
      if ok {
        ctl := Filling(ctl.next + 1);
      } else {
        led := Free(led, skb);
        ctl := Failing;
      }
    }

    /** The end of taxi_rx_ring_stop: drop both lists and free every buffer still in the ring. */
    method ReleaseBuffers()
      modifies this`rxDone, this`rxPending, this`led, this`ctl, rxRing
      ensures View() == CleanupStep(old(View()))
    {
      rxDone := [];
      rxPending := [];
      for i := 0 to rxRing.Length
        invariant ReleaseFrom(rxRing[..], led, rxBufLen, i)
               == ReleaseFrom(old(rxRing[..]), old(led), old(rxBufLen), 0)
        invariant rxDone == [] && rxPending == [] && ctl == old(ctl)
      {
        var buf := rxRing[i];
        if buf.skb.None? { continue; }
        led := Free(Unmap(led, buf.dma, rxBufLen), buf.skb.value);
        rxRing[i] := buf.(skb := None);
      }
      ctl := Down;
    }

    // ------------------------------------------------------------ whole routines

    /** The device is where the events so far have brought it. */
    ghost predicate Valid()
      reads this, rxRing
    {
      Legal(Initial(), history) && Run(Initial(), history) == View()
    }

    /** The events since `mark`. */
    ghost function Since(mark: nat): seq<Event>
      reads this
    {
      if mark <= |history| then history[mark..] else []
    }

    /** One step, whichever context takes it. */
    method Do(e: Event)
      requires Valid() && Enabled(View(), e)
      modifies this, rxRing
      ensures Valid() && history == old(history) + [e]
      ensures View() == Step(old(View()), e)
    {
      RunOneMore(Initial(), history, e);
      Happen(e);
      history := history + [e];
    }

    /** Whatever else happens at a preemption point: those of `es` that can happen there, in order. */
    method Preempt(c: Context, es: seq<Event>)
      requires Valid()
      modifies this, rxRing
      ensures Valid() && old(history) <= history && AllOutside(c, Since(|old(history)|))
      ensures Keeps(c, old(View()), View())
    {
      for k := 0 to |es|
        invariant Valid() && old(history) <= history && AllOutside(c, Since(|old(history)|))
        invariant Keeps(c, old(View()), View())
      {
        if Outside(c, es[k]) && Enabled(View(), es[k]) {
          Reached(history);
          StepUndisturbed(c, View(), es[k]);
          ghost var since := Since(|old(history)|);
          Do(es[k]);
          assert Since(|old(history)|) == since + [es[k]];
        }
      }
    }

    /** taxi_rx_poll. `script` says what the other contexts do at each preemption point, `gotSkb` and
        `outcome` how the kernel answers the k-th buffer; whatever they are, the poll handles exactly
        as many buffers as it reports and never more than its budget, and one that returns early has
        completed NAPI and then looked at rx_done once more. */
    method Poll(budget: nat, script: nat -> seq<Event>, gotSkb: nat -> bool,
                outcome: nat -> SubmitOutcome, missed: bool)
      returns (done: nat)
      requires Valid() && napi == Scheduled
      modifies this, rxRing
      ensures Valid() && old(history) <= history
      ensures done <= budget
      ensures done == budget ==> Handled(Since(|old(history)|)) == done && napi == Scheduled
      ensures done < budget ==>
        exists k: nat :: LeavesAt(Since(|old(history)|), k) && Handled(Since(|old(history)|)[..k]) == done
    {
      ghost var mark := |history|;
      BeginPoll(budget, mark);
      done := Work(budget, script, gotSkb, outcome, mark);
      StepAside(script(3 * done), mark);
      if done < budget {
        ghost var front := Since(mark);
        Finish(script, 3 * done + 1, missed, mark);
        assert Since(mark)[..|front|] == front;
      } else {
        EndFull(mark);
      }
    }

    /** The loop in taxi_rx_poll. */
    method Work(budget: nat, script: nat -> seq<Event>, gotSkb: nat -> bool, outcome: nat -> SubmitOutcome,
                ghost mark: nat)
      returns (done: nat)
      requires Valid() && mark <= |history| && napi == Loop(0, budget)
      modifies this, rxRing
      ensures Valid() && old(history) <= history && done <= budget
      ensures napi == if done < budget then Finishing else Loop(done, budget)
      ensures Handled(Since(mark)) == Handled(old(Since(mark))) + done
    {
      done := 0;
      var more := true;
      while done < budget && more
        invariant Valid() && old(history) <= history && done <= budget && (!more ==> done < budget)
        invariant napi == if more then Loop(done, budget) else Finishing
        invariant Handled(Since(mark)) == Handled(old(Since(mark))) + done
        decreases budget - done, more
      {
        more := PollOne(script, gotSkb(done), outcome(done), mark);
        if more { done := done + 1; }
      }
    }

    /** One iteration of the loop in taxi_rx_poll, with a preemption point before each of its parts. */
    method PollOne(script: nat -> seq<Event>, gotSkb: bool, o: SubmitOutcome, ghost mark: nat)
      returns (more: bool)
      requires Valid() && mark <= |history| && napi.Loop? && napi.done < napi.budget
      modifies this, rxRing
      ensures Valid() && old(history) <= history
      ensures more ==> napi == Loop(old(napi).done + 1, old(napi).budget)
      ensures !more ==> napi == Finishing
      ensures Handled(Since(mark)) == Handled(old(Since(mark))) + (if more then 1 else 0)
    {
      var k := 3 * napi.done;
      StepAside(script(k), mark);
      TakeOne(mark);
      if napi == Finishing { return false; }
      StepAside(script(k + 1), mark);
      ProcessOne(gotSkb, mark);
      StepAside(script(k + 2), mark);
      RearmOne(o, mark);
      return true;
    }

    /** A step of the poll routine, and what it adds to the work since `mark`. */
    method PollStep(e: Event, ghost mark: nat)
      requires Valid() && mark <= |history| && Enabled(View(), e)
      modifies this, rxRing
      ensures Valid() && old(history) <= history
      ensures Handled(Since(mark)) == Handled(old(Since(mark))) + (if e.PollRearm? then 1 else 0)
      ensures napi == Step(old(View()), e).napi
    {
      ghost var since := Since(mark);
      HandledMore(since, e);
      Do(e);
      assert Since(mark) == since + [e];
    }

    /** The kernel calls the poll routine. */
    method BeginPoll(budget: nat, ghost mark: nat)
      requires Valid() && mark <= |history| && napi == Scheduled
      modifies this, rxRing
      ensures Valid() && old(history) <= history
      ensures Handled(Since(mark)) == Handled(old(Since(mark)))
      ensures napi == Loop(0, budget)
    {
      Reached(history);
      PollEffect(View(), PollBegin(budget));
      PollStep(PollBegin(budget), mark);
    }

    /** The head of the loop. */
    method TakeOne(ghost mark: nat)
      requires Valid() && mark <= |history| && napi.Loop? && napi.done < napi.budget
      modifies this, rxRing
      ensures Valid() && old(history) <= history
      ensures Handled(Since(mark)) == Handled(old(Since(mark)))
      ensures napi == Finishing || (napi.Took? && napi.done == old(napi).done && napi.budget == old(napi).budget)
    {
      Reached(history);
      PollEffect(View(), PollTake);
      PollStep(PollTake, mark);
    }

    /** Deliver the frame, or keep its buffer. */
    method ProcessOne(gotSkb: bool, ghost mark: nat)
      requires Valid() && mark <= |history| && napi.Took?
      modifies this, rxRing
      ensures Valid() && old(history) <= history
      ensures Handled(Since(mark)) == Handled(old(Since(mark)))
      ensures napi.InHand? && napi.done == old(napi).done && napi.budget == old(napi).budget
    {
      Reached(history);
      PollEffect(View(), PollProcess(gotSkb));
      PollStep(PollProcess(gotSkb), mark);
    }

    /** Give the slot a buffer again, or free the buffer. */
    method RearmOne(o: SubmitOutcome, ghost mark: nat)
      requires Valid() && mark <= |history| && napi.InHand?
      modifies this, rxRing
      ensures Valid() && old(history) <= history
      ensures Handled(Since(mark)) == Handled(old(Since(mark))) + 1
      ensures napi == Loop(old(napi).done + 1, old(napi).budget)
    {
      Reached(history);
      PollEffect(View(), PollRearm(o));
      PollStep(PollRearm(o), mark);
    }

    /** The budget is used up: the kernel will poll again. */
    method EndFull(ghost mark: nat)
      requires Valid() && mark <= |history| && napi.Loop? && napi.done >= napi.budget
      modifies this, rxRing
      ensures Valid() && old(history) <= history
      ensures Handled(Since(mark)) == Handled(old(Since(mark)))
      ensures napi == Scheduled
    {
      Reached(history);
      PollEffect(View(), PollFull);
      PollStep(PollFull, mark);
    }

    /** A preemption point inside the poll loop. */
    method StepAside(es: seq<Event>, ghost mark: nat)
      requires Valid() && mark <= |history| && Polling(napi)
      modifies this, rxRing
      ensures Valid() && old(history) <= history
      ensures napi == old(napi) && Handled(Since(mark)) == Handled(old(Since(mark)))
    {
      ghost var before := history;
      Preempt(PollLoop, es);
      HandledOutside(before[mark..], Since(|before|));
      assert Since(mark) == before[mark..] + Since(|before|);
    }

    /** The second look at rx_done, and the scheduling of another poll if it finds something. */
    method LookAgain(es: seq<Event>)
      requires Valid() && checking > 0
      modifies this, rxRing
      ensures Valid() && old(history) + [PollCheck] <= history
    {
      var sees := rxDone != [];
      Reached(history);
      Do(PollCheck);
      if sees {
        Preempt(PollTail, es);
        Reached(history);
        Do(PollSchedule);
      }
    }

    method CompleteNapi(missed: bool)
      requires Valid() && napi == Finishing
      modifies this, rxRing
      ensures Valid() && history == old(history) + [PollComplete(missed)] && checking == old(checking) + 1
    {
      Reached(history);
      Do(PollComplete(missed));
    }

    /** The tail of taxi_rx_poll: complete, then look at rx_done once more. Another poll may already be
        running when it looks. */
    method Finish(script: nat -> seq<Event>, point: nat, missed: bool, ghost mark: nat)
      requires Valid() && mark <= |history| && napi == Finishing
      modifies this, rxRing
      ensures Valid() && old(history) <= history
      ensures LeavesAt(Since(mark), |old(Since(mark))|)
    {
      ghost var k := |history|;
      CompleteNapi(missed);
      Preempt(PollTail, script(point));
      ghost var m := |history|;
      LookAgain(script(point + 1));
      assert history[k].PollComplete? && history[m] == PollCheck;
      assert Since(mark)[k - mark] == history[k] && Since(mark)[m - mark] == history[m];
    }

    /** taxi_rx_ring_stop. It waits for callbacks and for a poll in progress, which ends on its own,
        and leaves the ring down whatever state it found it in. */
    method RingStop(script: nat -> seq<Event>, gotSkb: bool, outcome: SubmitOutcome, missed: bool)
      requires Valid() && (ctl == Up || ctl == Failing)
      modifies this, rxRing
      ensures Valid() && old(history) <= history && ctl == Down
    {
      DoControl(StopFlag);
      Preempt(Rtnl, script(0));
      AwaitCallbacks();
      DoControl(Terminate);
      Preempt(Rtnl, script(1));
      AwaitPoll(gotSkb, outcome, missed);
      DoControl(NapiDisable);
      Preempt(Rtnl, script(2));
      DoControl(Cleanup);
    }

    /** A step of a stop, and where it leaves the ring. */
    method DoControl(e: Event)
      requires Valid()
      requires || (e == StopFlag && (ctl == Up || ctl == Failing))
               || (e == Terminate && ctl == Stopping && callbacks == 0)
               || (e == NapiDisable && ctl == Quiesced && (napi == Idle || napi == Scheduled))
               || (e == Cleanup && ctl == Disabled)
      modifies this, rxRing
      ensures Valid() && history == old(history) + [e]
      ensures ctl == if e == StopFlag then Stopping else if e == Terminate then Quiesced
                     else if e == NapiDisable then Disabled else Down
    {
      Reached(history);
      Do(e);
    }

    /** dmaengine_terminate_sync lets the callbacks that have started finish. */
    method AwaitCallbacks()
      requires Valid()
      modifies this, rxRing
      ensures Valid() && old(history) <= history && ctl == old(ctl) && callbacks == 0
    {
      while callbacks > 0
        invariant Valid() && old(history) <= history && ctl == old(ctl)
      {
        Reached(history);
        Do(CallbackSchedule);
      }
    }

    /** napi_disable lets a poll that has started finish. */
    method AwaitPoll(gotSkb: bool, outcome: SubmitOutcome, missed: bool)
      requires Valid() && ctl == Quiesced
      modifies this, rxRing
      ensures Valid() && old(history) <= history
      ensures ctl == Quiesced && (napi == Idle || napi == Scheduled)
    {
      while Polling(napi)
        invariant Valid() && old(history) <= history && ctl == Quiesced
        decreases StepsLeft(napi)
      {
        var e := match napi
          case Loop(d, b) => if d < b then PollTake else PollFull
          case Took(_, _, _) => PollProcess(gotSkb)
          case InHand(_, _, _, _) => PollRearm(outcome)
          case _ => PollComplete(missed);
        Reached(history);
        WaitingShrinks(View(), e);
        Do(e);
      }
      Reached(history);
    }

    /** taxi_rx_ring_start. It either brings the whole ring up with buffers for the new MTU, or, if the
        kernel refuses anything on the way, undoes everything it did. */
    method RingStart(mtu: nat, script: nat -> seq<Event>, gotSkb: nat -> bool,
                     outcome: nat -> SubmitOutcome)
      returns (ok: bool)
      requires Valid() && ctl == Down
      modifies this, rxRing
      ensures Valid() && old(history) <= history
      ensures ok <==> forall i: nat :: i < RING ==> gotSkb(i) && outcome(i) == Submits
      ensures ok ==> ctl == Up && rxBufLen == mtu + FRAME_OVERHEAD
      ensures !ok ==> ctl == Down
    {
      Begin(mtu);
      var i := 0;
      while i < RING
        invariant i <= RING && Valid() && old(history) <= history
        invariant ctl == Filling(i) && rxBufLen == mtu + FRAME_OVERHEAD
        invariant forall k: nat :: k < i ==> gotSkb(k) && outcome(k) == Submits
      {
        FillNext(script(i), gotSkb(i), outcome(i));
        if ctl == Failing {
          AbandonStart(script);
          return false;
        }
        i := i + 1;
      }
      Opened();
      return true;
    }

    method AbandonStart(script: nat -> seq<Event>)
      requires Valid() && ctl == Failing
      modifies this, rxRing
      ensures Valid() && old(history) <= history && ctl == Down
    {
      RingStop((k: nat) => script(RING + k), false, MapFails, false);
    }

    method Begin(mtu: nat)
      requires Valid() && ctl == Down
      modifies this, rxRing
      ensures Valid() && old(history) <= history
      ensures ctl == Filling(0) && rxBufLen == mtu + FRAME_OVERHEAD
    {
      Reached(history);
      Do(Start(mtu));
    }

    /** A preemption point, then one iteration of the loop. */
    method FillNext(es: seq<Event>, gotSkb: bool, o: SubmitOutcome)
      requires Valid() && ctl.Filling? && ctl.next < RING
      modifies this, rxRing
      ensures Valid() && old(history) <= history && rxBufLen == old(rxBufLen)
      ensures ctl == if gotSkb && o == Submits then Filling(old(ctl).next + 1) else Failing
    {
      Preempt(Rtnl, es);
      Reached(history);
      FillEffect(View(), gotSkb, o);
      Do(Fill(gotSkb, o));
    }

    method Opened()
      requires Valid() && ctl == Filling(RING)
      modifies this, rxRing
      ensures Valid() && old(history) <= history && rxBufLen == old(rxBufLen) && ctl == Up
    {
      Reached(history);
      Do(FillEnd);
    }
  }
}
