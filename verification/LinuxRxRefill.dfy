/**
 That the driver puts its receive buffers back: over every run the slots without a buffer are just the refills
 that were refused, told from the events alone.
 */
module LinuxRxRefill {
  import opened LinuxRx

  /** The refills refused since the ring was last started. */
  function Refused(es: seq<Event>): nat {
    if es == [] then 0
    else match es[|es| - 1]
      case Start(_) => 0
      case PollRearm(o) => Refused(es[..|es| - 1]) + if o == Submits then 0 else 1
      case _ => Refused(es[..|es| - 1])
  }

  /** The slots with a buffer to fill, with one that waits for the poll routine, or in its hands. */
  function InUse(s: State): nat {
    |s.armed| + |s.rxPending| + |s.rxDone| + if s.napi.Took? || s.napi.InHand? then 1 else 0
  }

  /** Each slot that the start has reached is in use, or its refill was refused. */
  predicate AllButRefused(s: State, refused: nat) {
    && (s.ctl.Filling? ==> InUse(s) + refused == s.ctl.next)
    && (s.ctl == Up ==> InUse(s) + refused == 128)
  }

  predicate Passing(s: State) {
    s.ctl == Up || s.ctl.Filling?
  }

  lemma CallbackUses(s: State, i: nat, ok: bool, residue: nat)
    requires Enabled(s, Callback(i, ok, residue))
    ensures InUse(CallbackStep(s, i, ok, residue)) == InUse(s)
  {
  }

  lemma TakeUses(s: State)
    requires s.napi.Loop?
    ensures InUse(TakeStep(s)) == InUse(s)
  {
  }

  lemma FillUses(s: State, o: SubmitOutcome)
    requires s.ctl.Filling? && s.ctl.next < |s.ring| && s.ctl.next !in s.armed && o == Submits
    ensures InUse(FillStep(s, true, o)) == InUse(s) + 1 && FillStep(s, true, o).ctl == Filling(s.ctl.next + 1)
  {
    var t := FillStep(s, true, o);
    assert t.armed == s.armed + {s.ctl.next} && t.napi == s.napi && t.rxPending == s.rxPending && t.rxDone == s.rxDone;
  }

  lemma RearmUses(s: State, o: SubmitOutcome)
    requires s.napi.InHand? && s.napi.slot < |s.ring| && s.napi.slot !in s.armed && s.running
    ensures InUse(RearmStep(s, o)) + (if o == Submits then 0 else 1) == InUse(s) && RearmStep(s, o).ctl == s.ctl
  {
    var t := RearmStep(s, o);
    assert t.armed == (if o == Submits then s.armed + {s.napi.slot} else s.armed) && t.napi.Loop?;
    assert t.rxPending == s.rxPending && t.rxDone == s.rxDone;
  }

  lemma NotArmedYet(s: State)
    requires Inv(s)
    ensures s.ctl.Filling? && s.ctl.next < RING ==> s.ctl.next !in s.armed
    ensures s.napi.InHand? ==> s.napi.slot !in s.armed
    ensures Passing(s) ==> s.running
  {
    if s.ctl.Filling? { assert Untouched(s, s.ctl.next); }
    if s.napi.InHand? { assert s.napi.slot in HeldSlot(s.napi); }
  }

  lemma FillCounted(s: State, gotSkb: bool, o: SubmitOutcome, refused: nat)
    requires Inv(s) && Enabled(s, Fill(gotSkb, o)) && AllButRefused(s, refused)
    ensures AllButRefused(FillStep(s, gotSkb, o), refused)
  {
    NotArmedYet(s);
    if gotSkb && o == Submits { FillUses(s, o); }
  }

  lemma RearmCounted(s: State, o: SubmitOutcome, refused: nat)
    requires Inv(s) && Enabled(s, PollRearm(o)) && AllButRefused(s, refused)
    ensures AllButRefused(RearmStep(s, o), refused + if o == Submits then 0 else 1)
  {
    NotArmedYet(s);
    if Passing(s) { RearmUses(s, o); } else { assert RearmStep(s, o).ctl == s.ctl; }
  }

  lemma StartCounted(s: State, mtu: nat)
    requires Inv(s) && s.ctl == Down
    ensures AllButRefused(StartStep(s, mtu), 0)
  {
  }

  lemma StepCounted(s: State, e: Event, refused: nat)
    requires Inv(s) && Enabled(s, e) && AllButRefused(s, refused)
    ensures AllButRefused(Step(s, e), if e.Start? then 0 else refused + if e.PollRearm? && e.outcome != Submits then 1 else 0)
  {
    match e
    case Start(mtu) => StartCounted(s, mtu);
    case Callback(i, ok, residue) => CallbackUses(s, i, ok, residue);
    case PollTake => TakeUses(s);
    case Fill(gotSkb, o) => FillCounted(s, gotSkb, o, refused);
    case PollRearm(o) => RearmCounted(s, o, refused);
    case _ =>
  }

  lemma {:induction false} RunSplits(s: State, es: seq<Event>)
    requires es != [] && Legal(s, es)
    ensures var n := |es| - 1;
            Legal(s, es[..n]) && Enabled(Run(s, es[..n]), es[n]) && Run(s, es) == Step(Run(s, es[..n]), es[n])
    decreases es
  {
    var n := |es| - 1;
    if n > 0 {
      assert es[..n][1..] == es[1..][..n - 1];
      RunSplits(Step(s, es[0]), es[1..]);
    }
  }

  lemma {:induction false} RefusedRuns(es: seq<Event>)
    requires Legal(Initial(), es)
    ensures AllButRefused(Run(Initial(), es), Refused(es))
    decreases es
  {
    if es != [] {
      var n := |es| - 1;
      RunSplits(Initial(), es);
      InitialOk();
      RunKeeps(Initial(), es[..n]);
      RefusedRuns(es[..n]);
      StepCounted(Run(Initial(), es[..n]), es[n], Refused(es[..n]));
    }
  }

  /** Over every run, in a ring that is up, each of the 128 slots has a buffer with the engine, waiting, or in the
      poll routine's hands, but for one slot for each refill that was refused since the ring was started. */
  lemma EveryRunRefills(es: seq<Event>)
    requires Legal(Initial(), es) && Run(Initial(), es).ctl == Up
    ensures var s := Run(Initial(), es);
            |s.armed| + |Queue(s)| + (if s.napi.Took? || s.napi.InHand? then 1 else 0) + Refused(es) == 128
  {
    RefusedRuns(es);
  }
}
