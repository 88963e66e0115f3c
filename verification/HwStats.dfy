/**
 The ethtool statistics poll against the free-running flags and counters: what it adds up, what it
 can lose, and what it never can. One step is one clock edge; the poll's bus accesses take effect at
 edges of their own, with any number of edges in between.
 */
module HwStats {
  import opened RegFile

  const U64: nat := 0x1_0000_0000_0000_0000

  /** Where taxi_get_ethtool_stats is. Between reading a counter and clearing it, it holds the value. */
  datatype Poll =
    | Resting(next: nat)                 // about to read counter `next`, or the flags after the last
    | Clearing(counter: nat)             // read and added, not yet cleared
    | ClearingFlags(seen: seq<bool>)     // flags read, not yet written back

  datatype Act = Quiet | ReadCounter | ClearCounter | ReadFlags | ClearFlags

  datatype Edge = Edge(errors: seq<bool>, events: seq<bool>, act: Act)

  datatype State = State(
    flags: seq<bool>,
    counters: seq<nat>,
    poll: Poll,
    hwCounters: seq<nat>,      // u64 totals kept by the driver
    hwFlags: seq<nat>,
    // The truth, as an observer of the hardware would count it.
    events: seq<nat>,          // events of each kind so far
    windows: seq<nat>,         // those that fell from the read of their counter to its clear
    rises: seq<nat>)           // times each flag was set when clear, or set again as it was cleared

  const Zeros: seq<nat> := [0, 0, 0, 0, 0, 0]
  const Initial := State([false, false, false, false, false, false], Zeros, Resting(0), Zeros, Zeros, Zeros, Zeros, Zeros)

  predicate Shaped(s: State) {
    && |s.flags| == 6 && |s.counters| == 6 && |s.hwCounters| == 6 && |s.hwFlags| == 6
    && |s.events| == 6 && |s.windows| == 6 && |s.rises| == 6
    && (s.poll.Resting? ==> s.poll.next <= 6)
    && (s.poll.Clearing? ==> s.poll.counter < 6)
    && (s.poll.ClearingFlags? ==> |s.poll.seen| == 6)
  }

  predicate Enabled(s: State, e: Edge) {
    && Shaped(s) && |e.errors| == 6 && |e.events| == 6
    && match e.act
       case Quiet => true
       case ReadCounter => s.poll.Resting? && s.poll.next < 6
       case ClearCounter => s.poll.Clearing?
       case ReadFlags => s.poll == Resting(6)
       case ClearFlags => s.poll.ClearingFlags?
  }

  predicate Cleared(s: State, e: Edge, k: nat) {
    e.act == ClearCounter && s.poll == Clearing(k)
  }

  predicate FlagCleared(s: State, e: Edge, k: nat) {
    e.act == ClearFlags && s.poll.ClearingFlags? && k < |s.poll.seen| && s.poll.seen[k]
  }

  /** Counter `k` has been read and not cleared. */
  predicate InWindow(s: State, k: nat) {
    s.poll == Clearing(k)
  }

  /** An event at this edge comes too late for the poll's read and too early to survive its clear. */
  predicate MissedByPoll(s: State, e: Edge, k: nat) {
    InWindow(s, k) || (e.act == ReadCounter && s.poll == Resting(k))
  }

  function Step(s: State, e: Edge): (t: State)
    requires Enabled(s, e)
    ensures Shaped(t)
  {
    State(
      seq(6, k requires 0 <= k < 6 => NextFlag(s.flags[k], e.errors[k], FlagCleared(s, e, k))),
      seq(6, k requires 0 <= k < 6 => NextCounter(s.counters[k], e.events[k], Cleared(s, e, k))),
      match e.act
      case Quiet => s.poll
      case ReadCounter => Clearing(s.poll.next)
      case ClearCounter => Resting(s.poll.counter + 1)
      case ReadFlags => ClearingFlags(s.flags)
      case ClearFlags => Resting(0),
      if e.act == ReadCounter then
        s.hwCounters[s.poll.next := (s.hwCounters[s.poll.next] + s.counters[s.poll.next]) % U64]
      else s.hwCounters,
      seq(6, k requires 0 <= k < 6 => if FlagCleared(s, e, k) then (s.hwFlags[k] + 1) % U64 else s.hwFlags[k]),
      seq(6, k requires 0 <= k < 6 => s.events[k] + B2N(e.events[k])),
      seq(6, k requires 0 <= k < 6 => s.windows[k] + B2N(e.events[k] && MissedByPoll(s, e, k))),
      seq(6, k requires 0 <= k < 6 =>
        s.rises[k] + B2N(e.errors[k] && (!s.flags[k] || FlagCleared(s, e, k)))))
  }

  ghost predicate CountersOk(s: State)
    requires Shaped(s)
  {
    forall k :: 0 <= k < 6 && s.events[k] < U64 ==> CounterOk(s, k)
  }

  predicate CounterOk(s: State, k: nat)
    requires Shaped(s) && k < 6
  {
    var live := if InWindow(s, k) then 0 else s.counters[k];
    && s.hwCounters[k] + live <= s.events[k]
    && (s.events[k] < U32 ==>
          && s.counters[k] <= s.events[k]
          && s.events[k] == s.hwCounters[k] + live + s.windows[k])
  }

  ghost predicate FlagsOk(s: State)
    requires Shaped(s)
  {
    && (forall k :: 0 <= k < 6 && s.rises[k] < U64 ==> s.rises[k] == s.hwFlags[k] + B2N(s.flags[k]))
    && (s.poll.ClearingFlags? ==> forall k :: 0 <= k < 6 && s.poll.seen[k] ==> s.flags[k])
  }

  ghost predicate Inv(s: State) {
    Shaped(s) && CountersOk(s) && FlagsOk(s)
  }

  lemma StepKeeps(s: State, e: Edge)
    requires Inv(s) && Enabled(s, e)
    ensures Inv(Step(s, e))
    ensures forall k :: 0 <= k < 6 && Step(s, e).events[k] < U64 ==> s.hwCounters[k] <= Step(s, e).hwCounters[k]
    ensures forall k :: 0 <= k < 6 ==> s.events[k] <= Step(s, e).events[k]
  {
    var t := Step(s, e);
    forall k | 0 <= k < 6 && t.events[k] < U64
      ensures s.hwCounters[k] <= t.hwCounters[k]
      ensures CounterOk(t, k)
    {
      CounterKeeps(s, e, k);
    }
  }

  lemma CounterKeeps(s: State, e: Edge, k: nat)
    requires Shaped(s) && Enabled(s, e) && k < 6 && Step(s, e).events[k] < U64
    requires s.events[k] < U64 ==> CounterOk(s, k)
    ensures s.events[k] <= Step(s, e).events[k]
    ensures s.hwCounters[k] <= Step(s, e).hwCounters[k] && CounterOk(Step(s, e), k)
  {
  }

  predicate Legal(s: State, es: seq<Edge>)
    decreases es
  {
    es == [] || (Enabled(s, es[0]) && Legal(Step(s, es[0]), es[1..]))
  }

  function Run(s: State, es: seq<Edge>): (t: State)
    requires Shaped(s) && Legal(s, es)
    ensures Shaped(t)
    decreases es
  {
    if es == [] then s else Run(Step(s, es[0]), es[1..])
  }

  lemma {:induction false} RunKeeps(s: State, es: seq<Edge>)
    requires Inv(s) && Legal(s, es)
    ensures Inv(Run(s, es))
    ensures forall k :: 0 <= k < 6 ==> s.events[k] <= Run(s, es).events[k]
    ensures forall k :: 0 <= k < 6 && Run(s, es).events[k] < U64 ==> s.hwCounters[k] <= Run(s, es).hwCounters[k]
    decreases es
  {
    if es != [] {
      StepKeeps(s, es[0]);
      RunKeeps(Step(s, es[0]), es[1..]);
    }
  }

  /** Between polls a total plus the live register never exceeds the true count; totals never
      decrease; and while fewer than 2^32 events have occurred the only ones missing are those that
      fell between the read of their counter and its clear. */
  lemma TotalsAreLowerBounds(s: State, es: seq<Edge>, k: nat)
    requires Inv(s) && Legal(s, es) && k < 6 && Run(s, es).events[k] < U64
    ensures var t := Run(s, es);
            && s.hwCounters[k] <= t.hwCounters[k]
            && (!InWindow(t, k) ==> t.hwCounters[k] + t.counters[k] <= t.events[k])
            && (t.events[k] < U32 && !InWindow(t, k) ==>
                  t.events[k] == t.hwCounters[k] + t.counters[k] + t.windows[k])
  {
    RunKeeps(s, es);
  }

  /** At how many of the edges counter `k` has an event. */
  function Occurred(es: seq<Edge>, k: nat): nat
    decreases es
  {
    if es == [] then 0 else B2N(k < |es[0].events| && es[0].events[k]) + Occurred(es[1..], k)
  }

  /** The true counts are those of the edges. */
  lemma {:induction false} CountsAreTrue(s: State, es: seq<Edge>, k: nat)
    requires Shaped(s) && Legal(s, es) && k < 6
    ensures Run(s, es).events[k] == s.events[k] + Occurred(es, k)
    decreases es
  {
    if es != [] { CountsAreTrue(Step(s, es[0]), es[1..], k); }
  }

  /** No error flag is ever cleared unseen: every rise of a flag has been counted by a poll, except the
      one the flag still shows; so a flag falls only at the edge where a poll that saw it counts it. */
  lemma NoFlagIsSilent(s: State, es: seq<Edge>, k: nat)
    requires Inv(s) && Legal(s, es) && k < 6 && Run(s, es).rises[k] < U64
    ensures var t := Run(s, es); t.rises[k] == t.hwFlags[k] + B2N(t.flags[k])
  {
    RunKeeps(s, es);
  }

  /** A flag that falls is counted at that very edge. */
  lemma FallingFlagIsCounted(s: State, e: Edge, k: nat)
    requires Inv(s) && Enabled(s, e) && k < 6 && s.flags[k] && !Step(s, e).flags[k]
    ensures s.poll.ClearingFlags? && s.poll.seen[k] && Step(s, e).hwFlags[k] == (s.hwFlags[k] + 1) % U64
  {
  }

  // ---------------------------------------------------------------- through the register file

  lemma FlagsWordBits(f: seq<bool>, k: nat)
    requires |f| == 6 && k < 6
    ensures Bit(FlagsWord(f), k) == f[k]
  {
    assert Pow2(1) == 2 && Pow2(2) == 4 && Pow2(3) == 8;
    assert Pow2(4) == 16 && Pow2(5) == 32;
  }

  /** What the poll does to flags and counters is what the register file does when the poll's words are
      written: writing back the flags word clears exactly the flags it showed, and any write to a
      counter's address clears that counter and no other. */
  lemma PollActsThroughRegisters(r: Regs, i: Signals, seen: seq<bool>)
    requires RegFile.Shaped(r) && WellFormed(i) && i.resetn && |seen| == 6
    requires WriteTo(r.wr, FLAGS).Some? ==> r.wr.wBeat.data == FlagsWord(seen)
    ensures forall k :: 0 <= k < 6 ==>
              Next(r, i).flags[k] == NextFlag(r.flags[k], i.errors[k], WriteTo(r.wr, FLAGS).Some? && seen[k])
    ensures forall k :: 0 <= k < 6 ==>
              && Next(r, i).counters[k] == NextCounter(r.counters[k], CounterEvent(i, k), WriteTo(r.wr, COUNTERS + 4 * k).Some?)
              && ReadMux(r, i, COUNTERS + 4 * k) == r.counters[k]
    ensures ReadMux(r, i, FLAGS) == FlagsWord(r.flags)
  {
    forall k | 0 <= k < 6 ensures Bit(FlagsWord(seen), k) == seen[k] { FlagsWordBits(seen, k); }
  }
}
