/**
 taxi_get_ethtool_stats as the driver writes it: a loop of read, add and clear, then the flags, with
 clock edges passing between any two accesses.
 */
module HwStatsDriver {
  import opened RegFile
  import opened HwStats

  /** The errors and events of one clock edge. */
  datatype Pulses = Pulses(errors: seq<bool>, events: seq<bool>)

  function During(p: Pulses, act: Act): (e: Edge)
    ensures |e.errors| == 6 && |e.events| == 6 && e.act == act
  {
    var none := [false, false, false, false, false, false];
    Edge(if |p.errors| == 6 then p.errors else none, if |p.events| == 6 then p.events else none, act)
  }

  /** Every flag of the first shows in the second. */
  predicate StillShow(was: seq<bool>, now: seq<bool>) {
    |was| == 6 && |now| == 6 && forall k :: 0 <= k < 6 && was[k] ==> now[k]
  }

  class Port {
    // hardware
    var flags: seq<bool>
    var counters: seq<nat>
    // struct taxi_priv
    var hwCounters: seq<nat>
    var hwFlags: seq<nat>
    // the access sequence and the truth
    var poll: Poll
    var events: seq<nat>
    var windows: seq<nat>
    var rises: seq<nat>

    function View(): State
      reads this
    {
      State(flags, counters, poll, hwCounters, hwFlags, events, windows, rises)
    }

    constructor ()
      ensures View() == Initial && Inv(View())
    {
      flags, counters, poll := Initial.flags, Zeros, Resting(0);
      hwCounters, hwFlags, events, windows, rises := Zeros, Zeros, Zeros, Zeros, Zeros;
    }

    /** One clock edge, with whatever the bus does at it. */
    method Pass(e: Edge)
      requires Inv(View()) && Enabled(View(), e)
      modifies this
      ensures View() == Step(old(View()), e) && Inv(View())
      ensures forall k :: 0 <= k < 6 && events[k] < U64 ==> old(hwCounters)[k] <= hwCounters[k]
      ensures forall k :: 0 <= k < 6 ==> old(events)[k] <= events[k] && old(windows)[k] <= windows[k]
    {
      StepKeeps(View(), e);
      var t := Step(View(), e);
      flags, counters, poll := t.flags, t.counters, t.poll;
      hwCounters, hwFlags, events, windows, rises := t.hwCounters, t.hwFlags, t.events, t.windows, t.rises;
    }

    /** Edges at which software does nothing; at each, some errors and events may occur. */
    method Wait(edges: seq<Pulses>)
      requires Inv(View())
      modifies this
      ensures Inv(View()) && poll == old(poll)
      ensures hwCounters == old(hwCounters) && hwFlags == old(hwFlags) && StillShow(old(flags), flags)
      ensures forall k :: 0 <= k < 6 ==> old(events)[k] <= events[k] && old(windows)[k] <= windows[k]
    {
      for n := 0 to |edges|
        invariant Inv(View()) && poll == old(poll)
        invariant hwCounters == old(hwCounters) && hwFlags == old(hwFlags) && StillShow(old(flags), flags)
        invariant forall k :: 0 <= k < 6 ==> old(events)[k] <= events[k] && old(windows)[k] <= windows[k]
      {
        Pass(During(edges[n], Quiet));
        assert hwCounters == old(hwCounters) && hwFlags == old(hwFlags);
      }
    }

    /** Read one counter, add it to its total, clear it. Every event up to then is in the total, but for those that
        fell from a read to a clear. */
    method PollCounter(i: nat, before: seq<Pulses>, atRead: Pulses, between: seq<Pulses>, atClear: Pulses)
      requires Inv(View()) && poll == Resting(i) && i < 6
      modifies this
      ensures Inv(View()) && poll == Resting(i + 1) && hwFlags == old(hwFlags) && StillShow(old(flags), flags)
      ensures forall k :: 0 <= k < 6 ==> old(events)[k] <= events[k] && old(windows)[k] <= windows[k]
      ensures forall k :: 0 <= k < 6 && k != i ==> hwCounters[k] == old(hwCounters)[k]
      ensures events[i] < U32 ==> old(events)[i] <= hwCounters[i] + windows[i]
      ensures events[i] < U64 ==> old(hwCounters)[i] <= hwCounters[i]
    {
      Wait(before);
      Pass(During(atRead, ReadCounter));
      assert InWindow(View(), i) && (events[i] < U32 ==> CounterOk(View(), i) && events[i] == hwCounters[i] + windows[i]);
      Wait(between);
      Pass(During(atClear, ClearCounter));
    }

    /** Read the flags and write them back; each of them that is set is counted. */
    method PollFlags(before: seq<Pulses>, atRead: Pulses, between: seq<Pulses>, atClear: Pulses)
      requires Inv(View()) && poll == Resting(6)
      modifies this
      ensures Inv(View()) && poll == Resting(0) && hwCounters == old(hwCounters)
      ensures forall k :: 0 <= k < 6 ==> old(events)[k] <= events[k] && old(windows)[k] <= windows[k]
      ensures forall k :: 0 <= k < 6 && rises[k] < U64 && old(flags)[k] ==> hwFlags[k] == old(hwFlags)[k] + 1
    {
      Wait(before);
      Pass(During(atRead, ReadFlags));
      assert forall k :: 0 <= k < 6 && old(flags)[k] ==> poll.seen[k];
      Wait(between);
      Pass(During(atClear, ClearFlags));
    }

    /** taxi_get_ethtool_stats. What it reports for a counter is between the total of the previous poll
        and the true count, and it leaves out no event from before the call but those that fell from a read to a
        clear. It reports every rise of a flag but those still showing, and counts each flag that showed. */
    method GetEthtoolStats(pause: nat -> seq<Pulses>, at: nat -> Pulses)
      returns (counts: seq<nat>, flagCounts: seq<nat>)
      requires Inv(View()) && poll == Resting(0)
      modifies this
      ensures Inv(View()) && poll == Resting(0)
      ensures |counts| == 6 && counts == hwCounters && |flagCounts| == 6 && flagCounts == hwFlags
      ensures forall k :: 0 <= k < 6 && events[k] < U64 ==> old(hwCounters)[k] <= counts[k] <= events[k]
      ensures forall k :: 0 <= k < 6 && events[k] < U32 ==> old(events)[k] <= counts[k] + windows[k]
      ensures forall k :: 0 <= k < 6 && rises[k] < U64 ==> rises[k] == flagCounts[k] + B2N(flags[k])
      ensures forall k :: 0 <= k < 6 && rises[k] < U64 && old(flags)[k] ==> flagCounts[k] == old(hwFlags)[k] + 1
    {
      var i := 0;
      while i < 6
        invariant i <= 6 && Inv(View()) && poll == Resting(i) && hwFlags == old(hwFlags) && StillShow(old(flags), flags)
        invariant forall k :: 0 <= k < 6 ==> old(events)[k] <= events[k]
        invariant forall k :: 0 <= k < i && events[k] < U32 ==> old(events)[k] <= hwCounters[k] + windows[k]
        invariant forall k :: i <= k < 6 ==> hwCounters[k] == old(hwCounters)[k]
        invariant forall k :: 0 <= k < i && events[k] < U64 ==> old(hwCounters)[k] <= hwCounters[k]
      {
        PollCounter(i, pause(2 * i), at(2 * i), pause(2 * i + 1), at(2 * i + 1));
        i := i + 1;
      }
      PollFlags(pause(12), at(12), pause(13), at(13));
      counts, flagCounts := hwCounters, hwFlags;
    }
  }
}
