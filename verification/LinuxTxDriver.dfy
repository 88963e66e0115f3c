/**
 The transmit path as the driver writes it: ring slots and counters updated in place. Each atomic
 section takes the machine of LinuxTx through one step; taxi_start_xmit lets completions run between
 its sections.
 */
module LinuxTxDriver {
  import opened Ledger
  import opened LinuxTx

  lemma RunOneMore(s: State, es: seq<Event>, e: Event)
    requires Legal(s, es) && Enabled(Run(s, es), e)
    ensures Legal(s, es + [e]) && Run(s, es + [e]) == Step(Run(s, es), e)
    decreases es
  {
    if es == [] {
      assert [e][1..] == [];
    } else {
      assert (es + [e])[1..] == es[1..] + [e];
      RunOneMore(Step(s, es[0]), es[1..], e);
    }
  }

  /** What every reachable state guarantees to the code. */
  lemma Reached(history: seq<Event>)
    requires Legal(Initial(), history)
    ensures var s := Run(Initial(), history);
            && |s.ring| == RING && s.head < U32 && s.tail < U32
            && (s.phase == Live && !s.stopped ==> CircSpace(s.head, s.tail) > 0)
            && (s.xmit != NoXmit ==> s.phase == Live)
            && (s.xmit.Prepared? ==> s.xmit.skb in s.led.maps && s.led.maps[s.xmit.skb] == s.xmit.len)
            && s.issued == |s.engine|
  {
    InitialOk();
    RunKeeps(Initial(), history);
    var s := Run(Initial(), history);
    SpaceIsFree(s.head, s.tail);
  }

  /** One completion after another. */
  function Completes(oks: seq<bool>): seq<Event> {
    seq(|oks|, k requires 0 <= k < |oks| => Complete(oks[k]))
  }

  class TxPath {
    const txRing: array<Slot>
    var txHead: nat
    var txTail: nat
    var stats: Stats
    // What the stack and the DMA engine know about this device.
    var stopped: bool
    var engine: seq<nat>
    var xmit: Xmit
    var phase: Phase
    var led: Ledger
    var accepted: seq<nat>
    var retired: seq<nat>
    var refused: nat
    var handed: seq<Frame>
    var issued: nat
    ghost var history: seq<Event>

    function View(): State
      reads this, txRing
    {
      State(txRing[..], txHead, txTail, stopped, engine, xmit, phase, led, stats, accepted, retired, refused, handed, issued)
    }

    /** The device is where the events so far have brought it. */
    ghost predicate Valid()
      reads this, txRing
    {
      Legal(Initial(), history) && Run(Initial(), history) == View()
    }

    constructor ()
      ensures Valid() && history == [] && fresh(txRing)
    {
      txRing := new Slot[RING](_ => Slot(None, 0, 0));
      txHead, txTail, stopped, engine := 0, 0, true, [];
      xmit, phase, led, stats := NoXmit, Closed, Empty, Stats(0, 0, 0, 0);
      accepted, retired, refused, history := [], [], 0, [];
      handed, issued := [], 0;
      new;
      assert txRing[..] == Initial().ring;
    }

    /** The drop label: count the frame and free it. */
    method DropFrame(skb: nat)
      modifies this`stats, this`led, this`xmit
      ensures View() == Drop(old(View()), skb)
    {
      stats := stats.(dropped := stats.dropped + 1);
      led := Free(led, skb);
      xmit := NoXmit;
    }

    /** taxi_start_xmit up to its space check. */
    method CheckSpace(len: nat) returns (busy: bool)
      modifies this`stopped, this`refused, this`xmit, this`led
      ensures View() == CheckStep(old(View()), len)
      ensures busy == (CircSpace(old(txHead), old(txTail)) == 0)
    {
      busy := CircSpace(txHead, txTail) == 0;
      if busy {
        stopped := true;
        refused := refused + 1;
      } else {
        xmit := Checked(led.next, len);
        led := Alloc(led);
      }
    }

    /** Linearize, map, prepare; on failure undo and drop. */
    method PrepareFrame(o: PrepOutcome)
      requires xmit.Checked?
      modifies this`stats, this`led, this`xmit
      ensures View() == PrepareStep(old(View()), o)
    {
      var Checked(skb, len) := xmit;
      if o == LinearizeFails || o == MapFails {
        DropFrame(skb);
        return;
      }
      led := Map(led, skb, len);
      if o == PrepFails {
        led := Unmap(led, skb, len);
        DropFrame(skb);
        return;
      }
      xmit := Prepared(skb, len);
    }

    /** The critical section of taxi_start_xmit. */
    method SubmitFrame(ok: bool)
      requires xmit.Prepared? && txRing.Length == RING
      modifies this`engine, this`accepted, this`handed, this`issued, this`txHead, this`stopped, this`xmit, this`led,
        this`stats, txRing
      ensures View() == SubmitStep(old(View()), ok)
    {
      var Prepared(skb, len) := xmit;
      var i := txHead % RING;
      txRing[i] := Slot(Some(skb), skb, len);
      if !ok {
        txRing[i] := txRing[i].(skb := None);
        led := Unmap(led, skb, len);
        DropFrame(skb);
        return;
      }
      engine, accepted := engine + [skb], accepted + [skb];
      handed := handed + [Frame(skb, len)];
      txHead := Succ(txHead);
      if CircSpace(txHead, txTail) == 0 { stopped := true; }
      xmit, issued := NoXmit, |engine|;
    }

    method CountTransfer(ok: bool, len: nat)
      modifies this`stats
      ensures stats == if ok then old(stats).(packets := old(stats).packets + 1, bytes := old(stats).bytes + len)
                       else old(stats).(errors := old(stats).errors + 1)
    {
      if ok {
        stats := stats.(packets := stats.packets + 1, bytes := stats.bytes + len);
      } else {
        stats := stats.(errors := stats.errors + 1);
      }
    }

    /** taxi_tx_complete: it is told how the transfer ended but not which buffer it was. */
    method TxComplete(ok: bool)
      requires txRing.Length == RING
      modifies this`engine, this`issued, this`led, this`stats, this`txTail, this`stopped, this`retired, txRing
      ensures View() == CompleteStep(old(View()), ok)
    {
      engine := if engine == [] then [] else engine[1..];
      issued := if issued == 0 then 0 else issued - 1;
      if txTail == txHead { return; }
      RetireTail(ok);
    }

    /** Re-open a stopped queue once there is room enough. */
    method WakeIfRoom()
      modifies this`stopped
      ensures stopped == (old(stopped) && CircSpace(txHead, txTail) < WAKE_THRESH)
    {
      if stopped && CircSpace(txHead, txTail) >= WAKE_THRESH { stopped := false; }
    }

    /** Unmap the buffer at the tail and take it out of its slot. */
    method EmptyTail() returns (buf: Slot)
      requires txRing.Length == RING
      modifies this`led, txRing
      ensures buf == old(txRing[txTail % RING])
      ensures txRing[..] == old(txRing[..])[txTail % RING := buf.(skb := None)] && led == Unmap(old(led), buf.dma, buf.len)
    {
      var i := txTail % RING;
      buf := txRing[i];
      txRing[i] := buf.(skb := None);
      led := Unmap(led, buf.dma, buf.len);
    }

    method RetireTail(ok: bool)
      requires txRing.Length == RING
      modifies this`led, this`stats, this`txTail, this`stopped, this`retired, txRing
      ensures View() == RetireSlot(old(View()), ok)
    {
      var buf := EmptyTail();
      CountTransfer(ok, buf.len);
      txTail := Succ(txTail);
      WakeIfRoom();
      Consume(if buf.skb.Some? then buf.skb.value else 0);
    }

    /** The frame has been sent: its skb is given back. */
    method Consume(skb: nat)
      modifies this`retired, this`led
      ensures retired == old(retired) + [skb] && led == Deliver(old(led), skb)
    {
      retired := retired + [skb];
      led := Deliver(led, skb);
    }

    /** taxi_tx_ring_stop after the engine has been terminated. */
    method TxRingStop()
      requires txRing.Length == RING && txHead < U32 && txTail < U32
      modifies this`engine, this`issued, this`led, this`txHead, this`txTail, this`phase, txRing
      ensures View() == StopStep(old(View()))
    {
      engine, issued := [], 0;
      while txTail != txHead
        invariant txTail < U32 && txHead == old(txHead)
        invariant FlushFrom(txRing[..], led, txHead, txTail) == FlushFrom(old(txRing[..]), old(led), txHead, old(txTail))
        invariant engine == [] && issued == 0 && phase == old(phase)
        decreases Count(txHead, txTail)
      {
        var i := txTail % RING;
        var buf := txRing[i];
        CountShrinks(txHead, txTail);
        led := Unmap(led, buf.dma, buf.len);
        led := Free(led, if buf.skb.Some? then buf.skb.value else 0);
        txRing[i] := buf.(skb := None);
        txTail := Succ(txTail);
      }
      txHead, txTail := 0, 0;
      phase := Closed;
    }

    method Happen(e: Event)
      requires Enabled(View(), e)
      modifies this, txRing
      ensures history == old(history)
      ensures View() == Step(old(View()), e)
    {
      match e
      case Start => phase, stopped, accepted, retired := Live, false, [], [];
      case XmitCheck(len) => var _ := CheckSpace(len);
      case XmitPrepare(o) => PrepareFrame(o);
      case XmitSubmit(ok) => SubmitFrame(ok);
      case Complete(ok) => TxComplete(ok);
      case Disable => phase, stopped := Draining, true;
      case Stop => TxRingStop();
    }

    method Do(e: Event)
      requires Valid() && Enabled(View(), e)
      modifies this, txRing
      ensures Valid() && history == old(history) + [e]
      ensures View() == Step(old(View()), e)
    {
      RunOneMore(Initial(), history, e);
      Happen(e);
      history := history + [e];
    }

    /** Completions that run at a preemption point. */
    method Completions(oks: seq<bool>)
      requires Valid() && phase != Closed
      modifies this, txRing
      ensures Valid() && history == old(history) + Completes(oks)
      ensures xmit == old(xmit) && phase == old(phase) && accepted == old(accepted) && stats.dropped == old(stats.dropped)
      ensures handed == old(handed) && txHead == old(txHead)
      ensures !old(stopped) ==> !stopped
    {
      for k := 0 to |oks|
        invariant Valid() && history == old(history) + Completes(oks[..k])
        invariant xmit == old(xmit) && phase == old(phase) && accepted == old(accepted) && stats.dropped == old(stats.dropped)
        invariant handed == old(handed) && txHead == old(txHead)
        invariant !old(stopped) ==> !stopped
      {
        Reached(history);
        Do(Complete(oks[k]));
        assert Completes(oks[..k + 1]) == Completes(oks[..k]) + [Complete(oks[k])];
      }
      assert oks[..|oks|] == oks;
    }

    /** taxi_start_xmit on a frame of `len` bytes, with completions running between its parts. It never
        reports a busy ring; the frame, which is the kernel's number `led.next` on entry, is mapped, queued at
        the end of the ring and given to the engine with its length if nothing fails, and is counted as
        dropped otherwise. These are all the events of the call. */
    method StartXmit(len: nat, o: PrepOutcome, ok: bool, between: seq<bool>, later: seq<bool>)
      returns (busy: bool)
      requires Valid() && phase == Live && !stopped && xmit == NoXmit
      modifies this, txRing
      ensures Valid() && !busy && xmit == NoXmit
      ensures history == old(history) + [XmitCheck(len)] + Completes(between) + [XmitPrepare(o)]
                         + if o == Ready then Completes(later) + [XmitSubmit(ok)] else []
      ensures var queued := o == Ready && ok;
              && accepted == (if queued then old(accepted) + [old(led.next)] else old(accepted))
              && stats.dropped == (if queued then old(stats.dropped) else old(stats.dropped) + 1)
              && handed == (if queued then old(handed) + [Frame(old(led.next), len)] else old(handed))
      ensures o == Ready && ok ==>
                && txRing.Length == RING && txRing[old(txHead) % RING] == Slot(Some(old(led.next)), old(led.next), len)
                && old(led.next) in led.maps && led.maps[old(led.next)] == len
    {
      ghost var skb := led.next;
      Reached(history);
      busy := CircSpace(txHead, txTail) == 0;
      Do(XmitCheck(len));
      if busy { return; }
      Completions(between);
      Reached(history);
      Do(XmitPrepare(o));
      if xmit == NoXmit { return; }
      Completions(later);
      Reached(history);
      Do(XmitSubmit(ok));
    }
  }
}
