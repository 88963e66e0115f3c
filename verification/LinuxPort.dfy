/**
 The life of a port: open, stop and MTU change, built from the receive and transmit paths. Whatever
 happens meanwhile, and whichever step of a start fails, a port that is not up holds nothing.
 */
module LinuxPort {
  import Rx = LinuxRx
  import RxDriver = LinuxRxDriver
  import Tx = LinuxTx
  import TxDriver = LinuxTxDriver

  /** How the kernel answers during a start. */
  datatype Answers = Answers(
    txChannel: bool, rxChannel: bool,          // dma_request_chan
    script: nat -> seq<Rx.Event>,              // what the receive path does meanwhile
    gotSkb: nat -> bool, outcome: nat -> Rx.SubmitOutcome)

  /** Everything is granted. */
  ghost predicate Granted(a: Answers) {
    a.txChannel && a.rxChannel && forall i: nat :: i < Rx.RING ==> a.gotSkb(i) && a.outcome(i) == Rx.Submits
  }

  /** What other contexts do during a stop: the receive path, and the transmit completions of the drain. */
  datatype Meanwhile = Meanwhile(
    script: nat -> seq<Rx.Event>, gotSkb: bool, outcome: Rx.SubmitOutcome, missed: bool, drained: seq<bool>)

  /** How a call ends: it returns, or it is about to hand the DMA engine a channel the port does not hold. */
  datatype Ended = Returned(ok: bool) | BadChannel

  class Port {
    const rx: RxDriver.RxPath
    const tx: TxDriver.TxPath
    var running: bool        // netif_running
    var txChan: bool         // tx_chan is held
    var rxChan: bool
    var txEn: bool           // TAXI_CTRL_TX_EN
    var rxEn: bool
    var mtu: nat
    var maxLen: nat          // as written to TX_MAX_LEN and RX_MAX_LEN

    ghost function Footprint(): set<object>
      reads this
    {
      {this, rx, rx.rxRing, tx, tx.txRing}
    }

    ghost predicate Valid()
      reads this, rx, rx.rxRing, tx, tx.txRing
    {
      rx.Valid() && tx.Valid() && tx.xmit == Tx.NoXmit
    }

    /** Passing frames, with receive buffers for the current MTU. */
    ghost predicate IsUp()
      reads this, rx, tx
    {
      && running && txChan && rxChan && txEn && rxEn
      && rx.ctl == Rx.Up && rx.rxBufLen == mtu + 22 && maxLen == mtu + 21 && tx.phase == Tx.Live
    }

    /** No channel, no buffer, no mapping, no list node, and the MAC off. */
    ghost predicate HoldsNothing()
      reads this, rx, rx.rxRing, tx, tx.txRing
    {
      && !txChan && !rxChan && !txEn && !rxEn
      && rx.ctl == Rx.Down && rx.led.live == {} && rx.led.maps == map[] && rx.led.faults == 0
      && rx.armed == {} && rx.rxDone == [] && rx.rxPending == []
      && tx.phase == Tx.Closed && tx.led.live == {} && tx.led.maps == map[] && tx.led.faults == 0
    }

    /** Still counted as running, after a restart that failed. */
    ghost predicate IsStranded()
      reads this, rx, rx.rxRing, tx, tx.txRing
    {
      running && HoldsNothing()
    }

    constructor (initialMtu: nat)
      ensures Valid() && !running && HoldsNothing() && mtu == initialMtu && fresh(Footprint())
    {
      rx := new RxDriver.RxPath();
      tx := new TxDriver.TxPath();
      running, txChan, rxChan, txEn, rxEn, mtu, maxLen := false, false, false, false, false, initialMtu, 0;
    }

    /** A closed transmit side and a receive ring that is down have given everything back. */
    lemma NothingLeft()
      requires Valid() && rx.ctl == Rx.Down && tx.phase == Tx.Closed && !txChan && !rxChan && !txEn && !rxEn
      ensures HoldsNothing()
    {
      Rx.DownLeavesNothing(rx.history);
      Tx.EveryRunOwnsItsFrames(tx.history);
    }

    /** taxi_request_dma: both channels or neither. */
    method RequestDma(a: Answers) returns (ok: bool)
      modifies this`txChan, this`rxChan
      ensures ok == (a.txChannel && a.rxChannel) && txChan == rxChan == ok
    {
      txChan, rxChan := false, false;
      if !a.txChannel { return false; }
      txChan := true;
      if !a.rxChannel {
        txChan := false;
        return false;
      }
      rxChan := true;
      return true;
    }

    method ReleaseDma()
      modifies this`txChan, this`rxChan
      ensures !txChan && !rxChan
    {
      rxChan, txChan := false, false;
    }

    /** taxi_datapath_start: all of it, or nothing. */
    method DatapathStart(a: Answers) returns (ok: bool)
      requires Valid() && HoldsNothing()
      modifies this`txChan, this`rxChan, this`txEn, this`rxEn, this`maxLen, rx, rx.rxRing
      ensures Valid() && ok == Granted(a) && tx.phase == Tx.Closed
      ensures ok ==> txChan && rxChan && txEn && rxEn && rx.ctl == Rx.Up && rx.rxBufLen == mtu + 22 && maxLen == mtu + 21
      ensures !ok ==> HoldsNothing()
    {
      ok := RequestDma(a);
      if !ok { return; }
      maxLen := mtu + Rx.FRAME_OVERHEAD - 1;
      ok := rx.RingStart(mtu, a.script, a.gotSkb, a.outcome);
      if !ok {
        ReleaseDma();
        NothingLeft();
        return;
      }
      txEn, rxEn := true, true;
    }

    /** taxi_datapath_stop: frames still in flight after the drain are taken back from the engine, after every
        completion of the drain has been handled. */
    method DatapathStop(m: Meanwhile)
      requires Valid() && rx.ctl == Rx.Up && tx.phase != Tx.Live
      modifies this`txChan, this`rxChan, this`txEn, this`rxEn, rx, rx.rxRing, tx, tx.txRing
      ensures Valid() && HoldsNothing()
      ensures tx.history == old(tx.history)
                            + (if old(tx.phase) == Tx.Draining then TxDriver.Completes(m.drained) else []) + [Tx.Stop]
    {
      rxEn := false;
      if tx.phase == Tx.Draining { tx.Completions(m.drained); }
      txEn := false;
      TxRingStop();
      rx.RingStop(m.script, m.gotSkb, m.outcome, m.missed);
      ReleaseDma();
      NothingLeft();
    }

    method TxRingStop()
      requires tx.Valid() && tx.xmit == Tx.NoXmit && tx.phase != Tx.Live
      modifies tx, tx.txRing
      ensures tx.Valid() && tx.xmit == Tx.NoXmit && tx.phase == Tx.Closed && tx.history == old(tx.history) + [Tx.Stop]
    {
      TxDriver.Reached(tx.history);
      tx.Do(Tx.Stop);
    }

    /** netif_start_queue and netif_wake_queue. */
    method StartQueue()
      requires tx.Valid() && tx.xmit == Tx.NoXmit && tx.phase == Tx.Closed
      modifies tx, tx.txRing
      ensures tx.Valid() && tx.xmit == Tx.NoXmit && tx.phase == Tx.Live && !tx.stopped
    {
      TxDriver.Reached(tx.history);
      tx.Do(Tx.Start);
    }

    /** netif_tx_disable. */
    method DisableQueue()
      requires tx.Valid() && tx.xmit == Tx.NoXmit && tx.phase == Tx.Live
      modifies tx, tx.txRing
      ensures tx.Valid() && tx.xmit == Tx.NoXmit && tx.phase == Tx.Draining && tx.stopped
    {
      TxDriver.Reached(tx.history);
      tx.Do(Tx.Disable);
    }

    /** taxi_open. The port comes up exactly when everything it asks for is granted, and one that does
        not holds nothing. */
    method Open(a: Answers, gotPhy: bool, m: Meanwhile) returns (ok: bool)
      requires Valid() && !running && HoldsNothing()
      modifies Footprint()
      ensures Valid() && mtu == old(mtu) && ok == (Granted(a) && gotPhy) && running == ok
      ensures if ok then IsUp() && !tx.stopped else HoldsNothing()
    {
      ok := DatapathStart(a);
      if !ok { return; }
      if !gotPhy {
        DatapathStop(m);
        return false;
      }
      StartQueue();
      running := true;
    }

    /** taxi_datapath_stop of a port that counts as running. Without its channels it clears the enable bits,
        which are clear, finds nothing to drain, and is then about to terminate a channel it has released. */
    method StopDatapath(m: Meanwhile) returns (r: Ended)
      requires Valid() && (IsStranded() || (running && txChan && rx.ctl == Rx.Up && tx.phase == Tx.Draining))
      modifies this`txChan, this`rxChan, this`txEn, this`rxEn, rx, rx.rxRing, tx, tx.txRing
      ensures Valid() && HoldsNothing() && r == if old(txChan) then Returned(true) else BadChannel
    {
      if !txChan {
        rxEn, txEn := false, false;
        return BadChannel;
      }
      DatapathStop(m);
      return Returned(true);
    }

    /** taxi_stop, of a port that counts as running. From one that is up everything is given back; from one a
        failed restart has left without channels it does not return. */
    method Stop(m: Meanwhile) returns (r: Ended)
      requires Valid() && (IsUp() || IsStranded())
      modifies Footprint()
      ensures Valid() && HoldsNothing() && mtu == old(mtu)
      ensures if old(txChan) then r == Returned(true) && !running else r == BadChannel
    {
      if tx.phase == Tx.Live { DisableQueue(); }
      r := StopDatapath(m);
      if r == BadChannel { return; }
      running := false;
    }

    /** taxi_change_mtu. A port that is not running takes the new MTU as it is. One that is up takes it and
        restarts; if the restart fails it holds nothing although it still counts as running, and the next
        change or stop of it does not return. */
    method ChangeMtu(newMtu: nat, a: Answers, m: Meanwhile) returns (r: Ended)
      requires Valid() && (if running then IsUp() || IsStranded() else HoldsNothing())
      modifies Footprint()
      ensures Valid() && running == old(running)
      ensures !old(running) ==> r == Returned(true) && HoldsNothing() && mtu == newMtu
      ensures old(IsUp()) ==> r == Returned(Granted(a)) && mtu == newMtu
      ensures old(IsUp()) ==> if Granted(a) then IsUp() && !tx.stopped else IsStranded()
      ensures old(IsStranded()) ==> r == BadChannel && IsStranded() && mtu == old(mtu)
    {
      if !running {
        mtu := newMtu;
        return Returned(true);
      }
      if tx.phase == Tx.Live { DisableQueue(); }
      r := StopDatapath(m);
      if r == BadChannel { return; }
      mtu := newMtu;
      var ok := DatapathStart(a);
      r := Returned(ok);
      if !ok { return; }
      StartQueue();
    }
  }
}
