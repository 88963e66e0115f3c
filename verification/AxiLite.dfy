/**
 What a bus master sees of the register file, for every master that keeps a valid signal and its
 payload stable until the handshake (sections A3.2.1 and A3.3.1 of ARM IHI 0022). A log records the
 handshakes; the theorems relate it to the writes and reads the registers perform.
 */
module AxiLite {
  import opened Ledger
  import opened RegFile

  datatype Write = Write(addr: nat, beat: Beat)
  datatype Read = Read(addr: nat, data: nat)

  datatype Log = Log(
    aw: seq<nat>,          // addresses accepted on AW
    w: seq<Beat>,          // beats accepted on W
    writes: seq<Write>,    // register writes performed
    responses: nat,        // B handshakes
    ar: seq<nat>,          // addresses accepted on AR
    samples: seq<Read>,      // registers sampled
    data: seq<nat>)        // data taken by R handshakes

  /** What the master must present again at the next edge. */
  datatype Offer = Offer(aw: Option<nat>, w: Option<Beat>, ar: Option<nat>)

  datatype Bus = Bus(regs: Regs, log: Log, offer: Offer)

  const NoLog := Log([], [], [], 0, [], [], [])

  /** The bus after power-up or a reset, whatever the capture registers were left holding. */
  function Start(r: Regs): Bus {
    Bus(Reset(r), NoLog, Offer(None, None, None))
  }

  function One<T>(o: Option<T>, taken: bool): seq<T> {
    if taken && o.Some? then [o.value] else []
  }

  function NextLog(l: Log, r: Regs, i: Signals): Log
    requires Shaped(r)
  {
    Log(l.aw + One(i.aw, r.wr.awReady),
        l.w + One(i.w, r.wr.wReady),
        l.writes + (if DoWrite(r.wr) then [Write(r.wr.awAddr, r.wr.wBeat)] else []),
        l.responses + B2N(r.wr.bValid && i.bready),
        l.ar + One(i.ar, r.rd.arReady),
        l.samples + (if r.rd.arGot then [Read(r.rd.arAddr, ReadMux(r, i, Aligned(r.rd.arAddr)))] else []),
        l.data + (if r.rd.rValid && i.rready then [r.rd.rData] else []))
  }

  /** A master that keeps its promises presents every offer again until it is taken. */
  predicate Polite(o: Offer, i: Signals) {
    && (o.aw.Some? ==> i.aw == o.aw)
    && (o.w.Some? ==> i.w == o.w)
    && (o.ar.Some? ==> i.ar == o.ar)
  }

  /** One edge. A reset starts the log afresh, as the protocol starts afresh. */
  function Tick(b: Bus, i: Signals): Bus
    requires Shaped(b.regs) && WellFormed(i)
  {
    if !i.resetn then Start(b.regs)
    else
      Bus(Next(b.regs, i), NextLog(b.log, b.regs, i),
          Offer(if b.regs.wr.awReady then None else i.aw,
                if b.regs.wr.wReady then None else i.w,
                if b.regs.rd.arReady then None else i.ar))
  }

  function Addrs(ws: seq<Write>): (r: seq<nat>)
    ensures |r| == |ws|
  {
    seq(|ws|, k requires 0 <= k < |ws| => ws[k].addr)
  }

  function Beats(ws: seq<Write>): (r: seq<Beat>)
    ensures |r| == |ws|
  {
    seq(|ws|, k requires 0 <= k < |ws| => ws[k].beat)
  }

  function ReadAddrs(rs: seq<Read>): (r: seq<nat>)
    ensures |r| == |rs|
  {
    seq(|rs|, k requires 0 <= k < |rs| => rs[k].addr)
  }

  function Values(rs: seq<Read>): (r: seq<nat>)
    ensures |r| == |rs|
  {
    seq(|rs|, k requires 0 <= k < |rs| => rs[k].data)
  }

  function If<T>(c: bool, x: T): seq<T> {
    if c then [x] else []
  }

  /** Every address captured is accepted at the next edge and written once; likewise every beat. */
  ghost predicate WriteOk(c: WriteChannel, l: Log, o: Offer) {
    && |c.wBeat.strb| == 4
    && (c.awReady ==> c.awGot && o.aw == Some(c.awAddr))
    && (c.wReady ==> c.wGot && o.w == Some(c.wBeat))
    && Addrs(l.writes) + If(c.awGot, c.awAddr) == l.aw + If(c.awReady, c.awAddr)
    && Beats(l.writes) + If(c.wGot, c.wBeat) == l.w + If(c.wReady, c.wBeat)
    && |l.writes| == l.responses + B2N(c.bValid)
  }

  /** Every address captured is accepted at the next edge and sampled once, and the sample is what
      the R channel carries until it is taken. */
  ghost predicate ReadOk(c: ReadChannel, l: Log, o: Offer) {
    && (c.arReady ==> c.arGot && o.ar == Some(c.arAddr))
    && (c.arGot ==> !c.rValid)
    && ReadAddrs(l.samples) + If(c.arGot, c.arAddr) == l.ar + If(c.arReady, c.arAddr)
    && Values(l.samples) == l.data + If(c.rValid, c.rData)
  }

  ghost predicate Inv(b: Bus) {
    Shaped(b.regs) && WriteOk(b.regs.wr, b.log, b.offer) && ReadOk(b.regs.rd, b.log, b.offer)
  }

  lemma AddrsMore(ws: seq<Write>, w: Write)
    ensures Addrs(ws + [w]) == Addrs(ws) + [w.addr] && Beats(ws + [w]) == Beats(ws) + [w.beat]
  {
  }

  lemma ReadsMore(rs: seq<Read>, r: Read)
    ensures ReadAddrs(rs + [r]) == ReadAddrs(rs) + [r.addr] && Values(rs + [r]) == Values(rs) + [r.data]
  {
  }

  /** The next state and log of the write side, in terms of its parts. */
  lemma WriteParts(b: Bus, i: Signals)
    requires Shaped(b.regs) && WellFormed(i) && i.resetn
    ensures var t, l := Tick(b, i), b.log;
            && t.regs.wr == NextWrite(b.regs.wr, i)
            && t.offer.aw == (if b.regs.wr.awReady then None else i.aw)
            && t.offer.w == (if b.regs.wr.wReady then None else i.w)
            && t.log.aw == l.aw + One(i.aw, b.regs.wr.awReady) && t.log.w == l.w + One(i.w, b.regs.wr.wReady)
            && t.log.writes == (if DoWrite(b.regs.wr) then l.writes + [Write(b.regs.wr.awAddr, b.regs.wr.wBeat)] else l.writes)
            && t.log.responses == l.responses + B2N(b.regs.wr.bValid && i.bready)
  {
    assert b.log.writes + [] == b.log.writes;
  }

  lemma WriteKeeps(b: Bus, i: Signals)
    requires Shaped(b.regs) && WriteOk(b.regs.wr, b.log, b.offer)
    requires WellFormed(i) && i.resetn && Polite(b.offer, i)
    ensures var t := Tick(b, i); WriteOk(t.regs.wr, t.log, t.offer)
  {
    WriteParts(b, i);
    AddrsMore(b.log.writes, Write(b.regs.wr.awAddr, b.regs.wr.wBeat));
  }

  lemma ReadKeeps(b: Bus, i: Signals)
    requires Shaped(b.regs) && ReadOk(b.regs.rd, b.log, b.offer)
    requires WellFormed(i) && i.resetn && Polite(b.offer, i)
    ensures var t := Tick(b, i); ReadOk(t.regs.rd, t.log, t.offer)
  {
    var c, t := b.regs.rd, Tick(b, i);
    var value := ReadMux(b.regs, i, Aligned(c.arAddr));
    ReadsMore(b.log.samples, Read(c.arAddr, value));
    if c.arGot {
      assert t.log.data == b.log.data;
      assert Values(t.log.samples) == b.log.data + [value];
    } else {
      assert t.log.samples == b.log.samples + [] == b.log.samples;
      assert t.log.data + If(t.regs.rd.rValid, t.regs.rd.rData) == b.log.data + If(c.rValid, c.rData);
    }
  }

  lemma TickKeeps(b: Bus, i: Signals)
    requires Inv(b) && WellFormed(i) && (i.resetn ==> Polite(b.offer, i))
    ensures Inv(Tick(b, i))
  {
    if i.resetn {
      WriteKeeps(b, i);
      ReadKeeps(b, i);
    }
  }

  // ---------------------------------------------------------------- runs

  predicate Legal(b: Bus, ticks: seq<Signals>)
    decreases ticks
  {
    ticks == [] ||
    (Shaped(b.regs) && WellFormed(ticks[0]) && (ticks[0].resetn ==> Polite(b.offer, ticks[0]))
     && Legal(Tick(b, ticks[0]), ticks[1..]))
  }

  function Run(b: Bus, ticks: seq<Signals>): Bus
    requires Legal(b, ticks)
    decreases ticks
  {
    if ticks == [] then b else Run(Tick(b, ticks[0]), ticks[1..])
  }

  lemma {:induction false} RunKeeps(b: Bus, ticks: seq<Signals>)
    requires Inv(b) && Legal(b, ticks)
    ensures Inv(Run(b, ticks))
    decreases ticks
  {
    if ticks != [] {
      TickKeeps(b, ticks[0]);
      RunKeeps(Tick(b, ticks[0]), ticks[1..]);
    }
  }

  /** Two lists that agree up to one pending element at the end of each. */
  lemma PendingAtEnd<T>(xs: seq<T>, pending: bool, ys: seq<T>, offered: bool, x: T)
    requires xs + If(pending, x) == ys + If(offered, x) && (offered ==> pending)
    ensures |xs| <= |ys| <= |xs| + 1 && xs <= ys
  {
    assert |xs + If(pending, x)| == |ys + If(offered, x)|;
    forall k | 0 <= k < |xs| ensures xs[k] == ys[k] {
      assert (xs + If(pending, x))[k] == (ys + If(offered, x))[k];
    }
  }

  lemma StartOk(r: Regs)
    requires Shaped(r)
    ensures Inv(Start(r))
  {
  }

  /** The i-th register write performed uses the i-th accepted address and the i-th accepted beat,
      however the two channels are skewed; there is one response per write, and none is offered
      before both handshakes have taken place. */
  lemma WritesAreFaithful(r: Regs, ticks: seq<Signals>)
    requires Shaped(r) && Legal(Start(r), ticks)
    ensures var b := Run(Start(r), ticks);
            var l := b.log;
            && |l.writes| <= |l.aw| <= |l.writes| + 1 && |l.writes| <= |l.w| <= |l.writes| + 1
            && (forall k :: 0 <= k < |l.writes| ==> l.writes[k] == Write(l.aw[k], l.w[k]))
            && |l.writes| == l.responses + B2N(b.regs.wr.bValid)
  {
    StartOk(r);
    RunKeeps(Start(r), ticks);
    WritesFaithful(Run(Start(r), ticks));
  }

  lemma WritesFaithful(b: Bus)
    requires Inv(b)
    ensures var l := b.log;
            && |l.writes| <= |l.aw| <= |l.writes| + 1 && |l.writes| <= |l.w| <= |l.writes| + 1
            && (forall k :: 0 <= k < |l.writes| ==> l.writes[k] == Write(l.aw[k], l.w[k]))
            && |l.writes| == l.responses + B2N(b.regs.wr.bValid)
  {
    var c, l := b.regs.wr, b.log;
    PendingAtEnd(Addrs(l.writes), c.awGot, l.aw, c.awReady, c.awAddr);
    PendingAtEnd(Beats(l.writes), c.wGot, l.w, c.wReady, c.wBeat);
    forall k | 0 <= k < |l.writes| ensures l.writes[k] == Write(l.aw[k], l.w[k]) {
      assert Addrs(l.writes)[k] == l.aw[k] && Beats(l.writes)[k] == l.w[k];
    }
  }

  /** The i-th R handshake delivers what the i-th accepted address read; data is offered only after
      the address was accepted, once per address, and at most one read is outstanding. */
  lemma ReadsAreFaithful(r: Regs, ticks: seq<Signals>)
    requires Shaped(r) && Legal(Start(r), ticks)
    ensures var b := Run(Start(r), ticks);
            var l := b.log;
            && |l.data| <= |l.samples| <= |l.ar| <= |l.data| + 1
            && (forall k :: 0 <= k < |l.samples| ==> l.samples[k].addr == l.ar[k])
            && (forall k :: 0 <= k < |l.data| ==> l.data[k] == l.samples[k].data)
            && (b.regs.rd.rValid ==> |l.samples| == |l.data| + 1 && b.regs.rd.rData == l.samples[|l.data|].data)
  {
    StartOk(r);
    RunKeeps(Start(r), ticks);
    ReadsFaithful(Run(Start(r), ticks));
  }

  lemma ReadsFaithful(b: Bus)
    requires Inv(b)
    ensures var l := b.log;
            && |l.data| <= |l.samples| <= |l.ar| <= |l.data| + 1
            && (forall k :: 0 <= k < |l.samples| ==> l.samples[k].addr == l.ar[k])
            && (forall k :: 0 <= k < |l.data| ==> l.data[k] == l.samples[k].data)
            && (b.regs.rd.rValid ==> |l.samples| == |l.data| + 1 && b.regs.rd.rData == l.samples[|l.data|].data)
  {
    var c, l := b.regs.rd, b.log;
    PendingAtEnd(ReadAddrs(l.samples), c.arGot, l.ar, c.arReady, c.arAddr);
    assert |Values(l.samples)| == |l.data| + |If(c.rValid, c.rData)|;
    forall k | 0 <= k < |l.samples| ensures l.samples[k].addr == l.ar[k] {
      assert ReadAddrs(l.samples)[k] == l.ar[k];
    }
    forall k | 0 <= k < |l.samples|
      ensures l.samples[k].data == (l.data + If(c.rValid, c.rData))[k]
    {
      assert Values(l.samples)[k] == l.samples[k].data;
    }
  }

  /** RDATA and both valid outputs are stable until the master takes them. */
  lemma OutputsAreStable(b: Bus, i: Signals)
    requires Inv(b) && WellFormed(i) && i.resetn
    ensures var t := Tick(b, i);
            && (b.regs.rd.rValid && !i.rready ==> t.regs.rd.rValid && t.regs.rd.rData == b.regs.rd.rData)
            && (b.regs.wr.bValid && !i.bready ==> t.regs.wr.bValid)
  {
  }

  // ---------------------------------------------------------------- progress

  /** The master takes responses and offers whatever of an address and a beat has not been captured. */
  predicate Feeds(c: WriteChannel, i: Signals) {
    i.resetn && i.bready && (c.awGot || i.aw.Some?) && (c.wGot || i.w.Some?)
  }

  predicate Fed(b: Bus, ticks: seq<Signals>)
    requires Legal(b, ticks)
    decreases ticks
  {
    ticks == [] || (Feeds(b.regs.wr, ticks[0]) && Fed(Tick(b, ticks[0]), ticks[1..]))
  }

  /** Of any two edges in a row exactly one performs a write. */
  lemma OneWriteInTwo(b: Bus, i: Signals, j: Signals)
    requires Inv(b) && WellFormed(i) && WellFormed(j) && Feeds(b.regs.wr, i) && j.resetn && Shaped(Tick(b, i).regs)
    ensures |Tick(Tick(b, i), j).log.writes| == |b.log.writes| + 1
  {
  }

  /** Over every run of a master that keeps offering and takes its responses, a write is performed at every
      other edge. */
  lemma {:induction false} WritesMakeProgress(b: Bus, ticks: seq<Signals>)
    requires Inv(b) && Legal(b, ticks) && Fed(b, ticks)
    ensures |b.log.writes| + |ticks| / 2 <= |Run(b, ticks).log.writes| <= |b.log.writes| + (|ticks| + 1) / 2
    decreases |ticks|
  {
    if |ticks| == 1 {
      assert Run(b, ticks) == Tick(b, ticks[0]);
    } else if |ticks| >= 2 {
      var c := Tick(b, ticks[0]);
      var d := Tick(c, ticks[1]);
      assert ticks[1..][0] == ticks[1] && ticks[1..][1..] == ticks[2..];
      TickKeeps(b, ticks[0]);
      TickKeeps(c, ticks[1]);
      OneWriteInTwo(b, ticks[0], ticks[1]);
      WritesMakeProgress(d, ticks[2..]);
    }
  }

  lemma {:induction false} LogGrows(b: Bus, ticks: seq<Signals>)
    requires Legal(b, ticks) && forall i <- ticks :: i.resetn
    ensures b.log.aw <= Run(b, ticks).log.aw && b.log.w <= Run(b, ticks).log.w
    decreases ticks
  {
    if ticks != [] {
      assert ticks[0] in ticks && forall i <- ticks[1..] :: i in ticks;
      LogGrows(Tick(b, ticks[0]), ticks[1..]);
    }
  }

  /** What a polite master offers is what is accepted next. */
  lemma {:induction false} OfferedAddressIsNext(b: Bus, ticks: seq<Signals>)
    requires Legal(b, ticks) && ticks != [] && ticks[0].aw.Some? && forall i <- ticks :: i.resetn
    ensures var n := |b.log.aw|;
            |Run(b, ticks).log.aw| > n ==> Run(b, ticks).log.aw[n] == ticks[0].aw.value
    decreases ticks
  {
    var t, rest := Tick(b, ticks[0]), ticks[1..];
    assert ticks[0] in ticks && forall i <- rest :: i in ticks;
    if b.regs.wr.awReady {
      LogGrows(t, rest);
    } else if rest != [] {
      OfferedAddressIsNext(t, rest);
    }
  }

  lemma {:induction false} OfferedBeatIsNext(b: Bus, ticks: seq<Signals>)
    requires Legal(b, ticks) && ticks != [] && ticks[0].w.Some? && forall i <- ticks :: i.resetn
    ensures var n := |b.log.w|;
            |Run(b, ticks).log.w| > n ==> Run(b, ticks).log.w[n] == ticks[0].w.value
    decreases ticks
  {
    var t, rest := Tick(b, ticks[0]), ticks[1..];
    assert ticks[0] in ticks && forall i <- rest :: i in ticks;
    if b.regs.wr.wReady {
      LogGrows(t, rest);
    } else if rest != [] {
      OfferedBeatIsNext(t, rest);
    }
  }

  lemma {:induction false} FedIsNotReset(b: Bus, ticks: seq<Signals>)
    requires Legal(b, ticks) && Fed(b, ticks)
    ensures forall i <- ticks :: i.resetn
    decreases ticks
  {
    if ticks != [] {
      FedIsNotReset(Tick(b, ticks[0]), ticks[1..]);
      assert ticks == [ticks[0]] + ticks[1..];
    }
  }

  /** An address offered at any time is written within four edges, as is a beat, by a master that keeps
      offering and takes its responses; from a bus with nothing captured and no response waiting it takes
      two. */
  lemma OfferedWriteIsPerformed(b: Bus, ticks: seq<Signals>)
    requires Inv(b) && Legal(b, ticks) && Fed(b, ticks) && ticks != []
    requires |ticks| == if |b.log.aw| == |b.log.w| == |b.log.writes| then 2 else 4
    ensures var l, n, m := Run(b, ticks).log, |b.log.aw|, |b.log.w|;
            && n < |l.writes| && m < |l.writes|
            && (ticks[0].aw.Some? ==> l.writes[n].addr == ticks[0].aw.value)
            && (ticks[0].w.Some? ==> l.writes[m].beat == ticks[0].w.value)
  {
    WritesMakeProgress(b, ticks);
    RunKeeps(b, ticks);
    WritesFaithful(b);
    WritesFaithful(Run(b, ticks));
    FedIsNotReset(b, ticks);
    if ticks[0].aw.Some? { OfferedAddressIsNext(b, ticks); }
    if ticks[0].w.Some? { OfferedBeatIsNext(b, ticks); }
  }

  /** The master takes data and offers an address whenever no read is under way. */
  predicate FeedsReads(c: ReadChannel, i: Signals) {
    i.resetn && i.rready && (c.arGot || c.rValid || i.ar.Some?)
  }

  predicate FedReads(b: Bus, ticks: seq<Signals>)
    requires Legal(b, ticks)
    decreases ticks
  {
    ticks == [] || (FeedsReads(b.regs.rd, ticks[0]) && FedReads(Tick(b, ticks[0]), ticks[1..]))
  }

  /** How many edges of a read are over. */
  function ReadStage(c: ReadChannel): nat {
    if c.rValid then 2 else if c.arGot then 1 else 0
  }

  /** Each edge takes a read one stage further, and the last delivers its data. */
  lemma OneStage(b: Bus, i: Signals)
    requires Inv(b) && WellFormed(i) && FeedsReads(b.regs.rd, i)
    ensures ReadStage(Tick(b, i).regs.rd) == (ReadStage(b.regs.rd) + 1) % 3
    ensures |Tick(b, i).log.data| == |b.log.data| + if ReadStage(b.regs.rd) == 2 then 1 else 0
  {
  }

  /** Over every run of a master that keeps asking and takes its data, a read is delivered at every third
      edge. */
  lemma {:induction false} ReadsMakeProgress(b: Bus, ticks: seq<Signals>)
    requires Inv(b) && Legal(b, ticks) && FedReads(b, ticks)
    ensures |Run(b, ticks).log.data| == |b.log.data| + (ReadStage(b.regs.rd) + |ticks|) / 3
    decreases ticks
  {
    if ticks != [] {
      TickKeeps(b, ticks[0]);
      OneStage(b, ticks[0]);
      ReadsMakeProgress(Tick(b, ticks[0]), ticks[1..]);
    }
  }

  lemma {:induction false} OfferedReadIsNext(b: Bus, ticks: seq<Signals>)
    requires Legal(b, ticks) && FedReads(b, ticks) && ticks != [] && ticks[0].ar.Some?
    ensures b.log.ar <= Run(b, ticks).log.ar
    ensures var n := |b.log.ar|;
            |Run(b, ticks).log.ar| > n ==> Run(b, ticks).log.ar[n] == ticks[0].ar.value
    decreases ticks
  {
    var t, rest := Tick(b, ticks[0]), ticks[1..];
    if b.regs.rd.arReady {
      ReadLogGrows(t, rest);
    } else if rest != [] {
      OfferedReadIsNext(t, rest);
    }
  }

  lemma {:induction false} ReadLogGrows(b: Bus, ticks: seq<Signals>)
    requires Legal(b, ticks) && FedReads(b, ticks)
    ensures b.log.ar <= Run(b, ticks).log.ar
    decreases ticks
  {
    if ticks != [] { ReadLogGrows(Tick(b, ticks[0]), ticks[1..]); }
  }

  /** An address offered at any time has its register's value delivered within six edges by a master that takes
      its data; if no read is under way it takes three. */
  lemma OfferedReadIsServed(b: Bus, ticks: seq<Signals>)
    requires Inv(b) && Legal(b, ticks) && FedReads(b, ticks) && ticks != [] && ticks[0].ar.Some?
    requires |ticks| == if ReadStage(b.regs.rd) == 0 then 3 else 6
    ensures var l, n := Run(b, ticks).log, |b.log.ar|;
            n < |l.data| && n < |l.samples| && l.samples[n].addr == ticks[0].ar.value && l.data[n] == l.samples[n].data
  {
    ReadsMakeProgress(b, ticks);
    RunKeeps(b, ticks);
    ReadsFaithful(b);
    ReadsFaithful(Run(b, ticks));
    OfferedReadIsNext(b, ticks);
    Waiting(b);
  }

  /** Without a read under way every accepted address has been served. */
  lemma Waiting(b: Bus)
    requires Inv(b)
    ensures ReadStage(b.regs.rd) == 0 ==> |b.log.ar| == |b.log.data|
  {
    var c, l := b.regs.rd, b.log;
    assert |ReadAddrs(l.samples) + If(c.arGot, c.arAddr)| == |l.ar + If(c.arReady, c.arAddr)|;
    assert |Values(l.samples)| == |l.data + If(c.rValid, c.rData)|;
  }
}
