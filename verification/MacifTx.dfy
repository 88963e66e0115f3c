/**
 The transmit side of the lwIP driver: pbuf chains turned into framed groups of buffer descriptors,
 each chain pinned by one reference that rides on its last descriptor.
 */
module MacifTx {
  import opened Ledger

  const N_TX_BD: nat := 64
  const U32: nat := 0x1_0000_0000

  type Bytes = seq<nat>

  /** A pbuf chain as the stack hands it down: the payload of each pbuf, some of them empty. */
  datatype Chain = Chain(id: nat, bufs: seq<Bytes>)

  datatype Bd = Bd(bytes: Bytes, sof: bool, eof: bool, id: Option<nat>)

  /** What the other end of the DMA must receive for a chain. */
  function Payload(bufs: seq<Bytes>): Bytes {
    if bufs == [] then [] else bufs[0] + Payload(bufs[1..])
  }

  /** The descriptors of the first loop of low_level_output: one for every pbuf with data. */
  function Blank(bufs: seq<Bytes>): seq<Bd> {
    if bufs == [] then []
    else (if bufs[0] == [] then [] else [Bd(bufs[0], false, false, None)]) + Blank(bufs[1..])
  }

  /** Control bits on the two ends, and the chain itself on the last descriptor. */
  function Marked(bds: seq<Bd>, id: nat): seq<Bd>
    requires bds != []
  {
    var last := |bds| - 1;
    var front := bds[0 := bds[0].(sof := true)];
    front[last := front[last].(eof := true, id := Some(id))]
  }

  predicate HasData(c: Chain) {
    Blank(c.bufs) != []
  }

  function FrameBds(c: Chain): (r: seq<Bd>)
    requires HasData(c)
    ensures r != []
  {
    Marked(Blank(c.bufs), c.id)
  }

  function AllBds(cs: seq<Chain>): seq<Bd>
    requires forall c <- cs :: HasData(c)
  {
    if cs == [] then [] else FrameBds(cs[0]) + AllBds(cs[1..])
  }

  function Ids(cs: seq<Chain>): multiset<nat> {
    if cs == [] then multiset{} else multiset{cs[0].id} + Ids(cs[1..])
  }

  datatype State = State(
    ring: seq<Bd>,             // descriptors the hardware owns, oldest first
    wire: seq<Bd>,             // every descriptor ever handed to the hardware
    refs: multiset<nat>,       // references the driver holds on chains
    overfreed: nat,            // references it gave back without holding them
    txQueued: nat,
    txFrames: nat,
    txNobd: nat,
    chains: seq<Chain>,        // the chains whose last descriptor the hardware still owns
    cut: nat,                  // descriptors of the first of them already reclaimed
    sent: seq<Chain>)          // every chain ever queued

  const Initial := State([], [], multiset{}, 0, 0, 0, 0, [], 0, [])

  datatype Result = Ok | NoMemory | NoInterface

  function Unref(s: State, id: nat): State {
    if id in s.refs then s.(refs := s.refs - multiset{id}) else s.(overfreed := s.overfreed + 1)
  }

  /** The body of the loop in process_sent_bds. */
  function ReclaimOne(s: State): State
    requires s.ring != []
  {
    var bd := s.ring[0];
    var t := if bd.id.Some? then Unref(s, bd.id.value).(txFrames := (s.txFrames + 1) % U32) else s;
    var done := s.chains != [] && HasData(s.chains[0]) && s.cut + 1 == |FrameBds(s.chains[0])|;
    t.(ring := s.ring[1..],
       chains := if done then s.chains[1..] else s.chains,
       cut := if done then 0 else s.cut + 1)
  }

  /** process_sent_bds when the hardware has completed `n` descriptors. */
  function Reclaim(s: State, n: nat): State
    requires n <= |s.ring|
    decreases n
  {
    if n == 0 then s else Reclaim(ReclaimOne(s), n - 1)
  }

  function Free(s: State): int {
    N_TX_BD - |s.ring|
  }

  /** The state after queueing a chain, and after the hardware refuses it. */
  function Queue(s: State, c: Chain, accepted: bool): State
    requires HasData(c)
  {
    if accepted then
      s.(ring := s.ring + FrameBds(c), wire := s.wire + FrameBds(c), refs := s.refs + multiset{c.id},
         txQueued := (s.txQueued + 1) % U32, chains := s.chains + [c], sent := s.sent + [c])
    else s
  }

  /** low_level_output. `n` descriptors have completed by the time it looks for room. */
  function Output(s: State, c: Chain, n: nat, allocOk: bool, accepted: bool): (State, Result)
    requires n <= |s.ring|
  {
    var need := |Blank(c.bufs)|;
    if need == 0 then (s, Ok)
    else
      var t := if Free(s) < need then Reclaim(s, n) else s;
      if Free(t) < need then (t.(txNobd := (t.txNobd + 1) % U32), NoMemory)
      else if !allocOk then (t, NoMemory)
      else (Queue(t, c, accepted), if accepted then Ok else NoInterface)
  }

  // ---------------------------------------------------------------- what the wire carries

  /** Reassemble frames as the MAC does: SOF opens one, EOF closes it; anything else is an error. */
  function Reassemble(bds: seq<Bd>, partial: Option<Bytes>): Option<seq<Bytes>>
    decreases bds
  {
    if bds == [] then (if partial.None? then Some([]) else None)
    else
      var bd := bds[0];
      if bd.sof != partial.None? then None
      else
        var bytes := (if partial.Some? then partial.value else []) + bd.bytes;
        if bd.eof then
          var rest := Reassemble(bds[1..], None);
          if rest.Some? then Some([bytes] + rest.value) else None
        else Reassemble(bds[1..], Some(bytes))
  }

  function Payloads(cs: seq<Chain>): seq<Bytes> {
    if cs == [] then [] else [Payload(cs[0].bufs)] + Payloads(cs[1..])
  }

  function BytesOf(bds: seq<Bd>): Bytes {
    if bds == [] then [] else bds[0].bytes + BytesOf(bds[1..])
  }

  /** Skipping empty pbufs loses no data. */
  lemma {:induction false} BlankBytes(bufs: seq<Bytes>)
    ensures BytesOf(Blank(bufs)) == Payload(bufs)
    ensures forall bd <- Blank(bufs) :: !bd.sof && !bd.eof && bd.id == None && bd.bytes != []
  {
    if bufs != [] {
      BlankBytes(bufs[1..]);
      if bufs[0] != [] {
        assert Blank(bufs)[1..] == Blank(bufs[1..]);
      } else {
        assert Blank(bufs) == Blank(bufs[1..]);
      }
    }
  }

  function Prefixed(bytes: Bytes, tail: Option<seq<Bytes>>): Option<seq<Bytes>> {
    if tail.Some? then Some([bytes] + tail.value) else None
  }

  /** One descriptor of an open frame. */
  lemma ReassembleOne(bd: Bd, more: seq<Bd>, sofar: Bytes)
    requires !bd.sof
    ensures Reassemble([bd] + more, Some(sofar))
         == if bd.eof then Prefixed(sofar + bd.bytes, Reassemble(more, None))
            else Reassemble(more, Some(sofar + bd.bytes))
  {
    assert ([bd] + more)[1..] == more;
  }

  /** The middle and end of a frame: unmarked descriptors, then one with EOF. */
  lemma {:induction false} ReassembleRest(bds: seq<Bd>, rest: seq<Bd>, sofar: Bytes)
    requires bds != [] && (forall bd <- bds :: !bd.sof)
    requires (forall k :: 0 <= k < |bds| ==> bds[k].eof == (k == |bds| - 1))
    ensures Reassemble(bds + rest, Some(sofar)) == Prefixed(sofar + BytesOf(bds), Reassemble(rest, None))
    decreases |bds|
  {
    var bd, more := bds[0], bds[1..];
    assert bds == [bd] + more && bds + rest == [bd] + (more + rest);
    ReassembleOne(bd, more + rest, sofar);
    if more == [] {
      assert more + rest == rest && BytesOf(bds) == bd.bytes + [] == bd.bytes;
    } else {
      ReassembleRest(more, rest, sofar + bd.bytes);
      assert (sofar + bd.bytes) + BytesOf(more) == sofar + BytesOf(bds);
    }
  }

  lemma {:induction false} SameBytes(a: seq<Bd>, b: seq<Bd>)
    requires |a| == |b| && forall k :: 0 <= k < |a| ==> a[k].bytes == b[k].bytes
    ensures BytesOf(a) == BytesOf(b)
    decreases |a|
  {
    if a != [] { SameBytes(a[1..], b[1..]); }
  }

  /** The shape of one chain's descriptors. */
  lemma FrameShape(c: Chain)
    requires HasData(c)
    ensures var bds := FrameBds(c);
            && (forall k :: 0 <= k < |bds| ==>
                  bds[k].sof == (k == 0) && bds[k].eof == (k == |bds| - 1) && bds[k].bytes != []
                  && bds[k].id == (if k == |bds| - 1 then Some(c.id) else None))
            && BytesOf(bds) == Payload(c.bufs)
            && |bds| == |Blank(c.bufs)|
  {
    BlankBytes(c.bufs);
    var blank, bds := Blank(c.bufs), FrameBds(c);
    forall k | 0 <= k < |bds|
      ensures bds[k].sof == (k == 0) && bds[k].eof == (k == |bds| - 1) && bds[k].bytes == blank[k].bytes
              && bds[k].id == (if k == |bds| - 1 then Some(c.id) else None)
    {
      assert blank[k] in blank;
    }
    SameBytes(bds, blank);
  }

  lemma ReassembleFrame(c: Chain, rest: seq<Bd>)
    requires HasData(c)
    ensures Reassemble(FrameBds(c) + rest, None)
         == Prefixed(Payload(c.bufs), Reassemble(rest, None))
  {
    FrameShape(c);
    var bds := FrameBds(c);
    assert (bds + rest)[1..] == bds[1..] + rest;
    assert [] + bds[0].bytes == bds[0].bytes;
    if |bds| == 1 {
      assert bds[1..] + rest == rest;
      assert bds[1..] == [] && BytesOf(bds) == bds[0].bytes;
    } else {
      ReassembleRest(bds[1..], rest, bds[0].bytes);
    }
  }

  /** The descriptors of a list of chains carry exactly their payloads, one frame each, in order. */
  lemma {:induction false} WireCarriesPayloads(cs: seq<Chain>)
    requires forall c <- cs :: HasData(c)
    ensures Reassemble(AllBds(cs), None) == Some(Payloads(cs))
    decreases cs
  {
    if cs != [] {
      ReassembleFrame(cs[0], AllBds(cs[1..]));
      WireCarriesPayloads(cs[1..]);
    }
  }

  // ---------------------------------------------------------------- invariants

  ghost predicate AllHaveData(cs: seq<Chain>) {
    forall c <- cs :: HasData(c)
  }

  /** The hardware owns exactly what is left of the chains that are still in the ring. */
  ghost predicate RingOk(ring: seq<Bd>, chains: seq<Chain>, cut: nat) {
    && AllHaveData(chains)
    && (if chains == [] then cut == 0 else cut < |FrameBds(chains[0])|)
    && cut <= |AllBds(chains)| && ring == AllBds(chains)[cut..]
  }

  /** The wire has carried every queued chain, and those in the ring are the latest of them. */
  ghost predicate WireOk(wire: seq<Bd>, sent: seq<Chain>, chains: seq<Chain>) {
    && AllHaveData(sent) && wire == AllBds(sent)
    && |chains| <= |sent| && chains == sent[|sent| - |chains|..]
  }

  ghost predicate RefsOk(refs: multiset<nat>, overfreed: nat, chains: seq<Chain>) {
    refs == Ids(chains) && overfreed == 0
  }

  predicate CountOk(queued: nat, frames: nat, n: nat) {
    queued < U32 && frames < U32 && n <= N_TX_BD && (queued - frames) % U32 == n
  }

  ghost predicate ChainsOk(ring: seq<Bd>, chains: seq<Chain>, cut: nat, wire: seq<Bd>, sent: seq<Chain>,
                           refs: multiset<nat>) {
    |ring| <= N_TX_BD && RingOk(ring, chains, cut) && WireOk(wire, sent, chains) && RefsOk(refs, 0, chains)
  }

  ghost predicate InRing(s: State) {
    ChainsOk(s.ring, s.chains, s.cut, s.wire, s.sent, s.refs) && s.overfreed == 0
  }

  ghost predicate Inv(s: State) {
    InRing(s) && CountOk(s.txQueued, s.txFrames, |s.chains|)
  }

  lemma {:induction false} AllBdsAppend(cs: seq<Chain>, c: Chain)
    requires AllHaveData(cs) && HasData(c)
    ensures AllHaveData(cs + [c]) && AllBds(cs + [c]) == AllBds(cs) + FrameBds(c)
    ensures Ids(cs + [c]) == Ids(cs) + multiset{c.id}
    decreases cs
  {
    if cs == [] {
      assert cs + [c] == [c] && [c][1..] == [];
    } else {
      assert (cs + [c])[1..] == cs[1..] + [c];
      AllBdsAppend(cs[1..], c);
    }
  }

  /** Every chain in the ring still has a descriptor there. */
  lemma {:induction false} ChainsFit(cs: seq<Chain>)
    requires AllHaveData(cs)
    ensures |cs| <= |AllBds(cs)|
    decreases cs
  {
    if cs != [] { ChainsFit(cs[1..]); }
  }

  lemma ChainsFitRing(ring: seq<Bd>, chains: seq<Chain>, cut: nat)
    requires RingOk(ring, chains, cut)
    ensures |chains| <= |ring|
  {
    if chains != [] { ChainsFit(chains[1..]); }
  }

  lemma OldestBd(ring: seq<Bd>, chains: seq<Chain>, cut: nat)
    requires RingOk(ring, chains, cut) && ring != []
    ensures chains != [] && HasData(chains[0]) && cut < |FrameBds(chains[0])|
    ensures ring[0].id == if cut + 1 == |FrameBds(chains[0])| then Some(chains[0].id) else None
    ensures ring[1..] == AllBds(chains)[cut + 1..] && AllBds(chains) == FrameBds(chains[0]) + AllBds(chains[1..])
  {
    assert chains[0] in chains;
    FrameShape(chains[0]);
    assert AllBds(chains) == FrameBds(chains[0]) + AllBds(chains[1..]);
    assert ring[0] == FrameBds(chains[0])[cut];
  }

  lemma LastReclaimed(ring: seq<Bd>, chains: seq<Chain>, cut: nat)
    requires RingOk(ring, chains, cut) && ring != [] && chains != [] && HasData(chains[0])
    requires cut + 1 == |FrameBds(chains[0])|
    ensures RingOk(ring[1..], chains[1..], 0)
  {
    OldestBd(ring, chains, cut);
    assert ring[1..] == AllBds(chains[1..]);
    if chains[1..] != [] {
      assert chains[1] in chains;
      FrameShape(chains[1]);
    }
  }

  lemma InnerReclaimed(ring: seq<Bd>, chains: seq<Chain>, cut: nat)
    requires RingOk(ring, chains, cut) && ring != [] && chains != [] && HasData(chains[0])
    requires cut + 1 != |FrameBds(chains[0])|
    ensures RingOk(ring[1..], chains, cut + 1)
  {
    OldestBd(ring, chains, cut);
  }

  lemma OldestRetired(wire: seq<Bd>, sent: seq<Chain>, refs: multiset<nat>, chains: seq<Chain>)
    requires WireOk(wire, sent, chains) && RefsOk(refs, 0, chains) && chains != []
    ensures chains[0].id in refs
    ensures WireOk(wire, sent, chains[1..]) && RefsOk(refs - multiset{chains[0].id}, 0, chains[1..])
  {
  }

  lemma CountShrinks(queued: nat, frames: nat, n: nat)
    requires CountOk(queued, frames, n) && n > 0
    ensures CountOk(queued, (frames + 1) % U32, n - 1)
  {
  }

  lemma CountGrows(queued: nat, frames: nat, n: nat)
    requires CountOk(queued, frames, n) && n < N_TX_BD
    ensures CountOk((queued + 1) % U32, frames, n + 1)
  {
  }

  /** What reclaiming a chain's last descriptor does, and what reclaiming any other does. */
  lemma ReclaimLast(s: State)
    requires s.ring != [] && s.chains != [] && HasData(s.chains[0]) && s.cut + 1 == |FrameBds(s.chains[0])|
    requires s.ring[0].id == Some(s.chains[0].id) && s.chains[0].id in s.refs
    ensures ReclaimOne(s) == s.(ring := s.ring[1..], chains := s.chains[1..], cut := 0,
                                refs := s.refs - multiset{s.chains[0].id}, txFrames := (s.txFrames + 1) % U32)
  {
  }

  lemma ReclaimInner(s: State)
    requires s.ring != [] && s.chains != [] && HasData(s.chains[0]) && s.cut + 1 != |FrameBds(s.chains[0])|
    requires s.ring[0].id == None
    ensures ReclaimOne(s) == s.(ring := s.ring[1..], cut := s.cut + 1)
  {
  }

  lemma LastRetired(ring: seq<Bd>, chains: seq<Chain>, cut: nat, wire: seq<Bd>, sent: seq<Chain>, refs: multiset<nat>)
    requires ChainsOk(ring, chains, cut, wire, sent, refs) && ring != [] && chains != [] && HasData(chains[0])
    requires cut + 1 == |FrameBds(chains[0])|
    ensures chains[0].id in refs
    ensures ChainsOk(ring[1..], chains[1..], 0, wire, sent, refs - multiset{chains[0].id})
  {
    OldestRetired(wire, sent, refs, chains);
    LastReclaimed(ring, chains, cut);
  }

  lemma ReclaimLastKeeps(s: State)
    requires InRing(s) && s.ring != [] && s.chains != [] && HasData(s.chains[0])
    requires s.cut + 1 == |FrameBds(s.chains[0])| && s.ring[0].id == Some(s.chains[0].id)
    ensures InRing(ReclaimOne(s))
    ensures ReclaimOne(s).chains == s.chains[1..] && ReclaimOne(s).txQueued == s.txQueued
    ensures ReclaimOne(s).txFrames == (s.txFrames + 1) % U32
  {
    LastRetired(s.ring, s.chains, s.cut, s.wire, s.sent, s.refs);
    ReclaimLast(s);
  }

  /** Reclaiming a descriptor gives back the chain's reference exactly when it was the chain's last. */
  lemma ReclaimOneKeeps(s: State)
    requires Inv(s) && s.ring != []
    ensures Inv(ReclaimOne(s)) && Untouched(s, ReclaimOne(s)) && ReclaimOne(s).ring == s.ring[1..]
  {
    OldestBd(s.ring, s.chains, s.cut);
    if s.cut + 1 == |FrameBds(s.chains[0])| {
      CountShrinks(s.txQueued, s.txFrames, |s.chains|);
      ReclaimLastKeeps(s);
    } else {
      InnerReclaimed(s.ring, s.chains, s.cut);
      ReclaimInner(s);
    }
  }

  /** Reclaiming does not change what has been sent. */
  predicate Untouched(s: State, t: State) {
    t.sent == s.sent && t.wire == s.wire
  }

  lemma {:induction false} ReclaimShape(s: State, n: nat)
    requires n <= |s.ring|
    ensures Untouched(s, Reclaim(s, n)) && Reclaim(s, n).ring == s.ring[n..]
    decreases n
  {
    if n > 0 {
      var t := ReclaimOne(s);
      assert t.ring == s.ring[1..] && Untouched(s, t);
      ReclaimShape(t, n - 1);
    }
  }

  lemma {:induction false} ReclaimKeeps(s: State, n: nat)
    requires Inv(s) && n <= |s.ring|
    ensures Inv(Reclaim(s, n)) && Untouched(s, Reclaim(s, n)) && Reclaim(s, n).ring == s.ring[n..]
    decreases n
  {
    ReclaimShape(s, n);
    if n > 0 {
      ReclaimOneKeeps(s);
      ReclaimKeeps(ReclaimOne(s), n - 1);
    }
  }

  lemma ChainQueued(ring: seq<Bd>, chains: seq<Chain>, cut: nat, c: Chain)
    requires RingOk(ring, chains, cut) && HasData(c)
    ensures RingOk(ring + FrameBds(c), chains + [c], cut)
  {
    AllBdsAppend(chains, c);
    assert (AllBds(chains) + FrameBds(c))[cut..] == AllBds(chains)[cut..] + FrameBds(c);
  }

  lemma ChainSent(wire: seq<Bd>, sent: seq<Chain>, refs: multiset<nat>, chains: seq<Chain>, c: Chain)
    requires WireOk(wire, sent, chains) && RefsOk(refs, 0, chains) && HasData(c) && AllHaveData(chains)
    ensures WireOk(wire + FrameBds(c), sent + [c], chains + [c])
    ensures RefsOk(refs + multiset{c.id}, 0, chains + [c])
  {
    AllBdsAppend(sent, c);
    AllBdsAppend(chains, c);
  }

  lemma QueueKeeps(s: State, c: Chain, accepted: bool)
    requires Inv(s) && HasData(c) && Free(s) >= |Blank(c.bufs)|
    ensures Inv(Queue(s, c, accepted))
  {
    if accepted {
      FrameShape(c);
      ChainQueued(s.ring, s.chains, s.cut, c);
      ChainSent(s.wire, s.sent, s.refs, s.chains, c);
      ChainsFitRing(s.ring, s.chains, s.cut);
      CountGrows(s.txQueued, s.txFrames, |s.chains|);
    }
  }

  /** A chain goes out whole or not at all, and only for want of descriptors or of the hardware; one
      without data succeeds without going out. */
  lemma OutputKeeps(s: State, c: Chain, n: nat, allocOk: bool, accepted: bool)
    requires Inv(s) && n <= |s.ring|
    ensures var (t, r) := Output(s, c, n, allocOk, accepted);
            var free := if Free(s) < |Blank(c.bufs)| then Free(s) + n else Free(s);
            && Inv(t)
            && t.sent == (if r == Ok && HasData(c) then s.sent + [c] else s.sent)
            && (r == Ok <==> !HasData(c) || (free >= |Blank(c.bufs)| && allocOk && accepted))
  {
    if HasData(c) {
      ReclaimKeeps(s, n);
      var t := if Free(s) < |Blank(c.bufs)| then Reclaim(s, n) else s;
      if Free(t) >= |Blank(c.bufs)| && allocOk {
        QueueKeeps(t, c, accepted);
      }
    }
  }

  /** The pbufs of a chain that hold data. */
  function Pieces(bufs: seq<Bytes>): nat {
    if bufs == [] then 0 else (if |bufs[0]| > 0 then 1 else 0) + Pieces(bufs[1..])
  }

  lemma {:induction false} PiecesAreBlank(bufs: seq<Bytes>)
    ensures |Blank(bufs)| == Pieces(bufs)
    decreases bufs
  {
    if bufs != [] { PiecesAreBlank(bufs[1..]); }
  }

  /** Nothing is sent, queued or held. */
  predicate SendsNothing(s: State, t: State) {
    t.sent == s.sent && t.wire == s.wire && t.txQueued == s.txQueued && t.refs <= s.refs
  }

  /** The descriptors free once those completed are counted, if they are needed. */
  function RoomFor(s: State, need: nat, n: nat): int {
    if 64 - |s.ring| < need then 64 - |s.ring| + n else 64 - |s.ring|
  }

  /** How each call ends: a chain without data is done at once; too little room, and a ring library that hands out
      no descriptors, are a lack of memory, the first of them counted; a hardware that refuses is an interface error;
      and in none of these is anything sent, queued or held. */
  lemma OutputAnswers(s: State, c: Chain, n: nat, allocOk: bool, accepted: bool)
    requires n <= |s.ring|
    ensures var (t, r) := Output(s, c, n, allocOk, accepted);
            var need := Pieces(c.bufs);
            if need == 0 then r == Ok && t == s
            else if RoomFor(s, need, n) < need then
              r == NoMemory && t.txNobd == (s.txNobd + 1) % U32 && SendsNothing(s, t)
            else if !allocOk then r == NoMemory && t.txNobd == s.txNobd && SendsNothing(s, t)
            else if !accepted then r == NoInterface && t.txNobd == s.txNobd && SendsNothing(s, t)
            else r == Ok && t.sent == s.sent + [c] && t.txQueued == (s.txQueued + 1) % U32 && t.txNobd == s.txNobd
  {
    PiecesAreBlank(c.bufs);
    if Pieces(c.bufs) > 0 {
      var t := RoomMade(s, Pieces(c.bufs), n);
      if Free(t) >= Pieces(c.bufs) && allocOk && accepted { QueueAdds(t, c); }
    }
  }

  /** Completed descriptors leave the ring only where room is short, and what is sent joins it. */
  lemma OutputFillsRing(s: State, c: Chain, n: nat, allocOk: bool, accepted: bool)
    requires n <= |s.ring|
    ensures var (t, r) := Output(s, c, n, allocOk, accepted);
            var need := Pieces(c.bufs);
            |t.ring| == |s.ring| - (if need > 0 && 64 - |s.ring| < need then n else 0) + (if need > 0 && r == Ok then need else 0)
  {
    PiecesAreBlank(c.bufs);
    if Pieces(c.bufs) > 0 {
      var t := RoomMade(s, Pieces(c.bufs), n);
      if Free(t) >= Pieces(c.bufs) && allocOk && accepted { QueueAdds(t, c); }
    }
  }

  /** The state in which low_level_output knows whether there is room. */
  lemma RoomMade(s: State, need: nat, n: nat) returns (t: State)
    requires n <= |s.ring|
    ensures t == if Free(s) < need then Reclaim(s, n) else s
    ensures |t.ring| == |s.ring| - (if 64 - |s.ring| < need then n else 0)
    ensures t.txQueued == s.txQueued && t.txNobd == s.txNobd && t.refs <= s.refs && t.sent == s.sent && t.wire == s.wire
  {
    t := if Free(s) < need then Reclaim(s, n) else s;
    if Free(s) < need {
      ReclaimShape(s, n);
      ReclaimCounts(s, n);
    }
  }

  lemma QueueAdds(s: State, c: Chain)
    requires HasData(c)
    ensures var t := Queue(s, c, true);
            && |t.ring| == |s.ring| + |Blank(c.bufs)| && t.sent == s.sent + [c]
            && t.txQueued == (s.txQueued + 1) % U32 && t.txNobd == s.txNobd
  {
    FrameShape(c);
  }

  /** Reclaiming neither queues nor refuses anything, and takes no reference. */
  lemma {:induction false} ReclaimCounts(s: State, n: nat)
    requires n <= |s.ring|
    ensures var t := Reclaim(s, n);
            t.txQueued == s.txQueued && t.txNobd == s.txNobd && t.refs <= s.refs && t.sent == s.sent && t.wire == s.wire
    decreases n
  {
    if n > 0 { ReclaimCounts(ReclaimOne(s), n - 1); }
  }

  // ---------------------------------------------------------------- runs

  datatype Event = Send(c: Chain, n: nat, allocOk: bool, accepted: bool) | SentIsr(n: nat)

  predicate Enabled(s: State, e: Event) {
    e.n <= |s.ring|
  }

  function Step(s: State, e: Event): State
    requires Enabled(s, e)
  {
    match e
    case Send(c, n, allocOk, accepted) => Output(s, c, n, allocOk, accepted).0
    case SentIsr(n) => Reclaim(s, n)
  }

  predicate Legal(s: State, es: seq<Event>)
    decreases es
  {
    es == [] || (Enabled(s, es[0]) && Legal(Step(s, es[0]), es[1..]))
  }

  function Run(s: State, es: seq<Event>): State
    requires Legal(s, es)
    decreases es
  {
    if es == [] then s else Run(Step(s, es[0]), es[1..])
  }

  lemma StepKeeps(s: State, e: Event)
    requires Inv(s) && Enabled(s, e)
    ensures Inv(Step(s, e))
  {
    match e
    case Send(c, n, allocOk, accepted) => OutputKeeps(s, c, n, allocOk, accepted);
    case SentIsr(n) => ReclaimKeeps(s, n);
  }

  lemma {:induction false} RunKeeps(s: State, es: seq<Event>)
    requires Inv(s) && Legal(s, es)
    ensures Inv(Run(s, es))
    decreases es
  {
    if es != [] {
      StepKeeps(s, es[0]);
      RunKeeps(Step(s, es[0]), es[1..]);
    }
  }

  /** In every run the descriptors handed to the hardware reassemble into exactly one frame per queued
      chain, in order, each carrying the chain's payload. */
  lemma EveryRunSendsWholeFrames(s: State, es: seq<Event>)
    requires Inv(s) && Legal(s, es)
    ensures Reassemble(Run(s, es).wire, None) == Some(Payloads(Run(s, es).sent))
  {
    RunKeeps(s, es);
    WireCarriesPayloads(Run(s, es).sent);
  }

  /** The chain a descriptor of the ring belongs to. */
  lemma {:induction false} OwnerOf(cs: seq<Chain>, k: nat) returns (j: nat)
    requires AllHaveData(cs) && k < |AllBds(cs)|
    ensures j < |cs| && AllBds(cs)[k] in FrameBds(cs[j]) && cs[j].id in Ids(cs)
    decreases cs
  {
    if k < |FrameBds(cs[0])| {
      j := 0;
    } else {
      assert AllBds(cs)[k] == AllBds(cs[1..])[k - |FrameBds(cs[0])|];
      j := OwnerOf(cs[1..], k - |FrameBds(cs[0])|);
      j := j + 1;
    }
  }

  /** Descriptor `k` of the ring belongs to a chain the driver holds a reference on. */
  ghost predicate Pinned(s: State, k: nat)
    requires k < |s.ring| && AllHaveData(s.chains)
  {
    exists j :: 0 <= j < |s.chains| && s.ring[k] in FrameBds(s.chains[j]) && s.chains[j].id in s.refs
  }

  lemma RingIsPinned(s: State, k: nat)
    requires k < |s.ring| && RingOk(s.ring, s.chains, s.cut) && s.refs == Ids(s.chains)
    ensures Pinned(s, k)
  {
    var j := OwnerOf(s.chains, s.cut + k);
    assert AllBds(s.chains)[s.cut + k] == s.ring[k];
  }

  /** Each descriptor the hardware owns belongs to a chain the driver holds a reference on, the driver
      holds one reference per chain in the ring and has never given back one it did not hold, and the
      two counters differ by exactly the chains in the ring. */
  ghost predicate PinsItsChains(t: State) {
    && AllHaveData(t.chains) && t.refs == Ids(t.chains) && t.overfreed == 0
    && (forall k: nat :: k < |t.ring| ==> Pinned(t, k))
    && (t.ring == [] ==> t.refs == multiset{})
    && (t.txQueued - t.txFrames) % U32 == |t.chains|
  }

  lemma ChainsPinned(t: State)
    requires Inv(t)
    ensures PinsItsChains(t)
  {
    ChainsFitRing(t.ring, t.chains, t.cut);
    forall k: nat | k < |t.ring| ensures Pinned(t, k) { RingIsPinned(t, k); }
  }

  lemma EveryRunPinsItsChains(s: State, es: seq<Event>)
    requires Inv(s) && Legal(s, es)
    ensures PinsItsChains(Run(s, es))
  {
    RunKeeps(s, es);
    ChainsPinned(Run(s, es));
  }

  /** Runs start from an empty ring. */
  lemma InitialOk()
    ensures Inv(Initial)
  {
    assert AllBds([]) == [];
  }
}
