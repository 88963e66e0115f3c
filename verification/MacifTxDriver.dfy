/**
 process_sent_bds and low_level_output as the driver writes them: loops over a chain and over a set of
 descriptors, with the references and counters updated on the way.
 */
module MacifTxDriver {
  import opened Ledger
  import opened MacifTx

  lemma ReclaimStep(s: State, n: nat)
    requires 0 < n <= |s.ring|
    ensures Reclaim(s, n) == Reclaim(ReclaimOne(s), n - 1) && ReclaimOne(s).ring == s.ring[1..]
  {
  }

  /** Reclaiming `k` more from `now` is all that is left of reclaiming `n` from `was`. */
  ghost predicate Left(was: State, n: nat, now: State, k: nat) {
    n <= |was.ring| && k <= |now.ring| && Reclaim(now, k) == Reclaim(was, n)
  }

  lemma OneLess(was: State, n: nat, now: State, k: nat)
    requires Left(was, n, now, k) && k > 0
    ensures now.ring != [] && Left(was, n, ReclaimOne(now), k - 1)
  {
    ReclaimStep(now, k);
  }

  lemma RestOf(post: seq<Bd>, i: nat, ring: seq<Bd>)
    requires i < |post|
    ensures var rest := post[i..] + ring; rest[0] == post[i] && rest[1..] == post[i + 1..] + ring
  {
  }

  class TxSide {
    var ring: seq<Bd>
    var wire: seq<Bd>
    var refs: multiset<nat>
    var overfreed: nat
    var txQueued: nat
    var txFrames: nat
    var txNobd: nat
    ghost var chains: seq<Chain>
    ghost var cut: nat
    ghost var sent: seq<Chain>

    ghost function View(): State
      reads this
    {
      State(ring, wire, refs, overfreed, txQueued, txFrames, txNobd, chains, cut, sent)
    }

    constructor ()
      ensures View() == Initial && Inv(View())
    {
      ring, wire, refs, overfreed := [], [], multiset{}, 0;
      txQueued, txFrames, txNobd, chains, cut, sent := 0, 0, 0, [], 0, [];
    }

    /** pbuf_free of a reference held by the driver. */
    method PbufFree(id: nat)
      modifies this`refs, this`overfreed
      ensures View() == Unref(old(View()), id)
    {
      if id in refs { refs := refs - multiset{id}; } else { overfreed := overfreed + 1; }
    }

    /** One turn of the loop in process_sent_bds, with `rest` still to be freed after `bd`. */
    method ReleaseBd(bd: Bd, ghost rest: seq<Bd>)
      modifies this`refs, this`overfreed, this`txFrames, this`chains, this`cut
      ensures View().(ring := rest) == ReclaimOne(old(View()).(ring := [bd] + rest))
    {
      ghost var s := View().(ring := [bd] + rest);
      ghost var t := ReclaimOne(s);
      assert s.ring[1..] == rest;
      if bd.id.Some? {
        PbufFree(bd.id.value);
        txFrames := (txFrames + 1) % U32;
      }
      chains, cut := t.chains, t.cut;
    }

    /** With `rest` in the ring, `k` more to reclaim is all that is left of reclaiming `n` from `was`. */
    ghost predicate Freeing(was: State, n: nat, rest: seq<Bd>, k: nat)
      reads this
    {
      Left(was, n, View().(ring := rest), k)
    }

    lemma Freed(was: State, n: nat)
      requires Freeing(was, n, ring, 0)
      ensures n <= |was.ring| && View() == Reclaim(was, n)
    {
      assert View().(ring := ring) == View();
    }

    /** process_sent_bds, when the hardware has completed its `n` oldest descriptors. */
    method ProcessSentBds(n: nat) returns (reclaimed: nat)
      requires n <= |ring|
      modifies this
      ensures View() == Reclaim(old(View()), n) && reclaimed == n
    {
      ghost var rest, was, k := ring, View(), n;   // what is still to be freed, with what stays; and how many
      var post := ring[..n];
      ring := ring[n..];
      var i := 0;
      while i < n
        invariant i <= n && k == n - i && rest == post[i..] + ring && Freeing(was, n, rest, k)
      {
        RestOf(post, i, ring);
        ReleaseNext(post[i], rest, was, n, k);
        i, rest, k := i + 1, rest[1..], k - 1;
      }
      assert rest == ring;
      Freed(was, n);
      return n;
    }

    /** One turn: `rest` is still to be freed, beginning with `bd`, or stays. */
    method ReleaseNext(bd: Bd, ghost rest: seq<Bd>, ghost was: State, ghost n: nat, ghost k: nat)
      requires rest != [] && rest[0] == bd && k > 0 && Freeing(was, n, rest, k)
      modifies this`refs, this`overfreed, this`txFrames, this`chains, this`cut
      ensures Freeing(was, n, rest[1..], k - 1)
    {
      assert rest == [bd] + rest[1..];
      OneLess(was, n, View().(ring := rest), k);
      ReleaseBd(bd, rest[1..]);
    }

    /** The loop that fills a set of descriptors in place, skipping empty pbufs. */
    method FillBds(c: Chain, bds: array<Bd>)
      requires bds.Length == |Blank(c.bufs)|
      modifies bds
      ensures bds[..] == Blank(c.bufs)
    {
      var k, q := 0, 0;
      while q < |c.bufs|
        invariant q <= |c.bufs| && k <= bds.Length && bds[..k] + Blank(c.bufs[q..]) == Blank(c.bufs)
      {
        assert c.bufs[q..][1..] == c.bufs[q + 1..];
        if c.bufs[q] != [] {
          ghost var was := bds[..k];
          assert Blank(c.bufs[q..]) == [Bd(c.bufs[q], false, false, None)] + Blank(c.bufs[q + 1..]);
          assert |Blank(c.bufs)| == k + |Blank(c.bufs[q..])|;
          bds[k] := Bd(c.bufs[q], false, false, None);
          k := k + 1;
          assert bds[..k] == was + [Bd(c.bufs[q], false, false, None)];
        } else {
          assert Blank(c.bufs[q..]) == Blank(c.bufs[q + 1..]);
        }
        q := q + 1;
      }
      assert c.bufs[q..] == [] && bds[..k] == Blank(c.bufs) && bds[..] == bds[..k];
    }

    /** The descriptors of a chain: the first opens the frame, the last closes it and holds the chain. */
    method BuildBds(c: Chain, n: nat) returns (bds: array<Bd>)
      requires n == |Blank(c.bufs)| && n > 0
      ensures fresh(bds) && bds[..] == FrameBds(c)
    {
      bds := new Bd[n](_ => Bd([], false, false, None));
      FillBds(c, bds);
      if n == 1 {
        bds[0] := bds[0].(sof := true, eof := true);
      } else {
        bds[0] := bds[0].(sof := true);
        bds[n - 1] := bds[n - 1].(eof := true);
      }
      bds[n - 1] := bds[n - 1].(id := Some(c.id));
    }

    /** The first loop of low_level_output. */
    method CountBds(c: Chain) returns (n: nat)
      ensures n == |Blank(c.bufs)|
    {
      n := 0;
      var q := 0;
      while q < |c.bufs|
        invariant q <= |c.bufs| && n + |Blank(c.bufs[q..])| == |Blank(c.bufs)|
      {
        assert c.bufs[q..][1..] == c.bufs[q + 1..];
        if |c.bufs[q]| > 0 { n := n + 1; }
        q := q + 1;
      }
      assert c.bufs[q..] == [];
    }

    /** The end of low_level_output: pin the chain and hand its descriptors over, or let go of both. */
    method Commit(c: Chain, n: nat, accepted: bool)
      requires n == |Blank(c.bufs)| && n > 0
      modifies this
      ensures View() == Queue(old(View()), c, accepted)
    {
      var bds := BuildBds(c, n);
      var frame := bds[..];
      refs := refs + multiset{c.id};
      if accepted {
        ToHardware(c, frame);
      } else {
        PbufFree(c.id);
        assert refs == old(refs);
      }
    }

    method ToHardware(c: Chain, frame: seq<Bd>)
      modifies this
      ensures View() == old(View()).(ring := old(ring) + frame, wire := old(wire) + frame,
                                     txQueued := (old(txQueued) + 1) % U32,
                                     chains := old(chains) + [c], sent := old(sent) + [c])
    {
      ring, wire := ring + frame, wire + frame;
      chains, sent := chains + [c], sent + [c];
      txQueued := (txQueued + 1) % U32;
    }

    /** Reclaim what has completed if there is not room for `n` descriptors; whether there is then. */
    method MakeRoom(n: nat, completed: nat) returns (room: bool)
      requires completed <= |ring|
      modifies this
      ensures var t := if MacifTx.Free(old(View())) < n then Reclaim(old(View()), completed) else old(View());
              && room == (MacifTx.Free(t) >= n)
              && View() == if room then t else t.(txNobd := (t.txNobd + 1) % U32)
    {
      room := true;
      if N_TX_BD - |ring| < n {
        var _ := ProcessSentBds(completed);
        if N_TX_BD - |ring| < n {
          txNobd := (txNobd + 1) % U32;
          room := false;
        }
      }
    }

    /** low_level_output. `completed` descriptors are done by the time it has to make room. */
    method LowLevelOutput(c: Chain, completed: nat, allocOk: bool, accepted: bool) returns (rc: Result)
      requires completed <= |ring|
      modifies this
      ensures (View(), rc) == Output(old(View()), c, completed, allocOk, accepted)
    {
      var n := CountBds(c);
      if n == 0 { return Ok; }
      var room := MakeRoom(n, completed);
      if !room || !allocOk { return NoMemory; }
      Commit(c, n, accepted);
      return if accepted then Ok else NoInterface;
    }
  }
}
