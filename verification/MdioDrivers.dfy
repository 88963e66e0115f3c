/**
 The two MDIO drivers against the whole system: polling loops with a bound, register accesses with any
 number of clock edges between them, and every way a call can give up. Whatever the latencies, the
 settled PHY registers behave as a plain array: a write that was issued has updated it once, a
 successful read returns what it holds, and a call that timed out early has not touched it.
 */
module MdioDrivers {
  import opened Ledger
  import opened RegFile
  import opened Mdio

  /** The edges that pass before each register access. */
  type Schedule = nat -> seq<Choice>

  datatype Outcome =
    | NotIssued          // timed out waiting for the bus: nothing was sent
    | GaveUp             // sent, but the wait for completion timed out
    | Done(data: nat)

  /** Which of the two drivers makes a call. */
  datatype Driver = Linux(tries: nat) | BareMetal

  const BARE_TRIES: nat := 20000   // TAXI_MAC_MDIO_TIMEOUT_US

  /** How often a driver looks before it gives up. */
  function Tries(driver: Driver): nat {
    match driver case Linux(tries) => tries case BareMetal => BARE_TRIES
  }

  datatype Call = Read(phyad: nat, reg: nat) | Write(phyad: nat, reg: nat, val: nat)

  // ---------------------------------------------------------------- what a polling loop sees

  /** The edges that have passed at look `k`. */
  function Edges(when: Schedule, k: nat): seq<Choice> {
    if k == 0 then when(0) else Edges(when, k - 1) + when(k)
  }

  lemma {:induction false} ElapseAppends(s: Sys, a: seq<Choice>, b: seq<Choice>)
    ensures Elapse(s, a + b) == Elapse(Elapse(s, a), b)
    decreases a
  {
    if a == [] {
      assert a + b == b;
    } else {
      assert (a + b)[1..] == a[1..] + b;
      ElapseAppends(Edge(s, a[0], None), a[1..], b);
    }
  }

  /** No command waits in the mailbox or is with the master; and, if data is asked for, there is some. */
  predicate Ready(s: Sys, data: bool) {
    s.master == Idle && !s.mbox.valid && (data ==> s.mbox.rdValid)
  }

  /** One of the looks a loop takes finds it so. */
  ghost predicate Answered(s: Sys, when: Schedule, tries: nat, data: bool) {
    exists k: nat :: k < tries && Ready(Elapse(s, Edges(when, k)), data)
  }

  /** On a bus with nothing under way the first look does. */
  lemma QuietAnswers(s: Sys, when: Schedule, tries: nat)
    requires Orderly(s) && Quiet(s) && tries > 0
    ensures Answered(s, when, tries, false)
  {
    ElapseSettles(s, Edges(when, 0));
    assert Ready(Elapse(s, Edges(when, 0)), false);
  }

  /** After a command has been written the master takes it at the first edge, and by the end of these it has
      driven the frame through and finished. */
  predicate Served(cs: seq<Choice>) {
    exists i, j :: 1 <= i <= j < |cs| && cs[i].perform && cs[j].finish
  }

  /** By the end it has finished the command it holds. */
  predicate Finished(performed: bool, cs: seq<Choice>) {
    exists j :: 0 <= j < |cs| && cs[j].finish && (performed || exists i :: 0 <= i <= j && cs[i].perform)
  }

  lemma {:induction false} BusyUntilFinished(s: Sys, cs: seq<Choice>)
    requires s.master.Busy? && !s.mbox.valid
    ensures Quiet(Elapse(s, cs)) <==> Finished(s.master.performed, cs)
    decreases cs
  {
    if cs != [] {
      var t, rest := Edge(s, cs[0], None), cs[1..];
      var performed := s.master.performed || cs[0].perform;
      if performed && cs[0].finish {
        QuietStays(t, rest);
        assert cs[0].finish && (s.master.performed || cs[0].perform);
      } else {
        BusyUntilFinished(t, rest);
        if Finished(performed, rest) {
          var j :| 0 <= j < |rest| && rest[j].finish && (performed || exists i :: 0 <= i <= j && rest[i].perform);
          assert cs[j + 1] == rest[j];
          if i :| 0 <= i <= j && rest[i].perform { assert cs[i + 1].perform; }
        }
        if Finished(s.master.performed, cs) {
          var j :| 0 <= j < |cs| && cs[j].finish && (s.master.performed || exists i :: 0 <= i <= j && cs[i].perform);
          if j > 0 {
            assert rest[j - 1] == cs[j];
            if i :| 0 < i <= j && cs[i].perform { assert rest[i - 1].perform; }
          }
        }
      }
    }
  }

  lemma {:induction false} QuietStays(s: Sys, cs: seq<Choice>)
    requires Quiet(s)
    ensures Elapse(s, cs) == s
    decreases cs
  {
    if cs != [] { QuietStays(Edge(s, cs[0], None), cs[1..]); }
  }

  /** A command just written to a quiet bus is done exactly when the master has been able to take it, drive it
      through and finish it. */
  lemma QuietIffServed(s: Sys, cs: seq<Choice>)
    requires s.mbox.valid && s.master == Idle
    ensures Quiet(Elapse(s, cs)) <==> Served(cs)
  {
    if cs != [] {
      var t, rest := Edge(s, cs[0], None), cs[1..];
      BusyUntilFinished(t, rest);
      if Finished(false, rest) {
        var j :| 0 <= j < |rest| && rest[j].finish && exists i :: 0 <= i <= j && rest[i].perform;
        var i :| 0 <= i <= j && rest[i].perform;
        assert cs[i + 1].perform && cs[j + 1].finish;
      }
      if Served(cs) {
        var i, j :| 1 <= i <= j < |cs| && cs[i].perform && cs[j].finish;
        assert rest[i - 1].perform && rest[j - 1].finish;
      }
    }
  }

  /** Some look comes after the master has been able to do that. */
  predicate ServedInTime(when: Schedule, tries: nat) {
    exists k: nat :: k < tries && Served(Edges(when, k))
  }

  /** The wait for completion succeeds exactly then. */
  lemma AnsweredIffServed(s: Sys, when: Schedule, tries: nat)
    requires s.mbox.valid && s.master == Idle
    ensures Answered(s, when, tries, false) <==> ServedInTime(when, tries)
  {
    forall k: nat ensures Ready(Elapse(s, Edges(when, k)), false) <==> Served(Edges(when, k)) {
      QuietIffServed(s, Edges(when, k));
    }
  }

  /** For a read so does the wait for its data. */
  lemma ReadAnsweredIffServed(s: Sys, when: Schedule, tries: nat, cmd: nat, v: nat)
    requires s.mbox.valid && s.master == Idle && Reading(s, cmd, v)
    ensures Answered(s, when, tries, true) <==> ServedInTime(when, tries)
  {
    forall k: nat ensures Ready(Elapse(s, Edges(when, k)), true) <==> Served(Edges(when, k)) {
      QuietIffServed(s, Edges(when, k));
      ElapseReading(s, Edges(when, k), cmd, v);
    }
  }

  // ---------------------------------------------------------------- a register array

  /** A plain register array after the calls that were issued, in order. */
  function Plain(phy: Phy, calls: seq<Call>, results: seq<Outcome>): Phy
    requires |calls| == |results|
  {
    if calls == [] then phy
    else
      var k := |calls| - 1;
      var before := Plain(phy, calls[..k], results[..k]);
      if calls[k].Write? && results[k] != NotIssued
      then before[(calls[k].phyad % 32, calls[k].reg % 32) := calls[k].val]
      else before
  }

  /** Every call that reported success agrees with a plain register array. */
  ghost predicate Explained(phy: Phy, calls: seq<Call>, results: seq<Outcome>)
    requires |calls| == |results|
  {
    forall k :: 0 <= k < |calls| && calls[k].Read? && results[k].Done? ==>
      results[k].data
      == Lookup(Plain(phy, calls[..k], results[..k]), (calls[k].phyad % 32, calls[k].reg % 32)) % 0x1_0000
  }

  lemma PlainMore(phy: Phy, calls: seq<Call>, results: seq<Outcome>, call: Call, result: Outcome)
    requires |calls| == |results| && Explained(phy, calls, results)
    requires call.Read? && result.Done? ==>
               result.data == Lookup(Plain(phy, calls, results), (call.phyad % 32, call.reg % 32)) % 0x1_0000
    ensures Explained(phy, calls + [call], results + [result])
    ensures Plain(phy, calls + [call], results + [result])
         == if call.Write? && result != NotIssued
            then Plain(phy, calls, results)[(call.phyad % 32, call.reg % 32) := call.val]
            else Plain(phy, calls, results)
  {
    var cs, rs := calls + [call], results + [result];
    assert cs[..|calls|] == calls && rs[..|calls|] == results;
    forall k | 0 <= k < |calls| ensures cs[..k] == calls[..k] && rs[..k] == results[..k] {
    }
  }

  class Bus {
    var mbox: Mailbox
    var master: Master
    var phy: Phy

    function View(): Sys
      reads this
    {
      Sys(mbox, master, phy)
    }

    ghost predicate Valid()
      reads this
    {
      Orderly(View())
    }

    /** What the PHY registers hold once everything accepted has been performed. */
    function Registers(): Phy
      reads this
    {
      Settled(View())
    }

    constructor (phy: Phy)
      ensures Valid() && Registers() == phy
    {
      mbox, master, this.phy := EmptyMailbox, Idle, phy;
    }

    method Pass(cs: seq<Choice>)
      modifies this
      ensures View() == Elapse(old(View()), cs)
    {
      var k := 0;
      while k < |cs|
        invariant k <= |cs| && Elapse(View(), cs[k..]) == Elapse(old(View()), cs)
      {
        OneEdge(cs[k], None);
        k := k + 1;
      }
    }

    method OneEdge(c: Choice, wr: Option<nat>)
      modifies this
      ensures View() == Edge(old(View()), c, wr)
    {
      var t := Edge(View(), c, wr);
      mbox, master, phy := t.mbox, t.master, t.phy;
    }

    /** readl_poll_timeout on MDIO_STATUS: up to `tries` reads until the busy bit is clear and, if
        `data` is asked for, the read-valid bit is set. It succeeds exactly if one of its looks finds it so, and
        leaves off there. */
    method PollStatus(data: bool, tries: nat, when: Schedule, ghost cmd: nat, ghost v: nat)
      returns (ok: bool)
      requires Valid()
      modifies this
      ensures Valid() && Registers() == old(Registers())
      ensures ok <==> Answered(old(View()), when, tries, data)
      ensures ok ==> Ready(View(), data)
      ensures old(Reading(View(), cmd, v)) ==> Reading(View(), cmd, v)
    {
      var k := 0;
      while k < tries
        invariant Valid() && Registers() == old(Registers()) && k <= tries
        invariant View() == if k == 0 then old(View()) else Elapse(old(View()), Edges(when, k - 1))
        invariant forall j: nat :: j < k ==> !Ready(Elapse(old(View()), Edges(when, j)), data)
        invariant old(Reading(View(), cmd, v)) ==> Reading(View(), cmd, v)
      {
        if k > 0 { ElapseAppends(old(View()), Edges(when, k - 1), when(k)); }
        Wait(when(k), cmd, v);
        assert View() == Elapse(old(View()), Edges(when, k));
        var st := Status(View());
        StatusBits(View());
        if !Bit(st, 0) && (data ==> Bit(st, 1)) { return true; }
        k := k + 1;
      }
      return false;
    }

    method Wait(cs: seq<Choice>, ghost cmd: nat, ghost v: nat)
      requires Valid()
      modifies this
      ensures Valid() && Registers() == old(Registers()) && View() == Elapse(old(View()), cs)
      ensures old(Quiet(View())) ==> View() == old(View())
      ensures old(Reading(View(), cmd, v)) ==> Reading(View(), cmd, v)
    {
      ElapseSettles(View(), cs);
      if Reading(View(), cmd, v) { ElapseReading(View(), cs, cmd, v); }
      Pass(cs);
    }

    /** A write to MDIO_CMD on a bus that was found idle. It is never dropped. */
    method Issue(word: nat, cs: seq<Choice>, at: Choice)
      requires Valid() && Quiet(View())
      modifies this
      ensures Valid() && !mbox.drop && mbox.valid && master == Idle
      ensures Registers() == Apply(old(Registers()), Frame(word))
      ensures ReadData(old(Registers()), Frame(word)).Some? ==>
                Reading(View(), Frame(word), ReadData(old(Registers()), Frame(word)).value)
    {
      Wait(cs, 0, 0);
      IssueSettles(View(), at, word);
      assert Settled(View()) == phy;
      OneEdge(at, Some(word));
    }

    /** taxi_mdio_read. It is sent exactly if a look finds the bus idle, and succeeds exactly if a look comes
        after the master has been able to serve it; it then returns what the register holds. */
    method LinuxRead(phyad: nat, reg: nat, tries: nat, idle: Schedule, at: Choice, when: Schedule,
                     gap: seq<Choice>)
      returns (r: Outcome)
      requires Valid()
      modifies this
      ensures Valid() && Registers() == old(Registers())
      ensures r != NotIssued <==> Answered(old(View()), idle, tries, false)
      ensures r.Done? <==> r != NotIssued && ServedInTime(when, tries)
      ensures r.Done? ==> r.data == Lookup(old(Registers()), (phyad % 32, reg % 32)) % 0x1_0000
      ensures r.Done? ==> Quiet(View()) && phy == old(Registers())
    {
      ghost var v := Lookup(Registers(), (phyad % 32, reg % 32));
      var word := LinuxCommand(OP_READ, phyad, reg, 0);
      FrameLayout(OP_READ, phyad, reg, 0);
      var ok := PollStatus(false, tries, idle, 0, 0);
      if !ok { return NotIssued; }
      Issue(word, gap, at);
      ReadAnsweredIffServed(View(), when, tries, Frame(word), v);
      ok := PollStatus(true, tries, when, Frame(word), v);
      if !ok { return GaveUp; }
      Wait(gap, Frame(word), v);
      return Done(mbox.rdata % 0x1_0000);
    }

    /** taxi_mdio_write, likewise. */
    method LinuxWrite(phyad: nat, reg: nat, val: nat, tries: nat, idle: Schedule, at: Choice,
                      when: Schedule, gap: seq<Choice>)
      returns (r: Outcome)
      requires Valid() && val < 0x1_0000
      modifies this
      ensures Valid()
      ensures r != NotIssued <==> Answered(old(View()), idle, tries, false)
      ensures r.Done? <==> r != NotIssued && ServedInTime(when, tries)
      ensures r == NotIssued ==> Registers() == old(Registers())
      ensures r != NotIssued ==> Registers() == old(Registers())[(phyad % 32, reg % 32) := val]
      ensures r.Done? ==> Quiet(View()) && phy == Registers()
    {
      var word := LinuxCommand(OP_WRITE, phyad, reg, val);
      FrameLayout(OP_WRITE, phyad, reg, val);
      var ok := PollStatus(false, tries, idle, 0, 0);
      if !ok { return NotIssued; }
      Issue(word, gap, at);
      AnsweredIffServed(View(), when, tries);
      ok := PollStatus(false, tries, when, 0, 0);
      return if ok then Done(0) else GaveUp;
    }

    /** taxi_mac_mdio_cmd; the drop bit is never found set. */
    method BareMetalCmd(word: nat, idle: Schedule, at: Choice, when: Schedule, gap: seq<Choice>, ghost v: nat)
      returns (r: Outcome)
      requires Valid()
      modifies this
      ensures Valid()
      ensures r != NotIssued <==> Answered(old(View()), idle, BARE_TRIES, false)
      ensures r.Done? <==> r != NotIssued && ServedInTime(when, BARE_TRIES)
      ensures r == NotIssued ==> Registers() == old(Registers())
      ensures r != NotIssued ==> Registers() == Apply(old(Registers()), Frame(word))
      ensures r.Done? ==> Quiet(View())
      ensures r.Done? && ReadData(old(Registers()), Frame(word)) == Some(v) ==> Reading(View(), Frame(word), v)
    {
      var ok := PollStatus(false, BARE_TRIES, idle, 0, 0);
      if !ok { return NotIssued; }
      Issue(word, gap, at);
      AnsweredIffServed(View(), when, BARE_TRIES);
      ok := PollStatus(false, BARE_TRIES, when, Frame(word), v);
      if !ok { return GaveUp; }
      Wait(gap, Frame(word), v);
      StatusBits(View());
      if Bit(Status(View()), 2) { return GaveUp; }
      return Done(0);
    }

    /** taxi_mac_mdio_write. */
    method BareMetalWrite(phyad: nat, reg: nat, val: nat, idle: Schedule, at: Choice, when: Schedule,
                          gap: seq<Choice>)
      returns (r: Outcome)
      requires Valid() && val < 0x1_0000
      modifies this
      ensures Valid()
      ensures r != NotIssued <==> Answered(old(View()), idle, BARE_TRIES, false)
      ensures r.Done? <==> r != NotIssued && ServedInTime(when, BARE_TRIES)
      ensures r == NotIssued ==> Registers() == old(Registers())
      ensures r != NotIssued ==> Registers() == old(Registers())[(phyad % 32, reg % 32) := val]
      ensures r.Done? ==> Quiet(View()) && phy == Registers()
    {
      var word := BareMetalCommand(OP_WRITE, phyad, reg, val);
      FrameLayout(OP_WRITE, phyad, reg, val);
      r := BareMetalCmd(word, idle, at, when, gap, 0);
    }

    /** taxi_mac_mdio_read. Once the bus has become idle again the data is always there: the only way
        to fail is that none of the looks of one of its waits comes late enough. */
    method BareMetalRead(phyad: nat, reg: nat, idle: Schedule, at: Choice, when: Schedule,
                         gap: seq<Choice>)
      returns (r: Outcome)
      requires Valid()
      modifies this
      ensures Valid() && Registers() == old(Registers())
      ensures r != NotIssued <==> Answered(old(View()), idle, BARE_TRIES, false)
      ensures r.Done? <==> r != NotIssued && ServedInTime(when, BARE_TRIES)
      ensures r.Done? ==> r.data == Lookup(old(Registers()), (phyad % 32, reg % 32)) % 0x1_0000
      ensures r.Done? ==> Quiet(View()) && phy == old(Registers())
    {
      ghost var v := Lookup(Registers(), (phyad % 32, reg % 32));
      var word := BareMetalCommand(OP_READ, phyad, reg, 0);
      FrameLayout(OP_READ, phyad, reg, 0);
      r := BareMetalCmd(word, idle, at, when, gap, v);
      if !r.Done? { return; }
      Wait(gap, Frame(word), v);
      StatusBits(View());
      if !Bit(Status(View()), 1) { return GaveUp; }
      Wait(gap, Frame(word), v);
      return Done(mbox.rdata % 0x1_0000);
    }

    /** One call of either driver, with its latencies. */
    method Perform(driver: Driver, call: Call, idle: Schedule, at: Choice, when: Schedule, gap: seq<Choice>)
      returns (r: Outcome)
      requires Valid() && (call.Write? ==> call.val < 0x1_0000)
      modifies this
      ensures Valid()
      ensures r != NotIssued <==> Answered(old(View()), idle, Tries(driver), false)
      ensures r.Done? <==> r != NotIssued && ServedInTime(when, Tries(driver))
      ensures r.Done? ==> Quiet(View())
      ensures call.Read? && r.Done? ==>
                r.data == Lookup(old(Registers()), (call.phyad % 32, call.reg % 32)) % 0x1_0000
      ensures Registers() == if call.Write? && r != NotIssued
                             then old(Registers())[(call.phyad % 32, call.reg % 32) := call.val] else old(Registers())
    {
      match driver {
        case Linux(tries) =>
          match call {
            case Read(p, reg) => r := LinuxRead(p, reg, tries, idle, at, when, gap);
            case Write(p, reg, val) => r := LinuxWrite(p, reg, val, tries, idle, at, when, gap);
          }
        case BareMetal =>
          match call {
            case Read(p, reg) => r := BareMetalRead(p, reg, idle, at, when, gap);
            case Write(p, reg, val) => r := BareMetalWrite(p, reg, val, idle, at, when, gap);
          }
      }
    }

    /** Any sequence of calls of either driver, in any mix, some of which may time out at either of their
        waits, behaves as reads and writes of a plain register array: an issued write happens once, in
        order, and no successful read returns anything older or newer. Where nothing is under way and the
        master always gets to serve a command before the last look, every call succeeds. */
    method Session(calls: seq<Call>, driver: nat -> Driver, idle: nat -> Schedule, at: nat -> Choice,
                   when: nat -> Schedule, gap: nat -> seq<Choice>)
      returns (results: seq<Outcome>)
      requires Valid()
      requires forall c <- calls :: c.Write? ==> c.val < 0x1_0000
      modifies this
      ensures Valid() && |results| == |calls|
      ensures Explained(old(Registers()), calls, results)
      ensures Registers() == Plain(old(Registers()), calls, results)
      ensures old(Quiet(View())) && (forall k: nat :: k < |calls| ==> ServedInTime(when(k), Tries(driver(k)))) ==>
                forall k: nat :: k < |calls| ==> results[k].Done?
    {
      results := [];
      ghost var phy0 := Registers();
      var k := 0;
      while k < |calls|
        invariant k <= |calls| && |results| == k && Valid()
        invariant Explained(phy0, calls[..k], results)
        invariant Registers() == Plain(phy0, calls[..k], results)
        invariant old(Quiet(View())) && (forall j: nat :: j < |calls| ==> ServedInTime(when(j), Tries(driver(j)))) ==>
                    Quiet(View()) && forall j: nat :: j < k ==> results[j].Done?
      {
        assert calls[k] in calls;
        if Quiet(View()) && Tries(driver(k)) > 0 { QuietAnswers(View(), idle(k), Tries(driver(k))); }
        var r := Perform(driver(k), calls[k], idle(k), at(k), when(k), gap(k));
        PlainMore(phy0, calls[..k], results, calls[k], r);
        assert calls[..k + 1] == calls[..k] + [calls[k]];
        results := results + [r];
        k := k + 1;
      }
      assert calls[..k] == calls;
    }
  }
}
