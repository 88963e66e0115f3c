/**
 MDIO end to end: a register mailbox, an abstract MDIO master that takes a command only when idle and
 is busy until it has finished it, and the PHY registers behind it. Frames are laid out as in
 section 22.2.4.5 of IEEE 802.3.
 */
module Mdio {
  import opened Ledger
  import opened RegFile

  const OP_WRITE: nat := 1
  const OP_READ: nat := 2

  /** The management frame fields, after the preamble. */
  datatype Fields = Fields(st: nat, op: nat, phyad: nat, regad: nat, ta: nat, data: nat)

  function Decode(frame: nat): Fields {
    Fields(frame / 0x4000_0000, frame / 0x1000_0000 % 4, frame / 0x80_0000 % 32,
           frame / 0x4_0000 % 32, frame / 0x1_0000 % 4, frame % 0x1_0000)
  }

  /** The word the Linux driver writes to MDIO_CMD; FIELD_PREP masks every field. */
  function LinuxCommand(op: nat, phy: nat, reg: nat, data: nat): nat {
    0x4000_0000 + op % 4 * 0x1000_0000 + phy % 32 * 0x80_0000 + reg % 32 * 0x4_0000 + data % 0x1_0000
  }

  /** The word the bare-metal driver writes, with the turnaround bits already in place. */
  function BareMetalCommand(op: nat, phy: nat, reg: nat, data: nat): nat {
    LinuxCommand(op, phy, reg, data) + 0x2_0000
  }

  /** Fields packed one after the other are read back by dividing. */
  lemma DecodePacked(op: nat, phyad: nat, regad: nat, ta: nat, data: nat)
    requires op < 4 && phyad < 32 && regad < 32 && ta < 4 && data < 0x1_0000
    ensures var frame := 0x4000_0000 + op * 0x1000_0000 + phyad * 0x80_0000 + regad * 0x4_0000 + ta * 0x1_0000 + data;
            && Decode(frame) == Fields(1, op, phyad, regad, ta, data)
            && Frame(frame) == frame - ta * 0x1_0000 + 0x2_0000
  {
    var a := 4 + op;
    var b := a * 32 + phyad;
    var c := b * 32 + regad;
    var d := c * 4 + ta;
    var frame := d * 0x1_0000 + data;
    assert a % 4 == op && b % 32 == phyad && c % 32 == regad && d % 4 == ta;
    assert frame / 0x1_0000 == d && frame % 0x1_0000 == data;
    assert frame / 0x4_0000 == c by { assert frame == c * 0x4_0000 + (ta * 0x1_0000 + data); }
    assert frame / 0x80_0000 == b by { assert frame == b * 0x80_0000 + (regad * 0x4_0000 + ta * 0x1_0000 + data); }
    assert frame / 0x1000_0000 == a by {
      assert frame == a * 0x1000_0000 + (phyad * 0x80_0000 + regad * 0x4_0000 + ta * 0x1_0000 + data);
    }
    assert frame / 0x4000_0000 == 1;
  }

  /** The word with its fields in place, whatever its turnaround bits. */
  function Packed(op: nat, phyad: nat, regad: nat, ta: nat, data: nat): nat {
    0x4000_0000 + op * 0x1000_0000 + phyad * 0x80_0000 + regad * 0x4_0000 + ta * 0x1_0000 + data
  }

  lemma FramePacked(op: nat, phyad: nat, regad: nat, ta: nat, data: nat)
    requires op < 4 && phyad < 32 && regad < 32 && ta < 4 && data < 0x1_0000
    ensures Frame(Packed(op, phyad, regad, ta, data)) == Packed(op, phyad, regad, 2, data)
    ensures Decode(Packed(op, phyad, regad, ta, data)) == Fields(1, op, phyad, regad, ta, data)
  {
    DecodePacked(op, phyad, regad, ta, data);
  }

  /** Both drivers put the same frame on the wire: start 01, the operation, the two addresses,
      turnaround 10 and the data. */
  lemma FrameLayout(op: nat, phy: nat, reg: nat, data: nat)
    requires op < 4 && data < 0x1_0000
    ensures Decode(Frame(LinuxCommand(op, phy, reg, data))) == Fields(1, op, phy % 32, reg % 32, 2, data)
    ensures Frame(BareMetalCommand(op, phy, reg, data)) == Frame(LinuxCommand(op, phy, reg, data))
  {
    assert LinuxCommand(op, phy, reg, data) == Packed(op, phy % 32, reg % 32, 0, data);
    assert BareMetalCommand(op, phy, reg, data) == Packed(op, phy % 32, reg % 32, 2, data);
    FramePacked(op, phy % 32, reg % 32, 0, data);
    FramePacked(op, phy % 32, reg % 32, 2, data);
  }

  // ---------------------------------------------------------------- the system

  datatype Master = Idle | Busy(cmd: nat, performed: bool)

  /** PHY registers by PHY and register address; an address nobody answers reads as all ones. */
  type Phy = map<(nat, nat), nat>

  datatype Sys = Sys(mbox: Mailbox, master: Master, phy: Phy)

  /** What the master does at an edge if it is busy: drive the frame through, and become idle. */
  datatype Choice = Choice(perform: bool, finish: bool)

  function Lookup(phy: Phy, at: (nat, nat)): nat {
    if at in phy then phy[at] else 0xFFFF
  }

  function Apply(phy: Phy, cmd: nat): Phy {
    var f := Decode(cmd);
    if f.op == OP_WRITE then phy[(f.phyad, f.regad) := f.data] else phy
  }

  function ReadData(phy: Phy, cmd: nat): Option<nat> {
    var f := Decode(cmd);
    if f.op == OP_READ then Some(Lookup(phy, (f.phyad, f.regad))) else None
  }

  /** The master performs its command at this edge. */
  predicate Performs(s: Sys, c: Choice) {
    s.master.Busy? && !s.master.performed && c.perform
  }

  /** One clock edge, at which software may write `wr` to MDIO_CMD. */
  function Edge(s: Sys, c: Choice, wr: Option<nat>): Sys {
    var rd := if Performs(s, c) then ReadData(s.phy, s.master.cmd) else None;
    var performed := s.master.Busy? && (s.master.performed || c.perform);
    Sys(NextMailbox(s.mbox, wr, s.master.Idle?, rd),
        match s.master
        case Idle => if s.mbox.valid then Busy(s.mbox.cmd, false) else Idle
        case Busy(cmd, _) => if performed && c.finish then Idle else Busy(cmd, performed),
        if Performs(s, c) then Apply(s.phy, s.master.cmd) else s.phy)
  }

  /** Commands accepted and not yet performed, oldest first. */
  function Outstanding(s: Sys): seq<nat> {
    (if s.master.Busy? && !s.master.performed then [s.master.cmd] else [])
    + (if s.mbox.valid then [s.mbox.cmd] else [])
  }

  function ApplyAll(phy: Phy, cmds: seq<nat>): Phy
    decreases cmds
  {
    if cmds == [] then phy else ApplyAll(Apply(phy, cmds[0]), cmds[1..])
  }

  /** The PHY registers as they will be once every accepted command has been performed. */
  function Settled(s: Sys): Phy {
    ApplyAll(s.phy, Outstanding(s))
  }

  /** Nothing is queued or on the wire: what a status word with the busy bit clear says. */
  predicate Quiet(s: Sys) {
    s.master.Idle? && !s.mbox.valid
  }

  function Status(s: Sys): nat {
    StatusWord(s.mbox, s.master.Busy?)
  }

  lemma StatusBits(s: Sys)
    ensures Bit(Status(s), 0) <==> !Quiet(s)
    ensures Bit(Status(s), 1) <==> s.mbox.rdValid
    ensures Bit(Status(s), 2) <==> s.mbox.drop
  {
    assert Pow2(1) == 2 && Pow2(2) == 4;
  }

  lemma ApplyAllAppend(phy: Phy, a: seq<nat>, cmd: nat)
    ensures ApplyAll(phy, a + [cmd]) == Apply(ApplyAll(phy, a), cmd)
    decreases a
  {
    if a == [] {
      assert a + [cmd] == [cmd] && [cmd][1..] == [];
    } else {
      assert (a + [cmd])[1..] == a[1..] + [cmd];
      ApplyAllAppend(Apply(phy, a[0]), a[1..], cmd);
    }
  }

  /** An edge never loses or repeats a command: the settled registers change only by a command accepted
      at that edge, however far earlier commands have got. */
  lemma EdgeSettles(s: Sys, c: Choice, wr: Option<nat>)
    ensures var t := Edge(s, c, wr);
            Settled(t) == if Accepts(s.mbox, wr, s.master.Idle?) then Apply(Settled(s), Frame(wr.value)) else Settled(s)
  {
    var t := Edge(s, c, wr);
    var kept := (if s.master.Busy? && !s.master.performed && !c.perform then [s.master.cmd] else [])
                + (if s.mbox.valid then [s.mbox.cmd] else []);
    if Performs(s, c) {
      assert Outstanding(s)[1..] == kept;
      assert ApplyAll(s.phy, Outstanding(s)) == ApplyAll(t.phy, kept);
    } else {
      assert Outstanding(s) == kept;
    }
    if Accepts(s.mbox, wr, s.master.Idle?) {
      assert Outstanding(t) == kept + [Frame(wr.value)];
      ApplyAllAppend(t.phy, kept, Frame(wr.value));
    } else {
      assert Outstanding(t) == kept;
    }
  }

  // ---------------------------------------------------------------- between two accesses

  /** Any number of edges at which software writes nothing. */
  function Elapse(s: Sys, cs: seq<Choice>): Sys
    decreases cs
  {
    if cs == [] then s else Elapse(Edge(s, cs[0], None), cs[1..])
  }

  /** At most one command is outstanding, none was dropped, and an idle master has no pending data. */
  predicate Orderly(s: Sys) {
    !s.mbox.drop && (s.mbox.valid ==> s.master.Idle?)
  }

  lemma {:induction false} ElapseSettles(s: Sys, cs: seq<Choice>)
    requires Orderly(s)
    ensures Orderly(Elapse(s, cs)) && Settled(Elapse(s, cs)) == Settled(s)
    ensures Quiet(s) ==> Elapse(s, cs) == s
    decreases cs
  {
    if cs != [] {
      EdgeSettles(s, cs[0], None);
      ElapseSettles(Edge(s, cs[0], None), cs[1..]);
    }
  }

  /** A read command for `at` is under way, and its data, once it is there, is what the settled
      registers hold; no other command can supply it. */
  ghost predicate Reading(s: Sys, cmd: nat, v: nat) {
    && ReadData(s.phy, cmd) == Some(v)
    && (if s.mbox.valid then s.mbox.cmd == cmd && s.master.Idle? && !s.mbox.rdValid
        else (s.master == Busy(cmd, false) && !s.mbox.rdValid)
             || ((s.master.Idle? || s.master.performed) && s.mbox.rdValid && s.mbox.rdata == v))
  }

  lemma {:induction false} ElapseReading(s: Sys, cs: seq<Choice>, cmd: nat, v: nat)
    requires Reading(s, cmd, v)
    ensures Reading(Elapse(s, cs), cmd, v)
    decreases cs
  {
    if cs != [] {
      ElapseReading(Edge(s, cs[0], None), cs[1..], cmd, v);
    }
  }

  /** A command written to a quiet system is accepted at once and is the only one outstanding. */
  lemma IssueSettles(s: Sys, c: Choice, word: nat)
    requires Orderly(s) && Quiet(s)
    ensures var t := Edge(s, c, Some(word));
            && Orderly(t) && !Quiet(t) && Outstanding(t) == [Frame(word)]
            && Settled(t) == Apply(Settled(s), Frame(word))
            && (ReadData(s.phy, Frame(word)).Some? ==> Reading(t, Frame(word), ReadData(s.phy, Frame(word)).value))
  {
    EdgeSettles(s, c, Some(word));
  }
}
