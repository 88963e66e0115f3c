/**
 What becomes of each received frame. A book is kept of what the hardware completed and of how the stack
 answered, port by port; over every run the queues, the counters and the pbufs with the stack are those of the
 book.
 */
module MacifRxFrames {
  import opened Ledger
  import opened MacifRx

  datatype Frame = Frame(pbuf: nat, len: nat)

  datatype Line = Line(
    arrivals: seq<Frame>,   // good frames there was room for, in order
    taken: nat,             // how many of them the main loop has taken up
    counted: nat,           // and counted
    errors: nat,            // completions with an error, or that are no whole frame
    drops: nat,             // good frames there was no room for
    refused: nat)           // frames the stack did not take

  datatype Book = Book(lines: seq<Line>, hand: Option<(nat, Frame)>, stack: set<nat>, offered: seq<Offer>)

  const Blank := Book(seq(N_PORTS, _ => Line([], 0, 0, 0, 0, 0)), None, {}, [])

  /** The next completed descriptor, over pbuf `b`. */
  function Arrive(l: Line, b: nat, c: Completion): Line {
    if c.error || !(c.sof && c.eof) || !(1 <= c.len <= 1536) then l.(errors := l.errors + 1)
    else if |l.arrivals| - l.taken >= 127 then l.(drops := l.drops + 1)
    else l.(arrivals := l.arrivals + [Frame(b, c.len)])
  }

  function ArriveAll(l: Line, armed: seq<nat>, done: seq<Completion>): Line
    requires |done| <= |armed|
    decreases done
  {
    if done == [] then l else ArriveAll(Arrive(l, armed[0], done[0]), armed[1..], done[1..])
  }

  function Answered(b: Book, p: nat, f: Frame, ok: bool): Book
    requires p < |b.lines|
  {
    var c := b.(hand := None, offered := b.offered + [Offer(p, f.pbuf, f.len, ok)]);
    if ok then c.(stack := b.stack + {f.pbuf})
    else c.(lines := b.lines[p := b.lines[p].(refused := b.lines[p].refused + 1)])
  }

  /** What an event adds to the book; of the state it uses only which pbufs are under the descriptors. */
  function Note(b: Book, s: State, e: Event): Book
    requires Enabled(s, e) && |b.lines| == N_PORTS
  {
    match e
    case Isr(p, done, _) => b.(lines := b.lines[p := ArriveAll(b.lines[p], s.ports[p].armed, done)])
    case IsrError(_, _) => b
    case InputRead(p) =>
      var l := b.lines[p];
      if l.taken < |l.arrivals| then b.(hand := Some((p, l.arrivals[l.taken]))) else b
    case InputAdvance =>
      if b.hand.None? || b.hand.value.0 >= N_PORTS then b
      else b.(lines := b.lines[b.hand.value.0 := b.lines[b.hand.value.0].(taken := b.lines[b.hand.value.0].taken + 1)])
    case InputCount =>
      if b.hand.None? || b.hand.value.0 >= N_PORTS then b
      else b.(lines := b.lines[b.hand.value.0 := b.lines[b.hand.value.0].(counted := b.lines[b.hand.value.0].counted + 1)])
    case InputDeliver(ok) =>
      if b.hand.None? || b.hand.value.0 >= N_PORTS then b else Answered(b, b.hand.value.0, b.hand.value.1, ok)
    case StackAlloc(x) => b.(stack := b.stack + {x})
    case StackFree(x) => b.(stack := b.stack - {x})
  }

  lemma NoteShaped(b: Book, s: State, e: Event)
    requires Enabled(s, e) && |b.lines| == N_PORTS
    ensures |Note(b, s, e).lines| == N_PORTS
  {
  }

  function Told(s: State, b: Book, es: seq<Event>): (c: Book)
    requires Legal(s, es) && |b.lines| == N_PORTS
    ensures |c.lines| == N_PORTS
    decreases es
  {
    if es == [] then b
    else
      NoteShaped(b, s, es[0]);
      Told(Step(s, es[0]), Note(b, s, es[0]), es[1..])
  }

  // ---------------------------------------------------------------- the book and the driver

  predicate EnteredTold(t: Port, l: Line) {
    && |t.entered| == |l.arrivals| && l.taken == |t.left| <= |l.arrivals|
    && forall k :: 0 <= k < |l.arrivals| ==> l.arrivals[k].pbuf == t.entered[k]
  }

  predicate LengthsTold(len: seq<nat>, l: Line) {
    forall k :: l.taken <= k < |l.arrivals| ==>
      l.arrivals[k].pbuf < |len| && len[l.arrivals[k].pbuf] == l.arrivals[k].len
  }

  predicate CountersTold(t: Port, l: Line) {
    && t.bdErr == l.errors % U32 && t.qDrop == l.drops % U32
    && t.frames == l.counted % U32 && t.inputErr == l.refused % U32
  }

  ghost predicate LineOk(len: seq<nat>, t: Port, l: Line) {
    EnteredTold(t, l) && LengthsTold(len, l) && CountersTold(t, l)
  }

  predicate HandTold(len: seq<nat>, m: Main, hand: Option<(nat, Frame)>) {
    if m == Out then hand.None?
    else m.pbuf < |len| && hand == Some((m.port, Frame(m.pbuf, len[m.pbuf])))
  }

  ghost predicate StackTold(place: seq<Place>, stack: set<nat>) {
    forall x: nat :: x in stack <==> x < |place| && place[x] == Stack
  }

  ghost predicate BookOk(s: State, b: Book)
    requires Shaped(s) && |b.lines| == N_PORTS
  {
    && (forall p :: 0 <= p < N_PORTS ==> LineOk(s.len, s.ports[p], b.lines[p]))
    && HandTold(s.len, s.main, b.hand) && StackTold(s.place, b.stack) && s.offered == b.offered
  }

  lemma InitialTold()
    ensures BookOk(Initial(), Blank)
  {
  }

  /** What is noted as waiting is waiting, in the queue of its port. */
  lemma WaitingIsQueued(s: State, q: nat, l: Line, k: nat)
    requires Inv(s) && q < N_PORTS && EnteredTold(s.ports[q], l) && l.taken <= k < |l.arrivals|
    ensures l.arrivals[k].pbuf < POOL && s.place[l.arrivals[k].pbuf] == Queued(q)
    ensures |Waiting(s.ports[q])| == |l.arrivals| - l.taken
  {
    var t := s.ports[q];
    assert PortOk(s.place, q, t);
    assert t.entered[k] == Waiting(t)[k - l.taken];
    assert Waiting(t)[k - l.taken] in Waiting(t);
  }

  lemma WaitingCount(s: State, q: nat, l: Line)
    requires Inv(s) && q < N_PORTS && EnteredTold(s.ports[q], l)
    ensures |Waiting(s.ports[q])| == |l.arrivals| - l.taken
  {
    assert PortOk(s.place, q, s.ports[q]);
  }

  /** Writing the length of a pbuf that is not queued leaves those of the waiting frames. */
  lemma LengthsKept(s: State, q: nat, l: Line, x: nat, n: nat)
    requires Inv(s) && q < N_PORTS && LineOk(s.len, s.ports[q], l) && x < POOL && !s.place[x].Queued?
    ensures LengthsTold(s.len[x := n], l)
  {
    forall k | l.taken <= k < |l.arrivals|
      ensures l.arrivals[k].pbuf < |s.len| && s.len[x := n][l.arrivals[k].pbuf] == l.arrivals[k].len
    {
      WaitingIsQueued(s, q, l, k);
    }
  }

  lemma HandKeptTold(s: State, b: Book, x: nat, n: nat)
    requires Inv(s) && |b.lines| == N_PORTS && BookOk(s, b) && x < POOL && s.place[x].Armed?
    ensures HandTold(s.len[x := n], s.main, b.hand)
  {
    if s.main.Read? {
      var t := s.ports[s.main.port];
      assert PortOk(s.place, s.main.port, t);
      assert Waiting(t)[0] in Waiting(t);
    }
  }

  lemma StackKept(place: seq<Place>, stack: set<nat>, x: nat, to: Place)
    requires StackTold(place, stack) && x < |place| && place[x] != Stack && to != Stack
    ensures StackTold(place[x := to], stack)
  {
  }

  // ---------------------------------------------------------------- the interrupt

  /** One completion at its own port. */
  lemma ArriveTold(s: State, p: nat, l: Line, c: Completion)
    requires Inv(s) && p < N_PORTS && LineOk(s.len, s.ports[p], l) && s.ports[p].armed != []
    ensures s.ports[p].armed[0] < POOL
    ensures var r := ReclaimOne(s, p, c); LineOk(r.len, r.ports[p], Arrive(l, s.ports[p].armed[0], c))
  {
    var t := s.ports[p];
    var x := t.armed[0];
    assert PortOk(s.place, p, t) && x in t.armed;
    LengthsKept(s, p, l, x, c.len);
    WaitingCount(s, p, l);
    QueueFull(t.head, t.tail);
    Incremented(l.errors);
    Incremented(l.drops);
  }

  lemma Incremented(n: nat)
    ensures (n % U32 + 1) % U32 == (n + 1) % U32
  {
    Shifted(n, 1);
  }

  /** And at the others, whose frames it does not touch. */
  lemma OthersTold(s: State, b: Book, p: nat, c: Completion, q: nat)
    requires Inv(s) && |b.lines| == N_PORTS && BookOk(s, b) && p < N_PORTS && s.ports[p].armed != []
    requires q < N_PORTS && q != p && s.ports[p].armed[0] < POOL && s.place[s.ports[p].armed[0]] == Armed(p)
    ensures var r := ReclaimOne(s, p, c); LineOk(r.len, r.ports[q], b.lines[q])
  {
    LengthsKept(s, q, b.lines[q], s.ports[p].armed[0], c.len);
  }

  lemma FrontIsArmed(s: State, p: nat)
    requires Inv(s) && p < N_PORTS && s.ports[p].armed != []
    ensures s.ports[p].armed[0] < POOL && s.place[s.ports[p].armed[0]] == Armed(p)
  {
    assert PortOk(s.place, p, s.ports[p]) && s.ports[p].armed[0] in s.ports[p].armed;
  }

  lemma ReclaimTold(s: State, b: Book, p: nat, c: Completion)
    requires Inv(s) && |b.lines| == N_PORTS && BookOk(s, b) && p < N_PORTS && s.ports[p].armed != []
    ensures BookOk(ReclaimOne(s, p, c), b.(lines := b.lines[p := Arrive(b.lines[p], s.ports[p].armed[0], c)]))
  {
    FrontIsArmed(s, p);
    ArriveTold(s, p, b.lines[p], c);
    forall q | 0 <= q < N_PORTS && q != p ensures LineOk(ReclaimOne(s, p, c).len, ReclaimOne(s, p, c).ports[q], b.lines[q]) {
      OthersTold(s, b, p, c, q);
    }
    HandKeptTold(s, b, s.ports[p].armed[0], c.len);
    StackKept(s.place, b.stack, s.ports[p].armed[0], Destination(s.ports[p], p, Bad(c)));
  }

  lemma LinesTwice(lines: seq<Line>, p: nat, l: Line, m: Line)
    requires p < |lines|
    ensures lines[p := l][p := m] == lines[p := m] && lines[p := l][p] == l && lines[p := lines[p]] == lines
  {
  }

  lemma {:induction false} ReclaimAllTold(s: State, b: Book, p: nat, done: seq<Completion>)
    requires Inv(s) && |b.lines| == N_PORTS && BookOk(s, b) && p < N_PORTS && |done| <= |s.ports[p].armed|
    ensures Inv(ReclaimAll(s, p, done))
    ensures BookOk(ReclaimAll(s, p, done), b.(lines := b.lines[p := ArriveAll(b.lines[p], s.ports[p].armed, done)]))
    decreases done
  {
    LinesTwice(b.lines, p, b.lines[p], b.lines[p]);
    if done != [] {
      var l := Arrive(b.lines[p], s.ports[p].armed[0], done[0]);
      ReclaimTold(s, b, p, done[0]);
      ReclaimOneKeeps(s, p, done[0]);
      LinesTwice(b.lines, p, l, ArriveAll(l, s.ports[p].armed[1..], done[1..]));
      ReclaimAllTold(ReclaimOne(s, p, done[0]), b.(lines := b.lines[p := l]), p, done[1..]);
    }
  }

  /** Arming a free pbuf is no event of the book. */
  lemma ArmTold(s: State, b: Book, p: nat, x: nat)
    requires Inv(s) && |b.lines| == N_PORTS && BookOk(s, b) && p < N_PORTS && x < POOL && s.place[x] == Free
    ensures BookOk(Arm(s, p, x), b)
  {
    StackKept(s.place, b.stack, x, Armed(p));
  }

  lemma {:induction false} RefillTold(s: State, b: Book, p: nat, answers: seq<Answer>)
    requires Inv(s) && |b.lines| == N_PORTS && BookOk(s, b) && p < N_PORTS
    ensures BookOk(Refill(s, p, answers), b)
    decreases N_RX_BD - |s.ports[p].armed|
  {
    var t := s.ports[p];
    if |t.armed| < N_RX_BD {
      var a := First(answers);
      var x := MacifRx.Alloc(s.place, a.hint);
      if x.Some? && a.fault == NoFault {
        ArmKeeps(s, p, x.value);
        ArmTold(s, b, p, x.value);
        RefillTold(Arm(s, p, x.value), b, p, Rest(answers));
      }
    }
  }

  lemma ErrorTold(s: State, b: Book, p: nat, answers: seq<Answer>)
    requires Inv(s) && |b.lines| == N_PORTS && BookOk(s, b) && p < N_PORTS
    ensures BookOk(ErrorStep(s, p, answers), b)
  {
    CountedPort(s, p, Erred(s.ports[p]));
    RefillTold(WithPort(s, p, Erred(s.ports[p])), b, p, answers);
  }

  // ---------------------------------------------------------------- the main loop

  lemma ReadTold(s: State, b: Book, p: nat)
    requires Inv(s) && |b.lines| == N_PORTS && BookOk(s, b) && Enabled(s, InputRead(p))
    ensures BookOk(InputReadStep(s, p), Note(b, s, InputRead(p)))
  {
    var t, l := s.ports[p], b.lines[p];
    assert PortOk(s.place, p, t);
    Popped(t.rxQ, t.head, t.tail);
    WaitingCount(s, p, l);
    assert t.entered[l.taken] == Waiting(t)[0];
    WaitingIsQueued(s, p, l, l.taken);
  }

  lemma AdvanceTold(s: State, b: Book)
    requires Inv(s) && |b.lines| == N_PORTS && BookOk(s, b) && Enabled(s, InputAdvance)
    ensures BookOk(InputAdvanceStep(s), Note(b, s, InputAdvance))
  {
    var Read(p, x) := s.main;
    var t := s.ports[p];
    assert PortOk(s.place, p, t);
    assert Waiting(t)[0] in Waiting(t);
    WaitingCount(s, p, b.lines[p]);
    StackKept(s.place, b.stack, x, Hand);
  }

  lemma CountTold(s: State, b: Book)
    requires Inv(s) && |b.lines| == N_PORTS && BookOk(s, b) && Enabled(s, InputCount)
    ensures BookOk(InputCountStep(s), Note(b, s, InputCount))
  {
    Incremented(b.lines[s.main.port].counted);
  }

  lemma DeliverTold(s: State, b: Book, ok: bool)
    requires Inv(s) && |b.lines| == N_PORTS && BookOk(s, b) && Enabled(s, InputDeliver(ok))
    ensures BookOk(InputDeliverStep(s, ok), Note(b, s, InputDeliver(ok)))
  {
    assert HoldsOne(s.main) && s.place[s.main.pbuf] == Hand;
    Incremented(b.lines[s.main.port].refused);
  }

  lemma NoteKeeps(s: State, b: Book, e: Event)
    requires Inv(s) && |b.lines| == N_PORTS && BookOk(s, b) && Enabled(s, e)
    ensures |Note(b, s, e).lines| == N_PORTS && BookOk(Step(s, e), Note(b, s, e))
  {
    match e
    case Isr(p, done, answers) =>
      ReclaimAllTold(s, b, p, done);
      RefillTold(ReclaimAll(s, p, done), Note(b, s, e), p, answers);
    case IsrError(p, answers) => ErrorTold(s, b, p, answers);
    case InputRead(p) => ReadTold(s, b, p);
    case InputAdvance => AdvanceTold(s, b);
    case InputCount => CountTold(s, b);
    case InputDeliver(ok) => DeliverTold(s, b, ok);
    case StackAlloc(_) =>
    case StackFree(_) =>
  }

  lemma {:induction false} BookKept(s: State, b: Book, es: seq<Event>)
    requires Inv(s) && |b.lines| == N_PORTS && BookOk(s, b) && Legal(s, es)
    ensures Inv(Run(s, es)) && BookOk(Run(s, es), Told(s, b, es))
    decreases es
  {
    if es != [] {
      NoteKeeps(s, b, es[0]);
      StepKeeps(s, es[0]);
      BookKept(Step(s, es[0]), Note(b, s, es[0]), es[1..]);
    }
  }

  // ---------------------------------------------------------------- every run

  /** Over every run the stack has been offered exactly the frames of the book, port by port in the order in which
      the hardware completed them, each in its own pbuf and with its length. */
  lemma EveryRunOffersItsFrames(es: seq<Event>)
    requires Legal(Initial(), es)
    ensures Run(Initial(), es).offered == Told(Initial(), Blank, es).offered
  {
    InitialOk();
    InitialTold();
    BookKept(Initial(), Blank, es);
  }

  /** The pbufs with the stack are exactly those it allocated or took and has not freed. */
  lemma EveryRunKnowsTheStack(es: seq<Event>, x: nat)
    requires Legal(Initial(), es) && x < POOL
    ensures Run(Initial(), es).place[x] == Stack <==> x in Told(Initial(), Blank, es).stack
  {
    InitialOk();
    InitialTold();
    BookKept(Initial(), Blank, es);
  }

  /** The counters of a port are those of the book, in 32 bits. */
  lemma EveryRunCounts(es: seq<Event>, p: nat)
    requires Legal(Initial(), es) && p < N_PORTS
    ensures var t, l := Run(Initial(), es).ports[p], Told(Initial(), Blank, es).lines[p];
            && t.bdErr == l.errors % 0x1_0000_0000 && t.qDrop == l.drops % 0x1_0000_0000
            && t.frames == l.counted % 0x1_0000_0000 && t.inputErr == l.refused % 0x1_0000_0000
            && |t.entered| == |l.arrivals| && |t.left| == l.taken
  {
    InitialOk();
    InitialTold();
    BookKept(Initial(), Blank, es);
  }

  lemma {:induction false} RunMore(s: State, b: Book, es: seq<Event>, e: Event)
    requires Shaped(s) && |b.lines| == N_PORTS && Legal(s, es + [e])
    ensures Legal(s, es) && Enabled(Run(s, es), e) && Run(s, es + [e]) == Step(Run(s, es), e)
    ensures Told(s, b, es + [e]) == Note(Told(s, b, es), Run(s, es), e)
    decreases es
  {
    if es == [] {
      assert es + [e] == [e] && [e][1..] == [];
    } else {
      assert (es + [e])[1..] == es[1..] + [e];
      NoteShaped(b, s, es[0]);
      RunMore(Step(s, es[0]), Note(b, s, es[0]), es[1..], e);
    }
  }

  /** A frame the stack takes is the stack's, one it refuses is free and counted; nothing else moves. */
  lemma EveryAnswerIsHonoured(es: seq<Event>, ok: bool)
    requires Legal(Initial(), es + [InputDeliver(ok)])
    ensures Legal(Initial(), es)
    ensures var s, t, b := Run(Initial(), es), Run(Initial(), es + [InputDeliver(ok)]), Told(Initial(), Blank, es);
            && b.hand.Some? && b.hand.value.0 < N_PORTS && b.hand.value.1.pbuf < POOL
            && var (p, f) := b.hand.value;
               && t.place == s.place[f.pbuf := if ok then Stack else Free]
               && t.offered == s.offered + [Offer(p, f.pbuf, f.len, ok)]
               && t.ports[p].inputErr == if ok then s.ports[p].inputErr else (s.ports[p].inputErr + 1) % U32
  {
    RunMore(Initial(), Blank, es, InputDeliver(ok));
    InitialOk();
    InitialTold();
    BookKept(Initial(), Blank, es);
  }
}
