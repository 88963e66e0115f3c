/**
 Which frames the stack gets. A book is kept of what the DMA engine reported and of the answers of the kernel,
 without regard to how the driver marks its slots; over every run the driver's deliveries and counters are
 those of the book.
 */
module LinuxRxFrames {
  import opened Ledger
  import opened LinuxRx

  /** A transfer as the DMA engine reported it, with the buffer it wrote to. */
  datatype Transfer = Transfer(slot: nat, skb: nat, ok: bool, residue: nat)

  datatype Book = Book(
    mtu: nat,
    waiting: seq<Transfer>,     // reported and not taken up by a poll, oldest first
    hand: Option<Transfer>,     // taken up last and not processed
    frames: seq<Frame>,         // frames for the stack, in order
    errors: nat,
    dropped: nat)

  const Blank := Book(0, [], None, [], 0, 0)

  /** Ethernet header, one VLAN tag and the check sequence beside the payload. */
  function Room(b: Book): nat {
    b.mtu + 14 + 4 + 4
  }

  /** The transfer succeeded and left a frame, with at least its header, in the buffer. */
  predicate IsFrame(b: Book, x: Transfer) {
    x.ok && x.residue <= Room(b) && Room(b) - x.residue >= 14
  }

  function Processed(b: Book, x: Transfer, gotSkb: bool): Book {
    if !IsFrame(b, x) then b.(hand := None, errors := b.errors + 1)
    else if !gotSkb then b.(hand := None, dropped := b.dropped + 1)
    else b.(hand := None, frames := b.frames + [Frame(x.skb, Room(b) - x.residue)])
  }

  /** What an event adds to the book; of the state it uses only which buffer lies in a slot. */
  function Note(b: Book, s: State, e: Event): Book {
    match e
    case Start(mtu) => b.(mtu := mtu, waiting := [], hand := None)
    case Callback(i, ok, residue) =>
      if i < |s.ring| && s.ring[i].skb.Some?
      then b.(waiting := b.waiting + [Transfer(i, s.ring[i].skb.value, ok, residue)]) else b
    case PollTake => if b.waiting == [] then b else b.(hand := Some(b.waiting[0]), waiting := b.waiting[1..])
    case PollProcess(gotSkb) => if b.hand.None? then b else Processed(b, b.hand.value, gotSkb)
    case Cleanup => b.(waiting := [])
    case _ => b
  }

  function Told(s: State, b: Book, es: seq<Event>): Book
    requires Legal(s, es)
    decreases es
  {
    if es == [] then b else Told(Step(s, es[0]), Note(b, s, es[0]), es[1..])
  }

  function Bytes(frames: seq<Frame>): nat {
    if frames == [] then 0 else Bytes(frames[..|frames| - 1]) + frames[|frames| - 1].len
  }

  lemma BytesMore(frames: seq<Frame>, f: Frame)
    ensures Bytes(frames + [f]) == Bytes(frames) + f.len
  {
    assert (frames + [f])[..|frames|] == frames;
  }

  // ---------------------------------------------------------------- the book and the driver

  /** The slot says of the transfer what the engine reported. */
  predicate Recorded(ring: seq<Slot>, bufLen: nat, x: Transfer) {
    && x.slot < |ring| && ring[x.slot].skb == Some(x.skb)
    && (ring[x.slot].error <==> !(x.ok && x.residue <= bufLen))
    && ring[x.slot].len == if x.ok && x.residue <= bufLen then bufLen - x.residue else 0
  }

  ghost predicate QueueTold(ring: seq<Slot>, bufLen: nat, q: seq<nat>, waiting: seq<Transfer>) {
    && |waiting| == |q|
    && forall k :: 0 <= k < |q| ==> waiting[k].slot == q[k] && Recorded(ring, bufLen, waiting[k])
  }

  predicate HandTold(ring: seq<Slot>, bufLen: nat, napi: Napi, hand: Option<Transfer>) {
    napi.Took? ==> hand.Some? && hand.value.slot == napi.slot && Recorded(ring, bufLen, hand.value)
  }

  predicate StatsTold(stats: Stats, given: seq<Frame>, b: Book) {
    given == b.frames && stats == Stats(|b.frames|, Bytes(b.frames), b.errors, b.dropped)
  }

  ghost predicate BookOk(s: State, b: Book) {
    && (s.ctl != Down ==> s.bufLen == Room(b))
    && QueueTold(s.ring, s.bufLen, Queue(s), b.waiting)
    && HandTold(s.ring, s.bufLen, s.napi, b.hand)
    && StatsTold(s.stats, s.given, b)
  }

  lemma InitialTold()
    ensures BookOk(Initial(), Blank)
  {
  }

  /** Changing a slot that is not waiting leaves what is waiting as it was. */
  lemma QueueKept(ring: seq<Slot>, r: seq<Slot>, bufLen: nat, q: seq<nat>, waiting: seq<Transfer>, i: nat)
    requires QueueTold(ring, bufLen, q, waiting) && i !in q && |r| == |ring|
    requires forall k :: 0 <= k < |ring| && k != i ==> r[k] == ring[k]
    ensures QueueTold(r, bufLen, q, waiting)
  {
    forall k | 0 <= k < |q| ensures Recorded(r, bufLen, waiting[k]) { assert q[k] in q; }
  }

  lemma CallbackTold(s: State, b: Book, i: nat, ok: bool, residue: nat)
    requires Inv(s) && BookOk(s, b) && Enabled(s, Callback(i, ok, residue))
    ensures BookOk(CallbackStep(s, i, ok, residue), Note(b, s, Callback(i, ok, residue)))
  {
    var t, x := CallbackStep(s, i, ok, residue), Transfer(i, s.ring[i].skb.value, ok, residue);
    CallbackQueue(s, i, ok, residue);
    assert Holds(s.ring, i) && i !in Queue(s) && i !in HeldSlot(s.napi);
    QueueKept(s.ring, t.ring, s.bufLen, Queue(s), b.waiting, i);
    assert Recorded(t.ring, s.bufLen, x);
    QueueGrows(t.ring, s.bufLen, Queue(s), b.waiting, x);
  }

  lemma QueueGrows(ring: seq<Slot>, bufLen: nat, q: seq<nat>, waiting: seq<Transfer>, x: Transfer)
    requires QueueTold(ring, bufLen, q, waiting) && Recorded(ring, bufLen, x)
    ensures QueueTold(ring, bufLen, q + [x.slot], waiting + [x])
  {
  }

  lemma TakeTold(s: State, b: Book)
    requires Inv(s) && BookOk(s, b) && s.napi.Loop?
    ensures BookOk(TakeStep(s), Note(b, s, PollTake))
  {
    var q := Queue(s);
    TakeQueue(s);
    assert |q| == |s.rxPending| + |s.rxDone|;
    if q != [] { assert Recorded(s.ring, s.bufLen, b.waiting[0]); }
  }

  /** Processing counts and delivers as the book does. */
  lemma ProcessCounts(s: State, b: Book, gotSkb: bool)
    requires s.napi.Took? && Holds(s.ring, s.napi.slot) && s.bufLen == Room(b)
    requires HandTold(s.ring, s.bufLen, s.napi, b.hand) && StatsTold(s.stats, s.given, b)
    ensures var t, c := ProcessStep(s, gotSkb), Processed(b, b.hand.value, gotSkb);
            StatsTold(t.stats, t.given, c)
  {
    BytesMore(b.frames, Frame(b.hand.value.skb, s.ring[s.napi.slot].len));
  }

  lemma ProcessTold(s: State, b: Book, gotSkb: bool)
    requires Inv(s) && BookOk(s, b) && Enabled(s, PollProcess(gotSkb))
    ensures BookOk(ProcessStep(s, gotSkb), Note(b, s, PollProcess(gotSkb)))
  {
    var t, i := ProcessStep(s, gotSkb), s.napi.slot;
    assert t.rxPending == s.rxPending && t.rxDone == s.rxDone && t.bufLen == s.bufLen && t.ctl == s.ctl && t.napi.InHand?;
    assert s.ctl != Down && i in HeldSlot(s.napi) && i !in Queue(s);
    QueueKept(s.ring, t.ring, s.bufLen, Queue(s), b.waiting, i);
    ProcessCounts(s, b, gotSkb);
  }

  /** A submission touches one slot and nothing the book is about. */
  predicate TouchesSlot(s: State, t: State, i: nat) {
    && |t.ring| == |s.ring| && (forall k :: 0 <= k < |s.ring| && k != i ==> t.ring[k] == s.ring[k])
    && t.rxPending == s.rxPending && t.rxDone == s.rxDone && t.bufLen == s.bufLen
    && t.stats == s.stats && t.given == s.given
  }

  lemma SlotTold(s: State, t: State, b: Book, i: nat)
    requires BookOk(s, b) && TouchesSlot(s, t, i) && i !in Queue(s)
    requires s.ctl == Down ==> t.ctl == Down
    requires t.napi.Took? ==> t.napi == s.napi && t.napi.slot != i
    ensures BookOk(t, b)
  {
    QueueKept(s.ring, t.ring, s.bufLen, Queue(s), b.waiting, i);
  }

  lemma RearmTouches(s: State, o: SubmitOutcome)
    requires s.napi.InHand? && s.napi.slot < |s.ring|
    ensures TouchesSlot(s, RearmStep(s, o), s.napi.slot)
  {
  }

  lemma FillTouches(s: State, gotSkb: bool, o: SubmitOutcome)
    requires s.ctl.Filling? && s.ctl.next < |s.ring|
    ensures TouchesSlot(s, FillStep(s, gotSkb, o), s.ctl.next) && FillStep(s, gotSkb, o).napi == s.napi
    ensures FillStep(s, gotSkb, o).ctl != Down
  {
  }

  lemma RearmTold(s: State, b: Book, o: SubmitOutcome)
    requires Inv(s) && BookOk(s, b) && Enabled(s, PollRearm(o))
    ensures BookOk(RearmStep(s, o), b)
  {
    RearmTouches(s, o);
    assert s.napi.slot in HeldSlot(s.napi) && s.napi.slot !in Queue(s);
    SlotTold(s, RearmStep(s, o), b, s.napi.slot);
  }

  lemma FillTold(s: State, b: Book, gotSkb: bool, o: SubmitOutcome)
    requires Inv(s) && BookOk(s, b) && Enabled(s, Fill(gotSkb, o))
    ensures BookOk(FillStep(s, gotSkb, o), b)
  {
    FillTouches(s, gotSkb, o);
    assert s.ctl.next !in Queue(s) && s.ctl.next !in HeldSlot(s.napi);
    SlotTold(s, FillStep(s, gotSkb, o), b, s.ctl.next);
  }

  lemma NoteKeeps(s: State, b: Book, e: Event)
    requires Inv(s) && BookOk(s, b) && Enabled(s, e)
    ensures BookOk(Step(s, e), Note(b, s, e))
  {
    match e
    case Callback(i, ok, residue) => CallbackTold(s, b, i, ok, residue);
    case PollTake => TakeTold(s, b);
    case PollProcess(gotSkb) => ProcessTold(s, b, gotSkb);
    case PollRearm(o) => RearmTold(s, b, o);
    case Fill(gotSkb, o) => FillTold(s, b, gotSkb, o);
    case _ =>
  }

  lemma {:induction false} BookKept(s: State, b: Book, es: seq<Event>)
    requires Inv(s) && BookOk(s, b) && Legal(s, es)
    ensures Inv(Run(s, es)) && BookOk(Run(s, es), Told(s, b, es))
    decreases es
  {
    if es != [] {
      NoteKeeps(s, b, es[0]);
      StepKeeps(s, es[0]);
      BookKept(Step(s, es[0]), Note(b, s, es[0]), es[1..]);
    }
  }

  /** Over every run, in every interleaving, the stack has been given exactly the frames of the book, in the
      order in which the transfers completed and each with its length; and the counters are their number, their
      bytes, the transfers that left no frame, and the frames for which there was no new buffer. */
  lemma EveryRunDeliversItsFrames(es: seq<Event>)
    requires Legal(Initial(), es)
    ensures var s, b := Run(Initial(), es), Told(Initial(), Blank, es);
            s.given == b.frames && s.stats == Stats(|b.frames|, Bytes(b.frames), b.errors, b.dropped)
  {
    InitialOk();
    InitialTold();
    BookKept(Initial(), Blank, es);
  }

  // ---------------------------------------------------------------- one transfer

  lemma {:induction false} RunMore(s: State, b: Book, es: seq<Event>, e: Event)
    requires Legal(s, es + [e])
    ensures Legal(s, es) && Enabled(Run(s, es), e) && Run(s, es + [e]) == Step(Run(s, es), e)
    ensures Told(s, b, es + [e]) == Note(Told(s, b, es), Run(s, es), e)
    decreases es
  {
    if es == [] {
      assert es + [e] == [e] && [e][1..] == [];
    } else {
      assert (es + [e])[1..] == es[1..] + [e];
      RunMore(Step(s, es[0]), Note(b, s, es[0]), es[1..], e);
    }
  }

  /** What becomes of the transfer in hand. A frame for whose slot there is a new buffer is delivered, in its
      own buffer, and counted with its bytes. Anything else delivers nothing and adds one error or one drop. */
  predicate Outcome(s: State, t: State, mtu: nat, x: Transfer, gotSkb: bool) {
    var room := mtu + 22;
    if x.ok && x.residue <= room && room - x.residue >= 14 then
      if gotSkb then
        && t.led.fate == s.led.fate[x.skb := Delivered] && t.given == s.given + [Frame(x.skb, room - x.residue)]
        && t.stats == s.stats.(packets := s.stats.packets + 1, bytes := s.stats.bytes + (room - x.residue))
      else
        t.led.fate == s.led.fate && t.given == s.given && t.stats == s.stats.(dropped := s.stats.dropped + 1)
    else
      t.led.fate == s.led.fate && t.given == s.given && t.stats == s.stats.(errors := s.stats.errors + 1)
  }

  /** Over every run a transfer that the poll routine has taken up meets its outcome when it is processed. */
  lemma EveryTransferMeetsItsOutcome(es: seq<Event>, gotSkb: bool)
    requires Legal(Initial(), es + [PollProcess(gotSkb)])
    ensures Legal(Initial(), es) && Told(Initial(), Blank, es).hand.Some?
    ensures var b := Told(Initial(), Blank, es);
            Outcome(Run(Initial(), es), Run(Initial(), es + [PollProcess(gotSkb)]), b.mtu, b.hand.value, gotSkb)
  {
    RunMore(Initial(), Blank, es, PollProcess(gotSkb));
    InitialOk();
    InitialTold();
    BookKept(Initial(), Blank, es);
    ProcessOutcome(Run(Initial(), es), Told(Initial(), Blank, es), gotSkb);
  }

  lemma ProcessOutcome(s: State, b: Book, gotSkb: bool)
    requires Inv(s) && BookOk(s, b) && Enabled(s, PollProcess(gotSkb))
    ensures b.hand.Some? && Outcome(s, Step(s, PollProcess(gotSkb)), b.mtu, b.hand.value, gotSkb)
  {
    var x := b.hand.value;
    ProcessLedger(s.ring, s.led, s.bufLen, s.napi.slot);
    SlotEmptied(s.ring, s.led, s.bufLen, {}, s.napi.slot);
    var unmapped := Unmap(s.led, s.ring[s.napi.slot].dma, s.bufLen);
    assert x.skb in unmapped.live && x.skb !in unmapped.maps && unmapped.fate == s.led.fate;
    assert Alloc(unmapped).fate == s.led.fate && x.skb in Alloc(unmapped).live;
  }

  /** A transfer taken up is the oldest reported one. */
  lemma TakesTheOldest(es: seq<Event>)
    requires Legal(Initial(), es + [PollTake])
    ensures Legal(Initial(), es)
    ensures var waiting := Told(Initial(), Blank, es).waiting;
            if waiting == [] then Run(Initial(), es + [PollTake]).napi == Finishing
            else Told(Initial(), Blank, es + [PollTake]).hand == Some(waiting[0])
                 && Run(Initial(), es + [PollTake]).napi.Took?
                 && Run(Initial(), es + [PollTake]).napi.slot == waiting[0].slot
  {
    RunMore(Initial(), Blank, es, PollTake);
    InitialOk();
    InitialTold();
    BookKept(Initial(), Blank, es);
    TakeQueue(Run(Initial(), es));
  }
}
