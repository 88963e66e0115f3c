/**
 What is sent and what is counted. A book is kept of the lengths the stack offered and of how the engine and the
 kernel answered, without regard to what the driver writes in its slots; over every run the driver's
 descriptors, mappings and counters are those of the book.
 */
module LinuxTxFrames {
  import opened Ledger
  import opened LinuxTx

  datatype Book = Book(
    offered: Option<Frame>,   // being transmitted
    handed: seq<Frame>,       // queued, ever
    flight: seq<Frame>,       // queued and not completed, oldest first
    sent: seq<Frame>,         // completed without error
    failed: seq<Frame>,       // completed with one
    dropped: nat)

  const Blank := Book(None, [], [], [], [], 0)

  /** What an event adds to the book; of the state it uses only the number of the next buffer. */
  function Note(b: Book, s: State, e: Event): Book {
    match e
    case XmitCheck(len) => b.(offered := Some(Frame(s.led.next, len)))
    case XmitPrepare(o) => if o == Ready then b else b.(offered := None, dropped := b.dropped + 1)
    case XmitSubmit(ok) =>
      if b.offered.None? then b
      else if !ok then b.(offered := None, dropped := b.dropped + 1)
      else b.(offered := None, handed := b.handed + [b.offered.value], flight := b.flight + [b.offered.value])
    case Complete(ok) =>
      if b.flight == [] then b
      else if ok then b.(flight := b.flight[1..], sent := b.sent + [b.flight[0]])
      else b.(flight := b.flight[1..], failed := b.failed + [b.flight[0]])
    case Stop => b.(flight := [])
    case _ => b
  }

  function Told(s: State, b: Book, es: seq<Event>): Book
    requires Legal(s, es)
    decreases es
  {
    if es == [] then b else Told(Step(s, es[0]), Note(b, s, es[0]), es[1..])
  }

  function Bytes(frames: seq<Frame>): nat {
    if frames == [] then 0 else Bytes(frames[..|frames| - 1]) + frames[|frames| - 1].len
  }

  lemma BytesMore(frames: seq<Frame>, f: Frame)
    ensures Bytes(frames + [f]) == Bytes(frames) + f.len
  {
    assert (frames + [f])[..|frames|] == frames;
  }

  // ---------------------------------------------------------------- the book and the driver

  predicate OfferTold(x: Xmit, offered: Option<Frame>) {
    if x == NoXmit then offered.None? else offered == Some(Frame(x.skb, x.len))
  }

  /** The slots from tail on hold the frames in flight with their lengths. */
  ghost predicate FlightTold(ring: seq<Slot>, tail: nat, engine: seq<nat>, flight: seq<Frame>) {
    && |flight| == |engine| <= CAPACITY && |ring| == RING
    && forall k: nat :: k < |engine| ==> flight[k].skb == engine[k] && ring[At(tail, k)].len == flight[k].len
  }

  predicate StatsTold(stats: Stats, b: Book) {
    stats == Stats(|b.sent|, Bytes(b.sent), |b.failed|, b.dropped)
  }

  ghost predicate BookOk(s: State, b: Book) {
    && OfferTold(s.xmit, b.offered) && FlightTold(s.ring, s.tail, s.engine, b.flight)
    && s.handed == b.handed && StatsTold(s.stats, b)
  }

  lemma SubmitTold(s: State, b: Book, ok: bool)
    requires Inv(s) && BookOk(s, b) && Enabled(s, XmitSubmit(ok))
    ensures BookOk(SubmitStep(s, ok), Note(b, s, XmitSubmit(ok)))
  {
    var t := SubmitStep(s, ok);
    AtHead(s.head, s.tail);
    assert |s.engine| < CAPACITY;
    forall k: nat | k < |s.engine| ensures t.ring[At(s.tail, k)] == s.ring[At(s.tail, k)] {
      AtDistinct(s.tail, k, |s.engine|);
    }
  }

  lemma CompleteCounts(s: State, b: Book, ok: bool)
    requires StatsTold(s.stats, b) && s.tail != s.head && |s.ring| == RING && b.flight != []
    requires s.ring[s.tail % RING].len == b.flight[0].len
    ensures StatsTold(CompleteStep(s, ok).stats, Note(b, s, Complete(ok)))
  {
    BytesMore(b.sent, b.flight[0]);
  }

  lemma CompleteTold(s: State, b: Book, ok: bool)
    requires Inv(s) && BookOk(s, b) && Enabled(s, Complete(ok))
    ensures BookOk(CompleteStep(s, ok), Note(b, s, Complete(ok)))
  {
    if s.engine == [] {
      CompleteKeeps(s, ok);
    } else {
      var t := CompleteStep(s, ok);
      CompleteFrame(s, ok);
      assert At(s.tail, 0) == s.tail % RING && s.tail != s.head;
      CompleteCounts(s, b, ok);
      forall k: nat | k < |s.engine| - 1 ensures t.ring[At(t.tail, k)].len == b.flight[k + 1].len {
        LengthsShift(s.ring, s.tail, t.ring[s.tail % RING], k);
      }
    }
  }

  lemma StopTold(s: State, b: Book)
    requires Inv(s) && BookOk(s, b) && Enabled(s, Stop)
    ensures BookOk(StopStep(s), Note(b, s, Stop))
  {
    FlushKeeps(s.ring, s.led, s.head, s.tail, s.engine);
  }

  lemma NoteKeeps(s: State, b: Book, e: Event)
    requires Inv(s) && BookOk(s, b) && Enabled(s, e)
    ensures BookOk(Step(s, e), Note(b, s, e))
  {
    match e
    case XmitCheck(len) => CheckKeeps(s, len);
    case XmitPrepare(_) =>
    case XmitSubmit(ok) => SubmitTold(s, b, ok);
    case Complete(ok) => CompleteTold(s, b, ok);
    case Stop => StopTold(s, b);
    case _ =>
  }

  lemma {:induction false} BookKept(s: State, b: Book, es: seq<Event>)
    requires Inv(s) && BookOk(s, b) && Legal(s, es)
    ensures Inv(Run(s, es)) && BookOk(Run(s, es), Told(s, b, es))
    decreases es
  {
    if es != [] {
      NoteKeeps(s, b, es[0]);
      StepKeeps(s, es[0]);
      BookKept(Step(s, es[0]), Note(b, s, es[0]), es[1..]);
    }
  }

  /** Over every run the engine has been given exactly the frames that were queued, in order, each with the length
      the stack offered; those in flight are mapped with it; and the counters are the number and the bytes of
      those whose completion was good, the number of the others, and the frames that never got that far. */
  lemma EveryRunSendsWhatIsOffered(es: seq<Event>)
    requires Legal(Initial(), es)
    ensures var s, b := Run(Initial(), es), Told(Initial(), Blank, es);
            && s.handed == b.handed
            && s.stats == Stats(|b.sent|, Bytes(b.sent), |b.failed|, b.dropped)
            && (forall f <- b.flight :: f.skb in s.led.maps && s.led.maps[f.skb] == f.len)
  {
    InitialOk();
    BookKept(Initial(), Blank, es);
    var s, b := Run(Initial(), es), Told(Initial(), Blank, es);
    forall f <- b.flight ensures f.skb in s.led.maps && s.led.maps[f.skb] == f.len {
      var k: nat :| k < |b.flight| && b.flight[k] == f;
      assert s.engine[k] in Members(s.engine);
    }
  }
}
