/**
 Yocto freshness over whole runs: edits at any time, also while a build is running, and builds that
 succeed, fail or are cut short. A build stamps the inputs as they were when it began but reads them in
 place, so its images may hold something else. The question is whether images that are reported up to date
 are ones built from the inputs as they are now.
 */
module YoctoRuns {
  import opened Ledger
  import opened Yocto

  type Inputs = map<string, string>

  datatype Phase =
    | Idle
    | Building(snapshot: Inputs, current: bool, touched: set<string>)   // bitbake is running
    | Packed(snapshot: Inputs)     // the images are in place, their stamp is not

  datatype State = State(
    inputs: Inputs,              // what the repository holds now
    images: Option<Inputs>,      // the inputs the finished images were built from
    stamp: Option<Inputs>,       // what the stamp beside them says
    phase: Phase)                // how far the build in progress is, if any

  datatype Event =
    | Edit(key: string, digest: Option<string>)
    | CleanImages                      // images and stamp are removed
    | LoseImages                       // some image is removed, the stamp is not
    | Skip(written: bool)              // reported up to date; a stamp adopted meanwhile may fail to be written
    | Begin(builtXsa: string, current: bool)   // a build starts, making the XSA first if there is none
    | Packaged(seen: Inputs)           // it read this wherever it need not have read the snapshot
    | Stamped
    | StampFails(stamp: Option<Inputs>)  // whatever a failed write leaves behind
    | Abort                            // the build fails, or is killed

  predicate Fresh(s: State, xsa: string) {
    s.images.Some? && (s.stamp.None? || UpToDate(s.stamp.value, s.inputs, xsa))
  }

  predicate Enabled(s: State, xsa: string, e: Event) {
    match e
    case Edit(_, _) => true
    case CleanImages => s.phase.Idle?
    case LoseImages => s.phase.Idle?
    case Skip(_) => s.phase.Idle? && Fresh(s, xsa)
    case Begin(_, _) => s.phase.Idle? && !Fresh(s, xsa)
    case Packaged(_) => s.phase.Building?
    case Stamped => s.phase.Packed?
    case StampFails(_) => s.phase.Packed?
    case Abort => !s.phase.Idle?
  }

  function Edited(m: Inputs, key: string, digest: Option<string>): Inputs {
    if digest.Some? then m[key := digest.value] else m - {key}
  }

  function SkipStep(s: State, xsa: string, written: bool): State {
    if written && (s.stamp.None? || (xsa in s.inputs && xsa !in s.stamp.value))
    then s.(stamp := Some(s.inputs)) else s
  }

  /** `current` says whether the build directory, with its copy of the XSA and its configuration, is that of
      the inputs. */
  function BeginStep(s: State, xsa: string, builtXsa: string, current: bool): State {
    var inputs := if xsa in s.inputs then s.inputs else s.inputs[xsa := builtXsa];
    s.(inputs := inputs, phase := Building(inputs, current, {}))
  }

  function EditStep(s: State, key: string, digest: Option<string>): State {
    s.(inputs := Edited(s.inputs, key, digest),
       phase := if s.phase.Building? then s.phase.(touched := s.phase.touched + {key}) else s.phase)
  }

  /** What a build has read: in a current build directory the snapshot, but for what was edited since. There
      is always some XSA. */
  function Read(p: Phase, xsa: string, seen: Inputs): (built: Inputs)
    requires p.Building? && xsa in p.snapshot
    ensures xsa in built
  {
    var kept := if p.current then p.snapshot.Keys - p.touched else {};
    var free := if p.current then seen.Keys * p.touched else seen.Keys;
    var built := map k | k in kept + free :: if k in kept then p.snapshot[k] else seen[k];
    if xsa in built then built else built[xsa := p.snapshot[xsa]]
  }

  function PackagedStep(s: State, xsa: string, seen: Inputs): State
    requires s.phase.Building?
  {
    if xsa !in s.phase.snapshot then s
    else s.(images := Some(Read(s.phase, xsa, seen)), phase := Packed(s.phase.snapshot))
  }

  function Step(s: State, xsa: string, e: Event): State
    requires Enabled(s, xsa, e)
  {
    match e
    case Edit(key, digest) => EditStep(s, key, digest)
    case CleanImages => s.(images := None, stamp := None)
    case LoseImages => s.(images := None)
    case Skip(written) => SkipStep(s, xsa, written)
    case Begin(builtXsa, current) => BeginStep(s, xsa, builtXsa, current)
    case Packaged(seen) => PackagedStep(s, xsa, seen)
    case Stamped => s.(stamp := Some(s.phase.snapshot), phase := Idle)
    case StampFails(stamp) => s.(stamp := stamp, phase := Idle)
    case Abort => s.(phase := Idle)
  }

  /** A repository without images. */
  function Start(inputs: Inputs): State {
    State(inputs, None, None, Idle)
  }

  predicate Legal(s: State, xsa: string, es: seq<Event>)
    decreases es
  {
    es == [] || (Enabled(s, xsa, es[0]) && Legal(Step(s, xsa, es[0]), xsa, es[1..]))
  }

  function Run(s: State, xsa: string, es: seq<Event>): State
    requires Legal(s, xsa, es)
    decreases es
  {
    if es == [] then s else Run(Step(s, xsa, es[0]), xsa, es[1..])
  }

  /** Every snapshot has an XSA, and so have the images. */
  predicate Inv(s: State, xsa: string) {
    && (!s.phase.Idle? ==> xsa in s.phase.snapshot)
    && (s.phase.Packed? ==> s.images.Some?)
    && (s.images.Some? ==> xsa in s.images.value)
  }

  lemma {:induction false} RunKeeps(s: State, xsa: string, es: seq<Event>)
    requires Inv(s, xsa) && Legal(s, xsa, es)
    ensures Inv(Run(s, xsa, es), xsa)
    decreases es
  {
    if es != [] {
      assert Inv(Step(s, xsa, es[0]), xsa);
      RunKeeps(Step(s, xsa, es[0]), xsa, es[1..]);
    }
  }

  // ---------------------------------------------------------------- when a report can be trusted

  /** The images were built from the inputs as they are now; an XSA that is gone since does not count. */
  predicate BuiltFromThis(s: State, xsa: string) {
    s.images.Some? && if xsa in s.inputs then s.inputs == s.images.value else s.inputs == s.images.value - {xsa}
  }

  /** The stamp says what the images were built from. */
  predicate Trusted(s: State) {
    s.images.Some? ==> s.stamp == s.images
  }

  /** With the right stamp, up to date is reported exactly when the images were built from these inputs. */
  lemma TrustedIsTrue(s: State, xsa: string)
    requires Trusted(s) && (s.images.Some? ==> xsa in s.images.value)
    ensures Fresh(s, xsa) <==> BuiltFromThis(s, xsa)
  {
    if s.images.Some? {
      UpToDateIff(s.images.value, s.inputs, xsa);
      if xsa !in s.inputs { assert s.inputs - {xsa} == s.inputs; }
    }
  }

  /** With any other stamp, or none, some inputs would be reported up to date wrongly. */
  lemma UntrustedMisleads(s: State, xsa: string) returns (inputs: Inputs)
    requires !Trusted(s) && xsa in s.images.value
    ensures Fresh(s.(inputs := inputs), xsa) && !BuiltFromThis(s.(inputs := inputs), xsa)
  {
    var built, other := s.images.value, s.images.value[xsa] + "+";
    if s.stamp.None? {
      inputs := built[xsa := other];
      assert inputs[xsa] != built[xsa];
    } else if xsa in s.stamp.value {
      inputs := s.stamp.value;
      UpToDateIff(inputs, inputs, xsa);
    } else {
      inputs := s.stamp.value[xsa := other];
      assert inputs[xsa] != built[xsa];
      assert inputs - {xsa} == s.stamp.value - {xsa};
      UpToDateIff(s.stamp.value, inputs, xsa);
    }
  }

  /** Whatever is edited next is reported truly exactly when the stamp says what the images were built from. */
  lemma ReportsAreTrueIff(s: State, xsa: string)
    requires s.images.Some? ==> xsa in s.images.value
    ensures (forall m: Inputs :: Fresh(s.(inputs := m), xsa) ==> BuiltFromThis(s.(inputs := m), xsa)) <==> Trusted(s)
  {
    if Trusted(s) {
      forall m: Inputs ensures Fresh(s.(inputs := m), xsa) ==> BuiltFromThis(s.(inputs := m), xsa) {
        TrustedIsTrue(s.(inputs := m), xsa);
      }
    } else {
      var m := UntrustedMisleads(s, xsa);
    }
  }

  /** What each event does to the stamp's word, exactly. */
  lemma TrustStep(s: State, xsa: string, e: Event)
    requires Inv(s, xsa) && Enabled(s, xsa, e)
    ensures Trusted(Step(s, xsa, e)) <==>
            match e
            case Edit(_, _) => Trusted(s)
            case CleanImages => true
            case LoseImages => true
            case Skip(written) => Trusted(s) || (SkipStep(s, xsa, written) != s && s.inputs == s.images.value)
            case Begin(_, _) => Trusted(s)
            case Packaged(seen) => s.stamp == Some(Read(s.phase, xsa, seen))
            case Stamped => s.images == Some(s.phase.snapshot)
            case StampFails(stamp) => stamp == s.images
            case Abort => Trusted(s)
  {
  }

  lemma {:induction false} RunSplits(s: State, xsa: string, es: seq<Event>)
    requires es != [] && Legal(s, xsa, es)
    ensures var n := |es| - 1;
            Legal(s, xsa, es[..n]) && Enabled(Run(s, xsa, es[..n]), xsa, es[n])
            && Run(s, xsa, es) == Step(Run(s, xsa, es[..n]), xsa, es[n])
    decreases es
  {
    var n := |es| - 1;
    if n > 0 {
      assert es[..n][1..] == es[1..][..n - 1];
      RunSplits(Step(s, xsa, es[0]), xsa, es[1..]);
    }
  }

  // ---------------------------------------------------------------- seen from outside

  /** What can be told of one input from the events alone: whether the build that runs reads it as it was at
      the start, whether the latest images did, and whether their stamp is right about it. */
  datatype Watch = Watch(steady: bool, held: bool, told: bool)

  function Next(w: Watch, key: string, e: Event): Watch {
    match e
    case Edit(k, _) => if k == key then w.(steady := false) else w
    case CleanImages => w.(told := true)
    case LoseImages => w.(told := true)
    case Skip(_) => w
    case Begin(_, current) => w.(steady := current)
    case Packaged(_) => w.(held := w.steady, told := false)
    case Stamped => w.(told := w.held)
    case StampFails(_) => w.(told := false)
    case Abort => w
  }

  function Watched(key: string, es: seq<Event>): Watch {
    if es == [] then Watch(false, false, true) else Next(Watched(key, es[..|es| - 1]), key, es[|es| - 1])
  }

  /** The last packaging was of a build that began with a current build directory and during which `key` was
      not edited, and a successful stamp followed it; or images were removed since, or never made. */
  predicate SettledFor(key: string, es: seq<Event>) {
    Watched(key, es).told
  }

  ghost predicate Settled(es: seq<Event>) {
    forall key :: SettledFor(key, es)
  }

  predicate Agree(a: Inputs, b: Inputs, key: string) {
    Difference(a, b, key).None?
  }

  ghost predicate WatchOk(s: State, xsa: string, key: string, w: Watch) {
    && (s.phase.Building? && w.steady ==> s.phase.current && key !in s.phase.touched)
    && (s.phase.Packed? && w.held ==> s.images.Some? && Agree(s.images.value, s.phase.snapshot, key))
    && (s.images.Some? && w.told ==>
          s.stamp.Some? && xsa in s.stamp.value && Agree(s.images.value, s.stamp.value, key))
  }

  /** A build reads what was not edited as it was at its start. */
  lemma ReadAgrees(p: Phase, xsa: string, seen: Inputs, key: string)
    requires p.Building? && xsa in p.snapshot && p.current && key !in p.touched
    ensures Agree(Read(p, xsa, seen), p.snapshot, key)
  {
  }

  lemma WatchKeeps(s: State, xsa: string, key: string, w: Watch, e: Event)
    requires Inv(s, xsa) && Enabled(s, xsa, e) && WatchOk(s, xsa, key, w)
    ensures WatchOk(Step(s, xsa, e), xsa, key, Next(w, key, e))
  {
    if e.Packaged? && w.steady { ReadAgrees(s.phase, xsa, e.seen, key); }
  }

  lemma {:induction false} WatchedRuns(inputs: Inputs, xsa: string, key: string, es: seq<Event>)
    requires Legal(Start(inputs), xsa, es)
    ensures WatchOk(Run(Start(inputs), xsa, es), xsa, key, Watched(key, es))
    decreases es
  {
    if es != [] {
      var n := |es| - 1;
      RunSplits(Start(inputs), xsa, es);
      RunKeeps(Start(inputs), xsa, es[..n]);
      WatchedRuns(inputs, xsa, key, es[..n]);
      WatchKeeps(Run(Start(inputs), xsa, es[..n]), xsa, key, Watched(key, es[..n]), es[n]);
    }
  }

  /** Over every run: what is reported up to date holds each input as it is now that the last build did not
      see edited, whatever happened to the others. */
  lemma ReportsAreTrueFor(inputs: Inputs, xsa: string, es: seq<Event>, key: string)
    requires Legal(Start(inputs), xsa, es) && SettledFor(key, es)
    requires var s := Run(Start(inputs), xsa, es); Fresh(s, xsa) && (key == xsa ==> xsa in s.inputs)
    ensures var s := Run(Start(inputs), xsa, es); Agree(s.images.value, s.inputs, key)
  {
    WatchedRuns(inputs, xsa, key, es);
    var s := Run(Start(inputs), xsa, es);
    assert key in s.stamp.value.Keys + s.inputs.Keys ==> Agree(s.stamp.value, s.inputs, key);
  }

  lemma SettledIsTrusted(inputs: Inputs, xsa: string, es: seq<Event>)
    requires Legal(Start(inputs), xsa, es) && Settled(es)
    ensures Trusted(Run(Start(inputs), xsa, es))
  {
    var s := Run(Start(inputs), xsa, es);
    if s.images.Some? {
      WatchedRuns(inputs, xsa, xsa, es);
      assert SettledFor(xsa, es);
      forall key ensures Agree(s.images.value, s.stamp.value, key) {
        WatchedRuns(inputs, xsa, key, es);
        assert SettledFor(key, es);
      }
      SameEverywhere(s.images.value, s.stamp.value);
    }
  }

  lemma SameEverywhere(a: Inputs, b: Inputs)
    requires forall key :: Agree(a, b, key)
    ensures a == b
  {
    forall key ensures (key in a <==> key in b) && (key in a && key in b ==> a[key] == b[key]) {
      assert Agree(a, b, key);
    }
  }

  /** Over every run that settles all inputs, the stage reports up to date exactly when the images were built
      from the inputs as they are now. */
  lemma ReportsAreTrue(inputs: Inputs, xsa: string, es: seq<Event>)
    requires Legal(Start(inputs), xsa, es) && Settled(es)
    ensures Fresh(Run(Start(inputs), xsa, es), xsa) <==> BuiltFromThis(Run(Start(inputs), xsa, es), xsa)
  {
    RunKeeps(Start(inputs), xsa, es);
    SettledIsTrusted(inputs, xsa, es);
    TrustedIsTrue(Run(Start(inputs), xsa, es), xsa);
  }

  // ---------------------------------------------------------------- edits that stay

  /** The stamp is neither written nor removed. */
  predicate LeavesStamp(e: Event) {
    !e.Stamped? && !e.StampFails? && !e.CleanImages?
  }

  lemma {:induction false} StampStays(s: State, xsa: string, es: seq<Event>)
    requires Legal(s, xsa, es) && s.stamp.Some? && xsa in s.stamp.value && forall e <- es :: LeavesStamp(e)
    ensures Run(s, xsa, es).stamp == s.stamp
    decreases es
  {
    if es != [] {
      assert LeavesStamp(es[0]);
      forall e <- es[1..] ensures e in es { }
      StampStays(Step(s, xsa, es[0]), xsa, es[1..]);
    }
  }

  /** Once a build has stamped its snapshot, and until a stamp is written again or removed, an input that
      differs from the snapshot is never reported up to date, whether it was edited while the build ran or
      later. */
  lemma EditsAreNoticed(s: State, xsa: string, es: seq<Event>, key: string)
    requires Inv(s, xsa) && s.phase.Packed? && Legal(s, xsa, [Stamped] + es) && forall e <- es :: LeavesStamp(e)
    requires var t := Run(s, xsa, [Stamped] + es);
             (key == xsa ==> key in t.inputs) && Difference(s.phase.snapshot, t.inputs, key).Some?
    ensures !Fresh(Run(s, xsa, [Stamped] + es), xsa)
  {
    var t := Step(s, xsa, Stamped);
    assert ([Stamped] + es)[1..] == es;
    StampStays(t, xsa, es);
    assert key in s.phase.snapshot.Keys + Run(t, xsa, es).inputs.Keys;
  }

  /** Images that predate stamps are taken to hold the inputs found with them. From then on, until a stamp is
      written again or removed, they are reported up to date exactly while the inputs are those, and the images
      there. */
  lemma AdoptionIsRemembered(s: State, xsa: string, es: seq<Event>)
    requires s.phase.Idle? && s.images.Some? && s.stamp.None? && xsa in s.inputs
    requires Legal(s, xsa, [Skip(true)] + es) && forall e <- es :: LeavesStamp(e)
    ensures var t := Run(s, xsa, [Skip(true)] + es);
            Fresh(t, xsa) <==> t.images.Some? && Same(s.inputs, t.inputs, xsa)
  {
    var t := Step(s, xsa, Skip(true));
    assert ([Skip(true)] + es)[1..] == es;
    StampStays(t, xsa, es);
    UpToDateIsSame(s.inputs, Run(t, xsa, es).inputs, xsa);
  }

  // ---------------------------------------------------------------- without the right stamp

  lemma {:induction false} RunAppend(s: State, xsa: string, es: seq<Event>, e: Event)
    requires Legal(s, xsa, es) && Enabled(Run(s, xsa, es), xsa, e)
    ensures Legal(s, xsa, es + [e]) && Run(s, xsa, es + [e]) == Step(Run(s, xsa, es), xsa, e)
    decreases es
  {
    if es == [] {
      assert es + [e] == [e] && [e][1..] == [];
    } else {
      assert (es + [e])[1..] == es[1..] + [e];
      RunAppend(Step(s, xsa, es[0]), xsa, es[1..], e);
    }
  }

  ghost predicate Reachable(s: State, xsa: string) {
    exists inputs: Inputs, es :: Legal(Start(inputs), xsa, es) && Run(Start(inputs), xsa, es) == s
  }

  lemma ReachMore(s: State, xsa: string, e: Event)
    requires Reachable(s, xsa) && Enabled(s, xsa, e)
    ensures Reachable(Step(s, xsa, e), xsa)
  {
    var inputs: Inputs, es :| Legal(Start(inputs), xsa, es) && Run(Start(inputs), xsa, es) == s;
    RunAppend(Start(inputs), xsa, es, e);
  }

  /** A build of any inputs that have an XSA, in a current build directory. */
  lemma StartBuild(inputs: Inputs, xsa: string) returns (s: State)
    requires xsa in inputs
    ensures Reachable(s, xsa) && s == State(inputs, None, None, Building(inputs, true, {}))
  {
    s := Start(inputs);
    assert Legal(s, xsa, []) && Run(s, xsa, []) == s;
    ReachMore(s, xsa, Begin("", true));
    s := Step(s, xsa, Begin("", true));
  }

  lemma ReadUntouched(p: Phase, xsa: string, seen: Inputs)
    requires p.Building? && xsa in p.snapshot && p.current && p.touched == {}
    ensures Read(p, xsa, seen) == p.snapshot
  {
  }

  /** Images packaged from them undisturbed, with the build still to stamp them. */
  lemma Package(inputs: Inputs, xsa: string) returns (s: State)
    requires xsa in inputs
    ensures Reachable(s, xsa) && s == State(inputs, Some(inputs), None, Packed(inputs))
  {
    s := StartBuild(inputs, xsa);
    ReadUntouched(s.phase, xsa, inputs);
    ReachMore(s, xsa, Packaged(inputs));
    s := Step(s, xsa, Packaged(inputs));
  }

  /** If an input is edited while bitbake runs and put back afterwards, the images hold the edit and the stamp
      does not: they are reported up to date, stamped by a build that succeeded. */
  lemma EditDuringBuildHidesARevert() returns (s: State)
    ensures Reachable(s, "x") && Fresh(s, "x") && !BuiltFromThis(s, "x")
    ensures s.images.Some? && s.stamp == Some(s.inputs)
  {
    var old_: Inputs, new_: Inputs := map["x" := "0", "a" := "0"], map["x" := "0", "a" := "1"];
    s := StartBuild(old_, "x");
    ReachMore(s, "x", Edit("a", Some("1")));
    s := Step(s, "x", Edit("a", Some("1")));
    assert Read(s.phase, "x", new_) == new_;
    ReachMore(s, "x", Packaged(new_));
    s := Step(s, "x", Packaged(new_));
    ReachMore(s, "x", Stamped);
    s := Step(s, "x", Stamped);
    ReachMore(s, "x", Edit("a", Some("0")));
    s := Step(s, "x", Edit("a", Some("0")));
    assert s.inputs == old_ && old_["a"] != new_["a"];
    UpToDateIff(old_, old_, "x");
  }

  /** If the first stamp cannot be written, the next run takes the images for ones that predate stamps
      and adopts them: an edit made in between is reported up to date. */
  lemma LostStampHidesAnEdit() returns (s: State)
    ensures Reachable(s, "x") && Fresh(s, "x") && !BuiltFromThis(s, "x")
  {
    s := Package(map["x" := "0", "a" := "0"], "x");
    ReachMore(s, "x", StampFails(None));
    s := Step(s, "x", StampFails(None));
    ReachMore(s, "x", Edit("a", Some("1")));
    s := Step(s, "x", Edit("a", Some("1")));
    assert s.inputs["a"] == "1" && s.images.value["a"] == "0";
  }

  /** A finished target in which an input is then edited. */
  lemma EditFinished(built: Inputs, now: Inputs, xsa: string, key: string, digest: string) returns (s: State)
    requires xsa in built && now == built[key := digest]
    ensures Reachable(s, xsa) && s == State(now, Some(built), Some(built), Idle)
  {
    s := Package(built, xsa);
    ReachMore(s, xsa, Stamped);
    s := Step(s, xsa, Stamped);
    ReachMore(s, xsa, Edit(key, Some(digest)));
    s := Step(s, xsa, Edit(key, Some(digest)));
  }

  /** A rebuild killed between packaging and stamping. */
  lemma KillRebuild(s: State, xsa: string) returns (t: State)
    requires Reachable(s, xsa) && s.phase.Idle? && !Fresh(s, xsa) && xsa in s.inputs
    ensures Reachable(t, xsa) && t == s.(images := Some(s.inputs))
  {
    ReachMore(s, xsa, Begin("", true));
    t := Step(s, xsa, Begin("", true));
    ReadUntouched(t.phase, xsa, s.inputs);
    ReachMore(t, xsa, Packaged(s.inputs));
    t := Step(t, xsa, Packaged(s.inputs));
    ReachMore(t, xsa, Abort);
    t := Step(t, xsa, Abort);
  }

  /** If a rebuild is killed between packaging and stamping, the older stamp stays beside the newer
      images: putting the edit back is then reported up to date. */
  lemma KilledBuildHidesARevert() returns (s: State)
    ensures Reachable(s, "x") && Fresh(s, "x") && !BuiltFromThis(s, "x")
  {
    var old_: Inputs, new_: Inputs := map["x" := "0", "a" := "0"], map["x" := "0", "a" := "1"];
    s := EditFinished(old_, new_, "x", "a", "1");
    assert Difference(old_, new_, "a").Some? && "a" in old_.Keys + new_.Keys;
    s := KillRebuild(s, "x");
    ReachMore(s, "x", Edit("a", Some("0")));
    s := Step(s, "x", Edit("a", Some("0")));
    assert s.inputs == old_ && old_["a"] != new_["a"];
  }

  // ---------------------------------------------------------------- the stage

  datatype Result = Skipped | Built | Failed

  class YoctoTree {
    const xsa: string
    var inputs: Inputs
    var images: Option<Inputs>
    var stamp: Option<Inputs>
    var phase: Phase
    ghost var history: seq<Event>
    ghost const first: Inputs

    ghost function View(): State
      reads this
    {
      State(inputs, images, stamp, phase)
    }

    ghost predicate Valid()
      reads this
    {
      Legal(Start(first), xsa, history) && Run(Start(first), xsa, history) == View()
    }

    constructor (xsaPath: string, found: Inputs)
      ensures Valid() && history == [] && View() == Start(found)
    {
      xsa, first, inputs := xsaPath, found, found;
      images, stamp, phase, history := None, None, Idle, [];
    }

    /** Record a step once its effect is in place. */
    ghost method Record(e: Event, was: State)
      requires Legal(Start(first), xsa, history) && Run(Start(first), xsa, history) == was
      requires Enabled(was, xsa, e) && View() == Step(was, xsa, e)
      modifies this`history
      ensures Valid() && history == old(history) + [e]
    {
      RunAppend(Start(first), xsa, history, e);
      history := history + [e];
    }

    /** The edits someone makes while bitbake runs. */
    method Edits(edits: seq<(string, Option<string>)>)
      requires Valid() && phase.Building?
      modifies this
      ensures Valid() && images == old(images) && stamp == old(stamp) && old(history) <= history
      ensures phase == old(phase).(touched := old(phase).touched + Keys(edits))
    {
      for i := 0 to |edits|
        invariant Valid() && images == old(images) && stamp == old(stamp) && old(history) <= history
        invariant phase == old(phase).(touched := old(phase).touched + Keys(edits[..i]))
      {
        ghost var was := View();
        inputs := Edited(inputs, edits[i].0, edits[i].1);
        phase := phase.(touched := phase.touched + {edits[i].0});
        assert edits[..i + 1] == edits[..i] + [edits[i]];
        Record(Edit(edits[i].0, edits[i].1), was);
      }
      assert edits[..|edits|] == edits;
    }

    static function Keys(edits: seq<(string, Option<string>)>): set<string> {
      set e | e in edits :: e.0
    }

    /** There are images, and no stamp beside them or one that tells the inputs as they are. */
    ghost predicate IsFresh()
      reads this
    {
      images.Some? && (stamp.None? || Same(stamp.value, inputs, xsa))
    }

    lemma FreshIs()
      ensures Fresh(View(), xsa) <==> IsFresh()
    {
      if stamp.Some? { UpToDateIsSame(stamp.value, inputs, xsa); }
    }

    /** The freshness test of stage_yocto. A stamp that is missing, or that lacks an XSA there is now, is adopted
        from the inputs as they are. */
    method Check(written: bool) returns (upToDate: bool)
      requires Valid() && phase == Idle
      modifies this
      ensures Valid() && upToDate == old(IsFresh()) && inputs == old(inputs) && images == old(images) && phase == Idle
      ensures old(history) <= history
      ensures upToDate <==> Fresh(old(View()), xsa)
      ensures var adopted := upToDate && written && (old(stamp).None? || (xsa in inputs && xsa !in old(stamp).value));
              stamp == if adopted then Some(inputs) else old(stamp)
    {
      ghost var was := View();
      FreshIs();
      if images.None? { return false; }
      if stamp.None? {
        if written { stamp := Some(inputs); }
        Record(Skip(written), was);
        return true;
      }
      var changes := InputChanges(stamp.value, inputs, xsa);
      if changes != [] { return false; }
      if xsa in inputs && xsa !in stamp.value && written { stamp := Some(inputs); }
      Record(Skip(written), was);
      return true;
    }

    /** The inputs once there is an XSA. */
    function WithXsa(m: Inputs, builtXsa: string): Inputs {
      if xsa in m then m else m[xsa := builtXsa]
    }

    static predicate SameAt(a: Inputs, b: Inputs, key: string) {
      (key in a <==> key in b) && (key in a && key in b ==> a[key] == b[key])
    }

    /** stage_yocto. It fails only where the build does. The snapshot is taken before the build, and the stamp is
        that snapshot; the images hold it wherever the build began with a current build directory and nothing was
        edited meanwhile. */
    method StageYocto(builtXsa: string, current: bool, meanwhile: seq<(string, Option<string>)>, seen: Inputs,
                      buildOk: bool, stampOk: bool)
      returns (r: Result)
      requires Valid() && phase == Idle
      modifies this
      ensures Valid() && phase == Idle && old(history) <= history
      ensures r == Skipped <==> old(IsFresh())
      ensures r == Built ==> images.Some? && stamp == if stampOk then Some(WithXsa(old(inputs), builtXsa)) else old(stamp)
      ensures r == Built && current ==>
                forall key :: key !in Keys(meanwhile) ==> SameAt(images.value, WithXsa(old(inputs), builtXsa), key)
      ensures r == Built && current && stampOk && meanwhile == [] ==> Trusted(View())
      ensures r == Failed <==> !old(IsFresh()) && !buildOk
      ensures r == Failed ==> images == old(images) && stamp == old(stamp)
    {
      var upToDate := Check(stampOk);
      if upToDate { return Skipped; }
      var snapshot := Snapshot(builtXsa, current);
      Edits(meanwhile);
      if !buildOk {
        ghost var was := View();
        phase := Idle;
        Record(Abort, was);
        return Failed;
      }
      ghost var building := phase;
      Finish(snapshot, seen, stampOk);
      if current {
        forall key | key !in Keys(meanwhile) ensures Agree(images.value, snapshot, key) {
          ReadAgrees(building, xsa, seen, key);
        }
        if meanwhile == [] { ReadUntouched(building, xsa, seen); }
      }
      return Built;
    }

    method Snapshot(builtXsa: string, current: bool) returns (snapshot: Inputs)
      requires Valid() && phase == Idle && !Fresh(View(), xsa)
      modifies this
      ensures Valid() && View() == BeginStep(old(View()), xsa, builtXsa, current) && snapshot == inputs
      ensures old(history) <= history
    {
      ghost var was := View();
      if xsa !in inputs { inputs := inputs[xsa := builtXsa]; }
      snapshot := inputs;
      phase := Building(snapshot, current, {});
      Record(Begin(builtXsa, current), was);
    }

    method Finish(snapshot: Inputs, seen: Inputs, stampOk: bool)
      requires Valid() && phase.Building? && phase.snapshot == snapshot && xsa in snapshot
      modifies this
      ensures Valid() && phase == Idle && images == Some(Read(old(phase), xsa, seen))
      ensures stamp == (if stampOk then Some(snapshot) else old(stamp)) && old(history) <= history
    {
      ghost var was := View();
      images, phase := Some(Read(phase, xsa, seen)), Packed(snapshot);
      Record(Packaged(seen), was);
      ghost var then_ := View();
      phase := Idle;
      if stampOk {
        stamp := Some(snapshot);
        Record(Stamped, then_);
      } else {
        Record(StampFails(stamp), then_);
      }
    }
  }
}
