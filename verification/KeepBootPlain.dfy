/**
 Cleaning where no link lies on a path that matters, as in a checkout whose build trees may hold any number
 of links: then only the age of the boot file decides. And the smallest trees in which 'all' has work to do
 after a clean.
 */
module KeepBootPlain {
  import opened Ledger
  import opened FileSystem
  import opened Prune
  import opened Pruned
  import opened Stages
  import opened KeepBoot

  /** A target is not called like a directory it shares with others. */
  predicate ProperName(t: Target) {
    t.name !in {"ip", "scripts", "bsp"}
  }

  function YoctoFiles(t: Target): set<string> {
    YoctoProducts(t) + {".inputs-sha256"}
  }

  /** The paths the stages and the clean look at, apart from the Yocto inputs. */
  function Tested(fs: Fs, t: Target): set<Path> {
    {Xsa(t), DevImage(t), Mcs(t), Prm(t), BootFile(t), VitWs(t), ["Vitis", "py"],
     ["Vivado", "scripts", "cfgmem.tcl"], ["Yocto", "scripts", "build-image.sh"],
     PetlImg(t, "BOOT.BIN"), PetlImg(t, "boot.mcs"),
     Zip(t.bareZip), Zip(t.petlZip), Zip(t.yoctoZip), Zip(t.bitZip)}
    + (set f | f in YoctoFiles(t) :: YoctoImg(t, f))
    + (set p | p in IpOutputs(fs, t) :: Parent(p))
  }

  /** None of them is a link, or is reached through one. */
  ghost predicate PlainPaths(fs: Fs, t: Target) {
    forall p <- Tested(fs, t) :: Plain(fs, p)
  }

  // ---------------------------------------------------------------- where the plan lies

  /** Where an entry would have to lie for the clean to reach it. */
  predicate InReach(t: Target, p: Path) {
    || (|p| >= 2 && p[0] == "Vivado" && p[1] in {t.name, "ip"})
    || (|p| >= 1 && p[0] == "HLS")
    || (|p| >= 2 && p[0] == "Vitis" && p[1] == WsName(t))
    || (|p| >= 3 && p[0] == "PetaLinux" && p[2] in {"build", "components"})
    || (|p| >= 2 && p[0] == "Yocto" && p[1] == t.name)
  }

  /** What is pruned below a directory reached without links. */
  ghost predicate IsPruned(fs: Fs, root: Path, keep: set<Path>, e: Path) {
    Doomed(fs, root, Relocated(Existing(fs, keep), root, root), e)
  }

  lemma ReturnedInPlace(fs: Fs, root: Path, keep: set<Path>, p: Path)
    requires Tree(fs) && root != [] && Plain(fs, root) && Returned(fs, root, Existing(fs, keep), p)
    ensures root < p && Locate(fs, p) == Some(p) && IsPruned(fs, root, keep, p)
  {
    var dir := RealDir(fs, root).value;
    PlainAbove(fs, Parent(root), root);
    PlainResolve(fs, Parent(root));
    assert Parent(root) + [root[|root| - 1]] == root && dir == root;
    var s := p[|root|..];
    assert p == root + s;
    DoomedIsBelow(fs, root, Relocated(Existing(fs, keep), root, root), p);
    LocateBelow(fs, root, s);
  }

  lemma PlansVivadoInPlace(fs: Fs, t: Target, p: Path)
    requires Tree(fs) && PlainPaths(fs, t) && PlansVivado(fs, t, p)
    ensures VivPrj(t) < p && Locate(fs, p) == Some(p) && IsPruned(fs, VivPrj(t), VivKeep(fs, t), p)
    ensures |p| >= 3 && p[0] == "Vivado" && p[1] == t.name
  {
    assert Xsa(t) in Tested(fs, t);
    PlainAbove(fs, VivPrj(t), Xsa(t));
    ReturnedInPlace(fs, VivPrj(t), VivKeep(fs, t), p);
    assert VivPrj(t)[0] == p[0] && VivPrj(t)[1] == p[1];
  }

  lemma PlansYoctoInPlace(fs: Fs, t: Target, p: Path)
    requires Tree(fs) && PlainPaths(fs, t) && PlansYocto(fs, t, p)
    ensures YoctoWork(t) < p && Locate(fs, p) == Some(p) && IsPruned(fs, YoctoWork(t), YoctoKeep(t), p)
    ensures |p| >= 3 && p[0] == "Yocto" && p[1] == t.name
  {
    assert "BOOT.BIN" in YoctoProducts(t) && YoctoImg(t, "BOOT.BIN") in Tested(fs, t);
    PlainAbove(fs, YoctoWork(t), YoctoImg(t, "BOOT.BIN"));
    ReturnedInPlace(fs, YoctoWork(t), YoctoKeep(t), p);
    assert YoctoWork(t)[0] == p[0] && YoctoWork(t)[1] == p[1];
  }

  lemma IpShape(fs: Fs, t: Target, p: Path)
    requires p in IpOutputs(fs, t)
    ensures |p| == if p != [] && p[0] == "HLS" then 3 else 4
    ensures p[0] == "HLS" || (p[0] == "Vivado" && p[1] == "ip")
  {
  }

  lemma IpInPlace(fs: Fs, t: Target, p: Path)
    requires Tree(fs) && PlainPaths(fs, t) && PlansIp(fs, t, p)
    ensures p != [] && Locate(fs, p) == Some(p)
  {
    IpShape(fs, t, p);
    assert Parent(p) in Tested(fs, t);
    PlainParentLocates(fs, p);
  }

  lemma WorkspaceInPlace(fs: Fs, t: Target, p: Path)
    requires Tree(fs) && PlainPaths(fs, t) && PlansWorkspace(fs, t, p)
    ensures p != [] && Locate(fs, p) == Some(p)
  {
    assert VitWs(t) in Tested(fs, t);
    PlainAbove(fs, Parent(p), p);
    PlainParentLocates(fs, p);
  }

  lemma PetalinuxInPlace(fs: Fs, t: Target, p: Path)
    requires Tree(fs) && PlainPaths(fs, t) && PlansPetalinux(fs, t, p)
    ensures p != [] && Locate(fs, p) == Some(p)
  {
    assert PetlImg(t, "BOOT.BIN") in Tested(fs, t);
    assert Parent(p) == ["PetaLinux", t.name] <= PetlImg(t, "BOOT.BIN");
    PlainAbove(fs, Parent(p), PetlImg(t, "BOOT.BIN"));
    PlainParentLocates(fs, p);
  }

  lemma PlainParentLocates(fs: Fs, p: Path)
    requires Tree(fs) && p != [] && Exists(fs, p) && Plain(fs, Parent(p))
    ensures Locate(fs, p) == Some(p)
  {
    ExistingIsLocated(fs, p);
    PlainResolve(fs, Parent(p));
    assert Parent(p) + [p[|p| - 1]] == p;
  }

  /** Every planned path names the entry of its own name, in its own area. */
  lemma PlanInPlace(fs: Fs, t: Target, p: Path)
    requires Tree(fs) && PlainPaths(fs, t) && Planned(fs, t, p)
    ensures Locate(fs, p) == Some(p) && InReach(t, p) && |p| >= 2
    ensures ProperName(t) && p[0] == "Vivado" && p[1] == t.name ==> IsPruned(fs, VivPrj(t), VivKeep(fs, t), p)
    ensures p[0] == "Yocto" ==> IsPruned(fs, YoctoWork(t), YoctoKeep(t), p)
  {
    if PlansVivado(fs, t, p) {
      PlansVivadoInPlace(fs, t, p);
    } else if PlansYocto(fs, t, p) {
      PlansYoctoInPlace(fs, t, p);
    } else {
      OtherPlansInPlace(fs, t, p);
    }
  }

  lemma OtherPlansInPlace(fs: Fs, t: Target, p: Path)
    requires Tree(fs) && PlainPaths(fs, t)
    requires PlansIp(fs, t, p) || PlansWorkspace(fs, t, p) || PlansPetalinux(fs, t, p)
    ensures Locate(fs, p) == Some(p) && InReach(t, p) && |p| >= 2 && p[0] != "Yocto"
    ensures p[0] == "Vivado" ==> p[1] == "ip"
  {
    if PlansIp(fs, t, p) {
      IpInPlace(fs, t, p);
      IpShape(fs, t, p);
    } else if PlansWorkspace(fs, t, p) {
      WorkspaceInPlace(fs, t, p);
    } else {
      PetalinuxInPlace(fs, t, p);
    }
  }

  lemma GoesInPlace(fs: Fs, t: Target, e: Path)
    requires Tree(fs) && PlainPaths(fs, t) && e in Out(fs, t)
    ensures Planned(fs, t, e) && InReach(t, e) && |e| >= 2
    ensures ProperName(t) && e[0] == "Vivado" && e[1] == t.name ==> IsPruned(fs, VivPrj(t), VivKeep(fs, t), e)
    ensures e[0] == "Yocto" ==> IsPruned(fs, YoctoWork(t), YoctoKeep(t), e)
  {
    var p :| Planned(fs, t, p) && Locate(fs, p) == Some(e);
    PlanInPlace(fs, t, p);
  }

  // ---------------------------------------------------------------- what stays

  lemma OutOfReachStays(fs: Fs, t: Target, p: Path)
    requires Tree(fs) && PlainPaths(fs, t) && !InReach(t, p)
    ensures !Gone(Out(fs, t), p)
  {
    forall e | e in Out(fs, t) ensures !(e <= p) {
      GoesInPlace(fs, t, e);
    }
  }

  /** A path to keep below a pruned directory, and what it holds, is not removed. */
  lemma KeptIsNotPruned(fs: Fs, root: Path, keep: set<Path>, k: Path, p: Path, e: Path)
    requires Tree(fs) && p in fs && k in Existing(fs, keep) && root < k <= p && e <= p
    ensures !IsPruned(fs, root, keep, e)
  {
    var moved := Relocated(Existing(fs, keep), root, root);
    var s := k[|root|..];
    assert k == root + s;
    RelocatedHas(Existing(fs, keep), root, root, s);
    assert Covered(moved, root, p);
    NoAncestorIsDoomed(fs, root, moved, p, e);
  }

  lemma VivKeptStays(fs: Fs, t: Target, p: Path)
    requires Tree(fs) && PlainPaths(fs, t) && ProperName(t) && p in fs && Plain(fs, p)
    requires p in VivKeep(fs, t) && VivPrj(t) < p
    ensures !Gone(Out(fs, t), p)
  {
    PlainResolve(fs, p);
    forall e | e in Out(fs, t) ensures !(e <= p) {
      GoesInPlace(fs, t, e);
      if e <= p {
        assert e[0] == p[0] == VivPrj(t)[0] && e[1] == p[1] == VivPrj(t)[1];
        KeptIsNotPruned(fs, VivPrj(t), VivKeep(fs, t), p, p, e);
      }
    }
  }

  lemma ImagesStay(fs: Fs, t: Target, p: Path)
    requires Tree(fs) && PlainPaths(fs, t) && p in fs && Plain(fs, p) && ["Yocto", t.name, "images"] <= p
    ensures !Gone(Out(fs, t), p)
  {
    var k := ["Yocto", t.name, "images"];
    if k != p { AncestorsAreDirs(fs, k, p); }
    PlainAbove(fs, k, p);
    PlainResolve(fs, k);
    forall e | e in Out(fs, t) ensures !(e <= p) {
      GoesInPlace(fs, t, e);
      if e <= p {
        assert e[0] == p[0] == k[0];
        KeptIsNotPruned(fs, YoctoWork(t), YoctoKeep(t), k, p, e);
      }
    }
  }

  /** A plain path that is not removed is safe. */
  lemma PlainStays(fs: Fs, t: Target, p: Path)
    requires Tree(fs) && Plain(fs, p) && Exists(fs, p) && !Gone(Out(fs, t), p)
    ensures Stays(fs, t, p)
  {
    PlainResolve(fs, p);
  }

  lemma OutOfReachIsSafe(fs: Fs, t: Target, p: Path)
    requires Tree(fs) && PlainPaths(fs, t) && !InReach(t, p) && p in Tested(fs, t) && Exists(fs, p)
    ensures Stays(fs, t, p)
  {
    OutOfReachStays(fs, t, p);
    PlainStays(fs, t, p);
  }

  lemma DeliverablePlace(fs: Fs, t: Target, p: Path)
    requires p in {Xsa(t), DevImage(t), Mcs(t), Prm(t), BootFile(t)}
    ensures p in Tested(fs, t)
    ensures if p[0] == "Vitis" then !InReach(t, p) else p in VivKeep(fs, t) && VivPrj(t) < p
  {
    assert |WsName(t)| > |"boot"|;
  }

  lemma DeliverableStays(fs: Fs, t: Target, p: Path)
    requires Tree(fs) && PlainPaths(fs, t) && ProperName(t) && Exists(fs, p)
    requires p in {Xsa(t), DevImage(t), Mcs(t), Prm(t), BootFile(t)}
    ensures Stays(fs, t, p)
  {
    DeliverablePlace(fs, t, p);
    KeptStays(fs, t, p);
  }

  lemma KeptStays(fs: Fs, t: Target, p: Path)
    requires Tree(fs) && PlainPaths(fs, t) && ProperName(t) && Exists(fs, p) && p in Tested(fs, t) && p != []
    requires if p[0] == "Vitis" then !InReach(t, p) else p in VivKeep(fs, t) && VivPrj(t) < p
    ensures Stays(fs, t, p)
  {
    if p[0] == "Vitis" {
      OutOfReachIsSafe(fs, t, p);
    } else {
      PlainResolve(fs, p);
      VivKeptStays(fs, t, p);
      PlainStays(fs, t, p);
    }
  }

  lemma YoctoImageStays(fs: Fs, t: Target, f: string)
    requires Tree(fs) && PlainPaths(fs, t) && f in YoctoFiles(t) && Exists(fs, YoctoImg(t, f))
    ensures Stays(fs, t, YoctoImg(t, f))
  {
    var p := YoctoImg(t, f);
    assert p in Tested(fs, t);
    PlainResolve(fs, p);
    ImagesStay(fs, t, p);
    PlainStays(fs, t, p);
  }

  /** Paths of other areas, and images the clean does not touch. */
  predicate Outsider(t: Target, p: Path) {
    || p == ["Vitis", "py"] || p == ["Vivado", "scripts", "cfgmem.tcl"] || p == ["Yocto", "scripts", "build-image.sh"]
    || p == PetlImg(t, "BOOT.BIN") || p == PetlImg(t, "boot.mcs")
    || p == Zip(t.bareZip) || p == Zip(t.petlZip) || p == Zip(t.yoctoZip) || p == Zip(t.bitZip)
  }

  lemma OutsiderStays(fs: Fs, t: Target, p: Path)
    requires Tree(fs) && PlainPaths(fs, t) && ProperName(t) && Outsider(t, p)
    ensures Intact(fs, t, p)
  {
    assert |WsName(t)| > |"py"|;
    assert !InReach(t, p);
    if Exists(fs, p) { OutOfReachIsSafe(fs, t, p); }
  }

  lemma DeliverableIsIntact(fs: Fs, t: Target, p: Path)
    requires Tree(fs) && PlainPaths(fs, t) && ProperName(t) && p in {Xsa(t), DevImage(t), Mcs(t), Prm(t), BootFile(t)}
    ensures Intact(fs, t, p)
  {
    if Exists(fs, p) { DeliverableStays(fs, t, p); }
  }

  lemma YoctoImageIsIntact(fs: Fs, t: Target, f: string)
    requires Tree(fs) && PlainPaths(fs, t) && f in YoctoFiles(t)
    ensures Intact(fs, t, YoctoImg(t, f))
  {
    if Exists(fs, YoctoImg(t, f)) { YoctoImageStays(fs, t, f); }
  }

  /** A stamped Yocto target has the inputs it had. */
  ghost predicate InputsKept(fs: Fs, t: Target, rd: Reader) {
    IsFile(fs, ["Yocto", "scripts", "build-image.sh"]) && IsFile(fs, YoctoImg(t, ".inputs-sha256")) ==> SameInputs(fs, t, rd)
  }

  /** A file that is intact stays. */
  lemma FileStays(fs: Fs, t: Target, p: Path)
    requires Intact(fs, t, p)
    ensures (IsFile(fs, p) || IsDir(fs, p)) ==> Stays(fs, t, p)
  {
  }

  lemma YoctoStaysIff(fs: Fs, t: Target, rd: Reader)
    requires Tree(fs) && PlainPaths(fs, t) && ProperName(t) && t.yocto && SkipsYocto(fs, t, rd)
    ensures YoctoStays(fs, t, rd) <==> InputsKept(fs, t, rd)
  {
    var script := ["Yocto", "scripts", "build-image.sh"];
    OutsiderStays(fs, t, script);
    FileStays(fs, t, script);
    forall f <- YoctoFiles(t) ensures IsFile(fs, YoctoImg(t, f)) ==> Stays(fs, t, YoctoImg(t, f)) {
      YoctoImageIsIntact(fs, t, f);
      FileStays(fs, t, YoctoImg(t, f));
    }
    assert ".inputs-sha256" in YoctoFiles(t) && forall f <- YoctoProducts(t) :: f in YoctoFiles(t);
  }

  lemma BootStaysIff(fs: Fs, t: Target, tools: bool)
    requires Tree(fs) && PlainPaths(fs, t) && ProperName(t) && t.baremetal && SkipsStandalone(fs, t, tools)
    ensures StandaloneStays(fs, t) <==> (VitisFlow(fs) ==> BootNotOlder(fs, t))
  {
    OutsiderStays(fs, t, ["Vitis", "py"]);
    FileStays(fs, t, ["Vitis", "py"]);
    DeliverableIsIntact(fs, t, BootFile(t));
    FileStays(fs, t, BootFile(t));
  }

  lemma CfgmemImagesStay(fs: Fs, t: Target, tools: bool)
    requires Tree(fs) && PlainPaths(fs, t) && ProperName(t) && t.cfgmem && SkipsCfgmem(fs, t, tools)
    ensures CfgmemStays(fs, t)
  {
    DeliverableIsIntact(fs, t, Mcs(t));
    FileStays(fs, t, Mcs(t));
    DeliverableIsIntact(fs, t, CfgmemSrc(t));
    FileStays(fs, t, CfgmemSrc(t));
  }

  lemma PetalinuxImageStays(fs: Fs, t: Target)
    requires Tree(fs) && PlainPaths(fs, t) && ProperName(t) && PetalinuxBuilt(fs, t)
    ensures PetalinuxStays(fs, t)
  {
    OutsiderStays(fs, t, PetlImg(t, "BOOT.BIN"));
    FileStays(fs, t, PetlImg(t, "BOOT.BIN"));
    OutsiderStays(fs, t, PetlImg(t, "boot.mcs"));
    FileStays(fs, t, PetlImg(t, "boot.mcs"));
  }

  lemma ZipStays(fs: Fs, t: Target, zip: Path)
    requires Tree(fs) && PlainPaths(fs, t) && ProperName(t) && IsFile(fs, zip) && Outsider(t, zip)
    ensures Stays(fs, t, zip)
  {
    OutsiderStays(fs, t, zip);
    FileStays(fs, t, zip);
  }

  lemma ZipsStay(fs: Fs, t: Target)
    requires Tree(fs) && PlainPaths(fs, t) && ProperName(t) && SkipsPackage(fs, t)
    ensures PackageStays(fs, t)
  {
    if t.baremetal && VitisFlow(fs) { ZipStays(fs, t, Zip(t.bareZip)); }
    if t.petalinux { ZipStays(fs, t, Zip(t.petlZip)); }
    if t.yocto { ZipStays(fs, t, Zip(t.yoctoZip)); }
    if !HasSoftware(t) && IsFile(fs, DevImage(t)) { ZipStays(fs, t, Zip(t.bitZip)); }
  }

  /** Whatever a finished target depends on stays, so only the age of the boot file and the Yocto inputs are
      left. */
  lemma OnlyTheBootFileDecides(fs: Fs, t: Target, tools: bool, rd: Reader)
    requires Tree(fs) && PlainPaths(fs, t) && ProperName(t) && NothingToDo(fs, t, tools, rd)
    ensures StillDone(fs, t, rd)
            <==> (t.baremetal && VitisFlow(fs) ==> BootNotOlder(fs, t)) && (t.yocto ==> InputsKept(fs, t, rd))
  {
    NothingToDoIff(fs, t, tools, rd);
    DeliverableIsIntact(fs, t, Xsa(t));
    FileStays(fs, t, Xsa(t));
    ZipsStay(fs, t);
    if t.cfgmem { CfgmemImagesStay(fs, t, tools); }
    if t.petalinux { PetalinuxImageStays(fs, t); }
    if t.baremetal { BootStaysIff(fs, t, tools); }
    if t.yocto { YoctoStaysIff(fs, t, rd); }
  }

  /** Where no link lies on a path that matters, 'all' has nothing to do after the clean exactly when the
      boot file of a workspace that goes is not older than the XSA and no Yocto input changes. */
  lemma NoOpIffInputsKept(fs: Fs, t: Target, tools: bool, rd: Reader)
    requires Tree(fs) && PlainPaths(fs, t) && ProperName(t) && NothingToDo(fs, t, tools, rd)
    ensures NothingToDo(Cleaned(fs, t), t, tools, rd)
            <==> (t.baremetal && VitisFlow(fs) ==> BootNotOlder(fs, t)) && (t.yocto ==> InputsKept(fs, t, rd))
  {
    KeepBootKeepsNothingToDo(fs, t, tools, rd);
    OnlyTheBootFileDecides(fs, t, tools, rd);
  }

  // ---------------------------------------------------------------- the Yocto inputs

  /** `d` neither holds nor lies in anything the clean could reach. */
  ghost predicate Apart(fs: Fs, t: Target, d: Path) {
    forall e <- fs :: InReach(t, e) ==> !(e <= d) && !(d <= e)
  }

  /** Paths below `d`. */
  ghost predicate AllBelow(d: Path, paths: seq<Path>) {
    forall p <- paths :: d <= p
  }

  ghost predicate AllNear(d: Path, entries: set<Path>) {
    forall v <- entries :: v <= d || d <= v
  }

  lemma NearBoth(d: Path, a: set<Path>, b: set<Path>)
    requires AllNear(d, a) && AllNear(d, b)
    ensures AllNear(d, a + b)
  {
  }

  lemma BelowBoth(d: Path, a: seq<Path>, b: seq<Path>)
    requires AllBelow(d, a) && AllBelow(d, b)
    ensures AllBelow(d, a + b)
  {
  }

  lemma VisitsAreNear(fs: Fs, d: Path, p: Path)
    requires Tree(fs) && PlainBelow(fs, d) && d <= p
    ensures Plain(fs, p) && AllNear(d, Visits(fs, [], p, MAX_LINKS)) && (Exists(fs, p) ==> Resolve(fs, p) == Some(p))
  {
    assert Plain(fs, p) by {
      forall q <- fs | q <= p ensures !fs[q].Link? { Compare(q, d, p); }
    }
    assert [] + p == p;
    PlainVisits(fs, [], p, MAX_LINKS);
    forall v <- Visits(fs, [], p, MAX_LINKS) ensures v <= d || d <= v { Compare(v, d, p); }
    PlainResolve(fs, p);
  }

  lemma Compare(q: Path, d: Path, p: Path)
    requires q <= p && d <= p
    ensures q <= d || d <= q
  {
    Comparable(q, d, p);
  }

  lemma {:induction false} SubDirsBelow(fs: Fs, d: Path, top: Path, names: seq<string>)
    requires top <= d
    ensures AllBelow(top, SubDirs(fs, d, names))
    decreases names
  {
    if names != [] {
      SubDirsBelow(fs, d, top, names[1..]);
      assert top <= d + [names[0]];
    }
  }

  lemma EntriesAreNear(fs: Fs, d: Path, top: Path, names: seq<string>)
    requires Tree(fs) && PlainBelow(fs, top) && top <= d
    ensures AllNear(top, EntriesOf(fs, d, names)) && AllNear(top, Children(fs, d))
  {
    forall v <- EntriesOf(fs, d, names) ensures v <= top || top <= v {
      var n :| n in names && Exists(fs, d + [n]) && v in Visits(fs, [], d + [n], MAX_LINKS);
      VisitsAreNear(fs, top, d + [n]);
    }
    forall c <- Children(fs, d) ensures top <= c { assert d <= c; }
  }

  /** Walking down from `d` looks at nothing but the way to `d` and what it holds. */
  lemma {:induction false} WalkStaysInside(fs: Fs, listing: set<string> -> seq<string>, top: Path, pending: seq<Path>,
                                           seen: set<Path>)
    requires Tree(fs) && PlainBelow(fs, top) && AllBelow(top, pending)
    ensures AllNear(top, WalkEntries(fs, listing, pending, seen))
    decreases Dirs(fs) - seen, |pending|
  {
    if pending != [] {
      var d, rest := pending[0], pending[1..];
      var at := Resolve(fs, d);
      assert d in pending && forall p <- rest :: p in pending;
      VisitsAreNear(fs, top, d);
      if at.None? || at.value !in fs || !fs[at.value].Dir? || at.value in seen {
        WalkStaysInside(fs, listing, top, rest, seen);
        NearBoth(top, Visits(fs, [], d, MAX_LINKS), WalkEntries(fs, listing, rest, seen));
      } else {
        var names := listing(Names(fs, at.value));
        assert at.value in Dirs(fs) - seen && at.value !in Dirs(fs) - (seen + {at.value});
        EntriesAreNear(fs, d, top, names);
        SubDirsBelow(fs, d, top, names);
        var more := SubDirs(fs, d, names) + rest;
        BelowBoth(top, SubDirs(fs, d, names), rest);
        WalkStaysInside(fs, listing, top, more, seen + {at.value});
        NearBoth(top, Children(fs, d), EntriesOf(fs, d, names));
        NearBoth(top, Children(fs, d) + EntriesOf(fs, d, names), WalkEntries(fs, listing, more, seen + {at.value}));
        NearBoth(top, Visits(fs, [], d, MAX_LINKS),
                 Children(fs, d) + EntriesOf(fs, d, names) + WalkEntries(fs, listing, more, seen + {at.value}));
      }
    }
  }

  /** An input directory without links, apart from what the clean removes, is found as it was. */
  lemma ApartIsIntact(fs: Fs, t: Target, listing: set<string> -> seq<string>, d: Path)
    requires Tree(fs) && PlainPaths(fs, t) && PlainBelow(fs, d) && Apart(fs, t, d)
    ensures DirIntact(fs, t, listing, d)
  {
    WalkStaysInside(fs, listing, d, [d], {});
    forall v <- WalkEntries(fs, listing, [d], {}) ensures !Gone(Out(fs, t), v) {
      forall e | e in Out(fs, t) ensures !(e <= v) {
        GoesInPlace(fs, t, e);
        PlannedIsThere(fs, t, e);
        if e <= v && d <= v { Compare(e, d, v); }
      }
    }
  }

  lemma PlannedIsThere(fs: Fs, t: Target, p: Path)
    requires Tree(fs) && PlainPaths(fs, t) && Planned(fs, t, p)
    ensures p in fs
  {
    PlanInPlace(fs, t, p);
    if PlansVivado(fs, t, p) {
      PlansVivadoInPlace(fs, t, p);
    } else if PlansYocto(fs, t, p) {
      PlansYoctoInPlace(fs, t, p);
    } else {
      ExistingIsLocated(fs, p);
    }
  }

  /** Whatever lies in the directory of the board support packages is out of reach. */
  lemma BspIsApart(fs: Fs, t: Target, d: Path)
    requires ProperName(t) && ["Yocto", "bsp"] <= d
    ensures Apart(fs, t, d)
  {
    assert ["Yocto", "bsp"][0] == d[0] && ["Yocto", "bsp"][1] == d[1];
  }

  lemma InputDirsAreApart(fs: Fs, t: Target, rd: Reader, d: Path)
    requires ProperName(t) && d in InputDirs(fs, t, rd) && forall l <- NamedLayers(fs, t, rd) :: Apart(fs, t, l)
    ensures Apart(fs, t, d)
  {
    if d !in NamedLayers(fs, t, rd) {
      assert d == BspDir(fs, t) || d in PortCfg(t);
      BspIsApart(fs, t, d);
    }
  }

  /** A path in the directory of the board support packages, reached without links, is intact. */
  lemma BspIsIntact(fs: Fs, t: Target, p: Path)
    requires Tree(fs) && PlainPaths(fs, t) && ProperName(t) && ["Yocto", "bsp"] <= p && Plain(fs, p)
    ensures Intact(fs, t, p)
  {
    assert ["Yocto", "bsp"][0] == p[0] && ["Yocto", "bsp"][1] == p[1];
    OutOfReachStays(fs, t, p);
    if Exists(fs, p) { PlainStays(fs, t, p); }
  }

  /** The inputs stay the same where their directories hold no links and the extra layers lie apart from what
      the clean removes. */
  lemma PlainInputsAreKept(fs: Fs, t: Target, rd: Reader)
    requires Tree(fs) && PlainPaths(fs, t) && ProperName(t) && SkipsXsa(fs, t) && Plain(fs, ["Yocto", "bsp", t.name])
    requires forall d <- InputDirs(fs, t, rd) :: PlainBelow(fs, d)
    requires forall l <- NamedLayers(fs, t, rd) :: Apart(fs, t, l)
    ensures SameInputs(fs, t, rd)
  {
    forall d <- InputDirs(fs, t, rd) ensures DirIntact(fs, t, rd.listing, d) {
      InputDirsAreApart(fs, t, rd, d);
      ApartIsIntact(fs, t, rd.listing, d);
    }
    BspIsIntact(fs, t, ["Yocto", "bsp", t.name]);
    assert BspDir(fs, t) == InputDirs(fs, t, rd)[0];
    VisitsAreNear(fs, BspDir(fs, t), LayerList(fs, t));
    BspIsIntact(fs, t, LayerList(fs, t));
    DeliverableIsIntact(fs, t, Xsa(t));
    FileStays(fs, t, Xsa(t));
    InputsAreSame(fs, t, rd);
  }
}
