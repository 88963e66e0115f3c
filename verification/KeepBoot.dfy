/**
 'clean --keep-boot': what it removes for a target, and exactly when 'all' still has nothing to do
 afterwards, whatever links the tree holds.
 */
module KeepBoot {
  import opened Ledger
  import opened FileSystem
  import opened Prune
  import opened Stages

  // ---------------------------------------------------------------- what the clean removes

  /** Fixed-part cores, each a directory holding a script of its own name. */
  function Cores(fs: Fs): set<string> {
    var at := Resolve(fs, ["HLS"]);
    if at.None? then {}
    else set c | c in Names(fs, at.value) && IsDir(fs, ["HLS", c]) && IsFile(fs, ["HLS", c, c + ".tcl"])
  }

  function IpOutputs(fs: Fs, t: Target): set<Path> {
    if IsFile(fs, ["Vivado", "ip", "get_part.tcl"]) then {["Vivado", "ip", "build", t.name]}
    else if IsDir(fs, ["HLS"]) then set c | c in Cores(fs) :: ["HLS", c, t.name]
    else {}
  }

  /** The image's small companions stay with it. */
  function Companions(fs: Fs, t: Target): set<Path> {
    var at := Resolve(fs, ImplDir(t));
    if at.None? then {}
    else set n | n in Names(fs, at.value) && (EndsWith(n, ".ltx") || EndsWith(n, ".mmi")) :: ImplDir(t) + [n]
  }

  function VivKeep(fs: Fs, t: Target): set<Path> {
    {Xsa(t), DevImage(t), Mcs(t), Prm(t)} + Companions(fs, t)
  }

  /** The Vivado area is touched once there is an XSA. */
  predicate VivadoDone(fs: Fs, t: Target) {
    (IsDir(fs, VivPrj(t)) || exists q <- IpOutputs(fs, t) :: Exists(fs, q)) && IsFile(fs, Xsa(t))
  }

  ghost predicate PlansVivado(fs: Fs, t: Target, p: Path) {
    VivadoDone(fs, t) && Returned(fs, VivPrj(t), Existing(fs, VivKeep(fs, t)), p)
  }

  predicate PlansIp(fs: Fs, t: Target, p: Path) {
    VivadoDone(fs, t) && p in IpOutputs(fs, t) && Exists(fs, p)
  }

  predicate PlansWorkspace(fs: Fs, t: Target, p: Path) {
    p == VitWs(t) && Exists(fs, p) && IsFile(fs, BootFile(t))
  }

  function PetlBig(t: Target): set<Path> {
    {["PetaLinux", t.name, "build"], ["PetaLinux", t.name, "components"]}
  }

  predicate PlansPetalinux(fs: Fs, t: Target, p: Path) {
    p in PetlBig(t) && Exists(fs, p) && PetalinuxBuilt(fs, t)
  }

  function YoctoKeep(t: Target): set<Path> {
    {["Yocto", t.name, "images"]}
  }

  ghost predicate PlansYocto(fs: Fs, t: Target, p: Path) {
    && IsDir(fs, YoctoWork(t)) && YoctoBuilt(fs, t)
    && Returned(fs, YoctoWork(t), Existing(fs, YoctoKeep(t)), p)
  }

  ghost predicate Planned(fs: Fs, t: Target, p: Path) {
    PlansVivado(fs, t, p) || PlansIp(fs, t, p) || PlansWorkspace(fs, t, p) || PlansPetalinux(fs, t, p) || PlansYocto(fs, t, p)
  }

  /** The entry `e` is named by a planned path. */
  ghost predicate Goes(fs: Fs, t: Target, e: Path) {
    exists p :: Planned(fs, t, p) && Locate(fs, p) == Some(e)
  }

  ghost function Out(fs: Fs, t: Target): iset<Path> {
    iset e | Goes(fs, t, e)
  }

  ghost function Cleaned(fs: Fs, t: Target): Fs {
    Without(fs, Out(fs, t))
  }

  /** Nothing on the way to `p` goes. */
  ghost predicate Stays(fs: Fs, t: Target, p: Path) {
    Safe(fs, Out(fs, t), p)
  }

  /** If `p` exists, nothing on the way to it goes. */
  ghost predicate Intact(fs: Fs, t: Target, p: Path) {
    Exists(fs, p) ==> Stays(fs, t, p)
  }

  /** What the tests see of a path afterwards. */
  lemma TestsAfter(fs: Fs, t: Target, p: Path)
    ensures var after := Cleaned(fs, t);
            && (Exists(after, p) <==> Exists(fs, p) && Stays(fs, t, p))
            && (IsFile(after, p) <==> IsFile(fs, p) && Stays(fs, t, p))
            && (IsDir(after, p) <==> IsDir(fs, p) && Stays(fs, t, p))
            && (Exists(after, p) ==> Mtime(after, p) == Mtime(fs, p) && HashAt(after, p) == HashAt(fs, p))
  {
    TestsSurvive(fs, Out(fs, t), p);
    WalkEndsHere(Cleaned(fs, t), [], p, MAX_LINKS);
  }

  // ---------------------------------------------------------------- the standalone stage

  lemma {:induction false} EndIsVisited(fs: Fs, done: Path, rest: Path, name: string, links: nat)
    requires Tree(fs) && Walk(fs, done, rest, links).Some?
    requires Walk(fs, done, rest, links).value + [name] in fs
    ensures Walk(fs, done, rest, links).value + [name] in Visits(fs, done, rest + [name], links)
    decreases links, |rest|
  {
    if rest == [] {
      assert rest + [name] == [name] && [name][0] == name;
    } else {
      var next, more := done + [rest[0]], rest[1..];
      assert rest == [rest[0]] + more && (rest + [name])[1..] == more + [name] && (rest + [name])[0] == rest[0];
      WalkInto(fs, done, rest[0], more, links);
      match fs[next]
      case Link(to) =>
        EndIsVisited(fs, [], to + more, name, links - 1);
        assert (to + more) + [name] == to + (more + [name]);
      case Dir(_) => EndIsVisited(fs, next, more, name, links);
      case File(_, _) => NothingInAFile(fs, next, name);
    }
  }

  lemma LocatedIsVisited(fs: Fs, p: Path)
    requires Tree(fs) && p != [] && Exists(fs, p)
    ensures Locate(fs, p).Some? && Locate(fs, p).value in Visits(fs, [], p, MAX_LINKS)
  {
    var above, name := Parent(p), p[|p| - 1];
    assert above + [name] == p;
    ExistingIsLocated(fs, p);
    EndIsVisited(fs, [], above, name, MAX_LINKS);
  }

  /** A path whose own entry goes does not stay. */
  lemma GoingDoesNotStay(fs: Fs, t: Target, p: Path)
    requires Tree(fs) && p != [] && Exists(fs, p) && Planned(fs, t, p)
    ensures !Stays(fs, t, p)
  {
    LocatedIsVisited(fs, p);
    var e := Locate(fs, p).value;
    assert Goes(fs, t, e);
    assert Gone(Out(fs, t), e) by { assert e in Out(fs, t) && e <= e; }
  }

  /** The boot file of a workspace that goes is not older than the XSA. */
  predicate BootNotOlder(fs: Fs, t: Target) {
    Exists(fs, VitWs(t)) ==> Mtime(fs, BootFile(t)) >= Mtime(fs, Xsa(t))
  }

  ghost predicate StandaloneStays(fs: Fs, t: Target) {
    VitisFlow(fs) && Stays(fs, t, ["Vitis", "py"]) ==> Stays(fs, t, BootFile(t)) && BootNotOlder(fs, t)
  }

  /** After the clean the boot file is compared with the XSA instead of the ELF. */
  lemma StandaloneAfter(fs: Fs, t: Target, tools: bool)
    requires Tree(fs) && t.baremetal && SkipsXsa(fs, t) && SkipsStandalone(fs, t, tools) && Stays(fs, t, Xsa(t))
    ensures SkipsStandalone(Cleaned(fs, t), t, tools) <==> StandaloneStays(fs, t)
  {
    TestsAfter(fs, t, ["Vitis", "py"]);
    TestsAfter(fs, t, BootFile(t));
    TestsAfter(fs, t, Xsa(t));
    TestsAfter(fs, t, VitWs(t));
    if VitisFlow(fs) && Exists(fs, VitWs(t)) { GoingDoesNotStay(fs, t, VitWs(t)); }
  }

  // ---------------------------------------------------------------- configuration memory and PetaLinux

  ghost predicate CfgmemStays(fs: Fs, t: Target) {
    var tcl := ["Vivado", "scripts", "cfgmem.tcl"];
    IsFile(fs, tcl) && Stays(fs, t, tcl) ==> Stays(fs, t, CfgmemSrc(t)) && Stays(fs, t, Mcs(t))
  }

  lemma CfgmemAfter(fs: Fs, t: Target, tools: bool)
    requires Tree(fs) && t.cfgmem && SkipsXsa(fs, t) && SkipsCfgmem(fs, t, tools) && Stays(fs, t, Xsa(t))
    requires t.baremetal ==> SkipsStandalone(Cleaned(fs, t), t, tools)
    ensures SkipsCfgmem(Cleaned(fs, t), t, tools) <==> CfgmemStays(fs, t)
  {
    TestsAfter(fs, t, ["Vivado", "scripts", "cfgmem.tcl"]);
    TestsAfter(fs, t, Xsa(t));
    TestsAfter(fs, t, Mcs(t));
    TestsAfter(fs, t, CfgmemSrc(t));
  }

  ghost predicate PetalinuxStays(fs: Fs, t: Target) {
    || (IsFile(fs, PetlImg(t, "BOOT.BIN")) && Stays(fs, t, PetlImg(t, "BOOT.BIN")))
    || (IsFile(fs, PetlImg(t, "boot.mcs")) && Stays(fs, t, PetlImg(t, "boot.mcs")))
  }

  lemma PetalinuxAfter(fs: Fs, t: Target)
    requires t.petalinux
    ensures SkipsPetalinux(Cleaned(fs, t), t) <==> PetalinuxStays(fs, t)
  {
    TestsAfter(fs, t, PetlImg(t, "BOOT.BIN"));
    TestsAfter(fs, t, PetlImg(t, "boot.mcs"));
  }

  // ---------------------------------------------------------------- the Yocto inputs

  /** The entries that walking input directories looks at. */
  function WalkEntries(fs: Fs, listing: set<string> -> seq<string>, pending: seq<Path>, seen: set<Path>): set<Path>
    decreases Dirs(fs) - seen, |pending|
  {
    if pending == [] then {}
    else
      var d, rest := pending[0], pending[1..];
      var at := Resolve(fs, d);
      if at.None? then WalkEntries(fs, listing, rest, seen)
      else
        Visits(fs, [], d, MAX_LINKS)
        + if at.value !in fs || !fs[at.value].Dir? || at.value in seen then WalkEntries(fs, listing, rest, seen)
          else
            var names := listing(Names(fs, at.value));
            assert at.value in Dirs(fs) - seen && at.value !in Dirs(fs) - (seen + {at.value});
            Children(fs, at.value) + EntriesOf(fs, d, names)
            + WalkEntries(fs, listing, SubDirs(fs, d, names) + rest, seen + {at.value})
  }

  /** What looking at each name of a directory visits, where there is something. */
  function EntriesOf(fs: Fs, d: Path, names: seq<string>): set<Path> {
    set n, v | n in names && Exists(fs, d + [n]) && v in Visits(fs, [], d + [n], MAX_LINKS) :: v
  }

  lemma {:induction false} SubDirsAfter(fs: Fs, out: iset<Path>, d: Path, names: seq<string>)
    requires Spares(out, EntriesOf(fs, d, names))
    ensures SubDirs(Without(fs, out), d, names) == SubDirs(fs, d, names)
    decreases names
  {
    if names != [] {
      NameAfter(fs, out, d, names, names[0]);
      forall v <- EntriesOf(fs, d, names[1..]) ensures v in EntriesOf(fs, d, names) {
        var n :| n in names[1..] && Exists(fs, d + [n]) && v in Visits(fs, [], d + [n], MAX_LINKS);
        assert n in names;
      }
      SubDirsAfter(fs, out, d, names[1..]);
    }
  }

  lemma NameAfter(fs: Fs, out: iset<Path>, d: Path, names: seq<string>, n: string)
    requires Spares(out, EntriesOf(fs, d, names)) && n in names
    ensures IsDir(Without(fs, out), d + [n]) == IsDir(fs, d + [n]) && IsFile(Without(fs, out), d + [n]) == IsFile(fs, d + [n])
  {
    TestsSurvive(fs, out, d + [n]);
    if Exists(fs, d + [n]) {
      forall v <- Visits(fs, [], d + [n], MAX_LINKS) ensures v in EntriesOf(fs, d, names) { }
    }
  }

  lemma FilesAfter(fs: Fs, out: iset<Path>, d: Path, names: seq<string>)
    requires Spares(out, EntriesOf(fs, d, names))
    ensures FilesOf(Without(fs, out), d, names) == FilesOf(fs, d, names)
  {
    forall n <- names ensures IsFile(Without(fs, out), d + [n]) == IsFile(fs, d + [n]) { NameAfter(fs, out, d, names, n); }
  }

  lemma NamesAfter(fs: Fs, out: iset<Path>, at: Path)
    requires Spares(out, Children(fs, at))
    ensures Names(Without(fs, out), at) == Names(fs, at)
  {
    assert Children(Without(fs, out), at) == Children(fs, at);
  }

  /** A walk that looks at nothing removed finds the same files afterwards. */
  lemma {:induction false} WalkAfter(fs: Fs, out: iset<Path>, listing: set<string> -> seq<string>, pending: seq<Path>,
                                     seen: set<Path>)
    requires Spares(out, WalkEntries(fs, listing, pending, seen))
    ensures WalkFiles(Without(fs, out), listing, pending, seen) == WalkFiles(fs, listing, pending, seen)
    decreases Dirs(fs) - seen, |pending|
  {
    if pending != [] {
      var d, rest := pending[0], pending[1..];
      var at := Resolve(fs, d);
      WalkSurvives(fs, out, [], d, MAX_LINKS);
      if at.None? {
        WalkAfter(fs, out, listing, rest, seen);
      } else {
        WalkEndsHere(Without(fs, out), [], d, MAX_LINKS);
        assert Resolve(Without(fs, out), d) == at;
        if at.value !in fs || !fs[at.value].Dir? || at.value in seen {
          WalkAfter(fs, out, listing, rest, seen);
        } else {
          var names := listing(Names(fs, at.value));
          NamesAfter(fs, out, at.value);
          SubDirsAfter(fs, out, d, names);
          FilesAfter(fs, out, d, names);
          assert at.value in Dirs(fs) - seen && at.value !in Dirs(fs) - (seen + {at.value});
          WalkAfter(fs, out, listing, SubDirs(fs, d, names) + rest, seen + {at.value});
        }
      }
    }
  }

  ghost predicate DirIntact(fs: Fs, t: Target, listing: set<string> -> seq<string>, d: Path) {
    Spares(Out(fs, t), WalkEntries(fs, listing, [d], {}))
  }

  /** No input directory, and nothing the walks of them look at, goes. In particular no extra layer lies
      where the clean removes. */
  ghost predicate InputsIntact(fs: Fs, t: Target, rd: Reader) {
    && Intact(fs, t, ["Yocto", "bsp", t.name]) && Intact(fs, t, LayerList(fs, t))
    && forall d <- InputDirs(fs, t, rd) :: DirIntact(fs, t, rd.listing, d)
  }

  lemma {:induction false} InputFilesAfter(fs: Fs, t: Target, dirs: seq<Path>, listing: set<string> -> seq<string>)
    requires forall d <- dirs :: DirIntact(fs, t, listing, d)
    ensures InputFiles(Cleaned(fs, t), dirs, listing) == InputFiles(fs, dirs, listing)
    decreases dirs
  {
    if dirs != [] {
      assert DirIntact(fs, t, listing, dirs[0]);
      WalkAfter(fs, Out(fs, t), listing, [dirs[0]], {});
      forall d <- dirs[1..] ensures DirIntact(fs, t, listing, d) { assert d in dirs; }
      InputFilesAfter(fs, t, dirs[1..], listing);
    }
  }

  lemma InputDirsAfter(fs: Fs, t: Target, rd: Reader)
    requires Intact(fs, t, ["Yocto", "bsp", t.name]) && Intact(fs, t, LayerList(fs, t))
    ensures InputDirs(Cleaned(fs, t), t, rd) == InputDirs(fs, t, rd)
  {
    TestsAfter(fs, t, ["Yocto", "bsp", t.name]);
    TestsAfter(fs, t, LayerList(fs, t));
  }

  /** The files found exist. */
  lemma {:induction false} FoundExist(fs: Fs, listing: set<string> -> seq<string>, pending: seq<Path>, seen: set<Path>)
    ensures forall p <- WalkFiles(fs, listing, pending, seen) :: IsFile(fs, p)
    decreases Dirs(fs) - seen, |pending|
  {
    if pending != [] {
      var d, rest := pending[0], pending[1..];
      var at := Resolve(fs, d);
      if at.None? || at.value !in fs || !fs[at.value].Dir? || at.value in seen {
        FoundExist(fs, listing, rest, seen);
      } else {
        var names := listing(Names(fs, at.value));
        assert at.value in Dirs(fs) - seen && at.value !in Dirs(fs) - (seen + {at.value});
        FoundExist(fs, listing, SubDirs(fs, d, names) + rest, seen + {at.value});
      }
    }
  }

  lemma {:induction false} InputFilesExist(fs: Fs, dirs: seq<Path>, listing: set<string> -> seq<string>)
    ensures forall p <- InputFiles(fs, dirs, listing) :: IsFile(fs, p)
    decreases dirs
  {
    if dirs != [] {
      FoundExist(fs, listing, [dirs[0]], {});
      InputFilesExist(fs, dirs[1..], listing);
    }
  }

  /** The Yocto inputs and their hashes are unchanged. */
  lemma InputsAreSame(fs: Fs, t: Target, rd: Reader)
    requires InputsIntact(fs, t, rd) && Stays(fs, t, Xsa(t))
    ensures Inputs(Cleaned(fs, t), t, rd) == Inputs(fs, t, rd)
  {
    var after := Cleaned(fs, t);
    InputDirsAfter(fs, t, rd);
    InputFilesAfter(fs, t, InputDirs(fs, t, rd), rd.listing);
    InputFilesExist(after, InputDirs(fs, t, rd), rd.listing);
    TestsAfter(fs, t, Xsa(t));
    forall p <- Inputs(after, t, rd) ensures HashAt(after, p) == HashAt(fs, p) { TestsAfter(fs, t, p); }
  }

  // ---------------------------------------------------------------- the Yocto stage

  /** The walks find what they found before. */
  ghost predicate SameInputs(fs: Fs, t: Target, rd: Reader) {
    Inputs(Cleaned(fs, t), t, rd) == Inputs(fs, t, rd)
  }

  ghost predicate StampStays(fs: Fs, t: Target) {
    IsFile(fs, YoctoImg(t, ".inputs-sha256")) && Stays(fs, t, YoctoImg(t, ".inputs-sha256"))
  }

  ghost predicate YoctoStays(fs: Fs, t: Target, rd: Reader) {
    var script := ["Yocto", "scripts", "build-image.sh"];
    IsFile(fs, script) && Stays(fs, t, script) ==>
      (forall f <- YoctoProducts(t) :: Stays(fs, t, YoctoImg(t, f))) && (StampStays(fs, t) ==> SameInputs(fs, t, rd))
  }

  /** Against a stamp that the inputs agreed with, they still agree exactly when they are the same. */
  lemma SameOrChanged(stamp: map<Path, nat>, was: map<Path, nat>, now: map<Path, nat>, xsa: Path)
    requires Yocto.UpToDate(stamp, was, xsa) && xsa in was && xsa in now && was[xsa] == now[xsa]
    ensures Yocto.UpToDate(stamp, now, xsa) <==> now == was
  {
    Yocto.UpToDateIff(stamp, was, xsa);
    Yocto.UpToDateIff(stamp, now, xsa);
    assert now == (now - {xsa})[xsa := now[xsa]] && was == (was - {xsa})[xsa := was[xsa]];
  }

  lemma YoctoAfter(fs: Fs, t: Target, rd: Reader)
    requires t.yocto && SkipsXsa(fs, t) && SkipsYocto(fs, t, rd) && Stays(fs, t, Xsa(t))
    ensures SkipsYocto(Cleaned(fs, t), t, rd) <==> YoctoStays(fs, t, rd)
  {
    TestsAfter(fs, t, ["Yocto", "scripts", "build-image.sh"]);
    forall f <- YoctoProducts(t)
      ensures IsFile(Cleaned(fs, t), YoctoImg(t, f)) <==> IsFile(fs, YoctoImg(t, f)) && Stays(fs, t, YoctoImg(t, f))
    {
      TestsAfter(fs, t, YoctoImg(t, f));
    }
    TestsAfter(fs, t, YoctoImg(t, ".inputs-sha256"));
    TestsAfter(fs, t, Xsa(t));
    if ReadStamp(fs, t, rd).Some? && SkipsYoctoByStamp(fs, t, rd) {
      SameOrChanged(ReadStamp(fs, t, rd).value, Inputs(fs, t, rd), Inputs(Cleaned(fs, t), t, rd), Xsa(t));
    }
  }

  predicate SkipsYoctoByStamp(fs: Fs, t: Target, rd: Reader)
    requires ReadStamp(fs, t, rd).Some?
  {
    Yocto.UpToDate(ReadStamp(fs, t, rd).value, Inputs(fs, t, rd), Xsa(t))
  }

  // ---------------------------------------------------------------- packaging

  /** A zip stays current exactly when it stays: artifacts that go are no reason to write it again. */
  lemma ZipAfter(fs: Fs, t: Target, zip: Path, sources: set<Path>, left: set<Path>)
    requires ZipCurrent(fs, zip, sources) && left <= sources
    requires forall s <- sources :: s !in left ==> IsFile(fs, s)
    ensures ZipCurrent(Cleaned(fs, t), zip, left) <==> Stays(fs, t, zip)
  {
    TestsAfter(fs, t, zip);
    forall s <- sources
      ensures IsFile(Cleaned(fs, t), s) ==> IsFile(fs, s) && Mtime(Cleaned(fs, t), s) == Mtime(fs, s)
    {
      TestsAfter(fs, t, s);
    }
    if s :| s in sources && !IsFile(fs, s) { assert s in left; }
  }

  lemma BareSourcesAfter(fs: Fs, t: Target)
    ensures BareSources(Cleaned(fs, t), t) <= BareSources(fs, t)
    ensures forall s <- BareSources(fs, t) :: IsFile(fs, s)
  {
    TestsAfter(fs, t, BootFile(t));
    TestsSurvive(fs, Out(fs, t), VitBoot(t));
    forall s <- BareSources(Cleaned(fs, t), t) ensures s in BareSources(fs, t) {
      TestsAfter(fs, t, s);
    }
  }

  lemma BitSourcesAfter(fs: Fs, t: Target)
    ensures BitSources(Cleaned(fs, t), t) <= BitSources(fs, t)
    ensures forall s <- BitSources(fs, t) :: s !in BitSources(Cleaned(fs, t), t) ==> IsFile(fs, s)
  {
    TestsAfter(fs, t, Mcs(t));
    TestsAfter(fs, t, Prm(t));
  }

  ghost predicate PackageStays(fs: Fs, t: Target) {
    && (t.baremetal && VitisFlow(fs) && Stays(fs, t, ["Vitis", "py"]) ==> Stays(fs, t, Zip(t.bareZip)))
    && (t.petalinux ==> Stays(fs, t, Zip(t.petlZip))) && (t.yocto ==> Stays(fs, t, Zip(t.yoctoZip)))
    && (!HasSoftware(t) && IsFile(fs, DevImage(t)) && Stays(fs, t, DevImage(t)) ==> Stays(fs, t, Zip(t.bitZip)))
  }

  lemma PackageAfter(fs: Fs, t: Target)
    requires SkipsPackage(fs, t)
    ensures SkipsPackage(Cleaned(fs, t), t) <==> PackageStays(fs, t)
  {
    TestsAfter(fs, t, ["Vitis", "py"]);
    TestsAfter(fs, t, DevImage(t));
    if t.baremetal && VitisFlow(fs) {
      BareSourcesAfter(fs, t);
      ZipAfter(fs, t, Zip(t.bareZip), BareSources(fs, t), BareSources(Cleaned(fs, t), t));
    }
    if t.petalinux { ZipAfter(fs, t, Zip(t.petlZip), PetlSources(t), PetlSources(t)); }
    if t.yocto { ZipAfter(fs, t, Zip(t.yoctoZip), YoctoSources(t), YoctoSources(t)); }
    if !HasSoftware(t) && IsFile(fs, DevImage(t)) {
      BitSourcesAfter(fs, t);
      ZipAfter(fs, t, Zip(t.bitZip), BitSources(fs, t), BitSources(Cleaned(fs, t), t));
    }
  }

  // ---------------------------------------------------------------- all stages

  /** Each path a stage still depends on stays, the Yocto inputs are the same, and the boot file is not older
      than the XSA. */
  ghost predicate StillDone(fs: Fs, t: Target, rd: Reader) {
    && Stays(fs, t, Xsa(t)) && (t.baremetal ==> StandaloneStays(fs, t)) && (t.cfgmem ==> CfgmemStays(fs, t))
    && (t.petalinux ==> PetalinuxStays(fs, t)) && (t.yocto ==> YoctoStays(fs, t, rd)) && PackageStays(fs, t)
  }

  /** Cleaning a finished target, whatever links its tree holds: if 'all' had nothing to do, it still has
      nothing to do exactly when no entry on the way to a path that a stage depends on goes, no Yocto input
      changes, and the boot file of a workspace that goes is not older than the XSA. */
  lemma KeepBootKeepsNothingToDo(fs: Fs, t: Target, tools: bool, rd: Reader)
    requires Tree(fs) && NothingToDo(fs, t, tools, rd)
    ensures NothingToDo(Cleaned(fs, t), t, tools, rd) <==> StillDone(fs, t, rd)
  {
    NothingToDoIff(fs, t, tools, rd);
    NothingToDoIff(Cleaned(fs, t), t, tools, rd);
    TestsAfter(fs, t, Xsa(t));
    if Stays(fs, t, Xsa(t)) {
      PackageAfter(fs, t);
      if t.petalinux { PetalinuxAfter(fs, t); }
      if t.yocto { YoctoAfter(fs, t, rd); }
      if t.baremetal { StandaloneAfter(fs, t, tools); }
      if t.cfgmem && (t.baremetal ==> StandaloneStays(fs, t)) { CfgmemAfter(fs, t, tools); }
    }
  }
}
