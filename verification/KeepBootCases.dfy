/**
 The smallest trees in which 'all' has work to do after a clean although it had none before.
 */
module KeepBootCases {
  import opened Ledger
  import opened FileSystem
  import opened Prune
  import opened Pruned
  import opened Stages
  import opened KeepBoot
  import opened KeepBootPlain
  import opened InputWalk
  import opened KeepBootInputs

  // ---------------------------------------------------------------- a linked XSA

  /** The project directory holds the XSA as a link to another file beside it. */
  predicate LinkedXsa(fs: Fs, t: Target, name: string) {
    && [] in fs && fs[[]].Dir? && ["Vivado"] in fs && fs[["Vivado"]].Dir? && VivPrj(t) in fs && fs[VivPrj(t)].Dir?
    && VivPrj(t) + [name] in fs && fs[VivPrj(t) + [name]].File?
    && Xsa(t) in fs && fs[Xsa(t)] == Link(VivPrj(t) + [name])
  }

  lemma InProject(fs: Fs, t: Target, n: string, links: nat)
    requires ["Vivado"] in fs && fs[["Vivado"]].Dir? && VivPrj(t) in fs && fs[VivPrj(t)].Dir?
    ensures Walk(fs, [], VivPrj(t) + [n], links) == Walk(fs, VivPrj(t), [n], links)
    ensures Visits(fs, VivPrj(t), [n], links) <= Visits(fs, [], VivPrj(t) + [n], links)
  {
    assert VivPrj(t) + [n] == ["Vivado"] + ([t.name] + [n]);
    assert [] + ["Vivado"] == ["Vivado"] && ["Vivado"] + [t.name] == VivPrj(t);
    WalkInto(fs, [], "Vivado", [t.name] + [n], links);
    WalkInto(fs, ["Vivado"], t.name, [n], links);
    VisitsInto(fs, [], "Vivado", [t.name] + [n], links);
    VisitsInto(fs, ["Vivado"], t.name, [n], links);
  }

  /** The XSA is found, by way of the file it points at. */
  lemma XsaIsFound(fs: Fs, t: Target, name: string, links: nat)
    requires links > 0 && LinkedXsa(fs, t, name)
    ensures Walk(fs, [], Xsa(t), links) == Some(VivPrj(t) + [name])
    ensures VivPrj(t) + [name] in Visits(fs, [], Xsa(t), links)
  {
    var n, q := t.bd + "_wrapper.xsa", VivPrj(t) + [name];
    assert Xsa(t) == VivPrj(t) + [n] && [n] == [n] + [] && [name] == [name] + [] && q + [] == q;
    InProject(fs, t, n, links);
    WalkInto(fs, VivPrj(t), n, [], links);
    InProject(fs, t, name, links - 1);
    WalkInto(fs, VivPrj(t), name, [], links - 1);
    VisitsInto(fs, VivPrj(t), name, [], links - 1);
    assert [n][0] == n && [n][1..] == [];
    assert Visits(fs, VivPrj(t), [n], links) == {Xsa(t)} + Visits(fs, [], q + [], links - 1);
  }

  lemma ProjectIsReal(fs: Fs, t: Target)
    requires Tree(fs) && VivPrj(t) in fs && fs[VivPrj(t)].Dir?
    ensures RealDir(fs, VivPrj(t)) == Some(VivPrj(t)) && IsDir(fs, VivPrj(t))
  {
    forall q <- fs | q <= VivPrj(t) ensures !fs[q].Link? {
      if q != VivPrj(t) { AncestorsAreDirs(fs, q, VivPrj(t)); }
    }
    PlainDirIsReal(fs, VivPrj(t));
    PlainResolve(fs, VivPrj(t));
  }

  /** What lies right below a pruned directory and is not to be kept goes itself. */
  lemma UnkeptChildIsDoomed(fs: Fs, root: Path, kept: set<Path>, name: string)
    requires Tree(fs) && root + [name] in fs && fs[root + [name]].File? && root + [name] !in kept
    ensures Doomed(fs, root, Relocated(kept, root, root), root + [name])
  {
    var q := root + [name];
    RelocatedHas(kept, root, root, [name]);
    forall k | k in Relocated(kept, root, root) && root < k <= q ensures k == q { }
    forall p <- fs ensures !(root < p < q) { }
  }

  /** The file the XSA points at goes unless it is a deliverable of its own. */
  lemma PointedAtGoes(fs: Fs, t: Target, name: string)
    requires Tree(fs) && LinkedXsa(fs, t, name) && VivPrj(t) + [name] !in VivKeep(fs, t)
    ensures Gone(Out(fs, t), VivPrj(t) + [name])
  {
    var root, q := VivPrj(t), VivPrj(t) + [name];
    ProjectIsReal(fs, t);
    XsaIsFound(fs, t, name, MAX_LINKS);
    UnkeptChildIsDoomed(fs, root, Existing(fs, VivKeep(fs, t)), name);
    assert root + q[|root|..] == q;
    assert PlansVivado(fs, t, q);
    LocateBelow(fs, root, [name]);
    assert Goes(fs, t, q) && q in Out(fs, t) && q <= q;
  }

  /** So then the XSA is lost, and 'all' has to build it again. */
  lemma LinkedXsaIsLost(fs: Fs, t: Target, name: string, tools: bool, rd: Reader)
    requires Tree(fs) && LinkedXsa(fs, t, name) && VivPrj(t) + [name] !in VivKeep(fs, t)
    ensures IsFile(fs, Xsa(t)) && !Exists(Cleaned(fs, t), Xsa(t)) && !NothingToDo(Cleaned(fs, t), t, tools, rd)
  {
    XsaIsFound(fs, t, name, MAX_LINKS);
    PointedAtGoes(fs, t, name);
    TestsAfter(fs, t, Xsa(t));
    NothingToDoIff(Cleaned(fs, t), t, tools, rd);
  }

  function LinkedTree(t: Target): Fs {
    map[[] := Dir(0), ["Vivado"] := Dir(0), VivPrj(t) := Dir(0),
        Xsa(t) := Link(["Vivado", t.name, "x"]), ["Vivado", t.name, "x"] := File(0, 0)]
  }

  lemma LinkedTreeIsOne(t: Target)
    ensures Tree(LinkedTree(t)) && LinkedXsa(LinkedTree(t), t, "x")
  {
    assert |t.bd + "_wrapper.xsa"| > |"x"|;
    assert Parent(["Vivado", t.name, "x"]) == VivPrj(t) && Parent(Xsa(t)) == VivPrj(t);
    assert Parent(VivPrj(t)) == ["Vivado"] && Parent(["Vivado"]) == [];
    assert VivPrj(t) + ["x"] == ["Vivado", t.name, "x"];
  }

  lemma NotToKeep(fs: Fs, t: Target)
    ensures VivPrj(t) + ["x"] !in VivKeep(fs, t)
  {
    var q := VivPrj(t) + ["x"];
    assert |q| == 3 && |q[2]| == 1;
    forall p <- VivKeep(fs, t) | |p| == 3 ensures |p[2]| > 1 {
      assert p == Xsa(t) || p == Mcs(t) || p == Prm(t);
    }
  }

  /** For every target that only makes a bitstream there is such a tree in which 'all' had nothing to do. */
  lemma LinkedXsaExists(t: Target, tools: bool, rd: Reader) returns (fs: Fs)
    requires !HasSoftware(t) && !t.cfgmem
    ensures Tree(fs) && NothingToDo(fs, t, tools, rd) && !NothingToDo(Cleaned(fs, t), t, tools, rd)
  {
    fs := LinkedTree(t);
    LinkedTreeIsOne(t);
    NotToKeep(fs, t);
    LinkedXsaIsLost(fs, t, "x", tools, rd);
    LinkedTreeHasNoImage(t);
    NothingToDoIff(fs, t, tools, rd);
  }

  lemma LinkedTreeHasNoImage(t: Target)
    ensures !IsFile(LinkedTree(t), DevImage(t))
  {
    LinkedTreeIsOne(t);
    var runs := ["Vivado", t.name, t.name + ".runs"];
    assert |ImplDir(t)| == 4 && |t.name + ".runs"| > |"x"|;
    assert forall p <- LinkedTree(t) :: |p| <= 3;
    assert runs != Xsa(t) by {
      assert runs[2][|runs[2]| - 1] == 's' && Xsa(t)[2][|Xsa(t)[2]| - 1] == 'a';
    }
    NoImage(LinkedTree(t), t);
  }

  lemma NoImage(fs: Fs, t: Target)
    requires Tree(fs) && ImplDir(t) !in fs && ["Vivado", t.name, t.name + ".runs"] !in fs
    requires ["Vivado"] in fs && fs[["Vivado"]].Dir? && VivPrj(t) in fs && fs[VivPrj(t)].Dir?
    ensures !IsFile(fs, DevImage(t))
  {
    var runs, image := ["Vivado", t.name, t.name + ".runs"], DevImage(t);
    forall q <- fs | q <= image ensures !fs[q].Link? {
      if |q| > 2 {
        assert q[..3] == runs;
        if q != runs { AncestorsAreDirs(fs, runs, q); }
      } else {
        assert q == [] || q == ["Vivado"] || q == VivPrj(t);
      }
    }
    PlainResolve(fs, image);
    if image in fs { AncestorsAreDirs(fs, runs, image); }
  }

  // ---------------------------------------------------------------- trees from their leaves

  /** The tree of some paths and the directories they lie in. */
  function Grown(leaves: set<Path>, entry: Path -> Entry): Fs {
    map p | p in (set leaf, k | leaf in leaves && 0 <= k <= |leaf| :: leaf[..k]) :: entry(p)
  }

  lemma GrownIsATree(leaves: set<Path>, entry: Path -> Entry)
    requires leaves != {} && forall a, b :: a in leaves && b in leaves ==> !(a < b)
    requires forall p :: !entry(p).Dir? ==> p in leaves && p != []
    ensures Tree(Grown(leaves, entry))
  {
    var fs := Grown(leaves, entry);
    var some :| some in leaves;
    assert some[..0] == [];
    forall p <- fs | p != [] ensures Parent(p) in fs && fs[Parent(p)].Dir? {
      var leaf, k :| leaf in leaves && 0 <= k <= |leaf| && p == leaf[..k];
      assert Parent(p) == leaf[..k - 1];
      assert Parent(p) < leaf;
    }
  }

  lemma LeafHasGrown(leaves: set<Path>, entry: Path -> Entry, leaf: Path)
    requires leaf in leaves
    ensures leaf in Grown(leaves, entry) && Grown(leaves, entry)[leaf] == entry(leaf)
  {
    assert leaf[..|leaf|] == leaf;
  }

  // ---------------------------------------------------------------- an old boot file

  predicate FileAt(fs: Fs, p: Path, mtime: int) {
    p in fs && fs[p].File? && fs[p].mtime == mtime
  }

  predicate DirAt(fs: Fs, p: Path, mtime: int) {
    p in fs && fs[p].Dir? && fs[p].mtime == mtime
  }

  /** A bare-metal build in which everything is in place, but the XSA is newer than the boot file: the
      workspace was touched after the XSA, and its ELF needed no new boot file. */
  ghost predicate OldBootFile(fs: Fs, t: Target) {
    && FileAt(fs, Xsa(t), 10) && DirAt(fs, VitWs(t), 20) && FileAt(fs, Xpfm(t), 20) && FileAt(fs, AppElf(t), 1)
    && FileAt(fs, BootFile(t), 5) && FileAt(fs, Zip(t.bareZip), 100) && DirAt(fs, ["Vitis", "py"], 0)
    && forall p <- fs :: !fs[p].Link? && fs[p].mtime <= 100
  }

  predicate BareMetalOnly(t: Target) {
    t.baremetal && !t.cfgmem && !t.petalinux && !t.yocto
  }

  lemma PlainFile(fs: Fs, p: Path, mtime: int)
    requires Tree(fs) && NoLinks(fs) && (FileAt(fs, p, mtime) || DirAt(fs, p, mtime))
    ensures Exists(fs, p) && Mtime(fs, p) == mtime && (IsFile(fs, p) <==> fs[p].File?) && (IsDir(fs, p) <==> fs[p].Dir?)
  {
    PlainResolve(fs, p);
  }

  lemma NothingIsNewer(fs: Fs, t: Target, p: Path)
    requires OldBootFile(fs, t) && Tree(fs)
    ensures Mtime(fs, p) <= 100
  {
    PlainResolve(fs, p);
  }

  /** The stages are satisfied with it, the clean removes the workspace, and then they are not. */
  lemma OldBootFileIsRebuilt(fs: Fs, t: Target, rd: Reader)
    requires Tree(fs) && OldBootFile(fs, t) && BareMetalOnly(t) && ProperName(t)
    ensures NothingToDo(fs, t, true, rd) && !NothingToDo(Cleaned(fs, t), t, true, rd)
  {
    PlainFile(fs, Xsa(t), 10);
    PlainFile(fs, VitWs(t), 20);
    PlainFile(fs, Xpfm(t), 20);
    PlainFile(fs, AppElf(t), 1);
    PlainFile(fs, BootFile(t), 5);
    PlainFile(fs, Zip(t.bareZip), 100);
    PlainFile(fs, ["Vitis", "py"], 0);
    forall s <- BareSources(fs, t) ensures Mtime(fs, s) <= 100 { NothingIsNewer(fs, t, s); }
    NothingToDoIff(fs, t, true, rd);
    assert NoLinks(fs) && PlainPaths(fs, t);
    NoOpIffInputsKept(fs, t, true, rd);
  }

  /** There is such a tree. */
  lemma OldBootFileExists(rd: Reader) returns (fs: Fs, t: Target)
    ensures Tree(fs) && NoLinks(fs) && NothingToDo(fs, t, true, rd) && !NothingToDo(Cleaned(fs, t), t, true, rd)
  {
    t := Target("n", Zynq, "n", "b", "a", true, false, false, false, false, None, "z", "z", "z", "z");
    fs := OldBootTree(t);
    assert t.app != t.name + "_platform" by { assert |t.name + "_platform"| > 1; }
    OldBootTreeIsOne(t);
    OldBootTreeHolds(t);
    OldBootFileIsRebuilt(fs, t, rd);
  }

  /** The paths it holds, apart from the directories they lie in. */
  function Leaves(t: Target): set<Path> {
    {Xsa(t), Xpfm(t), AppElf(t), BootFile(t), Zip(t.bareZip), ["Vitis", "py"]}
  }

  function OldEntry(t: Target, p: Path): Entry {
    if p == Xsa(t) then File(10, 0)
    else if p == Xpfm(t) then File(20, 0)
    else if p == AppElf(t) then File(1, 0)
    else if p == BootFile(t) then File(5, 0)
    else if p == Zip(t.bareZip) then File(100, 0)
    else if p == VitWs(t) then Dir(20)
    else Dir(0)
  }

  function OldBootTree(t: Target): Fs {
    Grown(Leaves(t), p => OldEntry(t, p))
  }

  lemma SameStart(a: Path, b: Path)
    ensures a < b && |a| >= 2 ==> a[0] == b[0] && a[1] == b[1] && (|a| > 2 ==> a[2] == b[2])
  {
  }

  lemma LeavesAreApart(t: Target, a: Path, b: Path)
    requires t.app != t.name + "_platform" && a in Leaves(t) && b in Leaves(t)
    ensures !(a < b)
  {
    assert |WsName(t)| > |"boot"|;
    SameStart(a, b);
  }

  lemma OldBootTreeIsOne(t: Target)
    requires t.app != t.name + "_platform"
    ensures Tree(OldBootTree(t))
  {
    assert Xsa(t) in Leaves(t);
    forall a, b | a in Leaves(t) && b in Leaves(t) ensures !(a < b) { LeavesAreApart(t, a, b); }
    GrownIsATree(Leaves(t), p => OldEntry(t, p));
  }

  lemma OldEntries(t: Target)
    requires t.app != t.name + "_platform"
    ensures OldEntry(t, Xsa(t)) == File(10, 0) && OldEntry(t, Xpfm(t)) == File(20, 0) && OldEntry(t, AppElf(t)) == File(1, 0)
    ensures OldEntry(t, BootFile(t)) == File(5, 0) && OldEntry(t, Zip(t.bareZip)) == File(100, 0)
    ensures OldEntry(t, VitWs(t)) == Dir(20) && OldEntry(t, ["Vitis", "py"]) == Dir(0)
  {
    assert |WsName(t)| > |"boot"|;
    assert AppElf(t)[2] != Xpfm(t)[2];
  }

  lemma LeafIsThere(t: Target, leaf: Path)
    requires leaf in Leaves(t)
    ensures leaf in OldBootTree(t) && OldBootTree(t)[leaf] == OldEntry(t, leaf)
  {
    LeafHasGrown(Leaves(t), p => OldEntry(t, p), leaf);
  }

  lemma OldBootTreeHolds(t: Target)
    requires t.app != t.name + "_platform"
    ensures OldBootFile(OldBootTree(t), t)
  {
    OldEntries(t);
    LeafIsThere(t, Xsa(t));
    LeafIsThere(t, Xpfm(t));
    LeafIsThere(t, AppElf(t));
    LeafIsThere(t, BootFile(t));
    LeafIsThere(t, Zip(t.bareZip));
    LeafIsThere(t, ["Vitis", "py"]);
    assert AppElf(t) in Leaves(t) && AppElf(t)[..2] == VitWs(t);
    assert VitWs(t) in OldBootTree(t);
  }

  // ---------------------------------------------------------------- a layer inside the work tree

  /** A stamped Yocto target with an input file in an area the clean takes has its images built again. */
  lemma TakenInputIsMissed(fs: Fs, t: Target, p: Path, tools: bool, rd: Reader)
    requires Tree(fs) && PlainPaths(fs, t) && ProperName(t) && PlainInputs(fs, t, rd)
    requires t.yocto && NothingToDo(fs, t, tools, rd)
    requires IsFile(fs, ["Yocto", "scripts", "build-image.sh"]) && IsFile(fs, YoctoImg(t, ".inputs-sha256"))
    requires Found(fs, InputDirs(fs, t, rd), p) && Takes(fs, t, p)
    ensures !NothingToDo(Cleaned(fs, t), t, tools, rd)
  {
    KeepBootIsANoOpIff(fs, t, tools, rd);
  }

  function Layer(t: Target): Path { ["Yocto", t.name, "meta"] }
  function LayerFile(t: Target): Path { ["Yocto", t.name, "meta", "f"] }
  function OwnList(t: Target): Path { ["Yocto", "bsp", t.name, "bblayers-extra.txt"] }

  function LayerLeaves(t: Target): set<Path> {
    {Xsa(t), ["Yocto", "scripts", "build-image.sh"], Zip(t.yoctoZip), OwnList(t), LayerFile(t)}
    + (set f | f in YoctoFiles(t) :: YoctoImg(t, f))
  }

  function LayerEntry(t: Target, p: Path): Entry {
    if p in LayerLeaves(t) then File(0, 0) else Dir(0)
  }

  function LayerTree(t: Target): Fs {
    Grown(LayerLeaves(t), p => LayerEntry(t, p))
  }

  lemma LayerLeavesAreApart(t: Target, a: Path, b: Path)
    requires ProperName(t) && a in LayerLeaves(t) && b in LayerLeaves(t)
    ensures !(a < b)
  {
    SameStart(a, b);
  }

  lemma LayerTreeIsOne(t: Target)
    requires ProperName(t)
    ensures Tree(LayerTree(t)) && NoLinks(LayerTree(t))
    ensures forall p <- LayerTree(t) :: LayerTree(t)[p] == if p in LayerLeaves(t) then File(0, 0) else Dir(0)
  {
    assert Xsa(t) in LayerLeaves(t);
    forall a, b | a in LayerLeaves(t) && b in LayerLeaves(t) ensures !(a < b) { LayerLeavesAreApart(t, a, b); }
    GrownIsATree(LayerLeaves(t), p => LayerEntry(t, p));
  }

  lemma LayerLeafIsThere(t: Target, leaf: Path)
    requires ProperName(t) && leaf in LayerLeaves(t)
    ensures IsFile(LayerTree(t), leaf) && leaf in LayerTree(t) && LayerTree(t)[leaf].File?
    ensures HashAt(LayerTree(t), leaf) == 0
  {
    LayerTreeIsOne(t);
    LeafHasGrown(LayerLeaves(t), p => LayerEntry(t, p), leaf);
    PlainResolve(LayerTree(t), leaf);
  }

  lemma NothingIsDated(t: Target, p: Path)
    requires ProperName(t)
    ensures Mtime(LayerTree(t), p) == 0
  {
    LayerTreeIsOne(t);
    PlainResolve(LayerTree(t), p);
  }

  predicate YoctoOnly(t: Target) {
    t.yocto && !t.baremetal && !t.cfgmem && !t.petalinux && t.portcfg.None?
  }

  lemma DirIsThere(t: Target, d: Path, leaf: Path)
    requires ProperName(t) && leaf in LayerLeaves(t) && d < leaf
    ensures d in LayerTree(t) && LayerTree(t)[d].Dir? && IsDir(LayerTree(t), d)
  {
    LayerTreeIsOne(t);
    LayerLeafIsThere(t, leaf);
    AncestorsAreDirs(LayerTree(t), d, leaf);
    PlainResolve(LayerTree(t), d);
  }

  /** The list names the layer. */
  lemma LayerIsListed(t: Target, rd: Reader)
    requires ProperName(t) && t.portcfg.None? && rd.layers(0) == [Layer(t)]
    ensures InputDirs(LayerTree(t), t, rd) == [["Yocto", "bsp", t.name], Layer(t)]
  {
    DirIsThere(t, ["Yocto", "bsp", t.name], OwnList(t));
    LayerLeafIsThere(t, OwnList(t));
    assert LayerList(LayerTree(t), t) == OwnList(t);
    assert NamedLayers(LayerTree(t), t, rd) == [Layer(t)] && PortCfg(t) == [];
  }

  lemma LayerHasAFile(t: Target)
    requires ProperName(t)
    ensures Layer(t) in LayerTree(t) && LayerTree(t)[Layer(t)].Dir? && InputBelow(LayerTree(t), Layer(t), LayerFile(t))
  {
    DirIsThere(t, Layer(t), LayerFile(t));
    LayerLeafIsThere(t, LayerFile(t));
    assert LayerFile(t)[|LayerFile(t)| - 1] == "f";
  }

  lemma LayerIsAnInput(t: Target, rd: Reader)
    requires ProperName(t) && t.portcfg.None? && rd.layers(0) == [Layer(t)] && Faithful(rd.listing)
    ensures PlainInputs(LayerTree(t), t, rd) && Found(LayerTree(t), InputDirs(LayerTree(t), t, rd), LayerFile(t))
  {
    LayerTreeIsOne(t);
    LayerIsListed(t, rd);
    LayerHasAFile(t);
    assert Layer(t) in InputDirs(LayerTree(t), t, rd);
  }

  lemma LayerTreeIsBuilt(t: Target)
    requires ProperName(t)
    ensures YoctoBuilt(LayerTree(t), t)
  {
    forall f <- YoctoProducts(t) ensures IsFile(LayerTree(t), YoctoImg(t, f)) {
      assert f in YoctoFiles(t);
      LayerLeafIsThere(t, YoctoImg(t, f));
    }
  }

  lemma LayerIsTaken(t: Target)
    requires ProperName(t)
    ensures Takes(LayerTree(t), t, LayerFile(t))
  {
    LayerTreeIsBuilt(t);
    assert LayerFile(t)[2] != ["Yocto", t.name, "images"][2];
    assert TakesYocto(LayerTree(t), t, LayerFile(t));
  }

  lemma LayerTreeIsStamped(t: Target, rd: Reader)
    requires ProperName(t) && rd.stamp(0) == Inputs(LayerTree(t), t, rd)
    ensures SkipsYocto(LayerTree(t), t, rd) && IsFile(LayerTree(t), YoctoImg(t, ".inputs-sha256"))
    ensures IsFile(LayerTree(t), ["Yocto", "scripts", "build-image.sh"])
  {
    var fs := LayerTree(t);
    LayerLeafIsThere(t, ["Yocto", "scripts", "build-image.sh"]);
    assert ".inputs-sha256" in YoctoFiles(t);
    LayerLeafIsThere(t, YoctoImg(t, ".inputs-sha256"));
    LayerTreeIsBuilt(t);
    Yocto.UpToDateIff(Inputs(fs, t, rd), Inputs(fs, t, rd), Xsa(t));
  }

  lemma LayerTreeIsPacked(t: Target)
    requires ProperName(t) && YoctoOnly(t)
    ensures SkipsXsa(LayerTree(t), t) && SkipsPackage(LayerTree(t), t)
  {
    LayerLeafIsThere(t, Xsa(t));
    LayerLeafIsThere(t, Zip(t.yoctoZip));
    forall p ensures Mtime(LayerTree(t), p) == 0 { NothingIsDated(t, p); }
  }

  lemma LayerTreeIsDone(t: Target, tools: bool, rd: Reader)
    requires ProperName(t) && YoctoOnly(t) && rd.stamp(0) == Inputs(LayerTree(t), t, rd)
    ensures NothingToDo(LayerTree(t), t, tools, rd)
    ensures IsFile(LayerTree(t), ["Yocto", "scripts", "build-image.sh"]) && IsFile(LayerTree(t), YoctoImg(t, ".inputs-sha256"))
  {
    LayerTreeIsStamped(t, rd);
    LayerTreeIsPacked(t);
    NothingToDoIff(LayerTree(t), t, tools, rd);
  }

  /** For every Yocto target, whatever the order of listings, there is a link-free tree with an extra layer inside
      the work tree in which 'all' had nothing to do, and has after the clean. */
  lemma LayerInsideIsLost(t: Target, tools: bool, listing: set<string> -> seq<string>) returns (fs: Fs, rd: Reader)
    requires ProperName(t) && YoctoOnly(t) && Faithful(listing)
    ensures Tree(fs) && NoLinks(fs) && NothingToDo(fs, t, tools, rd) && !NothingToDo(Cleaned(fs, t), t, tools, rd)
  {
    fs := LayerTree(t);
    LayerTreeIsOne(t);
    var unread := Reader(_ => map[], _ => [Layer(t)], listing);
    var stamp := Inputs(fs, t, unread);
    rd := Reader(_ => stamp, _ => [Layer(t)], listing);
    assert Inputs(fs, t, rd) == stamp;
    LayerTreeIsDone(t, tools, rd);
    LayerIsAnInput(t, rd);
    LayerIsTaken(t);
    TakenInputIsMissed(fs, t, LayerFile(t), tools, rd);
  }
}
