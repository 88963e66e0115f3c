/**
 Which files the clean takes, by the areas it clears, and when it takes a Yocto input: an extra layer may lie
 inside one of them.
 */
module KeepBootInputs {
  import opened Ledger
  import opened FileSystem
  import opened Prune
  import opened Pruned
  import opened Stages
  import opened InputWalk
  import opened KeepBoot
  import opened KeepBootPlain

  // ---------------------------------------------------------------- the areas

  predicate TakesVivado(fs: Fs, t: Target, p: Path) {
    VivadoDone(fs, t) && VivPrj(t) < p && !Covered(Existing(fs, VivKeep(fs, t)), VivPrj(t), p)
  }

  predicate TakesIp(fs: Fs, t: Target, p: Path) {
    VivadoDone(fs, t) && exists q <- IpOutputs(fs, t) :: Exists(fs, q) && q <= p
  }

  predicate TakesWorkspace(fs: Fs, t: Target, p: Path) {
    Exists(fs, VitWs(t)) && IsFile(fs, BootFile(t)) && VitWs(t) <= p
  }

  predicate TakesPetalinux(fs: Fs, t: Target, p: Path) {
    PetalinuxBuilt(fs, t) && exists q <- PetlBig(t) :: Exists(fs, q) && q <= p
  }

  predicate TakesYocto(fs: Fs, t: Target, p: Path) {
    YoctoBuilt(fs, t) && YoctoWork(t) < p && !(["Yocto", t.name, "images"] <= p)
  }

  /** The file lies in an area that is cleared and is not among what is kept there. */
  predicate Takes(fs: Fs, t: Target, p: Path) {
    TakesVivado(fs, t, p) || TakesIp(fs, t, p) || TakesWorkspace(fs, t, p) || TakesPetalinux(fs, t, p)
    || TakesYocto(fs, t, p)
  }

  /** A file below a pruned directory goes exactly when no kept path covers it. */
  lemma PrunedFile(fs: Fs, root: Path, keep: set<Path>, p: Path)
    requires Tree(fs) && p in fs && fs[p].File? && root < p
    ensures Gone(AllDoomed(fs, root, Relocated(Existing(fs, keep), root, root)), p)
            <==> !Covered(Existing(fs, keep), root, p)
  {
    var s := p[|root|..];
    assert p == root + s;
    DoomedIsExact(fs, root, Relocated(Existing(fs, keep), root, root), p);
    RelocatedCovers(Existing(fs, keep), root, root, s);
  }

  /** A directory above a file is there and is no link. */
  lemma AboveAFile(fs: Fs, root: Path, p: Path)
    requires Tree(fs) && p in fs && root < p
    ensures Plain(fs, root) && Exists(fs, root) && IsDir(fs, root) && RealDir(fs, root) == Some(root)
  {
    AncestorsAreDirs(fs, root, p);
    forall q <- fs | q <= root ensures !fs[q].Link? { if q != root { AncestorsAreDirs(fs, q, root); } }
    PlainDirIsReal(fs, root);
    PlainResolve(fs, root);
  }

  /** What a pruned directory loses is planned. */
  lemma PrunedIsReturned(fs: Fs, root: Path, keep: set<Path>, p: Path) returns (e: Path)
    requires Tree(fs) && p in fs && fs[p].File? && root < p && !Covered(Existing(fs, keep), root, p)
    ensures e <= p && Returned(fs, root, Existing(fs, keep), e)
  {
    var kept := Relocated(Existing(fs, keep), root, root);
    PrunedFile(fs, root, keep, p);
    e :| e in AllDoomed(fs, root, kept) && e <= p;
    AboveAFile(fs, root, p);
    DoomedIsBelow(fs, root, kept, e);
    assert root + e[|root|..] == e;
  }

  lemma ImagesCover(fs: Fs, t: Target, p: Path)
    requires Tree(fs) && p in fs && YoctoWork(t) < p && fs[p].File?
    ensures ["Yocto", t.name, "images"] <= p ==> Covered(Existing(fs, YoctoKeep(t)), YoctoWork(t), p)
    ensures Covered(Existing(fs, YoctoKeep(t)), YoctoWork(t), p) ==> ["Yocto", t.name, "images"] <= p
  {
    var images := ["Yocto", t.name, "images"];
    if images <= p {
      if images == p {
        forall q <- fs | q <= p ensures !fs[q].Link? { if q != p { AncestorsAreDirs(fs, q, p); } }
        PlainResolve(fs, p);
      } else {
        AboveAFile(fs, images, p);
      }
      assert images in Existing(fs, YoctoKeep(t)) && YoctoWork(t) < images;
    }
  }

  lemma TakenIsGone(fs: Fs, t: Target, p: Path)
    requires Tree(fs) && PlainPaths(fs, t) && p in fs && fs[p].File? && Takes(fs, t, p)
    ensures Gone(Out(fs, t), p)
  {
    var e := TakenBy(fs, t, p);
    PlanInPlace(fs, t, e);
    assert Goes(fs, t, e) && e in Out(fs, t);
  }

  /** The planned path that takes a file. */
  lemma TakenBy(fs: Fs, t: Target, p: Path) returns (e: Path)
    requires Tree(fs) && p in fs && fs[p].File? && Takes(fs, t, p)
    ensures e <= p && Planned(fs, t, e)
  {
    if TakesVivado(fs, t, p) {
      e := PrunedIsReturned(fs, VivPrj(t), VivKeep(fs, t), p);
    } else if TakesIp(fs, t, p) {
      e :| e in IpOutputs(fs, t) && Exists(fs, e) && e <= p;
    } else if TakesWorkspace(fs, t, p) {
      e := VitWs(t);
    } else if TakesPetalinux(fs, t, p) {
      e :| e in PetlBig(t) && Exists(fs, e) && e <= p;
    } else {
      ImagesCover(fs, t, p);
      AboveAFile(fs, YoctoWork(t), p);
      e := PrunedIsReturned(fs, YoctoWork(t), YoctoKeep(t), p);
    }
  }

  lemma VivadoEntryTakes(fs: Fs, t: Target, e: Path, p: Path)
    requires Tree(fs) && PlainPaths(fs, t) && p in fs && fs[p].File? && e <= p && PlansVivado(fs, t, e)
    ensures TakesVivado(fs, t, p)
  {
    PlansVivadoInPlace(fs, t, e);
    TakenWhere(fs, VivPrj(t), VivKeep(fs, t), e, p);
  }

  lemma YoctoEntryTakes(fs: Fs, t: Target, e: Path, p: Path)
    requires Tree(fs) && PlainPaths(fs, t) && p in fs && fs[p].File? && e <= p && PlansYocto(fs, t, e)
    ensures TakesYocto(fs, t, p)
  {
    PlansYoctoInPlace(fs, t, e);
    TakenWhere(fs, YoctoWork(t), YoctoKeep(t), e, p);
    ImagesCover(fs, t, p);
  }

  lemma GoneIsTaken(fs: Fs, t: Target, p: Path)
    requires Tree(fs) && PlainPaths(fs, t) && p in fs && fs[p].File? && Gone(Out(fs, t), p)
    ensures Takes(fs, t, p)
  {
    var e :| e in Out(fs, t) && e <= p;
    var q :| Planned(fs, t, q) && Locate(fs, q) == Some(e);
    PlanInPlace(fs, t, q);
    EntryTakes(fs, t, e, p);
  }

  lemma EntryTakes(fs: Fs, t: Target, e: Path, p: Path)
    requires Tree(fs) && PlainPaths(fs, t) && p in fs && fs[p].File? && e <= p && Planned(fs, t, e)
    ensures Takes(fs, t, p)
  {
    if PlansVivado(fs, t, e) { VivadoEntryTakes(fs, t, e, p); }
    if PlansYocto(fs, t, e) { YoctoEntryTakes(fs, t, e, p); }
  }

  lemma TakenWhere(fs: Fs, root: Path, keep: set<Path>, e: Path, p: Path)
    requires Tree(fs) && p in fs && fs[p].File? && root < e <= p && IsPruned(fs, root, keep, e)
    ensures !Covered(Existing(fs, keep), root, p)
  {
    PrunedFile(fs, root, keep, p);
    assert e in AllDoomed(fs, root, Relocated(Existing(fs, keep), root, root));
  }

  /** The clean takes a file exactly when it lies in a cleared area and is not kept there. */
  lemma GoneIffTaken(fs: Fs, t: Target, p: Path)
    requires Tree(fs) && PlainPaths(fs, t) && p in fs && fs[p].File?
    ensures Gone(Out(fs, t), p) <==> Takes(fs, t, p)
  {
    if Takes(fs, t, p) { TakenIsGone(fs, t, p); }
    if Gone(Out(fs, t), p) { GoneIsTaken(fs, t, p); }
  }

  // ---------------------------------------------------------------- the inputs

  /** The input directories hold no links and are reached through none, and directories list each name once. */
  ghost predicate PlainInputs(fs: Fs, t: Target, rd: Reader) {
    Plain(fs, ["Yocto", "bsp", t.name]) && AllPlain(fs, InputDirs(fs, t, rd)) && Faithful(rd.listing)
  }

  /** No input file lies where the clean takes it. */
  ghost predicate NoInputTaken(fs: Fs, t: Target, rd: Reader) {
    forall p :: Found(fs, InputDirs(fs, t, rd), p) ==> !Takes(fs, t, p)
  }

  lemma SameInputDirs(fs: Fs, t: Target, rd: Reader)
    requires Tree(fs) && PlainPaths(fs, t) && ProperName(t) && PlainInputs(fs, t, rd)
    ensures InputDirs(Cleaned(fs, t), t, rd) == InputDirs(fs, t, rd)
  {
    BspIsIntact(fs, t, ["Yocto", "bsp", t.name]);
    assert BspDir(fs, t) == InputDirs(fs, t, rd)[0];
    PlainHere(fs, BspDir(fs, t), LayerList(fs, t));
    assert Plain(fs, LayerList(fs, t));
    BspIsIntact(fs, t, LayerList(fs, t));
    InputDirsAfter(fs, t, rd);
  }

  /** Which files are inputs after the clean. */
  lemma FilesAfterClean(fs: Fs, t: Target, rd: Reader, p: Path)
    requires Tree(fs) && PlainPaths(fs, t) && ProperName(t) && PlainInputs(fs, t, rd)
    ensures var dirs, after := InputDirs(fs, t, rd), Cleaned(fs, t);
            && (p in InputFiles(fs, dirs, rd.listing) <==> Found(fs, dirs, p))
            && (p in InputFiles(after, dirs, rd.listing) <==> Found(fs, dirs, p) && !Takes(fs, t, p))
  {
    var dirs, after := InputDirs(fs, t, rd), Cleaned(fs, t);
    if [] in Out(fs, t) { GoesInPlace(fs, t, []); }
    WithoutIsATree(fs, Out(fs, t));
    PlainAfter(fs, Out(fs, t), dirs);
    InputFilesAre(fs, dirs, rd.listing, p);
    InputFilesAre(after, dirs, rd.listing, p);
    FoundAfter(fs, Out(fs, t), dirs, p);
    if Found(fs, dirs, p) { GoneIffTaken(fs, t, p); }
  }

  lemma XsaIsNotTaken(fs: Fs, t: Target)
    requires Tree(fs) && PlainPaths(fs, t) && ProperName(t) && SkipsXsa(fs, t)
    ensures Stays(fs, t, Xsa(t)) && !Takes(fs, t, Xsa(t))
  {
    DeliverableIsIntact(fs, t, Xsa(t));
    FileStays(fs, t, Xsa(t));
    assert Xsa(t) in Tested(fs, t);
    PlainResolve(fs, Xsa(t));
    VivKeptStays(fs, t, Xsa(t));
    GoneIffTaken(fs, t, Xsa(t));
  }

  /** What is an input before and after. */
  lemma InputsBeforeAndAfter(fs: Fs, t: Target, rd: Reader, p: Path)
    requires Tree(fs) && PlainPaths(fs, t) && ProperName(t) && SkipsXsa(fs, t) && PlainInputs(fs, t, rd)
    ensures p in Inputs(fs, t, rd) <==> Found(fs, InputDirs(fs, t, rd), p) || p == Xsa(t)
    ensures p in Inputs(Cleaned(fs, t), t, rd) <==> p in Inputs(fs, t, rd) && !Takes(fs, t, p)
  {
    SameInputDirs(fs, t, rd);
    XsaIsNotTaken(fs, t);
    TestsAfter(fs, t, Xsa(t));
    FilesAfterClean(fs, t, rd, p);
  }

  lemma HashAfter(fs: Fs, t: Target, rd: Reader, p: Path)
    requires p in Inputs(fs, t, rd) && p in Inputs(Cleaned(fs, t), t, rd)
    ensures Inputs(Cleaned(fs, t), t, rd)[p] == Inputs(fs, t, rd)[p]
  {
    var after := Cleaned(fs, t);
    InputFilesExist(after, InputDirs(after, t, rd), rd.listing);
    assert IsFile(after, p);
    TestsAfter(fs, t, p);
  }

  /** The inputs and their hashes are the same exactly when no input file is taken. */
  lemma SameInputsIff(fs: Fs, t: Target, rd: Reader)
    requires Tree(fs) && PlainPaths(fs, t) && ProperName(t) && SkipsXsa(fs, t) && PlainInputs(fs, t, rd)
    ensures SameInputs(fs, t, rd) <==> NoInputTaken(fs, t, rd)
  {
    var before, after := Inputs(fs, t, rd), Inputs(Cleaned(fs, t), t, rd);
    XsaIsNotTaken(fs, t);
    forall p
      ensures p in before <==> Found(fs, InputDirs(fs, t, rd), p) || p == Xsa(t)
      ensures p in after <==> p in before && !Takes(fs, t, p)
    {
      InputsBeforeAndAfter(fs, t, rd, p);
    }
    forall p | p in before && p in after ensures after[p] == before[p] { HashAfter(fs, t, rd, p); }
    SameMaps(before, after);
  }

  lemma SameMaps(before: map<Path, nat>, after: map<Path, nat>)
    requires forall p <- after :: p in before && after[p] == before[p]
    ensures after == before <==> forall p <- before :: p in after
  {
    if forall p <- before :: p in after { assert after.Keys == before.Keys; }
  }

  // ---------------------------------------------------------------- the stages

  /** The Yocto stage has nothing to compare, or no input is taken. */
  ghost predicate InputsAreSafe(fs: Fs, t: Target, rd: Reader) {
    IsFile(fs, ["Yocto", "scripts", "build-image.sh"]) && IsFile(fs, YoctoImg(t, ".inputs-sha256")) ==> NoInputTaken(fs, t, rd)
  }

  /** The Yocto stage skips after the clean exactly when no input file lies where the clean takes it, if there
      is a stamp to compare with. */
  lemma YoctoSkipsAfterIff(fs: Fs, t: Target, rd: Reader)
    requires Tree(fs) && PlainPaths(fs, t) && ProperName(t) && PlainInputs(fs, t, rd)
    requires t.yocto && SkipsXsa(fs, t) && SkipsYocto(fs, t, rd)
    ensures SkipsYocto(Cleaned(fs, t), t, rd) <==> InputsAreSafe(fs, t, rd)
  {
    XsaIsNotTaken(fs, t);
    YoctoAfter(fs, t, rd);
    YoctoStaysIff(fs, t, rd);
    SameInputsIff(fs, t, rd);
  }

  /** Where no link lies on a path that matters, 'all' has nothing to do after the clean exactly when the boot
      file of a workspace that goes is not older than the XSA and no Yocto input lies where the clean takes it. */
  lemma KeepBootIsANoOpIff(fs: Fs, t: Target, tools: bool, rd: Reader)
    requires Tree(fs) && PlainPaths(fs, t) && ProperName(t) && (t.yocto ==> PlainInputs(fs, t, rd))
    requires NothingToDo(fs, t, tools, rd)
    ensures NothingToDo(Cleaned(fs, t), t, tools, rd)
            <==> (t.baremetal && VitisFlow(fs) ==> BootNotOlder(fs, t)) && (t.yocto ==> InputsAreSafe(fs, t, rd))
  {
    NoOpIffInputsKept(fs, t, tools, rd);
    NothingToDoIff(fs, t, tools, rd);
    if t.yocto { SameInputsIff(fs, t, rd); }
  }
}
