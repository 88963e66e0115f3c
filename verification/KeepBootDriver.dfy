/**
 'clean --keep-boot' as it runs: the plan gathered area by area, then the paths removed one at a time.
 */
module KeepBootDriver {
  import opened Ledger
  import opened FileSystem
  import opened Order
  import opened Prune
  import opened Stages
  import opened KeepBoot
  import opened KeepBootPlain
  import opened KeepBootNames

  datatype Area = VivadoArea | WorkspaceArea | PetalinuxArea | YoctoArea

  /** An area with something to remove whose deliverable is missing; it is kept and reported. */
  predicate Unfinished(fs: Fs, t: Target, a: Area) {
    match a
    case VivadoArea =>
      (IsDir(fs, VivPrj(t)) || exists q <- IpOutputs(fs, t) :: Exists(fs, q)) && !IsFile(fs, Xsa(t))
    case WorkspaceArea => Exists(fs, VitWs(t)) && !IsFile(fs, BootFile(t))
    case PetalinuxArea => (exists p <- PetlBig(t) :: Exists(fs, p)) && !PetalinuxBuilt(fs, t)
    case YoctoArea => IsDir(fs, YoctoWork(t)) && !YoctoBuilt(fs, t)
  }

  /** By the names of the deliverables. */
  lemma UnfinishedByName(fs: Fs, t: Target)
    ensures Unfinished(fs, t, WorkspaceArea) <==> Exists(fs, ["Vitis", t.name + "_workspace"]) && !BootFileIsThere(fs, t)
    ensures Unfinished(fs, t, PetalinuxArea) <==>
            (Exists(fs, ["PetaLinux", t.name, "build"]) || Exists(fs, ["PetaLinux", t.name, "components"]))
            && !PetalinuxImageIsThere(fs, t)
    ensures Unfinished(fs, t, YoctoArea) <==> IsDir(fs, ["Yocto", t.name]) && !YoctoImagesAreThere(fs, t)
    ensures IsDir(fs, ["Vivado", t.name]) ==> (Unfinished(fs, t, VivadoArea) <==> !XsaIsThere(fs, t))
  {
    BootFileByName(fs, t);
    YoctoBuiltByName(fs, t);
    assert ["PetaLinux", t.name, "build"] in PetlBig(t) && ["PetaLinux", t.name, "components"] in PetlBig(t);
  }

  /** Those of a few paths that exist. */
  method Present(fs: Fs, candidates: set<Path>) returns (out: seq<Path>)
    ensures forall p :: p in out <==> p in candidates && Exists(fs, p)
    ensures NoRepeats(out)
  {
    var todo := candidates;
    out := [];
    while todo != {}
      invariant todo <= candidates && NoRepeats(out)
      invariant forall p :: p in out <==> p in candidates && p !in todo && Exists(fs, p)
    {
      var p :| p in todo;
      todo := todo - {p};
      if Exists(fs, p) { out := out + [p]; }
    }
  }

  predicate NoRepeats(s: seq<Path>) {
    forall i, j :: 0 <= i < j < |s| ==> s[i] != s[j]
  }

  lemma JoinNoRepeats(a: seq<Path>, b: seq<Path>)
    requires NoRepeats(a) && NoRepeats(b) && forall p <- a :: p !in b
    ensures NoRepeats(a + b)
  {
    var s := a + b;
    forall i, j | 0 <= i < j < |s| ensures s[i] != s[j] {
      if i < |a| <= j { assert a[i] in a && b[j - |a|] in b; }
    }
  }

  method PlanVivado(fs: Fs, t: Target) returns (paths: seq<Path>, noted: bool)
    requires Tree(fs)
    ensures forall p :: p in paths <==> PlansVivado(fs, t, p) || PlansIp(fs, t, p)
    ensures noted <==> Unfinished(fs, t, VivadoArea)
    ensures ProperName(t) ==> NoRepeats(paths)
  {
    var ip := Present(fs, IpOutputs(fs, t));
    if IsDir(fs, VivPrj(t)) || ip != [] {
      assert VivadoDone(fs, t) <==> IsFile(fs, Xsa(t)) by { if ip != [] { assert ip[0] in ip; } }
      if IsFile(fs, Xsa(t)) {
        var pruned := PrunePaths(fs, VivPrj(t), VivKeep(fs, t));
        InOrderHasNoRepeats(pruned);
        if ProperName(t) {
          forall p <- pruned ensures p !in ip { VivadoIsNotIp(fs, t, p); }
          JoinNoRepeats(pruned, ip);
        }
        return pruned + ip, false;
      }
      assert Unfinished(fs, t, VivadoArea) by { if ip != [] { assert ip[0] in ip; } }
      return [], true;
    }
    return [], false;
  }

  lemma VivadoIsNotIp(fs: Fs, t: Target, p: Path)
    requires ProperName(t) && PlansVivado(fs, t, p)
    ensures !PlansIp(fs, t, p)
  {
    assert VivPrj(t) <= p;
    assert |p| >= 2 ==> p[0] == VivPrj(t)[0] && p[1] == VivPrj(t)[1];
    if PlansIp(fs, t, p) { IpShape(fs, t, p); }
  }

  method PlanWorkspace(fs: Fs, t: Target) returns (paths: seq<Path>, noted: bool)
    ensures forall p :: p in paths <==> PlansWorkspace(fs, t, p)
    ensures noted <==> Unfinished(fs, t, WorkspaceArea)
    ensures NoRepeats(paths)
  {
    if !Exists(fs, VitWs(t)) { return [], false; }
    if IsFile(fs, BootFile(t)) { return [VitWs(t)], false; }
    return [], true;
  }

  method PlanPetalinux(fs: Fs, t: Target) returns (paths: seq<Path>, noted: bool)
    ensures forall p :: p in paths <==> PlansPetalinux(fs, t, p)
    ensures noted <==> Unfinished(fs, t, PetalinuxArea)
    ensures NoRepeats(paths)
  {
    var big := Present(fs, PetlBig(t));
    if big == [] {
      forall p <- PetlBig(t) ensures !Exists(fs, p) { assert p !in big; }
      return [], false;
    }
    assert big[0] in big;
    if PetalinuxBuilt(fs, t) { return big, false; }
    return [], true;
  }

  method PlanYocto(fs: Fs, t: Target) returns (paths: seq<Path>, noted: bool)
    requires Tree(fs)
    ensures forall p :: p in paths <==> PlansYocto(fs, t, p)
    ensures noted <==> Unfinished(fs, t, YoctoArea)
    ensures NoRepeats(paths)
  {
    if !IsDir(fs, YoctoWork(t)) { return [], false; }
    if !YoctoBuilt(fs, t) { return [], true; }
    paths := PrunePaths(fs, YoctoWork(t), YoctoKeep(t));
    InOrderHasNoRepeats(paths);
    noted := false;
  }

  /** keep_boot_plan: exactly the planned paths, and a note for exactly the unfinished areas. */
  method KeepBootPlan(fs: Fs, t: Target) returns (paths: seq<Path>, notes: seq<Area>)
    requires Tree(fs)
    ensures forall p :: p in paths <==> Planned(fs, t, p)
    ensures forall a :: a in notes <==> Unfinished(fs, t, a)
    ensures ProperName(t) ==> NoRepeats(paths)
  {
    var v, vNote := PlanVivado(fs, t);
    var w, wNote := PlanWorkspace(fs, t);
    var l, lNote := PlanPetalinux(fs, t);
    var y, yNote := PlanYocto(fs, t);
    if ProperName(t) { JoinAreas(fs, t, v, w, l, y); }
    paths := ((v + w) + l) + y;
    notes := (if vNote then [VivadoArea] else []) + (if wNote then [WorkspaceArea] else [])
           + (if lNote then [PetalinuxArea] else []) + (if yNote then [YoctoArea] else []);
    forall a ensures a in notes <==> Unfinished(fs, t, a) {
      match a
      case VivadoArea =>
      case WorkspaceArea =>
      case PetalinuxArea =>
      case YoctoArea =>
    }
  }

  predicate Heads(paths: seq<Path>, names: set<string>) {
    forall p <- paths :: p != [] && p[0] in names
  }

  lemma JoinByHead(a: seq<Path>, b: seq<Path>, m: set<string>, n: set<string>)
    requires NoRepeats(a) && NoRepeats(b) && Heads(a, m) && Heads(b, n) && m !! n
    ensures NoRepeats(a + b) && Heads(a + b, m + n)
  {
    assert forall p <- a :: p[0] in m;
    assert forall p <- b :: p[0] in n;
    JoinNoRepeats(a, b);
  }

  lemma VivadoHeads(fs: Fs, t: Target, paths: seq<Path>)
    requires forall p <- paths :: PlansVivado(fs, t, p) || PlansIp(fs, t, p)
    ensures Heads(paths, {"Vivado", "HLS"})
  {
    forall p <- paths ensures p != [] && p[0] in {"Vivado", "HLS"} {
      if PlansVivado(fs, t, p) { assert VivPrj(t) <= p && p[0] == VivPrj(t)[0]; } else { IpShape(fs, t, p); }
    }
  }

  lemma YoctoHeads(fs: Fs, t: Target, paths: seq<Path>)
    requires forall p <- paths :: PlansYocto(fs, t, p)
    ensures Heads(paths, {"Yocto"})
  {
    forall p <- paths ensures p != [] && p[0] in {"Yocto"} { assert YoctoWork(t) <= p && p[0] == YoctoWork(t)[0]; }
  }

  lemma JoinAreas(fs: Fs, t: Target, v: seq<Path>, w: seq<Path>, l: seq<Path>, y: seq<Path>)
    requires NoRepeats(v) && NoRepeats(w) && NoRepeats(l) && NoRepeats(y)
    requires forall p <- v :: PlansVivado(fs, t, p) || PlansIp(fs, t, p)
    requires (forall p <- w :: p == VitWs(t)) && forall p <- l :: p in PetlBig(t)
    requires forall p <- y :: PlansYocto(fs, t, p)
    ensures NoRepeats(((v + w) + l) + y)
  {
    VivadoHeads(fs, t, v);
    YoctoHeads(fs, t, y);
    JoinByHead(v, w, {"Vivado", "HLS"}, {"Vitis"});
    JoinByHead(v + w, l, {"Vivado", "HLS", "Vitis"}, {"PetaLinux"});
    assert {"Vivado", "HLS"} + {"Vitis"} == {"Vivado", "HLS", "Vitis"};
    assert {"Vivado", "HLS", "Vitis"} + {"PetaLinux"} == {"Vivado", "HLS", "Vitis", "PetaLinux"};
    JoinByHead((v + w) + l, y, {"Vivado", "HLS", "Vitis", "PetaLinux"}, {"Yocto"});
  }

  // ---------------------------------------------------------------- removing paths one at a time

  /** The path names an entry that is there, perhaps a link. */
  predicate There(fs: Fs, p: Path) {
    Locate(fs, p).Some? && Locate(fs, p).value in fs
  }

  /** The entries a list of paths names. */
  ghost function Entries(fs: Fs, paths: seq<Path>): iset<Path> {
    iset e | exists p <- paths :: Locate(fs, p) == Some(e)
  }

  /** What is left when the first `count` paths have been removed. */
  ghost function Left(fs: Fs, paths: seq<Path>, count: nat): Fs
    requires count <= |paths|
  {
    Without(fs, Entries(fs, paths[..count]))
  }

  /** Each of the first `count` paths is still there once the ones before it are gone. */
  ghost predicate Passes(fs: Fs, paths: seq<Path>, count: nat)
    requires count <= |paths|
  {
    forall i :: 0 <= i < count ==> There(Left(fs, paths, i), paths[i])
  }

  lemma NothingRemoved(fs: Fs, paths: seq<Path>)
    ensures Left(fs, paths, 0) == fs
  {
    forall q ensures !Gone(Entries(fs, paths[..0]), q) { }
  }

  /** After a removal a path names the entry it named before, or none. */
  lemma LocateAfter(fs: Fs, out: iset<Path>, p: Path)
    requires p != []
    ensures Locate(Without(fs, out), p)
         == if Locate(fs, p).Some? && Safe(fs, out, Parent(p)) then Locate(fs, p) else None
  {
    WalkSurvives(fs, out, [], Parent(p), MAX_LINKS);
    WalkEndsHere(Without(fs, out), [], Parent(p), MAX_LINKS);
  }

  lemma RemovedOneMore(fs: Fs, paths: seq<Path>, i: nat)
    requires i < |paths| && paths[i] != [] && There(Left(fs, paths, i), paths[i])
    ensures Without(Left(fs, paths, i), iset{Locate(Left(fs, paths, i), paths[i]).value}) == Left(fs, paths, i + 1)
  {
    LocateAfter(fs, Entries(fs, paths[..i]), paths[i]);
    RemoveOneMore(fs, paths, i, Locate(fs, paths[i]).value);
  }

  lemma RemoveOneMore(fs: Fs, paths: seq<Path>, i: nat, e: Path)
    requires i < |paths| && Locate(fs, paths[i]) == Some(e)
    ensures Without(Left(fs, paths, i), iset{e}) == Left(fs, paths, i + 1)
  {
    var had, has := Entries(fs, paths[..i]), Entries(fs, paths[..i + 1]);
    assert paths[..i + 1] == paths[..i] + [paths[i]];
    forall x ensures x in has <==> x in had || x == e {
      if x in has { var p :| p in paths[..i + 1] && Locate(fs, p) == Some(x); }
      if x in had {
        var p :| p in paths[..i] && Locate(fs, p) == Some(x);
        assert p in paths[..i + 1];
      }
      assert x == e ==> paths[i] in paths[..i + 1];
    }
    forall q ensures Gone(has, q) <==> Gone(had, q) || Gone(iset{e}, q) { GoneInEither(had, e, has, q); }
  }

  lemma GoneInEither(had: iset<Path>, e: Path, has: iset<Path>, q: Path)
    requires forall x :: x in has <==> x in had || x == e
    ensures Gone(has, q) <==> Gone(had, q) || Gone(iset{e}, q)
  {
    if r :| r in had && r <= q { assert r in has; }
    if e <= q { assert e in has && e in iset{e}; }
  }

  class Disk {
    var fs: Fs

    constructor (initial: Fs)
      ensures fs == initial
    {
      fs := initial;
    }

    /** rmtree of a directory, unlink of anything else; a link is never followed at the end of the path. */
    method Remove(p: Path) returns (ok: bool)
      requires Tree(fs) && p != []
      modifies this
      ensures Tree(fs) && (ok <==> There(old(fs), p))
      ensures fs == if ok then Without(old(fs), iset{Locate(old(fs), p).value}) else old(fs)
    {
      if !There(fs, p) { return false; }
      var e := Locate(fs, p).value;
      WithoutIsATree(fs, iset{e});
      assert forall q :: Gone(iset{e}, q) <==> e <= q;
      if fs[e].Dir? {
        fs := map q | q in fs && !(e <= q) :: fs[q];
      } else {
        forall q <- fs ensures e <= q ==> q == e {
          if e < q { AncestorsAreDirs(fs, e, q); }
        }
        fs := fs - {e};
      }
      return true;
    }

    /** remove_paths: it gets through exactly when each path is still there when its turn comes; what has
        been removed by then are the entries the paths named at the start, with all they hold. */
    method RemovePaths(paths: seq<Path>) returns (ok: bool, count: nat)
      requires Tree(fs) && [] !in paths
      modifies this
      ensures Tree(fs) && count <= |paths| && (ok <==> count == |paths|) && (ok <==> Passes(old(fs), paths, |paths|))
      ensures fs == Left(old(fs), paths, count)
      ensures !ok ==> !There(fs, paths[count])
    {
      ghost var was := fs;
      count := 0;
      NothingRemoved(was, paths);
      while count < |paths|
        invariant count <= |paths| && Tree(fs) && fs == Left(was, paths, count)
        invariant Passes(was, paths, count)
      {
        ok := Remove(paths[count]);
        if !ok { return false, count; }
        RemovedOneMore(was, paths, count);
        count := count + 1;
      }
      return true, count;
    }
  }

  // ---------------------------------------------------------------- the whole clean

  /** How deep the paths removed whole lie. */
  predicate Depth(q: Path) {
    && |q| >= 2
    && (q[0] == "HLS" ==> |q| == 3) && (q[0] == "Vivado" && q[1] == "ip" ==> |q| == 4)
    && (q[0] == "Vitis" ==> |q| == 2) && (q[0] == "PetaLinux" ==> |q| == 3)
  }

  lemma PlanDepth(fs: Fs, t: Target, q: Path)
    requires Tree(fs) && PlainPaths(fs, t) && ProperName(t) && Planned(fs, t, q)
    ensures Depth(q)
  {
    if PlansVivado(fs, t, q) {
      PlansVivadoInPlace(fs, t, q);
    } else if PlansYocto(fs, t, q) {
      PlansYoctoInPlace(fs, t, q);
    } else if PlansIp(fs, t, q) {
      IpShape(fs, t, q);
    }
  }

  /** No planned path lies inside another. */
  lemma PlanIsFlat(fs: Fs, t: Target, r: Path, q: Path)
    requires Tree(fs) && PlainPaths(fs, t) && ProperName(t) && Planned(fs, t, r) && Planned(fs, t, q)
    ensures !(r < q)
  {
    if r < q {
      PlanInPlace(fs, t, r);
      PlanInPlace(fs, t, q);
      PlanDepth(fs, t, r);
      PlanDepth(fs, t, q);
      assert r[0] == q[0] && r[1] == q[1];
      if r[0] == "Yocto" {
        DoomedIsMaximal(fs, YoctoWork(t), Relocated(Existing(fs, YoctoKeep(t)), YoctoWork(t), YoctoWork(t)), r, q);
      } else if r[0] == "Vivado" && r[1] == t.name {
        DoomedIsMaximal(fs, VivPrj(t), Relocated(Existing(fs, VivKeep(fs, t)), VivPrj(t), VivPrj(t)), r, q);
      }
    }
  }

  /** A planned path names an entry that is there. */
  lemma PlanIsThere(fs: Fs, t: Target, p: Path)
    requires Tree(fs) && PlainPaths(fs, t) && ProperName(t) && Planned(fs, t, p)
    ensures p != [] && p in fs && Locate(fs, p) == Some(p) && Plain(fs, Parent(p))
  {
    PlanInPlace(fs, t, p);
    if PlansVivado(fs, t, p) {
      PlansVivadoInPlace(fs, t, p);
    } else if PlansYocto(fs, t, p) {
      PlansYoctoInPlace(fs, t, p);
    } else {
      ExistingIsLocated(fs, p);
    }
    forall q <- fs | q <= Parent(p) ensures !fs[q].Link? {
      assert q < p;
      AncestorsAreDirs(fs, q, p);
    }
  }

  lemma PlanIsRemovable(fs: Fs, t: Target, paths: seq<Path>)
    requires Tree(fs) && PlainPaths(fs, t) && ProperName(t) && NoRepeats(paths)
    requires forall p :: p in paths <==> Planned(fs, t, p)
    ensures Passes(fs, paths, |paths|)
  {
    forall i | 0 <= i < |paths| ensures There(Left(fs, paths, i), paths[i]) {
      var p, out := paths[i], Entries(fs, paths[..i]);
      PlanIsThere(fs, t, p);
      forall e | e in out ensures !(e <= p) {
        var r :| r in paths[..i] && Locate(fs, r) == Some(e);
        PlanIsThere(fs, t, r);
        PlanIsFlat(fs, t, r, p);
      }
      StillThere(fs, out, p);
    }
  }

  lemma StillThere(fs: Fs, out: iset<Path>, p: Path)
    requires Tree(fs) && p != [] && p in fs && Locate(fs, p) == Some(p) && Plain(fs, Parent(p)) && !Gone(out, p)
    ensures There(Without(fs, out), p)
  {
    PlainResolve(fs, Parent(p));
    forall e | e in out ensures !(e <= Parent(p)) { assert e <= Parent(p) ==> e <= p; }
    LocateAfter(fs, out, p);
  }

  /** Every planned path is below the root. */
  lemma PlanIsBelow(fs: Fs, t: Target, p: Path)
    requires Planned(fs, t, p)
    ensures p != []
  {
    if PlansIp(fs, t, p) { IpShape(fs, t, p); }
    assert PlansVivado(fs, t, p) ==> VivPrj(t) <= p;
    assert PlansYocto(fs, t, p) ==> YoctoWork(t) <= p;
  }

  /** The whole clean of one target. When it gets through, exactly the planned entries are gone with all they
      hold; and it gets through wherever no link lies on a path that matters, where just the dispensable files
      are gone. */
  method Clean(disk: Disk, t: Target) returns (ok: bool, notes: seq<Area>)
    requires Tree(disk.fs)
    modifies disk
    ensures Tree(disk.fs) && (ok ==> disk.fs == Cleaned(old(disk.fs), t))
    ensures exists out :: out <= Out(old(disk.fs), t) && disk.fs == Without(old(disk.fs), out)
    ensures ProperName(t) && PlainPaths(old(disk.fs), t) ==> ok
    ensures ProperName(t) && PlainPaths(old(disk.fs), t) ==>
              forall p <- old(disk.fs) :: old(disk.fs)[p].File? ==> (p !in disk.fs <==> Dispensable(old(disk.fs), t, p))
    ensures forall a :: a in notes <==> Unfinished(old(disk.fs), t, a)
  {
    ghost var was := disk.fs;
    var paths, count;
    paths, notes := KeepBootPlan(disk.fs, t);
    if ProperName(t) && PlainPaths(was, t) { PlanIsRemovable(was, t, paths); }
    forall p <- paths ensures p != [] { PlanIsBelow(was, t, p); }
    ok, count := disk.RemovePaths(paths);
    assert forall p <- paths[..count] :: p in paths;
    assert Entries(was, paths[..count]) <= Out(was, t);
    assert paths[..|paths|] == paths;
    assert Entries(was, paths) == Out(was, t);
    if ProperName(t) && PlainPaths(was, t) {
      forall p <- was | was[p].File? ensures p !in disk.fs <==> Dispensable(was, t, p) { GoneIffDispensable(was, t, p); }
    }
  }
}
