/**
 What pruning amounts to: which entries survive, which kept paths still exist afterwards, and when pruning
 again would find more.
 */
module Pruned {
  import opened Ledger
  import opened FileSystem
  import opened Prune

  /** The entries that go when the returned paths are deleted. */
  ghost function Removed(fs: Fs, root: Path, keep: set<Path>): iset<Path> {
    match RealDir(fs, root)
    case Some(dir) => AllDoomed(fs, dir, Relocated(Existing(fs, keep), root, dir))
    case None => iset{}
  }

  ghost function After(fs: Fs, root: Path, keep: set<Path>): Fs {
    Without(fs, Removed(fs, root, keep))
  }

  /** `root + s` is under, is, or leads to a kept path below the root. */
  ghost predicate Spared(fs: Fs, dir: Path, kept: set<Path>, root: Path, s: Path) {
    Covered(kept, root, root + s) || (dir + s in fs && fs[dir + s].Dir? && Leads(kept, root + s))
  }

  /** The returned paths are names of exactly the entries removed. */
  lemma ReturnedAreRemoved(fs: Fs, root: Path, keep: set<Path>, p: Path)
    requires Tree(fs) && Returned(fs, root, Existing(fs, keep), p)
    ensures Locate(fs, p).Some? && Locate(fs, p).value in Removed(fs, root, keep) && Locate(fs, p).value in fs
  {
    var dir := RealDir(fs, root).value;
    var s := p[|root|..];
    DoomedIsBelow(fs, dir, Relocated(Existing(fs, keep), root, dir), dir + s);
    assert p == root + s;
    LocateBelow(fs, root, s);
  }

  lemma LocateOneMore(fs: Fs, p: Path, at: Path, name: string)
    requires Tree(fs) && Locate(fs, p) == Some(at) && at + [name] in fs
    ensures at in fs && fs[at].Dir? && Locate(fs, p + [name]) == Some(at + [name])
  {
    assert Parent(at + [name]) == at;
    LocateMore(fs, p, name);
  }

  lemma LastApart(root: Path, s: Path)
    requires s != []
    ensures root + s == (root + Parent(s)) + [s[|s| - 1]]
  {
    assert s == Parent(s) + [s[|s| - 1]];
  }

  lemma LocateStep(fs: Fs, root: Path, dir: Path, s: Path)
    requires Tree(fs) && s != [] && dir + s in fs
    requires dir + Parent(s) in fs ==> Locate(fs, root + Parent(s)) == Some(dir + Parent(s))
    ensures dir + Parent(s) in fs && Locate(fs, root + s) == Some(dir + s)
  {
    LastApart(root, s);
    LastApart(dir, s);
    assert Parent(dir + s) == dir + Parent(s);
    LocateOneMore(fs, root + Parent(s), dir + Parent(s), s[|s| - 1]);
  }

  lemma ParentIsThere(fs: Fs, dir: Path, s: Path)
    requires Tree(fs) && s != [] && dir + s in fs
    ensures dir + Parent(s) in fs
  {
    assert Parent(dir + s) == dir + Parent(s);
  }

  /** Below a directory that is entered, names and entries run in parallel as long as no link is met. */
  lemma {:induction false} LocateBelow(fs: Fs, root: Path, s: Path)
    requires Tree(fs) && RealDir(fs, root).Some? && RealDir(fs, root).value + s in fs
    ensures Locate(fs, root + s) == Some(RealDir(fs, root).value + s)
    decreases |s|
  {
    var dir := RealDir(fs, root).value;
    if s == [] {
      assert root + s == root && dir + s == dir;
    } else {
      ParentIsThere(fs, dir, s);
      LocateBelow(fs, root, Parent(s));
      LocateStep(fs, root, dir, s);
    }
  }

  /** Below the root the survivors are exactly the existing kept paths below it, everything under them, and
      the directories leading to one. This holds whatever the tree and its links. */
  lemma PruneIsExact(fs: Fs, root: Path, keep: set<Path>, s: Path)
    requires Tree(fs) && RealDir(fs, root).Some? && s != [] && RealDir(fs, root).value + s in fs
    ensures var dir := RealDir(fs, root).value;
            dir + s in After(fs, root, keep) <==> Spared(fs, dir, Existing(fs, keep), root, s)
  {
    var dir, kept := RealDir(fs, root).value, Existing(fs, keep);
    assert dir < dir + s;
    DoomedIsExact(fs, dir, Relocated(kept, root, dir), dir + s);
    RelocatedCovers(kept, root, dir, s);
    RelocatedLeads(kept, root, dir, s);
  }

  /** The root itself and everything that is not below it is left alone; and if the root is a link, or no
      directory, everything is. */
  lemma PruneStaysInside(fs: Fs, root: Path, keep: set<Path>, p: Path)
    requires p in fs && (RealDir(fs, root).Some? ==> !(RealDir(fs, root).value < p))
    ensures p in After(fs, root, keep)
  {
    match RealDir(fs, root)
    case Some(dir) => NothingElseIsDoomed(fs, dir, Relocated(Existing(fs, keep), root, dir), p);
    case None =>
  }

  lemma PrefixUnder(root: Path, s: Path, t: Path)
    ensures root + s < root + t <==> s < t
  {
    assert (root + s)[|root|..] == s && (root + t)[|root|..] == t;
    if root + s < root + t { assert (root + t)[..|root + s|] == root + s; }
  }

  lemma ParentMoves(root: Path, s: Path)
    requires s != []
    ensures Parent(root + s) == root + Parent(s) && (Parent(s) == [] ==> Parent(root + s) == root)
    ensures Parent(s) != [] ==> root + Parent(s) != root
  {
    LastApart(root, s);
  }

  /** What a doomed entry's path is above. */
  lemma DoomedLeads(fs: Fs, root: Path, dir: Path, kept: set<Path>, s: Path)
    requires Tree(fs) && Doomed(fs, dir, Relocated(kept, root, dir), dir + s)
    ensures s != [] && (Parent(root + s) == root || Leads(kept, Parent(root + s)))
  {
    var moved := Relocated(kept, root, dir);
    DoomedIsBelow(fs, dir, moved, dir + s);
    DoomedIsMaximal(fs, dir, moved, dir + s, dir + s);
    ParentMoves(root, s);
    ParentMoves(dir, s);
    if Parent(s) != [] {
      ParentIsThere(fs, dir, s);
      RelocatedLeads(kept, root, dir, Parent(s));
    }
  }

  /** No returned path lies inside another, and none could be returned one level higher up without losing
      a kept path or the root. */
  lemma ReturnedPathsAreMaximal(fs: Fs, root: Path, keep: set<Path>, r: Path, q: Path)
    requires Tree(fs) && Returned(fs, root, Existing(fs, keep), r) && Returned(fs, root, Existing(fs, keep), q)
    ensures !(r < q)
    ensures root < r && (Parent(r) == root || Leads(Existing(fs, keep), Parent(r)))
  {
    var dir, kept := RealDir(fs, root).value, Existing(fs, keep);
    var s, t := r[|root|..], q[|root|..];
    assert r == root + s && q == root + t;
    DoomedIsMaximal(fs, dir, Relocated(kept, root, dir), dir + s, dir + t);
    PrefixUnder(root, s, t);
    PrefixUnder(dir, s, t);
    DoomedLeads(fs, root, dir, kept, s);
  }

  // ---------------------------------------------------------------- kept paths

  /** A kept path that exists still exists afterwards exactly when no entry on the way to it, links
      included, is removed. */
  lemma KeptStillExistsIff(fs: Fs, root: Path, keep: set<Path>, k: Path)
    requires k in Existing(fs, keep)
    ensures Exists(After(fs, root, keep), k) <==> Safe(fs, Removed(fs, root, keep), k)
  {
    TestsSurvive(fs, Removed(fs, root, keep), k);
  }

  lemma {:induction false} VisitsAreThere(fs: Fs, done: Path, rest: Path, links: nat)
    requires Walk(fs, done, rest, links).Some?
    ensures forall v <- Visits(fs, done, rest, links) :: v in fs
    decreases links, |rest|
  {
    if rest != [] {
      var next, more := done + [rest[0]], rest[1..];
      assert rest == [rest[0]] + more;
      WalkInto(fs, done, rest[0], more, links);
      match fs[next]
      case Link(to) => VisitsAreThere(fs, [], to + more, links - 1);
      case Dir(_) => VisitsAreThere(fs, next, more, links);
      case File(_, _) =>
    }
  }

  /** An entry is spared by a kept path, or lies outside the root. */
  ghost predicate SparedEntry(fs: Fs, root: Path, dir: Path, kept: set<Path>, v: Path) {
    dir < v ==> Spared(fs, dir, kept, root, v[|dir|..])
  }

  lemma EntrySurvivesIff(fs: Fs, root: Path, keep: set<Path>, v: Path)
    requires Tree(fs) && RealDir(fs, root).Some? && v in fs
    ensures !Gone(Removed(fs, root, keep), v) <==> SparedEntry(fs, root, RealDir(fs, root).value, Existing(fs, keep), v)
  {
    var dir := RealDir(fs, root).value;
    if dir < v {
      assert v == dir + v[|dir|..];
      PruneIsExact(fs, root, keep, v[|dir|..]);
    } else {
      PruneStaysInside(fs, root, keep, v);
    }
  }

  /** In terms of the kept paths alone: exactly when each entry on the way that lies below the root is under
      one, is one, or is a directory that leads to one. */
  lemma KeptPathSurvivesIff(fs: Fs, root: Path, keep: set<Path>, k: Path)
    requires Tree(fs) && RealDir(fs, root).Some? && k in Existing(fs, keep)
    ensures Exists(After(fs, root, keep), k)
            <==> forall v <- Visits(fs, [], k, MAX_LINKS) ::
                   SparedEntry(fs, root, RealDir(fs, root).value, Existing(fs, keep), v)
  {
    KeptStillExistsIff(fs, root, keep, k);
    VisitsAreThere(fs, [], k, MAX_LINKS);
    forall v <- Visits(fs, [], k, MAX_LINKS)
      ensures !Gone(Removed(fs, root, keep), v)
              <==> SparedEntry(fs, root, RealDir(fs, root).value, Existing(fs, keep), v)
    {
      EntrySurvivesIff(fs, root, keep, v);
    }
  }

  /** In particular one below the root that runs through no link does. */
  lemma PlainKeptStillExists(fs: Fs, root: Path, keep: set<Path>, k: Path)
    requires Tree(fs) && k in Existing(fs, keep) && root < k && Plain(fs, k)
    ensures Exists(After(fs, root, keep), k)
  {
    PlainResolve(fs, k);
    assert k in fs;
    AncestorsAreDirs(fs, root, k);
    PlainAbove(fs, root, k);
    PlainRealDir(fs, root);
    if RealDir(fs, root).Some? {
      var s := k[|root|..];
      assert k == root + s && Covered(Existing(fs, keep), root, k);
      PruneIsExact(fs, root, keep, s);
    }
    assert !Gone(Removed(fs, root, keep), k);
    KeptStillExistsIff(fs, root, keep, k);
  }

  lemma PlainRealDir(fs: Fs, root: Path)
    requires Tree(fs) && root in fs && Plain(fs, root)
    ensures RealDir(fs, root).Some? ==> RealDir(fs, root).value == root
  {
    if root != [] {
      PlainAbove(fs, Parent(root), root);
      PlainLocate(fs, root);
    }
  }

  /** Every entry a kept path holds below the root survives, unless the path is the root or lies above it:
      then the walk does not see it, and all it holds survives exactly when other kept paths spare it. */
  lemma KeptPathIsHonouredIff(fs: Fs, root: Path, keep: set<Path>, k: Path)
    requires Tree(fs) && RealDir(fs, root).Some? && k in Existing(fs, keep)
    ensures var dir := RealDir(fs, root).value;
            (forall s: Path :: s != [] && dir + s in fs && k <= root + s ==> dir + s in After(fs, root, keep))
            <==> (k <= root ==> forall s: Path :: s != [] && dir + s in fs ==> Spared(fs, dir, Existing(fs, keep), root, s))
  {
    var dir, kept := RealDir(fs, root).value, Existing(fs, keep);
    forall s: Path | s != [] && dir + s in fs
      ensures dir + s in After(fs, root, keep) <==> Spared(fs, dir, kept, root, s)
      ensures k <= root ==> k <= root + s
      ensures !(k <= root) && k <= root + s ==> Covered(kept, root, root + s)
    {
      PruneIsExact(fs, root, keep, s);
      if !(k <= root) && k <= root + s {
        Comparable(k, root, root + s);
        assert root < k <= root + s;
      }
    }
  }

  /** Asking to keep the root itself keeps nothing in it. */
  lemma KeepingTheRootKeepsNothing()
    ensures var fs: Fs := map[[] := Dir(0), ["r"] := Dir(0), ["r", "f"] := File(0, 0)];
            && Tree(fs) && ["r"] in Existing(fs, {["r"]})
            && ["r", "f"] !in After(fs, ["r"], {["r"]})
  {
    var fs: Fs := map[[] := Dir(0), ["r"] := Dir(0), ["r", "f"] := File(0, 0)];
    assert Parent(["r", "f"]) == ["r"] && Parent(["r"]) == [];
    PlainResolve(fs, ["r"]);
    PlainAbove(fs, [], ["r"]);
    PlainLocate(fs, ["r"]);
    assert RealDir(fs, ["r"]) == Some(["r"]) && ["r"] + ["f"] == ["r", "f"];
    PruneIsExact(fs, ["r"], {["r"]}, ["f"]);
  }

  /** A link below the root that is not itself kept goes, even where a kept path runs through it. */
  lemma LinkOnTheWayIsRemoved(fs: Fs, root: Path, keep: set<Path>, s: Path)
    requires Tree(fs) && RealDir(fs, root).Some? && s != []
    requires RealDir(fs, root).value + s in fs && fs[RealDir(fs, root).value + s].Link?
    ensures RealDir(fs, root).value + s in After(fs, root, keep) <==> Covered(Existing(fs, keep), root, root + s)
  {
    PruneIsExact(fs, root, keep, s);
  }

  /** A directory `r` holding a link `l` to a directory `x` that holds a file `f`. */
  predicate LinkBeside(fs: Fs, r: string, l: string, x: string, f: string) {
    && [] in fs && fs[[]].Dir? && [r] in fs && fs[[r]].Dir? && [x] in fs && fs[[x]].Dir?
    && [r, l] in fs && fs[[r, l]] == Link([x]) && [x, f] in fs && fs[[x, f]].File?
  }

  lemma ThroughALink(fs: Fs, r: string, l: string, x: string, f: string, links: nat)
    requires links > 0 && LinkBeside(fs, r, l, x, f)
    ensures Walk(fs, [], [r, l, f], links) == Some([x, f]) && [r, l] in Visits(fs, [], [r, l, f], links)
  {
    assert [r, l, f] == [r] + [l, f] && [l, f] == [l] + [f] && [f] == [f] + [];
    assert [] + [r] == [r] && [r] + [l] == [r, l] && [x] + [f] == [x, f] && [] + [x] == [x];
    WalkInto(fs, [], r, [l, f], links);
    WalkInto(fs, [r], l, [f], links);
    WalkInto(fs, [], x, [f], links - 1);
    WalkInto(fs, [x], f, [], links - 1);
    VisitsInto(fs, [], r, [l, f], links);
    VisitsInto(fs, [r], l, [f], links);
  }

  lemma LostBehindALink(fs: Fs, r: string, l: string, x: string, f: string)
    requires Tree(fs) && LinkBeside(fs, r, l, x, f)
    ensures IsFile(fs, [r, l, f]) && !Exists(After(fs, [r], {[r, l, f]}), [r, l, f])
  {
    var k := [r, l, f];
    forall q <- fs | q <= [r] ensures !fs[q].Link? { assert q == [] || q == [r]; }
    PlainDirIsReal(fs, [r]);
    ThroughALink(fs, r, l, x, f, MAX_LINKS);
    assert [r] + [l] == [r, l];
    assert !Covered(Existing(fs, {k}), [r], [r, l]);
    LinkOnTheWayIsRemoved(fs, [r], {k}, [l]);
    assert Gone(Removed(fs, [r], {k}), [r, l]);
    KeptStillExistsIff(fs, [r], {k}, k);
  }

  /** So a kept path that runs through a link need not exist afterwards: the smallest such tree. */
  lemma KeptBehindALinkIsLost() returns (fs: Fs, root: Path, k: Path)
    ensures Tree(fs) && root < k && IsFile(fs, k) && !Exists(After(fs, root, {k}), k)
  {
    fs := map[[] := Dir(0), ["r"] := Dir(0), ["x"] := Dir(0), ["x", "f"] := File(0, 0), ["r", "l"] := Link(["x"])];
    assert Parent(["x", "f"]) == ["x"] && Parent(["r", "l"]) == ["r"] && Parent(["r"]) == [] && Parent(["x"]) == [];
    LostBehindALink(fs, "r", "l", "x", "f");
    root, k := ["r"], ["r", "l", "f"];
  }

  lemma VisitsInto(fs: Fs, done: Path, name: string, rest: Path, links: nat)
    ensures var next := done + [name];
            && (next in fs ==> next in Visits(fs, done, [name] + rest, links))
            && (next in fs && fs[next].Dir? ==> Visits(fs, next, rest, links) <= Visits(fs, done, [name] + rest, links))
  {
    var all := [name] + rest;
    assert all[0] == name && all[1..] == rest;
  }

  // ---------------------------------------------------------------- once more

  /** Pruning again finds nothing more exactly when every entry a kept path spared is spared by one that
      still exists (or the root itself can no longer be reached). */
  lemma PruneAgainFindsNothingIff(fs: Fs, root: Path, keep: set<Path>)
    requires Tree(fs) && RealDir(fs, root).Some?
    ensures var dir, out, once := RealDir(fs, root).value, Removed(fs, root, keep), After(fs, root, keep);
            var safe := set k | k in Existing(fs, keep) && Safe(fs, out, k);
            (forall p :: !Returned(once, root, Existing(once, keep), p))
            <==> (Safe(fs, out, root) ==>
                   forall s: Path :: s != [] && dir + s in fs && Spared(fs, dir, Existing(fs, keep), root, s)
                                ==> Spared(fs, dir, safe, root, s))
  {
    var dir, out, once := RealDir(fs, root).value, Removed(fs, root, keep), After(fs, root, keep);
    var safe := set k | k in Existing(fs, keep) && Safe(fs, out, k);
    RootIsNotRemoved(fs, root, keep);
    WithoutIsATree(fs, out);
    assert Existing(once, keep) == safe by {
      forall k | k in keep ensures Exists(once, k) <==> Exists(fs, k) && Safe(fs, out, k) { TestsSurvive(fs, out, k); }
    }
    RootAfterwards(fs, out, root);
    if Safe(fs, out, root) {
      forall s: Path | s != [] && dir + s in fs
        ensures dir + s in once <==> Spared(fs, dir, Existing(fs, keep), root, s)
      {
        PruneIsExact(fs, root, keep, s);
      }
      NothingReturnedIff(once, root, keep);
      forall s: Path | s != [] && dir + s in once
        ensures Spared(once, dir, safe, root, s) <==> Spared(fs, dir, safe, root, s) { }
      forall s: Path | s != [] && dir + s in once ensures dir + s in fs { }
    }
  }

  lemma RootIsNotRemoved(fs: Fs, root: Path, keep: set<Path>)
    ensures [] !in Removed(fs, root, keep)
  {
    match RealDir(fs, root)
    case Some(dir) =>
      var moved := Relocated(Existing(fs, keep), root, dir);
      if Doomed(fs, dir, moved, []) { DoomedIsBelow(fs, dir, moved, []); }
    case None =>
  }

  /** The root is still a directory of its own exactly when the way to it is intact. */
  lemma RootAfterwards(fs: Fs, out: iset<Path>, root: Path)
    requires Tree(fs) && [] !in out && RealDir(fs, root).Some?
    ensures RealDir(Without(fs, out), root) == if Safe(fs, out, root) then RealDir(fs, root) else None
  {
    var once := Without(fs, out);
    WithoutIsATree(fs, out);
    LocatedDir(fs, root);
    TestsSurvive(fs, out, root);
    if Safe(fs, out, root) { ExistingIsLocated(once, root); }
    if root != [] { TestsSurvive(fs, out, Parent(root)); }
    if RealDir(once, root).Some? { LocatedDir(once, root); }
  }

  /** An entry that is not spared lies under a returned one, and no returned one is spared. */
  lemma UnsparedIsReturned(fs: Fs, root: Path, keep: set<Path>, s: Path) returns (p: Path)
    requires Tree(fs) && RealDir(fs, root).Some? && s != [] && RealDir(fs, root).value + s in fs
    requires !Spared(fs, RealDir(fs, root).value, Existing(fs, keep), root, s)
    ensures Returned(fs, root, Existing(fs, keep), p)
  {
    var dir, kept := RealDir(fs, root).value, Existing(fs, keep);
    PruneIsExact(fs, root, keep, s);
    var r :| r in Removed(fs, root, keep) && r <= dir + s;
    DoomedIsBelow(fs, dir, Relocated(kept, root, dir), r);
    p := root + r[|dir|..];
    assert dir + p[|root|..] == r;
  }

  lemma ReturnedIsUnspared(fs: Fs, root: Path, keep: set<Path>, p: Path)
    requires Tree(fs) && Returned(fs, root, Existing(fs, keep), p)
    ensures var dir, s := RealDir(fs, root).value, p[|root|..];
            s != [] && dir + s in fs && !Spared(fs, dir, Existing(fs, keep), root, s)
  {
    var dir, s := RealDir(fs, root).value, p[|root|..];
    DoomedIsBelow(fs, dir, Relocated(Existing(fs, keep), root, dir), dir + s);
    PruneIsExact(fs, root, keep, s);
    assert dir + s in Removed(fs, root, keep) && dir + s <= dir + s;
  }

  /** Nothing is returned exactly when every entry below the root is spared. */
  lemma NothingReturnedIff(fs: Fs, root: Path, keep: set<Path>)
    requires Tree(fs) && RealDir(fs, root).Some?
    ensures var dir := RealDir(fs, root).value;
            (forall p :: !Returned(fs, root, Existing(fs, keep), p))
            <==> forall s: Path :: s != [] && dir + s in fs ==> Spared(fs, dir, Existing(fs, keep), root, s)
  {
    var dir, kept := RealDir(fs, root).value, Existing(fs, keep);
    forall s: Path | s != [] && dir + s in fs && !Spared(fs, dir, kept, root, s)
      ensures exists p :: Returned(fs, root, kept, p)
    {
      var p := UnsparedIsReturned(fs, root, keep, s);
    }
    forall p | Returned(fs, root, kept, p)
      ensures exists s: Path :: s != [] && dir + s in fs && !Spared(fs, dir, kept, root, s)
    {
      ReturnedIsUnspared(fs, root, keep, p);
    }
  }

  // ---------------------------------------------------------------- trees without links

  lemma PresentIsExisting(fs: Fs, keep: set<Path>)
    requires Tree(fs) && NoLinks(fs)
    ensures forall k :: k in Existing(fs, keep) <==> k in keep && k in fs
  {
    forall k ensures Exists(fs, k) <==> k in fs { PlainResolve(fs, k); }
  }

  /** Some path to keep is there, below the root, and is `p`, above it or below it. */
  ghost predicate ToKeep(fs: Fs, root: Path, keep: set<Path>, p: Path) {
    exists k <- keep :: k in fs && root < k && (k <= p || p < k)
  }

  lemma SparedIsToKeep(fs: Fs, root: Path, keep: set<Path>, kept: set<Path>, s: Path)
    requires Tree(fs) && s != [] && root + s in fs && forall k :: k in kept <==> k in keep && k in fs
    ensures Spared(fs, root, kept, root, s) <==> ToKeep(fs, root, keep, root + s)
  {
    var p := root + s;
    if ToKeep(fs, root, keep, p) {
      var k :| k in keep && k in fs && root < k && (k <= p || p < k);
      assert k in kept;
      if p < k { AncestorsAreDirs(fs, p, k); }
    }
    if Leads(kept, p) {
      var k :| k in kept && p < k;
      assert root < k;
    }
  }

  /** Without links: an entry below the root survives exactly when it is under, is, or leads to a path to
      keep that is there. */
  lemma PruneKeepsWhatIsThere(fs: Fs, root: Path, keep: set<Path>, p: Path)
    requires Tree(fs) && NoLinks(fs) && p in fs && root < p
    ensures p in After(fs, root, keep) <==> ToKeep(fs, root, keep, p)
  {
    AncestorsAreDirs(fs, root, p);
    PlainDirIsReal(fs, root);
    PresentIsExisting(fs, keep);
    var s := p[|root|..];
    assert p == root + s;
    PruneIsExact(fs, root, keep, s);
    SparedIsToKeep(fs, root, keep, Existing(fs, keep), s);
  }

  lemma PlainDirIsReal(fs: Fs, root: Path)
    requires Tree(fs) && root in fs && fs[root].Dir? && Plain(fs, root)
    ensures RealDir(fs, root) == Some(root)
  {
    if root != [] {
      PlainAbove(fs, Parent(root), root);
      PlainLocate(fs, root);
    }
  }
}
