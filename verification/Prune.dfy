/**
 Choosing what to delete below a directory so that only the kept paths survive: the recursive walk, and
 what it amounts to.
 */
module Prune {
  import opened Ledger
  import opened FileSystem
  import opened Order

  /** Keep paths that do not exist are ignored. */
  function Existing(fs: Fs, keep: set<Path>): set<Path> {
    set k | k in keep && Exists(fs, k)
  }

  /** A kept path lies strictly below `p`. */
  predicate Leads(kept: set<Path>, p: Path) {
    exists k <- kept :: p < k
  }

  /** A kept path is `p` or a directory above it, below the root. */
  predicate Covered(kept: set<Path>, root: Path, p: Path) {
    exists k <- kept :: root < k <= p
  }

  /** What is returned: the topmost entries that are neither kept nor lead to a kept path. */
  ghost predicate Doomed(fs: Fs, root: Path, kept: set<Path>, p: Path) {
    && p in fs && root < p
    && !Covered(kept, root, p)
    && (forall q <- fs :: root < q < p ==> fs[q].Dir? && Leads(kept, q))
    && !(fs[p].Dir? && Leads(kept, p))
  }

  lemma DoomedIsBelow(fs: Fs, root: Path, kept: set<Path>, p: Path)
    requires Doomed(fs, root, kept, p)
    ensures p in fs && root < p
  {
  }

  ghost function AllDoomed(fs: Fs, root: Path, kept: set<Path>): iset<Path> {
    iset p | Doomed(fs, root, kept, p)
  }

  function Children(fs: Fs, root: Path): set<Path> {
    set c | c in fs && c != [] && Parent(c) == root
  }

  function Below(fs: Fs, root: Path): set<Path> {
    set p | p in fs && root < p
  }

  // ---------------------------------------------------------------- one level of the recursion

  /** A child that is kept dooms nothing below it, one that must go whole dooms only itself, and one that
      leads to a kept path dooms what the recursion finds there. */
  lemma ChildDecides(fs: Fs, root: Path, kept: set<Path>, c: Path, p: Path)
    requires Tree(fs) && root in fs && fs[root].Dir? && c in Children(fs, root) && c <= p
    ensures Doomed(fs, root, kept, p) <==>
            c !in kept && (if fs[c].Dir? && Leads(kept, c) then Doomed(fs, c, kept, p) else p == c)
  {
    assert root < c;
    if c in kept {
      assert root < c <= p;
    } else if fs[c].Dir? && Leads(kept, c) {
      forall q <- fs | root < q <= p ensures q == c || c < q { SameWay(root, c, q, p); }
      assert Covered(kept, root, p) <==> Covered(kept, c, p) by {
        forall k <- kept | root < k <= p ensures k == c || c < k { SameWay(root, c, k, p); }
      }
    } else if p == c {
      forall q <- fs | root < q <= p ensures q == c { SameWay(root, c, q, p); }
      forall k <- kept | root < k <= p ensures k == c { SameWay(root, c, k, p); }
    } else {
      assert root < c < p;
    }
  }

  lemma SameWay(root: Path, c: Path, q: Path, p: Path)
    requires c != [] && Parent(c) == root && c <= p && root < q <= p
    ensures q == c || c < q
  {
    assert c == p[..|c|] && q == p[..|q|];
  }

  lemma BelowShrinks(fs: Fs, root: Path, c: Path)
    requires c in Children(fs, root)
    ensures Below(fs, c) < Below(fs, root)
  {
    assert root < c;
    assert c in Below(fs, root) && c !in Below(fs, c);
  }

  // ---------------------------------------------------------------- names and entries

  /** The directory that `root` names, unless it is a link or no directory. */
  function RealDir(fs: Fs, root: Path): Option<Path> {
    match Locate(fs, root)
    case Some(l) => if l in fs && fs[l].Dir? then Some(l) else None
    case None => None
  }

  /** The kept paths below `root`, by the entries they would be if no link were met below it. */
  function Relocated(kept: set<Path>, root: Path, dir: Path): set<Path> {
    set k | k in kept && root < k :: dir + k[|root|..]
  }

  /** `p` is returned: the entry it names is doomed. */
  ghost predicate Returned(fs: Fs, root: Path, kept: set<Path>, p: Path) {
    match RealDir(fs, root)
    case Some(dir) => root <= p && Doomed(fs, dir, Relocated(kept, root, dir), dir + p[|root|..])
    case None => false
  }

  lemma RelocatedHas(kept: set<Path>, root: Path, dir: Path, s: Path)
    requires s != []
    ensures dir + s in Relocated(kept, root, dir) <==> root + s in kept
  {
    if root + s in kept {
      var k := root + s;
      assert root < k && k[|root|..] == s;
    }
    if dir + s in Relocated(kept, root, dir) {
      var k :| k in kept && root < k && dir + k[|root|..] == dir + s;
      assert k[|root|..] == s by { assert (dir + k[|root|..])[|dir|..] == (dir + s)[|dir|..]; }
      assert k == root + s;
    }
  }

  lemma RelocatedLeads(kept: set<Path>, root: Path, dir: Path, s: Path)
    requires s != []
    ensures Leads(Relocated(kept, root, dir), dir + s) <==> Leads(kept, root + s)
  {
    if Leads(kept, root + s) {
      var k :| k in kept && root + s < k;
      var t := k[|root|..];
      assert k == root + t && s < t;
      RelocatedHas(kept, root, dir, t);
      assert dir + s < dir + t;
    }
    if Leads(Relocated(kept, root, dir), dir + s) {
      var k :| k in Relocated(kept, root, dir) && dir + s < k;
      var t := k[|dir|..];
      assert k == dir + t && s < t;
      RelocatedHas(kept, root, dir, t);
      assert root + s < root + t;
    }
  }

  lemma RelocatedCovers(kept: set<Path>, root: Path, dir: Path, s: Path)
    ensures Covered(Relocated(kept, root, dir), dir, dir + s) <==> Covered(kept, root, root + s)
  {
    if Covered(kept, root, root + s) {
      var k :| k in kept && root < k <= root + s;
      var t := k[|root|..];
      assert k == root + t && t <= s;
      RelocatedHas(kept, root, dir, t);
      assert dir < dir + t <= dir + s;
    }
    if Covered(Relocated(kept, root, dir), dir, dir + s) {
      var k :| k in Relocated(kept, root, dir) && dir < k <= dir + s;
      var t := k[|dir|..];
      assert k == dir + t && t <= s;
      RelocatedHas(kept, root, dir, t);
      assert root < root + t <= root + s;
    }
  }

  /** Only kept paths below the root matter. */
  lemma DoomedAgree(fs: Fs, root: Path, kept: set<Path>, other: set<Path>, p: Path)
    requires forall k | root < k :: k in kept <==> k in other
    ensures Doomed(fs, root, kept, p) <==> Doomed(fs, root, other, p)
  {
    forall q | q in fs && root < q ensures Leads(kept, q) <==> Leads(other, q) { LeadsAgree(root, kept, other, q); }
  }

  lemma LeadsAgree(root: Path, kept: set<Path>, other: set<Path>, q: Path)
    requires root < q && forall k | root < k :: k in kept <==> k in other
    ensures Leads(kept, q) <==> Leads(other, q)
  {
    if k :| k in kept && q < k { assert root < k; }
    if k :| k in other && q < k { assert root < k; }
  }

  /** Inside a child the kept paths may be counted from there. */
  lemma DoomedInside(fs: Fs, root: Path, dir: Path, kept: set<Path>, name: string, p: Path)
    ensures Doomed(fs, dir + [name], Relocated(kept, root, dir), p)
       <==> Doomed(fs, dir + [name], Relocated(kept, root + [name], dir + [name]), p)
  {
    var at, sub := dir + [name], root + [name];
    forall k | at < k
      ensures k in Relocated(kept, root, dir) <==> k in Relocated(kept, sub, at)
    {
      var s := k[|at|..];
      assert k == at + s && k == dir + ([name] + s) && root + ([name] + s) == sub + s;
      RelocatedHas(kept, root, dir, [name] + s);
      RelocatedHas(kept, sub, at, s);
    }
    DoomedAgree(fs, at, Relocated(kept, root, dir), Relocated(kept, sub, at), p);
  }

  // ---------------------------------------------------------------- the recursion

  function Names(fs: Fs, dir: Path): set<string> {
    set c | c in Children(fs, dir) :: c[|c| - 1]
  }

  lemma NamesAreChildren(fs: Fs, dir: Path, name: string)
    ensures name in Names(fs, dir) <==> dir + [name] in fs
  {
    if dir + [name] in fs {
      var c := dir + [name];
      assert Parent(c) == dir && c in Children(fs, dir) && c[|c| - 1] == name;
    }
    if name in Names(fs, dir) {
      var c :| c in Children(fs, dir) && c[|c| - 1] == name;
      assert c == Parent(c) + [name];
    }
  }

  function Room(fs: Fs, root: Path): set<Path> {
    match RealDir(fs, root) case Some(dir) => Below(fs, dir) case None => {}
  }

  lemma ReturnedHere(fs: Fs, root: Path, dir: Path, kept: set<Path>, s: Path)
    requires RealDir(fs, root) == Some(dir)
    ensures Returned(fs, root, kept, root + s) <==> Doomed(fs, dir, Relocated(kept, root, dir), dir + s)
  {
    assert (root + s)[|root|..] == s;
  }

  /** What a child that is entered contributes. */
  lemma ChildEntered(fs: Fs, root: Path, dir: Path, kept: set<Path>, name: string, t: Path)
    requires Tree(fs) && RealDir(fs, root) == Some(dir) && dir + [name] in fs && fs[dir + [name]].Dir?
    ensures var c, at := root + [name], dir + [name];
            Returned(fs, c, kept, c + t) <==> Doomed(fs, at, Relocated(kept, root, dir), at + t)
  {
    LocateMore(fs, root, name);
    ReturnedHere(fs, root + [name], dir + [name], kept, t);
    DoomedInside(fs, root, dir, kept, name, dir + [name] + t);
  }

  /** What one child contributes, by the code's own tests. */
  lemma ChildReturns(fs: Fs, root: Path, dir: Path, kept: set<Path>, name: string, p: Path)
    requires Tree(fs) && RealDir(fs, root) == Some(dir) && dir + [name] in fs && root + [name] <= p
    ensures var c := root + [name];
            Returned(fs, root, kept, p) <==>
            c !in kept && (if fs[dir + [name]].Dir? && Leads(kept, c) then Returned(fs, c, kept, p) else p == c)
  {
    var c, at, t := root + [name], dir + [name], p[|root| + 1..];
    var s := [name] + t;
    assert p == c + t && p == root + s && dir + s == at + t;
    assert Parent(at) == dir && at in Children(fs, dir);
    ReturnedHere(fs, root, dir, kept, s);
    ChildDecides(fs, dir, Relocated(kept, root, dir), at, at + t);
    RelocatedHas(kept, root, dir, [name]);
    RelocatedLeads(kept, root, dir, [name]);
    if fs[at].Dir? { ChildEntered(fs, root, dir, kept, name, t); }
    assert p == c <==> at + t == at;
  }

  lemma RoomIs(fs: Fs, root: Path, dir: Path)
    requires RealDir(fs, root) == Some(dir)
    ensures Room(fs, root) == Below(fs, dir)
  {
  }

  lemma ChildIsRealDir(fs: Fs, root: Path, dir: Path, name: string)
    requires Tree(fs) && RealDir(fs, root) == Some(dir) && dir + [name] in fs && fs[dir + [name]].Dir?
    ensures RealDir(fs, root + [name]) == Some(dir + [name])
  {
    LocateMore(fs, root, name);
  }

  lemma RoomShrinks(fs: Fs, root: Path, dir: Path, name: string)
    requires Tree(fs) && RealDir(fs, root) == Some(dir) && dir + [name] in fs && fs[dir + [name]].Dir?
    ensures Room(fs, root + [name]) < Room(fs, root)
  {
    ChildIsRealDir(fs, root, dir, name);
    RoomIs(fs, root, dir);
    RoomIs(fs, root + [name], dir + [name]);
    assert Parent(dir + [name]) == dir;
    BelowShrinks(fs, dir, dir + [name]);
  }

  /** One turn of the loop over the children. */
  method PruneChild(fs: Fs, root: Path, kept: set<Path>, name: string, ghost dir: Path) returns (out: seq<Path>)
    requires Tree(fs) && RealDir(fs, root) == Some(dir) && dir + [name] in fs && Existing(fs, kept) == kept
    ensures InOrder(out) && forall p :: p in out <==> root + [name] <= p && Returned(fs, root, kept, p)
    decreases Room(fs, root), 0
  {
    var child, at := root + [name], Locate(fs, root).value + [name];
    forall p | child <= p
      ensures Returned(fs, root, kept, p) <==>
              child !in kept && (if fs[at].Dir? && Leads(kept, child) then Returned(fs, child, kept, p) else p == child)
    {
      ChildReturns(fs, root, dir, kept, name, p);
    }
    if child in kept { return []; }
    if fs[at].Dir? && exists k <- kept :: child < k {
      RoomShrinks(fs, root, dir, name);
      out := PrunePaths(fs, child, kept);
    } else {
      return [child];
    }
  }

  /** `out` is what the first `i` children contribute. */
  ghost predicate Gathered(fs: Fs, root: Path, kept: set<Path>, names: seq<string>, i: nat, out: seq<Path>)
    requires i <= |names|
  {
    && InOrder(out)
    && forall p :: p in out <==> Returned(fs, root, kept, p) && root < p && p[|root|] in names[..i]
  }

  lemma GatherOne(fs: Fs, root: Path, kept: set<Path>, names: seq<string>, i: nat, out: seq<Path>, more: seq<Path>)
    requires i < |names| && Ascending(names) && Gathered(fs, root, kept, names, i, out) && InOrder(more)
    requires forall p :: p in more <==> root + [names[i]] <= p && Returned(fs, root, kept, p)
    ensures Gathered(fs, root, kept, names, i + 1, out + more)
  {
    forall p <- out, q <- more ensures Before(p, q) {
      assert q[|root|] == names[i] && root < q;
      var j :| 0 <= j < i && names[j] == p[|root|];
      BranchesAreOrdered(root, p, q);
    }
    InOrderAppends(out, more);
    forall p | root < p && p[|root|] == names[i] ensures root + [names[i]] <= p {
      assert p[..|root| + 1] == root + [names[i]];
    }
    forall p | root + [names[i]] <= p ensures root < p && p[|root|] == names[i] { }
    assert names[..i + 1] == names[..i] + [names[i]];
  }

  /** Something below a directory lies in one of its children. */
  lemma WayIsNamed(fs: Fs, dir: Path, s: Path)
    requires Tree(fs) && s != [] && dir + s in fs
    ensures s[0] in Names(fs, dir)
  {
    var c := dir + [s[0]];
    assert s[..1] == [s[0]] && c <= dir + s;
    if c != dir + s { AncestorsAreDirs(fs, c, dir + s); }
    NamesAreChildren(fs, dir, s[0]);
  }

  lemma ReturnedIsInAChild(fs: Fs, root: Path, kept: set<Path>, p: Path)
    requires Tree(fs) && Returned(fs, root, kept, p)
    ensures root < p && p[|root|] in Names(fs, RealDir(fs, root).value)
  {
    var dir, s := RealDir(fs, root).value, p[|root|..];
    DoomedIsBelow(fs, dir, Relocated(kept, root, dir), dir + s);
    WayIsNamed(fs, dir, s);
  }

  lemma GatheredAll(fs: Fs, root: Path, kept: set<Path>, names: seq<string>, out: seq<Path>)
    requires Tree(fs) && RealDir(fs, root).Some? && Gathered(fs, root, kept, names, |names|, out)
    requires forall n :: n in names <==> n in Names(fs, RealDir(fs, root).value)
    ensures forall p :: p in out <==> Returned(fs, root, kept, p)
  {
    forall p | Returned(fs, root, kept, p) ensures root < p && p[|root|] in names {
      ReturnedIsInAChild(fs, root, kept, p);
    }
    assert names[..|names|] == names;
  }

  /** The walk, over the children in sorted order. */
  method PrunePaths(fs: Fs, root: Path, keep: set<Path>) returns (out: seq<Path>)
    requires Tree(fs)
    ensures InOrder(out) && forall p :: p in out <==> Returned(fs, root, Existing(fs, keep), p)
    decreases Room(fs, root), 1
  {
    var kept := Existing(fs, keep);
    assert Existing(fs, kept) == kept;
    out := [];
    var at := RealDir(fs, root);
    if at.None? { return; }
    var dir := at.value;
    var names := Sorted(Names(fs, dir));
    var i := 0;
    while i < |names|
      invariant i <= |names| && Gathered(fs, root, kept, names, i, out)
    {
      NamesAreChildren(fs, dir, names[i]);
      var more := PruneChild(fs, root, kept, names[i], dir);
      GatherOne(fs, root, kept, names, i, out, more);
      out := out + more;
      i := i + 1;
    }
    GatheredAll(fs, root, kept, names, out);
  }

  // ---------------------------------------------------------------- what survives

  lemma {:induction false} SomeAncestorIsDoomed(fs: Fs, root: Path, kept: set<Path>, p: Path)
    requires Tree(fs) && p in fs && root < p
    requires !Covered(kept, root, p) && !(fs[p].Dir? && Leads(kept, p))
    ensures Gone(AllDoomed(fs, root, kept), p)
    decreases |p|
  {
    var q := Parent(p);
    assert q <= p && root <= q;
    if root == q {
      assert Doomed(fs, root, kept, p);
      assert p in AllDoomed(fs, root, kept) && p <= p;
    } else {
      assert !Covered(kept, root, q) by {
        forall k <- kept | root < k ensures k <= q ==> k <= p { }
      }
      if Leads(kept, q) {
        var k :| k in kept && q < k;
        forall a <- fs | root < a < p ensures fs[a].Dir? && Leads(kept, a) {
          AncestorsAreDirs(fs, a, p);
          assert a <= q;
          assert a < k;
        }
        assert Doomed(fs, root, kept, p);
        assert p in AllDoomed(fs, root, kept) && p <= p;
      } else {
        SomeAncestorIsDoomed(fs, root, kept, q);
        var r :| r in AllDoomed(fs, root, kept) && r <= q;
        assert r <= p;
      }
    }
  }

  lemma Comparable(a: Path, b: Path, p: Path)
    requires a <= p && b <= p
    ensures a <= b || b < a
  {
    assert a == p[..|a|] && b == p[..|b|];
  }

  /** A path above a kept path is not doomed. */
  lemma AboveIsSpared(fs: Fs, root: Path, kept: set<Path>, r: Path, k: Path)
    requires k in kept && r < k && r in fs && fs[r].Dir?
    ensures !Doomed(fs, root, kept, r)
  {
    assert Leads(kept, r);
  }

  lemma CoveredIsSpared(fs: Fs, root: Path, kept: set<Path>, r: Path, k: Path)
    requires k in kept && root < k <= r
    ensures !Doomed(fs, root, kept, r)
  {
    assert Covered(kept, root, r);
  }

  lemma NoAncestorIsDoomed(fs: Fs, root: Path, kept: set<Path>, p: Path, r: Path)
    requires Tree(fs) && p in fs && r <= p
    requires Covered(kept, root, p) || (fs[p].Dir? && Leads(kept, p))
    ensures !Doomed(fs, root, kept, r)
  {
    if r != p { AncestorsAreDirs(fs, r, p); }
    if Covered(kept, root, p) {
      var k :| k in kept && root < k <= p;
      Comparable(k, r, p);
      if k <= r { CoveredIsSpared(fs, root, kept, r, k); } else { AboveIsSpared(fs, root, kept, r, k); }
    } else {
      var k :| k in kept && p < k;
      assert r < k;
      AboveIsSpared(fs, root, kept, r, k);
    }
  }

  /** Below a directory the survivors are exactly the kept paths below it, everything under them, and the
      directories leading to one. */
  lemma DoomedIsExact(fs: Fs, root: Path, kept: set<Path>, p: Path)
    requires Tree(fs) && p in fs && root < p
    ensures p in Without(fs, AllDoomed(fs, root, kept))
            <==> Covered(kept, root, p) || (fs[p].Dir? && Leads(kept, p))
  {
    if Covered(kept, root, p) || (fs[p].Dir? && Leads(kept, p)) {
      forall r | r in AllDoomed(fs, root, kept) ensures !(r <= p) {
        if r <= p { NoAncestorIsDoomed(fs, root, kept, p, r); }
      }
    } else {
      SomeAncestorIsDoomed(fs, root, kept, p);
    }
  }

  /** The directory itself and everything that is not below it is left alone. */
  lemma NothingElseIsDoomed(fs: Fs, root: Path, kept: set<Path>, p: Path)
    requires p in fs && !(root < p)
    ensures p in Without(fs, AllDoomed(fs, root, kept))
  {
    forall r | r in AllDoomed(fs, root, kept) ensures !(r <= p) {
      assert root < r;
      assert r <= p ==> root < p;
    }
  }

  /** No doomed entry lies inside another, and none could be removed one level higher up without losing a
      kept path or the directory itself. */
  lemma DoomedIsMaximal(fs: Fs, root: Path, kept: set<Path>, r: Path, q: Path)
    requires Doomed(fs, root, kept, r) && Doomed(fs, root, kept, q)
    ensures !(r < q)
    ensures r in fs && root < r && (Parent(r) == root || (Parent(r) in fs ==> Leads(kept, Parent(r))))
  {
    if Parent(r) != root && Parent(r) in fs {
      assert root < Parent(r) < r;
    }
  }
}
