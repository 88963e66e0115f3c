/**
 What the walk of an input directory finds where it holds no links: every file below it whose name and
 directories are not set aside, in whatever order directories are listed.
 */
module InputWalk {
  import opened Ledger
  import opened FileSystem
  import opened Prune
  import opened Stages

  predicate NoRepeats(names: seq<string>) {
    forall i, j :: 0 <= i < j < |names| ==> names[i] != names[j]
  }

  /** Each name of a directory is listed once. */
  ghost predicate Lists(s: seq<string>, names: set<string>) {
    NoRepeats(s) && forall n :: n in s <==> n in names
  }

  ghost predicate Faithful(listing: set<string> -> seq<string>) {
    forall names :: Lists(listing(names), names)
  }

  predicate SetAside(dir: string) {
    dir in {"__pycache__", ".git"}
  }

  /** `p` is an input file below `d`. */
  predicate InputBelow(fs: Fs, d: Path, p: Path) {
    && d < p && p in fs && fs[p].File? && !EndsWith(p[|p| - 1], ".pyc") && p[|p| - 1] != ".git"
    && forall i :: |d| <= i < |p| - 1 ==> !SetAside(p[i])
  }

  /** It is one below some of `dirs`. */
  predicate Found(fs: Fs, dirs: seq<Path>, p: Path) {
    exists d <- dirs :: d in fs && fs[d].Dir? && InputBelow(fs, d, p)
  }

  ghost predicate AllPlain(fs: Fs, dirs: seq<Path>) {
    forall d <- dirs :: PlainBelow(fs, d)
  }

  lemma PlainHere(fs: Fs, d: Path, p: Path)
    requires Tree(fs) && PlainBelow(fs, d) && d <= p
    ensures PlainBelow(fs, p)
    ensures Resolve(fs, p) == if p in fs then Some(p) else None
  {
    forall q <- fs | q <= p || p <= q ensures !fs[q].Link? {
      if q <= p { Comparable(q, d, p); }
    }
    assert Plain(fs, p);
    PlainResolve(fs, p);
  }

  // ---------------------------------------------------------------- one directory

  lemma {:induction false} SubDirsAre(fs: Fs, d: Path, names: seq<string>, q: Path)
    requires Tree(fs) && PlainBelow(fs, d)
    ensures q in SubDirs(fs, d, names)
            <==> |q| == |d| + 1 && d < q && q in fs && fs[q].Dir? && q[|d|] in names && !SetAside(q[|d|])
    decreases names
  {
    if names != [] {
      SubDirsAre(fs, d, names[1..], q);
      PlainHere(fs, d, d + [names[0]]);
      assert q == d + [names[0]] <==> |q| == |d| + 1 && d < q && q[|d|] == names[0];
    }
  }

  lemma {:induction false} SubDirsDiffer(fs: Fs, d: Path, names: seq<string>)
    requires Tree(fs) && PlainBelow(fs, d) && NoRepeats(names)
    ensures Unrelated(SubDirs(fs, d, names))
    decreases names
  {
    if names != [] {
      var rest := SubDirs(fs, d, names[1..]);
      SubDirsDiffer(fs, d, names[1..]);
      forall q <- rest ensures |q| == |d| + 1 && q != d + [names[0]] {
        SubDirsAre(fs, d, names[1..], q);
        var j :| 0 <= j < |names[1..]| && names[1..][j] == q[|d|];
        assert names[j + 1] != names[0];
      }
    }
  }

  /** No path is, or lies below, another. */
  predicate Unrelated(dirs: seq<Path>) {
    forall i, j :: 0 <= i < j < |dirs| ==> !(dirs[i] <= dirs[j]) && !(dirs[j] <= dirs[i])
  }

  lemma FilesAre(fs: Fs, d: Path, names: seq<string>, p: Path)
    requires Tree(fs) && PlainBelow(fs, d) && d in fs && fs[d].Dir? && Lists(names, Names(fs, d)) && |p| == |d| + 1
    ensures p in FilesOf(fs, d, names) <==> InputBelow(fs, d, p)
  {
    if d < p {
      var n := p[|d|];
      assert p == d + [n] && p[|p| - 1] == n;
      NamesAreChildren(fs, d, n);
      PlainHere(fs, d, p);
      assert IsFile(fs, p) <==> p in fs && fs[p].File?;
    }
    if p in FilesOf(fs, d, names) {
      var n :| n in names && p == d + [n];
      assert d < p;
    }
  }

  lemma FilesAreShallow(fs: Fs, d: Path, names: seq<string>, p: Path)
    requires p in FilesOf(fs, d, names)
    ensures |p| == |d| + 1
  {
  }

  /** An input file deeper down lies below a directory that is walked. */
  lemma DeeperIsFound(fs: Fs, d: Path, names: seq<string>, p: Path)
    requires Tree(fs) && PlainBelow(fs, d) && Lists(names, Names(fs, d)) && InputBelow(fs, d, p) && |p| > |d| + 1
    ensures Found(fs, SubDirs(fs, d, names), p)
  {
    var c := p[..|d| + 1];
    assert d < c < p && c == d + [p[|d|]];
    AncestorsAreDirs(fs, c, p);
    NamesAreChildren(fs, d, p[|d|]);
    SubDirsAre(fs, d, names, c);
    assert InputBelow(fs, c, p);
  }

  lemma FoundIsDeeper(fs: Fs, d: Path, names: seq<string>, p: Path)
    requires Tree(fs) && PlainBelow(fs, d) && Found(fs, SubDirs(fs, d, names), p)
    ensures InputBelow(fs, d, p) && |p| > |d| + 1
  {
    var c :| c in SubDirs(fs, d, names) && c in fs && fs[c].Dir? && InputBelow(fs, c, p);
    SubDirsAre(fs, d, names, c);
    forall i | |d| <= i < |p| - 1 ensures !SetAside(p[i]) {
      if i == |d| { assert p[i] == c[i]; }
    }
  }

  lemma OneDirectory(fs: Fs, d: Path, names: seq<string>, p: Path)
    requires Tree(fs) && PlainBelow(fs, d) && d in fs && fs[d].Dir? && Lists(names, Names(fs, d))
    ensures InputBelow(fs, d, p) <==> p in FilesOf(fs, d, names) || Found(fs, SubDirs(fs, d, names), p)
  {
    if |p| == |d| + 1 { FilesAre(fs, d, names, p); }
    if p in FilesOf(fs, d, names) { FilesAreShallow(fs, d, names, p); }
    if InputBelow(fs, d, p) && |p| > |d| + 1 { DeeperIsFound(fs, d, names, p); }
    if Found(fs, SubDirs(fs, d, names), p) { FoundIsDeeper(fs, d, names, p); }
  }

  // ---------------------------------------------------------------- the walk

  /** Nothing at or below a pending directory has been entered. */
  predicate Unseen(dirs: seq<Path>, seen: set<Path>) {
    forall d <- dirs, x <- seen :: !(d <= x)
  }

  predicate Pending(dirs: seq<Path>, seen: set<Path>) {
    Unrelated(dirs) && Unseen(dirs, seen)
  }

  lemma RestPending(dirs: seq<Path>, seen: set<Path>)
    requires dirs != [] && Pending(dirs, seen)
    ensures Pending(dirs[1..], seen)
  {
    assert forall q <- dirs[1..] :: q in dirs;
  }

  /** Entering a directory leaves its subdirectories and the rest to be walked. */
  lemma EnteredPending(d: Path, subs: seq<Path>, rest: seq<Path>, seen: set<Path>)
    requires Pending([d] + rest, seen) && Unrelated(subs) && forall q <- subs :: d < q && |q| == |d| + 1
    ensures Pending(subs + rest, seen + {d})
  {
    var dirs := subs + rest;
    forall q <- rest ensures !(d <= q) && !(q <= d) {
      var j :| 0 <= j < |rest| && rest[j] == q;
      assert ([d] + rest)[0] == d && ([d] + rest)[j + 1] == q;
    }
    forall i, j | 0 <= i < j < |dirs| ensures !(dirs[i] <= dirs[j]) && !(dirs[j] <= dirs[i]) {
      if i < |subs| <= j {
        assert subs[i] in subs && rest[j - |subs|] in rest;
        ApartFromBelow(d, subs[i], rest[j - |subs|]);
      }
      if i >= |subs| { assert ([d] + rest)[i - |subs| + 1] == dirs[i] && ([d] + rest)[j - |subs| + 1] == dirs[j]; }
    }
    assert forall q <- rest :: q in [d] + rest;
    assert d in [d] + rest;
    forall q <- dirs, x <- seen + {d} ensures !(q <= x) { }
  }

  lemma ApartFromBelow(d: Path, q: Path, r: Path)
    requires d < q && |q| == |d| + 1 && !(d <= r) && !(r <= d)
    ensures !(q <= r) && !(r <= q)
  {
    assert r <= q && |r| <= |d| ==> r <= d;
  }

  lemma FoundSplits(fs: Fs, a: seq<Path>, b: seq<Path>, p: Path)
    ensures Found(fs, a + b, p) <==> Found(fs, a, p) || Found(fs, b, p)
  {
    if Found(fs, a, p) { var d :| d in a && d in fs && fs[d].Dir? && InputBelow(fs, d, p); assert d in a + b; }
    if Found(fs, b, p) { var d :| d in b && d in fs && fs[d].Dir? && InputBelow(fs, d, p); assert d in a + b; }
  }

  lemma FoundInOne(fs: Fs, d: Path, p: Path)
    ensures Found(fs, [d], p) <==> d in fs && fs[d].Dir? && InputBelow(fs, d, p)
  {
    assert d in [d];
  }

  lemma PlainSubDirs(fs: Fs, d: Path, names: seq<string>, rest: seq<Path>)
    requires Tree(fs) && PlainBelow(fs, d) && AllPlain(fs, rest)
    ensures AllPlain(fs, SubDirs(fs, d, names) + rest)
    ensures forall q <- SubDirs(fs, d, names) :: d < q && |q| == |d| + 1
  {
    forall q <- SubDirs(fs, d, names) ensures d < q && |q| == |d| + 1 && PlainBelow(fs, q) {
      SubDirsAre(fs, d, names, q);
      PlainHere(fs, d, q);
    }
  }

  /** The walk finds exactly the input files below the pending directories. */
  lemma {:induction false} WalkFinds(fs: Fs, listing: set<string> -> seq<string>, pending: seq<Path>, seen: set<Path>, p: Path)
    requires Tree(fs) && Faithful(listing) && AllPlain(fs, pending) && Pending(pending, seen)
    ensures p in WalkFiles(fs, listing, pending, seen) <==> Found(fs, pending, p)
    decreases Dirs(fs) - seen, |pending|
  {
    if pending != [] {
      var d, rest := pending[0], pending[1..];
      assert pending == [d] + rest && d in pending && forall q <- rest :: q in pending;
      PlainHere(fs, d, d);
      FoundSplits(fs, [d], rest, p);
      FoundInOne(fs, d, p);
      if d !in fs || !fs[d].Dir? {
        RestPending(pending, seen);
        WalkFinds(fs, listing, rest, seen, p);
      } else {
        var names := listing(Names(fs, d));
        assert Lists(names, Names(fs, d));
        assert d !in seen && d in Dirs(fs) - seen && d !in Dirs(fs) - (seen + {d});
        var subs := SubDirs(fs, d, names);
        SubDirsDiffer(fs, d, names);
        PlainSubDirs(fs, d, names, rest);
        EnteredPending(d, subs, rest, seen);
        WalkFinds(fs, listing, subs + rest, seen + {d}, p);
        FoundSplits(fs, subs, rest, p);
        OneDirectory(fs, d, names, p);
      }
    }
  }

  /** The input files are those below the input directories. */
  lemma {:induction false} InputFilesAre(fs: Fs, dirs: seq<Path>, listing: set<string> -> seq<string>, p: Path)
    requires Tree(fs) && Faithful(listing) && AllPlain(fs, dirs)
    ensures p in InputFiles(fs, dirs, listing) <==> Found(fs, dirs, p)
    decreases dirs
  {
    if dirs != [] {
      assert dirs == [dirs[0]] + dirs[1..];
      assert AllPlain(fs, [dirs[0]]) && AllPlain(fs, dirs[1..]);
      WalkFinds(fs, listing, [dirs[0]], {}, p);
      InputFilesAre(fs, dirs[1..], listing, p);
      FoundSplits(fs, [dirs[0]], dirs[1..], p);
    }
  }

  // ---------------------------------------------------------------- after a removal

  lemma PlainAfter(fs: Fs, out: iset<Path>, dirs: seq<Path>)
    requires AllPlain(fs, dirs)
    ensures AllPlain(Without(fs, out), dirs)
  {
    forall d <- dirs ensures PlainBelow(Without(fs, out), d) {
      assert PlainBelow(fs, d);
    }
  }

  /** A removal takes away just the input files it removes. */
  lemma FoundAfter(fs: Fs, out: iset<Path>, dirs: seq<Path>, p: Path)
    ensures Found(Without(fs, out), dirs, p) <==> Found(fs, dirs, p) && !Gone(out, p)
  {
    if Found(fs, dirs, p) && !Gone(out, p) {
      var d :| d in dirs && d in fs && fs[d].Dir? && InputBelow(fs, d, p);
      forall r | r in out ensures !(r <= d) { assert r <= d ==> r <= p; }
      assert InputBelow(Without(fs, out), d, p);
    }
    if Found(Without(fs, out), dirs, p) {
      var d :| d in dirs && d in Without(fs, out) && Without(fs, out)[d].Dir? && InputBelow(Without(fs, out), d, p);
      assert InputBelow(fs, d, p);
    }
  }
}
