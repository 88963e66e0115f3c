/**
 A file system as a map from paths to entries. Paths are lists of names below the repository root,
 whatever way that root is reached; a symbolic link holds the path it points at.
 */
module FileSystem {
  import opened Ledger

  type Path = seq<string>

  /** A file carries its modification time and the hash of its content. */
  datatype Entry =
    | File(mtime: int, hash: nat)
    | Dir(mtime: int)
    | Link(to: Path)

  type Fs = map<Path, Entry>

  /** How many links the kernel follows before it gives up on a path. */
  const MAX_LINKS: nat := 40

  function Parent(p: Path): Path
    requires p != []
  {
    p[..|p| - 1]
  }

  /** Every entry lies in a directory. */
  ghost predicate Tree(fs: Fs) {
    && [] in fs && fs[[]].Dir?
    && forall p <- fs :: p != [] ==> Parent(p) in fs && fs[Parent(p)].Dir?
  }

  lemma {:induction false} AncestorsAreDirs(fs: Fs, q: Path, p: Path)
    requires Tree(fs) && p in fs && q < p
    ensures q in fs && fs[q].Dir?
    decreases |p|
  {
    if |q| < |p| - 1 {
      assert q < Parent(p);
      AncestorsAreDirs(fs, q, Parent(p));
    } else {
      assert q == Parent(p);
    }
  }

  /** Follow `rest` from the directory `done`, and links wherever they are met. */
  function Walk(fs: Fs, done: Path, rest: Path, links: nat): (r: Option<Path>)
    decreases links, |rest|
  {
    if rest == [] then if done in fs then Some(done) else None
    else
      var next := done + [rest[0]];
      if next !in fs then None
      else match fs[next]
        case Link(to) => if links == 0 then None else Walk(fs, [], to + rest[1..], links - 1)
        case Dir(_) => Walk(fs, next, rest[1..], links)
        case File(_, _) => if |rest| == 1 then Some(next) else None
  }

  function Resolve(fs: Fs, p: Path): Option<Path> {
    Walk(fs, [], p, MAX_LINKS)
  }

  lemma {:induction false} WalkEndsHere(fs: Fs, done: Path, rest: Path, links: nat)
    ensures Walk(fs, done, rest, links).Some? ==> Walk(fs, done, rest, links).value in fs
    decreases links, |rest|
  {
    if rest != [] && done + [rest[0]] in fs {
      match fs[done + [rest[0]]]
      case Link(to) => if links > 0 { WalkEndsHere(fs, [], to + rest[1..], links - 1); }
      case Dir(_) => WalkEndsHere(fs, done + [rest[0]], rest[1..], links);
      case File(_, _) =>
    }
  }

  /** Path.exists, Path.is_file and Path.is_dir follow links. */
  predicate Exists(fs: Fs, p: Path) {
    Resolve(fs, p).Some?
  }

  predicate IsFile(fs: Fs, p: Path) {
    var q := Resolve(fs, p);
    q.Some? && q.value in fs && fs[q.value].File?
  }

  predicate IsDir(fs: Fs, p: Path) {
    var q := Resolve(fs, p);
    q.Some? && q.value in fs && fs[q.value].Dir?
  }

  /** The time stamp a path leads to; of no interest where nothing exists. */
  function Mtime(fs: Fs, p: Path): int {
    var q := Resolve(fs, p);
    if q.Some? && q.value in fs && !fs[q.value].Link? then fs[q.value].mtime else 0
  }

  /** One component of a walk: a directory is entered, anything else ends it one way or another. */
  lemma WalkInto(fs: Fs, done: Path, name: string, rest: Path, links: nat)
    ensures var next := done + [name];
            Walk(fs, done, [name] + rest, links)
            == if next !in fs then None
               else if fs[next].Dir? then Walk(fs, next, rest, links)
               else if fs[next].File? then (if rest == [] then Some(next) else None)
               else if links == 0 then None else Walk(fs, [], fs[next].to + rest, links - 1)
  {
    var all := [name] + rest;
    assert all[0] == name && all[1..] == rest;
  }

  lemma WalkDone(fs: Fs, done: Path, links: nat)
    ensures Walk(fs, done, [], links) == if done in fs then Some(done) else None
  {
  }

  /** Where one more component leads from `d`; a link there would be followed further. */
  predicate Continues(fs: Fs, d: Option<Path>, name: string, w: Option<Path>) {
    match d
    case None => w.None?
    case Some(at) =>
      if at + [name] !in fs then w.None? else !fs[at + [name]].Link? ==> w == Some(at + [name])
  }

  lemma NothingInAFile(fs: Fs, p: Path, name: string)
    requires Tree(fs) && (p in fs ==> !fs[p].Dir?)
    ensures p + [name] !in fs
  {
    assert p + [name] != [] && Parent(p + [name]) == p;
  }

  lemma ContinueHere(fs: Fs, done: Path, name: string, links: nat)
    requires Tree(fs)
    ensures Continues(fs, Walk(fs, done, [], links), name, Walk(fs, done, [name], links))
  {
    assert [name] == [name] + [];
    WalkInto(fs, done, name, [], links);
    if done !in fs { NothingInAFile(fs, done, name); }
  }

  /** One more component at the end names an entry of the directory the path leads to. */
  lemma {:induction false} WalkSnoc(fs: Fs, done: Path, rest: Path, name: string, links: nat)
    requires Tree(fs)
    ensures Continues(fs, Walk(fs, done, rest, links), name, Walk(fs, done, rest + [name], links))
    decreases links, |rest|
  {
    if rest == [] {
      ContinueHere(fs, done, name, links);
      assert rest + [name] == [name];
    } else {
      var next, more := done + [rest[0]], rest[1..];
      assert rest + [name] == [rest[0]] + (more + [name]) && rest == [rest[0]] + more;
      WalkInto(fs, done, rest[0], more + [name], links);
      WalkInto(fs, done, rest[0], more, links);
      if next in fs {
        match fs[next]
        case Link(to) =>
          if links > 0 {
            WalkSnoc(fs, [], to + more, name, links - 1);
            assert (to + more) + [name] == to + (more + [name]);
          }
        case Dir(_) => WalkSnoc(fs, next, more, name, links);
        case File(_, _) => NothingInAFile(fs, next, name);
      }
    }
  }

  // ---------------------------------------------------------------- paths and entries

  /** The entry a path names: links on the way are followed, the entry itself may be one. */
  function Locate(fs: Fs, p: Path): Option<Path> {
    if p == [] then Some([])
    else match Resolve(fs, Parent(p))
      case Some(d) => if d in fs && fs[d].Dir? then Some(d + [p[|p| - 1]]) else None
      case None => None
  }

  lemma WalkToDir(fs: Fs, above: Path, name: string, at: Path, links: nat)
    requires Tree(fs) && Walk(fs, [], above, links) == Some(at) && at + [name] in fs && fs[at + [name]].Dir?
    ensures Walk(fs, [], above + [name], links) == Some(at + [name])
  {
    WalkSnoc(fs, [], above, name, links);
  }

  lemma LocatedDir(fs: Fs, p: Path)
    requires Tree(fs) && Locate(fs, p).Some? && Locate(fs, p).value in fs && fs[Locate(fs, p).value].Dir?
    ensures Resolve(fs, p) == Locate(fs, p)
  {
    if p == [] {
      WalkDone(fs, [], MAX_LINKS);
    } else {
      var above, name := Parent(p), p[|p| - 1];
      assert above + [name] == p;
      WalkToDir(fs, above, name, Resolve(fs, above).value, MAX_LINKS);
    }
  }

  lemma LocateMore(fs: Fs, p: Path, name: string)
    requires Tree(fs) && Locate(fs, p).Some? && Locate(fs, p).value in fs && fs[Locate(fs, p).value].Dir?
    ensures Locate(fs, p + [name]) == Some(Locate(fs, p).value + [name])
  {
    LocatedDir(fs, p);
    assert Parent(p + [name]) == p;
  }

  /** What exists names an entry. */
  lemma ExistingIsLocated(fs: Fs, p: Path)
    requires Tree(fs) && Exists(fs, p)
    ensures Locate(fs, p).Some? && Locate(fs, p).value in fs
  {
    if p != [] {
      var d := Resolve(fs, Parent(p));
      WalkSnoc(fs, [], Parent(p), p[|p| - 1], MAX_LINKS);
      assert Parent(p) + [p[|p| - 1]] == p;
      var next := d.value + [p[|p| - 1]];
      assert next in fs && Parent(next) == d.value;
    }
  }

  // ---------------------------------------------------------------- removing entries

  /** Some removed entry is `p` or a directory above it. */
  ghost predicate Gone(out: iset<Path>, p: Path) {
    exists r :: r in out && r <= p
  }

  /** What is left when each entry of `out` is deleted with everything under it. */
  ghost function Without(fs: Fs, out: iset<Path>): Fs {
    map p | p in fs && !Gone(out, p) :: fs[p]
  }

  lemma WithoutIsATree(fs: Fs, out: iset<Path>)
    requires Tree(fs) && [] !in out
    ensures Tree(Without(fs, out))
  {
    forall p <- Without(fs, out) | p != []
      ensures Parent(p) in Without(fs, out)
    {
      forall r | r in out ensures !(r <= Parent(p)) {
        assert r <= Parent(p) ==> r <= p;
      }
    }
  }

  /** The entries looked at on the way. */
  function Visits(fs: Fs, done: Path, rest: Path, links: nat): set<Path>
    decreases links, |rest|
  {
    if rest == [] then {done}
    else
      var next := done + [rest[0]];
      if next !in fs then {}
      else {next} + match fs[next]
           case Link(to) => if links == 0 then {} else Visits(fs, [], to + rest[1..], links - 1)
           case Dir(_) => Visits(fs, next, rest[1..], links)
           case File(_, _) => {}
  }

  /** No entry on the way is among those removed. */
  ghost predicate Spares(out: iset<Path>, entries: set<Path>) {
    forall v <- entries :: !Gone(out, v)
  }

  /** Nothing on the way to `p`, or at its end, is removed. */
  ghost predicate Safe(fs: Fs, out: iset<Path>, p: Path) {
    Spares(out, Visits(fs, [], p, MAX_LINKS))
  }

  /** A path leads after a removal where it led before, exactly when nothing on the way is removed; and
      otherwise nowhere. */
  lemma {:induction false} WalkSurvives(fs: Fs, out: iset<Path>, done: Path, rest: Path, links: nat)
    ensures var w := Walk(fs, done, rest, links);
            Walk(Without(fs, out), done, rest, links)
            == if w.Some? && Spares(out, Visits(fs, done, rest, links)) then w else None
    decreases links, |rest|
  {
    var after := Without(fs, out);
    if rest != [] {
      var next, more := done + [rest[0]], rest[1..];
      assert rest == [rest[0]] + more;
      WalkInto(fs, done, rest[0], more, links);
      WalkInto(after, done, rest[0], more, links);
      if next in fs {
        match fs[next]
        case Link(to) => if links > 0 { WalkSurvives(fs, out, [], to + more, links - 1); }
        case Dir(_) => WalkSurvives(fs, out, next, more, links);
        case File(_, _) =>
      }
    }
  }

  /** So the tests of a path answer as before if it is safe, and as for a missing path if it is not. */
  lemma TestsSurvive(fs: Fs, out: iset<Path>, p: Path)
    ensures var after := Without(fs, out);
            && (Exists(after, p) <==> Exists(fs, p) && Safe(fs, out, p))
            && (IsFile(after, p) <==> IsFile(fs, p) && Safe(fs, out, p))
            && (IsDir(after, p) <==> IsDir(fs, p) && Safe(fs, out, p))
            && (Exists(after, p) ==> Resolve(after, p) == Resolve(fs, p) && Mtime(after, p) == Mtime(fs, p))
  {
    WalkSurvives(fs, out, [], p, MAX_LINKS);
    WalkEndsHere(Without(fs, out), [], p, MAX_LINKS);
  }

  // ---------------------------------------------------------------- paths without links

  /** No link lies on the way to `p`, or at its end. */
  ghost predicate Plain(fs: Fs, p: Path) {
    forall q <- fs :: q <= p ==> !fs[q].Link?
  }

  /** The next entry on a way without links. */
  lemma PlainStep(fs: Fs, done: Path, rest: Path)
    requires Tree(fs) && Plain(fs, done + rest) && done in fs && fs[done].Dir? && rest != []
    ensures var next := done + [rest[0]];
            && done < next <= done + rest && next + rest[1..] == done + rest && (next in fs ==> !fs[next].Link?)
            && (done + rest in fs ==> next in fs && (|rest| > 1 ==> fs[next].Dir?))
  {
    var next := done + [rest[0]];
    assert next + rest[1..] == done + rest && next <= done + rest;
    if |rest| == 1 {
      assert done + rest == next;
    } else if done + rest in fs {
      AncestorsAreDirs(fs, next, done + rest);
    }
  }

  lemma {:induction false} PlainWalk(fs: Fs, done: Path, rest: Path, links: nat)
    requires Tree(fs) && Plain(fs, done + rest) && done in fs && fs[done].Dir?
    ensures Walk(fs, done, rest, links) == if done + rest in fs then Some(done + rest) else None
    decreases |rest|
  {
    if rest == [] {
      assert done + rest == done;
    } else {
      PlainStep(fs, done, rest);
      var next := done + [rest[0]];
      if |rest| == 1 { assert done + rest == next; }
      if next in fs && fs[next].Dir? {
        assert Plain(fs, next + rest[1..]);
        PlainWalk(fs, next, rest[1..], links);
      }
    }
  }

  lemma {:induction false} PlainVisits(fs: Fs, done: Path, rest: Path, links: nat)
    requires Tree(fs) && Plain(fs, done + rest) && done in fs && fs[done].Dir?
    ensures forall v <- Visits(fs, done, rest, links) :: v <= done + rest
    decreases |rest|
  {
    if rest == [] {
      assert done + rest == done;
    } else {
      PlainStep(fs, done, rest);
      var next := done + [rest[0]];
      if next in fs && fs[next].Dir? {
        assert Plain(fs, next + rest[1..]);
        PlainVisits(fs, next, rest[1..], links);
      }
    }
  }

  /** A path without links leads to itself, and is safe exactly when it is not removed. */
  lemma PlainResolve(fs: Fs, p: Path)
    requires Tree(fs) && Plain(fs, p)
    ensures Resolve(fs, p) == if p in fs then Some(p) else None
    ensures forall out: iset<Path> :: p in fs && !Gone(out, p) ==> Safe(fs, out, p)
  {
    assert [] + p == p;
    PlainWalk(fs, [], p, MAX_LINKS);
    PlainVisits(fs, [], p, MAX_LINKS);
    forall out: iset<Path> | p in fs && !Gone(out, p) ensures Safe(fs, out, p) {
      forall v <- Visits(fs, [], p, MAX_LINKS) ensures !Gone(out, v) {
        forall r | r in out ensures !(r <= v) { assert r <= v ==> r <= p; }
      }
    }
  }

  ghost predicate NoLinks(fs: Fs) {
    forall p <- fs :: !fs[p].Link?
  }

  /** No link lies on the way to `d`, or anywhere below it. */
  ghost predicate PlainBelow(fs: Fs, d: Path) {
    forall q <- fs :: q <= d || d <= q ==> !fs[q].Link?
  }

  lemma PlainAbove(fs: Fs, q: Path, p: Path)
    requires Plain(fs, p) && q <= p
    ensures Plain(fs, q)
  {
    forall r <- fs | r <= q ensures !fs[r].Link? { assert r <= p; }
  }

  /** A path with no link above it names the entry of its own name. */
  lemma PlainLocate(fs: Fs, p: Path)
    requires Tree(fs) && p in fs && p != [] && Plain(fs, Parent(p))
    ensures Locate(fs, p) == Some(p)
  {
    PlainResolve(fs, Parent(p));
    assert Parent(p) + [p[|p| - 1]] == p;
  }
}
