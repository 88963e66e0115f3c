/**
 The FSBL's check that enough on-chip memory is there: eligible ranges are collected, sorted and merged
 where one ends exactly where the next begins.
 */
module Ocm {
  datatype Zone = Secure | NonSecure | StrictNonSecure
  datatype Security = SecureBsp | NonSecureBsp | NoSecurity

  /** A memory range of the processor. */
  datatype Mem = Mem(readWrite: bool, zone: Zone, ocm: bool, base: int, high: int)

  datatype Range = Range(base: int, size: int)

  const START: int := 0xfffc0000
  const REQUIRED: int := 0x2A000

  predicate IsEligible(m: Mem, security: Security) {
    && m.readWrite && m.ocm
    && !(security == SecureBsp && m.zone == StrictNonSecure)
    && !(security == NonSecureBsp && m.zone == Secure)
  }

  function RangeOf(m: Mem): Range {
    Range(m.base, m.high - m.base + 1)
  }

  function Eligible(mems: seq<Mem>, security: Security): seq<Range> {
    if mems == [] then []
    else (if IsEligible(mems[0], security) then [RangeOf(mems[0])] else []) + Eligible(mems[1..], security)
  }

  /** A range at the start address, and long enough. */
  predicate Enough(r: Range) {
    r.base == START && r.size >= REQUIRED
  }

  // ---------------------------------------------------------------- sorting

  /** By base address; ranges with equal bases keep their order. */
  function Insert(r: Range, rs: seq<Range>): seq<Range> {
    if rs == [] || r.base <= rs[0].base then [r] + rs else [rs[0]] + Insert(r, rs[1..])
  }

  function Sort(rs: seq<Range>): seq<Range> {
    if rs == [] then [] else Insert(rs[0], Sort(rs[1..]))
  }

  predicate Sorted(rs: seq<Range>) {
    forall i, j :: 0 <= i < j < |rs| ==> rs[i].base <= rs[j].base
  }

  lemma {:induction false} InsertMembers(x: Range, rs: seq<Range>, y: Range)
    ensures y in Insert(x, rs) <==> y == x || y in rs
    decreases |rs|
  {
    if rs != [] && !(x.base <= rs[0].base) { InsertMembers(x, rs[1..], y); }
  }

  lemma {:induction false} InsertSorts(r: Range, rs: seq<Range>)
    requires Sorted(rs)
    ensures Sorted(Insert(r, rs))
    decreases |rs|
  {
    if rs == [] {
    } else if r.base <= rs[0].base {
      assert forall i :: 0 < i < |[r] + rs| ==> ([r] + rs)[i] == rs[i - 1];
    } else {
      InsertSorts(r, rs[1..]);
      var t := Insert(r, rs[1..]);
      forall j | 0 <= j < |t| ensures rs[0].base <= t[j].base {
        InsertMembers(r, rs[1..], t[j]);
      }
    }
  }

  lemma {:induction false} InsertKeeps(r: Range, rs: seq<Range>)
    ensures multiset(Insert(r, rs)) == multiset(rs) + multiset{r}
    decreases |rs|
  {
    if rs != [] && !(r.base <= rs[0].base) {
      InsertKeeps(r, rs[1..]);
      assert rs == [rs[0]] + rs[1..];
    }
  }

  lemma {:induction false} SortSorts(rs: seq<Range>)
    ensures Sorted(Sort(rs)) && multiset(Sort(rs)) == multiset(rs)
    decreases |rs|
  {
    if rs != [] {
      SortSorts(rs[1..]);
      InsertSorts(rs[0], Sort(rs[1..]));
      InsertKeeps(rs[0], Sort(rs[1..]));
      assert rs == [rs[0]] + rs[1..];
    }
  }

  lemma SameMembers(rs: seq<Range>, x: Range)
    ensures x in Sort(rs) <==> x in rs
  {
    SortSorts(rs);
    assert x in Sort(rs) <==> x in multiset(Sort(rs));
  }

  // ---------------------------------------------------------------- merging

  /** Whether merging the sorted ranges that follow `cur` ever gives one that is enough. */
  predicate MergeFrom(cur: Range, rest: seq<Range>)
    decreases |rest|
  {
    || Enough(cur)
    || (rest != []
        && MergeFrom(if rest[0].base == cur.base + cur.size then Range(cur.base, cur.size + rest[0].size) else rest[0],
                     rest[1..]))
  }

  predicate Accepts(rs: seq<Range>) {
    || (exists r <- rs :: Enough(r))
    || (rs != [] && Sort(rs) != [] && MergeFrom(Sort(rs)[0], Sort(rs)[1..]))
  }

  function Merged(cur: Range, r: Range): Range {
    Range(cur.base, cur.size + r.size)
  }

  /** check_program_memory, from the sorted ranges on; none of them is enough alone. */
  method MergeRanges(sorted: seq<Range>) returns (ok: bool)
    requires sorted != [] && forall r <- sorted :: !Enough(r)
    ensures ok <==> MergeFrom(sorted[0], sorted[1..])
  {
    var cur, i := sorted[0], 1;
    var concatenated: seq<Range> := [];
    while i < |sorted|
      invariant 1 <= i <= |sorted| && !Enough(cur) && forall r <- concatenated :: !Enough(r)
      invariant MergeFrom(sorted[0], sorted[1..]) <==> MergeFrom(cur, sorted[i..])
    {
      var range := sorted[i];
      assert sorted[i..][0] == range && sorted[i..][1..] == sorted[i + 1..];
      if range.base == cur.base + cur.size {
        cur := Merged(cur, range);
        if Enough(cur) { return true; }
      } else {
        concatenated := concatenated + [cur];
        cur := range;
      }
      i := i + 1;
    }
    concatenated := concatenated + [cur];
    var j := 0;
    while j < |concatenated|
      invariant j <= |concatenated|
    {
      if Enough(concatenated[j]) { return true; }
      j := j + 1;
    }
    assert sorted[i..] == [];
    return false;
  }

  lemma EligibleStep(mems: seq<Mem>, i: nat, security: Security)
    requires i < |mems|
    ensures Eligible(mems[i..], security)
         == (if IsEligible(mems[i], security) then [RangeOf(mems[i])] else []) + Eligible(mems[i + 1..], security)
  {
    assert mems[i..][0] == mems[i] && mems[i..][1..] == mems[i + 1..];
  }

  lemma EligibleGrows(ranges: seq<Range>, mems: seq<Mem>, i: nat, security: Security, all: seq<Range>)
    requires i < |mems| && ranges + Eligible(mems[i..], security) == all
    ensures IsEligible(mems[i], security) ==> (ranges + [RangeOf(mems[i])]) + Eligible(mems[i + 1..], security) == all
    ensures !IsEligible(mems[i], security) ==> ranges + Eligible(mems[i + 1..], security) == all
  {
    EligibleStep(mems, i, security);
  }

  lemma {:induction false} EligibleMember(mems: seq<Mem>, i: nat, security: Security)
    requires i < |mems| && IsEligible(mems[i], security)
    ensures RangeOf(mems[i]) in Eligible(mems, security)
    decreases mems
  {
    if i > 0 { EligibleMember(mems[1..], i - 1, security); }
  }

  /** The first loop: the eligible ranges, unless one of them is enough alone. */
  method CollectRanges(mems: seq<Mem>, security: Security) returns (enough: bool, ranges: seq<Range>)
    ensures enough <==> exists r <- Eligible(mems, security) :: Enough(r)
    ensures !enough ==> ranges == Eligible(mems, security)
  {
    ranges := [];
    var i := 0;
    while i < |mems|
      invariant i <= |mems| && ranges + Eligible(mems[i..], security) == Eligible(mems, security)
      invariant forall r <- ranges :: !Enough(r)
    {
      var m := mems[i];
      EligibleGrows(ranges, mems, i, security, Eligible(mems, security));
      if IsEligible(m, security) {
        var size := m.high - m.base + 1;
        if m.base == START && size >= REQUIRED {
          EligibleMember(mems, i, security);
          return true, [];
        }
        ranges := ranges + [Range(m.base, size)];
      }
      i := i + 1;
    }
    assert mems[i..] == [];
    return false, ranges;
  }

  /** check_program_memory; `ok` means it returns without an error. */
  method CheckProgramMemory(mems: seq<Mem>, security: Security) returns (ok: bool)
    ensures ok <==> Accepts(Eligible(mems, security))
    ensures ok ==> forall a :: 0xfffc_0000 <= a < 0xfffc_0000 + 0x2_A000 ==> Addressed(mems, security, a)
  {
    if Accepts(Eligible(mems, security)) {
      forall a | 0xfffc_0000 <= a < 0xfffc_0000 + 0x2_A000 ensures Addressed(mems, security, a) {
        PassingMeansMemory(mems, security, a);
      }
    }
    var enough, ranges := CollectRanges(mems, security);
    if enough { return true; }
    if |ranges| == 0 { return false; }
    var sorted := Sort(ranges);
    SameMembers(ranges, ranges[0]);
    forall r <- sorted ensures !Enough(r) { SameMembers(ranges, r); }
    ok := MergeRanges(sorted);
  }

  // ---------------------------------------------------------------- what acceptance means

  predicate Holds(r: Range, a: int) {
    r.base <= a < r.base + r.size
  }

  predicate CoveredAt(rs: seq<Range>, a: int) {
    exists r <- rs :: Holds(r, a)
  }

  ghost predicate Covered(rs: seq<Range>) {
    forall a :: START <= a < START + REQUIRED ==> CoveredAt(rs, a)
  }

  // ---------------------------------------------------------------- what is accepted

  function End(r: Range): int {
    r.base + r.size
  }

  /** Each of the ranges `i` to `j` ends exactly where the next begins. */
  predicate Joined(s: seq<Range>, i: nat, j: nat)
    requires j < |s|
  {
    forall k :: i <= k < j ==> End(s[k]) == s[k + 1].base
  }

  /** The ranges `i` to `j` are merged into one that is enough: nothing is merged with them from below. */
  predicate Chain(s: seq<Range>, i: nat, j: nat) {
    && i <= j < |s| && s[i].base == START && (i == 0 || End(s[i - 1]) != START)
    && Joined(s, i, j) && End(s[j]) - START >= REQUIRED
  }

  ghost predicate HasChain(s: seq<Range>, i: nat, j: nat) {
    exists a: nat, b: nat :: i <= a && j <= b && Chain(s, a, b)
  }

  predicate Begins(s: seq<Range>, i: nat)
    requires i < |s|
  {
    i == 0 || End(s[i - 1]) != s[i].base
  }

  /** A chain that ends where the ranges from `i` on are joined begins at `i`. */
  lemma OneChainEndsHere(s: seq<Range>, i: nat, j: nat, a: nat)
    requires i <= j < |s| && Joined(s, i, j) && Begins(s, i) && i <= a && Chain(s, a, j)
    ensures a == i
  {
  }

  lemma NextChain(s: seq<Range>, i: nat, j: nat)
    requires i <= j < |s| && Joined(s, i, j) && Begins(s, i) && !Chain(s, i, j)
    ensures HasChain(s, i, j) <==>
            j + 1 < |s| && if End(s[j]) == s[j + 1].base then HasChain(s, i, j + 1) else HasChain(s, j + 1, j + 1)
  {
    forall a: nat, b: nat | i <= a && j <= b && Chain(s, a, b)
      ensures j < b && (End(s[j]) == s[j + 1].base || j + 1 <= a)
    {
      if b == j { OneChainEndsHere(s, i, j, a); }
    }
  }

  /** The ranges `i` to `j` as one. */
  function AsOne(s: seq<Range>, i: nat, j: nat): Range
    requires i < |s| && j < |s|
  {
    Range(s[i].base, End(s[j]) - s[i].base)
  }

  /** One turn of the loop. */
  lemma MergeNext(s: seq<Range>, i: nat, j: nat)
    requires i <= j < |s| && !Enough(AsOne(s, i, j))
    ensures MergeFrom(AsOne(s, i, j), s[j + 1..]) <==>
            j + 1 < |s| && if End(s[j]) == s[j + 1].base then MergeFrom(AsOne(s, i, j + 1), s[j + 2..])
                           else MergeFrom(AsOne(s, j + 1, j + 1), s[j + 2..])
  {
    if j + 1 < |s| {
      assert s[j + 1..][0] == s[j + 1] && s[j + 1..][1..] == s[j + 2..];
      assert AsOne(s, j + 1, j + 1) == s[j + 1];
    }
  }

  /** Once the ranges `i` to `j` are merged, with nothing below them, the rest of the loop finds just the
      chains that end there or later. */
  lemma {:induction false} MergeFindsChains(s: seq<Range>, i: nat, j: nat)
    requires i <= j < |s| && Joined(s, i, j) && Begins(s, i)
    ensures MergeFrom(AsOne(s, i, j), s[j + 1..]) <==> HasChain(s, i, j)
    decreases |s| - j
  {
    if Enough(AsOne(s, i, j)) {
      assert Chain(s, i, j);
    } else {
      NextChain(s, i, j);
      MergeNext(s, i, j);
      if j + 1 < |s| {
        if End(s[j]) == s[j + 1].base { MergeFindsChains(s, i, j + 1); } else { MergeFindsChains(s, j + 1, j + 1); }
      }
    }
  }

  /** Whatever the ranges, the check passes exactly when one of them is enough alone or, in order of their
      bases, some of them follow each other without gap or overlap from the start to the required end and the
      one before them does not end at the start. */
  lemma AcceptsIff(rs: seq<Range>)
    ensures Accepts(rs) <==> (exists r <- rs :: Enough(r)) || exists i: nat, j: nat :: Chain(Sort(rs), i, j)
  {
    var s := Sort(rs);
    if s != [] {
      MergeFindsChains(s, 0, 0);
      assert AsOne(s, 0, 0) == s[0];
    }
  }

  // ---------------------------------------------------------------- acceptance and coverage

  lemma {:induction false} ChainHolds(s: seq<Range>, i: nat, j: nat, a: int)
    requires i <= j < |s| && Joined(s, i, j) && s[i].base <= a < End(s[j])
    ensures CoveredAt(s, a)
    decreases j
  {
    if a >= s[j].base {
      assert s[j] in s && Holds(s[j], a);
    } else {
      assert End(s[j - 1]) == s[j - 1 + 1].base;
      ChainHolds(s, i, j - 1, a);
    }
  }

  lemma SameCover(rs: seq<Range>)
    ensures forall a :: CoveredAt(Sort(rs), a) <==> CoveredAt(rs, a)
  {
    forall x ensures x in Sort(rs) <==> x in rs { SameMembers(rs, x); }
  }

  /** Whatever the ranges, an accepted configuration has the required memory: every address of it lies
      in an eligible range. */
  lemma AcceptanceIsSound(rs: seq<Range>)
    requires Accepts(rs)
    ensures Covered(rs)
  {
    AcceptsIff(rs);
    SameCover(rs);
    forall a | START <= a < START + REQUIRED ensures CoveredAt(rs, a) {
      if r :| r in rs && Enough(r) {
        assert Holds(r, a);
      } else {
        var i: nat, j: nat :| Chain(Sort(rs), i, j);
        ChainHolds(Sort(rs), i, j, a);
      }
    }
  }

  /** No two ranges overlap, and none is empty. */
  predicate Disjoint(rs: seq<Range>) {
    && (forall r <- rs :: r.size > 0)
    && forall i, j :: 0 <= i < j < |rs| ==> rs[i].base + rs[i].size <= rs[j].base || rs[j].base + rs[j].size <= rs[i].base
  }

  /** Sorted and disjoint: each range ends before the next begins. */
  predicate Ordered(rs: seq<Range>) {
    && (forall r <- rs :: r.size > 0)
    && forall i, j :: 0 <= i < j < |rs| ==> rs[i].base + rs[i].size <= rs[j].base
  }

  predicate Apart(rs: seq<Range>, x: Range) {
    forall r <- rs :: r.base + r.size <= x.base || x.base + x.size <= r.base
  }

  lemma {:induction false} InsertOrders(x: Range, rs: seq<Range>)
    requires Ordered(rs) && x.size > 0 && Apart(rs, x)
    ensures Ordered(Insert(x, rs))
    decreases |rs|
  {
    if rs != [] && !(x.base <= rs[0].base) {
      assert rs[0] in rs;
      forall r <- rs[1..] ensures r in rs { }
      InsertOrders(x, rs[1..]);
      var t := Insert(x, rs[1..]);
      forall y <- t ensures rs[0].base + rs[0].size <= y.base && y.size > 0 {
        InsertMembers(x, rs[1..], y);
      }
    } else if rs != [] {
      assert rs[0] in rs;
      var t := [x] + rs;
      forall j | 0 < j < |t| ensures x.base + x.size <= t[j].base { assert t[j] == rs[j - 1]; }
      forall r <- t ensures r.size > 0 { assert r == x || r in rs; }
    } else {
      assert [x][0] == x;
    }
  }

  lemma {:induction false} DisjointSorts(rs: seq<Range>)
    requires Disjoint(rs)
    ensures Ordered(Sort(rs))
    decreases |rs|
  {
    if rs != [] {
      forall r <- rs[1..] ensures r in rs { }
      DisjointSorts(rs[1..]);
      forall r <- Sort(rs[1..]) ensures r.base + r.size <= rs[0].base || rs[0].base + rs[0].size <= r.base {
        SameMembers(rs[1..], r);
        var i :| 0 <= i < |rs[1..]| && rs[1..][i] == r;
        assert rs[i + 1] == r;
      }
      InsertOrders(rs[0], Sort(rs[1..]));
    }
  }

  /** What begins at the address where a range ends is the next range. */
  lemma NextIsAdjacent(s: seq<Range>, j: nat, r: Range)
    requires Ordered(s) && j < |s| && r in s && Holds(r, End(s[j]))
    ensures j + 1 < |s| && s[j + 1].base == End(s[j])
  {
    var k :| 0 <= k < |s| && s[k] == r;
    assert s[j].size > 0;
    assert k > j && s[j + 1].size > 0;
  }

  /** Memory that is all there continues a chain as far as it takes. */
  lemma {:induction false} ChainGrows(s: seq<Range>, i: nat, j: nat) returns (last: nat)
    requires Ordered(s) && Covered(s) && i <= j < |s| && s[i].base == START && Joined(s, i, j)
    requires i == 0 || End(s[i - 1]) != START
    ensures Chain(s, i, last)
    decreases |s| - j
  {
    last := j;
    if End(s[j]) - START < REQUIRED {
      assert End(s[j]) > START by { assert s[i] in s && s[j] in s && (i < j ==> End(s[i]) <= s[j].base); }
      assert CoveredAt(s, End(s[j]));
      var r :| r in s && Holds(r, End(s[j]));
      NextIsAdjacent(s, j, r);
      last := ChainGrows(s, i, j + 1);
    }
  }

  lemma CoverageHasAChain(s: seq<Range>) returns (i: nat, j: nat)
    requires Ordered(s) && Covered(s) && !CoveredAt(s, START - 1)
    ensures Chain(s, i, j)
  {
    assert CoveredAt(s, START);
    var r :| r in s && Holds(r, START);
    i :| 0 <= i < |s| && s[i] == r;
    assert !Holds(s[i], START - 1);
    if i > 0 { assert s[i - 1] in s && !Holds(s[i - 1], START - 1); }
    j := ChainGrows(s, i, i);
  }

  /** Nothing that lies before or in a chain reaches the address just below the start. */
  lemma ChainHasNothingBelow(s: seq<Range>, i: nat, j: nat)
    requires Ordered(s) && Chain(s, i, j)
    ensures !CoveredAt(s, START - 1)
  {
    forall r <- s ensures !Holds(r, START - 1) {
      var k :| 0 <= k < |s| && s[k] == r;
      assert s[i] in s && (k > i ==> End(s[i]) <= s[k].base) && (k < i ==> End(s[k]) <= s[i].base);
      if k < i - 1 { assert End(s[k]) <= s[i - 1].base && s[i - 1] in s && End(s[i - 1]) <= s[i].base; }
    }
  }

  /** For ranges that do not overlap, the check passes exactly when they hold all the required memory and
      either one of them is enough alone or none reaches the address just below the start. */
  lemma AcceptanceIsExact(rs: seq<Range>)
    requires Disjoint(rs)
    ensures Accepts(rs) <==> Covered(rs) && ((exists r <- rs :: Enough(r)) || !CoveredAt(rs, START - 1))
  {
    AcceptsIff(rs);
    ChainIffCovered(rs);
    if Accepts(rs) { AcceptanceIsSound(rs); }
  }

  /** What is all there has a chain exactly when nothing reaches the address just below the start. */
  lemma ChainIffCovered(rs: seq<Range>)
    requires Disjoint(rs)
    ensures Covered(rs) ==> (HasChain(Sort(rs), 0, 0) <==> !CoveredAt(rs, START - 1))
  {
    var s, below := Sort(rs), START - 1;
    SameCover(rs);
    DisjointSorts(rs);
    assert CoveredAt(s, below) <==> CoveredAt(rs, below);
    if HasChain(s, 0, 0) {
      var i: nat, j: nat :| Chain(s, i, j);
      ChainHasNothingBelow(s, i, j);
    }
    if Covered(rs) && !CoveredAt(rs, below) {
      var i, j := CoverageHasAChain(s);
      assert Chain(s, i, j);
    }
  }

  /** In particular, with no range starting below the start, holding the memory is enough. */
  lemma CoverageIsAccepted(rs: seq<Range>)
    requires Disjoint(rs) && Covered(rs) && forall r <- rs :: r.base >= START
    ensures Accepts(rs)
  {
    AcceptanceIsExact(rs);
  }

  /** Memory that is all there can still be refused where ranges overlap, or where one that ends at the
      start is merged with it. */
  lemma OverlapIsRefused()
    ensures var rs := [Range(START, 0x20000), Range(START + 0x10000, 0x20000)];
            Covered(rs) && !Accepts(rs)
  {
    var rs := [Range(START, 0x20000), Range(START + 0x10000, 0x20000)];
    assert rs[1..] == [rs[1]] && [rs[1]][1..] == [];
    assert Sort([rs[1]]) == Insert(rs[1], []) == [rs[1]];
    assert Sort(rs) == Insert(rs[0], [rs[1]]) == rs;
    assert !MergeFrom(rs[1], []);
    forall a | START <= a < START + REQUIRED ensures CoveredAt(rs, a) {
      assert Holds(rs[0], a) || Holds(rs[1], a);
    }
  }

  lemma NeighbourBelowIsRefused()
    ensures var rs := [Range(START - 0x1000, 0x1000), Range(START, 0x20000), Range(START + 0x20000, 0x20000)];
            Disjoint(rs) && Covered(rs) && !Accepts(rs)
  {
    var rs := [Range(START - 0x1000, 0x1000), Range(START, 0x20000), Range(START + 0x20000, 0x20000)];
    forall a | START <= a < START + REQUIRED ensures CoveredAt(rs, a) {
      assert Holds(rs[1], a) || Holds(rs[2], a);
    }
    assert Holds(rs[0], START - 1);
    AcceptanceIsExact(rs);
  }

  // ---------------------------------------------------------------- in terms of the memories

  /** On-chip memory that can be read and written in the world the BSP is for. */
  predicate Usable(m: Mem, security: Security) {
    && m.readWrite && m.ocm
    && match security
       case SecureBsp => m.zone == Secure || m.zone == NonSecure
       case NonSecureBsp => m.zone == NonSecure || m.zone == StrictNonSecure
       case NoSecurity => true
  }

  /** An address of some usable memory, which runs from its base to its high address. */
  predicate Addressed(mems: seq<Mem>, security: Security, a: int) {
    exists m <- mems :: Usable(m, security) && m.base <= a <= m.high
  }

  lemma {:induction false} EligibleAreUsable(mems: seq<Mem>, security: Security, r: Range)
    ensures r in Eligible(mems, security) <==>
            exists m <- mems :: Usable(m, security) && r == Range(m.base, m.high - m.base + 1)
    decreases mems
  {
    if mems != [] {
      EligibleAreUsable(mems[1..], security, r);
      assert mems == [mems[0]] + mems[1..];
      assert IsEligible(mems[0], security) <==> Usable(mems[0], security);
    }
  }

  lemma CoveredIsAddressed(mems: seq<Mem>, security: Security, a: int)
    ensures CoveredAt(Eligible(mems, security), a) <==> Addressed(mems, security, a)
  {
    if CoveredAt(Eligible(mems, security), a) {
      var r :| r in Eligible(mems, security) && Holds(r, a);
      EligibleAreUsable(mems, security, r);
    }
    if m :| m in mems && Usable(m, security) && m.base <= a <= m.high {
      var r := Range(m.base, m.high - m.base + 1);
      EligibleAreUsable(mems, security, r);
      assert Holds(r, a);
    }
  }

  /** Where the check passes, every one of the 0x2A000 addresses from 0xfffc0000 on lies in a usable memory. */
  lemma PassingMeansMemory(mems: seq<Mem>, security: Security, a: int)
    requires Accepts(Eligible(mems, security)) && 0xfffc_0000 <= a < 0xfffc_0000 + 0x2_A000
    ensures Addressed(mems, security, a)
  {
    AcceptanceIsSound(Eligible(mems, security));
    CoveredIsAddressed(mems, security, a);
  }

  /** The usable memories do not overlap, and none is empty. */
  predicate DisjointMems(mems: seq<Mem>, security: Security) {
    && (forall m <- mems :: Usable(m, security) ==> m.base <= m.high)
    && forall i, j :: 0 <= i < j < |mems| && Usable(mems[i], security) && Usable(mems[j], security) ==>
         mems[i].high < mems[j].base || mems[j].high < mems[i].base
  }

  /** The first memory's range lies apart from those of the others. */
  lemma FirstIsApart(mems: seq<Mem>, security: Security, r: Range)
    requires DisjointMems(mems, security) && mems != [] && Usable(mems[0], security) && r in Eligible(mems[1..], security)
    ensures End(RangeOf(mems[0])) <= r.base || End(r) <= mems[0].base
  {
    EligibleAreUsable(mems[1..], security, r);
    var m :| m in mems[1..] && Usable(m, security) && r == Range(m.base, m.high - m.base + 1);
    var j :| 0 <= j < |mems[1..]| && mems[1..][j] == m;
    assert mems[j + 1] == m;
  }

  lemma OneMoreDisjoint(first: Range, tail: seq<Range>)
    requires Disjoint(tail) && first.size > 0
    requires forall r <- tail :: End(first) <= r.base || End(r) <= first.base
    ensures Disjoint([first] + tail)
  {
    var all := [first] + tail;
    forall i, j | 0 <= i < j < |all| ensures End(all[i]) <= all[j].base || End(all[j]) <= all[i].base {
      if i == 0 { assert all[j] == tail[j - 1] && tail[j - 1] in tail; }
    }
  }

  lemma {:induction false} DisjointMemsGiveDisjoint(mems: seq<Mem>, security: Security)
    requires DisjointMems(mems, security)
    ensures Disjoint(Eligible(mems, security))
    decreases mems
  {
    if mems != [] {
      assert mems[0] in mems && forall m <- mems[1..] :: m in mems;
      DisjointMemsGiveDisjoint(mems[1..], security);
      if Usable(mems[0], security) {
        forall r <- Eligible(mems[1..], security) ensures End(RangeOf(mems[0])) <= r.base || End(r) <= mems[0].base {
          FirstIsApart(mems, security, r);
        }
        OneMoreDisjoint(RangeOf(mems[0]), Eligible(mems[1..], security));
      }
    }
  }

  /** For memories that do not overlap the check passes exactly when all of those addresses are there and either one
      memory alone starts at the first and holds them all, or none holds the address just below it. */
  lemma PassingIsExact(mems: seq<Mem>, security: Security)
    requires DisjointMems(mems, security)
    ensures Accepts(Eligible(mems, security)) <==>
            && (forall a :: 0xfffc_0000 <= a < 0xfffc_0000 + 0x2_A000 ==> Addressed(mems, security, a))
            && ((exists m <- mems :: Usable(m, security) && m.base == 0xfffc_0000 && m.high >= 0xfffc_0000 + 0x2_A000 - 1)
                || !Addressed(mems, security, 0xfffb_ffff))
  {
    var rs := Eligible(mems, security);
    DisjointMemsGiveDisjoint(mems, security);
    AcceptanceIsExact(rs);
    forall a ensures CoveredAt(rs, a) <==> Addressed(mems, security, a) { CoveredIsAddressed(mems, security, a); }
    if r :| r in rs && Enough(r) { EligibleAreUsable(mems, security, r); }
    if m :| m in mems && Usable(m, security) && m.base == START && m.high >= START + REQUIRED - 1 {
      EligibleAreUsable(mems, security, Range(m.base, m.high - m.base + 1));
      assert Enough(Range(m.base, m.high - m.base + 1));
    }
  }
}
