/**
 The order in which directory listings and key lists are sorted: names by their characters, paths by their
 names.
 */
module Order {
  predicate Less(a: string, b: string)
    decreases |a|
  {
    b != "" && (a == "" || a[0] < b[0] || (a[0] == b[0] && Less(a[1..], b[1..])))
  }

  lemma {:induction false} LessIsStrict(a: string)
    ensures !Less(a, a)
    decreases |a|
  {
    if a != "" { LessIsStrict(a[1..]); }
  }

  lemma {:induction false} LessIsTotal(a: string, b: string)
    ensures Less(a, b) || Less(b, a) || a == b
    decreases |a|
  {
    if a != "" && b != "" && a[0] == b[0] {
      LessIsTotal(a[1..], b[1..]);
      assert a == [a[0]] + a[1..] && b == [b[0]] + b[1..];
    }
  }

  lemma {:induction false} LessIsTransitive(a: string, b: string, c: string)
    requires Less(a, b) && Less(b, c)
    ensures Less(a, c)
    decreases |a|
  {
    if a != "" && a[0] == b[0] && b[0] == c[0] { LessIsTransitive(a[1..], b[1..], c[1..]); }
  }

  /** They first differ at `k`, where `a` has the smaller character. */
  predicate LessAt(a: string, b: string, k: nat) {
    k < |a| && k < |b| && a[..k] == b[..k] && a[k] < b[k]
  }

  lemma LessAtRest(a: string, b: string, k: nat)
    requires a != "" && b != "" && a[0] == b[0]
    ensures LessAt(a[1..], b[1..], k) ==> LessAt(a, b, k + 1)
    ensures LessAt(a, b, k) ==> k > 0 && LessAt(a[1..], b[1..], k - 1)
  {
    var c, d := a[1..], b[1..];
    if LessAt(c, d, k) {
      assert a[..k + 1] == [a[0]] + c[..k] && b[..k + 1] == [b[0]] + d[..k];
    }
    if LessAt(a, b, k) {
      assert c[..k - 1] == a[..k][1..] && d[..k - 1] == b[..k][1..];
    }
  }

  lemma LessAtStart(a: string, b: string, k: nat)
    requires a != "" && b != "" && a[0] != b[0]
    ensures LessAt(a, b, k) <==> k == 0 && a[0] < b[0]
  {
    assert k > 0 && k < |a| && k < |b| ==> a[..k][0] != b[..k][0];
  }

  /** `a` comes first exactly when it is a proper beginning of `b`, or has the smaller character where they first
      differ. */
  lemma {:induction false} LessIff(a: string, b: string)
    ensures Less(a, b) <==> a < b || exists k :: LessAt(a, b, k)
    decreases |a|
  {
    if a != "" && b != "" {
      if a[0] == b[0] {
        LessIff(a[1..], b[1..]);
        assert a == [a[0]] + a[1..] && b == [b[0]] + b[1..];
        forall k: nat ensures LessAt(a[1..], b[1..], k) ==> LessAt(a, b, k + 1) { LessAtRest(a, b, k); }
        if k :| LessAt(a, b, k) { LessAtRest(a, b, k); }
      } else {
        LessAtStart(a, b, 0);
        if k :| LessAt(a, b, k) { LessAtStart(a, b, k); }
      }
    }
  }

  predicate Ascending(s: seq<string>) {
    forall i, j :: 0 <= i < j < |s| ==> Less(s[i], s[j])
  }

  method Least(keys: set<string>) returns (k: string)
    requires keys != {}
    ensures k in keys && forall m <- keys :: m != k ==> Less(k, m)
  {
    k :| k in keys;
    var rest := keys - {k};
    while rest != {}
      invariant k in keys && rest <= keys && forall m <- keys :: m in rest || m == k || Less(k, m)
    {
      var m :| m in rest;
      rest := rest - {m};
      LessIsTotal(k, m);
      if Less(m, k) {
        forall x <- keys | x !in rest && x != m ensures Less(m, x) {
          if x != k { LessIsTransitive(m, k, x); }
        }
        k := m;
      }
    }
  }

  /** sorted() of a set of names. */
  method Sorted(keys: set<string>) returns (s: seq<string>)
    ensures Ascending(s) && forall k :: k in s <==> k in keys
  {
    s := [];
    var rest := keys;
    while rest != {}
      invariant rest <= keys && Ascending(s) && (forall k :: k in s <==> k in keys && k !in rest)
      invariant forall k <- s, m <- rest :: Less(k, m)
    {
      var k := Least(rest);
      ghost var was := s;
      s := s + [k];
      rest := rest - {k};
      assert forall i :: 0 <= i < |was| ==> was[i] in was;
    }
  }

  // ---------------------------------------------------------------- paths

  predicate Before(p: seq<string>, q: seq<string>)
    decreases |p|
  {
    q != [] && (p == [] || Less(p[0], q[0]) || (p[0] == q[0] && Before(p[1..], q[1..])))
  }

  lemma {:induction false} BeforeIsStrict(p: seq<string>)
    ensures !Before(p, p)
    decreases |p|
  {
    if p != [] {
      LessIsStrict(p[0]);
      BeforeIsStrict(p[1..]);
    }
  }

  /** Below the same directory the first name that differs decides. */
  lemma {:induction false} BranchesAreOrdered(root: seq<string>, p: seq<string>, q: seq<string>)
    requires root < p && root < q && Less(p[|root|], q[|root|])
    ensures Before(p, q)
    decreases |root|
  {
    if root != [] {
      assert p[0] == root[0] == q[0];
      assert root[1..] < p[1..] && root[1..] < q[1..];
      BranchesAreOrdered(root[1..], p[1..], q[1..]);
    }
  }

  predicate InOrder(s: seq<seq<string>>) {
    forall i, j :: 0 <= i < j < |s| ==> Before(s[i], s[j])
  }

  lemma InOrderHasNoRepeats(s: seq<seq<string>>)
    requires InOrder(s)
    ensures forall i, j :: 0 <= i < j < |s| ==> s[i] != s[j]
  {
    forall i, j | 0 <= i < j < |s| ensures s[i] != s[j] { BeforeIsStrict(s[i]); }
  }

  lemma InOrderAppends(s: seq<seq<string>>, t: seq<seq<string>>)
    requires InOrder(s) && InOrder(t) && forall p <- s, q <- t :: Before(p, q)
    ensures InOrder(s + t)
  {
    var u := s + t;
    forall i, j | 0 <= i < j < |u| ensures Before(u[i], u[j]) {
      if i < |s| <= j { assert s[i] in s && t[j - |s|] in t; }
    }
  }
}
