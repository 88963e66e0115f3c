/**
 The stamp that records which inputs a Yocto image was built from: the text it is written as, reading it
 back, and the list of changes since.
 */
module Yocto {
  import opened Ledger
  import opened Order

  // ---------------------------------------------------------------- the stamp as text

  /** The characters at which Python ends a line. */
  predicate IsBreak(c: char) {
    c in {'\n', '\r', '\U{0B}', '\U{0C}', '\U{1C}', '\U{1D}', '\U{1E}', '\U{85}', '\U{2028}', '\U{2029}'}
  }

  predicate IsSpace(c: char) {
    || IsBreak(c) || c in {' ', '\t', '\U{1F}', '\U{A0}', '\U{1680}', '\U{202F}', '\U{205F}', '\U{3000}'}
    || '\U{2000}' <= c <= '\U{200A}'
  }

  predicate IsHex(c: char) {
    '0' <= c <= '9' || 'a' <= c <= 'f'
  }

  predicate IsDigest(s: string) {
    s != "" && forall c <- s :: IsHex(c)
  }

  predicate OneLine(s: string) {
    forall c <- s :: !IsBreak(c)
  }

  /** The first line written: a comment. */
  predicate IsHeader(header: string) {
    OneLine(header) && header != "" && header[0] == '#'
  }

  function Line(entry: (string, string)): string {
    entry.1 + "  " + entry.0
  }

  /** The lines written for (path, digest) pairs, below the header. */
  function Body(entries: seq<(string, string)>): string {
    if entries == [] then "" else Line(entries[0]) + "\n" + Body(entries[1..])
  }

  function Render(header: string, entries: seq<(string, string)>): string {
    header + "\n" + Body(entries)
  }

  /** Where the first line of `s` ends. */
  function LineEnd(s: string): (n: nat)
    ensures n <= |s| && OneLine(s[..n]) && (n < |s| ==> IsBreak(s[n]))
  {
    if s == "" || IsBreak(s[0]) then 0 else 1 + LineEnd(s[1..])
  }

  /** str.splitlines; CR LF ends one line. */
  function SplitLines(s: string): (lines: seq<string>)
    ensures forall l <- lines :: OneLine(l)
    decreases |s|
  {
    if s == "" then []
    else
      var n := LineEnd(s);
      if n == |s| then [s]
      else [s[..n]] + SplitLines(s[if s[n] == '\r' && n + 1 < |s| && s[n + 1] == '\n' then n + 2 else n + 1..])
  }

  /** str.partition at the first two blanks. */
  function Gap(s: string): (r: Option<nat>)
    ensures r.Some? ==> r.value + 1 < |s| && s[r.value] == s[r.value + 1] == ' '
  {
    if |s| < 2 then None
    else if s[0] == ' ' && s[1] == ' ' then Some(0)
    else match Gap(s[1..]) case Some(i) => Some(i + 1) case None => None
  }

  predicate Ignored(line: string) {
    (forall c <- line :: IsSpace(c)) || line[..1] == "#"
  }

  /** What a line adds to what the lines before it recorded. */
  function Entered(out: map<string, string>, line: string): map<string, string> {
    if Ignored(line) then out
    else match Gap(line)
      case Some(i) => out[line[i + 2..] := line[..i]]
      case None => out
  }

  function Collect(lines: seq<string>): map<string, string> {
    if lines == [] then map[] else Entered(Collect(lines[..|lines| - 1]), lines[|lines| - 1])
  }

  function Parse(text: string): map<string, string> {
    Collect(SplitLines(text))
  }

  /** read_yocto_stamp, of the text of an existing stamp. */
  method ReadStamp(text: string) returns (out: map<string, string>)
    ensures out == Parse(text)
  {
    var lines := SplitLines(text);
    out := map[];
    for i := 0 to |lines|
      invariant out == Collect(lines[..i])
    {
      assert lines[..i + 1][..i] == lines[..i];
      var line := lines[i];
      if Ignored(line) { continue; }
      var gap := Gap(line);
      if gap.Some? { out := out[line[gap.value + 2..] := line[..gap.value]]; }
    }
    assert lines[..|lines|] == lines;
  }

  /** write_yocto_stamp, line by line. */
  method WriteStamp(header: string, entries: seq<(string, string)>) returns (text: string)
    ensures text == Render(header, entries)
  {
    text := header + "\n";
    var i := 0;
    while i < |entries|
      invariant i <= |entries| && text + Body(entries[i..]) == Render(header, entries)
    {
      assert entries[i..][0] == entries[i] && entries[i..][1..] == entries[i + 1..];
      assert text + Body(entries[i..]) == text + (Line(entries[i]) + "\n") + Body(entries[i + 1..]);
      text := text + (entries[i].1 + "  " + entries[i].0 + "\n");
      assert entries[i].1 + "  " + entries[i].0 + "\n" == Line(entries[i]) + "\n";
      i := i + 1;
    }
    assert entries[i..] == [];
  }

  // ---------------------------------------------------------------- reading back what was written

  lemma {:induction false} LineEndAt(line: string, rest: string)
    requires OneLine(line)
    ensures LineEnd(line + "\n" + rest) == |line|
    decreases |line|
  {
    var s := line + "\n" + rest;
    if line != "" {
      assert line[0] in line && s[1..] == line[1..] + "\n" + rest;
      forall c <- line[1..] ensures c in line { }
      LineEndAt(line[1..], rest);
    }
  }

  lemma FirstLine(line: string, rest: string)
    requires OneLine(line)
    ensures SplitLines(line + "\n" + rest) == [line] + SplitLines(rest)
  {
    var s := line + "\n" + rest;
    LineEndAt(line, rest);
    assert s[..|line|] == line && s[|line|] == '\n' && s[|line| + 1..] == rest;
  }

  lemma {:induction false} GapAt(digest: string, rest: string)
    requires forall c <- digest :: c != ' '
    ensures Gap(digest + "  " + rest) == Some(|digest|)
    decreases |digest|
  {
    var s := digest + "  " + rest;
    if digest != "" {
      assert digest[0] in digest && s[1..] == digest[1..] + "  " + rest;
      forall c <- digest[1..] ensures c in digest { }
      GapAt(digest[1..], rest);
    }
  }

  /** At each of these ten characters a line ends, and at no other. */
  lemma BreaksSplit(a: string, b: string, c: char)
    requires OneLine(a) && OneLine(b) && b != ""
    ensures SplitLines(a + [c] + b)
         == if c in {'\n', '\r', '\U{0B}', '\U{0C}', '\U{1C}', '\U{1D}', '\U{1E}', '\U{85}', '\U{2028}', '\U{2029}'}
            then [a, b] else [a + [c] + b]
  {
    var s := a + [c] + b;
    if IsBreak(c) {
      EndsAt(a, c, b);
      assert s[..|a|] == a && s[|a| + 1..] == b && b[0] in b;
      WholeLine(b);
    } else {
      forall d <- s ensures !IsBreak(d) { assert d in a || d == c || d in b; }
      WholeLine(s);
    }
  }

  lemma {:induction false} EndsAt(a: string, c: char, b: string)
    requires OneLine(a) && IsBreak(c)
    ensures LineEnd(a + [c] + b) == |a|
    decreases |a|
  {
    var s := a + [c] + b;
    if a != "" {
      assert a[0] in a && s[1..] == a[1..] + [c] + b;
      forall d <- a[1..] ensures d in a { }
      EndsAt(a[1..], c, b);
    }
  }

  lemma {:induction false} WholeLine(s: string)
    requires OneLine(s) && s != ""
    ensures LineEnd(s) == |s| && SplitLines(s) == [s]
    decreases |s|
  {
    assert s[0] in s;
    if |s| > 1 {
      forall d <- s[1..] ensures d in s { }
      WholeLine(s[1..]);
    }
  }

  predicate Proper(entries: seq<(string, string)>) {
    forall e <- entries :: IsDigest(e.1)
  }

  predicate OneLinePaths(entries: seq<(string, string)>) {
    forall e <- entries :: OneLine(e.0)
  }

  function AsMap(entries: seq<(string, string)>): map<string, string> {
    if entries == [] then map[] else AsMap(entries[..|entries| - 1])[entries[|entries| - 1].0 := entries[|entries| - 1].1]
  }

  lemma {:induction false} AsMapHolds(entries: seq<(string, string)>, e: (string, string))
    requires e in entries
    ensures e.0 in AsMap(entries)
    decreases |entries|
  {
    var n := |entries| - 1;
    if e != entries[n] {
      assert entries == entries[..n] + [entries[n]];
      AsMapHolds(entries[..n], e);
    }
  }

  function Lines(entries: seq<(string, string)>): seq<string> {
    seq(|entries|, i requires 0 <= i < |entries| => Line(entries[i]))
  }

  lemma LineIsOneLine(e: (string, string))
    requires IsDigest(e.1) && OneLine(e.0)
    ensures OneLine(Line(e))
  {
    forall c <- Line(e) ensures !IsBreak(c) {
      var i :| 0 <= i < |Line(e)| && Line(e)[i] == c;
      if i < |e.1| { assert c in e.1; } else if i >= |e.1| + 2 { assert c == e.0[i - |e.1| - 2]; }
    }
  }

  lemma LineIsRead(out: map<string, string>, e: (string, string))
    requires IsDigest(e.1)
    ensures Entered(out, Line(e)) == out[e.0 := e.1]
  {
    var l := Line(e);
    assert l[0] == e.1[0] && l[0] in e.1 && l[0] in l;
    assert l[..1][0] == l[0];
    GapAt(e.1, e.0);
    assert l[..|e.1|] == e.1 && l[|e.1| + 2..] == e.0;
  }

  lemma LinesStep(entries: seq<(string, string)>)
    requires entries != []
    ensures Lines(entries) == [Line(entries[0])] + Lines(entries[1..])
  {
    forall i | 0 < i < |entries| ensures Lines(entries)[i] == Lines(entries[1..])[i - 1] { }
  }

  lemma {:induction false} BodySplits(entries: seq<(string, string)>)
    requires Proper(entries) && OneLinePaths(entries)
    ensures SplitLines(Body(entries)) == Lines(entries)
    decreases |entries|
  {
    if entries == [] {
      assert Lines(entries) == [];
    } else {
      var first, rest := entries[0], entries[1..];
      assert first in entries;
      forall e <- rest ensures e in entries { }
      LineIsOneLine(first);
      FirstLine(Line(first), Body(rest));
      BodySplits(rest);
      LinesStep(entries);
    }
  }

  lemma {:induction false} BodyReads(header: string, entries: seq<(string, string)>)
    requires Proper(entries) && header != "" && header[0] == '#'
    ensures Collect([header] + Lines(entries)) == AsMap(entries)
    decreases |entries|
  {
    var n := |entries|;
    var all := [header] + Lines(entries);
    if n == 0 {
      assert all == [header] && all[..0] == [];
      assert header[..1] == "#";
    } else {
      var front := entries[..n - 1];
      assert all[..n] == [header] + Lines(front);
      assert all[n] == Line(entries[n - 1]) && entries[n - 1] in entries;
      BodyReads(header, front);
      LineIsRead(AsMap(front), entries[n - 1]);
    }
  }

  /** Nothing that is read ever has a line break in its path. */
  lemma {:induction false} ReadPathsAreOneLine(lines: seq<string>)
    requires forall l <- lines :: OneLine(l)
    ensures forall k <- Collect(lines) :: OneLine(k)
    decreases |lines|
  {
    if lines != [] {
      var n := |lines| - 1;
      ReadPathsAreOneLine(lines[..n]);
      var l := lines[n];
      assert l in lines;
      if Gap(l).Some? {
        forall c <- l[Gap(l).value + 2..] ensures c in l { }
      }
    }
  }

  /** Reading a written stamp gives back the recorded inputs exactly when no path has a line break. */
  lemma StampRoundTrip(header: string, entries: seq<(string, string)>)
    requires IsHeader(header) && Proper(entries)
    ensures Parse(Render(header, entries)) == AsMap(entries) <==> OneLinePaths(entries)
  {
    if OneLinePaths(entries) {
      FirstLine(header, Body(entries));
      BodySplits(entries);
      BodyReads(header, entries);
    } else {
      var e :| e in entries && !OneLine(e.0);
      AsMapHolds(entries, e);
      ReadPathsAreOneLine(SplitLines(Render(header, entries)));
    }
  }

  // ---------------------------------------------------------------- changes

  datatype Change<K> = Removed(key: K) | Added(key: K) | Changed(key: K)

  /** The XSA takes part only when both sides have it. */
  predicate Compared<K(==), V>(stamp: map<K, V>, current: map<K, V>, xsa: K, k: K) {
    k != xsa || (xsa in stamp && xsa in current)
  }

  /** What differs at `k`. */
  function Difference<K(==), V(==)>(stamp: map<K, V>, current: map<K, V>, k: K): Option<Change<K>> {
    if k in stamp && k !in current then Some(Removed(k))
    else if k !in stamp && k in current then Some(Added(k))
    else if k in stamp && k in current && stamp[k] != current[k] then Some(Changed(k))
    else None
  }

  /** There is nothing to rebuild for. */
  predicate UpToDate<K(==), V(==)>(stamp: map<K, V>, current: map<K, V>, xsa: K) {
    forall k <- stamp.Keys + current.Keys :: Compared(stamp, current, xsa, k) ==> Difference(stamp, current, k).None?
  }

  /** `out` lists what differs at the first `n` keys, in their order. */
  ghost predicate Listed<V>(stamp: map<string, V>, current: map<string, V>, keys: seq<string>, n: nat,
                                out: seq<Change<string>>)
    requires n <= |keys|
  {
    && (forall c :: c in out <==> c.key in keys[..n] && Difference(stamp, current, c.key) == Some(c))
    && forall i, j :: 0 <= i < j < |out| ==> Less(out[i].key, out[j].key)
  }

  function AsList<T>(o: Option<T>): seq<T> {
    match o case Some(c) => [c] case None => []
  }

  lemma ListOne<V>(stamp: map<string, V>, current: map<string, V>, keys: seq<string>, n: nat, out: seq<Change<string>>)
    requires n < |keys| && Ascending(keys) && Listed(stamp, current, keys, n, out)
    ensures Listed(stamp, current, keys, n + 1, out + AsList(Difference(stamp, current, keys[n])))
  {
    var k := keys[n];
    var more := AsList(Difference(stamp, current, k));
    assert keys[..n + 1] == keys[..n] + [k];
    forall i | 0 <= i < |out| ensures Less(out[i].key, k) {
      assert out[i] in out && out[i].key in keys[..n];
    }
    forall c ensures c in more <==> c.key == k && Difference(stamp, current, k) == Some(c) { }
  }

  /** yocto_input_changes: after the XSA is set aside where need be, one entry for each key that was
      removed, added or changed, none for any other, and all in the order of their keys. */
  method InputChanges<V(==)>(stamp: map<string, V>, current: map<string, V>, xsa: string)
    returns (out: seq<Change<string>>)
    ensures forall c :: c in out <==>
              Compared(stamp, current, xsa, c.key) && Difference(stamp, current, c.key) == Some(c)
    ensures forall i, j :: 0 <= i < j < |out| ==> Less(out[i].key, out[j].key)
    ensures out == [] <==> UpToDate(stamp, current, xsa)
    ensures forall k :: k != xsa ==>
              && (Removed(k) in out <==> k in stamp && k !in current)
              && (Added(k) in out <==> k !in stamp && k in current)
              && (Changed(k) in out <==> k in stamp && k in current && stamp[k] != current[k])
    ensures Removed(xsa) !in out && Added(xsa) !in out
    ensures Changed(xsa) in out <==> xsa in stamp && xsa in current && stamp[xsa] != current[xsa]
  {
    var old_, new_ := stamp, current;
    if xsa !in stamp || xsa !in current {
      old_, new_ := stamp - {xsa}, current - {xsa};
    }
    var keys := Sorted(old_.Keys + new_.Keys);
    out := [];
    for n := 0 to |keys|
      invariant Listed(old_, new_, keys, n, out)
    {
      var k := keys[n];
      ghost var was := out;
      assert k in keys;
      ListOne(old_, new_, keys, n, out);
      if k !in new_ {
        out := out + [Removed(k)];
      } else if k !in old_ {
        out := out + [Added(k)];
      } else if old_[k] != new_[k] {
        out := out + [Changed(k)];
      }
      assert out == was + AsList(Difference(old_, new_, k));
    }
    assert keys[..|keys|] == keys;
    AllListed(stamp, current, xsa, old_, new_, out);
  }

  lemma AllListed<V>(stamp: map<string, V>, current: map<string, V>, xsa: string,
                     before: map<string, V>, now: map<string, V>, out: seq<Change<string>>)
    requires var aside := xsa !in stamp || xsa !in current;
             before == (if aside then stamp - {xsa} else stamp) && now == if aside then current - {xsa} else current
    requires forall c :: c in out <==> (c.key in before || c.key in now) && Difference(before, now, c.key) == Some(c)
    ensures forall c :: c in out <==>
              Compared(stamp, current, xsa, c.key) && Difference(stamp, current, c.key) == Some(c)
    ensures out == [] <==> UpToDate(stamp, current, xsa)
  {
    forall k
      ensures Difference(before, now, k)
           == if Compared(stamp, current, xsa, k) then Difference(stamp, current, k) else None
    {
    }
    forall k ensures Difference(before, now, k).Some? ==> Difference(before, now, k).value in out { }
    if out == [] {
      assert forall k :: Difference(before, now, k).None?;
    } else {
      assert out[0] in out;
    }
  }

  /** The same inputs with the same contents, where an XSA that only one side has does not count. */
  ghost predicate Same<K(!new), V>(a: map<K, V>, b: map<K, V>, xsa: K) {
    && (forall k :: k != xsa ==> (k in a <==> k in b) && (k in a && k in b ==> a[k] == b[k]))
    && (xsa in a && xsa in b ==> a[xsa] == b[xsa])
  }

  lemma UpToDateIsSame<K(!new), V>(stamp: map<K, V>, current: map<K, V>, xsa: K)
    ensures UpToDate(stamp, current, xsa) <==> Same(stamp, current, xsa)
  {
    if UpToDate(stamp, current, xsa) {
      forall k | k in stamp || k in current
        ensures Compared(stamp, current, xsa, k) ==> k in stamp && k in current && stamp[k] == current[k]
      {
        assert k in stamp.Keys + current.Keys;
      }
    }
  }

  /** No change is reported exactly when the two maps agree, but for an XSA only one side has. */
  lemma UpToDateIff<K(!new), V>(stamp: map<K, V>, current: map<K, V>, xsa: K)
    ensures UpToDate(stamp, current, xsa) <==>
            if xsa in stamp && xsa in current then stamp == current else stamp - {xsa} == current - {xsa}
  {
    if UpToDate(stamp, current, xsa) {
      forall k | Compared(stamp, current, xsa, k) && (k in stamp || k in current)
        ensures k in stamp && k in current && stamp[k] == current[k]
      {
        assert k in stamp.Keys + current.Keys;
      }
    } else {
      var k :| k in stamp.Keys + current.Keys && Compared(stamp, current, xsa, k) && Difference(stamp, current, k).Some?;
      if !(xsa in stamp && xsa in current) {
        assert k in stamp <==> k in stamp - {xsa};
        assert k in current <==> k in current - {xsa};
        if k in stamp && k in current { assert (stamp - {xsa})[k] != (current - {xsa})[k]; }
      }
    }
  }
}
