/** From clusters of windows to the reported line regions. */
module CloneRegions {
  import opened Prelude
  import opened StableSort
  import opened Intervals
  import opened UnionFind
  import opened CloneClusters

  /** The lines each window spans. */
  function Windows(idxs: seq<int>): (r: seq<Interval>)
    ensures |r| == |idxs| && forall k :: 0 <= k < |r| ==> r[k] == Interval(idxs[k], idxs[k] + WINDOW - 1)
  {
    if idxs == [] then [] else [Interval(idxs[0], idxs[0] + WINDOW - 1)] + Windows(idxs[1..])
  }

  predicate Ascending(idxs: seq<int>) {
    forall k :: 0 < k < |idxs| ==> idxs[k - 1] < idxs[k]
  }

  lemma WindowsSnoc(idxs: seq<int>, i: int)
    ensures Windows(idxs + [i]) == Windows(idxs) + [Interval(i, i + WINDOW - 1)]
    ensures AllLines(Windows(idxs + [i])) == AllLines(Windows(idxs)) + Lines(Interval(i, i + WINDOW - 1))
  {
    AllLinesAppend(Windows(idxs), [Interval(i, i + WINDOW - 1)]);
    OneRun(Interval(i, i + WINDOW - 1));
    hide AllLines, Lines, Windows;
    assert Windows(idxs + [i]) == Windows(idxs) + [Interval(i, i + WINDOW - 1)];
  }

  lemma {:induction false} SizeSnoc(runs: seq<Interval>, iv: Interval)
    ensures Size(runs + [iv]) == Size(runs) + iv.end - iv.start + 1
  {
    if runs == [] {
      assert [] + [iv] == [iv] && [iv][1..] == [];
    } else {
      SizeSnoc(runs[1..], iv);
      assert (runs + [iv])[1..] == runs[1..] + [iv];
    }
  }

  /** The flushed runs and the open one, `start` to the end of window `prev`, cover the first `k` windows. */
  ghost predicate Merging(runs: seq<Interval>, sigLines: int, start: int, prev: int, idxs: seq<int>, k: nat)
    requires k <= |idxs|
  {
    var all := runs + [Interval(start, prev + WINDOW - 1)];
    start <= prev && Apart(all) && AllLines(all) == AllLines(Windows(idxs[..k])) && sigLines == Size(runs)
  }

  lemma MergeStart(idxs: seq<int>)
    requires idxs != []
    ensures Merging([], 0, idxs[0], idxs[0], idxs, 1)
  {
    var first := Interval(idxs[0], idxs[0] + WINDOW - 1);
    OneRun(first);
    assert idxs[..1] == [] + [idxs[0]];
    WindowsSnoc([], idxs[0]);
    assert [] + [first] == [first] && AllLines(Windows([])) == {};
  }

  lemma MergeNext(runs: seq<Interval>, sigLines: int, start: int, prev: int, idxs: seq<int>, k: nat)
    requires 0 < k < |idxs| && Merging(runs, sigLines, start, prev, idxs, k) && prev == idxs[k - 1] < idxs[k]
    ensures idxs[k] > prev + WINDOW ==>
      Merging(runs + [Interval(start, prev + WINDOW - 1)], sigLines + (prev + WINDOW - start), idxs[k], idxs[k], idxs, k + 1)
    ensures idxs[k] <= prev + WINDOW ==> Merging(runs, sigLines, start, idxs[k], idxs, k + 1)
  {
    hide AllLines, Lines, Windows, Size, Apart;
    var last, i := Interval(start, prev + WINDOW - 1), idxs[k];
    AbsorbKeepsApart(runs + [last], Interval(i, i + WINDOW - 1));
    assert idxs[..k + 1] == idxs[..k] + [i];
    WindowsSnoc(idxs[..k], i);
    SizeSnoc(runs, last);
    assert (runs + [last])[|runs| := Interval(start, i + WINDOW - 1)] == runs + [Interval(start, i + WINDOW - 1)];
  }

  lemma MergeEnd(runs: seq<Interval>, sigLines: int, start: int, prev: int, idxs: seq<int>)
    requires Merging(runs, sigLines, start, prev, idxs, |idxs|)
    ensures var all := runs + [Interval(start, prev + WINDOW - 1)];
      Apart(all) && AllLines(all) == AllLines(Windows(idxs)) && sigLines + (prev + WINDOW - start) == |AllLines(Windows(idxs))|
  {
    hide AllLines, Windows, Size, Apart;
    assert idxs[..|idxs|] == idxs;
    SizeSnoc(runs, Interval(start, prev + WINDOW - 1));
    SizeIsCount(runs + [Interval(start, prev + WINDOW - 1)]);
  }

  /** The maximal runs of lines the windows cover, and how many lines that is. */
  method MergeWindows(idxs: seq<int>) returns (runs: seq<Interval>, sigLines: int)
    requires idxs != [] && Ascending(idxs)
    ensures runs != [] && Apart(runs) && AllLines(runs) == AllLines(Windows(idxs)) && sigLines == |AllLines(Windows(idxs))|
  {
    hide AllLines, Windows, Apart, Merging;
    runs, sigLines := [], 0;
    var start, prev := idxs[0], idxs[0];
    MergeStart(idxs);
    for k := 1 to |idxs|
      invariant prev == idxs[k - 1] && Merging(runs, sigLines, start, prev, idxs, k)
    {
      MergeNext(runs, sigLines, start, prev, idxs, k);
      if idxs[k] > prev + WINDOW {
        runs, sigLines := runs + [Interval(start, prev + WINDOW - 1)], sigLines + (prev + WINDOW - start);
        start := idxs[k];
      }
      prev := idxs[k];
    }
    MergeEnd(runs, sigLines, start, prev, idxs);
    runs, sigLines := runs + [Interval(start, prev + WINDOW - 1)], sigLines + (prev + WINDOW - start);
  }

  // ---------------------------------------------------------------- the regions of one cluster

  datatype Region = Region(file: int, lines: Interval)
  datatype Cluster = Cluster(members: set<int>, regions: seq<Region>, sigLines: int)

  /** The windows of file `f` below `n` that belong to the cluster, in order. */
  function FileWindows(members: set<int>, f: int, n: nat): (r: seq<int>)
    ensures Ascending(r) && forall k :: 0 <= k < |r| ==> 0 <= r[k] < n
  {
    if n == 0 then []
    else FileWindows(members, f, n - 1) + if Encode(f, n - 1) in members then [n - 1] else []
  }

  /** The significant lines of file `f` that the cluster covers. */
  function FileLines(hashes: seq<seq<int>>, members: set<int>, f: nat): set<int>
    requires f < |hashes|
  {
    AllLines(Windows(FileWindows(members, f, |hashes[f]|)))
  }

  /** Line `l` is one of the seven lines of a window in the list. */
  ghost predicate Spanned(idxs: seq<int>, l: int) {
    exists i :: i in idxs && i <= l <= i + 6
  }

  lemma {:induction false} LinesOfWindows(idxs: seq<int>, l: int)
    ensures l in AllLines(Windows(idxs)) <==> Spanned(idxs, l)
  {
    if idxs != [] {
      LinesOfWindows(idxs[1..], l);
      SpannedStep(idxs, l);
      assert Windows(idxs)[0] == Interval(idxs[0], idxs[0] + 6) && Windows(idxs)[1..] == Windows(idxs[1..]);
    }
  }

  lemma SpannedStep(idxs: seq<int>, l: int)
    requires idxs != []
    ensures Spanned(idxs, l) <==> idxs[0] <= l <= idxs[0] + 6 || Spanned(idxs[1..], l)
  {
    assert idxs[0] in idxs && forall i :: i in idxs <==> i == idxs[0] || i in idxs[1..];
  }

  ghost predicate HoldsLine(members: set<int>, f: nat, n: nat, i: int, l: int) {
    0 <= i < n && f * 16777216 + i in members && i <= l <= i + 6
  }

  lemma {:induction false} WindowOfFileIff(members: set<int>, f: int, n: nat, i: int)
    ensures i in FileWindows(members, f, n) <==> 0 <= i < n && f * 16777216 + i in members
  {
    if n > 0 {
      WindowOfFileIff(members, f, n - 1, i);
    }
  }

  /** A line is covered by a cluster if and only if one of the cluster's windows in its file holds it among its seven lines. */
  lemma CoveredIff(hashes: seq<seq<int>>, members: set<int>, f: nat, l: int)
    requires f < |hashes|
    ensures l in FileLines(hashes, members, f) <==> exists i :: HoldsLine(members, f, |hashes[f]|, i, l)
  {
    hide AllLines, Windows, FileWindows;
    var idxs := FileWindows(members, f, |hashes[f]|);
    LinesOfWindows(idxs, l);
    if Spanned(idxs, l) {
      var i :| i in idxs && i <= l <= i + 6;
      WindowOfFileIff(members, f, |hashes[f]|, i);
      assert HoldsLine(members, f, |hashes[f]|, i, l);
    }
    if i :| HoldsLine(members, f, |hashes[f]|, i, l) {
      WindowOfFileIff(members, f, |hashes[f]|, i);
      assert i in idxs;
    }
  }

  function TotalLines(hashes: seq<seq<int>>, members: set<int>, n: nat): nat
    requires n <= |hashes|
  {
    if n == 0 then 0 else TotalLines(hashes, members, n - 1) + |FileLines(hashes, members, n - 1)|
  }

  function RunsIn(regions: seq<Region>, f: int): seq<Interval> {
    if regions == [] then []
    else (if regions[0].file == f then [regions[0].lines] else []) + RunsIn(regions[1..], f)
  }

  function Tagged(f: int, runs: seq<Interval>): seq<Region> {
    if runs == [] then [] else [Region(f, runs[0])] + Tagged(f, runs[1..])
  }

  lemma {:induction false} RunsInAppend(a: seq<Region>, b: seq<Region>, f: int)
    ensures RunsIn(a + b, f) == RunsIn(a, f) + RunsIn(b, f)
  {
    if a == [] {
      assert a + b == b;
    } else {
      RunsInAppend(a[1..], b, f);
      assert (a + b)[1..] == a[1..] + b;
      ConcatAssociative(if a[0].file == f then [a[0].lines] else [], RunsIn(a[1..], f), RunsIn(b, f));
    }
  }

  lemma {:induction false} RunsInTagged(g: int, runs: seq<Interval>, f: int)
    ensures RunsIn(Tagged(g, runs), f) == if f == g then runs else []
  {
    if runs != [] {
      RunsInTagged(g, runs[1..], f);
      assert Tagged(g, runs)[1..] == Tagged(g, runs[1..]);
      assert runs == [runs[0]] + runs[1..];
    }
  }

  /** In every file below `n`, the regions are the maximal runs of covered lines, and nothing is reported elsewhere. */
  ghost predicate Describes(hashes: seq<seq<int>>, members: set<int>, regions: seq<Region>, n: nat)
    requires n <= |hashes|
  {
    && (forall f :: 0 <= f < n ==> Apart(RunsIn(regions, f)) && AllLines(RunsIn(regions, f)) == FileLines(hashes, members, f))
    && (forall f :: !(0 <= f < n) ==> RunsIn(regions, f) == [])
  }

  lemma DescribesStep(hashes: seq<seq<int>>, members: set<int>, regions: seq<Region>, n: nat, runs: seq<Interval>)
    requires n < |hashes| && Describes(hashes, members, regions, n)
    requires Apart(runs) && AllLines(runs) == FileLines(hashes, members, n)
    ensures Describes(hashes, members, regions + Tagged(n, runs), n + 1)
  {
    hide Apart, AllLines, FileLines, RunsIn, Tagged;
    var more := regions + Tagged(n, runs);
    forall f: int
      ensures RunsIn(more, f) == RunsIn(regions, f) + if f == n then runs else []
    {
      RunsInAppend(regions, Tagged(n, runs), f);
      RunsInTagged(n, runs, f);
    }
    assert RunsIn(more, n) == [] + runs == runs;
    assert forall f :: f != n ==> RunsIn(more, f) == RunsIn(regions, f);
  }

  method WindowsOfFile(members: set<int>, f: nat, n: nat) returns (idxs: seq<int>)
    ensures idxs == FileWindows(members, f, n)
  {
    idxs := [];
    for i := 0 to n
      invariant idxs == FileWindows(members, f, i)
    {
      if Encode(f, i) in members {
        idxs := idxs + [i];
      }
    }
  }

  lemma DescribesNothing(hashes: seq<seq<int>>, members: set<int>)
    ensures Describes(hashes, members, [], 0)
  {
  }

  method RunsOfFile(hashes: seq<seq<int>>, members: set<int>, f: nat) returns (runs: seq<Interval>, sigLines: int)
    requires f < |hashes|
    ensures Apart(runs) && AllLines(runs) == FileLines(hashes, members, f) && sigLines == |FileLines(hashes, members, f)|
  {
    var idxs := WindowsOfFile(members, f, |hashes[f]|);
    if idxs == [] {
      runs, sigLines := [], 0;
    } else {
      runs, sigLines := MergeWindows(idxs);
    }
  }

  method Assemble(hashes: seq<seq<int>>, members: set<int>) returns (c: Cluster)
    ensures c.members == members && Describes(hashes, members, c.regions, |hashes|)
    ensures c.sigLines == TotalLines(hashes, members, |hashes|)
  {
    var regions: seq<Region>, sigLines := [], 0;
    hide Describes, AllLines, Tagged, Apart, FileLines, RunsIn;
    DescribesNothing(hashes, members);
    for f := 0 to |hashes|
      invariant Describes(hashes, members, regions, f) && sigLines == TotalLines(hashes, members, f)
    {
      var runs, n := RunsOfFile(hashes, members, f);
      DescribesStep(hashes, members, regions, f, runs);
      regions, sigLines := regions + Tagged(f, runs), sigLines + n;
    }
    c := Cluster(members, regions, sigLines);
  }

  // ---------------------------------------------------------------- all clusters

  /** A class of the closure of "same hash" and "next to each other" on the matched windows. */
  ghost predicate IsClass(hashes: seq<seq<int>>, members: set<int>) {
    && members != {} && members <= Matched(hashes)
    && forall p, q :: p in members && q in Matched(hashes) ==> (q in members <==> Connected(RelatedPairs(hashes), p, q))
  }

  ghost predicate IsReport(hashes: seq<seq<int>>, c: Cluster) {
    && IsClass(hashes, c.members)
    && Describes(hashes, c.members, c.regions, |hashes|)
    && c.sigLines == TotalLines(hashes, c.members, |hashes|)
  }

  predicate LargerFirst(a: Cluster, b: Cluster) {
    a.sigLines >= b.sigLines
  }

  ghost predicate ByRoot(groups: map<int, set<int>>, root: int -> int, done: set<int>) {
    && (forall r :: r in groups ==> groups[r] != {} && groups[r] <= done && forall p :: p in groups[r] ==> root(p) == r)
    && (forall p :: p in done ==> root(p) in groups && p in groups[root(p)])
  }

  lemma ByRootStep(groups: map<int, set<int>>, root: int -> int, done: set<int>, p: int)
    requires ByRoot(groups, root, done)
    ensures var r := root(p);
      ByRoot(groups[r := (if r in groups then groups[r] else {}) + {p}], root, done + {p})
  {
  }

  method GroupByRoot(uf: Partition, matched: set<int>) returns (groups: map<int, set<int>>)
    requires uf.Valid()
    modifies uf`parent
    ensures uf.Valid() && ByRoot(groups, uf.root, matched)
  {
    groups := map[];
    var order := Enumerate(matched);
    assert ByRoot(groups, uf.root, ToSet(order[..0]));
    hide ByRoot, ToSet, Forest, Classes;
    for i := 0 to |order|
      invariant uf.Valid() && ByRoot(groups, uf.root, ToSet(order[..i]))
    {
      ToSetSnoc(order, i);
      ByRootStep(groups, uf.root, ToSet(order[..i]), order[i]);
      var r := uf.Find(order[i]);
      groups := groups[r := (if r in groups then groups[r] else {}) + {order[i]}];
    }
    assert order[..|order|] == order;
  }

  lemma GroupsAreClasses(hashes: seq<seq<int>>, groups: map<int, set<int>>, root: int -> int, r: int)
    requires ByRoot(groups, root, Matched(hashes)) && r in groups
    requires forall p, q :: p in Matched(hashes) && q in Matched(hashes) ==>
      (root(p) == root(q) <==> Connected(RelatedPairs(hashes), p, q))
    ensures IsClass(hashes, groups[r])
  {
    hide Matched, RelatedPairs, Connected;
  }

  ghost predicate Reported(hashes: seq<seq<int>>, results: seq<Cluster>, p: int) {
    exists c :: IsReport(hashes, c) && p in c.members && (c in results <==> |c.regions| >= 2)
  }

  method SortClusters(cs: seq<Cluster>) returns (r: seq<Cluster>)
    ensures r == Sort(cs, LargerFirst)
  {
    r := [];
    for k := 0 to |cs|
      invariant r == Sort(cs[|cs| - k..], LargerFirst)
    {
      var i := |cs| - 1 - k;
      assert cs[i..][0] == cs[i] && cs[i..][1..] == cs[i + 1..];
      r := Insert(cs[i], r, LargerFirst);
    }
    assert cs[0..] == cs;
  }

  /** No cluster twice, and no two with the same windows. */
  ghost predicate Distinct(found: seq<Cluster>) {
    NoDuplicates(found) && forall c, d :: c in found && d in found && c.members == d.members ==> c == d
  }

  /** What has been assembled for the roots handled so far. */
  ghost predicate Assembled(hashes: seq<seq<int>>, groups: map<int, set<int>>, done: set<int>, found: seq<Cluster>) {
    && Distinct(found)
    && (forall c :: c in found ==> IsReport(hashes, c) && |c.regions| >= 2 && exists r :: r in done && r in groups && c.members == groups[r])
    && (forall r :: r in done && r in groups ==>
          exists c :: IsReport(hashes, c) && c.members == groups[r] && (c in found <==> |c.regions| >= 2))
  }

  lemma AssembledStep(hashes: seq<seq<int>>, groups: map<int, set<int>>, done: set<int>, found: seq<Cluster>, r: int, c: Cluster)
    requires Assembled(hashes, groups, done, found) && r in groups && r !in done
    requires IsReport(hashes, c) && c.members == groups[r]
    requires forall x, y :: x in groups && y in groups && x != y ==> groups[x] != groups[y]
    ensures Assembled(hashes, groups, done + {r}, if |c.regions| >= 2 then found + [c] else found)
  {
    hide IsReport;
    var next := if |c.regions| >= 2 then found + [c] else found;
    forall d | d in found
      ensures d.members != c.members
    {
      var x :| x in done && x in groups && d.members == groups[x];
    }
    if c !in found {
      AppendNoDuplicates(found, c);
    }
    forall s | s in done + {r} && s in groups
      ensures exists d :: IsReport(hashes, d) && d.members == groups[s] && (d in next <==> |d.regions| >= 2)
    {
      if s == r {
        assert |c.regions| < 2 ==> c !in next;
        assert c in next <==> |c.regions| >= 2;
      } else {
        var d :| IsReport(hashes, d) && d.members == groups[s] && (d in found <==> |d.regions| >= 2);
        assert d != c;
        assert d in next <==> |d.regions| >= 2;
      }
    }
  }

  lemma GroupsCover(groups: map<int, set<int>>, root: int -> int, done: set<int>)
    requires ByRoot(groups, root, done)
    ensures forall p :: p in done ==> root(p) in groups && p in groups[root(p)]
  {
  }

  lemma GroupsDiffer(groups: map<int, set<int>>, root: int -> int, done: set<int>)
    requires ByRoot(groups, root, done)
    ensures forall x, y :: x in groups && y in groups && x != y ==> groups[x] != groups[y]
  {
    forall x, y | x in groups && y in groups && x != y
      ensures groups[x] != groups[y]
    {
      var p := Member(groups[x]);
      assert root(p) == x;
    }
  }

  lemma SameClass(hashes: seq<seq<int>>, a: set<int>, b: set<int>, p: int)
    requires IsClass(hashes, a) && IsClass(hashes, b) && p in a && p in b
    ensures a == b
  {
    hide Matched, RelatedPairs, Connected;
    assert forall q :: q in Matched(hashes) ==> (q in a <==> Connected(RelatedPairs(hashes), p, q));
    assert forall q :: q in Matched(hashes) ==> (q in b <==> Connected(RelatedPairs(hashes), p, q));
    assert forall q :: q in a <==> q in b;
  }

  /** Different classes have no window in common. */
  lemma ClassesAreApart(hashes: seq<seq<int>>, a: set<int>, b: set<int>)
    requires IsClass(hashes, a) && IsClass(hashes, b) && a != b
    ensures a !! b
  {
    hide IsClass;
    forall p | p in a
      ensures p !in b
    {
      if p in b {
        SameClass(hashes, a, b, p);
      }
    }
  }

  lemma ReportsAreApart(hashes: seq<seq<int>>, found: seq<Cluster>, results: seq<Cluster>)
    requires Distinct(found) && multiset(results) == multiset(found)
    requires forall c :: c in results ==> IsReport(hashes, c)
    ensures forall i, j :: 0 <= i < j < |results| ==> results[i].members !! results[j].members
  {
    hide IsClass, Describes;
    PermutedDistinct(found, results);
    forall i, j | 0 <= i < j < |results|
      ensures results[i].members !! results[j].members
    {
      assert results[i] in multiset(results) && results[j] in multiset(results);
      assert results[i] in found && results[j] in found && results[i] != results[j];
      assert IsReport(hashes, results[i]) && IsReport(hashes, results[j]);
      ClassesAreApart(hashes, results[i].members, results[j].members);
    }
  }

  method AssembleAll(hashes: seq<seq<int>>, groups: map<int, set<int>>) returns (found: seq<Cluster>)
    requires forall r :: r in groups ==> IsClass(hashes, groups[r])
    requires forall x, y :: x in groups && y in groups && x != y ==> groups[x] != groups[y]
    ensures Assembled(hashes, groups, groups.Keys, found)
  {
    found := [];
    var roots := Enumerate(groups.Keys);
    assert Assembled(hashes, groups, ToSet(roots[..0]), found);
    hide Assembled, IsClass, Describes, TotalLines;
    for i := 0 to |roots|
      invariant Assembled(hashes, groups, ToSet(roots[..i]), found)
    {
      ToSetSnoc(roots, i);
      assert roots[i] !in roots[..i];
      var c := Assemble(hashes, groups[roots[i]]);
      AssembledStep(hashes, groups, ToSet(roots[..i]), found, roots[i], c);
      if |c.regions| >= 2 {
        found := found + [c];
      }
    }
    assert roots[..|roots|] == roots;
  }

  /**
   Every matched window lies in one reported class, unless that class has a single region; reported classes have no
   window in common, and larger clusters come first.
  */
  method DetectClones(hashes: seq<seq<int>>) returns (results: seq<Cluster>)
    requires Encodable(hashes)
    ensures forall c :: c in results ==> IsReport(hashes, c) && |c.regions| >= 2
    ensures forall p :: p in Matched(hashes) ==> Reported(hashes, results, p)
    ensures forall i, j :: 0 <= i < j < |results| ==> results[i].members !! results[j].members
    ensures forall i, j :: 0 <= i < j < |results| ==> results[i].sigLines >= results[j].sigLines
  {
    hide Matched, RelatedPairs, Connected, ByRoot, Forest, IsReport, Sort, IsClass, Encodable;
    var uf, matched := FindClusters(hashes);
    var groups := GroupByRoot(uf, matched);
    forall r | r in groups
      ensures IsClass(hashes, groups[r])
    {
      GroupsAreClasses(hashes, groups, uf.root, r);
    }
    GroupsDiffer(groups, uf.root, matched);
    GroupsCover(groups, uf.root, matched);
    var found := AssembleAll(hashes, groups);
    results := SortClusters(found);
    SortPermutes(found, LargerFirst);
    SortSorted(found, LargerFirst);
    assert forall i, j :: 0 <= i < j < |results| ==> LargerFirst(results[i], results[j]);
    ReportsAreApart(hashes, found, results);
    forall p | p in matched
      ensures Reported(hashes, results, p)
    {
      var r := uf.root(p);
      assert r in groups && p in groups[r];
      var c :| IsReport(hashes, c) && c.members == groups[r] && (c in found <==> |c.regions| >= 2);
      assert c in results <==> c in found;
    }
  }
}
