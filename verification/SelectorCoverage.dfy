/** Line coverage of the range reads of one file. */
module SelectorCoverage {
  import opened Prelude
  import opened StableSort
  import opened Intervals

  /** Tuple order of two ranges. */
  predicate Before(a: Interval, b: Interval) {
    a.start < b.start || (a.start == b.start && a.end <= b.end)
  }

  method SortRanges(ivs: seq<Interval>) returns (r: seq<Interval>)
    ensures r == Sort(ivs, Before)
  {
    r := [];
    for k := 0 to |ivs|
      invariant r == Sort(ivs[|ivs| - k..], Before)
    {
      var i := |ivs| - 1 - k;
      assert ivs[i..][0] == ivs[i] && ivs[i..][1..] == ivs[i + 1..];
      r := Insert(ivs[i], r, Before);
    }
    assert ivs[0..] == ivs;
  }

  method MergeSorted(sorted: seq<Interval>) returns (out: seq<Interval>)
    requires sorted != [] && AllValid(sorted) && forall i :: 0 < i < |sorted| ==> sorted[i - 1].start <= sorted[i].start
    ensures out != [] && Apart(out) && AllLines(out) == AllLines(sorted)
  {
    out := [sorted[0]];
    assert sorted[..1] == [sorted[0]];
    assert Apart(out);
    hide AllLines, Lines, Apart;
    for i := 1 to |sorted|
      invariant out != [] && Apart(out) && Last(out).start <= sorted[i - 1].start
      invariant AllLines(out) == AllLines(sorted[..i])
    {
      AbsorbKeepsApart(out, sorted[i]);
      assert sorted[..i + 1] == sorted[..i] + [sorted[i]];
      AllLinesAppend(sorted[..i], [sorted[i]]);
      OneRun(sorted[i]);
      ghost var next := Absorb(out, sorted[i]);
      var last := Last(out);
      if sorted[i].start <= last.end + 1 {
        out := out[|out| - 1 := Interval(last.start, if last.end < sorted[i].end then sorted[i].end else last.end)];
      } else {
        out := out + [sorted[i]];
      }
      assert out == next;
    }
    assert sorted[..|sorted|] == sorted;
  }

  /** The unique separate runs that cover the same lines. */
  method MergeIntervals(ivs: seq<Interval>) returns (out: seq<Interval>)
    requires forall i :: 0 <= i < |ivs| ==> ivs[i].start <= ivs[i].end
    ensures Apart(out) && AllLines(out) == AllLines(ivs)
    ensures ivs == [] <==> out == []
  {
    if ivs == [] {
      return [];
    }
    hide Apart, AllLines, Sort;
    var sorted := SortRanges(ivs);
    SortedRanges(ivs);
    out := MergeSorted(sorted);
  }

  lemma SortedRanges(ivs: seq<Interval>)
    requires forall i :: 0 <= i < |ivs| ==> ivs[i].start <= ivs[i].end
    ensures var s := Sort(ivs, Before);
      |s| == |ivs| && AllValid(s) && AllLines(s) == AllLines(ivs) && forall i, j :: 0 <= i < j < |s| ==> s[i].start <= s[j].start
  {
    SortPermutes(ivs, Before);
    SortSorted(ivs, Before);
    AllLinesPermuted(Sort(ivs, Before), ivs);
    var s := Sort(ivs, Before);
    forall i | 0 <= i < |s|
      ensures Valid(s[i])
    {
      assert s[i] in s;
      assert s[i] in ivs;
    }
  }

  datatype Position = Inside | GapAbove | GapBelow | Forward | Backward | Both

  function ClassifyFollowup(f: Interval, initial: Interval): Position {
    if f.start >= initial.start && f.end <= initial.end then Inside
    else if f.start > initial.end + 1 then GapAbove
    else if f.end < initial.start - 1 then GapBelow
    else if f.end > initial.end && f.start >= initial.start then Forward
    else if f.start < initial.start && f.end <= initial.end then Backward
    else Both
  }

  /** A follow-up starts a second region exactly when it is classified as a gap. */
  lemma TwoRegionsIffGap(initial: Interval, f: Interval, merged: seq<Interval>)
    requires initial.start <= initial.end && f.start <= f.end && Apart(merged) && AllLines(merged) == AllLines([initial, f])
    ensures |merged| == 2 <==> ClassifyFollowup(f, initial).GapAbove? || ClassifyFollowup(f, initial).GapBelow?
    ensures |merged| == 1 || |merged| == 2
  {
    var position := ClassifyFollowup(f, initial);
    TwoLines(initial, f);
    TwoLines(f, initial);
    if position.GapAbove? {
      RunsAreUnique(merged, [initial, f]);
    } else if position.GapBelow? {
      RunsAreUnique(merged, [f, initial]);
    } else {
      var hull := Interval(if f.start < initial.start then f.start else initial.start, if f.end < initial.end then initial.end else f.end);
      OneRun(hull);
      assert Lines(hull) == Lines(initial) + Lines(f);
      RunsAreUnique(merged, [hull]);
    }
  }

  lemma TwoLines(a: Interval, b: Interval)
    ensures AllLines([a, b]) == Lines(a) + Lines(b)
  {
    OneRun(b);
    assert [a, b][1..] == [b];
  }

  /** Which way a follow-up extends the initial range. */
  lemma PositionMeans(initial: Interval, f: Interval)
    requires initial.start <= initial.end && f.start <= f.end
    ensures var position := ClassifyFollowup(f, initial);
      (position.Inside? <==> Lines(f) <= Lines(initial)) &&
      (position.GapAbove? || position.GapBelow? <==> f.start - 1 > initial.end || f.end + 1 < initial.start) &&
      (position.Forward? <==> f.end > initial.end && initial.start <= f.start <= initial.end + 1) &&
      (position.Backward? <==> f.start < initial.start && initial.start - 1 <= f.end <= initial.end) &&
      (position.Both? <==> f.start < initial.start && f.end > initial.end)
  {
    assert f.start in Lines(f) && f.end in Lines(f);
  }

  datatype Coverage = Coverage(regions: nat, covered: int, extraLines: int, span: int, gapLines: int)

  function Max(a: int, b: int): int {
    if a < b then b else a
  }

  /** The statistics of one file: what the numbers count. */
  method Analyze(initial: Interval, followups: seq<Interval>) returns (c: Coverage, merged: seq<Interval>)
    requires initial.start <= initial.end && forall i :: 0 <= i < |followups| ==> followups[i].start <= followups[i].end
    ensures Apart(merged) && AllLines(merged) == AllLines([initial] + followups) && c.regions == |merged| > 0
    ensures c.covered == |AllLines([initial] + followups)|
    ensures c.extraLines == |AllLines([initial] + followups) - Lines(initial)|
    ensures c.span == Last(merged).end - merged[0].start + 1
    ensures c.gapLines == |Lines(Interval(merged[0].start, Last(merged).end)) - AllLines([initial] + followups)|
  {
    merged := MergeIntervals([initial] + followups);
    var covered := 0;
    for i := 0 to |merged|
      invariant covered + Size(merged[i..]) == Size(merged)
    {
      assert merged[i..][1..] == merged[i + 1..];
      covered := covered + (merged[i].end - merged[i].start + 1);
    }
    var span := Last(merged).end - merged[0].start + 1;
    var initialSize := initial.end - initial.start + 1;
    CoverageCounts(initial, followups, merged);
    c := Coverage(|merged|, covered, Max(0, covered - initialSize), span, span - covered);
  }

  lemma CoverageCounts(initial: Interval, followups: seq<Interval>, merged: seq<Interval>)
    requires Valid(initial) && Apart(merged) && merged != [] && AllLines(merged) == AllLines([initial] + followups)
    ensures var all, box := AllLines([initial] + followups), Lines(Interval(merged[0].start, Last(merged).end));
      Size(merged) == |all| && |all - Lines(initial)| == |all| - (initial.end - initial.start + 1) &&
      |box - all| == (Last(merged).end - merged[0].start + 1) - |all|
  {
    hide Lines, AllLines, Size, Apart;
    var all, first := AllLines([initial] + followups), Lines(initial);
    var box := Interval(merged[0].start, Last(merged).end);
    SizeIsCount(merged);
    RunSize(initial.start, initial.end - initial.start + 1);
    FirstCovered(initial, followups);
    SubsetCount(first, all);
    BoxCovers(merged);
    RunSize(box.start, box.end - box.start + 1);
    SubsetCount(all, Lines(box));
  }

  lemma FirstCovered(initial: Interval, followups: seq<Interval>)
    ensures Lines(initial) <= AllLines([initial] + followups)
  {
    assert ([initial] + followups)[1..] == followups;
  }

  lemma SubsetCount(a: set<int>, b: set<int>)
    requires a <= b
    ensures |b - a| == |b| - |a|
  {
    assert b == a + (b - a);
  }

  lemma BoxCovers(merged: seq<Interval>)
    requires Apart(merged) && merged != []
    ensures merged[0].start <= Last(merged).end
    ensures AllLines(merged) <= Lines(Interval(merged[0].start, Last(merged).end))
  {
    hide AllLines;
    LinesBeyond(merged);
    RunsCoverSomething(merged);
    forall l | l in AllLines(merged)
      ensures l in Lines(Interval(merged[0].start, Last(merged).end))
    {
      assert In(Interval(merged[0].start, Last(merged).end), l);
    }
  }
}
