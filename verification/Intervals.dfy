/** Inclusive line ranges and the runs they cover. */
module Intervals {
  import opened Prelude

  datatype Interval = Interval(start: int, end: int)

  predicate Valid(iv: Interval) {
    iv.start <= iv.end
  }

  predicate AllValid(ivs: seq<Interval>) {
    forall i :: 0 <= i < |ivs| ==> Valid(ivs[i])
  }

  predicate In(iv: Interval, l: int) {
    iv.start <= l <= iv.end
  }

  function Lines(iv: Interval): set<int> {
    set l: int | iv.start <= l <= iv.end && In(iv, l)
  }

  function AllLines(ivs: seq<Interval>): set<int> {
    if ivs == [] then {} else Lines(ivs[0]) + AllLines(ivs[1..])
  }

  function Size(ivs: seq<Interval>): int {
    if ivs == [] then 0 else ivs[0].end - ivs[0].start + 1 + Size(ivs[1..])
  }

  /** In order, and with at least one uncovered line between neighbours. */
  predicate Apart(ivs: seq<Interval>) {
    AllValid(ivs) && forall i :: 0 < i < |ivs| ==> ivs[i - 1].end + 1 < ivs[i].start
  }

  lemma {:induction false} LinesBeyond(ivs: seq<Interval>)
    requires Apart(ivs) && ivs != []
    ensures forall l :: l in AllLines(ivs) ==> ivs[0].start <= l <= Last(ivs).end
    decreases |ivs|
  {
    assert In(ivs[0], ivs[0].start);
    if |ivs| > 1 {
      LinesBeyond(ivs[1..]);
      assert In(ivs[1], ivs[1].start) && ivs[1].start in AllLines(ivs[1..]);
    } else {
      assert ivs[1..] == [];
    }
  }

  lemma {:induction false} RunSize(a: int, n: nat)
    ensures |Lines(Interval(a, a + n - 1))| == n
  {
    var s := Lines(Interval(a, a + n - 1));
    if n == 0 {
      assert s == {};
    } else {
      RunSize(a, n - 1);
      assert s == Lines(Interval(a, a + n - 2)) + {a + n - 1};
    }
  }

  /** The lengths of separate runs add up to the number of lines they cover. */
  lemma {:induction false} SizeIsCount(ivs: seq<Interval>)
    requires Apart(ivs)
    ensures Size(ivs) == |AllLines(ivs)|
  {
    if ivs != [] {
      SizeIsCount(ivs[1..]);
      var first, rest := Lines(ivs[0]), AllLines(ivs[1..]);
      RunSize(ivs[0].start, ivs[0].end - ivs[0].start + 1);
      if ivs[1..] != [] {
        LinesBeyond(ivs[1..]);
      }
      assert first !! rest;
      assert |first + rest| == |first| + |rest|;
    }
  }

  /** Every run is maximal: the lines next to it are not covered. */
  lemma {:induction false} RunsAreMaximal(ivs: seq<Interval>, i: nat)
    requires Apart(ivs) && i < |ivs|
    ensures Lines(ivs[i]) <= AllLines(ivs)
    ensures ivs[i].start - 1 !in AllLines(ivs) && ivs[i].end + 1 !in AllLines(ivs)
    decreases |ivs|
  {
    var rest := ivs[1..];
    if rest != [] {
      LinesBeyond(rest);
      if i > 0 {
        RunsAreMaximal(rest, i - 1);
        assert In(ivs[i], ivs[i].start) && ivs[i].start in AllLines(rest);
      }
    }
  }

  lemma RunsCoverSomething(a: seq<Interval>)
    requires Apart(a)
    ensures a != [] ==> a[0].start in AllLines(a)
    ensures a == [] <==> AllLines(a) == {}
  {
    assert a != [] ==> a[0].start in Lines(a[0]);
  }

  /** Covered lines have one decomposition into separate runs. */
  lemma {:induction false} RunsAreUnique(a: seq<Interval>, b: seq<Interval>)
    requires Apart(a) && Apart(b) && AllLines(a) == AllLines(b)
    ensures a == b
    decreases |a|
  {
    RunsCoverSomething(a);
    RunsCoverSomething(b);
    if a != [] && b != [] {
      FirstRunIs(a, b);
      FirstRunIs(b, a);
      RestLines(a);
      RestLines(b);
      RunsAreUnique(a[1..], b[1..]);
      assert a == [a[0]] + a[1..] && b == [b[0]] + b[1..];
    }
  }

  lemma FirstRunIs(a: seq<Interval>, b: seq<Interval>)
    requires Apart(a) && Apart(b) && AllLines(a) == AllLines(b) && a != [] && b != []
    ensures b[0].start <= a[0].start && (a[0].start == b[0].start ==> a[0].end <= b[0].end)
  {
    LinesBeyond(b);
    assert In(a[0], a[0].start) && a[0].start in AllLines(a);
    RunsAreMaximal(b, 0);
    assert a[0].start <= b[0].end + 1 <= a[0].end ==> In(a[0], b[0].end + 1);
  }

  lemma RestLines(a: seq<Interval>)
    requires Apart(a) && a != []
    ensures AllLines(a[1..]) == AllLines(a) - Lines(a[0])
  {
    if a[1..] != [] {
      LinesBeyond(a[1..]);
    }
  }

  lemma {:induction false} AllLinesAppend(a: seq<Interval>, b: seq<Interval>)
    ensures AllLines(a + b) == AllLines(a) + AllLines(b)
  {
    hide Lines;
    if a == [] {
      assert a + b == b;
    } else {
      AllLinesAppend(a[1..], b);
      assert (a + b)[1..] == a[1..] + b;
    }
  }

  lemma {:induction false} AllLinesPermuted(a: seq<Interval>, b: seq<Interval>)
    requires multiset(a) == multiset(b)
    ensures AllLines(a) == AllLines(b)
  {
    forall l
      ensures l in AllLines(a) <==> l in AllLines(b)
    {
      LineMembers(a, l);
      LineMembers(b, l);
      assert forall iv :: iv in a <==> iv in multiset(a);
      assert forall iv :: iv in b <==> iv in multiset(b);
    }
  }

  ghost predicate Covers(ivs: seq<Interval>, l: int) {
    exists iv :: iv in ivs && l in Lines(iv)
  }

  lemma {:induction false} LineMembers(ivs: seq<Interval>, l: int)
    ensures l in AllLines(ivs) <==> Covers(ivs, l)
  {
    hide Lines;
    if ivs != [] {
      LineMembers(ivs[1..], l);
      assert ivs[0] in ivs && forall iv :: iv in ivs <==> iv == ivs[0] || iv in ivs[1..];
    }
  }

  /** Extends the last run when `iv` touches it, starts a new one otherwise. */
  function Absorb(out: seq<Interval>, iv: Interval): seq<Interval>
    requires out != []
  {
    var last := Last(out);
    if iv.start <= last.end + 1 then
      out[|out| - 1 := Interval(last.start, if last.end < iv.end then iv.end else last.end)]
    else out + [iv]
  }

  lemma AbsorbKeepsApart(out: seq<Interval>, iv: Interval)
    requires out != [] && Apart(out) && Valid(iv) && Last(out).start <= iv.start
    ensures Apart(Absorb(out, iv)) && AllLines(Absorb(out, iv)) == AllLines(out) + Lines(iv)
    ensures Last(Absorb(out, iv)).start <= iv.start && Absorb(out, iv)[0].start == out[0].start
  {
    AbsorbedLines(out, iv);
    hide AllLines, Lines;
  }

  lemma Widened(last: Interval, iv: Interval)
    requires Valid(last) && Valid(iv) && last.start <= iv.start <= last.end + 1
    ensures Lines(Interval(last.start, if last.end < iv.end then iv.end else last.end)) == Lines(last) + Lines(iv)
  {
  }

  lemma AbsorbedLines(out: seq<Interval>, iv: Interval)
    requires out != [] && Valid(Last(out)) && Valid(iv) && Last(out).start <= iv.start
    ensures AllLines(Absorb(out, iv)) == AllLines(out) + Lines(iv)
  {
    hide AllLines, Lines;
    var front, last := out[..|out| - 1], Last(out);
    assert out == front + [last];
    AllLinesAppend(front, [last]);
    OneRun(last);
    if iv.start <= last.end + 1 {
      var wider := Interval(last.start, if last.end < iv.end then iv.end else last.end);
      assert Absorb(out, iv) == front + [wider];
      AllLinesAppend(front, [wider]);
      OneRun(wider);
      Widened(last, iv);
    } else {
      AllLinesAppend(out, [iv]);
      OneRun(iv);
    }
  }

  lemma OneRun(iv: Interval)
    ensures AllLines([iv]) == Lines(iv)
  {
    assert [iv][1..] == [];
  }
}
