/** What the twelve results of a session are: the largest, and of equal ones the earliest. */
module SessionTop {
  import opened Prelude
  import opened StableSort
  import opened SessionScan

  /** The results of one size, in the order in which the session has them. */
  function OfSize(log: seq<Entry>, toks: nat): seq<Entry> {
    if log == [] then [] else (if log[0].toks == toks then [log[0]] else []) + OfSize(log[1..], toks)
  }

  lemma OfSizeStep(log: seq<Entry>, toks: nat)
    requires log != []
    ensures OfSize(log, toks) == (if log[0].toks == toks then [log[0]] else []) + OfSize(log[1..], toks)
  {
  }

  lemma {:induction false} OfSizeAppend(a: seq<Entry>, b: seq<Entry>, toks: nat)
    ensures OfSize(a + b, toks) == OfSize(a, toks) + OfSize(b, toks)
  {
    if a == [] {
      assert a + b == b && OfSize(a, toks) == [];
    } else {
      OfSizeAppend(a[1..], b, toks);
      OfSizeJoins(a, b, toks);
    }
  }

  lemma OfSizeJoins(a: seq<Entry>, b: seq<Entry>, toks: nat)
    requires a != [] && OfSize(a[1..] + b, toks) == OfSize(a[1..], toks) + OfSize(b, toks)
    ensures OfSize(a + b, toks) == OfSize(a, toks) + OfSize(b, toks)
  {
    hide OfSize;
    OfSizeStep(a, toks);
    OfSizeStep(a + b, toks);
    assert (a + b)[1..] == a[1..] + b;
    ConcatAssociative(if a[0].toks == toks then [a[0]] else [], OfSize(a[1..], toks), OfSize(b, toks));
  }

  lemma {:induction false} OfSizeIsPeers(s: seq<Entry>, k: Entry)
    ensures OfSize(s, k.toks) == Peers(s, k, LargerFirst)
  {
    if s != [] {
      OfSizeIsPeers(s[1..], k);
      PeersStep(s, k, LargerFirst);
    }
  }

  lemma {:induction false} LargeIs(log: seq<Entry>)
    ensures forall e :: e in Large(log) <==> e in log && e.toks > LARGE
    ensures multiset(Large(log)) <= multiset(log)
  {
    if log != [] {
      var front := log[..|log| - 1];
      LargeIs(front);
      assert log == front + [Last(log)];
    }
  }

  lemma {:induction false} LargeOfSize(log: seq<Entry>, toks: nat)
    requires toks > LARGE
    ensures OfSize(Large(log), toks) == OfSize(log, toks)
  {
    if log != [] {
      var front, e := log[..|log| - 1], Last(log);
      LargeOfSize(front, toks);
      assert log == front + [e];
      OfSizeAppend(front, [e], toks);
      if e.toks > LARGE {
        OfSizeAppend(Large(front), [e], toks);
      } else {
        assert OfSize([e], toks) == [] && Large(log) == Large(front);
      }
    }
  }

  lemma TopOfSorted(large: seq<Entry>, e: Entry)
    ensures var sorted := Sort(large, LargerFirst);
      forall i, j :: 0 <= i < j < |sorted| ==> sorted[i].toks >= sorted[j].toks
    ensures OfSize(Sort(large, LargerFirst), e.toks) == OfSize(large, e.toks)
  {
    hide Sort, OfSize;
    LargerFirstIsPreorder();
    var sorted := Sort(large, LargerFirst);
    SortSorted(large, LargerFirst);
    assert forall i, j :: 0 <= i < j < |sorted| ==> LargerFirst(sorted[i], sorted[j]);
    OfSizeIsPeers(sorted, e);
    OfSizeIsPeers(large, e);
    SortIsStable(large, LargerFirst, e);
  }

  function Top(log: seq<Entry>): seq<Entry> {
    Take(Sort(Large(log), LargerFirst), KEPT)
  }

  /** The results kept are entries of the session above the limit, none more often than it occurs, largest first. */
  lemma TopIsSorted(log: seq<Entry>)
    ensures var top := Top(log);
      && |top| <= 12 && multiset(top) <= multiset(log)
      && (forall i, j :: 0 <= i < j < |top| ==> top[i].toks >= top[j].toks)
      && (forall i :: 0 <= i < |top| ==> top[i].toks > 2000)
  {
    hide Sort, Large, OfSize;
    var large, top := Large(log), Top(log);
    var sorted := Sort(large, LargerFirst);
    SortPermutes(large, LargerFirst);
    TopOfSorted(large, Entry("", 0, 0));
    LargeIs(log);
    assert sorted == top + sorted[|top|..];
    forall i | 0 <= i < |top|
      ensures top[i].toks > 2000
    {
      assert top[i] == sorted[i] && sorted[i] in sorted;
    }
  }

  /** A large result that is left out is no larger than any of the twelve. */
  lemma TopIsLargest(log: seq<Entry>, e: Entry)
    requires e in log && e.toks > 2000 && e !in Top(log)
    ensures |Top(log)| == 12 && forall i :: 0 <= i < 12 ==> Top(log)[i].toks >= e.toks
  {
    hide Sort, Large, OfSize;
    var large, top := Large(log), Top(log);
    var sorted := Sort(large, LargerFirst);
    SortPermutes(large, LargerFirst);
    TopOfSorted(large, e);
    LargeIs(log);
    assert e in sorted;
    var k :| 0 <= k < |sorted| && sorted[k] == e;
    assert forall i :: 0 <= i < |top| ==> top[i] == sorted[i] && top[i] in top;
  }

  /** Of results of one size the earlier ones are kept, in their order. */
  lemma TopKeepsOrder(log: seq<Entry>, toks: nat)
    requires toks > 2000
    ensures OfSize(Top(log), toks) <= OfSize(log, toks)
  {
    hide Sort, Large, OfSize;
    var large, top := Large(log), Top(log);
    var sorted := Sort(large, LargerFirst);
    TopOfSorted(large, Entry("", toks, 0));
    LargeOfSize(log, toks);
    assert sorted == top + sorted[|top|..];
    OfSizeAppend(top, sorted[|top|..], toks);
  }
}
