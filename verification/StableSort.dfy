/** The order a stable sort leaves. */
module StableSort {
  ghost predicate PreorderOn<T(!new)>(le: (T, T) -> bool, s: seq<T>) {
    && (forall a, b :: a in s && b in s ==> le(a, b) || le(b, a))
    && (forall a, b, c :: a in s && b in s && c in s && le(a, b) && le(b, c) ==> le(a, c))
  }

  ghost predicate Sorted<T(!new)>(s: seq<T>, le: (T, T) -> bool) {
    forall i, j :: 0 <= i < j < |s| ==> le(s[i], s[j])
  }

  function Insert<T>(x: T, s: seq<T>, le: (T, T) -> bool): seq<T> {
    if s == [] || le(x, s[0]) then [x] + s else [s[0]] + Insert(x, s[1..], le)
  }

  function Sort<T>(s: seq<T>, le: (T, T) -> bool): seq<T> {
    if s == [] then [] else Insert(s[0], Sort(s[1..], le), le)
  }

  function Filter<T>(s: seq<T>, keep: T -> bool): seq<T> {
    if s == [] then [] else (if keep(s[0]) then [s[0]] else []) + Filter(s[1..], keep)
  }

  /** The elements that compare equal to `k`. */
  function Peers<T>(s: seq<T>, k: T, le: (T, T) -> bool): seq<T> {
    Filter(s, x => le(x, k) && le(k, x))
  }

  lemma PeersStep<T>(s: seq<T>, k: T, le: (T, T) -> bool)
    requires s != []
    ensures Peers(s, k, le) == (if le(s[0], k) && le(k, s[0]) then [s[0]] else []) + Peers(s[1..], k, le)
  {
  }

  lemma {:induction false} InsertMembers<T>(x: T, s: seq<T>, le: (T, T) -> bool)
    ensures multiset(Insert(x, s, le)) == multiset{x} + multiset(s)
    ensures |Insert(x, s, le)| == |s| + 1
  {
    if s != [] && !le(x, s[0]) {
      InsertMembers(x, s[1..], le);
      assert s == [s[0]] + s[1..];
    }
  }

  lemma {:induction false} SortPermutes<T>(s: seq<T>, le: (T, T) -> bool)
    ensures multiset(Sort(s, le)) == multiset(s) && |Sort(s, le)| == |s|
    ensures forall x :: x in Sort(s, le) <==> x in s
  {
    if s != [] {
      SortPermutes(s[1..], le);
      InsertMembers(s[0], Sort(s[1..], le), le);
      assert s == [s[0]] + s[1..];
    }
    assert forall x :: x in Sort(s, le) <==> x in multiset(Sort(s, le));
    assert forall x :: x in s <==> x in multiset(s);
  }

  lemma {:induction false} InsertSorted<T(!new)>(x: T, s: seq<T>, le: (T, T) -> bool)
    requires PreorderOn(le, [x] + s) && Sorted(s, le)
    ensures Sorted(Insert(x, s, le), le)
  {
    if s != [] {
      assert x in [x] + s && forall y :: y in s ==> y in [x] + s;
      assert s[0] in s;
      if le(x, s[0]) {
        forall j | 0 <= j < |s|
          ensures le(x, s[j])
        {
          assert s[j] in s;
        }
      } else {
        assert forall y :: y in [x] + s[1..] ==> y in [x] + s;
        InsertSorted(x, s[1..], le);
        var r := Insert(x, s[1..], le);
        InsertMembers(x, s[1..], le);
        forall j | 0 <= j < |r|
          ensures le(s[0], r[j])
        {
          assert r[j] in multiset(r);
          assert r[j] == x || r[j] in s[1..];
        }
      }
    }
  }

  lemma {:induction false} SortSorted<T(!new)>(s: seq<T>, le: (T, T) -> bool)
    requires PreorderOn(le, s)
    ensures Sorted(Sort(s, le), le)
  {
    if s != [] {
      assert forall y :: y in s[1..] ==> y in s;
      SortSorted(s[1..], le);
      SortPermutes(s[1..], le);
      InsertSorted(s[0], Sort(s[1..], le), le);
    }
  }

  lemma {:induction false} SortOfSorted<T(!new)>(s: seq<T>, le: (T, T) -> bool)
    requires Sorted(s, le)
    ensures Sort(s, le) == s
  {
    if s != [] {
      SortOfSorted(s[1..], le);
    }
  }

  lemma {:induction false} InsertFilters<T(!new)>(x: T, s: seq<T>, le: (T, T) -> bool, k: T)
    requires PreorderOn(le, [k, x] + s)
    ensures Peers(Insert(x, s, le), k, le) == (if le(x, k) && le(k, x) then [x] else []) + Peers(s, k, le)
  {
    if s != [] && !le(x, s[0]) {
      assert k in [k, x] + s && x in [k, x] + s && s[0] in [k, x] + s;
      assert forall y :: y in [k, x] + s[1..] ==> y in [k, x] + s;
      InsertFilters(x, s[1..], le, k);
    }
  }

  /** Elements that compare equal keep their order. */
  lemma {:induction false} SortIsStable<T(!new)>(s: seq<T>, le: (T, T) -> bool, k: T)
    requires PreorderOn(le, [k] + s)
    ensures Peers(Sort(s, le), k, le) == Peers(s, k, le)
  {
    if s != [] {
      assert forall y :: y in [k] + s[1..] ==> y in [k] + s;
      SortIsStable(s[1..], le, k);
      SortPermutes(s[1..], le);
      assert forall y :: y in [k, s[0]] + Sort(s[1..], le) ==> y in [k] + s;
      InsertFilters(s[0], Sort(s[1..], le), le, k);
    }
  }

  // ---------------------------------------------------------------- the best few

  ghost predicate Preorder<T(!new)>(le: (T, T) -> bool) {
    && (forall a, b :: le(a, b) || le(b, a))
    && (forall a, b, c :: le(a, b) && le(b, c) ==> le(a, c))
  }

  /** Merges two lists; of equal elements the left one comes first. */
  function Merge<T>(x: seq<T>, y: seq<T>, le: (T, T) -> bool): seq<T>
    decreases |x| + |y|
  {
    if x == [] then y
    else if y == [] then x
    else if le(x[0], y[0]) then [x[0]] + Merge(x[1..], y, le)
    else [y[0]] + Merge(x, y[1..], le)
  }

  function Take<T>(s: seq<T>, k: nat): seq<T> {
    if |s| <= k then s else s[..k]
  }

  lemma InsertStep<T>(v: T, h: T, t: seq<T>, le: (T, T) -> bool)
    ensures Insert(v, [h] + t, le) == if le(v, h) then [v] + ([h] + t) else [h] + Insert(v, t, le)
  {
    assert ([h] + t)[1..] == t;
  }

  lemma MergeStep<T>(h: T, t: seq<T>, y: seq<T>, le: (T, T) -> bool)
    ensures Merge([h] + t, y, le) ==
      if y == [] then [h] + t else if le(h, y[0]) then [h] + Merge(t, y, le) else [y[0]] + Merge([h] + t, y[1..], le)
  {
    assert ([h] + t)[1..] == t;
  }

  lemma {:induction false} InsertMerge<T(!new)>(v: T, x: seq<T>, y: seq<T>, le: (T, T) -> bool)
    requires Preorder(le)
    ensures Insert(v, Merge(x, y, le), le) == Merge(Insert(v, x, le), y, le)
    decreases |x| + |y|
  {
    if x == [] {
      assert [v] + [] == [v];
      MergeStep(v, [], y, le);
      if y != [] && !le(v, y[0]) {
        InsertMerge(v, x, y[1..], le);
        assert Merge([], y[1..], le) == y[1..];
      }
    } else if y != [] {
      var a, b := x[0], y[0];
      assert x == [a] + x[1..] && y == [b] + y[1..];
      InsertStep(v, a, x[1..], le);
      if le(a, b) {
        InsertMerge(v, x[1..], y, le);
        InsertStep(v, a, Merge(x[1..], y, le), le);
        if le(v, a) {
          MergeStep(v, x, y, le);
        } else {
          MergeStep(a, Insert(v, x[1..], le), y, le);
        }
      } else {
        InsertMerge(v, x, y[1..], le);
        InsertStep(v, b, Merge(x, y[1..], le), le);
        if le(v, a) {
          MergeStep(v, x, y, le);
        } else {
          MergeStep(a, Insert(v, x[1..], le), y, le);
        }
      }
    }
  }

  lemma {:induction false} SortConcat<T(!new)>(a: seq<T>, b: seq<T>, le: (T, T) -> bool)
    requires Preorder(le)
    ensures Sort(a + b, le) == Merge(Sort(a, le), Sort(b, le), le)
    decreases |a|
  {
    if a == [] {
      assert a + b == b;
    } else {
      SortConcat(a[1..], b, le);
      assert (a + b)[1..] == a[1..] + b;
      InsertMerge(a[0], Sort(a[1..], le), Sort(b, le), le);
    }
  }

  lemma TakeStep<T>(h: T, s: seq<T>, j: nat)
    requires j > 0
    ensures Take([h] + s, j) == [h] + Take(s, j - 1)
  {
  }

  /** The best `j` of a merge need no more than the best `j` of its left side. */
  lemma {:induction false} TakeMerge<T(!new)>(x: seq<T>, y: seq<T>, le: (T, T) -> bool, k: nat, j: nat)
    requires j <= k
    ensures Take(Merge(Take(x, k), y, le), j) == Take(Merge(x, y, le), j)
    decreases |x| + |y|
  {
    if |x| > k && j > 0 && y != [] {
      var t := x[..k];
      assert t[1..] == x[1..][..k - 1];
      if le(x[0], y[0]) {
        TakeMerge(x[1..], y, le, k - 1, j - 1);
        TakeStep(x[0], Merge(x[1..], y, le), j);
        TakeStep(x[0], Merge(t[1..], y, le), j);
      } else {
        TakeMerge(x, y[1..], le, k, j - 1);
        TakeStep(y[0], Merge(x, y[1..], le), j);
        TakeStep(y[0], Merge(t, y[1..], le), j);
      }
    }
  }

  /** Keeping only the best `k` so far does not change the best `k` in the end. */
  lemma PruneKeepsBest<T(!new)>(s: seq<T>, rest: seq<T>, le: (T, T) -> bool, k: nat)
    requires Preorder(le)
    ensures Take(Sort(Take(Sort(s, le), k) + rest, le), k) == Take(Sort(s + rest, le), k)
  {
    assert PreorderOn(le, s);
    hide Sort, Merge, Preorder;
    var best := Take(Sort(s, le), k);
    SortSorted(s, le);
    SortOfSorted(best, le);
    SortConcat(best, rest, le);
    SortConcat(s, rest, le);
    TakeMerge(Sort(s, le), Sort(rest, le), le, k, k);
  }
}
