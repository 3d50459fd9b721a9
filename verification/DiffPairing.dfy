/** Which added bullets of a changelog diff are promoted: pairing, then per-hunk cancelling. */
module DiffPairing {
  /** How many of the first `n` keys are `k`. */
  function Count<K(==)>(keys: seq<K>, n: nat, k: K): (c: nat)
    requires n <= |keys|
    ensures c <= n
  {
    if n == 0 then 0 else Count(keys, n - 1, k) + if keys[n - 1] == k then 1 else 0
  }

  /** How many of the first `n` marked entries have key `k`. */
  function Tally<K(==)>(marks: seq<bool>, keys: seq<K>, n: nat, k: K): (c: nat)
    requires n <= |marks| == |keys|
    ensures c <= n
  {
    if n == 0 then 0
    else Tally(marks, keys, n - 1, k) + if marks[n - 1] && keys[n - 1] == k then 1 else 0
  }

  function Min(a: int, b: int): int {
    if a < b then a else b
  }

  function Max(a: int, b: int): int {
    if a < b then b else a
  }

  lemma {:induction false} CountGrows<K>(keys: seq<K>, m: nat, n: nat, k: K)
    requires m <= n <= |keys|
    ensures Count(keys, m, k) <= Count(keys, n, k)
    ensures m < n && keys[m] == k ==> Count(keys, m, k) < Count(keys, n, k)
    decreases n
  {
    if m < n {
      CountGrows(keys, m, n - 1, k);
    }
  }

  // ---------------------------------------------------------------- pairing additions with removals

  /** The occurrences of `key`, oldest first. */
  ghost predicate Occurrences<K(!new)>(keys: seq<K>, n: nat, key: K, list: seq<nat>)
    requires n <= |keys|
  {
    && |list| == Count(keys, n, key)
    && forall t :: 0 <= t < |list| ==> list[t] < n && keys[list[t]] == key && Count(keys, list[t], key) == t
  }

  ghost predicate Indexed<K(!new)>(byKey: map<K, seq<nat>>, keys: seq<K>, n: nat)
    requires n <= |keys|
  {
    && (forall k :: k in byKey ==> Occurrences(keys, n, k, byKey[k]))
    && (forall k :: k !in byKey ==> Count(keys, n, k) == 0)
  }

  method IndexByKey<K(==, !new)>(keys: seq<K>) returns (byKey: map<K, seq<nat>>)
    ensures Indexed(byKey, keys, |keys|)
  {
    byKey := map[];
    for i := 0 to |keys|
      invariant Indexed(byKey, keys, i)
    {
      var k := keys[i];
      byKey := byKey[k := (if k in byKey then byKey[k] else []) + [i]];
    }
  }

  ghost predicate RemovalMarks<K(!new)>(paired: seq<bool>, removed: seq<K>, added: seq<K>, n: nat)
    requires |paired| == |removed| && n <= |added|
  {
    forall j :: 0 <= j < |removed| ==> (paired[j] <==> Count(removed, j, removed[j]) < Count(added, n, removed[j]))
  }

  ghost predicate AdditionMarks<K(!new)>(paired: seq<bool>, removed: seq<K>, added: seq<K>)
    requires |paired| <= |added|
  {
    forall i :: 0 <= i < |paired| ==> (paired[i] <==> Count(added, i, added[i]) < Count(removed, |removed|, added[i]))
  }

  lemma TakeFirst<K(!new)>(marks: seq<bool>, removed: seq<K>, added: seq<K>, i: nat, list: seq<nat>)
    requires |marks| == |removed| && i < |added| && RemovalMarks(marks, removed, added, i)
    requires Occurrences(removed, |removed|, added[i], list)
    ensures var t := Count(added, i, added[i]);
      if t < |list| then RemovalMarks(marks[list[t] := true], removed, added, i + 1)
      else RemovalMarks(marks, removed, added, i + 1)
  {
    var key, t := added[i], Count(added, i, added[i]);
    forall j | 0 <= j < |removed| && removed[j] == key && Count(removed, j, key) == t
      ensures t < |list| && j == list[t]
    {
      CountGrows(removed, j, |removed|, key);
      var o := list[t];
      if j < o {
        CountGrows(removed, j, o, key);
      } else if o < j {
        CountGrows(removed, o, j, key);
      }
    }
    forall j | 0 <= j < |removed| && removed[j] == key
      ensures Count(removed, j, key) < |list|
    {
      CountGrows(removed, j, |removed|, key);
    }
  }

  /** Every addition takes the first removal of the same item that is still free. */
  method Pair<K(==, !new)>(added: seq<K>, removed: seq<K>) returns (addedPaired: seq<bool>, removedPaired: seq<bool>)
    ensures |addedPaired| == |added| && AdditionMarks(addedPaired, removed, added)
    ensures |removedPaired| == |removed| && RemovalMarks(removedPaired, removed, added, |added|)
  {
    hide Count;
    var byKey := IndexByKey(removed);
    addedPaired, removedPaired := [], seq(|removed|, _ => false);
    StartsUnpaired(removedPaired, removed, added);
    for i := 0 to |added|
      invariant |addedPaired| == i && AdditionMarks(addedPaired, removed, added)
      invariant |removedPaired| == |removed| && RemovalMarks(removedPaired, removed, added, i)
    {
      var key := added[i];
      var list := if key in byKey then byKey[key] else [];
      var t := FirstFree(removedPaired, list, Count(added, i, key));
      TakeFirst(removedPaired, removed, added, i, list);
      if t < |list| {
        removedPaired := removedPaired[list[t] := true];
        addedPaired := addedPaired + [true];
      } else {
        addedPaired := addedPaired + [false];
      }
    }
  }

  lemma StartsUnpaired<K(!new)>(marks: seq<bool>, removed: seq<K>, added: seq<K>)
    requires |marks| == |removed| && forall j :: 0 <= j < |marks| ==> !marks[j]
    ensures RemovalMarks(marks, removed, added, 0)
  {
  }

  method FirstFree(marks: seq<bool>, list: seq<nat>, ghost taken: nat) returns (t: nat)
    requires forall u :: 0 <= u < |list| ==> list[u] < |marks| && (marks[list[u]] <==> u < taken)
    ensures t == Min(taken, |list|)
  {
    t := 0;
    while t < |list| && marks[list[t]]
      invariant t <= |list| && t <= taken
    {
      t := t + 1;
    }
  }

  // ---------------------------------------------------------------- what pairing amounts to

  /** Of each item, min(additions, removals) additions are paired... */
  lemma {:induction false} PairedAdditions<K(!new)>(added: seq<K>, removed: seq<K>, marks: seq<bool>, n: nat, k: K)
    requires n <= |added| == |marks| && AdditionMarks(marks, removed, added)
    ensures Tally(marks, added, n, k) == Min(Count(added, n, k), Count(removed, |removed|, k))
  {
    if n > 0 {
      PairedAdditions(added, removed, marks, n - 1, k);
    }
  }

  /** ...and as many removals, so pairing matches them one to one. */
  lemma {:induction false} PairedRemovals<K(!new)>(added: seq<K>, removed: seq<K>, marks: seq<bool>, n: nat, k: K)
    requires n <= |removed| == |marks| && RemovalMarks(marks, removed, added, |added|)
    ensures Tally(marks, removed, n, k) == Min(Count(removed, n, k), Count(added, |added|, k))
  {
    if n > 0 {
      PairedRemovals(added, removed, marks, n - 1, k);
    }
  }

  // ---------------------------------------------------------------- cancelling inside a hunk

  function Not(marks: seq<bool>): (r: seq<bool>)
    ensures |r| == |marks| && forall i :: 0 <= i < |r| ==> r[i] == !marks[i]
  {
    seq(|marks|, i requires 0 <= i < |marks| => !marks[i])
  }

  /** An unpaired addition is promoted once the unpaired removals of its hunk are used up. */
  ghost predicate PromotionMarks<H(!new)>(
    marks: seq<bool>, hunks: seq<H>, paired: seq<bool>, released: set<H>, removedHunks: seq<H>, removedPaired: seq<bool>)
    requires |marks| <= |hunks| == |paired| && |removedHunks| == |removedPaired|
  {
    forall i :: 0 <= i < |marks| ==>
      (marks[i] <==>
         !paired[i] && hunks[i] !in released &&
         Tally(Not(paired), hunks, i, hunks[i]) >= Tally(Not(removedPaired), removedHunks, |removedHunks|, hunks[i]))
  }

  ghost predicate Remaining<H(!new)>(
    left: map<H, int>, hunks: seq<H>, paired: seq<bool>, n: nat, released: set<H>, removedHunks: seq<H>, removedPaired: seq<bool>)
    requires n <= |hunks| == |paired| && |removedHunks| == |removedPaired|
  {
    forall h :: h !in released ==>
      (if h in left then left[h] else 0) ==
      Max(0, Tally(Not(removedPaired), removedHunks, |removedHunks|, h) - Tally(Not(paired), hunks, n, h))
  }

  method CountUnpaired<H(==, !new)>(removedHunks: seq<H>, removedPaired: seq<bool>) returns (left: map<H, int>)
    requires |removedHunks| == |removedPaired|
    ensures forall h :: (if h in left then left[h] else 0) == Tally(Not(removedPaired), removedHunks, |removedHunks|, h)
  {
    left := map[];
    for j := 0 to |removedHunks|
      invariant forall h :: (if h in left then left[h] else 0) == Tally(Not(removedPaired), removedHunks, j, h)
    {
      if removedPaired[j] {
        continue;
      }
      var h := removedHunks[j];
      left := left[h := (if h in left then left[h] else 0) + 1];
    }
  }

  lemma RemainingStep<H(!new)>(
    left: map<H, int>, hunks: seq<H>, paired: seq<bool>, i: nat, released: set<H>, removedHunks: seq<H>, removedPaired: seq<bool>)
    requires i < |hunks| == |paired| && |removedHunks| == |removedPaired|
    requires Remaining(left, hunks, paired, i, released, removedHunks, removedPaired)
    ensures var h := hunks[i];
      var count := if h in left then left[h] else 0;
      Remaining(
        if !paired[i] && h !in released && count > 0 then left[h := count - 1] else left,
        hunks, paired, i + 1, released, removedHunks, removedPaired)
  {
  }

  lemma MarkStep<H(!new)>(
    left: map<H, int>, marks: seq<bool>, hunks: seq<H>, paired: seq<bool>, released: set<H>, removedHunks: seq<H>, removedPaired: seq<bool>)
    requires |marks| < |hunks| == |paired| && |removedHunks| == |removedPaired|
    requires Remaining(left, hunks, paired, |marks|, released, removedHunks, removedPaired)
    requires PromotionMarks(marks, hunks, paired, released, removedHunks, removedPaired)
    ensures var i := |marks|;
      var h := hunks[i];
      var promoted := !paired[i] && h !in released && (if h in left then left[h] else 0) <= 0;
      PromotionMarks(marks + [promoted], hunks, paired, released, removedHunks, removedPaired)
  {
    hide Tally, Not;
  }

  method Promote<H(==, !new)>(
    hunks: seq<H>, paired: seq<bool>, released: set<H>, removedHunks: seq<H>, removedPaired: seq<bool>)
    returns (marks: seq<bool>)
    requires |hunks| == |paired| && |removedHunks| == |removedPaired|
    ensures |marks| == |hunks| && PromotionMarks(marks, hunks, paired, released, removedHunks, removedPaired)
  {
    var left := CountUnpaired(removedHunks, removedPaired);
    marks := [];
    assert Remaining(left, hunks, paired, 0, released, removedHunks, removedPaired);
    assert PromotionMarks(marks, hunks, paired, released, removedHunks, removedPaired);
    hide Remaining, PromotionMarks;
    for i := 0 to |hunks|
      invariant |marks| == i && PromotionMarks(marks, hunks, paired, released, removedHunks, removedPaired)
      invariant Remaining(left, hunks, paired, i, released, removedHunks, removedPaired)
    {
      var h := hunks[i];
      RemainingStep(left, hunks, paired, i, released, removedHunks, removedPaired);
      MarkStep(left, marks, hunks, paired, released, removedHunks, removedPaired);
      if paired[i] || h in released {
        marks := marks + [false];
        continue;
      }
      var count := if h in left then left[h] else 0;
      if count > 0 {
        left := left[h := count - 1];
        marks := marks + [false];
      } else {
        marks := marks + [true];
      }
    }
  }

  /** A hunk promotes exactly as many items as its unpaired additions exceed its unpaired removals. */
  lemma {:induction false} PromotedPerHunk<H(!new)>(
    marks: seq<bool>, hunks: seq<H>, paired: seq<bool>, released: set<H>, removedHunks: seq<H>, removedPaired: seq<bool>,
    n: nat, h: H)
    requires n <= |marks| == |hunks| == |paired| && |removedHunks| == |removedPaired|
    requires PromotionMarks(marks, hunks, paired, released, removedHunks, removedPaired)
    ensures Tally(marks, hunks, n, h) ==
      if h in released then 0
      else Max(0, Tally(Not(paired), hunks, n, h) - Tally(Not(removedPaired), removedHunks, |removedHunks|, h))
  {
    if n > 0 {
      PromotedPerHunk(marks, hunks, paired, released, removedHunks, removedPaired, n - 1, h);
    }
  }

  /** Entries without a partner: the earlier ones of the same key already use up all entries of that key on the other side. */
  function Unmatched<K(==)>(keys: seq<K>, others: seq<K>): (r: seq<bool>)
    ensures |r| == |keys|
    ensures forall i :: 0 <= i < |r| ==> (r[i] <==> Count(keys, i, keys[i]) >= Count(others, |others|, keys[i]))
  {
    seq(|keys|, i requires 0 <= i < |keys| => Count(keys, i, keys[i]) >= Count(others, |others|, keys[i]))
  }

  /** Pairing and cancelling together: per hunk, what is unmatched among the additions beyond the unmatched removals. */
  lemma MarksPromote<K(!new), H(!new)>(
    added: seq<K>, removed: seq<K>, hunks: seq<H>, removedHunks: seq<H>, released: set<H>,
    addedPaired: seq<bool>, removedPaired: seq<bool>, promoted: seq<bool>, h: H)
    requires |added| == |hunks| == |addedPaired| == |promoted| && |removed| == |removedHunks| == |removedPaired|
    requires AdditionMarks(addedPaired, removed, added) && RemovalMarks(removedPaired, removed, added, |added|)
    requires PromotionMarks(promoted, hunks, addedPaired, released, removedHunks, removedPaired)
    ensures Tally(promoted, hunks, |promoted|, h) ==
      if h in released then 0
      else
        Max(0, Tally(Unmatched(added, removed), hunks, |hunks|, h) - Tally(Unmatched(removed, added), removedHunks, |removedHunks|, h))
  {
    hide Tally, Count, PromotionMarks;
    assert Not(addedPaired) == Unmatched(added, removed);
    assert Not(removedPaired) == Unmatched(removed, added);
    PromotedPerHunk(promoted, hunks, addedPaired, released, removedHunks, removedPaired, |hunks|, h);
  }
}
