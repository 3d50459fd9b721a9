/** Running the fixer twice. */
module ChangelogIdempotent {
  import opened StableSort
  import opened ReleaseOrder
  import opened ChangelogDoc
  import opened ChangelogNormal
  import opened ChangelogItems
  import opened ChangelogClean
  import opened ChangelogSections
  import opened ChangelogFix

  // ---------------------------------------------------------------- a section that needs no more cleaning

  /** Cleaning this subsection again returns its own lines. */
  predicate Final(s: Subsection, keys: set<string>) {
    CleanBody(s.lines, keys) != [] && s.lines == Synthetic(CleanBody(s.lines, keys))
  }

  ghost predicate AllFinal(subs: seq<Subsection>, keys: set<string>) {
    forall s :: s in subs ==> Final(s, keys)
  }

  lemma CleanedIsFinal(title: string, lines: seq<Line>, keys: set<string>)
    requires CleanBody(lines, keys) != []
    ensures Final(Subsection(title, Synthetic(CleanBody(lines, keys))), keys)
  {
    hide CleanBody, Synthetic;
    CleanIsFinal(lines, keys);
  }

  lemma MergeFresh(acc: seq<Subsection>, s: Subsection, keys: set<string>)
    requires forall i :: 0 <= i < |acc| ==> acc[i].title != s.title
    ensures MergeOne(acc, s, keys) ==
      acc + if CleanBody(s.lines, keys) == [] then [] else [Subsection(s.title, Synthetic(CleanBody(s.lines, keys)))]
  {
    hide CleanBody, AppendTexts, Body, Synthetic;
  }

  lemma {:induction false} MergeDistinct(subs: seq<Subsection>, keys: set<string>, n: nat)
    requires DistinctTitles(subs) && n <= |subs|
    ensures AllFinal(MergeUpTo(subs, keys, n), keys)
    ensures forall s :: s in MergeUpTo(subs, keys, n) ==> exists i :: 0 <= i < n && subs[i].title == s.title
    ensures n > 0 ==> forall s :: s in MergeUpTo(subs, keys, n - 1) ==> s.title != subs[n - 1].title
  {
    hide MergeOne, Final, CleanBody, Synthetic;
    if n > 0 {
      MergeDistinct(subs, keys, n - 1);
      var acc, s := MergeUpTo(subs, keys, n - 1), subs[n - 1];
      forall i | 0 <= i < |acc|
        ensures acc[i].title != s.title
      {
        assert acc[i] in acc;
      }
      MergeFresh(acc, s, keys);
      if CleanBody(s.lines, keys) != [] {
        CleanedIsFinal(s.title, s.lines, keys);
      }
    }
  }

  lemma {:induction false} MergeKeys(subs: seq<Subsection>, keys: set<string>, n: nat)
    requires DistinctTitles(subs) && n <= |subs|
    ensures SubKeys(MergeUpTo(subs, keys, n)) == SubKeys(subs[..n]) - keys
  {
    hide MergeOne, Items, KeysOf, CleanBody, Synthetic, AllFinal;
    if n == 0 {
      assert subs[..0] == [];
    } else {
      MergeKeys(subs, keys, n - 1);
      MergeDistinct(subs, keys, n);
      hide SubKeys;
      var acc, s := MergeUpTo(subs, keys, n - 1), subs[n - 1];
      assert forall i :: 0 <= i < |acc| ==> acc[i] in acc;
      MergeFresh(acc, s, keys);
      CleanKeys(s.lines, keys);
      assert subs[..n] == subs[..n - 1] + [s];
      SubKeysAppend(subs[..n - 1], [s]);
      SubKeysOne(s);
      if CleanBody(s.lines, keys) == [] {
        assert MergeUpTo(subs, keys, n) == acc + [] == acc;
      } else {
        var done := Subsection(s.title, Synthetic(CleanBody(s.lines, keys)));
        SubKeysAppend(acc, [done]);
        SubKeysOne(done);
      }
    }
  }

  lemma CleanKeys(lines: seq<Line>, keys: set<string>)
    ensures KeysOf(Items(Synthetic(CleanBody(lines, keys)))) == KeysOf(Items(lines)) - keys
    ensures CleanBody(lines, keys) == [] ==> KeysOf(Items(lines)) - keys == {}
  {
    hide Items, KeysOf, CleanBody;
    CleanIsFinal(lines, keys);
    KeptItemsFilter(Items(lines), keys);
    NoItems();
  }

  lemma SubKeysOne(s: Subsection)
    ensures SubKeys([s]) == KeysOf(Items(s.lines))
  {
    hide Items, KeysOf;
    assert [s][1..] == [];
  }

  lemma {:induction false} SubKeysAppend(a: seq<Subsection>, b: seq<Subsection>)
    ensures SubKeys(a + b) == SubKeys(a) + SubKeys(b)
  {
    hide Items, KeysOf;
    if a == [] {
      assert a + b == b;
    } else {
      SubKeysAppend(a[1..], b);
      assert (a + b)[1..] == a[1..] + b;
    }
  }

  lemma {:induction false} MergeFinal(subs: seq<Subsection>, keys: set<string>, n: nat)
    requires DistinctTitles(subs) && AllFinal(subs, keys) && n <= |subs|
    ensures MergeUpTo(subs, keys, n) == subs[..n]
  {
    hide MergeOne, CleanBody, Synthetic;
    if n > 0 {
      MergeFinal(subs, keys, n - 1);
      var s := subs[n - 1];
      assert s in subs;
      MergeFresh(subs[..n - 1], s, keys);
      assert subs[..n] == subs[..n - 1] + [s];
    }
  }

  lemma SortedTwice(subs: seq<Subsection>)
    ensures Sort(Sort(subs, SubLe), SubLe) == Sort(subs, SubLe)
  {
    hide TitleOrder;
    SortSorted(subs, SubLe);
    SortOfSorted(Sort(subs, SubLe), SubLe);
  }

  /** Normalizing a section without repeated titles is idempotent, and loses no key but the dropped ones. */
  lemma NormalizingIsIdempotent(s: Section, keys: set<string>)
    requires DistinctTitles(s.subs)
    ensures NormalizedSection(NormalizedSection(s, keys), keys) == NormalizedSection(s, keys)
    ensures s.title != UNRELEASED ==> SubKeys(NormalizedSection(s, keys).subs) == SubKeys(s.subs) - keys
  {
    hide MergeUpTo, Sort, Final, SubKeys, Body;
    var m := MergeUpTo(s.subs, keys, |s.subs|);
    MergeDistinct(s.subs, keys, |s.subs|);
    MergeKeys(s.subs, keys, |s.subs|);
    MergedDistinct(s.subs, keys, |s.subs|);
    assert s.subs[..|s.subs|] == s.subs;
    BodyOfBody(s.leading);
    var o := Ordered(s.title, m);
    if s.title == UNRELEASED {
      SortPermutes(m, SubLe);
      DistinctMembers(m, o);
      SortedTwice(m);
    }
    MergeFinal(o, keys, |o|);
    assert o[..|o|] == o;
  }

  // ---------------------------------------------------------------- the whole document

  ghost predicate NoRepeats(ss: seq<Section>) {
    forall s :: s in ss ==> DistinctTitles(s.subs)
  }

  predicate NumericTitles(ss: seq<Section>) {
    forall s :: s in ss && s.title != UNRELEASED ==> Numeric(s.title)
  }

  predicate AllTitled(ss: seq<Section>, unreleased: bool) {
    forall s :: s in ss ==> (s.title == UNRELEASED) == unreleased
  }

  /** Every section of `ss` is already normalized, the first [Unreleased] one against `keys`. */
  ghost predicate Stable(ss: seq<Section>, keys: set<string>) {
    NormalizeAll(ss, keys) == ss
  }

  lemma {:induction false} NormalizedIsStable(ss: seq<Section>, keys: set<string>)
    requires NoRepeats(ss)
    ensures Stable(NormalizeAll(ss, keys), keys)
    decreases |ss|
  {
    hide NormalizedSection;
    if ss != [] {
      assert ss[0] in ss && forall s :: s in ss[1..] ==> s in ss;
      var own := if ss[0].title == UNRELEASED then keys else {};
      var left := if ss[0].title == UNRELEASED then {} else keys;
      NormalizingIsIdempotent(ss[0], own);
      NormalizedIsStable(ss[1..], left);
      var r := NormalizeAll(ss, keys);
      assert r[0].title == ss[0].title;
      assert r == [NormalizedSection(ss[0], own)] + NormalizeAll(ss[1..], left);
      assert r[1..] == NormalizeAll(ss[1..], left);
    }
  }

  /** Sections that are not [Unreleased] are each stable on their own. */
  ghost predicate EachStable(ss: seq<Section>) {
    forall s :: s in ss ==> NormalizedSection(s, {}) == s
  }

  lemma {:induction false} StableParts(ss: seq<Section>, keys: set<string>)
    requires Stable(ss, keys)
    ensures Stable(Titled(ss, true), keys) && EachStable(Titled(ss, false))
    ensures AllTitled(Titled(ss, true), true) && AllTitled(Titled(ss, false), false)
    decreases |ss|
  {
    hide NormalizedSection;
    if ss != [] {
      var left := if ss[0].title == UNRELEASED then {} else keys;
      var own := if ss[0].title == UNRELEASED then keys else {};
      var r := NormalizeAll(ss, keys);
      assert r == [NormalizedSection(ss[0], own)] + NormalizeAll(ss[1..], left);
      assert r[0] == ss[0] && r[1..] == ss[1..];
      StableParts(ss[1..], left);
      var u := Titled(ss[1..], true);
      if ss[0].title == UNRELEASED {
        assert Titled(ss, true) == [ss[0]] + u && ([ss[0]] + u)[1..] == u;
        assert Titled(ss, false) == Titled(ss[1..], false);
      } else {
        assert Titled(ss, true) == u;
        assert Titled(ss, false) == [ss[0]] + Titled(ss[1..], false);
      }
    }
  }

  lemma {:induction false} EachStableStable(ss: seq<Section>, keys: set<string>)
    requires EachStable(ss) && AllTitled(ss, false)
    ensures Stable(ss, keys)
  {
    hide NormalizedSection;
    if ss != [] {
      assert ss[0] in ss && forall s :: s in ss[1..] ==> s in ss;
      EachStableStable(ss[1..], keys);
    }
  }

  lemma {:induction false} StableJoin(u: seq<Section>, r: seq<Section>, keys: set<string>)
    requires Stable(u, keys) && AllTitled(u, true) && EachStable(r) && AllTitled(r, false)
    ensures Stable(u + r, keys)
    decreases |u|
  {
    hide NormalizedSection;
    if u == [] {
      assert u + r == r;
      EachStableStable(r, keys);
    } else {
      assert u[0] in u && forall s :: s in u[1..] ==> s in u;
      var n := NormalizeAll(u, keys);
      assert n == [NormalizedSection(u[0], keys)] + NormalizeAll(u[1..], {});
      assert n[0] == u[0] && n[1..] == u[1..];
      StableJoin(u[1..], r, {});
      assert (u + r)[0] == u[0] && (u + r)[1..] == u[1..] + r;
      assert NormalizeAll(u + r, keys) == [u[0]] + (u[1..] + r);
    }
  }

  lemma {:induction false} TitledJoin(u: seq<Section>, r: seq<Section>)
    requires AllTitled(u, true) && AllTitled(r, false)
    ensures Titled(u + r, true) == u && Titled(u + r, false) == r
    decreases |u| + |r|
  {
    if u != [] {
      assert u[0] in u && forall s :: s in u[1..] ==> s in u;
      TitledJoin(u[1..], r);
      assert (u + r)[0] == u[0] && (u + r)[1..] == u[1..] + r;
    } else if r != [] {
      assert r[0] in r && forall s :: s in r[1..] ==> s in r;
      TitledJoin([], r[1..]);
      assert [] + r[1..] == r[1..] && u + r == r;
    }
  }

  lemma ReleasesAreOrdered(ss: seq<Section>)
    requires NumericTitles(ss)
    ensures var r := Titled(ss, false);
      PreorderOn(SectionLe, r) && Sorted(Sort(r, SectionLe), SectionLe) && multiset(Sort(r, SectionLe)) == multiset(r) &&
      forall k :: k in r ==> Peers(Sort(r, SectionLe), k, SectionLe) == Peers(r, k, SectionLe)
  {
    hide NotAfter, Sort, Peers, Numeric;
    var r := Titled(ss, false);
    TitledMembers(ss);
    forall a, b, c | a in r && b in r && c in r
      ensures SectionLe(a, b) || SectionLe(b, a)
      ensures SectionLe(a, b) && SectionLe(b, c) ==> SectionLe(a, c)
    {
      NotAfterIsPreorder(a.title, b.title, c.title);
    }
    SortSorted(r, SectionLe);
    SortPermutes(r, SectionLe);
    forall k | k in r
      ensures Peers(Sort(r, SectionLe), k, SectionLe) == Peers(r, k, SectionLe)
    {
      assert forall x :: x in [k] + r <==> x in r;
      SortIsStable(r, SectionLe, k);
    }
  }

  lemma {:induction false} TitledMembers(ss: seq<Section>)
    ensures forall s :: s in Titled(ss, false) <==> s in ss && s.title != UNRELEASED
    ensures forall s :: s in Titled(ss, true) <==> s in ss && s.title == UNRELEASED
  {
    if ss != [] {
      TitledMembers(ss[1..]);
      assert forall s :: s in ss <==> s == ss[0] || s in ss[1..];
    }
  }

  lemma SortSectionsTwice(ss: seq<Section>)
    requires NumericTitles(ss)
    ensures var s := SortSections(ss);
      Titled(s, true) == Titled(ss, true) && SortSections(s) == s && forall x :: x in s <==> x in ss
  {
    hide Sort, SectionLe, Numeric;
    var u, r := Titled(ss, true), Titled(ss, false);
    TitledMembers(ss);
    ReleasesAreOrdered(ss);
    SortPermutes(r, SectionLe);
    TitledJoin(u, Sort(r, SectionLe));
    SortOfSorted(Sort(r, SectionLe), SectionLe);
  }

  // ---------------------------------------------------------------- released keys do not change

  ghost predicate HasKey(ss: seq<Section>, k: string) {
    exists s :: s in ss && s.title != UNRELEASED && k in SubKeys(s.subs)
  }

  lemma {:induction false} ReleasedKeysAre(ss: seq<Section>, k: string)
    ensures k in ReleasedKeys(ss) <==> HasKey(ss, k)
  {
    hide SubKeys;
    if ss != [] {
      ReleasedKeysAre(ss[1..], k);
      assert ss[0] in ss && forall s :: s in ss <==> s == ss[0] || s in ss[1..];
    }
  }

  lemma KeysOfPermutation(a: seq<Section>, b: seq<Section>)
    requires forall s :: s in a <==> s in b
    ensures ReleasedKeys(a) == ReleasedKeys(b)
  {
    hide SubKeys, ReleasedKeys;
    forall k
      ensures k in ReleasedKeys(a) <==> k in ReleasedKeys(b)
    {
      ReleasedKeysAre(a, k);
      ReleasedKeysAre(b, k);
    }
  }

  lemma {:induction false} NormalizingKeepsKeys(ss: seq<Section>, keys: set<string>)
    requires NoRepeats(ss)
    ensures ReleasedKeys(NormalizeAll(ss, keys)) == ReleasedKeys(ss)
    decreases |ss|
  {
    hide NormalizedSection, SubKeys;
    if ss != [] {
      assert ss[0] in ss && forall s :: s in ss[1..] ==> s in ss;
      var own := if ss[0].title == UNRELEASED then keys else {};
      var left := if ss[0].title == UNRELEASED then {} else keys;
      NormalizingIsIdempotent(ss[0], own);
      NormalizingKeepsKeys(ss[1..], left);
      var r := NormalizeAll(ss, keys);
      assert r == [NormalizedSection(ss[0], own)] + NormalizeAll(ss[1..], left);
      assert r[1..] == NormalizeAll(ss[1..], left) && r[0].title == ss[0].title;
    }
  }

  /** Fixing a fixed document changes nothing. */
  lemma FixDocumentTwice(d: Document, history: set<string>)
    requires NoRepeats(d.sections) && NumericTitles(d.sections)
    ensures FixDocument(FixDocument(d, history), history) == FixDocument(d, history)
  {
    hide NormalizeAll, ReleasedKeys, NoRepeats, Titled, Numeric, Sort;
    var keys := ReleasedKeys(d.sections) + history;
    var n := NormalizeAll(d.sections, keys);
    var e := SortSections(n);
    NormalizedIsStable(d.sections, keys);
    NormalizingKeepsKeys(d.sections, keys);
    NumericNormalized(d.sections, keys);
    SortSectionsTwice(n);
    KeysOfPermutation(e, n);
    StableParts(n, keys);
    var r := Titled(n, false);
    SortPermutes(r, SectionLe);
    StableJoin(Titled(n, true), Sort(r, SectionLe), keys);
  }

  lemma NumericNormalized(ss: seq<Section>, keys: set<string>)
    requires NumericTitles(ss)
    ensures NumericTitles(NormalizeAll(ss, keys))
  {
    hide NormalizeAll, Numeric;
    var r := NormalizeAll(ss, keys);
    forall s | s in r && s.title != UNRELEASED
      ensures Numeric(s.title)
    {
      var i :| 0 <= i < |r| && r[i] == s;
      assert ss[i] in ss;
    }
  }
}
