/** Exactly when a second run of the fixer changes nothing. */
module ChangelogSettled {
  import opened StableSort
  import opened ReleaseOrder
  import opened ChangelogText
  import opened ChangelogDoc
  import opened ChangelogNormal
  import opened ChangelogItems
  import opened ChangelogCompact
  import opened ChangelogClean
  import opened ChangelogSections
  import opened ChangelogFix
  import opened ChangelogIdempotent
  import opened ChangelogTwice

  // ---------------------------------------------------------------- the shape of what the fixer writes

  /** A written body: without line numbers, without blank edges, and not empty. */
  predicate Written(lines: seq<Line>) {
    lines == Synthetic(Texts(lines)) && TrimBlank(Texts(lines)) == Texts(lines) != []
  }

  ghost predicate AllWritten(subs: seq<Subsection>) {
    DistinctTitles(subs) && forall s :: s in subs ==> Written(s.lines)
  }

  ghost predicate WrittenSection(s: Section) {
    AllWritten(s.subs) && Ordered(s.title, s.subs) == s.subs && s.leading == Synthetic(Body(s.leading))
  }

  lemma WrittenIs(t: seq<string>)
    requires TrimBlank(t) == t != []
    ensures Written(Synthetic(t)) && Body(Synthetic(t)) == t
  {
    hide TrimBlank;
    TextsSynthetic(t);
  }

  lemma MergeWritten(acc: seq<Subsection>, s: Subsection, keys: set<string>)
    requires AllWritten(acc)
    ensures AllWritten(MergeOne(acc, s, keys))
  {
    hide CleanBody, TrimBlank, Texts, AppendTexts, Items, KeepItems, NonBlank, Synthetic;
    MergeKeepsDistinct(acc, s, keys);
    CleanIsFinal(s.lines, keys);
    var b, i := CleanBody(s.lines, keys), TitleIndex(acc, s.title);
    if b != [] {
      WrittenIs(b);
      if i < |acc| {
        assert acc[i] in acc;
        AppendTrimmed(Texts(acc[i].lines), b);
        WrittenIs(AppendTexts(Texts(acc[i].lines), b));
      }
    }
  }

  lemma {:induction false} MergedWritten(subs: seq<Subsection>, keys: set<string>, n: nat)
    requires n <= |subs|
    ensures AllWritten(MergeUpTo(subs, keys, n))
  {
    hide MergeOne, Written;
    if n > 0 {
      MergedWritten(subs, keys, n - 1);
      MergeWritten(MergeUpTo(subs, keys, n - 1), subs[n - 1], keys);
    }
  }

  lemma NormalizedIsWritten(s: Section, keys: set<string>)
    ensures WrittenSection(NormalizedSection(s, keys))
  {
    hide MergeUpTo, Sort, Written, Body;
    var m := MergeUpTo(s.subs, keys, |s.subs|);
    MergedWritten(s.subs, keys, |s.subs|);
    BodyOfBody(s.leading);
    var o := Ordered(s.title, m);
    if s.title == UNRELEASED {
      SortPermutes(m, SubLe);
      DistinctMembers(m, o);
      SortedTwice(m);
    }
  }

  // ---------------------------------------------------------------- one section

  /** Nothing of the body is known, and no list line stands below a blank one unless text comes first. */
  predicate SettledBody(lines: seq<Line>, keys: set<string>) {
    var t := Texts(lines);
    KeysOf(Items(lines)) !! keys && t != [] && (!IsListItem(t[0]) || NoGaps(t))
  }

  ghost predicate SettledSection(s: Section, keys: set<string>) {
    forall b :: b in s.subs ==> SettledBody(b.lines, keys)
  }

  lemma CleanedIff(lines: seq<Line>, keys: set<string>)
    requires Written(lines)
    ensures CleanBody(lines, keys) == Texts(lines) <==> SettledBody(lines, keys)
  {
    hide TrimBlank, Items, KeysOf, KeepItems, Compact, IsListItem, NoGaps, Synthetic, KeptItems, NonBlank;
    var t := Texts(lines);
    CompactedIff(t);
    CleanIsFinal(lines, keys);
    KeptItemsFilter(Items(lines), keys);
    if CleanBody(lines, keys) == t {
      assert Items(lines) == KeptItems(Items(lines), keys);
      KeepsNothingKnown(lines, keys);
    }
    if KeysOf(Items(lines)) !! keys {
      KeepsNothingKnown(lines, keys);
    }
  }

  /** Merging keeps as many subsections as there are only if it keeps each in its place. */
  lemma {:induction false} MergeLength(subs: seq<Subsection>, keys: set<string>, n: nat)
    requires DistinctTitles(subs) && n <= |subs|
    ensures |MergeUpTo(subs, keys, n)| <= n
    ensures |MergeUpTo(subs, keys, n)| == n ==> forall i :: 0 <= i < n ==>
      MergeUpTo(subs, keys, n)[i] == Subsection(subs[i].title, Synthetic(CleanBody(subs[i].lines, keys)))
  {
    hide MergeOne, CleanBody, Synthetic, AllFinal;
    if n > 0 {
      MergeLength(subs, keys, n - 1);
      MergeDistinct(subs, keys, n);
      var acc := MergeUpTo(subs, keys, n - 1);
      assert forall i :: 0 <= i < |acc| ==> acc[i] in acc;
      MergeFresh(acc, subs[n - 1], keys);
    }
  }

  /** A written section is left alone exactly when all its bodies are settled. */
  lemma SectionIff(s: Section, keys: set<string>)
    requires WrittenSection(s)
    ensures NormalizedSection(s, keys) == s <==> SettledSection(s, keys)
  {
    if SettledSection(s, keys) {
      SettledStays(s, keys);
    }
    if NormalizedSection(s, keys) == s {
      StaysSettled(s, keys);
    }
  }

  lemma SettledStays(s: Section, keys: set<string>)
    requires WrittenSection(s) && SettledSection(s, keys)
    ensures NormalizedSection(s, keys) == s
  {
    hide Written, SettledBody, CleanBody, MergeUpTo, Ordered, Body;
    forall b | b in s.subs
      ensures Final(b, keys)
    {
      SettledIsFinal(b, keys);
    }
    MergeFinal(s.subs, keys, |s.subs|);
    assert s.subs[..|s.subs|] == s.subs;
  }

  lemma SettledIsFinal(b: Subsection, keys: set<string>)
    requires Written(b.lines) && SettledBody(b.lines, keys)
    ensures Final(b, keys)
  {
    hide CleanBody, TrimBlank, Items, NoGaps, IsListItem;
    CleanedIff(b.lines, keys);
  }

  lemma StaysSettled(s: Section, keys: set<string>)
    requires WrittenSection(s) && NormalizedSection(s, keys) == s
    ensures SettledSection(s, keys)
  {
    hide Written, SettledBody, CleanBody, MergeUpTo, Sort, Body, Synthetic;
    var m := MergeUpTo(s.subs, keys, |s.subs|);
    SortPermutes(m, SubLe);
    MergeLength(s.subs, keys, |s.subs|);
    forall i | 0 <= i < |s.subs|
      ensures SettledBody(s.subs[i].lines, keys)
    {
      var b := s.subs[i];
      assert b in s.subs && m[i] in m;
      assert m[i] in s.subs;
      var j :| 0 <= j < |s.subs| && s.subs[j] == m[i];
      assert j == i;
      CleanedBack(b, keys);
    }
  }

  lemma CleanedBack(b: Subsection, keys: set<string>)
    requires Written(b.lines) && b.lines == Synthetic(CleanBody(b.lines, keys))
    ensures SettledBody(b.lines, keys)
  {
    hide CleanBody, TrimBlank, Items, NoGaps, IsListItem, Synthetic;
    TextsSynthetic(CleanBody(b.lines, keys));
    CleanedIff(b.lines, keys);
  }

  // ---------------------------------------------------------------- the whole document

  /** Every section settled; `known` keys count for the first [Unreleased] section only. */
  ghost predicate Settled(ss: seq<Section>, known: set<string>) {
    forall i :: 0 <= i < |ss| ==> SettledSection(ss[i], if i == UnreleasedIndex(ss) then known else {})
  }

  lemma SectionsIff(ss: seq<Section>, keys: set<string>)
    requires forall s :: s in ss ==> WrittenSection(s)
    ensures NormalizeAll(ss, keys) == ss <==> Settled(ss, keys)
  {
    hide NormalizedSection, SettledSection, WrittenSection, UnreleasedIndex, NormalizeAll;
    EachNormalized(ss, keys);
    var n := NormalizeAll(ss, keys);
    forall i | 0 <= i < |ss|
      ensures n[i] == ss[i] <==> SettledSection(ss[i], if i == UnreleasedIndex(ss) then keys else {})
    {
      assert ss[i] in ss;
      SectionIff(ss[i], if i == UnreleasedIndex(ss) then keys else {});
    }
    if forall i :: 0 <= i < |ss| ==> n[i] == ss[i] {
      assert n == ss;
    }
  }

  lemma FixedIsWritten(d: Document, history: set<string>)
    ensures forall s :: s in FixDocument(d, history).sections ==> WrittenSection(s)
  {
    hide WrittenSection, NormalizedSection, Sort, SectionLe;
    var keys := ReleasedKeys(d.sections) + history;
    var n := NormalizeAll(d.sections, keys);
    EachNormalized(d.sections, keys);
    forall i | 0 <= i < |n|
      ensures WrittenSection(n[i])
    {
      NormalizedIsWritten(d.sections[i], if i == UnreleasedIndex(d.sections) then keys else {});
    }
    TitledMembers(n);
    SortPermutes(Titled(n, false), SectionLe);
  }

  /** Titles decide the order of sections, so sections that change in place stay in place. */
  lemma {:induction false} SortByTitle(a: seq<Section>, b: seq<Section>)
    requires |a| == |b| && (forall i :: 0 <= i < |a| ==> a[i].title == b[i].title)
    requires Sorted(a, SectionLe)
    ensures Sorted(b, SectionLe)
  {
    hide NotAfter;
  }

  lemma {:induction false} TitledByTitle(a: seq<Section>, b: seq<Section>, unreleased: bool)
    requires |a| == |b| && forall i :: 0 <= i < |a| ==> a[i].title == b[i].title
    ensures var ta, tb := Titled(a, unreleased), Titled(b, unreleased);
      |ta| == |tb| && forall i :: 0 <= i < |ta| ==> ta[i].title == tb[i].title
  {
    if a != [] {
      TitledByTitle(a[1..], b[1..], unreleased);
    }
  }

  lemma RefixOnly(d: Document, history: set<string>)
    requires NumericTitles(d.sections)
    ensures var e := FixDocument(d, history);
      FixDocument(e, history) == e.(sections := NormalizeAll(e.sections, ReleasedKeys(e.sections) + history))
  {
    hide NormalizeAll, ReleasedKeys, Titled, Numeric, Sort, Sorted, SectionLe;
    var keys := ReleasedKeys(d.sections) + history;
    var n := NormalizeAll(d.sections, keys);
    NumericNormalized(d.sections, keys);
    SortSectionsTwice(n);
    ReleasesAreOrdered(n);
    var e := SortSections(n);
    var again := NormalizeAll(e, ReleasedKeys(e) + history);
    TitledByTitle(e, again, false);
    TitledMembers(n);
    SortPermutes(Titled(n, false), SectionLe);
    TitledJoin(Titled(n, true), Sort(Titled(n, false), SectionLe));
    SortByTitle(Titled(e, false), Titled(again, false));
    SortOfSorted(Titled(again, false), SectionLe);
    UnreleasedOnTop(Titled(n, true), Sort(Titled(n, false), SectionLe), again);
  }

  /** With the [Unreleased] sections on top, putting them on top changes nothing. */
  lemma UnreleasedOnTop(u: seq<Section>, r: seq<Section>, again: seq<Section>)
    requires AllTitled(u, true) && AllTitled(r, false)
    requires |again| == |u + r| && forall i :: 0 <= i < |again| ==> again[i].title == (u + r)[i].title
    ensures Titled(again, true) + Titled(again, false) == again
  {
    var a, b := again[..|u|], again[|u|..];
    forall s | s in a
      ensures s.title == UNRELEASED
    {
      var i :| 0 <= i < |a| && a[i] == s;
      assert (u + r)[i] == u[i] && u[i] in u;
    }
    forall s | s in b
      ensures s.title != UNRELEASED
    {
      var i :| 0 <= i < |b| && b[i] == s;
      assert (u + r)[|u| + i] == r[i] && r[i] in r;
      assert again[|u| + i] == b[i];
    }
    assert again == a + b;
    TitledJoin(a, b);
  }

  lemma WrittenIsNeat(s: Section)
    requires WrittenSection(s)
    ensures NeatSection(s) == s
  {
    hide TrimBlank, Texts, Synthetic, Ordered;
    WrittenSubsNeat(s.subs);
  }

  lemma {:induction false} WrittenSubsNeat(subs: seq<Subsection>)
    requires forall s :: s in subs ==> Written(s.lines)
    ensures NeatSubs(subs) == subs
  {
    hide TrimBlank, Texts, Synthetic;
    if subs != [] {
      assert subs[0] in subs && forall s :: s in subs[1..] ==> s in subs;
      WrittenSubsNeat(subs[1..]);
    }
  }

  /** The printed form determines a written document up to its preamble. */
  lemma RenderDecides(d: Document, e: Document)
    requires GoodDocument(d) && GoodDocument(e) && Render(d) == Render(e)
    requires forall s :: s in d.sections || s in e.sections ==> WrittenSection(s)
    ensures d.sections == e.sections
  {
    hide WrittenSection, NeatSection, Render, Parse, GoodDocument, Body;
    ParseRender(d);
    ParseRender(e);
    assert NeatSections(d.sections) == NeatSections(e.sections);
    forall i | 0 <= i < |d.sections|
      ensures d.sections[i] == e.sections[i]
    {
      assert d.sections[i] in d.sections && e.sections[i] in e.sections;
      WrittenIsNeat(d.sections[i]);
      WrittenIsNeat(e.sections[i]);
    }
  }

  /**
   * The second run changes nothing exactly when, in what the first run wrote, no remaining [Unreleased] item is
   * released or historical, and no list that starts its subsection has a blank line above one of its items.
   */
  lemma SecondRunSettled(content: string, history: set<string>)
    requires NumericTitles(Parse(content).sections)
    ensures var e := FixDocument(Parse(content), history).sections;
      FixContent(FixContent(content, history), history) == FixContent(content, history) <==>
      Settled(e, ReleasedKeys(e) + history)
  {
    hide Parse, Render, FixDocument, Neat, GoodDocument, NumericTitles, Settled, WrittenSection, NormalizeAll, ReleasedKeys;
    var d := Parse(content);
    var e := FixDocument(d, history);
    var f := FixDocument(e, history);
    ParsedIsGood(content);
    FixedIsGood(d, history);
    FixedIsGood(e, history);
    ParseRender(e);
    FixSeesNeat(Parse(Render(e)), history);
    FixSeesNeat(e, history);
    RefixOnly(d, history);
    FixedIsWritten(d, history);
    FixedIsWritten(e, history);
    SectionsIff(e.sections, ReleasedKeys(e.sections) + history);
    if Render(f) == Render(e) {
      RenderDecides(f, e);
    }
  }
}
