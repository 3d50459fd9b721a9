/** Normalizing one release section: merging repeated titles, cleaning bodies, ordering [Unreleased]. */
module ChangelogSections {
  import opened Prelude
  import opened StableSort
  import opened ChangelogText
  import opened ChangelogDoc
  import opened ChangelogNormal
  import opened ChangelogItems
  import opened ChangelogCompact
  import opened ChangelogClean

  const ORDERED: seq<string> := ["Breaking Changes", "Added", "Changed", "Fixed", "Removed"]
  const UNRELEASED := "Unreleased"

  function TitleOrder(title: string): nat {
    if title == ORDERED[0] then 0 else if title == ORDERED[1] then 1 else if title == ORDERED[2] then 2
    else if title == ORDERED[3] then 3 else if title == ORDERED[4] then 4 else 5
  }

  /** Breaking changes first, then what was added, changed, fixed and removed, then every other title. */
  lemma TitleRanks(title: string)
    ensures TitleOrder("Breaking Changes") < TitleOrder("Added") < TitleOrder("Changed") < TitleOrder("Fixed") < TitleOrder("Removed")
    ensures title !in {"Breaking Changes", "Added", "Changed", "Fixed", "Removed"} ==>
      TitleOrder(title) == 5 > TitleOrder("Removed")
  {
    assert "Breaking Changes"[0] == 'B' && "Added"[0] == 'A' && "Changed"[0] == 'C' && "Fixed"[0] == 'F' && "Removed"[0] == 'R';
  }

  predicate SubLe(a: Subsection, b: Subsection) {
    TitleOrder(a.title) <= TitleOrder(b.title)
  }

  function TitleIndex(subs: seq<Subsection>, title: string): (i: nat)
    ensures i <= |subs| && (i < |subs| ==> subs[i].title == title) && forall j :: 0 <= j < i ==> subs[j].title != title
  {
    if subs == [] || subs[0].title == title then 0 else 1 + TitleIndex(subs[1..], title)
  }

  /** Non-empty text appended below existing text, with a blank line unless two list lines meet. */
  function AppendTexts(existing: seq<string>, source: seq<string>): seq<string>
    requires source != []
  {
    if existing == [] then source
    else
      existing + (if IsListItem(Last(existing)) && IsListItem(source[0]) then [] else [""]) + source
  }

  function MergeOne(acc: seq<Subsection>, s: Subsection, keys: set<string>): seq<Subsection> {
    var b := CleanBody(s.lines, keys);
    var i := TitleIndex(acc, s.title);
    if b == [] then acc
    else if i < |acc| then acc[i := Subsection(s.title, Synthetic(AppendTexts(Body(acc[i].lines), b)))]
    else acc + [Subsection(s.title, Synthetic(b))]
  }

  function MergeUpTo(subs: seq<Subsection>, keys: set<string>, n: nat): seq<Subsection>
    requires n <= |subs|
  {
    if n == 0 then [] else MergeOne(MergeUpTo(subs, keys, n - 1), subs[n - 1], keys)
  }

  function Ordered(title: string, subs: seq<Subsection>): seq<Subsection> {
    if title == UNRELEASED then Sort(subs, SubLe) else subs
  }

  function NormalizedSection(s: Section, keys: set<string>): Section {
    Section(s.heading, s.title, Synthetic(Body(s.leading)), Ordered(s.title, MergeUpTo(s.subs, keys, |s.subs|)))
  }

  ghost predicate DistinctTitles(subs: seq<Subsection>) {
    forall i, j :: 0 <= i < j < |subs| ==> subs[i].title != subs[j].title
  }

  method SortSubs(subs: seq<Subsection>) returns (r: seq<Subsection>)
    ensures r == Sort(subs, SubLe)
  {
    r := [];
    for k := 0 to |subs|
      invariant r == Sort(subs[|subs| - k..], SubLe)
    {
      var i := |subs| - 1 - k;
      assert subs[i..][0] == subs[i] && subs[i..][1..] == subs[i + 1..];
      r := Insert(subs[i], r, SubLe);
    }
    assert subs[0..] == subs;
  }

  /** How many subsections hold blank lines only. */
  function EmptySubs(subs: seq<Subsection>, n: nat): nat
    requires n <= |subs|
  {
    if n == 0 then 0 else EmptySubs(subs, n - 1) + if Body(subs[n - 1].lines) == [] then 1 else 0
  }

  lemma CompactedEmptyIff(lines: seq<Line>)
    ensures Compact(Body(lines)) == CleanBody(lines, {})
    ensures CleanBody(lines, {}) == [] <==> Body(lines) == []
  {
    hide TrimBlank, Compact, KeepItems, Items, KeysOf, NonBlank, Blank;
    NothingIsBlank();
    KeepsNothingKnown(lines, {});
    BodyOfBody(lines);
    TextsSynthetic(Body(lines));
    CompactIsFinal(Body(lines));
    TrimFacts(Texts(lines));
    assert TrimBlank([]) == [] && Compact([]) == [] by {
      NothingToCompact();
    }
    if Body(lines) != [] {
      NonBlankFirst(Body(lines));
    }
  }

  lemma NothingToCompact()
    ensures TrimBlank([]) == [] && Compact([]) == []
  {
  }

  /** Every subsection is kept, merged into an earlier one, or dropped because it is empty. */
  method NormalizeSection(s: Section) returns (r: Section, merged: nat, removed: nat)
    ensures r == NormalizedSection(s, {})
    ensures removed == EmptySubs(s.subs, |s.subs|) && |r.subs| + merged + removed == |s.subs|
  {
    hide Compact, Body, KeepItems, IsListItem, Sort, Synthetic, CleanBody;
    var subs: seq<Subsection> := [];
    merged, removed := 0, 0;
    for i := 0 to |s.subs|
      invariant subs == MergeUpTo(s.subs, {}, i)
      invariant removed == EmptySubs(s.subs, i) && |subs| + merged + removed == i
    {
      CompactedEmptyIff(s.subs[i].lines);
      var trimmed := CompactAdjacentListSpacing(Body(s.subs[i].lines));
      if trimmed == [] {
        removed := removed + 1;
        continue;
      }
      var title := s.subs[i].title;
      var at := TitleIndex(subs, title);
      if at < |subs| {
        subs := subs[at := Subsection(title, Synthetic(AppendTexts(Body(subs[at].lines), trimmed)))];
        merged := merged + 1;
      } else {
        subs := subs + [Subsection(title, Synthetic(trimmed))];
      }
    }
    if s.title == UNRELEASED {
      SortPermutes(subs, SubLe);
      subs := SortSubs(subs);
    }
    r := Section(s.heading, s.title, Synthetic(Body(s.leading)), subs);
  }

  // ---------------------------------------------------------------- merging keeps every other line

  function TitleTexts(subs: seq<Subsection>, title: string): seq<string> {
    if subs == [] then []
    else (if subs[0].title == title then Texts(subs[0].lines) else []) + TitleTexts(subs[1..], title)
  }

  /** Under a title, the non-blank lines that are left once the known items are gone, in order. */
  function KeptTexts(subs: seq<Subsection>, keys: set<string>, title: string, n: nat): seq<string>
    requires n <= |subs|
  {
    if n == 0 then []
    else
      KeptTexts(subs, keys, title, n - 1) +
      if subs[n - 1].title == title then NonBlank(Texts(KeepItems(subs[n - 1].lines, keys))) else []
  }

  lemma {:induction false} TitleTextsAppend(a: seq<Subsection>, b: seq<Subsection>, title: string)
    ensures TitleTexts(a + b, title) == TitleTexts(a, title) + TitleTexts(b, title)
  {
    hide Texts;
    if a == [] {
      assert a + b == b;
    } else {
      TitleTextsAppend(a[1..], b, title);
      assert (a + b)[1..] == a[1..] + b;
      ConcatAssociative(if a[0].title == title then Texts(a[0].lines) else [], TitleTexts(a[1..], title), TitleTexts(b, title));
    }
  }

  lemma {:induction false} AbsentTitle(subs: seq<Subsection>, title: string)
    requires forall i :: 0 <= i < |subs| ==> subs[i].title != title
    ensures TitleTexts(subs, title) == []
  {
    if subs != [] {
      AbsentTitle(subs[1..], title);
    }
  }

  lemma TitleStep(s: Subsection, back: seq<Subsection>, title: string)
    ensures TitleTexts([s] + back, title) == (if s.title == title then Texts(s.lines) else []) + TitleTexts(back, title)
    ensures TitleTexts([s], title) == if s.title == title then Texts(s.lines) else []
  {
    hide Texts;
    assert ([s] + back)[1..] == back && [s][1..] == [];
    assert TitleTexts([], title) == [];
  }

  /** With distinct titles, a title's text is the text of its one subsection. */
  lemma {:induction false} UniqueTitle(subs: seq<Subsection>, i: nat)
    requires DistinctTitles(subs) && i < |subs|
    ensures TitleTexts(subs, subs[i].title) == Texts(subs[i].lines)
    decreases |subs|
  {
    hide Texts, TitleTexts;
    assert subs == [subs[0]] + subs[1..];
    TitleStep(subs[0], subs[1..], subs[i].title);
    if i == 0 {
      AbsentTitle(subs[1..], subs[0].title);
    } else {
      UniqueTitle(subs[1..], i - 1);
    }
  }

  lemma NonBlankAppended(existing: seq<string>, source: seq<string>)
    requires source != []
    ensures NonBlank(AppendTexts(existing, source)) == NonBlank(existing) + NonBlank(source)
  {
    hide IsListItem, NonBlank, Blank;
    NothingIsBlank();
    var sep := if existing != [] && !(IsListItem(Last(existing)) && IsListItem(source[0])) then [""] else [];
    NonBlankAppend(existing + sep, source);
    NonBlankAppend(existing, sep);
  }

  lemma MergeKeepsDistinct(acc: seq<Subsection>, s: Subsection, keys: set<string>)
    requires DistinctTitles(acc)
    ensures DistinctTitles(MergeOne(acc, s, keys))
  {
    hide CleanBody, Body;
  }

  lemma {:induction false} MergedDistinct(subs: seq<Subsection>, keys: set<string>, n: nat)
    requires n <= |subs|
    ensures DistinctTitles(MergeUpTo(subs, keys, n))
  {
    hide MergeOne;
    if n > 0 {
      MergedDistinct(subs, keys, n - 1);
      MergeKeepsDistinct(MergeUpTo(subs, keys, n - 1), subs[n - 1], keys);
    }
  }

  lemma MergeKeepsLines(acc: seq<Subsection>, s: Subsection, keys: set<string>, title: string)
    requires DistinctTitles(acc)
    ensures NonBlank(TitleTexts(MergeOne(acc, s, keys), title)) ==
      NonBlank(TitleTexts(acc, title)) +
      if s.title == title then NonBlank(Texts(KeepItems(s.lines, keys))) else []
  {
    hide NonBlank, KeepItems, Compact, TrimBlank, Items, AppendTexts;
    NothingIsBlank();
    var b := CleanBody(s.lines, keys);
    CleanIsFinal(s.lines, keys);
    var i := TitleIndex(acc, s.title);
    if b != [] {
      hide CleanBody;
      MergeKeepsDistinct(acc, s, keys);
      var r := MergeOne(acc, s, keys);
      if i < |acc| {
        var texts := AppendTexts(Body(acc[i].lines), b);
        TextsSynthetic(texts);
        UniqueTitle(acc, i);
        UniqueTitle(r, i);
        NonBlankAppended(Body(acc[i].lines), b);
        NonBlankTrim(Texts(acc[i].lines));
        if s.title != title {
          OtherTitle(acc, i, r[i], title);
        }
      } else {
        TextsSynthetic(b);
        TitleTextsAppend(acc, [Subsection(s.title, Synthetic(b))], title);
        NonBlankAppend(TitleTexts(acc, title), TitleTexts([Subsection(s.title, Synthetic(b))], title));
        TitleStep(Subsection(s.title, Synthetic(b)), [], title);
      }
    }
  }

  lemma OtherTitle(acc: seq<Subsection>, i: nat, s: Subsection, title: string)
    requires i < |acc| && s.title == acc[i].title != title
    ensures TitleTexts(acc[i := s], title) == TitleTexts(acc, title)
  {
    hide Texts;
    var front, back := acc[..i], acc[i + 1..];
    assert acc == front + ([acc[i]] + back) && acc[i := s] == front + ([s] + back);
    TitleTextsAppend(front, [acc[i]] + back, title);
    TitleTextsAppend(front, [s] + back, title);
    TitleStep(acc[i], back, title);
    TitleStep(s, back, title);
  }

  lemma {:induction false} MergedLines(subs: seq<Subsection>, keys: set<string>, title: string, n: nat)
    requires n <= |subs|
    ensures NonBlank(TitleTexts(MergeUpTo(subs, keys, n), title)) == KeptTexts(subs, keys, title, n)
  {
    hide MergeOne, NonBlank, KeepItems, Texts;
    if n == 0 {
      NothingIsBlank();
    } else {
      MergedLines(subs, keys, title, n - 1);
      MergedDistinct(subs, keys, n - 1);
      MergeKeepsLines(MergeUpTo(subs, keys, n - 1), subs[n - 1], keys, title);
    }
  }

  lemma SortedTitles(subs: seq<Subsection>, title: string)
    requires DistinctTitles(subs)
    ensures DistinctTitles(Sort(subs, SubLe)) && TitleTexts(Sort(subs, SubLe), title) == TitleTexts(subs, title)
  {
    hide Texts, Sort, SubLe;
    var r := Sort(subs, SubLe);
    SortPermutes(subs, SubLe);
    DistinctMembers(subs, r);
    if i :| 0 <= i < |subs| && subs[i].title == title {
      assert subs[i] in r;
      var j :| 0 <= j < |r| && r[j] == subs[i];
      UniqueTitle(subs, i);
      UniqueTitle(r, j);
    } else {
      forall j | 0 <= j < |r|
        ensures r[j].title != title
      {
        assert r[j] in subs;
      }
      AbsentTitle(subs, title);
      AbsentTitle(r, title);
    }
  }

  lemma DistinctMembers(a: seq<Subsection>, b: seq<Subsection>)
    requires DistinctTitles(a) && multiset(a) == multiset(b)
    ensures DistinctTitles(b)
  {
    PermutedDistinct(a, b);
    forall i, j | 0 <= i < j < |b|
      ensures b[i].title != b[j].title
    {
      assert b[i] in multiset(b) && b[j] in multiset(b);
      var k :| 0 <= k < |a| && a[k] == b[i];
      var l :| 0 <= l < |a| && a[l] == b[j];
    }
  }

  /** Normalizing keeps, under every title and in order, every non-blank line that is not part of a dropped item. */
  lemma NormalizingKeepsLines(s: Section, keys: set<string>, title: string)
    ensures NonBlank(TitleTexts(NormalizedSection(s, keys).subs, title)) == KeptTexts(s.subs, keys, title, |s.subs|)
    ensures DistinctTitles(NormalizedSection(s, keys).subs)
  {
    hide NonBlank, MergeUpTo, TitleTexts, DistinctTitles;
    MergedLines(s.subs, keys, title, |s.subs|);
    MergedDistinct(s.subs, keys, |s.subs|);
    SortedTitles(MergeUpTo(s.subs, keys, |s.subs|), title);
  }
}
