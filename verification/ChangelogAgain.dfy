/** When the fixer changes its own output, decided on the content it is first given. */
module ChangelogAgain {
  import opened Prelude
  import opened StableSort
  import opened Decimal
  import opened ReleaseOrder
  import opened ChangelogText
  import opened ChangelogDoc
  import opened ChangelogNormal
  import opened ChangelogItems
  import opened ChangelogCompact
  import opened ChangelogClean
  import opened ChangelogSections
  import opened ChangelogFix
  import opened ChangelogIdempotent
  import opened ChangelogTwice
  import opened ChangelogSettled
  import opened ChangelogJoined

  // ---------------------------------------------------------------- one section

  /** The cleaned bodies of a title in a section. */
  function TitleParts(s: Section, dropped: set<string>, title: string): seq<seq<string>> {
    Parts(s.subs, dropped, title, |s.subs|)
  }

  /** The keys of the items that stand under a title once its bodies are joined. */
  function JoinedKeys(s: Section, dropped: set<string>, title: string): set<string> {
    KeysOf(JoinedItems(TitleParts(s, dropped, title)))
  }

  /** Every title is well joined and none of its items is known. */
  ghost predicate QuietSection(s: Section, dropped: set<string>, known: set<string>) {
    forall title :: WellJoined(TitleParts(s, dropped, title)) && JoinedKeys(s, dropped, title) !! known
  }

  lemma SettledBodyIff(parts: seq<seq<string>>, known: set<string>)
    requires Bodies(parts) && parts != []
    ensures SettledBody(Synthetic(Joined(parts)), known) <==> KeysOf(JoinedItems(parts)) !! known && WellJoined(parts)
  {
    hide Joined, JoinedItems, WellJoined, NoGaps, IsListItem, KeysOf, Items, Synthetic, Bodies;
    JoinedSettledIff(parts);
    JoinedHasItems(parts);
    TextsSynthetic(Joined(parts));
  }

  /** The subsections of the normalized section are the joined bodies of the titles that have any. */
  lemma NormalizedBody(s: Section, dropped: set<string>, b: Subsection)
    requires b in NormalizedSection(s, dropped).subs
    ensures var parts := TitleParts(s, dropped, b.title);
      Bodies(parts) && parts != [] && b.lines == Synthetic(Joined(parts))
  {
    hide MergeUpTo, Sort, Synthetic, Joined, Bodies, Body, Parts;
    var m := MergeUpTo(s.subs, dropped, |s.subs|);
    SortPermutes(m, SubLe);
    MergedDistinct(s.subs, dropped, |s.subs|);
    MergedIsJoined(s.subs, dropped, b.title, |s.subs|);
    assert b in m;
    var i :| 0 <= i < |m| && m[i] == b;
    TitleIndexIs(m, b.title, i);
  }

  lemma BodyOfTitle(s: Section, dropped: set<string>, title: string) returns (b: Subsection)
    requires TitleParts(s, dropped, title) != []
    ensures b in NormalizedSection(s, dropped).subs && b.title == title
  {
    hide MergeUpTo, Sort, Synthetic, Joined, Bodies, Body, Parts;
    var m := MergeUpTo(s.subs, dropped, |s.subs|);
    SortPermutes(m, SubLe);
    MergedIsJoined(s.subs, dropped, title, |s.subs|);
    b := m[TitleIndex(m, title)];
    assert b in m;
  }

  lemma NothingJoined()
    ensures WellJoined([]) && KeysOf(JoinedItems([])) == {}
  {
  }

  lemma QuietIff(s: Section, dropped: set<string>, known: set<string>)
    ensures SettledSection(NormalizedSection(s, dropped), known) <==> QuietSection(s, dropped, known)
  {
    hide NormalizedSection, SettledBody, WellJoined, KeysOf, JoinedItems, TitleParts, Joined, Synthetic, Bodies;
    var subs := NormalizedSection(s, dropped).subs;
    forall b | b in subs
      ensures SettledBody(b.lines, known) <==>
        KeysOf(JoinedItems(TitleParts(s, dropped, b.title))) !! known && WellJoined(TitleParts(s, dropped, b.title))
    {
      NormalizedBody(s, dropped, b);
      SettledBodyIff(TitleParts(s, dropped, b.title), known);
    }
    if SettledSection(NormalizedSection(s, dropped), known) {
      forall title
        ensures WellJoined(TitleParts(s, dropped, title)) && JoinedKeys(s, dropped, title) !! known
      {
        NothingJoined();
        if TitleParts(s, dropped, title) != [] {
          var b := BodyOfTitle(s, dropped, title);
          assert SettledBody(b.lines, known);
        }
      }
    }
    if QuietSection(s, dropped, known) {
      forall b | b in subs
        ensures SettledBody(b.lines, known)
      {
        assert WellJoined(TitleParts(s, dropped, b.title)) && JoinedKeys(s, dropped, b.title) !! known;
      }
    }
  }

  /** Normalizing a section again changes nothing exactly when its titles are well joined and no joined item is dropped. */
  lemma RepeatedTitleIff(s: Section, keys: set<string>)
    ensures NormalizedSection(NormalizedSection(s, keys), keys) == NormalizedSection(s, keys) <==> QuietSection(s, keys, keys)
  {
    hide NormalizedSection, QuietSection, SettledSection, WrittenSection;
    NormalizedIsWritten(s, keys);
    SectionIff(NormalizedSection(s, keys), keys);
    QuietIff(s, keys, keys);
  }

  // ---------------------------------------------------------------- the keys that end up released

  lemma {:induction false} SubKeysAre(subs: seq<Subsection>, key: string)
    ensures key in SubKeys(subs) <==> exists b :: b in subs && key in KeysOf(Items(b.lines))
  {
    hide KeysOf, Items;
    if subs != [] {
      SubKeysAre(subs[1..], key);
      assert forall b :: b in subs <==> b == subs[0] || b in subs[1..];
    }
  }

  lemma KeysAreJoined(s: Section, dropped: set<string>, key: string)
    ensures key in SubKeys(NormalizedSection(s, dropped).subs) <==> exists title :: key in JoinedKeys(s, dropped, title)
  {
    hide NormalizedSection, KeysOf, Items, JoinedItems, TitleParts, Joined, Synthetic, Bodies, SubKeys;
    var subs := NormalizedSection(s, dropped).subs;
    SubKeysAre(subs, key);
    forall b | b in subs
      ensures KeysOf(Items(b.lines)) == JoinedKeys(s, dropped, b.title)
    {
      NormalizedBody(s, dropped, b);
      JoinedHasItems(TitleParts(s, dropped, b.title));
    }
    if title :| key in JoinedKeys(s, dropped, title) {
      NothingJoined();
      var b := BodyOfTitle(s, dropped, title);
      assert key in KeysOf(Items(b.lines));
    }
    if b :| b in subs && key in KeysOf(Items(b.lines)) {
      assert key in JoinedKeys(s, dropped, b.title);
    }
  }

  /** The key of an item that stands in a released section once bodies are joined. */
  ghost predicate KeyReleased(ss: seq<Section>, key: string) {
    exists i, title :: 0 <= i < |ss| && ss[i].title != UNRELEASED && key in JoinedKeys(ss[i], {}, title)
  }

  lemma ReleasedIff(ss: seq<Section>, keys: set<string>, key: string)
    ensures key in ReleasedKeys(NormalizeAll(ss, keys)) <==> KeyReleased(ss, key)
  {
    hide NormalizedSection, SubKeys, ReleasedKeys, JoinedKeys, NormalizeAll;
    var n := NormalizeAll(ss, keys);
    EachNormalized(ss, keys);
    ReleasedKeysAre(n, key);
    forall i | 0 <= i < |ss| && ss[i].title != UNRELEASED
      ensures key in SubKeys(n[i].subs) <==> exists title :: key in JoinedKeys(ss[i], {}, title)
    {
      KeysAreJoined(ss[i], {}, key);
      assert n[i] == NormalizedSection(ss[i], {});
    }
    if HasKey(n, key) {
      var s :| s in n && s.title != UNRELEASED && key in SubKeys(s.subs);
      var i :| 0 <= i < |n| && n[i] == s;
      assert n[i].title == ss[i].title;
    }
    if i, title :| 0 <= i < |ss| && ss[i].title != UNRELEASED && key in JoinedKeys(ss[i], {}, title) {
      assert n[i] in n && n[i].title == ss[i].title;
    }
  }

  // ---------------------------------------------------------------- the whole content

  /**
   What a caller can check before the first run: every title of every section is well joined, and no item that
   stands in the first [Unreleased] section once bodies are joined is historical or ends up released.
  */
  ghost predicate QuietContent(ss: seq<Section>, history: set<string>) {
    var known, u := ReleasedKeys(ss) + history, UnreleasedIndex(ss);
    && (forall i :: 0 <= i < |ss| ==> QuietSection(ss[i], if i == u then known else {}, {}))
    && (u < |ss| ==> forall title, key :: key in JoinedKeys(ss[u], known, title) ==> key !in history && !KeyReleased(ss, key))
  }

  lemma {:induction false} SettledParts(s: Section, known: set<string>)
    ensures SettledSection(s, known) <==> SettledSection(s, {}) && SubKeys(s.subs) !! known
  {
    hide KeysOf, Items, Texts, NoGaps, IsListItem;
    forall key
      ensures key in SubKeys(s.subs) <==> exists b :: b in s.subs && key in KeysOf(Items(b.lines))
    {
      SubKeysAre(s.subs, key);
    }
    hide SubKeys;
    forall b | b in s.subs
      ensures SettledBody(b.lines, known) <==> SettledBody(b.lines, {}) && KeysOf(Items(b.lines)) !! known
    {
    }
    if SettledSection(s, {}) && SubKeys(s.subs) !! known {
      forall b | b in s.subs
        ensures KeysOf(Items(b.lines)) !! known
      {
        forall key | key in KeysOf(Items(b.lines))
          ensures key in SubKeys(s.subs)
        {
        }
      }
    }
  }

  lemma SettledSplit(ss: seq<Section>, known: set<string>)
    ensures var u := UnreleasedIndex(ss);
      Settled(ss, known) <==> (forall s :: s in ss ==> SettledSection(s, {})) && (u < |ss| ==> SubKeys(ss[u].subs) !! known)
  {
    hide SettledSection, SubKeys, UnreleasedIndex;
    var u := UnreleasedIndex(ss);
    forall i | 0 <= i < |ss|
      ensures ss[i] in ss && (SettledSection(ss[i], known) <==> SettledSection(ss[i], {}) && SubKeys(ss[i].subs) !! known)
    {
      SettledParts(ss[i], known);
    }
    if forall s :: s in ss ==> SettledSection(s, {}) {
      assert forall i :: 0 <= i < |ss| ==> SettledSection(ss[i], {});
    }
  }

  /** Ordering the sections changes neither which of them is the first [Unreleased] one nor what the others are. */
  lemma OrderedFirst(n: seq<Section>)
    ensures var e := SortSections(n);
      (forall s :: s in e <==> s in n) && (UnreleasedIndex(n) < |n| <==> UnreleasedIndex(e) < |e|) &&
      (UnreleasedIndex(n) < |n| ==> e[UnreleasedIndex(e)] == n[UnreleasedIndex(n)])
  {
    hide Sort, SectionLe;
    var u, r := Titled(n, true), Sort(Titled(n, false), SectionLe);
    TitledMembers(n);
    SortPermutes(Titled(n, false), SectionLe);
    var e := SortSections(n);
    assert e == u + r;
    if UnreleasedIndex(n) < |n| {
      FirstTitled(n);
      assert e[0] == u[0];
      assert UnreleasedIndex(e) == 0;
    } else {
      assert forall s :: s in e ==> s.title != UNRELEASED;
      assert forall i :: 0 <= i < |e| ==> e[i] in e;
    }
  }

  lemma SameIndex(a: seq<Section>, b: seq<Section>)
    requires |a| == |b| && forall i :: 0 <= i < |a| ==> a[i].title == b[i].title
    ensures UnreleasedIndex(a) == UnreleasedIndex(b)
  {
  }

  lemma SettledIff(d: Document, history: set<string>)
    ensures var e := FixDocument(d, history).sections;
      Settled(e, ReleasedKeys(e) + history) <==> QuietContent(d.sections, history)
  {
    hide NormalizeAll, SortSections, SettledSection, QuietSection, SubKeys, ReleasedKeys, JoinedKeys, KeyReleased, NormalizedSection;
    var ss := d.sections;
    var known := ReleasedKeys(ss) + history;
    var n := NormalizeAll(ss, known);
    var e := SortSections(n);
    OrderedFirst(n);
    KeysOfPermutation(e, n);
    EachNormalized(ss, known);
    SameIndex(n, ss);
    var u, now := UnreleasedIndex(ss), ReleasedKeys(n) + history;
    SettledSplit(e, now);
    forall i | 0 <= i < |ss|
      ensures n[i] in n && (SettledSection(n[i], {}) <==> QuietSection(ss[i], if i == u then known else {}, {}))
    {
      QuietIff(ss[i], if i == u then known else {}, {});
    }
    hide UnreleasedIndex, Settled;
    assert (forall s :: s in n ==> SettledSection(s, {})) <==>
      forall i :: 0 <= i < |ss| ==> QuietSection(ss[i], if i == u then known else {}, {});
    if u < |ss| {
      assert n[u] == NormalizedSection(ss[u], known);
      UnreleasedKeysIff(ss, history, n[u].subs);
    }
  }

  lemma UnreleasedKeysIff(ss: seq<Section>, history: set<string>, subs: seq<Subsection>)
    requires var known, u := ReleasedKeys(ss) + history, UnreleasedIndex(ss);
      u < |ss| && subs == NormalizedSection(ss[u], known).subs
    ensures var known, u := ReleasedKeys(ss) + history, UnreleasedIndex(ss);
      SubKeys(subs) !! ReleasedKeys(NormalizeAll(ss, known)) + history <==>
      forall title, key :: key in JoinedKeys(ss[u], known, title) ==> key !in history && !KeyReleased(ss, key)
  {
    hide NormalizeAll, SubKeys, ReleasedKeys, JoinedKeys, KeyReleased, NormalizedSection, UnreleasedIndex;
    var known, u := ReleasedKeys(ss) + history, UnreleasedIndex(ss);
    var now := ReleasedKeys(NormalizeAll(ss, known)) + history;
    forall key
      ensures key in SubKeys(subs) <==> exists title :: key in JoinedKeys(ss[u], known, title)
      ensures key in now <==> key in history || KeyReleased(ss, key)
    {
      KeysAreJoined(ss[u], known, key);
      ReleasedIff(ss, known, key);
    }
    if forall title, key :: key in JoinedKeys(ss[u], known, title) ==> key !in history && !KeyReleased(ss, key) {
      forall key | key in SubKeys(subs)
        ensures key !in now
      {
        var title :| key in JoinedKeys(ss[u], known, title);
      }
    }
    if SubKeys(subs) !! now {
      forall title, key | key in JoinedKeys(ss[u], known, title)
        ensures key !in history && !KeyReleased(ss, key)
      {
        assert key in SubKeys(subs);
      }
    }
  }

  /** The exact condition for a second run to change nothing, on the content given to the first. */
  lemma SecondRunIff(content: string, history: set<string>)
    requires NumericTitles(Parse(content).sections)
    ensures FixContent(FixContent(content, history), history) == FixContent(content, history) <==>
      QuietContent(Parse(content).sections, history)
  {
    hide Parse, FixContent, FixDocument, NumericTitles, Settled, QuietContent, ReleasedKeys;
    SecondRunSettled(content, history);
    SettledIff(Parse(content), history);
  }

  // ---------------------------------------------------------------- a changelog that the second run changes

  const TWICE_FIXED: seq<string> := ["## [1.0.0]", "### Fixed", "- a", "  more", "### Fixed", "- b"]
  const FIRST_PART: seq<string> := ["- a", "  more"]
  const SECOND_PART: seq<string> := ["- b"]

  /** A released section with a repeated title: a two-line item, and below the repetition another item. */
  function TwiceFixed(): string {
    Join(TWICE_FIXED) + "\n"
  }

  lemma LineKinds()
    ensures IsListItem("- a") && IsListItem("- b") && !IsListItem("  more")
    ensures !Blank("- a") && !Blank("- b") && !Blank("  more")
  {
    assert !Space('-') && !Space('m') && Space(' ');
    assert "  more"[1..] == " more" && " more"[1..] == "more";
    assert TrimStart("- b") == "- b" && TrimStart("- a") == "- a" && TrimStart("  more") == "more";
    assert "more"[..3] == "mor" && !Space('e');
    HeadingsDiffer("- a");
    HeadingsDiffer("- b");
    assert TrimEnd("more") == "more";
  }

  lemma ReleaseLine()
    ensures IsReleaseHeading("## [1.0.0]") && ReleaseTitle("## [1.0.0]") == "1.0.0" && !IsSubsectionHeading("## [1.0.0]")
  {
    var line := "## [1.0.0]";
    assert line[..4] == "## [" && line[4..] == "1.0.0]";
    var rest := "1.0.0]";
    assert rest[5] == ']' && ']' !in rest[..5];
    assert IndexOf(rest, ']') == 5;
    assert rest[..5] == "1.0.0";
  }

  lemma FixedLine()
    ensures IsSubsectionHeading("### Fixed") && SubsectionTitle("### Fixed") == "Fixed" && !IsReleaseHeading("### Fixed")
  {
    assert !Space('F') && !Space('d');
    assert TrimStart("Fixed") == "Fixed" && TrimEnd("Fixed") == "Fixed";
    assert TitleLine("Fixed") == "### Fixed";
    TitleRoundTrip("Fixed");
    HeadingsDiffer("### Fixed");
  }

  lemma PlainLines()
    ensures forall t :: t in ["- a", "  more", "- b"] ==> !IsReleaseHeading(t) && !IsSubsectionHeading(t)
  {
    assert "- a"[0] == '-' && "  more"[0] == ' ' && "- b"[0] == '-';
  }

  lemma SplitStep(s: string, rest: string, parts: seq<string>)
    requires s != "" && s[1..] == rest && SplitOn(rest, '.') == parts
    ensures SplitOn(s, '.') == if s[0] == '.' then [""] + parts else [[s[0]] + parts[0]] + parts[1..]
  {
  }

  lemma TitleParses()
    ensures SplitOn("1.0.0", '.') == ["1", "0", "0"]
  {
    SplitStep("0", "", [""]);
    assert ['0'] + "" == "0" && [""][1..] == [];
    assert SplitOn("0", '.') == ["0"];
    SplitStep(".0", "0", ["0"]);
    SplitStep("0.0", ".0", ["", "0"]);
    assert SplitOn("0.0", '.') == ["0", "0"];
    SplitStep(".0.0", "0.0", ["0", "0"]);
    SplitStep("1.0.0", ".0.0", ["", "0", "0"]);
    assert ['1'] + "" == "1" && ["", "0", "0"][1..] == ["0", "0"];
  }

  lemma NumericTitle()
    ensures Numeric("1.0.0") && "1.0.0" != UNRELEASED
  {
    TitleParses();
    OneDigit("1");
    OneDigit("0");
    assert |UNRELEASED| == 10;
    hide SplitOn, ParseInt;
  }

  lemma OneDigit(s: string)
    requires s == "0" || s == "1"
    ensures ParseInt(s).Some?
  {
    assert !Space('0') && !Space('1');
    assert TrimStart(s) == s;
    assert Digits(s) == 1;
  }

  lemma GlueOne(g: Group)
    ensures GlueAll([g]) == [g.head] + g.body
  {
    assert [g][1..] == [];
  }

  lemma InnerParses(l: seq<Line>)
    requires l == Numbered(TWICE_FIXED, 1)
    ensures ParseSection(Group(l[0], [l[1], l[2], l[3], l[4], l[5]])) ==
      Section("## [1.0.0]", "1.0.0", [],
        [Subsection("Fixed", [Line("- a", 3), Line("  more", 4)]), Subsection("Fixed", [Line("- b", 6)])])
  {
    ReleaseLine();
    FixedLine();
    PlainLines();
    hide IsReleaseHeading, IsSubsectionHeading, ReleaseTitle, SubsectionTitle, Cut, Numbered;
    var a, b := Group(l[1], [l[2], l[3]]), Group(l[4], [l[5]]);
    var inner := Groups([], [a, b]);
    GlueOne(b);
    assert inner.groups[1..] == [b] && [b][1..] == [];
    assert Glue(inner) == [l[1], l[2], l[3], l[4], l[5]];
    CutGlue(inner, Sub);
    assert ParseSubs([b]) == [Subsection("Fixed", [Line("- b", 6)])];
    assert ParseSubs([a, b]) == [Subsection("Fixed", [Line("- a", 3), Line("  more", 4)])] + ParseSubs([b]);
  }

  lemma OuterParses(l: seq<Line>)
    requires l == Numbered(TWICE_FIXED, 1)
    ensures Cut(l, Release) == Groups([], [Group(l[0], [l[1], l[2], l[3], l[4], l[5]])])
  {
    ReleaseLine();
    FixedLine();
    PlainLines();
    hide IsReleaseHeading, IsSubsectionHeading, ReleaseTitle, SubsectionTitle, Cut, Numbered;
    var outer := Groups([], [Group(l[0], [l[1], l[2], l[3], l[4], l[5]])]);
    GlueOne(outer.groups[0]);
    assert Glue(outer) == l;
    CutGlue(outer, Release);
  }

  lemma LinesAreClean()
    ensures AllClean(TWICE_FIXED)
  {
  }

  /** What the parser reads. */
  lemma TwiceFixedParses()
    ensures Parse(TwiceFixed()).sections ==
      [Section("## [1.0.0]", "1.0.0", [],
         [Subsection("Fixed", [Line("- a", 3), Line("  more", 4)]), Subsection("Fixed", [Line("- b", 6)])])]
  {
    LinesAreClean();
    SplitRendered(TWICE_FIXED);
    var l := Numbered(TWICE_FIXED, 1);
    InnerParses(l);
    OuterParses(l);
    hide SplitContent, Join, Cut, ParseSection, Numbered, AllClean;
  }

  lemma PartIsClean(lines: seq<Line>, t: seq<string>)
    requires Texts(lines) == t && t != [] && !Blank(t[0]) && !Blank(Last(t)) && NoGaps(t)
    ensures CleanBody(lines, {}) == t
  {
    hide Texts, Blank, NoGaps, Compact, TrimBlank, KeepItems, IsListItem;
    TrimTrimmed(t);
    CompactedIff(t);
    CompactedEmptyIff(lines);
  }

  lemma TwoParts(s: Section)
    requires s.subs == [Subsection("Fixed", [Line("- a", 3), Line("  more", 4)]), Subsection("Fixed", [Line("- b", 6)])]
    ensures TitleParts(s, {}, "Fixed") == [FIRST_PART, SECOND_PART]
  {
    LineKinds();
    hide IsListItem, Blank, CleanBody, TrimBlank;
    var x, y := [Line("- a", 3), Line("  more", 4)], [Line("- b", 6)];
    assert Texts(x) == FIRST_PART && Texts(y) == SECOND_PART;
    PartIsClean(x, FIRST_PART);
    PartIsClean(y, SECOND_PART);
    assert Parts(s.subs, {}, "Fixed", 0) == [];
    assert Parts(s.subs, {}, "Fixed", 1) == [FIRST_PART];
    assert Parts(s.subs, {}, "Fixed", 2) == [FIRST_PART] + [SECOND_PART];
  }

  lemma NotWellJoined(s: Section)
    requires s.subs == [Subsection("Fixed", [Line("- a", 3), Line("  more", 4)]), Subsection("Fixed", [Line("- b", 6)])]
    ensures !QuietSection(s, {}, {})
  {
    LineKinds();
    TwoParts(s);
    hide IsListItem, NoGaps, TitleParts, JoinedKeys;
    var parts := [FIRST_PART, SECOND_PART];
    assert parts[1][0] == "- b" && Last(parts[0]) == "  more" && parts[0][0] == "- a";
    assert !WellJoined(parts);
    assert !WellJoined(TitleParts(s, {}, "Fixed"));
  }

  lemma OneReleased(ss: seq<Section>)
    requires |ss| == 1 && ss[0].title != UNRELEASED && Numeric(ss[0].title) && !QuietSection(ss[0], {}, {})
    ensures NumericTitles(ss) && !QuietContent(ss, {})
  {
    hide Numeric, QuietSection, JoinedKeys, KeyReleased, ReleasedKeys;
    assert ss[1..] == [];
    assert UnreleasedIndex(ss) == 1;
  }

  /** The second run changes this content: the blank line put between the two bodies goes only then. */
  lemma TwiceFixedChangesAgain()
    ensures FixContent(FixContent(TwiceFixed(), {}), {}) != FixContent(TwiceFixed(), {})
  {
    TwiceFixedParses();
    NumericTitle();
    var ss := Parse(TwiceFixed()).sections;
    hide Parse, FixContent, TwiceFixed, Numeric, QuietSection, QuietContent, JoinedKeys, KeyReleased, NumericTitles;
    NotWellJoined(ss[0]);
    OneReleased(ss);
    SecondRunIff(TwiceFixed(), {});
  }
}
