/** The whole fixer: drop what is already released, normalize every section, order the releases. */
module ChangelogFix {
  import opened StableSort
  import opened ReleaseOrder
  import opened ChangelogText
  import opened ChangelogDoc
  import opened ChangelogNormal
  import opened ChangelogItems
  import opened ChangelogCompact
  import opened ChangelogClean
  import opened ChangelogSections

  function SubKeys(subs: seq<Subsection>): set<string> {
    if subs == [] then {} else KeysOf(Items(subs[0].lines)) + SubKeys(subs[1..])
  }

  function ReleasedKeys(ss: seq<Section>): set<string> {
    if ss == [] then {}
    else (if ss[0].title == UNRELEASED then {} else SubKeys(ss[0].subs)) + ReleasedKeys(ss[1..])
  }

  /** Every section normalized; `keys` are dropped from the first [Unreleased] section only. */
  function NormalizeAll(ss: seq<Section>, keys: set<string>): (r: seq<Section>)
    ensures |r| == |ss| && forall i :: 0 <= i < |r| ==> r[i].title == ss[i].title
  {
    if ss == [] then []
    else if ss[0].title == UNRELEASED then [NormalizedSection(ss[0], keys)] + NormalizeAll(ss[1..], {})
    else [NormalizedSection(ss[0], {})] + NormalizeAll(ss[1..], keys)
  }

  function DroppedSubs(subs: seq<Subsection>, keys: set<string>): (r: seq<Subsection>)
    ensures |r| == |subs| && forall i :: 0 <= i < |r| ==> r[i] == Subsection(subs[i].title, KeepItems(subs[i].lines, keys))
  {
    if subs == [] then [] else [Subsection(subs[0].title, KeepItems(subs[0].lines, keys))] + DroppedSubs(subs[1..], keys)
  }

  /** The first [Unreleased] section, or the end. */
  function UnreleasedIndex(ss: seq<Section>): (i: nat)
    ensures i <= |ss| && (i < |ss| ==> ss[i].title == UNRELEASED) && forall j :: 0 <= j < i ==> ss[j].title != UNRELEASED
  {
    if ss == [] || ss[0].title == UNRELEASED then 0 else 1 + UnreleasedIndex(ss[1..])
  }

  /** `keys` dropped from the first [Unreleased] section. */
  function DropKnown(ss: seq<Section>, keys: set<string>): seq<Section> {
    var u := UnreleasedIndex(ss);
    if u == |ss| then ss else ss[u := ss[u].(subs := DroppedSubs(ss[u].subs, keys))]
  }

  function Titled(ss: seq<Section>, unreleased: bool): seq<Section> {
    if ss == [] then []
    else (if (ss[0].title == UNRELEASED) == unreleased then [ss[0]] else []) + Titled(ss[1..], unreleased)
  }

  predicate SectionLe(a: Section, b: Section) {
    NotAfter(a.title, b.title)
  }

  function SortSections(ss: seq<Section>): seq<Section> {
    Titled(ss, true) + Sort(Titled(ss, false), SectionLe)
  }

  function FixDocument(d: Document, history: set<string>): Document {
    Document(d.prefix, SortSections(NormalizeAll(d.sections, ReleasedKeys(d.sections) + history)))
  }

  function FixContent(content: string, history: set<string>): string {
    Render(FixDocument(Parse(content), history))
  }

  // ---------------------------------------------------------------- the loops

  method CollectReleasedItemKeys(ss: seq<Section>) returns (keys: set<string>)
    ensures keys == ReleasedKeys(ss)
  {
    hide ItemTextKey, ItemTexts, Cut;
    keys := {};
    for i := 0 to |ss|
      invariant keys + ReleasedKeys(ss[i..]) == ReleasedKeys(ss)
    {
      assert ss[i..][1..] == ss[i + 1..];
      if ss[i].title == UNRELEASED {
        continue;
      }
      var own := CollectItemKeys(ss[i].subs);
      keys := keys + own;
    }
  }

  method CollectItemKeys(subs: seq<Subsection>) returns (keys: set<string>)
    ensures keys == SubKeys(subs)
  {
    hide ItemTextKey, KeysOf, Cut, ItemTexts;
    keys := {};
    for j := 0 to |subs|
      invariant keys + SubKeys(subs[j..]) == SubKeys(subs)
    {
      assert subs[j..][1..] == subs[j + 1..];
      var items := ParseItems(subs[j].lines);
      var texts := ItemLines(items, Cut(subs[j].lines, Bullet).groups);
      keys := keys + KeysOf(texts);
    }
  }

  method ItemLines(items: seq<ParsedItem>, ghost gs: seq<Group>) returns (texts: seq<seq<string>>)
    requires items == ParsedItems(gs)
    ensures texts == ItemsOf(gs)
  {
    hide ItemTexts;
    texts := seq(|items|, i requires 0 <= i < |items| => items[i].lines);
  }

  ghost predicate NumberedInOrder(ss: seq<Section>) {
    forall i, j :: 0 <= i < |ss| && 0 <= j < |ss[i].subs| ==> Consecutive(ss[i].subs[j].lines)
  }

  function DroppedCount(subs: seq<Subsection>, keys: set<string>, n: nat): nat
    requires n <= |subs|
  {
    if n == 0 then 0 else DroppedCount(subs, keys, n - 1) + |TakenItems(Cut(subs[n - 1].lines, Bullet).groups, keys, {})|
  }

  method DropDuplicates(ss: seq<Section>, keys: set<string>) returns (r: seq<Section>, dropped: nat)
    requires NumberedInOrder(ss)
    ensures r == DropKnown(ss, keys)
    ensures var u := UnreleasedIndex(ss);
      dropped == if u == |ss| then 0 else DroppedCount(ss[u].subs, keys, |ss[u].subs|)
  {
    hide KeepItems, Cut, KeptGroups, Consecutive, TakenItems;
    var u := UnreleasedIndex(ss);
    if u == |ss| {
      return ss, 0;
    }
    var subs := [];
    dropped := 0;
    for j := 0 to |ss[u].subs|
      invariant |subs| == j
      invariant forall k :: 0 <= k < j ==> subs[k] == Subsection(ss[u].subs[k].title, KeepItems(ss[u].subs[k].lines, keys))
      invariant dropped == DroppedCount(ss[u].subs, keys, j)
    {
      var lines, taken := TakeOut(ss[u].subs[j].lines, keys, {});
      subs := subs + [Subsection(ss[u].subs[j].title, lines)];
      dropped := dropped + |taken|;
    }
    assert subs == DroppedSubs(ss[u].subs, keys);
    r := ss[u := ss[u].(subs := subs)];
  }

  method SortReleased(ss: seq<Section>) returns (r: seq<Section>)
    ensures r == Sort(ss, SectionLe)
  {
    hide SectionLe;
    r := [];
    for k := 0 to |ss|
      invariant r == Sort(ss[|ss| - k..], SectionLe)
    {
      var i := |ss| - 1 - k;
      assert ss[i..][0] == ss[i] && ss[i..][1..] == ss[i + 1..];
      r := Insert(ss[i], r, SectionLe);
    }
    assert ss[0..] == ss;
  }

  lemma {:induction false} NormalizeEach(ss: seq<Section>)
    ensures forall i :: 0 <= i < |ss| ==> NormalizeAll(ss, {})[i] == NormalizedSection(ss[i], {})
  {
    hide NormalizedSection;
    if ss != [] {
      NormalizeEach(ss[1..]);
    }
  }

  /** What the two normalizing counters add up to. */
  function EmptySubsIn(ss: seq<Section>, n: nat): nat
    requires n <= |ss|
  {
    if n == 0 then 0 else EmptySubsIn(ss, n - 1) + EmptySubs(ss[n - 1].subs, |ss[n - 1].subs|)
  }

  function SubCount(ss: seq<Section>, n: nat): nat
    requires n <= |ss|
  {
    if n == 0 then 0 else SubCount(ss, n - 1) + |ss[n - 1].subs|
  }

  method NormalizeSections(ss: seq<Section>) returns (r: seq<Section>, merged: nat, removed: nat)
    ensures r == NormalizeAll(ss, {})
    ensures removed == EmptySubsIn(ss, |ss|) && SubCount(r, |r|) + merged + removed == SubCount(ss, |ss|)
  {
    hide NormalizedSection;
    r, merged, removed := [], 0, 0;
    NormalizeEach(ss);
    for i := 0 to |ss|
      invariant |r| == i && forall j :: 0 <= j < i ==> r[j] == NormalizedSection(ss[j], {})
      invariant removed == EmptySubsIn(ss, i) && SubCount(r, i) + merged + removed == SubCount(ss, i)
    {
      var s, m, e := NormalizeSection(ss[i]);
      SubCountPrefix(r, [s], i);
      r, merged, removed := r + [s], merged + m, removed + e;
    }
    assert r == NormalizeAll(ss, {});
  }

  lemma {:induction false} SubCountPrefix(a: seq<Section>, b: seq<Section>, n: nat)
    requires n <= |a|
    ensures SubCount(a + b, n) == SubCount(a, n)
  {
    if n > 0 {
      SubCountPrefix(a, b, n - 1);
    }
  }

  lemma {:induction false} FirstTitled(ss: seq<Section>)
    requires UnreleasedIndex(ss) < |ss|
    ensures Titled(ss, true) != [] && Titled(ss, true)[0] == ss[UnreleasedIndex(ss)]
  {
    if ss[0].title != UNRELEASED {
      FirstTitled(ss[1..]);
    }
  }

  // ---------------------------------------------------------------- dropping first, normalizing later

  lemma CleanInTwoSteps(lines: seq<Line>, keys: set<string>)
    ensures CleanBody(KeepItems(lines, keys), {}) == CleanBody(lines, keys)
  {
    hide KeepItems, Compact, Body, Items, KeysOf;
    KeepsNothingKnown(KeepItems(lines, keys), {});
  }

  lemma MergeOneInTwoSteps(acc: seq<Subsection>, s: Subsection, keys: set<string>)
    ensures MergeOne(acc, Subsection(s.title, KeepItems(s.lines, keys)), {}) == MergeOne(acc, s, keys)
  {
    hide CleanBody, KeepItems, AppendTexts, Body, Synthetic;
    CleanInTwoSteps(s.lines, keys);
  }

  lemma {:induction false} MergeInTwoSteps(subs: seq<Subsection>, keys: set<string>, n: nat)
    requires n <= |subs|
    ensures MergeUpTo(DroppedSubs(subs, keys), {}, n) == MergeUpTo(subs, keys, n)
  {
    hide MergeOne, KeepItems;
    if n > 0 {
      MergeInTwoSteps(subs, keys, n - 1);
      MergeOneInTwoSteps(MergeUpTo(subs, keys, n - 1), subs[n - 1], keys);
    }
  }

  lemma {:induction false} EachNormalized(ss: seq<Section>, keys: set<string>)
    ensures forall i :: 0 <= i < |ss| ==>
      NormalizeAll(ss, keys)[i] == NormalizedSection(ss[i], if i == UnreleasedIndex(ss) then keys else {})
  {
    hide NormalizedSection;
    if ss != [] {
      if ss[0].title == UNRELEASED {
        NormalizeEach(ss[1..]);
      } else {
        EachNormalized(ss[1..], keys);
      }
    }
  }

  /** Dropping the known items up front is the same as dropping them while normalizing. */
  lemma DropThenNormalize(ss: seq<Section>, keys: set<string>)
    ensures NormalizeAll(DropKnown(ss, keys), {}) == NormalizeAll(ss, keys)
  {
    hide NormalizedSection, NormalizeAll;
    var u, r := UnreleasedIndex(ss), DropKnown(ss, keys);
    NormalizeEach(r);
    EachNormalized(ss, keys);
    if u < |ss| {
      SectionInTwoSteps(ss[u], keys);
    }
    forall i | 0 <= i < |ss|
      ensures NormalizeAll(r, {})[i] == NormalizeAll(ss, keys)[i]
    {
      assert i != u ==> r[i] == ss[i];
    }
  }

  lemma SectionInTwoSteps(s: Section, keys: set<string>)
    ensures NormalizedSection(s.(subs := DroppedSubs(s.subs, keys)), {}) == NormalizedSection(s, keys)
  {
    hide MergeUpTo, Body, KeepItems;
    MergeInTwoSteps(s.subs, keys, |s.subs|);
  }

  // ---------------------------------------------------------------- line numbers of a parsed document

  lemma GroupInOrder(lines: seq<Line>, at: Level, i: nat)
    requires Consecutive(lines) && i < |Cut(lines, at).groups|
    ensures Consecutive(Cut(lines, at).groups[i].body)
  {
    hide Cut, Heads;
    var c := Cut(lines, at);
    GlueCut(lines, at);
    BlockNumbers(c.lead, c.groups, i);
    var b := Block(c.groups[i]);
    forall k | 0 <= k < |c.groups[i].body|
      ensures c.groups[i].body[k].number == c.groups[i].body[0].number + k
    {
      assert c.groups[i].body[k] == b[k + 1] && c.groups[i].body[0] == b[1];
    }
  }

  lemma {:induction false} ParsedSubLines(gs: seq<Group>, j: nat)
    requires j < |gs|
    ensures ParseSubs(gs)[j].lines == gs[j].body
  {
    hide IsSubsectionHeading, SubsectionTitle;
    if j > 0 {
      ParsedSubLines(gs[1..], j - 1);
    }
  }

  lemma ParsedInOrder(content: string)
    ensures NumberedInOrder(Parse(content).sections)
  {
    var lines := Numbered(SplitContent(content), 1);
    assert Consecutive(lines);
    hide Cut, Consecutive, SplitContent, IsReleaseHeading, ReleaseTitle;
    var gs := Cut(lines, Release).groups;
    var ss := Parse(content).sections;
    forall i, j | 0 <= i < |ss| && 0 <= j < |ss[i].subs|
      ensures Consecutive(ss[i].subs[j].lines)
    {
      GroupInOrder(lines, Release, i);
      GroupInOrder(gs[i].body, Sub, j);
      ParsedSubLines(Cut(gs[i].body, Sub).groups, j);
    }
  }

  // ---------------------------------------------------------------- the fixer sees the normal form only

  function MergeFrom(acc: seq<Subsection>, subs: seq<Subsection>, keys: set<string>): seq<Subsection>
    decreases |subs|
  {
    if subs == [] then acc else MergeFrom(MergeOne(acc, subs[0], keys), subs[1..], keys)
  }

  lemma {:induction false} MergeFromIs(subs: seq<Subsection>, keys: set<string>, n: nat)
    requires n <= |subs|
    ensures MergeFrom(MergeUpTo(subs, keys, n), subs[n..], keys) == MergeUpTo(subs, keys, |subs|)
    decreases |subs| - n
  {
    hide MergeOne;
    if n < |subs| {
      assert subs[n..][0] == subs[n] && subs[n..][1..] == subs[n + 1..];
      MergeFromIs(subs, keys, n + 1);
    }
  }

  lemma NothingToClean(keys: set<string>)
    ensures CleanBody([], keys) == []
  {
    assert KeepItems([], keys) == [];
    assert Compact([]) == [];
  }

  lemma MergeSeesBody(acc: seq<Subsection>, s: Subsection, keys: set<string>)
    ensures MergeOne(acc, Subsection(s.title, Synthetic(Body(s.lines))), keys) == MergeOne(acc, s, keys)
    ensures Body(s.lines) == [] ==> MergeOne(acc, s, keys) == acc
  {
    hide CleanBody, AppendTexts, Body;
    CleanSeesBody(s.lines, keys);
    if Body(s.lines) == [] {
      NothingToClean(keys);
      assert Synthetic([]) == [];
    }
  }

  lemma {:induction false} MergeNeat(acc: seq<Subsection>, subs: seq<Subsection>, keys: set<string>)
    ensures MergeFrom(acc, NeatSubs(subs), keys) == MergeFrom(acc, subs, keys)
    decreases |subs|
  {
    hide MergeOne, Body, Synthetic;
    if subs != [] {
      MergeSeesBody(acc, subs[0], keys);
      MergeNeat(MergeOne(acc, subs[0], keys), subs[1..], keys);
      var neat := Subsection(subs[0].title, Synthetic(Body(subs[0].lines)));
      if Body(subs[0].lines) != [] {
        assert NeatSubs(subs) == [neat] + NeatSubs(subs[1..]) && ([neat] + NeatSubs(subs[1..]))[1..] == NeatSubs(subs[1..]);
      } else {
        assert NeatSubs(subs) == NeatSubs(subs[1..]);
      }
    }
  }

  lemma SectionSeesNeat(s: Section, keys: set<string>)
    ensures NormalizedSection(NeatSection(s), keys) == NormalizedSection(s, keys)
  {
    assert MergeUpTo(s.subs, keys, 0) == [] == MergeUpTo(NeatSubs(s.subs), keys, 0);
    hide MergeUpTo, NeatSubs, MergeFrom, Body;
    BodyOfBody(s.leading);
    MergeNeat([], s.subs, keys);
    MergeFromIs(s.subs, keys, 0);
    MergeFromIs(NeatSubs(s.subs), keys, 0);
    assert s.subs[0..] == s.subs && NeatSubs(s.subs)[0..] == NeatSubs(s.subs);
  }

  lemma {:induction false} SubKeysNeat(subs: seq<Subsection>)
    ensures SubKeys(NeatSubs(subs)) == SubKeys(subs)
  {
    hide Body, Synthetic, Items, KeysOf;
    if subs != [] {
      SubKeysNeat(subs[1..]);
      CleanSeesBody(subs[0].lines, {});
      var neat := Subsection(subs[0].title, Synthetic(Body(subs[0].lines)));
      if Body(subs[0].lines) != [] {
        assert NeatSubs(subs) == [neat] + NeatSubs(subs[1..]) && ([neat] + NeatSubs(subs[1..]))[1..] == NeatSubs(subs[1..]);
      } else {
        assert NeatSubs(subs) == NeatSubs(subs[1..]);
        NoItems();
      }
    }
  }

  lemma NoItems()
    ensures KeysOf(Items(Synthetic([]))) == {}
  {
  }

  lemma {:induction false} KeysNeat(ss: seq<Section>)
    ensures ReleasedKeys(NeatSections(ss)) == ReleasedKeys(ss)
  {
    hide SubKeys, NeatSubs, Body;
    if ss != [] {
      KeysNeat(ss[1..]);
      SubKeysNeat(ss[0].subs);
      assert NeatSections(ss)[1..] == NeatSections(ss[1..]);
    }
  }

  lemma {:induction false} NormalizeNeat(ss: seq<Section>, keys: set<string>)
    ensures NormalizeAll(NeatSections(ss), keys) == NormalizeAll(ss, keys)
    decreases |ss|
  {
    hide NormalizedSection, NeatSubs, Body;
    if ss != [] {
      SectionSeesNeat(ss[0], keys);
      SectionSeesNeat(ss[0], {});
      NormalizeNeat(ss[1..], keys);
      NormalizeNeat(ss[1..], {});
      assert NeatSections(ss)[1..] == NeatSections(ss[1..]);
    }
  }

  /** Line numbers, blank edges and empty subsections make no difference to the fixer. */
  lemma FixSeesNeat(d: Document, history: set<string>)
    ensures FixDocument(Neat(d), history).sections == FixDocument(d, history).sections
    ensures Render(FixDocument(Neat(d), history)) == Render(FixDocument(d, history))
  {
    hide NormalizeAll, ReleasedKeys, SortSections, NeatSections, Body, RenderSections, PopEmpty, Join;
    KeysNeat(d.sections);
    NormalizeNeat(d.sections, ReleasedKeys(d.sections) + history);
    BodyOfBody(d.prefix);
  }
}
