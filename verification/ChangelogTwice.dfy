/** The fixer is idempotent, and exactly why repeated titles are excluded. */
module ChangelogTwice {
  import opened Prelude
  import opened StableSort
  import opened ChangelogText
  import opened ChangelogDoc
  import opened ChangelogNormal
  import opened ChangelogItems
  import opened ChangelogCompact
  import opened ChangelogClean
  import opened ChangelogSections
  import opened ChangelogFix
  import opened ChangelogIdempotent

  // ---------------------------------------------------------------- the fixer writes documents that parse back

  lemma {:induction false} KeptMembers(gs: seq<Group>, keys: set<string>)
    ensures forall l :: l in GlueAll(KeptGroups(gs, keys)) ==> l in GlueAll(gs)
  {
    hide Drops;
    if gs != [] {
      KeptMembers(gs[1..], keys);
      var k := KeptGroups(gs, keys);
      if !Drops(gs[0], keys) {
        assert k == [gs[0]] + KeptGroups(gs[1..], keys) && k[1..] == KeptGroups(gs[1..], keys);
      } else {
        assert k == KeptGroups(gs[1..], keys);
      }
    }
  }

  lemma {:induction false} ItemMembers(gs: seq<Group>)
    ensures forall t :: t in Flatten(ItemsOf(gs)) ==> t in Texts(GlueAll(gs))
  {
    hide TrimBlank, Texts;
    if gs != [] {
      ItemMembers(gs[1..]);
      assert ItemsOf(gs)[1..] == ItemsOf(gs[1..]);
      TrimFacts(Texts(Block(gs[0])));
      TextsAppend(Block(gs[0]), GlueAll(gs[1..]));
    }
  }

  lemma CompactMembers(texts: seq<string>)
    ensures forall t :: t in Compact(texts) ==> t in texts
  {
    hide TrimBlank, Cut, Flatten, NonBlank, Synthetic, Texts;
    TrimFacts(texts);
    var lines := Synthetic(TrimBlank(texts));
    GlueCut(lines, Bullet);
    var c := Cut(lines, Bullet);
    ItemMembers(c.groups);
    TextsAppend(c.lead, GlueAll(c.groups));
    TextsSynthetic(TrimBlank(texts));
  }

  lemma CleanMembers(lines: seq<Line>, keys: set<string>)
    ensures forall t :: t in CleanBody(lines, keys) ==> t in Texts(lines)
  {
    hide Compact, TrimBlank, Cut, KeptGroups, Texts;
    var kept := KeepItems(lines, keys);
    CompactMembers(Body(kept));
    BodyIsPlain(kept);
    GlueCut(lines, Bullet);
    var c := Cut(lines, Bullet);
    KeptMembers(c.groups, keys);
    TextsMembers(kept, lines);
  }

  lemma TextsMembers(a: seq<Line>, b: seq<Line>)
    requires forall l :: l in a ==> l in b
    ensures forall t :: t in Texts(a) ==> t in Texts(b)
  {
    hide Texts;
    forall t | t in Texts(a)
      ensures t in Texts(b)
    {
      var i :| 0 <= i < |a| && Texts(a)[i] == t;
      assert a[i] in a;
      var j :| 0 <= j < |b| && b[j] == a[i];
      assert Texts(b)[j] == t;
    }
  }

  lemma MergeOneGood(acc: seq<Subsection>, s: Subsection, keys: set<string>)
    requires GoodSub(s) && forall i :: 0 <= i < |acc| ==> GoodSub(acc[i])
    ensures forall i :: 0 <= i < |MergeOne(acc, s, keys)| ==> GoodSub(MergeOne(acc, s, keys)[i])
  {
    hide IsReleaseHeading, IsSubsectionHeading, GoodTitle, Clean, CleanBody, TrimBlank, Texts, Blank, IsListItem;
    HeadingsDiffer("");
    EmptyIsClean();
    CleanMembers(s.lines, keys);
    var b := CleanBody(s.lines, keys);
    var i := TitleIndex(acc, s.title);
    if b != [] {
      TextsSynthetic(b);
      if i < |acc| {
        BodyIsPlain(acc[i].lines);
        TextsSynthetic(AppendTexts(Body(acc[i].lines), b));
      }
    }
  }

  lemma {:induction false} MergeGood(subs: seq<Subsection>, keys: set<string>, n: nat)
    requires n <= |subs| && forall i :: 0 <= i < |subs| ==> GoodSub(subs[i])
    ensures forall i :: 0 <= i < |MergeUpTo(subs, keys, n)| ==> GoodSub(MergeUpTo(subs, keys, n)[i])
  {
    hide MergeOne, GoodSub;
    if n > 0 {
      MergeGood(subs, keys, n - 1);
      MergeOneGood(MergeUpTo(subs, keys, n - 1), subs[n - 1], keys);
    }
  }

  lemma NormalizedGood(s: Section, keys: set<string>)
    requires GoodSection(s)
    ensures GoodSection(NormalizedSection(s, keys))
  {
    hide IsReleaseHeading, ReleaseTitle, GoodSub, Clean, PlainLine, TrimBlank, MergeUpTo, Sort, Texts;
    var m := MergeUpTo(s.subs, keys, |s.subs|);
    MergeGood(s.subs, keys, |s.subs|);
    BodyIsPlain(s.leading);
    TextsSynthetic(Body(s.leading));
    SortPermutes(m, SubLe);
    var o := Ordered(s.title, m);
    forall i | 0 <= i < |o|
      ensures GoodSub(o[i])
    {
      assert o[i] in o;
      assert o[i] in m;
    }
  }

  lemma {:induction false} NormalizeAllGood(ss: seq<Section>, keys: set<string>)
    requires forall i :: 0 <= i < |ss| ==> GoodSection(ss[i])
    ensures forall s :: s in NormalizeAll(ss, keys) ==> GoodSection(s)
    decreases |ss|
  {
    hide GoodSection, NormalizedSection;
    if ss != [] {
      assert forall i :: 0 <= i < |ss[1..]| ==> ss[1..][i] == ss[i + 1];
      NormalizedGood(ss[0], keys);
      NormalizedGood(ss[0], {});
      NormalizeAllGood(ss[1..], keys);
      NormalizeAllGood(ss[1..], {});
    }
  }

  lemma FixedIsGood(d: Document, history: set<string>)
    requires GoodDocument(d)
    ensures GoodDocument(FixDocument(d, history))
  {
    hide GoodSection, NormalizeAll, ReleasedKeys, Sort, Titled, Clean, IsReleaseHeading;
    var n := NormalizeAll(d.sections, ReleasedKeys(d.sections) + history);
    NormalizeAllGood(d.sections, ReleasedKeys(d.sections) + history);
    TitledMembers(n);
    SortPermutes(Titled(n, false), SectionLe);
    var e := SortSections(n);
    forall i | 0 <= i < |e|
      ensures GoodSection(e[i])
    {
      assert e[i] in e;
    }
  }

  /** With nothing to promote, fixing fixed content changes nothing. */
  lemma FixIsIdempotent(content: string, history: set<string>)
    requires NoRepeats(Parse(content).sections) && NumericTitles(Parse(content).sections)
    ensures FixContent(FixContent(content, history), history) == FixContent(content, history)
  {
    hide Parse, Render, FixDocument, Neat, GoodDocument, NoRepeats, NumericTitles;
    var d := Parse(content);
    var e := FixDocument(d, history);
    ParsedIsGood(content);
    FixedIsGood(d, history);
    ParseRender(e);
    FixSeesNeat(Parse(Render(e)), history);
    FixSeesNeat(e, history);
    FixDocumentTwice(d, history);
  }

  // ---------------------------------------------------------------- why repeated titles are excluded

  /** No list line directly below a blank line. */
  predicate NoGaps(t: seq<string>) {
    forall i :: 0 < i < |t| && IsListItem(t[i]) ==> !Blank(t[i - 1])
  }

  lemma {:induction false} FlattenShorter(gs: seq<Group>)
    ensures |Flatten(ItemsOf(gs))| <= |Texts(GlueAll(gs))|
  {
    hide TrimBlank, Texts;
    if gs != [] {
      FlattenShorter(gs[1..]);
      assert ItemsOf(gs)[1..] == ItemsOf(gs[1..]);
      TextsAppend(Block(gs[0]), GlueAll(gs[1..]));
      TrimShorter(Texts(Block(gs[0])));
    }
  }

  lemma TrimShorter(t: seq<string>)
    ensures |TrimBlank(t)| <= |t|
  {
    hide Blank, DropStart, DropEnd;
    DropStartFacts(t);
    DropEndFacts(DropStart(t));
  }

  lemma WholeItem(g: Group)
    requires IsListItem(g.head.text)
    ensures var b := Texts(Block(g));
      b != [] && (ItemTexts(g) == b <==> !Blank(Last(b)))
  {
    ItemShape(g);
    var b := Texts(Block(g));
    assert b[0] == g.head.text;
    HeadingsDiffer(g.head.text);
    if !Blank(Last(b)) {
      TrimTrimmed(b);
    }
  }

  lemma GapsSplit(b: seq<string>, r: seq<string>)
    requires b != [] && (forall i :: 0 < i < |b| ==> !IsListItem(b[i])) && (r != [] ==> IsListItem(r[0]))
    ensures NoGaps(b + r) <==> (r != [] ==> !Blank(Last(b))) && NoGaps(r)
  {
    hide IsListItem, Blank;
    var t := b + r;
    assert forall i :: 0 <= i < |b| ==> t[i] == b[i];
    assert forall i :: 0 <= i < |r| ==> t[|b| + i] == r[i];
    if NoGaps(t) {
      if r != [] {
        assert IsListItem(t[|b|]);
      }
      forall i | 0 < i < |r| && IsListItem(r[i])
        ensures !Blank(r[i - 1])
      {
        assert t[|b| + i] == r[i] && t[|b| + i - 1] == r[i - 1];
      }
    }
    if (r != [] ==> !Blank(Last(b))) && NoGaps(r) {
      forall i | 0 < i < |t| && IsListItem(t[i])
        ensures !Blank(t[i - 1])
      {
        assert i > |b| ==> t[i] == r[i - |b|] && t[i - 1] == r[i - |b| - 1];
      }
    }
  }

  lemma FlattenStep(gs: seq<Group>)
    requires gs != []
    ensures Flatten(ItemsOf(gs)) == ItemTexts(gs[0]) + Flatten(ItemsOf(gs[1..]))
    ensures Texts(GlueAll(gs)) == Texts(Block(gs[0])) + Texts(GlueAll(gs[1..]))
  {
    hide ItemTexts, Texts;
    assert ItemsOf(gs)[1..] == ItemsOf(gs[1..]);
    TextsAppend(Block(gs[0]), GlueAll(gs[1..]));
  }

  lemma BlockHasOneItemLine(g: Group)
    requires NoHeads(g.body, Bullet)
    ensures var b := Texts(Block(g));
      b != [] && b[0] == g.head.text && forall i :: 0 < i < |b| ==> !IsListItem(b[i])
  {
    hide IsListItem, Texts;
    var b := Texts(Block(g));
    forall i | 0 < i < |b|
      ensures !IsListItem(b[i])
    {
      assert b[i] == g.body[i - 1].text && g.body[i - 1] in g.body;
    }
  }

  lemma WholeIff(item: seq<string>, flat: seq<string>, b: seq<string>, r: seq<string>)
    requires b != [] && (forall i :: 0 < i < |b| ==> !IsListItem(b[i])) && r != [] && IsListItem(r[0])
    requires item <= b && (item == b <==> !Blank(Last(b))) && |flat| <= |r| && (flat == r <==> NoGaps(r))
    ensures item + flat == b + r <==> NoGaps(b + r)
  {
    hide IsListItem, Blank, NoGaps;
    GapsSplit(b, r);
    PartsEqual(item, flat, b, r);
  }

  lemma CutTail(gs: seq<Group>)
    requires gs != [] && IsCut(Groups([], gs), Bullet)
    ensures IsListItem(gs[0].head.text) && NoHeads(gs[0].body, Bullet) && IsCut(Groups([], gs[1..]), Bullet)
  {
    hide IsListItem;
    assert forall i :: 0 <= i < |gs[1..]| ==> gs[1..][i] == gs[i + 1];
  }

  lemma {:induction false} FlattenWholeIff(gs: seq<Group>)
    requires gs != [] && IsCut(Groups([], gs), Bullet)
    requires Texts(GlueAll(gs)) != [] && !Blank(Last(Texts(GlueAll(gs))))
    ensures Flatten(ItemsOf(gs)) == Texts(GlueAll(gs)) <==> NoGaps(Texts(GlueAll(gs)))
    decreases |gs|
  {
    hide IsListItem, Blank, Texts, ItemTexts, NoGaps, Flatten, GlueAll, ItemsOf, NoHeads, IsCut, Block;
    var b, rest := Texts(Block(gs[0])), gs[1..];
    var r := Texts(GlueAll(rest));
    CutTail(gs);
    FlattenStep(gs);
    WholeItem(gs[0]);
    ItemShape(gs[0]);
    BlockHasOneItemLine(gs[0]);
    if rest == [] {
      NothingFlat();
      GapsSplit(b, []);
      assert b + [] == b && ItemTexts(gs[0]) + [] == ItemTexts(gs[0]);
    } else {
      CutTail(rest);
      FlattenStep(rest);
      BlockHasOneItemLine(rest[0]);
      assert r[0] == rest[0].head.text && Last(r) == Last(b + r);
      FlattenWholeIff(rest);
      FlattenShorter(rest);
      WholeIff(ItemTexts(gs[0]), Flatten(ItemsOf(rest)), b, r);
    }
  }

  lemma NothingFlat()
    ensures Flatten(ItemsOf([])) == [] == Texts(GlueAll([])) && NoGaps([])
  {
  }

  lemma PartsEqual(a: seq<string>, c: seq<string>, b: seq<string>, r: seq<string>)
    requires a <= b && |c| <= |r|
    ensures a + c == b + r <==> a == b && c == r
  {
    if a + c == b + r {
      assert |a| == |b| && |c| == |r|;
      assert (a + c)[|a|..] == c && (b + r)[|b|..] == r;
    }
  }

  /** Trimmed text is left alone exactly when it has text above its items, or no blank line above an item. */
  lemma CompactedIff(t: seq<string>)
    requires t != [] && TrimBlank(t) == t
    ensures Compact(t) == t <==> !IsListItem(t[0]) || NoGaps(t)
  {
    hide TrimBlank, Cut, Flatten, NonBlank, Synthetic, Texts, IsListItem, NoGaps, Compact, Blank;
    CompactIs(t);
    if IsListItem(t[0]) {
      var lines := Synthetic(t);
      TrimFacts(t);
      TextsSynthetic(t);
      GlueCut(lines, Bullet);
      CutStep(lines, Bullet);
      var gs := Cut(lines, Bullet).groups;
      assert [] + GlueAll(gs) == GlueAll(gs) == lines;
      FlattenWholeIff(gs);
    }
  }

  lemma AppendTrimmed(x: seq<string>, y: seq<string>)
    requires x != [] && y != [] && TrimBlank(x) == x && TrimBlank(y) == y
    ensures TrimBlank(AppendTexts(x, y)) == AppendTexts(x, y) != []
  {
    hide TrimBlank, Blank, IsListItem;
    TrimFacts(x);
    TrimFacts(y);
    TrimTrimmed(AppendTexts(x, y));
  }
}
