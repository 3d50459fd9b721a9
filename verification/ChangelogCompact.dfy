/** Compacting the spacing between list items, and cleaning one subsection body. */
module ChangelogCompact {
  import opened Prelude
  import opened ChangelogText
  import opened ChangelogDoc
  import opened ChangelogNormal
  import opened ChangelogItems

  function NonBlank(texts: seq<string>): seq<string> {
    if texts == [] then []
    else (if Blank(texts[0]) then [] else [texts[0]]) + NonBlank(texts[1..])
  }

  function Flatten(items: seq<seq<string>>): seq<string> {
    if items == [] then [] else items[0] + Flatten(items[1..])
  }

  /** Items one below the other, unless text outside the items would be lost. */
  function Compact(texts: seq<string>): seq<string> {
    var trimmed := TrimBlank(texts);
    var items := Items(Synthetic(trimmed));
    if trimmed == [] || items == [] then trimmed
    else if NonBlank(trimmed) == NonBlank(Flatten(items)) then Flatten(items)
    else trimmed
  }

  method FlatMap(items: seq<ParsedItem>, ghost all: seq<seq<string>>) returns (flattened: seq<string>)
    requires |items| == |all| && forall i :: 0 <= i < |all| ==> items[i].lines == all[i]
    ensures flattened == Flatten(all)
  {
    flattened := [];
    for i := 0 to |items|
      invariant flattened + Flatten(all[i..]) == Flatten(all)
    {
      assert all[i..][1..] == all[i + 1..];
      ConcatAssociative(flattened, all[i], Flatten(all[i + 1..]));
      flattened := flattened + items[i].lines;
    }
    assert all[|items|..] == [];
  }

  method CompactAdjacentListSpacing(texts: seq<string>) returns (r: seq<string>)
    ensures r == Compact(texts)
  {
    hide NonBlank, TrimBlank, Cut, ItemTexts, Flatten, Synthetic;
    var trimmed := TrimBlank(texts);
    if trimmed == [] {
      return trimmed;
    }
    var items := ParseItems(Synthetic(trimmed));
    if items == [] {
      return trimmed;
    }
    var flattened := FlatMap(items, Items(Synthetic(trimmed)));
    if NonBlank(trimmed) != NonBlank(flattened) {
      return trimmed;
    }
    return flattened;
  }

  // ---------------------------------------------------------------- non-blank lines

  lemma {:induction false} NonBlankAppend(a: seq<string>, b: seq<string>)
    ensures NonBlank(a + b) == NonBlank(a) + NonBlank(b)
  {
    hide Blank;
    if a == [] {
      assert a + b == b;
    } else {
      NonBlankAppend(a[1..], b);
      assert (a + b)[1..] == a[1..] + b;
      ConcatAssociative(if Blank(a[0]) then [] else [a[0]], NonBlank(a[1..]), NonBlank(b));
    }
  }

  lemma NothingIsBlank()
    ensures NonBlank([]) == [] == NonBlank([""])
  {
    HeadingsDiffer("");
    hide Blank;
    assert [""][1..] == [];
  }

  lemma {:induction false} NonBlankDropStart(texts: seq<string>)
    ensures NonBlank(DropStart(texts)) == NonBlank(texts)
  {
    hide Blank;
    if texts != [] && Blank(texts[0]) {
      NonBlankDropStart(texts[1..]);
    }
  }

  lemma {:induction false} NonBlankDropEnd(texts: seq<string>)
    ensures NonBlank(DropEnd(texts)) == NonBlank(texts)
  {
    hide Blank;
    if texts != [] && Blank(Last(texts)) {
      var front := texts[..|texts| - 1];
      NonBlankDropEnd(front);
      NonBlankAppend(front, [Last(texts)]);
      assert texts == front + [Last(texts)];
      assert NonBlank([Last(texts)]) == [];
    }
  }

  lemma NonBlankTrim(texts: seq<string>)
    ensures NonBlank(TrimBlank(texts)) == NonBlank(texts)
  {
    hide NonBlank, DropStart, DropEnd;
    NonBlankDropStart(texts);
    NonBlankDropEnd(DropStart(texts));
  }

  lemma {:induction false} NonBlankFlatten(gs: seq<Group>)
    ensures NonBlank(Flatten(ItemsOf(gs))) == NonBlank(Texts(GlueAll(gs)))
  {
    hide NonBlank, Texts, TrimBlank;
    if gs == [] {
      NoTexts();
      assert Flatten([]) == [];
    } else {
      NonBlankFlatten(gs[1..]);
      assert ItemsOf(gs)[1..] == ItemsOf(gs[1..]);
      NonBlankTrim(Texts(Block(gs[0])));
      NonBlankAppend(ItemTexts(gs[0]), Flatten(ItemsOf(gs[1..])));
      TextsAppend(Block(gs[0]), GlueAll(gs[1..]));
      NonBlankAppend(Texts(Block(gs[0])), Texts(GlueAll(gs[1..])));
    }
  }

  // ---------------------------------------------------------------- when compacting applies

  lemma CompactIs(texts: seq<string>)
    ensures var t := TrimBlank(texts);
      Compact(texts) == if t != [] && IsListItem(t[0]) then Flatten(Items(Synthetic(t))) else t
  {
    hide NonBlank, TrimBlank, Blank, IsListItem, Cut, Flatten;
    var t := TrimBlank(texts);
    if t != [] {
      TrimFacts(texts);
      var lines := Synthetic(t);
      var c := Cut(lines, Bullet);
      GlueCut(lines, Bullet);
      CutStep(lines, Bullet);
      TextsAppend(c.lead, GlueAll(c.groups));
      TextsSynthetic(t);
      NonBlankAppend(Texts(c.lead), Texts(GlueAll(c.groups)));
      NonBlankFlatten(c.groups);
      if IsListItem(t[0]) {
        assert Texts(c.lead) == [];
        NothingIsBlank();
      } else {
        assert Texts(c.lead)[0] == t[0];
        NonBlankFirst(Texts(c.lead));
      }
    }
  }

  lemma NonBlankFirst(texts: seq<string>)
    requires texts != [] && !Blank(texts[0])
    ensures |NonBlank(texts)| > 0
  {
  }

  /** The group left of an item once its edges are trimmed. */
  function Tight(g: Group): Group {
    var t := ItemTexts(g);
    Group(Line(g.head.text, 0), if t == [] then [] else Synthetic(t[1..]))
  }

  function TightAll(gs: seq<Group>): (r: seq<Group>)
    ensures |r| == |gs| && forall i :: 0 <= i < |r| ==> r[i] == Tight(gs[i])
  {
    if gs == [] then [] else [Tight(gs[0])] + TightAll(gs[1..])
  }

  lemma ItemShape(g: Group)
    requires IsListItem(g.head.text)
    ensures var i := ItemTexts(g);
      i != [] && i[0] == g.head.text && !Blank(i[0]) && !Blank(Last(i)) && i <= Texts(Block(g))
  {
    HeadingsDiffer(g.head.text);
    var t := Texts(Block(g));
    assert t[0] == g.head.text;
    hide Blank, IsListItem;
    assert DropStart(t) == t;
    DropEndFacts(t);
  }

  lemma TightBody(g: Group)
    requires IsListItem(g.head.text) && NoHeads(g.body, Bullet)
    ensures NoHeads(Tight(g).body, Bullet)
  {
    hide Blank, IsListItem, ItemTexts, Synthetic, Texts;
    ItemShape(g);
    var i, t := ItemTexts(g), Texts(Block(g));
    forall l | l in Synthetic(i[1..])
      ensures !IsListItem(l.text)
    {
      var k :| 0 <= k < |i[1..]| && Synthetic(i[1..])[k] == l;
      assert i[k + 1] == t[k + 1] == g.body[k].text;
      assert g.body[k] in g.body;
    }
  }

  lemma TightFacts(g: Group)
    requires IsListItem(g.head.text) && NoHeads(g.body, Bullet)
    ensures ItemTexts(g) != [] && ItemTexts(g)[0] == g.head.text && !Blank(Last(ItemTexts(g)))
    ensures NoHeads(Tight(g).body, Bullet) && Texts(Block(Tight(g))) == ItemTexts(g) && ItemTexts(Tight(g)) == ItemTexts(g)
    ensures Tight(g).head.text == g.head.text
  {
    hide Blank, IsListItem, TrimBlank, NoHeads, Synthetic, Texts;
    ItemShape(g);
    TightBody(g);
    var i := ItemTexts(g);
    assert Block(Tight(g)) == [Line(i[0], 0)] + Synthetic(i[1..]);
    assert Texts(Block(Tight(g))) == i;
    TrimTrimmed(i);
  }

  lemma {:induction false} TightGlue(gs: seq<Group>)
    requires IsCut(Groups([], gs), Bullet)
    ensures Texts(GlueAll(TightAll(gs))) == Flatten(ItemsOf(gs))
    ensures ItemsOf(TightAll(gs)) == ItemsOf(gs) && IsCut(Groups([], TightAll(gs)), Bullet)
  {
    hide IsListItem, ItemTexts, Tight, Texts;
    if gs == [] {
      NoTexts();
    } else {
      assert forall i :: 0 <= i < |gs[1..]| ==> gs[1..][i] == gs[i + 1];
      TightGlue(gs[1..]);
      TightFacts(gs[0]);
      assert TightAll(gs)[1..] == TightAll(gs[1..]) && ItemsOf(gs)[1..] == ItemsOf(gs[1..]);
      TextsAppend(Block(Tight(gs[0])), GlueAll(TightAll(gs[1..])));
      forall i | 0 <= i < |gs|
        ensures Heads(Bullet, TightAll(gs)[i].head.text) && NoHeads(TightAll(gs)[i].body, Bullet)
      {
        assert i > 0 ==> TightAll(gs)[i] == TightAll(gs[1..])[i - 1];
      }
      assert ItemsOf(TightAll(gs)) == ItemsOf(gs) by {
        forall i | 0 <= i < |gs|
          ensures ItemTexts(TightAll(gs)[i]) == ItemTexts(gs[i])
        {
          assert i > 0 ==> TightAll(gs)[i] == TightAll(gs[1..])[i - 1] && ItemsOf(TightAll(gs[1..]))[i - 1] == ItemTexts(gs[i]);
        }
      }
    }
  }

  lemma ItemEnds(g: Group)
    requires IsListItem(g.head.text) && NoHeads(g.body, Bullet)
    ensures var i := ItemTexts(g);
      i != [] && IsListItem(i[0]) && !Blank(i[0]) && !Blank(Last(i))
  {
    TightFacts(g);
    HeadingsDiffer(g.head.text);
  }

  lemma {:induction false} FlattenEnds(gs: seq<Group>)
    requires gs != [] && IsCut(Groups([], gs), Bullet)
    ensures var f := Flatten(ItemsOf(gs));
      f != [] && IsListItem(f[0]) && !Blank(f[0]) && !Blank(Last(f))
    decreases |gs|
  {
    hide IsListItem, Blank, ItemTexts, NoHeads;
    ItemEnds(gs[0]);
    var own, rest := ItemTexts(gs[0]), Flatten(ItemsOf(gs[1..]));
    assert ItemsOf(gs)[1..] == ItemsOf(gs[1..]);
    assert Flatten(ItemsOf(gs)) == own + rest;
    if |gs| > 1 {
      assert forall i :: 0 <= i < |gs[1..]| ==> gs[1..][i] == gs[i + 1];
      FlattenEnds(gs[1..]);
    } else {
      assert rest == [];
    }
  }

  /** Compacted text has the same items, is trimmed, and is not compacted further. */
  lemma CompactIsFinal(texts: seq<string>)
    ensures var r := Compact(texts);
      TrimBlank(r) == r && Compact(r) == r && NonBlank(r) == NonBlank(texts) &&
      Items(Synthetic(r)) == Items(Synthetic(TrimBlank(texts)))
  {
    hide NonBlank, TrimBlank, Blank, IsListItem, Cut, Flatten, Compact, ItemsOf, TightAll;
    var t := TrimBlank(texts);
    CompactIs(texts);
    NonBlankTrim(texts);
    TrimFacts(texts);
    TrimTrimmed(t);
    CompactIs(t);
    if t != [] && IsListItem(t[0]) {
      var lines := Synthetic(t);
      var gs := Cut(lines, Bullet).groups;
      GlueCut(lines, Bullet);
      CutStep(lines, Bullet);
      assert gs != [];
      FlattenIsTight(gs);
      NonBlankFlatten(gs);
      TextsSynthetic(t);
      assert Texts(GlueAll(gs)) == t by { assert [] + GlueAll(gs) == GlueAll(gs); }
      CompactIs(Flatten(ItemsOf(gs)));
    }
  }

  lemma FlattenIsTight(gs: seq<Group>)
    requires gs != [] && IsCut(Groups([], gs), Bullet)
    ensures var f := Flatten(ItemsOf(gs));
      f != [] && IsListItem(f[0]) && TrimBlank(f) == f && Items(Synthetic(f)) == ItemsOf(gs)
  {
    hide TrimBlank, Blank, IsListItem, Cut, Flatten, ItemTexts, Tight;
    var f := Flatten(ItemsOf(gs));
    FlattenEnds(gs);
    TrimTrimmed(f);
    TightGlue(gs);
    var c := Groups([], TightAll(gs));
    assert Erase(Glue(c)) == Synthetic(f);
    CutGlue(c, Bullet);
    CutErase(Glue(c), Bullet);
    ErasedItems(c.groups);
  }

  lemma {:induction false} ErasedItems(gs: seq<Group>)
    ensures ItemsOf(EraseAll(gs)) == ItemsOf(gs)
  {
    hide TrimBlank;
    forall i | 0 <= i < |gs|
      ensures ItemTexts(EraseAll(gs)[i]) == ItemTexts(gs[i])
    {
      assert Texts(Block(EraseAll(gs)[i])) == Texts(Block(gs[i]));
    }
  }
}
