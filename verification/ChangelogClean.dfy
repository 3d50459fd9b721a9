/** Cleaning one subsection body: drop known items, trim, compact. */
module ChangelogClean {
  import opened Prelude
  import opened ChangelogText
  import opened ChangelogDoc
  import opened ChangelogNormal
  import opened ChangelogItems
  import opened ChangelogCompact

  function CleanBody(lines: seq<Line>, keys: set<string>): seq<string> {
    Compact(Body(KeepItems(lines, keys)))
  }

  function KeysOf(items: seq<seq<string>>): set<string> {
    set i | i in items :: ItemTextKey(i)
  }

  function KeptItems(items: seq<seq<string>>, keys: set<string>): seq<seq<string>> {
    if items == [] then []
    else (if ItemTextKey(items[0]) in keys then [] else [items[0]]) + KeptItems(items[1..], keys)
  }

  // ---------------------------------------------------------------- items of what is kept

  lemma {:induction false} KeptAreCut(gs: seq<Group>, keys: set<string>)
    requires IsCut(Groups([], gs), Bullet)
    ensures IsCut(Groups([], KeptGroups(gs, keys)), Bullet)
    ensures ItemsOf(KeptGroups(gs, keys)) == KeptItems(ItemsOf(gs), keys)
  {
    hide IsListItem, ItemTexts, NoHeads, ItemTextKey;
    if gs != [] {
      var rest := KeptGroups(gs[1..], keys);
      assert forall i :: 0 <= i < |gs[1..]| ==> gs[1..][i] == gs[i + 1];
      KeptAreCut(gs[1..], keys);
      assert ItemsOf(gs)[1..] == ItemsOf(gs[1..]);
      if Drops(gs[0], keys) {
        assert KeptGroups(gs, keys) == rest;
      } else {
        assert KeptGroups(gs, keys) == [gs[0]] + rest && ([gs[0]] + rest)[1..] == rest;
      }
    }
  }

  /** The kept items are the items without the known ones. */
  lemma ItemsOfKept(lines: seq<Line>, keys: set<string>)
    ensures Cut(KeepItems(lines, keys), Bullet) ==
      Groups(Cut(lines, Bullet).lead, KeptGroups(Cut(lines, Bullet).groups, keys))
    ensures Items(KeepItems(lines, keys)) == KeptItems(Items(lines), keys)
  {
    hide Cut, IsListItem, KeptGroups;
    GlueCut(lines, Bullet);
    var c := Cut(lines, Bullet);
    KeptAreCut(c.groups, keys);
    CutGlue(Groups(c.lead, KeptGroups(c.groups, keys)), Bullet);
  }

  lemma {:induction false} KeepAll(gs: seq<Group>, keys: set<string>)
    requires KeysOf(ItemsOf(gs)) !! keys
    ensures KeptGroups(gs, keys) == gs
  {
    hide ItemTexts, ItemTextKey;
    if gs != [] {
      var items := ItemsOf(gs);
      assert items[0] in items;
      assert items[1..] == ItemsOf(gs[1..]);
      assert forall i :: i in items[1..] ==> i in items;
      KeepAll(gs[1..], keys);
    }
  }

  lemma KeepsNothingKnown(lines: seq<Line>, keys: set<string>)
    requires KeysOf(Items(lines)) !! keys
    ensures KeepItems(lines, keys) == lines
  {
    hide Cut, KeptGroups, KeysOf;
    GlueCut(lines, Bullet);
    KeepAll(Cut(lines, Bullet).groups, keys);
  }

  lemma {:induction false} KeptItemsFilter(items: seq<seq<string>>, keys: set<string>)
    ensures KeysOf(KeptItems(items, keys)) == KeysOf(items) - keys
  {
    hide ItemTextKey;
    if items != [] {
      KeptItemsFilter(items[1..], keys);
      assert items == [items[0]] + items[1..];
      var own := if ItemTextKey(items[0]) in keys then [] else [items[0]];
      KeysOfAppend(own, KeptItems(items[1..], keys));
      KeysOfAppend([items[0]], items[1..]);
      assert KeysOf([items[0]]) == {ItemTextKey(items[0])};
    }
  }

  lemma KeysOfAppend(a: seq<seq<string>>, b: seq<seq<string>>)
    ensures KeysOf(a + b) == KeysOf(a) + KeysOf(b)
  {
    hide ItemTextKey;
    forall k
      ensures k in KeysOf(a + b) <==> k in KeysOf(a) + KeysOf(b)
    {
      if k in KeysOf(a) {
        var i :| i in a && ItemTextKey(i) == k;
        assert i in a + b;
      }
      if k in KeysOf(b) {
        var i :| i in b && ItemTextKey(i) == k;
        assert i in a + b;
      }
    }
  }

  // ---------------------------------------------------------------- blank edges do not matter

  lemma KeepErase(lines: seq<Line>, keys: set<string>)
    ensures Body(KeepItems(Erase(lines), keys)) == Body(KeepItems(lines, keys))
    ensures Items(Erase(lines)) == Items(lines)
  {
    hide Cut, Erase, TrimBlank, KeptGroups, EraseAll;
    var c := Cut(lines, Bullet);
    CutErase(lines, Bullet);
    ErasedItems(c.groups);
    KeptErase(c.groups, keys);
    GlueErase(KeptGroups(c.groups, keys));
    EraseAppend(c.lead, GlueAll(KeptGroups(c.groups, keys)));
    EraseKeepsBody(KeepItems(lines, keys));
  }

  lemma ErasedDrops(g: Group, e: Group, keys: set<string>)
    requires e == Group(Line(g.head.text, 0), Erase(g.body))
    ensures Drops(e, keys) <==> Drops(g, keys)
  {
    hide TrimBlank, ItemTextKey;
    assert Texts(Block(e)) == Texts(Block(g));
  }

  lemma {:induction false} KeptErase(gs: seq<Group>, keys: set<string>)
    ensures KeptGroups(EraseAll(gs), keys) == EraseAll(KeptGroups(gs, keys))
  {
    hide TrimBlank, ItemTextKey, Erase;
    if gs != [] {
      KeptErase(gs[1..], keys);
      var e := EraseAll(gs);
      assert e[1..] == EraseAll(gs[1..]);
      ErasedDrops(gs[0], e[0], keys);
      hide Drops;
      if !Drops(gs[0], keys) {
        var k := KeptGroups(gs, keys);
        assert k == [gs[0]] + KeptGroups(gs[1..], keys) && k[1..] == KeptGroups(gs[1..], keys);
      }
    }
  }

  lemma KeepBlankStart(x: Line, s: seq<Line>, keys: set<string>)
    requires Blank(x.text)
    ensures Body(KeepItems([x] + s, keys)) == Body(KeepItems(s, keys))
    ensures Items([x] + s) == Items(s)
  {
    HeadingsDiffer(x.text);
    hide Blank, IsListItem, TrimBlank, KeptGroups, Cut;
    CutStep([x] + s, Bullet);
    assert ([x] + s)[1..] == s;
    var k := KeepItems(s, keys);
    ConcatAssociative([x], Cut(s, Bullet).lead, GlueAll(KeptGroups(Cut(s, Bullet).groups, keys)));
    assert KeepItems([x] + s, keys) == [x] + k;
    TextsAppend([x], k);
    assert Texts([x]) == [x.text];
    TrimBlankBefore(Texts(k), x.text);
  }

  lemma SnocItem(g: Group, x: Line)
    requires Blank(x.text)
    ensures ItemTexts(Group(g.head, g.body + [x])) == ItemTexts(g)
  {
    hide TrimBlank, Blank;
    ConcatAssociative([g.head], g.body, [x]);
    TextsAppend(Block(g), [x]);
    assert Texts([x]) == [x.text];
    TrimBlankAfter(Texts(Block(g)), x.text);
  }

  lemma SnocItems(gs: seq<Group>, x: Line)
    requires gs != [] && Blank(x.text)
    ensures ItemsOf(SnocLast(gs, x)) == ItemsOf(gs)
  {
    hide ItemTexts, Blank;
    SnocItem(Last(gs), x);
  }

  /** A blank line at the end goes or stays with the last group. */
  lemma KeptLonger(gs: seq<Group>, x: Line, keys: set<string>)
    requires gs != [] && Blank(x.text)
    ensures GlueAll(KeptGroups(SnocLast(gs, x), keys)) ==
      GlueAll(KeptGroups(gs, keys)) + if Drops(Last(gs), keys) then [] else [x]
  {
    hide Blank, KeptGroups, ItemTexts, ItemTextKey, GlueAll;
    var front, last := gs[..|gs| - 1], Last(gs);
    var longer := Group(last.head, last.body + [x]);
    SnocItem(last, x);
    assert gs == front + [last];
    KeptSnoc(front, last, keys, {});
    KeptSnoc(front, longer, keys, {});
    if !Drops(last, keys) {
      var kept := KeptGroups(front, keys);
      GlueSnoc(kept, last);
      GlueSnoc(kept, longer);
      ConcatAssociative(GlueAll(kept) + [last.head], last.body, [x]);
    }
  }

  lemma KeepBlankEnd(s: seq<Line>, x: Line, keys: set<string>)
    requires Blank(x.text)
    ensures Body(KeepItems(s + [x], keys)) == Body(KeepItems(s, keys))
    ensures Items(s + [x]) == Items(s)
  {
    HeadingsDiffer(x.text);
    assert KeptGroups([], keys) == [] && GlueAll([]) == [];
    hide Blank, IsListItem, Body, KeptGroups, Cut, ItemTexts, Drops, GlueAll;
    CutSnoc(s, x, Bullet);
    var c := Cut(s, Bullet);
    BodySnoc(KeepItems(s, keys), x);
    if c.groups == [] {
      assert c.lead + [] == c.lead && c.lead + [x] + [] == c.lead + [x];
    } else {
      SnocItems(c.groups, x);
      KeptLonger(c.groups, x, keys);
      var kept := GlueAll(KeptGroups(c.groups, keys));
      ConcatAssociative(c.lead, kept, [x]);
      assert kept + [] == kept;
    }
  }

  lemma {:induction false} KeepDropStart(t: seq<string>, keys: set<string>)
    ensures Body(KeepItems(Synthetic(DropStart(t)), keys)) == Body(KeepItems(Synthetic(t), keys))
    ensures Items(Synthetic(DropStart(t))) == Items(Synthetic(t))
  {
    hide Blank, Body, KeepItems, Items, Synthetic;
    if t != [] && Blank(t[0]) {
      KeepDropStart(t[1..], keys);
      KeepBlankStart(Line(t[0], 0), Synthetic(t[1..]), keys);
      assert Synthetic(t) == [Line(t[0], 0)] + Synthetic(t[1..]);
    }
  }

  lemma {:induction false} KeepDropEnd(t: seq<string>, keys: set<string>)
    ensures Body(KeepItems(Synthetic(DropEnd(t)), keys)) == Body(KeepItems(Synthetic(t), keys))
    ensures Items(Synthetic(DropEnd(t))) == Items(Synthetic(t))
  {
    hide Blank, Body, KeepItems, Items, Synthetic;
    if t != [] && Blank(Last(t)) {
      var front := t[..|t| - 1];
      KeepDropEnd(front, keys);
      KeepBlankEnd(Synthetic(front), Line(Last(t), 0), keys);
      assert Synthetic(t) == Synthetic(front) + [Line(Last(t), 0)];
    }
  }

  /** A body and its trimmed form have the same items, and clean to the same text. */
  lemma CleanSeesBody(lines: seq<Line>, keys: set<string>)
    ensures CleanBody(Synthetic(Body(lines)), keys) == CleanBody(lines, keys)
    ensures Items(Synthetic(Body(lines))) == Items(lines)
  {
    hide DropStart, DropEnd, KeepItems, Items, Compact, Synthetic;
    KeepErase(lines, keys);
    KeepDropStart(Texts(lines), keys);
    KeepDropEnd(DropStart(Texts(lines)), keys);
  }

  /** Cleaning drops exactly the known items, and a second cleaning does nothing. */
  lemma CleanIsFinal(lines: seq<Line>, keys: set<string>)
    ensures var r := CleanBody(lines, keys);
      Items(Synthetic(r)) == KeptItems(Items(lines), keys) &&
      TrimBlank(r) == r && CleanBody(Synthetic(r), keys) == r &&
      NonBlank(r) == NonBlank(Texts(KeepItems(lines, keys)))
  {
    hide TrimBlank, KeepItems, Items, Compact, Synthetic, NonBlank, KeysOf, KeptItems;
    var kept := KeepItems(lines, keys);
    var r := CleanBody(lines, keys);
    CompactIsFinal(Body(kept));
    BodyOfBody(kept);
    TextsSynthetic(Body(kept));
    assert TrimBlank(Body(kept)) == Body(kept);
    CleanSeesBody(kept, {});
    ItemsOfKept(lines, keys);
    KeptItemsFilter(Items(lines), keys);
    KeepsNothingKnown(Synthetic(r), keys);
    TextsSynthetic(r);
    NonBlankTrim(Texts(kept));
  }
}
