/** What promotion guarantees: items move, none is lost, and none arrives twice. */
module ChangelogPromoted {
  import opened Prelude
  import opened StableSort
  import opened ChangelogText
  import opened ChangelogDoc
  import opened ChangelogNormal
  import opened ChangelogItems
  import opened ChangelogCompact
  import opened ChangelogClean
  import opened ChangelogSections
  import opened ChangelogFix
  import opened ChangelogPromote

  // ---------------------------------------------------------------- what leaves a released section

  function ItemLinesOf(items: seq<ParsedItem>): (r: seq<seq<string>>)
    ensures |r| == |items| && forall i :: 0 <= i < |r| ==> r[i] == items[i].lines
  {
    if items == [] then [] else [items[0].lines] + ItemLinesOf(items[1..])
  }

  lemma {:induction false} GroupsSplit(gs: seq<Group>, starts: set<nat>)
    ensures multiset(ItemsOf(gs)) ==
      multiset(ItemsOf(KeptGroups(gs, {}, starts))) + multiset(ItemLinesOf(TakenItems(gs, {}, starts)))
  {
    hide Drops, ItemTexts;
    if gs != [] {
      GroupsSplit(gs[1..], starts);
      var kept, taken := KeptGroups(gs[1..], {}, starts), TakenItems(gs[1..], {}, starts);
      assert ItemsOf(gs) == [ItemTexts(gs[0])] + ItemsOf(gs[1..]);
      if Drops(gs[0], {}, starts) {
        assert TakenItems(gs, {}, starts) == [Parsed(gs[0])] + taken && KeptGroups(gs, {}, starts) == kept;
        assert ItemLinesOf([Parsed(gs[0])] + taken) == [ItemTexts(gs[0])] + ItemLinesOf(taken);
      } else {
        assert KeptGroups(gs, {}, starts) == [gs[0]] + kept && TakenItems(gs, {}, starts) == taken;
        assert ItemsOf([gs[0]] + kept) == [ItemTexts(gs[0])] + ItemsOf(kept);
      }
    }
  }

  lemma {:induction false} StartsDecide(gs: seq<Group>, starts: set<nat>)
    ensures forall g :: g in KeptGroups(gs, {}, starts) <==> g in gs && g.head.number !in starts
    ensures forall i :: i in TakenItems(gs, {}, starts) ==> i.startLine in starts
  {
    hide ItemTexts, ItemTextKey;
    if gs != [] {
      StartsDecide(gs[1..], starts);
      assert forall g :: g in gs <==> g == gs[0] || g in gs[1..];
    }
  }

  /** A released subsection splits into the items that move, all of them at promotable lines, and everything else. */
  lemma MovedAndLeft(lines: seq<Line>, starts: set<nat>)
    ensures var left := KeepItems(lines, {}, starts);
      Cut(left, Bullet).lead == Cut(lines, Bullet).lead &&
      multiset(Items(lines)) == multiset(Items(left)) + multiset(ItemLinesOf(Promotable(lines, starts))) &&
      (forall g :: g in Cut(left, Bullet).groups <==> g in Cut(lines, Bullet).groups && g.head.number !in starts) &&
      forall i :: i in Promotable(lines, starts) ==> i.startLine in starts
  {
    CutOfLeft(lines, starts);
    GroupsSplit(Cut(lines, Bullet).groups, starts);
    StartsDecide(Cut(lines, Bullet).groups, starts);
    hide Cut, KeptGroups, TakenItems;
  }

  // ---------------------------------------------------------------- nothing to promote

  lemma LeftWhole(lines: seq<Line>, starts: set<nat>)
    requires Promotable(lines, starts) == []
    ensures KeepItems(lines, {}, starts) == lines
  {
    NothingTaken(Cut(lines, Bullet).groups, {}, starts);
    hide Cut, KeptGroups;
    GlueCut(lines, Bullet);
  }

  lemma {:induction false} SubsLeftWhole(subs: seq<Subsection>, starts: set<nat>, n: nat)
    requires n <= |subs| && MovesOfSubs(subs, starts, n) == []
    ensures forall j :: 0 <= j < n ==> KeepItems(subs[j].lines, {}, starts) == subs[j].lines
  {
    hide Promotable, KeepItems;
    if n > 0 {
      SubsLeftWhole(subs, starts, n - 1);
      LeftWhole(subs[n - 1].lines, starts);
    }
  }

  lemma SectionLeftWhole(s: Section, starts: set<nat>)
    requires s.title != UNRELEASED ==> MovesOfSubs(s.subs, starts, |s.subs|) == []
    ensures LeaveSection(s, starts) == s
  {
    hide MovesOfSubs, KeepItems;
    if s.title != UNRELEASED {
      SubsLeftWhole(s.subs, starts, |s.subs|);
      assert LeaveSubs(s.subs, starts) == s.subs;
    }
  }

  lemma {:induction false} SectionsLeftWhole(ss: seq<Section>, starts: set<nat>, n: nat)
    requires n <= |ss| && Moves(ss, starts, n) == []
    ensures forall i :: 0 <= i < n ==> LeaveSection(ss[i], starts) == ss[i]
  {
    hide MovesOfSubs, LeaveSection;
    if n > 0 {
      SectionsLeftWhole(ss, starts, n - 1);
      SectionLeftWhole(ss[n - 1], starts);
    }
  }

  /** With nothing to promote, the fixer drops, normalizes and orders only. */
  lemma PromotesNothing(d: Document, starts: set<nat>, history: set<string>)
    requires var kept := DropKnown(d.sections, ReleasedKeys(d.sections) + history); Moves(kept, starts, |kept|) == []
    ensures FixPromoting(d, starts, history) == FixDocument(d, history)
  {
    hide Moves, DropKnown, SortSections, NormalizeAll, ReleasedKeys, LeaveSection, AddMoves;
    var keys := ReleasedKeys(d.sections) + history;
    var kept := DropKnown(d.sections, keys);
    SectionsLeftWhole(kept, starts, |kept|);
    assert PromoteAll(kept, starts) == Leave(kept, starts) == kept;
    DropThenNormalize(d.sections, keys);
  }

  lemma {:induction false} NoStarts(gs: seq<Group>)
    ensures TakenItems(gs, {}, {}) == []
  {
    hide ItemTexts, ItemTextKey;
    if gs != [] {
      NoStarts(gs[1..]);
    }
  }

  lemma {:induction false} NoStartsNoMoves(ss: seq<Section>, n: nat)
    requires n <= |ss|
    ensures Moves(ss, {}, n) == []
  {
    hide Promotable, MovesOfSubs;
    if n > 0 {
      NoStartsNoMoves(ss, n - 1);
      var subs := ss[n - 1].subs;
      forall j | 0 <= j < |subs|
        ensures Promotable(subs[j].lines, {}) == []
      {
        NothingAtNoStarts(subs[j].lines);
      }
      NoMovesLeft(subs, {}, |subs|);
    }
  }

  lemma NothingAtNoStarts(lines: seq<Line>)
    ensures Promotable(lines, {}) == []
  {
    hide Cut, TakenItems;
    NoStarts(Cut(lines, Bullet).groups);
  }

  lemma PromotingNoLines(d: Document, history: set<string>)
    ensures FixPromoting(d, {}, history) == FixDocument(d, history)
  {
    hide Moves, DropKnown, FixPromoting, FixDocument;
    var kept := DropKnown(d.sections, ReleasedKeys(d.sections) + history);
    NoStartsNoMoves(kept, |kept|);
    PromotesNothing(d, {}, history);
  }

  // ---------------------------------------------------------------- appending one item

  function GroupOf(item: seq<string>): Group
    requires item != []
  {
    Group(Line(item[0], 0), Synthetic(item[1..]))
  }

  lemma ItemGroup(item: seq<string>)
    requires IsItem(item)
    ensures Heads(Bullet, item[0]) && NoHeads(GroupOf(item).body, Bullet) && ItemTexts(GroupOf(item)) == item
    ensures Synthetic(item) == Block(GroupOf(item))
  {
    hide TrimBlank, IsListItem;
    var g := GroupOf(item);
    forall l | l in g.body
      ensures !IsListItem(l.text)
    {
      var k :| 0 <= k < |g.body| && g.body[k] == l;
      assert l.text == item[k + 1];
    }
    assert Synthetic(item) == Block(g);
    TextsSynthetic(item);
  }

  lemma ItemBelow(lines: seq<Line>, item: seq<string>)
    requires IsItem(item)
    ensures Items(lines + Synthetic(item)) == Items(lines) + [item]
  {
    hide IsItem, Cut, NoHeads, ItemTexts, IsListItem;
    ItemGroup(item);
    GlueCut(lines, Bullet);
    var c, g := Cut(lines, Bullet), GroupOf(item);
    GlueSnoc(c.groups, g);
    var e := Groups(c.lead, c.groups + [g]);
    ConcatAssociative(GlueAll(c.groups), [g.head], g.body);
    ConcatAssociative(c.lead, GlueAll(c.groups), Block(g));
    assert Glue(e) == lines + Synthetic(item);
    CutGlue(e, Bullet);
    assert ItemsOf(c.groups + [g]) == ItemsOf(c.groups) + [item];
  }

  lemma BelowNothing(item: seq<string>)
    requires IsItem(item)
    ensures Items(Synthetic(item)) == [item] && Items(Synthetic([])) == []
  {
    hide IsItem, Items;
    ItemBelow([], item);
    NothingUnderNew(item);
    assert Synthetic([]) == [] && [] + Synthetic(item) == Synthetic(item);
  }

  lemma BelowBlank(b: seq<string>, item: seq<string>)
    requires IsItem(item)
    ensures Items(Synthetic(b + [""] + item)) == Items(Synthetic(b)) + [item]
  {
    HeadingsDiffer("");
    hide IsItem, Items, Blank, KeepItems, Body;
    SyntheticAppend(b + [""], item);
    SyntheticAppend(b, [""]);
    assert Synthetic([""]) == [Line("", 0)];
    KeepBlankEnd(Synthetic(b), Line("", 0), {});
    ItemBelow(Synthetic(b + [""]), item);
  }

  lemma BelowList(b: seq<string>, item: seq<string>)
    requires IsItem(item)
    ensures Items(Synthetic(b + item)) == Items(Synthetic(b)) + [item]
  {
    hide IsItem, Items;
    SyntheticAppend(b, item);
    ItemBelow(Synthetic(b), item);
  }

  lemma AppendIs(b: seq<string>, item: seq<string>)
    requires item != []
    ensures (b == [] && AppendTexts(b, item) == item) || AppendTexts(b, item) == b + item || AppendTexts(b, item) == b + [""] + item
  {
    hide IsListItem;
    assert b + [] == b;
  }

  lemma AppendToList(b: seq<string>, item: seq<string>)
    requires IsItem(item)
    ensures item != [] && Items(Synthetic(AppendTexts(b, item))) == Items(Synthetic(b)) + [item]
  {
    assert item != [];
    hide IsItem, Items, Synthetic, AppendTexts;
    BelowNothing(item);
    BelowBlank(b, item);
    BelowList(b, item);
    AppendIs(b, item);
    assert [] + [item] == [item];
  }

  /** Appending adds exactly that item, whatever the body looked like. */
  lemma AppendAddsItem(lines: seq<Line>, item: seq<string>)
    requires IsItem(item)
    ensures item != [] && Items(Synthetic(AppendTexts(Body(lines), item))) == Items(lines) + [item]
  {
    hide IsItem, Items, Body, Synthetic, CleanBody, AppendTexts;
    CleanSeesBody(lines, {});
    AppendToList(Body(lines), item);
  }

  // ---------------------------------------------------------------- what arrives under a title

  function ItemsUnder(subs: seq<Subsection>, title: string): seq<seq<string>> {
    if subs == [] then []
    else (if subs[0].title == title then Items(subs[0].lines) else []) + ItemsUnder(subs[1..], title)
  }

  /** The items a move under that title is compared with. */
  function TargetItems(subs: seq<Subsection>, title: string): seq<seq<string>> {
    if LastTitle(subs, title) < 0 then [] else Items(subs[LastTitle(subs, title)].lines)
  }

  /** The moved items that are new below a title, in order. */
  function Fresh(have: seq<seq<string>>, ms: seq<Move>, title: string): seq<seq<string>> {
    if ms == [] then []
    else
      var before := Fresh(have, ms[..|ms| - 1], title);
      var m := Last(ms);
      before + if m.title == title && ItemTextKey(m.item) !in KeysOf(have + before) then [m.item] else []
  }

  lemma {:induction false} UnderAppend(a: seq<Subsection>, b: seq<Subsection>, title: string)
    ensures ItemsUnder(a + b, title) == ItemsUnder(a, title) + ItemsUnder(b, title)
  {
    hide Items;
    if a == [] {
      assert a + b == b;
    } else {
      UnderAppend(a[1..], b, title);
      assert (a + b)[1..] == a[1..] + b;
      ConcatAssociative(if a[0].title == title then Items(a[0].lines) else [], ItemsUnder(a[1..], title), ItemsUnder(b, title));
    }
  }

  lemma {:induction false} NothingUnder(subs: seq<Subsection>, title: string)
    requires forall i :: 0 <= i < |subs| ==> subs[i].title != title
    ensures ItemsUnder(subs, title) == [] && TitleTexts(subs, title) == []
  {
    hide Items, Texts;
    if subs != [] {
      NothingUnder(subs[1..], title);
    }
  }

  lemma OneUnder(s: Subsection, title: string)
    ensures ItemsUnder([s], title) == if s.title == title then Items(s.lines) else []
    ensures TitleTexts([s], title) == if s.title == title then Texts(s.lines) else []
  {
    hide Items, Texts;
    assert [s][1..] == [];
    NothingUnder([], title);
  }

  /** A list of subsections around position `i`. */
  lemma UnderAt(subs: seq<Subsection>, i: nat, s: Subsection, title: string)
    requires i < |subs| && s.title == subs[i].title
    requires forall j :: i < j < |subs| ==> subs[j].title != subs[i].title
    ensures subs[i].title != title ==>
      ItemsUnder(subs[i := s], title) == ItemsUnder(subs, title) && TitleTexts(subs[i := s], title) == TitleTexts(subs, title)
    ensures subs[i].title == title ==>
      ItemsUnder(subs, title) == ItemsUnder(subs[..i], title) + Items(subs[i].lines) &&
      ItemsUnder(subs[i := s], title) == ItemsUnder(subs[..i], title) + Items(s.lines) &&
      TitleTexts(subs, title) == TitleTexts(subs[..i], title) + Texts(subs[i].lines) &&
      TitleTexts(subs[i := s], title) == TitleTexts(subs[..i], title) + Texts(s.lines)
  {
    hide Items, Texts, ItemsUnder, TitleTexts;
    var front, back := subs[..i], subs[i + 1..];
    assert subs == front + ([subs[i]] + back) && subs[i := s] == front + ([s] + back);
    forall x | x == s || x == subs[i]
      ensures ItemsUnder(front + ([x] + back), title) ==
        ItemsUnder(front, title) + ((if x.title == title then Items(x.lines) else []) + ItemsUnder(back, title))
      ensures TitleTexts(front + ([x] + back), title) ==
        TitleTexts(front, title) + ((if x.title == title then Texts(x.lines) else []) + TitleTexts(back, title))
    {
      UnderAppend(front, [x] + back, title);
      UnderAppend([x], back, title);
      TitleTextsAppend(front, [x] + back, title);
      TitleTextsAppend([x], back, title);
      OneUnder(x, title);
    }
    if subs[i].title == title {
      NothingUnder(back, title);
    }
  }

  lemma LastTitleIs(subs: seq<Subsection>, title: string, i: int)
    requires -1 <= i < |subs| && (i >= 0 ==> subs[i].title == title) && forall j :: i < j < |subs| ==> subs[j].title != title
    ensures LastTitle(subs, title) == i
  {
  }

  /** One move: its own title gains the item if it was new there; no other title changes. */
  lemma MoveAdds(subs: seq<Subsection>, m: Move, title: string)
    requires IsItem(m.item) && m.item != []
    ensures var r := AddMove(subs, m);
      var gained := if m.title == title && ItemTextKey(m.item) !in KeysOf(TargetItems(subs, title)) then [m.item] else [];
      ItemsUnder(r, title) == ItemsUnder(subs, title) + gained && TargetItems(r, title) == TargetItems(subs, title) + gained &&
      NonBlank(TitleTexts(r, title)) == NonBlank(TitleTexts(subs, title)) + NonBlank(Flatten(gained))
  {
    hide IsItem, Items, Texts, ItemsUnder, TitleTexts, KeysOf, ItemTextKey, AppendTexts, Body, LastTitle, NonBlank, Flatten;
    var i, r := LastTitle(subs, m.title), AddMove(subs, m);
    FlattenOne(m.item);
    if i < 0 {
      AddsNewTitle(subs, m, title);
    } else if ItemTextKey(m.item) in KeysOf(Items(subs[i].lines)) {
      assert ItemsUnder(subs, title) + [] == ItemsUnder(subs, title);
      assert TargetItems(subs, title) + [] == TargetItems(subs, title);
      assert NonBlank(TitleTexts(subs, title)) + [] == NonBlank(TitleTexts(subs, title));
    } else {
      AddsToTitle(subs, m, i, title);
    }
  }

  lemma FlattenOne(item: seq<string>)
    ensures Flatten([item]) == item && Flatten([]) == [] && NonBlank([]) == []
  {
    NothingIsBlank();
    assert [item][1..] == [];
  }

  lemma AddsNewTitle(subs: seq<Subsection>, m: Move, title: string)
    requires IsItem(m.item) && LastTitle(subs, m.title) < 0
    ensures var r := subs + [Subsection(m.title, Synthetic(m.item))];
      var gained := if m.title == title then [m.item] else [];
      ItemsUnder(r, title) == ItemsUnder(subs, title) + gained && TargetItems(r, title) == TargetItems(subs, title) + gained &&
      NonBlank(TitleTexts(r, title)) == NonBlank(TitleTexts(subs, title)) + NonBlank(Flatten(gained))
    ensures TargetItems(subs, m.title) == [] && KeysOf([]) == {}
  {
    hide IsItem, Items, Texts, ItemsUnder, TitleTexts, LastTitle, NonBlank, Flatten;
    var s := Subsection(m.title, Synthetic(m.item));
    var r := subs + [s];
    ItemBelow([], m.item);
    NothingUnderNew(m.item);
    assert [] + Synthetic(m.item) == Synthetic(m.item);
    TextsSynthetic(m.item);
    OneUnder(s, title);
    UnderAppend(subs, [s], title);
    TitleTextsAppend(subs, [s], title);
    NonBlankAppend(TitleTexts(subs, title), TitleTexts([s], title));
    FlattenOne(m.item);
    LastTitleIs(r, title, if m.title == title then |subs| else LastTitle(subs, title));
  }

  lemma AddsToTitle(subs: seq<Subsection>, m: Move, i: nat, title: string)
    requires IsItem(m.item) && m.item != [] && i < |subs| && LastTitle(subs, m.title) == i
    ensures var r := subs[i := Subsection(m.title, Synthetic(AppendTexts(Body(subs[i].lines), m.item)))];
      var gained := if m.title == title then [m.item] else [];
      ItemsUnder(r, title) == ItemsUnder(subs, title) + gained && TargetItems(r, title) == TargetItems(subs, title) + gained &&
      NonBlank(TitleTexts(r, title)) == NonBlank(TitleTexts(subs, title)) + NonBlank(Flatten(gained))
  {
    hide IsItem, Items, Texts, ItemsUnder, TitleTexts, LastTitle, NonBlank, Flatten, AppendTexts, TrimBlank;
    var b := Body(subs[i].lines);
    var s := Subsection(m.title, Synthetic(AppendTexts(b, m.item)));
    AppendAddsItem(subs[i].lines, m.item);
    TextsSynthetic(AppendTexts(b, m.item));
    NonBlankAppended(b, m.item);
    NonBlankTrim(Texts(subs[i].lines));
    UnderAt(subs, i, s, title);
    FlattenOne(m.item);
    LastTitleIs(subs[i := s], title, LastTitle(subs, title));
    if m.title == title {
      ConcatAssociative(ItemsUnder(subs[..i], title), Items(subs[i].lines), [m.item]);
      NonBlankAppend(TitleTexts(subs[..i], title), Texts(subs[i].lines));
      NonBlankAppend(TitleTexts(subs[..i], title), Texts(s.lines));
      ConcatAssociative(NonBlank(TitleTexts(subs[..i], title)), NonBlank(Texts(subs[i].lines)), NonBlank(m.item));
    }
  }

  lemma {:induction false} FlattenAppend(a: seq<seq<string>>, b: seq<seq<string>>)
    ensures Flatten(a + b) == Flatten(a) + Flatten(b)
  {
    if a == [] {
      assert a + b == b;
    } else {
      FlattenAppend(a[1..], b);
      assert (a + b)[1..] == a[1..] + b;
      ConcatAssociative(a[0], Flatten(a[1..]), Flatten(b));
    }
  }

  /** All moves: a title gains exactly its new items, in the order of the moves. */
  lemma {:induction false} MovesArrive(subs: seq<Subsection>, ms: seq<Move>, title: string)
    requires Proper(ms)
    ensures var r, gained := AddMoves(subs, ms), Fresh(TargetItems(subs, title), ms, title);
      ItemsUnder(r, title) == ItemsUnder(subs, title) + gained && TargetItems(r, title) == TargetItems(subs, title) + gained &&
      NonBlank(TitleTexts(r, title)) == NonBlank(TitleTexts(subs, title)) + NonBlank(Flatten(gained))
    decreases |ms|
  {
    hide IsItem, Items, ItemsUnder, TitleTexts, TargetItems, KeysOf, ItemTextKey, NonBlank, Flatten, AddMove;
    FlattenOne([]);
    if ms == [] {
      assert ItemsUnder(subs, title) + [] == ItemsUnder(subs, title);
      assert TargetItems(subs, title) + [] == TargetItems(subs, title);
      assert NonBlank(TitleTexts(subs, title)) + [] == NonBlank(TitleTexts(subs, title));
    } else {
      var front, m := ms[..|ms| - 1], Last(ms);
      assert IsItem(m.item) && m.item != [] by {
        ItemIsTrimmed(m.item);
      }
      MovesArrive(subs, front, title);
      MoveAdds(AddMoves(subs, front), m, title);
      var before := Fresh(TargetItems(subs, title), front, title);
      var one := if m.title == title && ItemTextKey(m.item) !in KeysOf(TargetItems(subs, title) + before) then [m.item] else [];
      FlattenAppend(before, one);
      NonBlankAppend(Flatten(before), Flatten(one));
      ConcatAssociative(ItemsUnder(subs, title), before, one);
      ConcatAssociative(TargetItems(subs, title), before, one);
      ConcatAssociative(NonBlank(TitleTexts(subs, title)), NonBlank(Flatten(before)), NonBlank(Flatten(one)));
    }
  }

  // ---------------------------------------------------------------- exactly once

  function CountKey(items: seq<seq<string>>, key: string): nat {
    if items == [] then 0
    else CountKey(items[..|items| - 1], key) + if ItemTextKey(Last(items)) == key then 1 else 0
  }

  ghost predicate Moved(ms: seq<Move>, title: string, key: string) {
    exists i :: 0 <= i < |ms| && ms[i].title == title && ItemTextKey(ms[i].item) == key
  }

  lemma MovedSnoc(ms: seq<Move>, title: string, key: string)
    requires ms != []
    ensures Moved(ms, title, key) <==>
      Moved(ms[..|ms| - 1], title, key) || (Last(ms).title == title && ItemTextKey(Last(ms).item) == key)
  {
    hide ItemTextKey;
    var front := ms[..|ms| - 1];
    if i :| 0 <= i < |front| && front[i].title == title && ItemTextKey(front[i].item) == key {
      assert ms[i] == front[i];
    }
    if i :| 0 <= i < |ms| && ms[i].title == title && ItemTextKey(ms[i].item) == key {
      assert i < |front| ==> front[i] == ms[i];
    }
  }

  /** An item that moves and was not there arrives exactly once; nothing else arrives. */
  lemma {:induction false} ArrivesOnce(have: seq<seq<string>>, ms: seq<Move>, title: string, key: string)
    ensures var gained := Fresh(have, ms, title);
      CountKey(gained, key) == (if Moved(ms, title, key) && key !in KeysOf(have) then 1 else 0) &&
      KeysOf(have + gained) == KeysOf(have) + KeysOf(gained) && (key in KeysOf(gained) <==> CountKey(gained, key) > 0)
    decreases |ms|
  {
    hide ItemTextKey, Moved, KeysOf;
    assert KeysOf([]) == {} by {
      NothingUnderNew([]);
    }
    if ms == [] {
      assert have + [] == have;
      NoneMoved(title, key);
    } else {
      var front, m := ms[..|ms| - 1], Last(ms);
      var before := Fresh(have, front, title);
      ArrivesOnce(have, front, title, key);
      ArrivesOnce(have, front, title, ItemTextKey(m.item));
      MovedSnoc(ms, title, key);
      if m.title == title && ItemTextKey(m.item) !in KeysOf(have + before) {
        var gained := before + [m.item];
        assert gained[..|gained| - 1] == before;
        KeysOfAppend(before, [m.item]);
        KeysOfAppend(have, gained);
        assert KeysOf([m.item]) == {ItemTextKey(m.item)} by {
          KeysOfOne(m.item);
        }
      } else {
        assert before + [] == before;
      }
    }
  }

  lemma NoneMoved(title: string, key: string)
    ensures !Moved([], title, key)
  {
  }

  lemma KeysOfOne(item: seq<string>)
    ensures KeysOf([item]) == {ItemTextKey(item)}
  {
    hide ItemTextKey;
    assert [item][0] in [item];
  }

  // ---------------------------------------------------------------- from the parsed to the fixed document

  lemma PlainStep(front: seq<Subsection>, s: Subsection, title: string)
    ensures NonBlank(TitleTexts(front + [s], title)) ==
      NonBlank(TitleTexts(front, title)) + if s.title == title then NonBlank(Texts(KeepItems(s.lines, {}))) else []
  {
    hide NonBlank, TitleTexts, Texts, KeepItems;
    TitleTextsAppend(front, [s], title);
    NonBlankAppend(TitleTexts(front, title), TitleTexts([s], title));
    OneUnder(s, title);
    KeepsNone(s.lines);
    FlattenOne([]);
  }

  lemma {:induction false} PlainTexts(subs: seq<Subsection>, title: string, n: nat)
    requires n <= |subs|
    ensures KeptTexts(subs, {}, title, n) == NonBlank(TitleTexts(subs[..n], title))
  {
    hide NonBlank, TitleTexts, Texts, KeepItems;
    if n == 0 {
      FlattenOne([]);
      NothingUnder([], title);
      assert subs[..0] == [];
    } else {
      PlainTexts(subs, title, n - 1);
      PlainStep(subs[..n - 1], subs[n - 1], title);
      assert subs[..n] == subs[..n - 1] + [subs[n - 1]];
    }
  }

  lemma KeepsNone(lines: seq<Line>)
    ensures KeepItems(lines, {}) == lines
  {
    hide KeepItems, Items, KeysOf;
    KeepsNothingKnown(lines, {});
  }

  lemma {:induction false} DroppedTexts(subs: seq<Subsection>, keys: set<string>, title: string, n: nat)
    requires n <= |subs|
    ensures KeptTexts(DroppedSubs(subs, keys), {}, title, n) == KeptTexts(subs, keys, title, n)
  {
    hide NonBlank, Texts, KeepItems;
    if n > 0 {
      DroppedTexts(subs, keys, title, n - 1);
      KeepsNone(KeepItems(subs[n - 1].lines, keys));
    }
  }

  /** Normalizing what is left after dropping and promoting only merges and respaces. */
  lemma NormalizedTexts(s: Section, title: string)
    ensures NormalizedSection(s, {}).title == s.title
    ensures NonBlank(TitleTexts(NormalizedSection(s, {}).subs, title)) == NonBlank(TitleTexts(s.subs, title))
  {
    assert NormalizedSection(s, {}).title == s.title;
    hide NormalizedSection, KeptTexts, NonBlank, TitleTexts;
    NormalizingKeepsLines(s, {}, title);
    PlainTexts(s.subs, title, |s.subs|);
    assert s.subs[..|s.subs|] == s.subs;
  }

  lemma IndexIs(ss: seq<Section>, u: nat)
    requires u < |ss| && ss[u].title == UNRELEASED && forall j :: 0 <= j < u ==> ss[j].title != UNRELEASED
    ensures UnreleasedIndex(ss) == u
  {
  }

  lemma SortedFirst(ss: seq<Section>, u: nat)
    requires u < |ss| && ss[u].title == UNRELEASED && forall j :: 0 <= j < u ==> ss[j].title != UNRELEASED
    ensures var r := SortSections(NormalizeAll(ss, {}));
      r != [] && r[0] == NormalizedSection(ss[u], {})
  {
    hide NormalizedSection, Sort, Titled;
    IndexIs(NormalizeAll(ss, {}), u);
    FirstTitled(NormalizeAll(ss, {}));
    NormalizeEach(ss);
  }

  /**
   * Under every title of the fixed [Unreleased] section: the lines that were there, without the items already
   * released, and below them the promoted items that were not there yet, each once.
   */
  lemma FixedUnreleased(d: Document, starts: set<nat>, history: set<string>, title: string)
    requires var kept := DropKnown(d.sections, ReleasedKeys(d.sections) + history);
      UnreleasedIndex(kept) < |kept| || Moves(kept, starts, |kept|) != []
    ensures var keys := ReleasedKeys(d.sections) + history;
      var kept, u := DropKnown(d.sections, keys), UnreleasedIndex(d.sections);
      var there := if u < |d.sections| then KeptTexts(d.sections[u].subs, keys, title, |d.sections[u].subs|) else [];
      var have := if u < |d.sections| then TargetItems(DroppedSubs(d.sections[u].subs, keys), title) else [];
      var fixed := FixPromoting(d, starts, history).sections;
      fixed != [] && fixed[0].title == UNRELEASED &&
      NonBlank(TitleTexts(fixed[0].subs, title)) == there + NonBlank(Flatten(Fresh(have, Moves(kept, starts, |kept|), title)))
  {
    hide Moves, KeptTexts, NonBlank, TitleTexts, Flatten, Fresh, TargetItems, SortSections, NormalizeAll, AddMoves, LeaveSection;
    hide NormalizedSection, ReleasedKeys, Proper;
    var keys := ReleasedKeys(d.sections) + history;
    var kept, u := DropKnown(d.sections, keys), UnreleasedIndex(d.sections);
    var ms := Moves(kept, starts, |kept|);
    MovesAreProper(kept, starts, |kept|);
    if u < |d.sections| {
      IndexIs(kept, u);
      var before := DroppedSubs(d.sections[u].subs, keys);
      assert kept[u].subs == before;
      PromotedAt(kept, starts, u);
      SortedFirst(PromoteAll(kept, starts), u);
      NormalizedTexts(PromoteAll(kept, starts)[u], title);
      MovesArrive(before, ms, title);
      PlainTexts(before, title, |before|);
      assert before[..|before|] == before;
      DroppedTexts(d.sections[u].subs, keys, title, |before|);
    } else {
      assert kept == d.sections;
      PromotedOnTop(kept, starts);
      SortedFirst(PromoteAll(kept, starts), 0);
      NormalizedTexts(PromoteAll(kept, starts)[0], title);
      MovesArrive([], ms, title);
      NothingUnder([], title);
      NoTarget(title);
      FlattenOne([]);
    }
  }

  lemma NoTarget(title: string)
    ensures TargetItems([], title) == []
  {
  }

  lemma PromotedAt(kept: seq<Section>, starts: set<nat>, u: nat)
    requires u < |kept| && UnreleasedIndex(kept) == u
    ensures Proper(Moves(kept, starts, |kept|)) && u < |PromoteAll(kept, starts)|
    ensures PromoteAll(kept, starts)[u] == kept[u].(subs := AddMoves(kept[u].subs, Moves(kept, starts, |kept|)))
    ensures forall j :: 0 <= j < u ==> PromoteAll(kept, starts)[j].title != UNRELEASED
  {
    hide Moves, Proper, AddMoves, LeaveSubs;
    MovesAreProper(kept, starts, |kept|);
    NoMoves(kept[u].subs);
    assert Leave(kept, starts)[u] == kept[u];
    assert forall j :: 0 <= j < u ==> Leave(kept, starts)[j].title == kept[j].title;
  }

  lemma PromotedOnTop(kept: seq<Section>, starts: set<nat>)
    requires UnreleasedIndex(kept) == |kept| && Moves(kept, starts, |kept|) != []
    ensures Proper(Moves(kept, starts, |kept|)) && PromoteAll(kept, starts) != []
    ensures PromoteAll(kept, starts)[0] == NEW_UNRELEASED.(subs := AddMoves([], Moves(kept, starts, |kept|)))
  {
    hide Moves, Proper, AddMoves, LeaveSubs;
    MovesAreProper(kept, starts, |kept|);
  }

  /** The non-blank lines of a title outside the promotable items. */
  function LeftTexts(subs: seq<Subsection>, starts: set<nat>, title: string, n: nat): seq<string>
    requires n <= |subs|
  {
    if n == 0 then []
    else
      LeftTexts(subs, starts, title, n - 1) +
      if subs[n - 1].title == title then NonBlank(Texts(KeepItems(subs[n - 1].lines, {}, starts))) else []
  }

  lemma {:induction false} LeftInSubs(subs: seq<Subsection>, starts: set<nat>, title: string, n: nat)
    requires n <= |subs|
    ensures KeptTexts(LeaveSubs(subs, starts), {}, title, n) == LeftTexts(subs, starts, title, n)
  {
    hide NonBlank, Texts, KeepItems;
    if n > 0 {
      LeftInSubs(subs, starts, title, n - 1);
      KeepsNone(KeepItems(subs[n - 1].lines, {}, starts));
    }
  }

  lemma StillThere(ss: seq<Section>, i: nat)
    requires i < |ss|
    ensures NormalizedSection(ss[i], {}) in SortSections(NormalizeAll(ss, {}))
  {
    hide NormalizedSection, Sort, SectionLe;
    var n := NormalizeAll(ss, {});
    NormalizeEach(ss);
    assert n[i] in n;
    TitledMember(n, i);
    SortPermutes(Titled(n, false), SectionLe);
  }

  lemma {:induction false} TitledMember(ss: seq<Section>, i: nat)
    requires i < |ss|
    ensures ss[i] in Titled(ss, ss[i].title == UNRELEASED)
  {
    if i > 0 {
      TitledMember(ss[1..], i - 1);
    }
  }

  /**
   Every section but the first [Unreleased] one is still there: a released one lost the promoted items under every title
   and nothing else, a further [Unreleased] one nothing at all.
  */
  lemma FixedOthers(d: Document, starts: set<nat>, history: set<string>, i: nat, title: string)
    requires i < |d.sections| && i != UnreleasedIndex(d.sections)
    ensures var before := d.sections[i];
      var s := NormalizedSection(LeaveSection(before, starts), {});
      s in FixPromoting(d, starts, history).sections && s.title == before.title &&
      NonBlank(TitleTexts(s.subs, title)) ==
        if before.title == UNRELEASED then NonBlank(TitleTexts(before.subs, title))
        else LeftTexts(before.subs, starts, title, |before.subs|)
  {
    hide Moves, KeptTexts, NonBlank, TitleTexts, SortSections, NormalizeAll, AddMoves, ReleasedKeys, Proper, LeftTexts, MergeUpTo;
    var kept := DropKnown(d.sections, ReleasedKeys(d.sections) + history);
    DropKeepsIndex(d.sections, ReleasedKeys(d.sections) + history);
    var s := LeaveSection(d.sections[i], starts);
    assert kept[i] == d.sections[i];
    var j := OtherPlace(kept, starts, i);
    var ps := PromoteAll(kept, starts);
    StillThere(ps, j);
    NormalizedTexts(s, title);
    if d.sections[i].title != UNRELEASED {
      PlainTexts(s.subs, title, |s.subs|);
      assert s.subs[..|s.subs|] == s.subs;
      LeftInSubs(d.sections[i].subs, starts, title, |s.subs|);
    }
  }

  lemma DropKeepsIndex(ss: seq<Section>, keys: set<string>)
    ensures |DropKnown(ss, keys)| == |ss| && UnreleasedIndex(DropKnown(ss, keys)) == UnreleasedIndex(ss)
  {
    hide DroppedSubs;
    var u := UnreleasedIndex(ss);
    if u < |ss| {
      IndexIs(DropKnown(ss, keys), u);
    }
  }

  lemma OtherPlace(kept: seq<Section>, starts: set<nat>, i: nat) returns (j: nat)
    requires i < |kept| && i != UnreleasedIndex(kept)
    ensures j < |PromoteAll(kept, starts)| && PromoteAll(kept, starts)[j] == LeaveSection(kept[i], starts)
  {
    hide LeaveSection, UnreleasedIndex, Leave, PromoteAll;
    LeftAt(kept, starts, i);
    var s := PromotedIs(kept, starts);
    var ps, left := PromoteAll(kept, starts), Leave(kept, starts);
    j := i;
    if ps == [s] + left {
      j := i + 1;
      assert ps[j] == left[i];
    }
  }

  lemma LeftAt(kept: seq<Section>, starts: set<nat>, i: nat)
    requires i < |kept|
    ensures |Leave(kept, starts)| == |kept| && Leave(kept, starts)[i] == LeaveSection(kept[i], starts)
    ensures UnreleasedIndex(kept) <= |kept|
  {
    hide LeaveSection;
  }

  /** Promoting changes one section, or puts one on top. */
  lemma PromotedIs(kept: seq<Section>, starts: set<nat>) returns (s: Section)
    ensures var ps, left, u := PromoteAll(kept, starts), Leave(kept, starts), UnreleasedIndex(kept);
      ps == left || (u < |left| && ps == left[u := s]) || (u == |left| && ps == [s] + left)
  {
    hide Moves, Proper, AddMoves, LeaveSection, UnreleasedIndex, Leave;
    MovesAreProper(kept, starts, |kept|);
    var ms, left, u := Moves(kept, starts, |kept|), Leave(kept, starts), UnreleasedIndex(kept);
    s := NEW_UNRELEASED;
    if ms != [] {
      if u < |left| {
        s := left[u].(subs := AddMoves(left[u].subs, ms));
      } else {
        s := NEW_UNRELEASED.(subs := AddMoves([], ms));
        assert ([NEW_UNRELEASED] + left)[0 := s] == [s] + left;
      }
    }
  }
}
