/**
 Promotion: list items added to an already released section since the last
 release are moved back to [Unreleased] (the middle part of
 `fixChangelogContent` in scripts/fix-changelogs.ts), and the whole fixer.
*/
module ChangelogPromote {
  import opened Prelude
  import opened ChangelogText
  import opened ChangelogDoc
  import opened ChangelogItems
  import opened ChangelogCompact
  import opened ChangelogClean
  import opened ChangelogSections
  import opened ChangelogFix

  // ---------------------------------------------------------------- which items move

  datatype Move = Move(title: string, item: seq<string>)

  /** An item as the parser cuts it: a list line, and below it lines that are not. */
  predicate IsItem(item: seq<string>) {
    item != [] && TrimBlank(item) == item && IsListItem(item[0]) && forall i :: 0 < i < |item| ==> !IsListItem(item[i])
  }

  function ItemMoves(title: string, items: seq<ParsedItem>): (r: seq<Move>)
    ensures |r| == |items| && forall i :: 0 <= i < |r| ==> r[i] == Move(title, items[i].lines)
  {
    if items == [] then [] else [Move(title, items[0].lines)] + ItemMoves(title, items[1..])
  }

  /** The items of one subsection that start at a promotable line. */
  function Promotable(lines: seq<Line>, starts: set<nat>): seq<ParsedItem> {
    TakenItems(Cut(lines, Bullet).groups, {}, starts)
  }

  function MovesOfSubs(subs: seq<Subsection>, starts: set<nat>, n: nat): seq<Move>
    requires n <= |subs|
  {
    if n == 0 then []
    else MovesOfSubs(subs, starts, n - 1) + ItemMoves(subs[n - 1].title, Promotable(subs[n - 1].lines, starts))
  }

  /** The moves out of the released sections among the first `n`. */
  function Moves(ss: seq<Section>, starts: set<nat>, n: nat): seq<Move>
    requires n <= |ss|
  {
    if n == 0 then []
    else
      Moves(ss, starts, n - 1) +
      if ss[n - 1].title == UNRELEASED then [] else MovesOfSubs(ss[n - 1].subs, starts, |ss[n - 1].subs|)
  }

  function LeaveSubs(subs: seq<Subsection>, starts: set<nat>): (r: seq<Subsection>)
    ensures |r| == |subs|
    ensures forall i :: 0 <= i < |r| ==> r[i] == Subsection(subs[i].title, KeepItems(subs[i].lines, {}, starts))
  {
    if subs == [] then [] else [Subsection(subs[0].title, KeepItems(subs[0].lines, {}, starts))] + LeaveSubs(subs[1..], starts)
  }

  function LeaveSection(s: Section, starts: set<nat>): Section {
    if s.title == UNRELEASED then s else s.(subs := LeaveSubs(s.subs, starts))
  }

  /** What the moves leave behind. */
  function Leave(ss: seq<Section>, starts: set<nat>): (r: seq<Section>)
    ensures |r| == |ss| && forall i :: 0 <= i < |r| ==> r[i] == LeaveSection(ss[i], starts)
  {
    if ss == [] then [] else [LeaveSection(ss[0], starts)] + Leave(ss[1..], starts)
  }

  // ---------------------------------------------------------------- where they go

  /** The last subsection of that title, or -1. */
  function LastTitle(subs: seq<Subsection>, title: string): (i: int)
    ensures -1 <= i < |subs| && (i >= 0 ==> subs[i].title == title) && forall j :: i < j < |subs| ==> subs[j].title != title
  {
    if subs == [] then -1
    else if Last(subs).title == title then |subs| - 1
    else LastTitle(subs[..|subs| - 1], title)
  }

  /** A move adds its item below its title, unless the same item is already there. */
  function AddMove(subs: seq<Subsection>, m: Move): seq<Subsection>
    requires m.item != []
  {
    var i := LastTitle(subs, m.title);
    if i < 0 then subs + [Subsection(m.title, Synthetic(m.item))]
    else if ItemTextKey(m.item) in KeysOf(Items(subs[i].lines)) then subs
    else subs[i := Subsection(m.title, Synthetic(AppendTexts(Body(subs[i].lines), m.item)))]
  }

  ghost predicate Proper(ms: seq<Move>) {
    forall i :: 0 <= i < |ms| ==> IsItem(ms[i].item)
  }

  ghost function AddMoves(subs: seq<Subsection>, ms: seq<Move>): seq<Subsection>
    requires Proper(ms)
  {
    if ms == [] then subs else AddMove(AddMoves(subs, ms[..|ms| - 1]), Last(ms))
  }

  const NEW_UNRELEASED := Section("## [Unreleased]", UNRELEASED, [], [])

  /** The moves carried out; a missing [Unreleased] section is created at the top. */
  ghost function PromoteAll(ss: seq<Section>, starts: set<nat>): seq<Section> {
    var ms := Moves(ss, starts, |ss|);
    var left := Leave(ss, starts);
    MovesAreProper(ss, starts, |ss|);
    if ms == [] then left
    else
      var all := if UnreleasedIndex(ss) < |ss| then left else [NEW_UNRELEASED] + left;
      var u := if UnreleasedIndex(ss) < |ss| then UnreleasedIndex(ss) else 0;
      all[u := all[u].(subs := AddMoves(all[u].subs, ms))]
  }

  /** The fixed document: drop what is released, promote, normalize, order. */
  ghost function FixPromoting(d: Document, starts: set<nat>, history: set<string>): Document {
    var kept := DropKnown(d.sections, ReleasedKeys(d.sections) + history);
    Document(d.prefix, SortSections(NormalizeAll(PromoteAll(kept, starts), {})))
  }

  // ---------------------------------------------------------------- moves are items

  lemma ParsedIsItem(g: Group)
    requires Heads(Bullet, g.head.text) && NoHeads(g.body, Bullet)
    ensures IsItem(Parsed(g).lines)
  {
    hide TrimBlank, IsListItem, Texts, Blank;
    ItemShape(g);
    TrimOfItem(g);
    var i, t := ItemTexts(g), Texts(Block(g));
    forall k | 0 < k < |i|
      ensures !IsListItem(i[k])
    {
      assert i[k] == t[k] == g.body[k - 1].text;
      assert g.body[k - 1] in g.body;
    }
  }

  lemma {:induction false} TakenAreItems(gs: seq<Group>, keys: set<string>, starts: set<nat>)
    requires IsCut(Groups([], gs), Bullet)
    ensures forall i :: 0 <= i < |TakenItems(gs, keys, starts)| ==> IsItem(TakenItems(gs, keys, starts)[i].lines)
  {
    hide IsItem, Parsed, Drops, IsListItem, NoHeads;
    if gs != [] {
      assert forall i :: 0 <= i < |gs[1..]| ==> gs[1..][i] == gs[i + 1];
      TakenAreItems(gs[1..], keys, starts);
      ParsedIsItem(gs[0]);
    }
  }

  lemma ProperAppend(a: seq<Move>, b: seq<Move>)
    requires Proper(a) && Proper(b)
    ensures Proper(a + b)
  {
    hide IsItem;
  }

  lemma PromotableAreItems(title: string, lines: seq<Line>, starts: set<nat>)
    ensures Proper(ItemMoves(title, Promotable(lines, starts)))
  {
    hide IsItem, Cut, TakenItems;
    GlueCut(lines, Bullet);
    TakenAreItems(Cut(lines, Bullet).groups, {}, starts);
  }

  lemma {:induction false} SubMovesAreProper(subs: seq<Subsection>, starts: set<nat>, n: nat)
    requires n <= |subs|
    ensures Proper(MovesOfSubs(subs, starts, n))
  {
    hide Proper, Promotable;
    if n == 0 {
      assert Proper([]) by {
        NoMoves([]);
      }
    } else {
      SubMovesAreProper(subs, starts, n - 1);
      PromotableAreItems(subs[n - 1].title, subs[n - 1].lines, starts);
      ProperAppend(MovesOfSubs(subs, starts, n - 1), ItemMoves(subs[n - 1].title, Promotable(subs[n - 1].lines, starts)));
    }
  }

  lemma NoMoves(subs: seq<Subsection>)
    ensures Proper([]) && AddMoves(subs, []) == subs
  {
  }

  lemma {:induction false} MovesAreProper(ss: seq<Section>, starts: set<nat>, n: nat)
    requires n <= |ss|
    ensures Proper(Moves(ss, starts, n))
  {
    hide Proper, MovesOfSubs;
    NoMoves([]);
    if n > 0 {
      MovesAreProper(ss, starts, n - 1);
      SubMovesAreProper(ss[n - 1].subs, starts, |ss[n - 1].subs|);
      ProperAppend(Moves(ss, starts, n - 1),
        if ss[n - 1].title == UNRELEASED then [] else MovesOfSubs(ss[n - 1].subs, starts, |ss[n - 1].subs|));
    }
  }

  lemma {:induction false} AddMovesAppend(subs: seq<Subsection>, a: seq<Move>, b: seq<Move>)
    requires Proper(a) && Proper(b)
    ensures Proper(a + b) && AddMoves(subs, a + b) == AddMoves(AddMoves(subs, a), b)
    decreases |b|
  {
    hide AddMove, IsItem;
    if b == [] {
      assert a + b == a;
    } else {
      var front := b[..|b| - 1];
      AddMovesAppend(subs, a, front);
      assert (a + b)[..|a + b| - 1] == a + front;
    }
  }

  // ---------------------------------------------------------------- the loops

  lemma ParsedTexts(lines: seq<Line>)
    ensures var items := ParsedItems(Cut(lines, Bullet).groups);
      |items| == |Items(lines)| && forall i :: 0 <= i < |items| ==> items[i].lines == Items(lines)[i]
  {
    hide Cut, ItemTexts;
  }

  method HasItem(lines: seq<Line>, item: seq<string>) returns (found: bool)
    ensures found <==> ItemTextKey(item) in KeysOf(Items(lines))
  {
    hide Cut, ItemTextKey, Items, ParsedItems;
    var wanted := ItemTextKey(item);
    var items := ParseItems(lines);
    ghost var all := Items(lines);
    ParsedTexts(lines);
    for i := 0 to |items|
      invariant forall j :: 0 <= j < i ==> ItemTextKey(all[j]) != wanted
    {
      if ItemTextKey(items[i].lines) == wanted {
        assert all[i] in all;
        return true;
      }
    }
    return false;
  }

  method AddItem(subs: seq<Subsection>, title: string, item: seq<string>) returns (r: seq<Subsection>)
    requires IsItem(item)
    ensures r == AddMove(subs, Move(title, item))
  {
    hide ItemTextKey, Items, IsItem, AppendTexts, TrimBlank, Texts, IsListItem;
    assert item != [] && TrimBlank(item) == item by {
      ItemIsTrimmed(item);
    }
    r := subs;
    var at := LastTitle(subs, title);
    if at < 0 {
      NothingUnderNew(item);
      at := |subs|;
      r := subs + [Subsection(title, [])];
    }
    var found := HasItem(r[at].lines, item);
    if found {
      return;
    }
    var existing := Body(r[at].lines);
    if existing == [] {
      r := r[at := Subsection(title, Synthetic(item))];
      AppendToNothing(item);
    } else {
      r := r[at := Subsection(title, Synthetic(AppendTexts(existing, item)))];
    }
  }

  lemma ItemIsTrimmed(item: seq<string>)
    requires IsItem(item)
    ensures item != [] && TrimBlank(item) == item
  {
  }

  lemma NothingUnderNew(item: seq<string>)
    ensures Items([]) == [] && KeysOf([]) == {} && Body([]) == []
  {
  }

  lemma AppendToNothing(item: seq<string>)
    requires item != []
    ensures AppendTexts([], item) == item
  {
  }

  /** The promotable items of one released section move to `target`, the subsections of [Unreleased]. */
  method PromoteSection(s: Section, target: seq<Subsection>, starts: set<nat>)
    returns (r: Section, added: seq<Subsection>, promoted: nat)
    requires s.title != UNRELEASED
    requires forall j :: 0 <= j < |s.subs| ==> Consecutive(s.subs[j].lines) || Promotable(s.subs[j].lines, starts) == []
    ensures r == LeaveSection(s, starts)
    ensures Proper(MovesOfSubs(s.subs, starts, |s.subs|))
    ensures added == AddMoves(target, MovesOfSubs(s.subs, starts, |s.subs|))
    ensures promoted == |MovesOfSubs(s.subs, starts, |s.subs|)|
  {
    hide KeepItems, Consecutive, IsItem, AddMove, AddMoves, TakenItems, Cut, Proper;
    added, promoted := target, 0;
    var subs := [];
    NoMoves(target);
    for j := 0 to |s.subs|
      invariant |subs| == j
      invariant forall k :: 0 <= k < j ==> subs[k] == Subsection(s.subs[k].title, KeepItems(s.subs[k].lines, {}, starts))
      invariant Proper(MovesOfSubs(s.subs, starts, j)) && added == AddMoves(target, MovesOfSubs(s.subs, starts, j))
      invariant promoted == |MovesOfSubs(s.subs, starts, j)|
    {
      var lines, items := TakeOut(s.subs[j].lines, {}, starts);
      subs := subs + [Subsection(s.subs[j].title, lines)];
      ghost var before, ms := added, ItemMoves(s.subs[j].title, items);
      PromotableAreItems(s.subs[j].title, s.subs[j].lines, starts);
      added := AddItems(added, s.subs[j].title, items);
      promoted := promoted + |items|;
      AddMovesAppend(target, MovesOfSubs(s.subs, starts, j), ms);
    }
    assert subs == LeaveSubs(s.subs, starts);
    r := s.(subs := subs);
  }

  lemma AddMovesStep(target: seq<Subsection>, ms: seq<Move>, k: nat)
    requires Proper(ms) && k < |ms|
    ensures IsItem(ms[k].item) && ms[k].item != []
    ensures AddMoves(target, ms[..k + 1]) == AddMove(AddMoves(target, ms[..k]), ms[k])
  {
    hide AddMove;
    assert ms[..k + 1][..k] == ms[..k];
  }

  method AddItems(target: seq<Subsection>, title: string, items: seq<ParsedItem>) returns (added: seq<Subsection>)
    requires Proper(ItemMoves(title, items))
    ensures added == AddMoves(target, ItemMoves(title, items))
  {
    hide AddMove, IsItem, AddMoves;
    NoMoves(target);
    added := target;
    ghost var ms := ItemMoves(title, items);
    assert ms[..0] == [];
    for k := 0 to |items|
      invariant added == AddMoves(target, ms[..k])
    {
      AddMovesStep(target, ms, k);
      added := AddItem(added, title, items[k].lines);
    }
    assert ms[..|items|] == ms;
  }

  lemma {:induction false} KeepTwice(gs: seq<Group>, starts: set<nat>)
    ensures TakenItems(KeptGroups(gs, {}, starts), {}, starts) == []
    ensures KeptGroups(KeptGroups(gs, {}, starts), {}, starts) == KeptGroups(gs, {}, starts)
  {
    hide Drops, Parsed;
    if gs != [] {
      var rest := KeptGroups(gs[1..], {}, starts);
      KeepTwice(gs[1..], starts);
      if !Drops(gs[0], {}, starts) {
        assert KeptGroups(gs, {}, starts) == [gs[0]] + rest && ([gs[0]] + rest)[1..] == rest;
      } else {
        assert KeptGroups(gs, {}, starts) == rest;
      }
    }
  }

  lemma {:induction false} KeptByStart(gs: seq<Group>, starts: set<nat>)
    requires IsCut(Groups([], gs), Bullet)
    ensures IsCut(Groups([], KeptGroups(gs, {}, starts)), Bullet)
  {
    hide Drops, NoHeads, IsListItem;
    if gs != [] {
      assert forall i :: 0 <= i < |gs[1..]| ==> gs[1..][i] == gs[i + 1];
      KeptByStart(gs[1..], starts);
    }
  }

  lemma CutOfLeft(lines: seq<Line>, starts: set<nat>)
    ensures Cut(KeepItems(lines, {}, starts), Bullet) ==
      Groups(Cut(lines, Bullet).lead, KeptGroups(Cut(lines, Bullet).groups, {}, starts))
  {
    hide Cut, KeptGroups, IsListItem;
    GlueCut(lines, Bullet);
    var c := Cut(lines, Bullet);
    KeptByStart(c.groups, starts);
    CutGlue(Groups(c.lead, KeptGroups(c.groups, {}, starts)), Bullet);
  }

  /** A section that was promoted from has nothing more to promote. */
  lemma LeavesNothing(lines: seq<Line>, starts: set<nat>)
    ensures Promotable(KeepItems(lines, {}, starts), starts) == []
    ensures KeepItems(KeepItems(lines, {}, starts), {}, starts) == KeepItems(lines, {}, starts)
  {
    CutOfLeft(lines, starts);
    KeepTwice(Cut(lines, Bullet).groups, starts);
    hide Cut, KeptGroups, TakenItems;
  }

  lemma {:induction false} NoMovesLeft(subs: seq<Subsection>, starts: set<nat>, n: nat)
    requires n <= |subs| && forall j :: 0 <= j < n ==> Promotable(subs[j].lines, starts) == []
    ensures MovesOfSubs(subs, starts, n) == []
  {
    hide Promotable;
    if n > 0 {
      NoMovesLeft(subs, starts, n - 1);
    }
  }

  lemma LeaveTwice(s: Section, starts: set<nat>)
    requires s.title != UNRELEASED
    ensures var r := LeaveSection(s, starts);
      LeaveSection(r, starts) == r && MovesOfSubs(r.subs, starts, |r.subs|) == [] &&
      forall j :: 0 <= j < |r.subs| ==> Promotable(r.subs[j].lines, starts) == []
  {
    hide KeepItems, Promotable, MovesOfSubs;
    var r := LeaveSection(s, starts);
    forall j | 0 <= j < |r.subs|
      ensures Promotable(r.subs[j].lines, starts) == [] && KeepItems(r.subs[j].lines, {}, starts) == r.subs[j].lines
    {
      LeavesNothing(s.subs[j].lines, starts);
    }
    NoMovesLeft(r.subs, starts, |r.subs|);
    assert LeaveSubs(r.subs, starts) == r.subs;
  }

  ghost predicate ReleasedInOrder(ss: seq<Section>) {
    forall i, j :: 0 <= i < |ss| && ss[i].title != UNRELEASED && 0 <= j < |ss[i].subs| ==> Consecutive(ss[i].subs[j].lines)
  }

  /** The sections while the loop runs: the first `done` ones are promoted from, `made` tells whether one was put on top. */
  ghost predicate Underway(ds: seq<Section>, starts: set<nat>, done: nat, made: bool, ss: seq<Section>) {
    var at := if made then 1 else 0;
    && done <= |ds| && |ss| == at + |ds| && (made ==> ss[0] == NEW_UNRELEASED)
    && forall j :: 0 <= j < |ds| ==> ss[at + j] == if j < done then LeaveSection(ds[j], starts) else ds[j]
  }

  lemma MovesSnoc(ds: seq<Section>, starts: set<nat>, target: seq<Subsection>, done: nat)
    requires done < |ds| && ds[done].title != UNRELEASED
    ensures var a, b := Moves(ds, starts, done), MovesOfSubs(ds[done].subs, starts, |ds[done].subs|);
      Proper(a) && Proper(b) && Moves(ds, starts, done + 1) == a + b && Proper(a + b) &&
      AddMoves(target, a + b) == AddMoves(AddMoves(target, a), b)
  {
    hide MovesOfSubs, AddMoves, Proper;
    MovesAreProper(ds, starts, done);
    SubMovesAreProper(ds[done].subs, starts, |ds[done].subs|);
    AddMovesAppend(target, Moves(ds, starts, done), MovesOfSubs(ds[done].subs, starts, |ds[done].subs|));
  }

  lemma InOrderAt(ds: seq<Section>, i: nat)
    requires ReleasedInOrder(ds) && i < |ds| && ds[i].title != UNRELEASED
    ensures forall j :: 0 <= j < |ds[i].subs| ==> Consecutive(ds[i].subs[j].lines)
  {
    hide Consecutive;
  }

  lemma UnderwaySees(ds: seq<Section>, starts: set<nat>, done: nat, made: bool, ss: seq<Section>)
    requires Underway(ds, starts, done, made, ss)
    ensures done <= |ds| && |ss| == (if made then 1 else 0) + |ds|
    ensures done < |ds| ==> ss[(if made then 1 else 0) + done] == ds[done]
    ensures done > 0 ==> ss[(if made then 1 else 0) + done - 1] == LeaveSection(ds[done - 1], starts)
    ensures done > 0 ==> LeaveSection(ds[done - 1], starts).title == ds[done - 1].title
  {
  }

  lemma UnderwayNext(ds: seq<Section>, starts: set<nat>, done: nat, made: bool, ss: seq<Section>)
    requires Underway(ds, starts, done, made, ss) && done < |ds|
    ensures Underway(ds, starts, done + 1, made, ss[(if made then 1 else 0) + done := LeaveSection(ds[done], starts)])
  {
    hide LeaveSection;
  }

  lemma UnderwayMade(ds: seq<Section>, starts: set<nat>, done: nat, ss: seq<Section>)
    requires Underway(ds, starts, done, false, ss)
    ensures Underway(ds, starts, done, true, [NEW_UNRELEASED] + ss)
  {
    hide LeaveSection;
  }

  lemma SkipUnreleased(ds: seq<Section>, starts: set<nat>, done: nat)
    requires done < |ds| && ds[done].title == UNRELEASED
    ensures Moves(ds, starts, done + 1) == Moves(ds, starts, done) && LeaveSection(ds[done], starts) == ds[done]
  {
    hide MovesOfSubs;
  }

  lemma PlacesKept(ds: seq<Section>, starts: set<nat>, made: bool, ss: seq<Section>)
    requires Underway(ds, starts, |ds|, made, ss)
    ensures ss == (if made then [NEW_UNRELEASED] else []) + Leave(ds, starts)
    ensures UnreleasedIndex(ds) < |ds| ==>
      Leave(ds, starts)[UnreleasedIndex(ds)] == ds[UnreleasedIndex(ds)]
  {
    hide LeaveSubs;
  }

  function StartingSubs(ds: seq<Section>): seq<Subsection> {
    if UnreleasedIndex(ds) < |ds| then ds[UnreleasedIndex(ds)].subs else []
  }

  function Place(ds: seq<Section>, made: bool): Option<nat> {
    if made then Some(0) else if UnreleasedIndex(ds) < |ds| then Some(UnreleasedIndex(ds)) else None
  }

  /** The loop invariant. `made` also means that index `i` may be one behind: that section is then seen a second time. */
  ghost predicate Going(
    ds: seq<Section>, starts: set<nat>, done: nat, made: bool, i: nat, ss: seq<Section>, target: seq<Subsection>, promoted: nat)
  {
    && done <= |ds| && Underway(ds, starts, done, made, ss)
    && (i == (if made then 1 else 0) + done || (made && 0 < done && i == done && ds[done - 1].title != UNRELEASED))
    && (made <==> UnreleasedIndex(ds) == |ds| && Moves(ds, starts, done) != [])
    && Proper(Moves(ds, starts, done)) && target == AddMoves(StartingSubs(ds), Moves(ds, starts, done))
    && promoted == |Moves(ds, starts, done)|
  }

  lemma StartGoing(ds: seq<Section>, starts: set<nat>)
    ensures Going(ds, starts, 0, false, 0, ds, StartingSubs(ds), 0)
  {
    NoMoves(StartingSubs(ds));
  }

  lemma GoingOn(
    ds: seq<Section>, starts: set<nat>, done: nat, made: bool, i: nat, ss: seq<Section>, target: seq<Subsection>, promoted: nat,
    added: seq<Subsection>, n: nat)
    requires Going(ds, starts, done, made, i, ss, target, promoted) && i == (if made then 1 else 0) + done < |ss|
    requires ss[i].title != UNRELEASED
    requires var ms := MovesOfSubs(ss[i].subs, starts, |ss[i].subs|);
      Proper(ms) && added == AddMoves(target, ms) && n == |ms|
    ensures var r := ss[i := LeaveSection(ss[i], starts)];
      if n > 0 && Place(ds, made).None? then
        Going(ds, starts, done + 1, true, i + 1, [NEW_UNRELEASED] + r, added, promoted + n)
      else Going(ds, starts, done + 1, made, i + 1, r, added, promoted + n)
  {
    hide LeaveSection, MovesOfSubs, AddMoves, Proper, Underway, Moves;
    UnderwaySees(ds, starts, done, made, ss);
    MovesSnoc(ds, starts, StartingSubs(ds), done);
    UnderwayNext(ds, starts, done, made, ss);
    if n > 0 && Place(ds, made).None? {
      UnderwayMade(ds, starts, done + 1, ss[i := LeaveSection(ss[i], starts)]);
    }
  }

  lemma GoingPast(
    ds: seq<Section>, starts: set<nat>, done: nat, made: bool, i: nat, ss: seq<Section>, target: seq<Subsection>, promoted: nat)
    requires Going(ds, starts, done, made, i, ss, target, promoted) && i < |ss|
    requires ss[i].title == UNRELEASED
    ensures i == (if made then 1 else 0) + done && Going(ds, starts, done + 1, made, i + 1, ss, target, promoted)
  {
    hide LeaveSection, AddMoves, Proper, Underway, Moves;
    UnderwaySees(ds, starts, done, made, ss);
    SkipUnreleased(ds, starts, done);
    UnderwayNext(ds, starts, done, made, ss);
    assert ss[i := ss[i]] == ss;
  }

  lemma GoingAgain(
    ds: seq<Section>, starts: set<nat>, done: nat, made: bool, i: nat, ss: seq<Section>, target: seq<Subsection>, promoted: nat)
    requires Going(ds, starts, done, made, i, ss, target, promoted) && i < (if made then 1 else 0) + done
    ensures i < |ss| && Going(ds, starts, done, made, i + 1, ss, target, promoted)
    ensures ss[i := LeaveSection(ss[i], starts)] == ss && MovesOfSubs(ss[i].subs, starts, |ss[i].subs|) == []
    ensures forall j :: 0 <= j < |ss[i].subs| ==> Promotable(ss[i].subs[j].lines, starts) == []
  {
    hide LeaveSection, AddMoves, Proper, Underway, Moves, MovesOfSubs, Promotable;
    UnderwaySees(ds, starts, done, made, ss);
    LeaveTwice(ds[done - 1], starts);
  }

  lemma TargetPlaced(ds: seq<Section>, starts: set<nat>, made: bool, i: nat, ss: seq<Section>, target: seq<Subsection>, promoted: nat)
    requires Going(ds, starts, |ds|, made, i, ss, target, promoted)
    ensures var u := Place(ds, made);
      u.Some? ==> u.value < |ss|
    ensures var u := Place(ds, made);
      PromoteAll(ds, starts) == if u.Some? then ss[u.value := ss[u.value].(subs := target)] else ss
  {
    hide Moves, Proper, AddMoves, Underway, LeaveSection;
    PlacesKept(ds, starts, made, ss);
    var ms, left := Moves(ds, starts, |ds|), Leave(ds, starts);
    if ms == [] && Place(ds, made).Some? {
      NoMoves(StartingSubs(ds));
      assert ss == left && ss[Place(ds, made).value := ss[Place(ds, made).value]] == ss;
    } else if !made {
      assert ss == left;
    }
  }

  /**
   * The loop runs over the list of sections itself: putting a new section on top of it makes the loop see the
   * current section a second time.
   */
  method PromoteItems(ds: seq<Section>, starts: set<nat>) returns (ss: seq<Section>, promoted: nat)
    requires ReleasedInOrder(ds)
    ensures ss == PromoteAll(ds, starts) && promoted == |Moves(ds, starts, |ds|)|
  {
    StartGoing(ds, starts);
    hide LeaveSection, MovesOfSubs, Consecutive, AddMoves, Promotable, Moves, Underway, ReleasedInOrder, PromoteAll;
    ss, promoted := ds, 0;
    var u := if UnreleasedIndex(ds) < |ds| then Some(UnreleasedIndex(ds)) else None;
    var target := if u.Some? then ds[u.value].subs else [];
    ghost var done, made := 0, false;
    var i := 0;
    while i < |ss|
      invariant u == Place(ds, made) && Going(ds, starts, done, made, i, ss, target, promoted)
      decreases 2 * (|ds| - done) + (if made then 1 else 0) + done - i
    {
      UnderwaySees(ds, starts, done, made, ss);
      ghost var again := i < (if made then 1 else 0) + done;
      if ss[i].title == UNRELEASED {
        GoingPast(ds, starts, done, made, i, ss, target, promoted);
      } else {
        if again {
          GoingAgain(ds, starts, done, made, i, ss, target, promoted);
          NoMoves(target);
        } else {
          InOrderAt(ds, done);
        }
        var s, added, n := PromoteSection(ss[i], target, starts);
        if !again {
          GoingOn(ds, starts, done, made, i, ss, target, promoted, added, n);
        }
        ss, target, promoted := ss[i := s], added, promoted + n;
        if n > 0 && u.None? {
          ss, u := [NEW_UNRELEASED] + ss, Some(0);
          made := true;
        }
      }
      i, done := i + 1, if again then done else done + 1;
    }
    UnderwaySees(ds, starts, done, made, ss);
    TargetPlaced(ds, starts, made, i, ss, target, promoted);
    if u.Some? {
      ss := ss[u.value := ss[u.value].(subs := target)];
    }
  }

  datatype Counters = Counters(promoted: nat, merged: nat, removed: nat, dropped: nat)

  /** The fixer. */
  method FixChangelogContent(content: string, starts: set<nat>, history: set<string>)
    returns (fixed: string, counters: Counters)
    ensures fixed == Render(FixPromoting(Parse(content), starts, history))
    ensures var ss := Parse(content).sections;
      var kept := DropKnown(ss, ReleasedKeys(ss) + history);
      var all, u := PromoteAll(kept, starts), UnreleasedIndex(ss);
      counters.promoted == |Moves(kept, starts, |kept|)| &&
      counters.dropped ==
        (if u == |ss| then 0 else DroppedCount(ss[u].subs, ReleasedKeys(ss) + history, |ss[u].subs|)) &&
      counters.removed == EmptySubsIn(all, |all|) &&
      SubCount(NormalizeAll(all, {}), |all|) + counters.merged + counters.removed == SubCount(all, |all|)
  {
    hide Parse, Render, NormalizeAll, ReleasedKeys, NumberedInOrder, ReleasedInOrder, Titled, DropKnown, PromoteAll;
    hide Moves, EmptySubsIn, SubCount;
    var d := ParseChangelog(content);
    ParsedInOrder(content);
    var released := CollectReleasedItemKeys(d.sections);
    var kept, dropped := DropDuplicates(d.sections, released + history);
    DroppedInOrder(d.sections, released + history);
    var ss, promoted := PromoteItems(kept, starts);
    var normalized, merged, removed := NormalizeSections(ss);
    var sorted := SortReleased(Titled(normalized, false));
    fixed := RenderChangelog(Document(d.prefix, Titled(normalized, true) + sorted));
    counters := Counters(promoted, merged, removed, dropped);
  }

  lemma DroppedInOrder(ss: seq<Section>, keys: set<string>)
    requires NumberedInOrder(ss)
    ensures ReleasedInOrder(DropKnown(ss, keys))
  {
    hide Consecutive, DroppedSubs;
    var r := DropKnown(ss, keys);
    forall i, j | 0 <= i < |r| && r[i].title != UNRELEASED && 0 <= j < |r[i].subs|
      ensures Consecutive(r[i].subs[j].lines)
    {
      assert r[i] == ss[i];
    }
  }
}
