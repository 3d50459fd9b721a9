/** Items told apart by their text: what dropping and promoting do, without the keys the program compares. */
module ChangelogAlike {
  import opened Prelude
  import opened ChangelogText
  import opened ChangelogDoc
  import opened ChangelogNormal
  import opened ChangelogItems
  import opened ChangelogCompact
  import opened ChangelogClean
  import opened ChangelogSections
  import opened ChangelogFix
  import opened ChangelogPromote
  import opened ChangelogPromoted

  // ---------------------------------------------------------------- the key tells items apart

  /** No line holds a line break. */
  predicate OneLined(item: seq<string>) {
    forall line :: line in item ==> '\n' !in line
  }

  /** The same lines, blank ones at the edges aside. */
  predicate Alike(a: seq<string>, b: seq<string>) {
    TrimBlank(a) == TrimBlank(b)
  }

  lemma JoinedEmpty(t: seq<string>)
    requires OneLined(t) && t != [] && !Blank(t[0])
    ensures Join(t) != ""
  {
    assert Split("") == [""] && Blank("");
    SplitJoined(t);
  }

  /** Two items have the same key if and only if they have the same lines, from the first non-blank to the last. */
  lemma KeyTellsItems(a: seq<string>, b: seq<string>)
    requires OneLined(a) && OneLined(b)
    ensures ItemTextKey(a) == ItemTextKey(b) <==> Alike(a, b)
  {
    hide TrimBlank, Blank, Join;
    TrimFacts(a);
    TrimFacts(b);
    var x, y := TrimBlank(a), TrimBlank(b);
    NothingJoins();
    if x != [] {
      SplitJoined(x);
      JoinedEmpty(x);
    }
    if y != [] {
      SplitJoined(y);
      JoinedEmpty(y);
    }
  }

  lemma NothingJoins()
    ensures Join([]) == ""
  {
  }

  // ---------------------------------------------------------------- lists of items instead of sets of keys

  predicate Listed(item: seq<string>, known: seq<seq<string>>) {
    exists k :: k in known && Alike(k, item)
  }

  predicate AllOneLined(items: seq<seq<string>>) {
    forall i :: i in items ==> OneLined(i)
  }

  lemma ListedIff(item: seq<string>, known: seq<seq<string>>)
    requires OneLined(item) && AllOneLined(known)
    ensures ItemTextKey(item) in KeysOf(known) <==> Listed(item, known)
  {
    hide ItemTextKey, OneLined, Alike;
    forall k | k in known
      ensures ItemTextKey(k) == ItemTextKey(item) <==> Alike(k, item)
    {
      KeyTellsItems(k, item);
    }
  }

  function Unlisted(items: seq<seq<string>>, known: seq<seq<string>>): seq<seq<string>> {
    if items == [] then []
    else (if Listed(items[0], known) then [] else [items[0]]) + Unlisted(items[1..], known)
  }

  lemma {:induction false} KeptAreUnlisted(items: seq<seq<string>>, known: seq<seq<string>>)
    requires AllOneLined(items) && AllOneLined(known)
    ensures KeptItems(items, KeysOf(known)) == Unlisted(items, known)
  {
    hide ItemTextKey, OneLined, Listed, KeysOf;
    if items != [] {
      assert items[0] in items && forall i :: i in items[1..] ==> i in items;
      ListedIff(items[0], known);
      KeptAreUnlisted(items[1..], known);
    }
  }

  function UnlistedGroups(gs: seq<Group>, known: seq<seq<string>>): seq<Group> {
    if gs == [] then []
    else (if Listed(ItemTexts(gs[0]), known) then [] else [gs[0]]) + UnlistedGroups(gs[1..], known)
  }

  /** A body without the items that stand in the list; everything else stays. */
  function KeepUnlisted(lines: seq<Line>, known: seq<seq<string>>): seq<Line> {
    var c := Cut(lines, Bullet);
    c.lead + GlueAll(UnlistedGroups(c.groups, known))
  }

  predicate OneLinedBody(lines: seq<Line>) {
    forall l :: l in lines ==> '\n' !in l.text
  }

  lemma ItemIsOneLined(lines: seq<Line>, i: nat)
    requires OneLinedBody(lines) && i < |Cut(lines, Bullet).groups|
    ensures OneLined(ItemTexts(Cut(lines, Bullet).groups[i]))
  {
    hide Cut, TrimBlank;
    GlueCut(lines, Bullet);
    var c := Cut(lines, Bullet);
    var g := c.groups[i];
    TrimFacts(Texts(Block(g)));
    forall t | t in ItemTexts(g)
      ensures '\n' !in t
    {
      var k :| 0 <= k < |Block(g)| && Texts(Block(g))[k] == t;
      GlueMember(c.groups, i, Block(g)[k]);
      assert Block(g)[k] in lines;
    }
  }

  lemma ItemsAreOneLined(lines: seq<Line>)
    requires OneLinedBody(lines)
    ensures AllOneLined(Items(lines))
  {
    hide Cut, OneLined, ItemTexts;
    forall x | x in Items(lines)
      ensures OneLined(x)
    {
      var i :| 0 <= i < |Items(lines)| && Items(lines)[i] == x;
      ItemIsOneLined(lines, i);
    }
  }

  lemma {:induction false} KeptGroupsAreUnlisted(gs: seq<Group>, known: seq<seq<string>>)
    requires AllOneLined(known) && forall i :: 0 <= i < |gs| ==> OneLined(ItemTexts(gs[i]))
    ensures KeptGroups(gs, KeysOf(known)) == UnlistedGroups(gs, known)
  {
    hide ItemTextKey, OneLined, Listed, KeysOf, ItemTexts;
    if gs != [] {
      assert forall i :: 0 <= i < |gs[1..]| ==> gs[1..][i] == gs[i + 1];
      ListedIff(ItemTexts(gs[0]), known);
      KeptGroupsAreUnlisted(gs[1..], known);
    }
  }

  lemma KeptIsUnlisted(lines: seq<Line>, known: seq<seq<string>>)
    requires OneLinedBody(lines) && AllOneLined(known)
    ensures KeepItems(lines, KeysOf(known)) == KeepUnlisted(lines, known)
  {
    hide Cut, OneLined, OneLinedBody, ItemTexts, KeysOf, KeptGroups, UnlistedGroups, GlueAll;
    forall i | 0 <= i < |Cut(lines, Bullet).groups|
      ensures OneLined(ItemTexts(Cut(lines, Bullet).groups[i]))
    {
      ItemIsOneLined(lines, i);
    }
    KeptGroupsAreUnlisted(Cut(lines, Bullet).groups, known);
  }

  /** Cleaning drops exactly the items that stand in the list, and a second cleaning does nothing. */
  lemma CleanDropsListed(lines: seq<Line>, known: seq<seq<string>>)
    requires OneLinedBody(lines) && AllOneLined(known)
    ensures var r := CleanBody(lines, KeysOf(known));
      Items(Synthetic(r)) == Unlisted(Items(lines), known) && CleanBody(Synthetic(r), KeysOf(known)) == r &&
      NonBlank(r) == NonBlank(Texts(KeepUnlisted(lines, known)))
  {
    hide CleanBody, Items, Synthetic, NonBlank, KeysOf, KeptItems, KeepItems, KeepUnlisted, OneLinedBody, AllOneLined, Unlisted;
    CleanIsFinal(lines, KeysOf(known));
    ItemsAreOneLined(lines);
    KeptAreUnlisted(Items(lines), known);
    KeptIsUnlisted(lines, known);
  }

  // ---------------------------------------------------------------- the released items

  function SubItems(subs: seq<Subsection>): seq<seq<string>> {
    if subs == [] then [] else Items(subs[0].lines) + SubItems(subs[1..])
  }

  /** The items of all released sections. */
  function ReleasedItems(ss: seq<Section>): seq<seq<string>> {
    if ss == [] then []
    else (if ss[0].title == UNRELEASED then [] else SubItems(ss[0].subs)) + ReleasedItems(ss[1..])
  }

  lemma {:induction false} SubKeysAreItems(subs: seq<Subsection>)
    ensures SubKeys(subs) == KeysOf(SubItems(subs))
  {
    hide Items, KeysOf;
    NoKeys();
    if subs != [] {
      SubKeysAreItems(subs[1..]);
      KeysOfAppend(Items(subs[0].lines), SubItems(subs[1..]));
    }
  }

  lemma {:induction false} ReleasedKeysAreItems(ss: seq<Section>)
    ensures ReleasedKeys(ss) == KeysOf(ReleasedItems(ss))
  {
    hide SubKeys, SubItems, KeysOf;
    NoKeys();
    if ss != [] {
      ReleasedKeysAreItems(ss[1..]);
      SubKeysAreItems(ss[0].subs);
      KeysOfAppend(if ss[0].title == UNRELEASED then [] else SubItems(ss[0].subs), ReleasedItems(ss[1..]));
    }
  }

  lemma NoKeys()
    ensures KeysOf([]) == {}
  {
  }

  predicate OneLinedSections(ss: seq<Section>) {
    forall i, j :: 0 <= i < |ss| && 0 <= j < |ss[i].subs| ==> OneLinedBody(ss[i].subs[j].lines)
  }

  lemma ParsedOneLined(content: string)
    ensures OneLinedSections(Parse(content).sections)
  {
    hide Parse, GoodTitle, IsReleaseHeading, IsSubsectionHeading, ReleaseTitle;
    ParsedIsGood(content);
    var ss := Parse(content).sections;
    forall i, j | 0 <= i < |ss| && 0 <= j < |ss[i].subs|
      ensures OneLinedBody(ss[i].subs[j].lines)
    {
      assert GoodSection(ss[i]) && GoodSub(ss[i].subs[j]);
      forall l | l in ss[i].subs[j].lines
        ensures '\n' !in l.text
      {
        var k :| 0 <= k < |ss[i].subs[j].lines| && ss[i].subs[j].lines[k] == l;
        assert Texts(ss[i].subs[j].lines)[k] == l.text;
        assert PlainLine(l.text);
      }
    }
  }

  lemma {:induction false} SubItemsOneLined(subs: seq<Subsection>)
    requires forall j :: 0 <= j < |subs| ==> OneLinedBody(subs[j].lines)
    ensures AllOneLined(SubItems(subs))
  {
    hide Items, OneLined, OneLinedBody;
    if subs != [] {
      ItemsAreOneLined(subs[0].lines);
      SubItemsOneLined(subs[1..]);
    }
  }

  lemma {:induction false} ReleasedOneLined(ss: seq<Section>)
    requires OneLinedSections(ss)
    ensures AllOneLined(ReleasedItems(ss))
  {
    hide SubItems, OneLined, OneLinedBody;
    if ss != [] {
      SubItemsOneLined(ss[0].subs);
      assert forall i :: 0 <= i < |ss[1..]| ==> ss[1..][i] == ss[i + 1];
      ReleasedOneLined(ss[1..]);
    }
  }

  // ---------------------------------------------------------------- the fixed [Unreleased] section

  function UnlistedTexts(subs: seq<Subsection>, known: seq<seq<string>>, title: string, n: nat): seq<string>
    requires n <= |subs|
  {
    if n == 0 then []
    else
      UnlistedTexts(subs, known, title, n - 1) +
      if subs[n - 1].title == title then NonBlank(Texts(KeepUnlisted(subs[n - 1].lines, known))) else []
  }

  lemma {:induction false} KeptTextsAreUnlisted(subs: seq<Subsection>, known: seq<seq<string>>, title: string, n: nat)
    requires n <= |subs| && AllOneLined(known) && forall j :: 0 <= j < |subs| ==> OneLinedBody(subs[j].lines)
    ensures KeptTexts(subs, KeysOf(known), title, n) == UnlistedTexts(subs, known, title, n)
  {
    hide OneLined, OneLinedBody, KeepItems, KeepUnlisted, KeysOf, NonBlank;
    if n > 0 {
      KeptTextsAreUnlisted(subs, known, title, n - 1);
      KeptIsUnlisted(subs[n - 1].lines, known);
    }
  }

  /** The items of the last subsection of that title that do not stand in the list. */
  function UnlistedUnder(subs: seq<Subsection>, known: seq<seq<string>>, title: string): seq<seq<string>> {
    if LastTitle(subs, title) < 0 then [] else Unlisted(Items(subs[LastTitle(subs, title)].lines), known)
  }

  lemma {:induction false} SameLastTitle(a: seq<Subsection>, b: seq<Subsection>, title: string)
    requires |a| == |b| && forall i :: 0 <= i < |a| ==> a[i].title == b[i].title
    ensures LastTitle(a, title) == LastTitle(b, title)
  {
    if a != [] {
      SameLastTitle(a[..|a| - 1], b[..|b| - 1], title);
    }
  }

  lemma TargetIsUnlisted(subs: seq<Subsection>, known: seq<seq<string>>, title: string)
    requires AllOneLined(known) && forall j :: 0 <= j < |subs| ==> OneLinedBody(subs[j].lines)
    ensures TargetItems(DroppedSubs(subs, KeysOf(known)), title) == UnlistedUnder(subs, known, title)
    ensures AllOneLined(UnlistedUnder(subs, known, title))
  {
    hide OneLined, OneLinedBody, KeepItems, KeysOf, Items, Unlisted;
    var dropped := DroppedSubs(subs, KeysOf(known));
    SameLastTitle(subs, dropped, title);
    var i := LastTitle(subs, title);
    if i >= 0 {
      ItemsOfKept(subs[i].lines, KeysOf(known));
      ItemsAreOneLined(subs[i].lines);
      KeptAreUnlisted(Items(subs[i].lines), known);
      UnlistedOneLined(Items(subs[i].lines), known);
    }
  }

  lemma {:induction false} UnlistedOneLined(items: seq<seq<string>>, known: seq<seq<string>>)
    requires AllOneLined(items)
    ensures AllOneLined(Unlisted(items, known))
  {
    hide OneLined, Listed;
    if items != [] {
      assert items[0] in items && forall i :: i in items[1..] ==> i in items;
      UnlistedOneLined(items[1..], known);
    }
  }

  /** The moved items that are new below a title, in order: each differs from what is there and from those before it. */
  function NewItems(have: seq<seq<string>>, ms: seq<Move>, title: string): seq<seq<string>> {
    if ms == [] then []
    else
      var before := NewItems(have, ms[..|ms| - 1], title);
      var m := Last(ms);
      before + if m.title == title && !Listed(m.item, have + before) then [m.item] else []
  }

  predicate OneLinedMoves(ms: seq<Move>) {
    forall m :: m in ms ==> OneLined(m.item)
  }

  lemma {:induction false} FreshIsNew(have: seq<seq<string>>, ms: seq<Move>, title: string)
    requires AllOneLined(have) && OneLinedMoves(ms)
    ensures Fresh(have, ms, title) == NewItems(have, ms, title) && AllOneLined(NewItems(have, ms, title))
    decreases |ms|
  {
    hide OneLined, Listed, KeysOf, ItemTextKey;
    if ms != [] {
      var front, m := ms[..|ms| - 1], Last(ms);
      assert m in ms && forall x :: x in front ==> x in ms;
      FreshIsNew(have, front, title);
      ListedIff(m.item, have + NewItems(have, front, title));
    }
  }

  lemma MovesOfBodyOneLined(title: string, lines: seq<Line>, starts: set<nat>)
    requires OneLinedBody(lines)
    ensures OneLinedMoves(ItemMoves(title, Promotable(lines, starts)))
  {
    hide OneLined, ItemTexts, Cut, Drops;
    var gs := Cut(lines, Bullet).groups;
    forall i | 0 <= i < |gs|
      ensures OneLined(Parsed(gs[i]).lines)
    {
      ItemIsOneLined(lines, i);
    }
    TakenOneLined(gs, starts);
  }

  lemma {:induction false} TakenOneLined(gs: seq<Group>, starts: set<nat>)
    requires forall i :: 0 <= i < |gs| ==> OneLined(Parsed(gs[i]).lines)
    ensures forall x :: x in TakenItems(gs, {}, starts) ==> OneLined(x.lines)
  {
    hide OneLined, Drops, Parsed;
    if gs != [] {
      assert forall i :: 0 <= i < |gs[1..]| ==> gs[1..][i] == gs[i + 1];
      TakenOneLined(gs[1..], starts);
    }
  }

  lemma {:induction false} SubMovesOneLined(subs: seq<Subsection>, starts: set<nat>, n: nat)
    requires n <= |subs| && forall j :: 0 <= j < |subs| ==> OneLinedBody(subs[j].lines)
    ensures OneLinedMoves(MovesOfSubs(subs, starts, n))
  {
    hide OneLined, OneLinedBody, Promotable;
    if n > 0 {
      SubMovesOneLined(subs, starts, n - 1);
      MovesOfBodyOneLined(subs[n - 1].title, subs[n - 1].lines, starts);
    }
  }

  lemma {:induction false} MovesOneLined(ss: seq<Section>, starts: set<nat>, n: nat)
    requires n <= |ss| && OneLinedSections(ss)
    ensures OneLinedMoves(Moves(ss, starts, n))
  {
    hide OneLined, OneLinedBody, MovesOfSubs;
    if n > 0 {
      MovesOneLined(ss, starts, n - 1);
      SubMovesOneLined(ss[n - 1].subs, starts, |ss[n - 1].subs|);
    }
  }

  lemma {:induction false} MovesSeeReleased(a: seq<Section>, b: seq<Section>, starts: set<nat>, n: nat)
    requires n <= |a| == |b|
    requires forall i :: 0 <= i < |a| ==> a[i] == b[i] || (a[i].title == UNRELEASED && b[i].title == UNRELEASED)
    ensures Moves(a, starts, n) == Moves(b, starts, n)
  {
    hide MovesOfSubs;
    if n > 0 {
      MovesSeeReleased(a, b, starts, n - 1);
    }
  }

  /**
   Under every title of the fixed [Unreleased] section: the lines that were there, without the items that stand in a
   released section or in the history, and below them the promoted items unlike any that were there, each once.
  */
  lemma FixedUnreleasedAlike(content: string, starts: set<nat>, past: seq<seq<string>>, title: string)
    requires AllOneLined(past)
    requires var ss := Parse(content).sections; UnreleasedIndex(ss) < |ss| || Moves(ss, starts, |ss|) != []
    ensures var d := Parse(content);
      var ss, u := d.sections, UnreleasedIndex(d.sections);
      var known := ReleasedItems(ss) + past;
      var there := if u < |ss| then UnlistedTexts(ss[u].subs, known, title, |ss[u].subs|) else [];
      var have := if u < |ss| then UnlistedUnder(ss[u].subs, known, title) else [];
      var fixed := FixPromoting(d, starts, KeysOf(past)).sections;
      fixed != [] && fixed[0].title == UNRELEASED &&
      NonBlank(TitleTexts(fixed[0].subs, title)) == there + NonBlank(Flatten(NewItems(have, Moves(ss, starts, |ss|), title)))
  {
    ParsedOneLined(content);
    var d := Parse(content);
    hide Parse, OneLined, OneLinedBody, KeysOf, Moves, NonBlank, TitleTexts, FixPromoting, DroppedSubs, KeptTexts, Fresh;
    hide UnlistedTexts, UnlistedUnder, NewItems, TargetItems, ReleasedItems, ReleasedKeys;
    var ss, u := d.sections, UnreleasedIndex(d.sections);
    var known := ReleasedItems(ss) + past;
    ReleasedOneLined(ss);
    ReleasedKeysAreItems(ss);
    KeysOfAppend(ReleasedItems(ss), past);
    var keys := ReleasedKeys(ss) + KeysOf(past);
    var kept := DropKnown(ss, keys);
    DropKeepsIndex(ss, keys);
    MovesSeeReleased(kept, ss, starts, |ss|);
    MovesOneLined(ss, starts, |ss|);
    FixedUnreleased(d, starts, KeysOf(past), title);
    if u < |ss| {
      KeptTextsAreUnlisted(ss[u].subs, known, title, |ss[u].subs|);
      TargetIsUnlisted(ss[u].subs, known, title);
      FreshIsNew(UnlistedUnder(ss[u].subs, known, title), Moves(ss, starts, |ss|), title);
    } else {
      FreshIsNew([], Moves(ss, starts, |ss|), title);
    }
  }

  // ---------------------------------------------------------------- exactly once

  function CountAlike(items: seq<seq<string>>, item: seq<string>): nat {
    if items == [] then 0
    else CountAlike(items[..|items| - 1], item) + if Alike(Last(items), item) then 1 else 0
  }

  ghost predicate MovedAlike(ms: seq<Move>, title: string, item: seq<string>) {
    exists m :: m in ms && m.title == title && Alike(m.item, item)
  }

  lemma {:induction false} CountIsAlike(items: seq<seq<string>>, item: seq<string>)
    requires AllOneLined(items) && OneLined(item)
    ensures CountKey(items, ItemTextKey(item)) == CountAlike(items, item)
    decreases |items|
  {
    hide OneLined, Alike, ItemTextKey;
    if items != [] {
      assert Last(items) in items && forall x :: x in items[..|items| - 1] ==> x in items;
      CountIsAlike(items[..|items| - 1], item);
      KeyTellsItems(Last(items), item);
    }
  }

  lemma MovedIsAlike(ms: seq<Move>, title: string, item: seq<string>)
    requires OneLinedMoves(ms) && OneLined(item)
    ensures Moved(ms, title, ItemTextKey(item)) <==> MovedAlike(ms, title, item)
  {
    hide OneLined, Alike, ItemTextKey;
    forall i | 0 <= i < |ms|
      ensures ms[i] in ms && (ItemTextKey(ms[i].item) == ItemTextKey(item) <==> Alike(ms[i].item, item))
    {
      KeyTellsItems(ms[i].item, item);
    }
    if m :| m in ms && m.title == title && Alike(m.item, item) {
      var i :| 0 <= i < |ms| && ms[i] == m;
    }
  }

  /** An item that moves, unlike any that was there, arrives exactly once; one that was there does not arrive. */
  lemma ArrivesOnceAlike(have: seq<seq<string>>, ms: seq<Move>, title: string, item: seq<string>)
    requires AllOneLined(have) && OneLinedMoves(ms) && OneLined(item)
    ensures CountAlike(NewItems(have, ms, title), item) == if MovedAlike(ms, title, item) && !Listed(item, have) then 1 else 0
  {
    hide OneLined, Alike, ItemTextKey, Fresh, NewItems, Moved, MovedAlike, Listed, KeysOf;
    FreshIsNew(have, ms, title);
    ArrivesOnce(have, ms, title, ItemTextKey(item));
    CountIsAlike(NewItems(have, ms, title), item);
    MovedIsAlike(ms, title, item);
    ListedIff(item, have);
  }
}
