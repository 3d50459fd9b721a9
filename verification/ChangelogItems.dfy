/** List items inside a subsection: finding, dropping and compacting them. */
module ChangelogItems {
  import opened Prelude
  import opened ChangelogText
  import opened ChangelogDoc
  import opened ChangelogNormal

  // ---------------------------------------------------------------- items and their keys

  datatype ParsedItem = ParsedItem(startLine: nat, endLine: nat, lines: seq<string>)

  function Block(g: Group): seq<Line> {
    [g.head] + g.body
  }

  /** The item's own lines; blank lines at its edges are spacing. */
  function ItemTexts(g: Group): seq<string> {
    TrimBlank(Texts(Block(g)))
  }

  function ItemsOf(gs: seq<Group>): (r: seq<seq<string>>)
    ensures |r| == |gs| && forall i :: 0 <= i < |r| ==> r[i] == ItemTexts(gs[i])
  {
    if gs == [] then [] else [ItemTexts(gs[0])] + ItemsOf(gs[1..])
  }

  function Items(lines: seq<Line>): seq<seq<string>> {
    ItemsOf(Cut(lines, Bullet).groups)
  }

  function ItemTextKey(texts: seq<string>): string {
    Join(TrimBlank(texts))
  }

  function Parsed(g: Group): ParsedItem {
    ParsedItem(g.head.number, Last(Block(g)).number, ItemTexts(g))
  }

  function ParsedItems(gs: seq<Group>): (r: seq<ParsedItem>)
    ensures |r| == |gs| && forall i :: 0 <= i < |r| ==> r[i] == Parsed(gs[i])
  {
    if gs == [] then [] else [Parsed(gs[0])] + ParsedItems(gs[1..])
  }

  method ParseItems(lines: seq<Line>) returns (items: seq<ParsedItem>)
    ensures items == ParsedItems(Cut(lines, Bullet).groups)
  {
    hide Cut, Parsed;
    var lead, groups := CutLoop(lines, Bullet);
    items := [];
    for i := 0 to |groups|
      invariant |items| == i && forall j :: 0 <= j < i ==> items[j] == Parsed(groups[j])
    {
      items := items + [Parsed(groups[i])];
    }
    assert items == ParsedItems(groups);
  }

  // ---------------------------------------------------------------- dropping items by line number

  predicate InRange(item: ParsedItem, number: nat) {
    item.startLine <= number <= item.endLine
  }

  method LineRangeSet(items: seq<ParsedItem>) returns (numbers: set<nat>)
    ensures forall n :: n in numbers <==> exists i :: 0 <= i < |items| && InRange(items[i], n)
  {
    numbers := {};
    for i := 0 to |items|
      invariant forall n :: n in numbers <==> exists j :: 0 <= j < i && InRange(items[j], n)
    {
      var line := items[i].startLine;
      while line <= items[i].endLine
        invariant items[i].startLine <= line
        invariant forall n: nat :: n in numbers <==>
          (exists j :: 0 <= j < i && InRange(items[j], n)) || (items[i].startLine <= n < line && InRange(items[i], n))
        decreases items[i].endLine + 1 - line
      {
        numbers := numbers + {line};
        line := line + 1;
      }
    }
  }

  function Without(lines: seq<Line>, numbers: set<nat>): seq<Line> {
    if lines == [] then []
    else (if lines[0].number in numbers then [] else [lines[0]]) + Without(lines[1..], numbers)
  }

  /** An item is taken out for its text, or for the line it starts at. */
  predicate Drops(g: Group, keys: set<string>, starts: set<nat> := {}) {
    ItemTextKey(ItemTexts(g)) in keys || g.head.number in starts
  }

  function KeptGroups(gs: seq<Group>, keys: set<string>, starts: set<nat> := {}): seq<Group> {
    if gs == [] then []
    else (if Drops(gs[0], keys, starts) then [] else [gs[0]]) + KeptGroups(gs[1..], keys, starts)
  }

  /** The lines without the items taken out, and with everything else. */
  function KeepItems(lines: seq<Line>, keys: set<string>, starts: set<nat> := {}): seq<Line> {
    var c := Cut(lines, Bullet);
    c.lead + GlueAll(KeptGroups(c.groups, keys, starts))
  }

  predicate Consecutive(lines: seq<Line>) {
    forall i :: 0 <= i < |lines| ==> lines[i].number == lines[0].number + i
  }

  /** The items taken out. */
  function TakenItems(gs: seq<Group>, keys: set<string>, starts: set<nat>): seq<ParsedItem> {
    if gs == [] then []
    else (if Drops(gs[0], keys, starts) then [Parsed(gs[0])] else []) + TakenItems(gs[1..], keys, starts)
  }

  lemma {:induction false} TakenSnoc(gs: seq<Group>, g: Group, keys: set<string>, starts: set<nat>)
    ensures TakenItems(gs + [g], keys, starts) == TakenItems(gs, keys, starts) + if Drops(g, keys, starts) then [Parsed(g)] else []
  {
    hide Drops, Parsed;
    if gs == [] {
      assert [] + [g] == [g] && [g][1..] == [];
    } else {
      TakenSnoc(gs[1..], g, keys, starts);
      assert (gs + [g])[1..] == gs[1..] + [g];
    }
  }

  lemma {:induction false} NothingTaken(gs: seq<Group>, keys: set<string>, starts: set<nat>)
    requires TakenItems(gs, keys, starts) == []
    ensures KeptGroups(gs, keys, starts) == gs
  {
    hide Drops, Parsed;
    if gs != [] {
      NothingTaken(gs[1..], keys, starts);
    }
  }

  lemma DropsByItem(g: Group, keys: set<string>, starts: set<nat>)
    ensures Drops(g, keys, starts) <==> ItemTextKey(Parsed(g).lines) in keys || Parsed(g).startLine in starts
  {
  }

  method FindTaken(items: seq<ParsedItem>, ghost gs: seq<Group>, keys: set<string>, starts: set<nat>)
    returns (taken: seq<ParsedItem>)
    requires items == ParsedItems(gs)
    ensures taken == TakenItems(gs, keys, starts)
  {
    taken := [];
    assert TakenItems(gs[..0], keys, starts) == [];
    hide ItemTexts, ItemTextKey, TakenItems, Drops, Parsed;
    for i := 0 to |items|
      invariant taken == TakenItems(gs[..i], keys, starts)
    {
      TakenSnoc(gs[..i], gs[i], keys, starts);
      assert gs[..i + 1] == gs[..i] + [gs[i]];
      DropsByItem(gs[i], keys, starts);
      if ItemTextKey(items[i].lines) in keys || items[i].startLine in starts {
        taken := taken + [items[i]];
      }
    }
    assert gs[..|gs|] == gs;
  }

  method RemoveNumbers(lines: seq<Line>, numbers: set<nat>) returns (kept: seq<Line>)
    ensures kept == Without(lines, numbers)
  {
    hide Without;
    kept := [];
    for i := 0 to |lines|
      invariant kept + Without(lines[i..], numbers) == Without(lines, numbers)
    {
      assert lines[i..][1..] == lines[i + 1..];
      WithoutStep(lines[i..], numbers);
      if lines[i].number !in numbers {
        kept := kept + [lines[i]];
      }
    }
    assert lines[|lines|..] == [];
    WithoutStep([], numbers);
  }

  ghost predicate SomeInRange(items: seq<ParsedItem>, n: nat) {
    exists i :: 0 <= i < |items| && InRange(items[i], n)
  }

  ghost predicate SomeDropped(gs: seq<Group>, keys: set<string>, starts: set<nat>, n: nat) {
    exists j :: 0 <= j < |gs| && Drops(gs[j], keys, starts) && InRange(Parsed(gs[j]), n)
  }

  lemma SomeInRangeAppend(a: seq<ParsedItem>, b: seq<ParsedItem>, n: nat)
    ensures SomeInRange(a + b, n) <==> SomeInRange(a, n) || SomeInRange(b, n)
  {
    hide InRange;
    if i :| 0 <= i < |a| && InRange(a[i], n) {
      assert (a + b)[i] == a[i];
    }
    if i :| 0 <= i < |b| && InRange(b[i], n) {
      assert (a + b)[|a| + i] == b[i];
    }
  }

  lemma SomeDroppedStep(gs: seq<Group>, keys: set<string>, starts: set<nat>, n: nat)
    requires gs != []
    ensures SomeDropped(gs, keys, starts, n) <==>
      (Drops(gs[0], keys, starts) && InRange(Parsed(gs[0]), n)) || SomeDropped(gs[1..], keys, starts, n)
  {
    hide Drops, Parsed, InRange;
    if j :| 0 <= j < |gs[1..]| && Drops(gs[1..][j], keys, starts) && InRange(Parsed(gs[1..][j]), n) {
      assert gs[j + 1] == gs[1..][j];
    }
    if j :| 0 <= j < |gs| && Drops(gs[j], keys, starts) && InRange(Parsed(gs[j]), n) {
      assert j > 0 ==> gs[1..][j - 1] == gs[j];
    }
  }

  lemma {:induction false} RangesOf(gs: seq<Group>, keys: set<string>, starts: set<nat>, n: nat)
    ensures SomeInRange(TakenItems(gs, keys, starts), n) <==> SomeDropped(gs, keys, starts, n)
  {
    hide Drops, Parsed, InRange;
    if gs != [] {
      hide SomeDropped;
      RangesOf(gs[1..], keys, starts, n);
      SomeDroppedStep(gs, keys, starts, n);
      var own := if Drops(gs[0], keys, starts) then [Parsed(gs[0])] else [];
      SomeInRangeAppend(own, TakenItems(gs[1..], keys, starts), n);
      assert SomeInRange(own, n) <==> own != [] && InRange(Parsed(gs[0]), n) by {
        assert own == [Parsed(gs[0])] || own == [];
        assert SomeInRange([Parsed(gs[0])], n) <==> InRange([Parsed(gs[0])][0], n);
      }
    }
  }

  /** Numbers are only relied on when there is something to take out. */
  method TakeOut(lines: seq<Line>, keys: set<string>, starts: set<nat>) returns (kept: seq<Line>, taken: seq<ParsedItem>)
    requires Consecutive(lines) || TakenItems(Cut(lines, Bullet).groups, keys, starts) == []
    ensures kept == KeepItems(lines, keys, starts)
    ensures taken == TakenItems(Cut(lines, Bullet).groups, keys, starts)
  {
    hide Cut, Parsed, Drops, InRange, Without, KeptGroups, Consecutive, TakenItems;
    var items := ParseItems(lines);
    ghost var gs := Cut(lines, Bullet).groups;
    taken := FindTaken(items, gs, keys, starts);
    kept := lines;
    if taken == [] {
      NothingTaken(gs, keys, starts);
      GlueCut(lines, Bullet);
      return;
    }
    hide KeepItems;
    var numbers := LineRangeSet(taken);
    forall n: nat
      ensures n in numbers <==> SomeDropped(gs, keys, starts, n)
    {
      RangesOf(gs, keys, starts, n);
    }
    NumbersSelectItems(lines, keys, starts, numbers);
    kept := RemoveNumbers(lines, numbers);
  }

  lemma TrimOfItem(g: Group)
    ensures TrimBlank(ItemTexts(g)) == ItemTexts(g)
  {
    hide TrimBlank, Blank;
    TrimFacts(Texts(Block(g)));
    TrimTrimmed(ItemTexts(g));
  }

  lemma WithoutStep(lines: seq<Line>, numbers: set<nat>)
    ensures Without(lines, numbers) ==
      if lines == [] then [] else (if lines[0].number in numbers then [] else [lines[0]]) + Without(lines[1..], numbers)
  {
  }

  lemma {:induction false} KeptSnoc(gs: seq<Group>, g: Group, keys: set<string>, starts: set<nat>)
    ensures KeptGroups(gs + [g], keys, starts) == KeptGroups(gs, keys, starts) + if Drops(g, keys, starts) then [] else [g]
  {
    hide Drops;
    if gs == [] {
      assert [] + [g] == [g] && [g][1..] == [];
    } else {
      KeptSnoc(gs[1..], g, keys, starts);
      assert (gs + [g])[1..] == gs[1..] + [g];
    }
  }

  lemma {:induction false} WithoutAppend(a: seq<Line>, b: seq<Line>, numbers: set<nat>)
    ensures Without(a + b, numbers) == Without(a, numbers) + Without(b, numbers)
  {
    hide Without;
    WithoutStep(a, numbers);
    WithoutStep(a + b, numbers);
    if a == [] {
      assert a + b == b;
    } else {
      WithoutAppend(a[1..], b, numbers);
      assert (a + b)[1..] == a[1..] + b;
      ConcatAssociative(if a[0].number in numbers then [] else [a[0]], Without(a[1..], numbers), Without(b, numbers));
    }
  }

  lemma {:induction false} WithoutAll(lines: seq<Line>, numbers: set<nat>, gone: bool)
    requires forall l :: l in lines ==> (l.number in numbers <==> gone)
    ensures Without(lines, numbers) == if gone then [] else lines
  {
    if lines != [] {
      assert lines[0] in lines;
      WithoutAll(lines[1..], numbers, gone);
    }
  }

  lemma {:induction false} WithoutGroups(gs: seq<Group>, keys: set<string>, starts: set<nat>, numbers: set<nat>)
    requires forall i, l :: 0 <= i < |gs| && l in Block(gs[i]) ==> (l.number in numbers <==> Drops(gs[i], keys, starts))
    ensures Without(GlueAll(gs), numbers) == GlueAll(KeptGroups(gs, keys, starts))
  {
    hide Drops, Without;
    if gs == [] {
      WithoutStep([], numbers);
    } else {
      var rest := gs[1..];
      assert forall i :: 0 <= i < |rest| ==> rest[i] == gs[i + 1];
      WithoutGroups(rest, keys, starts, numbers);
      WithoutAppend(Block(gs[0]), GlueAll(rest), numbers);
      WithoutAll(Block(gs[0]), numbers, Drops(gs[0], keys, starts));
      if !Drops(gs[0], keys, starts) {
        assert KeptGroups(gs, keys, starts) == [gs[0]] + KeptGroups(rest, keys, starts);
        assert ([gs[0]] + KeptGroups(rest, keys, starts))[1..] == KeptGroups(rest, keys, starts);
      } else {
        assert KeptGroups(gs, keys, starts) == KeptGroups(rest, keys, starts);
      }
    }
  }

  /** Where each group lies in the glued lines. */
  lemma {:induction false} BlockOffset(gs: seq<Group>, i: nat)
    requires i < |gs|
    ensures var o := |GlueAll(gs[..i])|;
      o + |Block(gs[i])| <= |GlueAll(gs)| && forall k :: 0 <= k < |Block(gs[i])| ==> GlueAll(gs)[o + k] == Block(gs[i])[k]
    ensures forall j :: i < j < |gs| ==> |GlueAll(gs[..i])| + |Block(gs[i])| <= |GlueAll(gs[..j])|
  {
    if i == 0 {
      forall j | 0 < j < |gs|
        ensures |Block(gs[0])| <= |GlueAll(gs[..j])|
      {
        assert gs[..j][0] == gs[0];
      }
    } else {
      BlockOffset(gs[1..], i - 1);
      assert gs[..i][1..] == gs[1..][..i - 1];
      forall j | i < j < |gs|
        ensures |GlueAll(gs[..i])| + |Block(gs[i])| <= |GlueAll(gs[..j])|
      {
        assert gs[..j][1..] == gs[1..][..j - 1];
      }
    }
  }

  lemma BlockNumbers(lead: seq<Line>, gs: seq<Group>, i: nat)
    requires i < |gs| && Consecutive(lead + GlueAll(gs))
    ensures var first := (lead + GlueAll(gs))[0].number + |lead| + |GlueAll(gs[..i])|;
      gs[i].head.number == first && Last(Block(gs[i])).number == first + |Block(gs[i])| - 1 &&
      forall k :: 0 <= k < |Block(gs[i])| ==> Block(gs[i])[k].number == first + k
  {
    BlockOffset(gs, i);
    var all, o := lead + GlueAll(gs), |GlueAll(gs[..i])|;
    forall k | 0 <= k < |Block(gs[i])|
      ensures Block(gs[i])[k].number == all[0].number + |lead| + o + k
    {
      assert all[|lead| + o + k] == Block(gs[i])[k];
    }
    assert Block(gs[i])[0] == gs[i].head;
  }

  /** On numbered lines, removing line ranges removes exactly the items they came from. */
  lemma NumbersSelectItems(lines: seq<Line>, keys: set<string>, starts: set<nat>, numbers: set<nat>)
    requires Consecutive(lines)
    requires forall n: nat :: n in numbers <==> SomeDropped(Cut(lines, Bullet).groups, keys, starts, n)
    ensures Without(lines, numbers) == KeepItems(lines, keys, starts)
  {
    hide Drops, Cut, ItemTexts, Without, KeptGroups;
    GlueCut(lines, Bullet);
    var c := Cut(lines, Bullet);
    var gs := c.groups;
    forall i, l | 0 <= i < |gs| && l in Block(gs[i])
      ensures l.number in numbers <==> Drops(gs[i], keys, starts)
    {
      BlockNumbers(c.lead, gs, i);
      var k :| 0 <= k < |Block(gs[i])| && Block(gs[i])[k] == l;
      forall j | 0 <= j < |gs| && InRange(Parsed(gs[j]), l.number)
        ensures j == i
      {
        BlockNumbers(c.lead, gs, j);
        BlockOffset(gs, i);
        BlockOffset(gs, j);
      }
      assert InRange(Parsed(gs[i]), l.number);
    }
    forall l | l in c.lead
      ensures l.number !in numbers
    {
      var k :| 0 <= k < |c.lead| && c.lead[k] == l;
      assert lines[k] == l;
      forall j | 0 <= j < |gs|
        ensures !InRange(Parsed(gs[j]), l.number)
      {
        BlockNumbers(c.lead, gs, j);
      }
    }
    WithoutAppend(c.lead, GlueAll(gs), numbers);
    WithoutAll(c.lead, numbers, false);
    WithoutGroups(gs, keys, starts, numbers);
  }
}
