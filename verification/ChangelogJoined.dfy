/** Exactly which content the fixer changes again, read off the content itself. */
module ChangelogJoined {
  import opened Prelude
  import opened ChangelogText
  import opened ChangelogDoc
  import opened ChangelogNormal
  import opened ChangelogItems
  import opened ChangelogCompact
  import opened ChangelogClean
  import opened ChangelogSections
  import opened ChangelogTwice
  import opened ChangelogSettled

  // ---------------------------------------------------------------- the bodies of one title

  predicate IsBody(t: seq<string>) {
    TrimBlank(t) == t != []
  }

  ghost predicate Bodies(parts: seq<seq<string>>) {
    forall i :: 0 <= i < |parts| ==> IsBody(parts[i])
  }

  /** The cleaned bodies of the subsections of one title that have anything left. */
  function Parts(subs: seq<Subsection>, keys: set<string>, title: string, n: nat): seq<seq<string>>
    requires n <= |subs|
  {
    if n == 0 then []
    else
      var b := CleanBody(subs[n - 1].lines, keys);
      Parts(subs, keys, title, n - 1) + if subs[n - 1].title == title && b != [] then [b] else []
  }

  lemma CleanIsBody(lines: seq<Line>, keys: set<string>)
    ensures CleanBody(lines, keys) != [] ==> IsBody(CleanBody(lines, keys))
  {
    hide CleanBody, TrimBlank, Items, KeepItems, NonBlank, KeptItems;
    CleanIsFinal(lines, keys);
  }

  lemma {:induction false} PartsAreBodies(subs: seq<Subsection>, keys: set<string>, title: string, n: nat)
    requires n <= |subs|
    ensures Bodies(Parts(subs, keys, title, n))
  {
    hide CleanBody, IsBody;
    if n > 0 {
      PartsAreBodies(subs, keys, title, n - 1);
      CleanIsBody(subs[n - 1].lines, keys);
    }
  }

  lemma FrontBodies(parts: seq<seq<string>>)
    requires Bodies(parts) && parts != []
    ensures Bodies(parts[..|parts| - 1]) && IsBody(Last(parts))
  {
    hide IsBody;
  }

  /** The bodies one below the other, as merging puts them. */
  ghost function Joined(parts: seq<seq<string>>): seq<string>
    requires Bodies(parts)
  {
    if parts == [] then [] else (FrontBodies(parts); AppendTexts(Joined(parts[..|parts| - 1]), Last(parts)))
  }

  lemma {:induction false} JoinedEnds(parts: seq<seq<string>>)
    requires Bodies(parts) && parts != []
    ensures IsBody(Joined(parts)) && Joined(parts)[0] == parts[0][0] && Last(Joined(parts)) == Last(Last(parts))
    decreases |parts|
  {
    hide TrimBlank, IsListItem;
    var front := parts[..|parts| - 1];
    FrontBodies(parts);
    if front == [] {
      assert Joined(front) == [];
    } else {
      JoinedEnds(front);
      AppendTrimmed(Joined(front), Last(parts));
    }
  }

  // ---------------------------------------------------------------- no blank line above an item

  /** A title that starts with an item has no gap in any body and none where two bodies meet. */
  predicate WellJoined(parts: seq<seq<string>>) {
    parts != [] && parts[0] != [] && IsListItem(parts[0][0]) ==>
      (forall i :: 0 <= i < |parts| ==> NoGaps(parts[i])) &&
      forall i :: 0 < i < |parts| && parts[i] != [] && parts[i - 1] != [] && IsListItem(parts[i][0]) ==>
        IsListItem(Last(parts[i - 1]))
  }

  lemma ItemIsNotBlank(line: string)
    ensures IsListItem(line) ==> !Blank(line)
    ensures Blank("") && !IsListItem("")
  {
    HeadingsDiffer(line);
    HeadingsDiffer("");
  }

  lemma AppendGaps(a: seq<string>, b: seq<string>)
    requires a != [] && b != []
    ensures NoGaps(AppendTexts(a, b)) <==>
      NoGaps(a) && NoGaps(b) && (IsListItem(b[0]) ==> IsListItem(Last(a)))
  {
    ItemIsNotBlank(Last(a));
    hide IsListItem, Blank, NoGaps;
    if IsListItem(Last(a)) && IsListItem(b[0]) {
      assert a + [] + b == a + b;
      GapsAround(a, b);
    } else {
      GapsAround(a + [""], b);
      GapsAround(a, [""]);
      OneLineNoGaps("");
      assert Last(a + [""]) == "";
    }
  }

  lemma OneLineNoGaps(line: string)
    ensures NoGaps([line])
  {
  }

  lemma GapsAround(a: seq<string>, b: seq<string>)
    requires a != [] && b != []
    ensures NoGaps(a + b) <==> NoGaps(a) && NoGaps(b) && (IsListItem(b[0]) ==> !Blank(Last(a)))
  {
    hide IsListItem, Blank;
    var t := a + b;
    assert forall i :: 0 <= i < |a| ==> t[i] == a[i];
    assert forall i :: 0 <= i < |b| ==> t[|a| + i] == b[i];
    if NoGaps(t) {
      forall i | 0 < i < |b| && IsListItem(b[i])
        ensures !Blank(b[i - 1])
      {
        assert t[|a| + i] == b[i] && t[|a| + i - 1] == b[i - 1];
      }
      assert t[|a|] == b[0] && t[|a| - 1] == Last(a);
    }
    if NoGaps(a) && NoGaps(b) && (IsListItem(b[0]) ==> !Blank(Last(a))) {
      forall i | 0 < i < |t| && IsListItem(t[i])
        ensures !Blank(t[i - 1])
      {
        assert i > |a| ==> t[i] == b[i - |a|] && t[i - 1] == b[i - |a| - 1];
      }
    }
  }

  ghost predicate GapFree(parts: seq<seq<string>>)
    requires Bodies(parts)
  {
    && (forall i :: 0 <= i < |parts| ==> NoGaps(parts[i]))
    && forall i :: 0 < i < |parts| && IsListItem(parts[i][0]) ==> IsListItem(Last(parts[i - 1]))
  }

  lemma {:induction false} JoinedGaps(parts: seq<seq<string>>)
    requires Bodies(parts) && parts != []
    ensures NoGaps(Joined(parts)) <==> GapFree(parts)
    decreases |parts|
  {
    hide TrimBlank, IsListItem, NoGaps;
    var front, last := parts[..|parts| - 1], Last(parts);
    FrontBodies(parts);
    assert last in parts && parts == front + [last];
    if front == [] {
      assert Joined(front) == [] && Joined(parts) == last;
    } else {
      assert Last(front) in parts;
      JoinedGaps(front);
      JoinedEnds(front);
      AppendGaps(Joined(front), last);
      assert Joined(parts) == AppendTexts(Joined(front), last);
      hide Joined;
      assert forall i :: 0 <= i < |front| ==> parts[i] == front[i];
    }
  }

  /** The merged text of a title is left alone by a second compaction exactly when it is well joined. */
  lemma JoinedSettledIff(parts: seq<seq<string>>)
    requires Bodies(parts) && parts != []
    ensures Joined(parts) != [] && (!IsListItem(Joined(parts)[0]) || NoGaps(Joined(parts)) <==> WellJoined(parts))
  {
    JoinedEnds(parts);
    JoinedGaps(parts);
    assert parts[0] in parts && forall i :: 0 <= i < |parts| ==> parts[i] in parts;
    hide NoGaps, TrimBlank, IsListItem, Joined;
  }

  // ---------------------------------------------------------------- the items of joined bodies

  /** The text of a body above its first item. */
  function LeadOf(b: seq<string>): seq<string> {
    Body(Cut(Synthetic(b), Bullet).lead)
  }

  /** Text above the items of the lower body becomes part of the last item above it, if there is one. */
  function JoinItems(above: seq<seq<string>>, b: seq<string>): seq<seq<string>> {
    var items := Items(Synthetic(b));
    if LeadOf(b) == [] || above == [] then above + items
    else above[..|above| - 1] + [Last(above) + [""] + LeadOf(b)] + items
  }

  function JoinedItems(parts: seq<seq<string>>): seq<seq<string>> {
    if parts == [] then [] else JoinItems(JoinedItems(parts[..|parts| - 1]), Last(parts))
  }

  lemma {:induction false} GlueJoin(a: seq<Group>, b: seq<Group>)
    ensures GlueAll(a + b) == GlueAll(a) + GlueAll(b)
  {
    if a == [] {
      assert a + b == b;
    } else {
      GlueJoin(a[1..], b);
      assert (a + b)[1..] == a[1..] + b;
    }
  }

  lemma ItemsJoin(a: seq<Group>, b: seq<Group>)
    ensures ItemsOf(a + b) == ItemsOf(a) + ItemsOf(b)
  {
    hide ItemTexts;
  }

  /** Lines that start with an item add their items. */
  lemma ItemsFollow(x: seq<Line>, y: seq<Line>)
    requires Cut(y, Bullet).lead == []
    ensures Items(x + y) == Items(x) + Items(y)
  {
    hide Cut, IsListItem, NoHeads, ItemTexts;
    GlueCut(x, Bullet);
    GlueCut(y, Bullet);
    var c, d := Cut(x, Bullet), Cut(y, Bullet);
    GlueJoin(c.groups, d.groups);
    var e := Groups(c.lead, c.groups + d.groups);
    assert [] + GlueAll(d.groups) == GlueAll(d.groups);
    ConcatAssociative(c.lead, GlueAll(c.groups), GlueAll(d.groups));
    assert Glue(e) == x + y;
    CutGlue(e, Bullet);
    ItemsJoin(c.groups, d.groups);
  }

  function Extended(g: Group, more: seq<Line>): Group {
    Group(g.head, g.body + more)
  }

  /** Lines without an item extend the last group. */
  lemma LeadFollows(x: seq<Line>, more: seq<Line>)
    requires NoHeads(more, Bullet)
    ensures var c := Cut(x, Bullet);
      Cut(x + more, Bullet) ==
        if c.groups == [] then Groups(c.lead + more, [])
        else Groups(c.lead, c.groups[..|c.groups| - 1] + [Extended(Last(c.groups), more)])
  {
    hide Cut, IsListItem;
    GlueCut(x, Bullet);
    var c := Cut(x, Bullet);
    if c.groups == [] {
      var e := Groups(c.lead + more, []);
      assert Glue(e) == x + more;
      CutGlue(e, Bullet);
    } else {
      var front, last := c.groups[..|c.groups| - 1], Last(c.groups);
      assert c.groups == front + [last];
      GlueSnoc(front, last);
      GlueSnoc(front, Extended(last, more));
      var e := Groups(c.lead, front + [Extended(last, more)]);
      ConcatAssociative(GlueAll(front) + [last.head], last.body, more);
      ConcatAssociative(c.lead, GlueAll(c.groups), more);
      assert Glue(e) == x + more;
      CutGlue(e, Bullet);
    }
  }

  /** A group whose last line is not blank keeps its text when it is extended. */
  lemma ExtendedText(g: Group, lead: seq<Line>)
    requires IsListItem(g.head.text) && !Blank(Last(Texts(Block(g)))) && Body(lead) != []
    requires lead != [] && !Blank(lead[0].text)
    ensures ItemTexts(Extended(g, [Line("", 0)] + lead)) == ItemTexts(g) + [""] + Body(lead)
  {
    var t, l := Texts(Block(g)), Texts(lead);
    HeadingsDiffer(g.head.text);
    assert t[0] == g.head.text;
    hide Blank, IsListItem, Texts;
    TrimTrimmed(t);
    ConcatAssociative([g.head], g.body, [Line("", 0)] + lead);
    TextsAppend(Block(g), [Line("", 0)] + lead);
    TextsAppend([Line("", 0)], lead);
    assert Texts([Line("", 0)]) == [""];
    assert DropStart(l) == l by {
      assert l[0] == lead[0].text;
    }
    TrimmedTail(t + [""], l);
    ConcatAssociative(t, [""], l);
  }

  /** Trimming text that starts with text only trims its end. */
  lemma TrimmedTail(t: seq<string>, l: seq<string>)
    requires t != [] && !Blank(t[0]) && DropEnd(l) != []
    ensures TrimBlank(t + l) == t + DropEnd(l)
  {
    hide Blank;
    assert (t + l)[0] == t[0];
    assert DropStart(t + l) == t + l;
    EndOfJoin(t, l);
  }

  lemma {:induction false} EndOfJoin(t: seq<string>, l: seq<string>)
    requires DropEnd(l) != []
    ensures DropEnd(t + l) == t + DropEnd(l)
    decreases |l|
  {
    hide Blank;
    assert Last(t + l) == Last(l);
    if Blank(Last(l)) {
      assert (t + l)[..|t + l| - 1] == t + l[..|l| - 1];
      EndOfJoin(t, l[..|l| - 1]);
    }
  }

  lemma LeadIff(b: seq<string>)
    requires IsBody(b)
    ensures var lead := Cut(Synthetic(b), Bullet).lead;
      if IsListItem(b[0]) then lead == [] && LeadOf(b) == []
      else lead != [] && !Blank(lead[0].text) && LeadOf(b) != []
  {
    TrimFacts(b);
    var lines := Synthetic(b);
    CutStep(lines, Bullet);
    assert Body([]) == [];
    var lead := Cut(lines, Bullet).lead;
    if !IsListItem(b[0]) {
      hide Cut, IsListItem, Blank, TrimBlank;
      assert lead[0] == lines[0] == Line(b[0], 0);
      NoTrimToNothing(Texts(lead));
    }
  }

  lemma NoTrimToNothing(t: seq<string>)
    requires t != [] && !Blank(t[0])
    ensures TrimBlank(t) != [] && TrimBlank(t) == DropEnd(t)
  {
    hide Blank;
    assert DropStart(t) == t;
    DropEndFacts(t);
  }

  lemma LastOfBlock(lines: seq<Line>)
    requires lines != [] && Cut(lines, Bullet).groups != []
    ensures Last(Texts(Block(Last(Cut(lines, Bullet).groups)))) == Last(lines).text
  {
    hide Cut, IsListItem;
    GlueCut(lines, Bullet);
    var c := Cut(lines, Bullet);
    var front, g := c.groups[..|c.groups| - 1], Last(c.groups);
    assert c.groups == front + [g];
    GlueSnoc(front, g);
    ConcatAssociative(GlueAll(front), [g.head], g.body);
    assert GlueAll(c.groups) == GlueAll(front) + Block(g);
    assert Last(lines) == Last(Block(g));
  }

  lemma GroupsAlone(lines: seq<Line>)
    ensures var gs := Cut(lines, Bullet).groups;
      Cut(GlueAll(gs), Bullet) == Groups([], gs) && Items(GlueAll(gs)) == Items(lines)
  {
    hide Cut, IsListItem;
    GlueCut(lines, Bullet);
    var gs := Cut(lines, Bullet).groups;
    assert [] + GlueAll(gs) == GlueAll(gs);
    CutGlue(Groups([], gs), Bullet);
  }

  /** Text above the first item of `b` goes below the last line of `x`. */
  lemma LeadGoesUp(x: seq<Line>, b: seq<string>)
    requires IsBody(b) && !IsListItem(b[0]) && x != [] && !Blank(Last(x).text)
    ensures Items(x + [Line("", 0)] + Synthetic(b)) == JoinItems(Items(x), b)
  {
    LeadIff(b);
    ItemIsNotBlank("");
    var lines := Synthetic(b);
    var d, c := Cut(lines, Bullet), Cut(x, Bullet);
    GlueCut(lines, Bullet);
    GlueCut(x, Bullet);
    var more := [Line("", 0)] + d.lead;
    hide Cut, IsListItem, Blank, TrimBlank, Texts, ItemTexts, Synthetic;
    LeadFollows(x, more);
    GroupsAlone(lines);
    ItemsFollow(x + more, GlueAll(d.groups));
    ConcatAssociative(x, [Line("", 0)], d.lead + GlueAll(d.groups));
    ConcatAssociative([Line("", 0)], d.lead, GlueAll(d.groups));
    ConcatAssociative(x, more, GlueAll(d.groups));
    assert x + [Line("", 0)] + lines == (x + more) + GlueAll(d.groups);
    LeadExtends(x, d.lead);
    assert Items(x + more) == if Items(x) == [] then [] else Items(x)[..|Items(x)| - 1] + [Last(Items(x)) + [""] + LeadOf(b)];
  }

  lemma LeadExtends(x: seq<Line>, lead: seq<Line>)
    requires x != [] && !Blank(Last(x).text)
    requires NoHeads([Line("", 0)] + lead, Bullet) && lead != [] && !Blank(lead[0].text) && Body(lead) != []
    ensures var own := Items(x);
      Items(x + ([Line("", 0)] + lead)) == if own == [] then [] else own[..|own| - 1] + [Last(own) + [""] + Body(lead)]
  {
    hide Cut, IsListItem, Blank, TrimBlank, Texts, ItemTexts;
    var more, c := [Line("", 0)] + lead, Cut(x, Bullet);
    LeadFollows(x, more);
    GlueCut(x, Bullet);
    if c.groups != [] {
      var front, g := c.groups[..|c.groups| - 1], Last(c.groups);
      assert c.groups == front + [g];
      LastOfBlock(x);
      ExtendedText(g, lead);
      ItemsJoin(front, [Extended(g, more)]);
      ItemsJoin(front, [g]);
      assert ItemsOf([g]) == [ItemTexts(g)] && ItemsOf([Extended(g, more)]) == [ItemTexts(Extended(g, more))];
    }
  }

  lemma AppendItems(a: seq<string>, b: seq<string>)
    requires IsBody(a) && IsBody(b)
    ensures Items(Synthetic(AppendTexts(a, b))) == JoinItems(Items(Synthetic(a)), b)
  {
    LeadIff(b);
    TrimFacts(a);
    ItemIsNotBlank("");
    hide Cut, IsListItem, Blank, TrimBlank, LeadOf, ItemsOf;
    var x, y := Synthetic(a), Synthetic(b);
    assert Synthetic([""]) == [Line("", 0)] && a + [] == a;
    SyntheticAppend(a, b);
    SyntheticAppend(a, [""]);
    SyntheticAppend(a + [""], b);
    if IsListItem(b[0]) {
      ItemsFollow(x, y);
      ItemsFollow(x + [Line("", 0)], y);
      KeepBlankEnd(x, Line("", 0), {});
    } else {
      LeadGoesUp(x, b);
    }
  }

  lemma {:induction false} JoinedHasItems(parts: seq<seq<string>>)
    requires Bodies(parts)
    ensures Items(Synthetic(Joined(parts))) == JoinedItems(parts)
    decreases |parts|
  {
    if parts == [] {
      NothingBelow();
    } else {
      var front, last := parts[..|parts| - 1], Last(parts);
      FrontBodies(parts);
      JoinedHasItems(front);
      if front == [] {
        assert parts == [last];
        OnlyItems(last);
      } else {
        JoinedEnds(front);
        AppendItems(Joined(front), last);
      }
    }
  }

  lemma NothingBelow()
    ensures Items(Synthetic([])) == []
  {
  }

  lemma OnlyItems(b: seq<string>)
    requires b != []
    ensures AppendTexts([], b) == b && JoinItems([], b) == Items(Synthetic(b)) && JoinedItems([]) == [] && JoinedItems([b]) == JoinItems([], b)
  {
    hide Items, LeadOf;
    assert [] + Items(Synthetic(b)) == Items(Synthetic(b));
    assert [b][..0] == [];
  }

  // ---------------------------------------------------------------- what merging leaves under a title

  lemma TitleIndexIs(subs: seq<Subsection>, title: string, i: nat)
    requires i <= |subs| && (i < |subs| ==> subs[i].title == title) && forall j :: 0 <= j < i ==> subs[j].title != title
    ensures TitleIndex(subs, title) == i
  {
  }

  lemma {:induction false} MergedIsJoined(subs: seq<Subsection>, keys: set<string>, title: string, n: nat)
    requires n <= |subs|
    ensures var m, parts := MergeUpTo(subs, keys, n), Parts(subs, keys, title, n);
      var i := TitleIndex(m, title);
      Bodies(parts) && (i < |m| <==> parts != []) && (i < |m| ==> m[i].lines == Synthetic(Joined(parts)))
  {
    hide CleanBody, Written, IsBody, AppendTexts, Synthetic, MergeOne, Joined, Bodies;
    PartsAreBodies(subs, keys, title, n);
    if n > 0 {
      MergedIsJoined(subs, keys, title, n - 1);
      PartsAreBodies(subs, keys, title, n - 1);
      MergedWritten(subs, keys, n - 1);
      CleanIsBody(subs[n - 1].lines, keys);
      MergeJoins(MergeUpTo(subs, keys, n - 1), subs[n - 1], keys, title, Parts(subs, keys, title, n - 1));
    } else {
      assert MergeUpTo(subs, keys, 0) == [];
    }
  }

  lemma MergeJoins(acc: seq<Subsection>, s: Subsection, keys: set<string>, title: string, parts: seq<seq<string>>)
    requires Bodies(parts) && AllWritten(acc)
    requires var i := TitleIndex(acc, title);
      (i < |acc| <==> parts != []) && (i < |acc| ==> acc[i].lines == Synthetic(Joined(parts)))
    ensures var b := CleanBody(s.lines, keys);
      var m, next := MergeOne(acc, s, keys), parts + if s.title == title && b != [] then [b] else [];
      var i := TitleIndex(m, title);
      Bodies(next) && (i < |m| <==> next != []) && (i < |m| ==> m[i].lines == Synthetic(Joined(next)))
  {
    hide CleanBody, IsBody, AppendTexts, Synthetic, Written, Body;
    var b, i, at := CleanBody(s.lines, keys), TitleIndex(acc, title), TitleIndex(acc, s.title);
    CleanIsBody(s.lines, keys);
    if b == [] {
      assert parts + [] == parts;
    } else if s.title == title {
      var next := parts + [b];
      assert Bodies(next) && next[..|next| - 1] == parts && Last(next) == b;
      JoinedSnoc(parts, b);
      var m := MergeOne(acc, s, keys);
      TitleIndexIs(m, title, at);
      if at < |acc| {
        BodyOfJoined(acc[at].lines, parts);
      }
    } else {
      assert parts + [] == parts;
      TitleIndexIs(MergeOne(acc, s, keys), title, if i < |acc| then i else |MergeOne(acc, s, keys)|);
    }
  }

  lemma JoinedSnoc(parts: seq<seq<string>>, b: seq<string>)
    requires Bodies(parts + [b])
    ensures Bodies(parts) && IsBody(b) && Joined(parts + [b]) == AppendTexts(Joined(parts), b)
    ensures parts == [] ==> Joined(parts + [b]) == b
  {
    hide IsBody;
    var next := parts + [b];
    assert next[|parts|] == b && forall i :: 0 <= i < |parts| ==> next[i] == parts[i];
    assert next[..|next| - 1] == parts;
    assert IsBody(b) && b != [] by {
      OneBody(b);
    }
    if parts == [] {
      assert Joined([]) == [];
    }
  }

  lemma OneBody(b: seq<string>)
    requires IsBody(b)
    ensures b != []
  {
  }

  lemma BodyOfJoined(lines: seq<Line>, parts: seq<seq<string>>)
    requires Bodies(parts) && parts != [] && lines == Synthetic(Joined(parts))
    ensures Body(lines) == Joined(parts)
  {
    hide TrimBlank;
    JoinedEnds(parts);
    TextsSynthetic(Joined(parts));
  }
}
