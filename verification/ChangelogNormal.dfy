/** Rendering is a normal form: what printing and parsing do to one another. */
module ChangelogNormal {
  import opened Prelude
  import opened ChangelogText
  import opened ChangelogDoc

  // ---------------------------------------------------------------- normal documents

  function NeatSubs(subs: seq<Subsection>): seq<Subsection> {
    if subs == [] then []
    else
      var b := Body(subs[0].lines);
      (if b == [] then [] else [Subsection(subs[0].title, Synthetic(b))]) + NeatSubs(subs[1..])
  }

  function NeatSection(s: Section): Section {
    Section(s.heading, s.title, Synthetic(Body(s.leading)), NeatSubs(s.subs))
  }

  function NeatSections(ss: seq<Section>): (r: seq<Section>)
    ensures |r| == |ss| && forall i :: 0 <= i < |r| ==> r[i] == NeatSection(ss[i])
  {
    if ss == [] then [] else [NeatSection(ss[0])] + NeatSections(ss[1..])
  }

  /** The document without line numbers, blank edges and empty subsections. */
  function Neat(d: Document): Document {
    Document(Synthetic(Body(d.prefix)), NeatSections(d.sections))
  }

  predicate PlainLine(text: string) {
    Clean(text) && !IsReleaseHeading(text) && !IsSubsectionHeading(text)
  }

  predicate GoodSub(s: Subsection) {
    GoodTitle(s.title) && Clean(s.title) && forall t :: t in Texts(s.lines) ==> PlainLine(t)
  }

  predicate GoodSection(s: Section) {
    && Clean(s.heading) && IsReleaseHeading(s.heading) && s.title == ReleaseTitle(s.heading)
    && (forall t :: t in Texts(s.leading) ==> PlainLine(t))
    && forall i :: 0 <= i < |s.subs| ==> GoodSub(s.subs[i])
  }

  /** A document that some text parses to. */
  predicate GoodDocument(d: Document) {
    && (forall t :: t in Texts(d.prefix) ==> Clean(t) && !IsReleaseHeading(t))
    && forall i :: 0 <= i < |d.sections| ==> GoodSection(d.sections[i])
  }

  // ---------------------------------------------------------------- trimming

  lemma {:induction false} DropStartFacts(lines: seq<string>)
    ensures var r := DropStart(lines);
      (r != [] ==> !Blank(r[0])) && |r| <= |lines| && r == lines[|lines| - |r|..]
  {
    hide Blank;
    if lines != [] && Blank(lines[0]) {
      DropStartFacts(lines[1..]);
    }
  }

  lemma {:induction false} DropEndFacts(lines: seq<string>)
    ensures var r := DropEnd(lines);
      (r != [] ==> !Blank(Last(r))) && r <= lines && (lines != [] && !Blank(lines[0]) ==> r != [])
  {
    hide Blank;
    if lines != [] && Blank(Last(lines)) {
      DropEndFacts(lines[..|lines| - 1]);
    }
  }

  lemma TrimFacts(lines: seq<string>)
    ensures var r := TrimBlank(lines);
      (r != [] ==> !Blank(r[0]) && !Blank(Last(r))) && forall x :: x in r ==> x in lines
  {
    hide Blank, DropStart, DropEnd;
    DropStartFacts(lines);
    DropEndFacts(DropStart(lines));
  }

  lemma TrimTrimmed(lines: seq<string>)
    requires lines != [] ==> !Blank(lines[0]) && !Blank(Last(lines))
    ensures TrimBlank(lines) == lines
  {
  }

  lemma {:induction false} DropStartSnoc(lines: seq<string>, x: string)
    ensures DropStart(lines + [x]) == if DropStart(lines) == [] && Blank(x) then [] else DropStart(lines) + [x]
  {
    hide Blank;
    if lines == [] {
      assert [] + [x] == [x] && [x][1..] == [];
    } else {
      assert (lines + [x])[1..] == lines[1..] + [x];
      if Blank(lines[0]) {
        DropStartSnoc(lines[1..], x);
      }
    }
  }

  lemma TrimBlankAfter(lines: seq<string>, x: string)
    requires Blank(x)
    ensures TrimBlank(lines + [x]) == TrimBlank(lines)
  {
    hide Blank, DropStart;
    DropStartSnoc(lines, x);
    var s := DropStart(lines);
    assert (s + [x])[..|s|] == s;
  }

  lemma TrimBlankBefore(lines: seq<string>, x: string)
    requires Blank(x)
    ensures TrimBlank([x] + lines) == TrimBlank(lines)
  {
    hide Blank, DropEnd;
    assert ([x] + lines)[1..] == lines;
  }

  lemma TextsAppend(a: seq<Line>, b: seq<Line>)
    ensures Texts(a + b) == Texts(a) + Texts(b)
  {
    hide Texts;
  }

  lemma TextsSynthetic(texts: seq<string>)
    ensures Texts(Synthetic(texts)) == texts
  {
  }

  lemma SyntheticAppend(a: seq<string>, b: seq<string>)
    ensures Synthetic(a + b) == Synthetic(a) + Synthetic(b)
  {
  }

  lemma BodyOfBody(lines: seq<Line>)
    ensures Body(Synthetic(Body(lines))) == Body(lines)
  {
    hide TrimBlank, Blank;
    TrimFacts(Texts(lines));
    TextsSynthetic(Body(lines));
    TrimTrimmed(Body(lines));
  }

  // ---------------------------------------------------------------- printing sees the normal form only

  lemma {:induction false} RenderNeatSubs(subs: seq<Subsection>)
    ensures RenderSubs(NeatSubs(subs)) == RenderSubs(subs)
  {
    hide Body, TitleLine;
    if subs != [] {
      RenderNeatSubs(subs[1..]);
      BodyOfBody(subs[0].lines);
      var s := Subsection(subs[0].title, Synthetic(Body(subs[0].lines)));
      if Body(subs[0].lines) != [] {
        assert ([s] + NeatSubs(subs[1..]))[1..] == NeatSubs(subs[1..]);
      } else {
        assert [] + NeatSubs(subs[1..]) == NeatSubs(subs[1..]);
      }
    }
  }

  lemma {:induction false} RenderNeatSections(ss: seq<Section>)
    ensures RenderSections(NeatSections(ss)) == RenderSections(ss)
  {
    hide Body, NeatSubs, RenderSubs;
    if ss != [] {
      RenderNeatSections(ss[1..]);
      RenderNeatSubs(ss[0].subs);
      BodyOfBody(ss[0].leading);
      assert NeatSections(ss)[1..] == NeatSections(ss[1..]);
    }
  }

  lemma RenderSeesNormalForm(d: Document)
    ensures Render(Neat(d)) == Render(d)
  {
    hide Body, RenderSections, PopEmpty, Join;
    RenderNeatSections(d.sections);
    BodyOfBody(d.prefix);
  }

  // ---------------------------------------------------------------- line numbers do not matter

  function Erase(lines: seq<Line>): (r: seq<Line>)
    ensures |r| == |lines| && forall i :: 0 <= i < |r| ==> r[i] == Line(lines[i].text, 0)
  {
    Synthetic(Texts(lines))
  }

  function EraseAll(gs: seq<Group>): (r: seq<Group>)
    ensures |r| == |gs| && forall i :: 0 <= i < |r| ==>
      r[i] == Group(Line(gs[i].head.text, 0), Erase(gs[i].body))
  {
    if gs == [] then []
    else [Group(Line(gs[0].head.text, 0), Erase(gs[0].body))] + EraseAll(gs[1..])
  }

  lemma EraseAppend(a: seq<Line>, b: seq<Line>)
    ensures Erase(a + b) == Erase(a) + Erase(b)
  {
    hide Erase;
  }

  lemma {:induction false} GlueErase(gs: seq<Group>)
    ensures GlueAll(EraseAll(gs)) == Erase(GlueAll(gs))
  {
    hide Erase;
    if gs != [] {
      var g := gs[0];
      GlueErase(gs[1..]);
      assert EraseAll(gs)[1..] == EraseAll(gs[1..]);
      EraseAppend([g.head] + g.body, GlueAll(gs[1..]));
      EraseAppend([g.head], g.body);
      assert Erase([g.head]) == [Line(g.head.text, 0)];
    }
  }

  lemma CutErase(lines: seq<Line>, at: Level)
    ensures Cut(Erase(lines), at) == Groups(Erase(Cut(lines, at).lead), EraseAll(Cut(lines, at).groups))
  {
    hide Heads, Cut, Erase, EraseAll;
    GlueCut(lines, at);
    var c := Cut(lines, at);
    var e := Groups(Erase(c.lead), EraseAll(c.groups));
    GlueErase(c.groups);
    assert Glue(e) == Erase(Glue(c));
    CutGlue(e, at);
  }

  lemma EraseKeepsBody(lines: seq<Line>)
    ensures Body(Erase(lines)) == Body(lines)
  {
    TextsSynthetic(Texts(lines));
  }

  lemma {:induction false} NeatErasedSubs(gs: seq<Group>)
    ensures NeatSubs(ParseSubs(EraseAll(gs))) == NeatSubs(ParseSubs(gs))
  {
    hide Body, IsSubsectionHeading, SubsectionTitle, Erase;
    if gs != [] {
      NeatErasedSubs(gs[1..]);
      EraseKeepsBody(gs[0].body);
      assert EraseAll(gs)[1..] == EraseAll(gs[1..]);
    }
  }

  lemma NeatErasedSection(g: Group)
    ensures NeatSection(ParseSection(Group(Line(g.head.text, 0), Erase(g.body)))) == NeatSection(ParseSection(g))
  {
    hide Body, IsReleaseHeading, ReleaseTitle, Cut, Erase, NeatSubs, ParseSubs, EraseAll;
    CutErase(g.body, Sub);
    EraseKeepsBody(Cut(g.body, Sub).lead);
    NeatErasedSubs(Cut(g.body, Sub).groups);
  }

  lemma NeatErased(lines: seq<Line>)
    ensures Neat(ParseLines(Erase(lines))) == Neat(ParseLines(lines))
  {
    hide Body, Cut, Erase, NeatSection, ParseSection, EraseAll;
    CutErase(lines, Release);
    var c := Cut(lines, Release);
    EraseKeepsBody(c.lead);
    forall i | 0 <= i < |c.groups|
      ensures NeatSection(ParseSection(EraseAll(c.groups)[i])) == NeatSection(ParseSection(c.groups[i]))
    {
      NeatErasedSection(c.groups[i]);
    }
  }

  // ---------------------------------------------------------------- a blank line at the end does not matter

  function SnocLast(gs: seq<Group>, l: Line): seq<Group>
    requires gs != []
  {
    gs[..|gs| - 1] + [Group(Last(gs).head, Last(gs).body + [l])]
  }

  function SnocGroups(g: Groups, l: Line): Groups {
    if g.groups == [] then Groups(g.lead + [l], []) else Groups(g.lead, SnocLast(g.groups, l))
  }

  lemma CutSnoc(lines: seq<Line>, l: Line, at: Level)
    requires !Heads(at, l.text)
    ensures Cut(lines + [l], at) == SnocGroups(Cut(lines, at), l)
  {
    hide Heads, Cut;
    GlueCut(lines, at);
    var c := Cut(lines, at);
    var e := SnocGroups(c, l);
    if c.groups != [] {
      var front, last := c.groups[..|c.groups| - 1], Last(c.groups);
      assert c.groups == front + [last];
      GlueSnoc(front, last);
      GlueSnoc(front, Group(last.head, last.body + [l]));
    }
    assert Glue(e) == Glue(c) + [l];
    CutGlue(e, at);
  }

  lemma BodySnoc(lines: seq<Line>, l: Line)
    requires Blank(l.text)
    ensures Body(lines + [l]) == Body(lines)
  {
    hide TrimBlank, Blank;
    TextsAppend(lines, [l]);
    assert Texts([l]) == [l.text];
    TrimBlankAfter(Texts(lines), l.text);
  }

  lemma {:induction false} NeatSubsSnoc(gs: seq<Group>, l: Line)
    requires gs != [] && Blank(l.text)
    ensures NeatSubs(ParseSubs(SnocLast(gs, l))) == NeatSubs(ParseSubs(gs))
  {
    hide Body, IsSubsectionHeading, SubsectionTitle, Blank;
    if |gs| == 1 {
      BodySnoc(gs[0].body, l);
      assert SnocLast(gs, l)[1..] == [] && gs[1..] == [];
    } else {
      NeatSubsSnoc(gs[1..], l);
      assert SnocLast(gs, l)[1..] == SnocLast(gs[1..], l);
      assert SnocLast(gs, l)[0] == gs[0];
    }
  }

  lemma NeatSectionSnoc(g: Group, l: Line)
    requires Blank(l.text) && !IsSubsectionHeading(l.text)
    ensures NeatSection(ParseSection(Group(g.head, g.body + [l]))) == NeatSection(ParseSection(g))
  {
    hide Body, IsReleaseHeading, ReleaseTitle, Cut, NeatSubs, ParseSubs, Blank, IsSubsectionHeading;
    CutSnoc(g.body, l, Sub);
    var c := Cut(g.body, Sub);
    if c.groups == [] {
      BodySnoc(c.lead, l);
    } else {
      NeatSubsSnoc(c.groups, l);
    }
  }

  lemma NeatSnoc(lines: seq<Line>, l: Line)
    requires Blank(l.text)
    ensures Neat(ParseLines(lines + [l])) == Neat(ParseLines(lines))
  {
    hide Body, Cut, NeatSection, ParseSection, Blank, IsReleaseHeading, IsSubsectionHeading;
    HeadingsDiffer(l.text);
    CutSnoc(lines, l, Release);
    var c := Cut(lines, Release);
    if c.groups == [] {
      BodySnoc(c.lead, l);
    } else {
      NeatSectionSnoc(Last(c.groups), l);
      var a, b := ParseSections(SnocLast(c.groups, l)), ParseSections(c.groups);
      assert forall i :: 0 <= i < |a| ==> NeatSection(a[i]) == NeatSection(b[i]);
    }
  }

  lemma {:induction false} NeatPopped(texts: seq<string>)
    ensures Neat(ParseLines(Synthetic(PopEmpty(texts)))) == Neat(ParseLines(Synthetic(texts)))
  {
    hide Neat, ParseLines, IsReleaseHeading, IsSubsectionHeading, Blank, PopEmpty, Synthetic;
    PopStep(texts);
    if texts != [] && Last(texts) == "" {
      var front := texts[..|texts| - 1];
      NeatPopped(front);
      HeadingsDiffer("");
      NeatSnoc(Synthetic(front), Line("", 0));
      assert Synthetic(texts) == Synthetic(front) + [Line("", 0)];
    }
  }

  // ---------------------------------------------------------------- reading back what was printed

  function SectionTail(s: Section): seq<string> {
    RenderLeading(s) + RenderSubs(s.subs) + [""]
  }

  /** The printed subsections as groups; each takes over the blank line before the next. */
  function PrintedSubs(subs: seq<Subsection>): seq<Group> {
    if subs == [] then []
    else
      var b := Body(subs[0].lines);
      (if b == [] then [] else [Group(Line(TitleLine(subs[0].title), 0), Synthetic([""] + b + [""]))]) +
      PrintedSubs(subs[1..])
  }

  lemma PrintedStep(b: seq<string>, title: string, rest: seq<string>, more: seq<Line>)
    requires Synthetic(rest) == [Line("", 0)] + more
    ensures Synthetic(["", title, ""] + b + rest) ==
      [Line("", 0)] + ([Line(title, 0)] + Synthetic([""] + b + [""]) + more)
  {
    hide Synthetic;
    var blank := Line("", 0);
    var padded := Synthetic([""] + b + [""]);
    assert padded == [blank] + Synthetic(b) + [blank];
    SyntheticAppend(["", title, ""] + b, rest);
    assert Synthetic(["", title, ""] + b) == [blank, Line(title, 0), blank] + Synthetic(b);
  }

  lemma {:induction false} PrintedSubsGlue(subs: seq<Subsection>)
    ensures Synthetic(RenderSubs(subs) + [""]) == [Line("", 0)] + GlueAll(PrintedSubs(subs))
  {
    hide Body, TitleLine, Synthetic, RenderSub;
    if subs == [] {
      assert [] + [""] == [""];
      assert Synthetic([""]) == [Line("", 0)];
    } else {
      PrintedSubsGlue(subs[1..]);
      RenderSubIs(subs[0]);
      var b, title := Body(subs[0].lines), TitleLine(subs[0].title);
      var rest, more := RenderSubs(subs[1..]), PrintedSubs(subs[1..]);
      if b == [] {
        assert RenderSubs(subs) == rest;
        assert PrintedSubs(subs) == more;
      } else {
        ConcatAssociative(["", title, ""] + b, rest, [""]);
        PrintedStep(b, title, rest + [""], GlueAll(more));
        var g := Group(Line(title, 0), Synthetic([""] + b + [""]));
        assert PrintedSubs(subs) == [g] + more && ([g] + more)[1..] == more;
      }
    }
  }

  lemma PaddedIsPlain(lines: seq<Line>)
    requires forall t :: t in Texts(lines) ==> PlainLine(t)
    ensures forall l :: l in Synthetic([""] + Body(lines) + [""]) ==> PlainLine(l.text)
  {
    hide Texts, Synthetic, Body, IsReleaseHeading, IsSubsectionHeading, Blank;
    BodyIsPlain(lines);
    HeadingsDiffer("");
    var padded := [""] + Body(lines) + [""];
    forall l | l in Synthetic(padded)
      ensures PlainLine(l.text)
    {
      var i :| 0 <= i < |padded| && Synthetic(padded)[i] == l;
      assert padded[i] == "" || padded[i] in Body(lines);
    }
  }

  lemma {:induction false} PrintedSubsAreCut(subs: seq<Subsection>)
    requires forall i :: 0 <= i < |subs| ==> GoodSub(subs[i])
    ensures IsCut(Groups([], PrintedSubs(subs)), Sub)
  {
    hide TitleLine, Body, IsSubsectionHeading, SubsectionTitle, IsReleaseHeading, GoodTitle, Clean, Synthetic;
    if subs != [] {
      assert forall i :: 0 <= i < |subs[1..]| ==> subs[1..][i] == subs[i + 1];
      PrintedSubsAreCut(subs[1..]);
      TitleRoundTrip(subs[0].title);
      PaddedIsPlain(subs[0].lines);
      var rest, all := PrintedSubs(subs[1..]), PrintedSubs(subs);
      if Body(subs[0].lines) == [] {
        assert all == rest;
      } else {
        var g := Group(Line(TitleLine(subs[0].title), 0), Synthetic([""] + Body(subs[0].lines) + [""]));
        assert all == [g] + rest;
        assert NoHeads(g.body, Sub);
        assert forall i :: 0 < i < |all| ==> all[i] == rest[i - 1];
      }
    }
  }

  lemma {:induction false} PrintedSubsRead(subs: seq<Subsection>)
    requires forall i :: 0 <= i < |subs| ==> GoodSub(subs[i])
    ensures NeatSubs(ParseSubs(PrintedSubs(subs))) == NeatSubs(subs)
  {
    hide TitleLine, Body, IsSubsectionHeading, SubsectionTitle, IsReleaseHeading, GoodTitle, Clean, Synthetic;
    if subs != [] {
      assert forall i :: 0 <= i < |subs[1..]| ==> subs[1..][i] == subs[i + 1];
      PrintedSubsRead(subs[1..]);
      TitleRoundTrip(subs[0].title);
      PaddedBody(subs[0].lines);
      var rest := PrintedSubs(subs[1..]);
      var g := Group(Line(TitleLine(subs[0].title), 0), Synthetic([""] + Body(subs[0].lines) + [""]));
      if Body(subs[0].lines) == [] {
        assert PrintedSubs(subs) == rest;
      } else {
        assert PrintedSubs(subs) == [g] + rest && ([g] + rest)[1..] == rest;
      }
    }
  }

  lemma BodyIsPlain(lines: seq<Line>)
    ensures forall t :: t in Body(lines) ==> t in Texts(lines)
  {
    TrimFacts(Texts(lines));
  }

  lemma PaddedBody(lines: seq<Line>)
    ensures Body(Synthetic([""] + Body(lines) + [""])) == Body(lines)
  {
    hide TrimBlank, Blank;
    var b := Body(lines);
    HeadingsDiffer("");
    TextsSynthetic([""] + b + [""]);
    TrimBlankAfter([""] + b, "");
    TrimBlankBefore(b, "");
    TextsSynthetic(b);
    BodyOfBody(lines);
  }

  lemma SectionReads(s: Section)
    requires GoodSection(s)
    ensures var g := Group(Line(s.heading, 0), Synthetic(SectionTail(s)));
      NeatSection(ParseSection(g)) == NeatSection(s)
  {
    hide Body, IsSubsectionHeading, IsReleaseHeading, ReleaseTitle, GoodSub, Synthetic, Clean, NeatSubs, ParseSubs;
    hide RenderLeading, RenderSubs, SectionTail, PrintedSubs;
    var lead := Synthetic(RenderLeading(s) + [""]);
    var c := Groups(lead, PrintedSubs(s.subs));
    TailGlue(s);
    PrintedSubsAreCut(s.subs);
    LeadIsPlain(s);
    CutGlue(c, Sub);
    PrintedSubsRead(s.subs);
    LeadingReads(s);
  }

  lemma TailGlue(s: Section)
    ensures Glue(Groups(Synthetic(RenderLeading(s) + [""]), PrintedSubs(s.subs))) == Synthetic(SectionTail(s))
  {
    hide RenderLeading, RenderSubs, PrintedSubs, Synthetic;
    PrintedSubsGlue(s.subs);
    SyntheticAppend(RenderLeading(s), RenderSubs(s.subs) + [""]);
    SyntheticAppend(RenderLeading(s), [""]);
    assert SectionTail(s) == RenderLeading(s) + (RenderSubs(s.subs) + [""]);
    assert Synthetic([""]) == [Line("", 0)];
  }

  lemma SyntheticNoHeads(texts: seq<string>, at: Level)
    requires forall t :: t in texts ==> !Heads(at, t)
    ensures NoHeads(Synthetic(texts), at)
  {
    hide Synthetic, Heads;
    forall l | l in Synthetic(texts)
      ensures !Heads(at, l.text)
    {
      var i :| 0 <= i < |texts| && Synthetic(texts)[i] == l;
      assert texts[i] in texts;
    }
  }

  lemma LeadIsPlain(s: Section)
    requires forall t :: t in Texts(s.leading) ==> PlainLine(t)
    ensures NoHeads(Synthetic(RenderLeading(s) + [""]), Sub)
    ensures forall t :: t in RenderLeading(s) ==> PlainLine(t)
  {
    hide Body, IsSubsectionHeading, IsReleaseHeading, Clean, Blank;
    HeadingsDiffer("");
    EmptyIsClean();
    BodyIsPlain(s.leading);
    SyntheticNoHeads(RenderLeading(s) + [""], Sub);
  }

  lemma BlankBody()
    ensures Body(Synthetic([""])) == []
  {
    HeadingsDiffer("");
    TextsSynthetic([""]);
    assert [] + [""] == [""];
    TrimBlankAfter([], "");
  }

  lemma SectionIsTail(s: Section)
    ensures RenderSection(s) == [s.heading] + SectionTail(s)
  {
  }

  lemma LeadingReads(s: Section)
    ensures Body(Synthetic(RenderLeading(s) + [""])) == Body(s.leading)
  {
    hide Body, Blank;
    if Body(s.leading) == [] {
      HeadingsDiffer("");
      BlankBody();
      assert [] + [""] == [""];
    } else {
      PaddedBody(s.leading);
    }
  }

  /** The printed sections as groups. */
  function PrintedSections(ss: seq<Section>): (r: seq<Group>)
    ensures |r| == |ss| && forall i :: 0 <= i < |r| ==> r[i] == Group(Line(ss[i].heading, 0), Synthetic(SectionTail(ss[i])))
  {
    if ss == [] then []
    else [Group(Line(ss[0].heading, 0), Synthetic(SectionTail(ss[0])))] + PrintedSections(ss[1..])
  }

  lemma {:induction false} PrintedSectionsGlue(ss: seq<Section>)
    ensures GlueAll(PrintedSections(ss)) == Synthetic(RenderSections(ss))
  {
    hide SectionTail, RenderLeading, RenderSubs, Synthetic;
    if ss != [] {
      PrintedSectionsGlue(ss[1..]);
      assert PrintedSections(ss)[1..] == PrintedSections(ss[1..]);
      var tail := SectionTail(ss[0]);
      SectionIsTail(ss[0]);
      SyntheticAppend([ss[0].heading] + tail, RenderSections(ss[1..]));
      SyntheticAppend([ss[0].heading], tail);
      assert Synthetic([ss[0].heading]) == [Line(ss[0].heading, 0)];
    }
  }

  lemma {:induction false} RenderedSubsLines(subs: seq<Subsection>)
    requires forall i :: 0 <= i < |subs| ==> GoodSub(subs[i])
    ensures forall t :: t in RenderSubs(subs) ==> Clean(t) && !IsReleaseHeading(t)
  {
    hide Body, IsSubsectionHeading, SubsectionTitle, IsReleaseHeading, Clean, Blank, TitleLine, GoodTitle;
    if subs != [] {
      assert forall i :: 0 <= i < |subs[1..]| ==> subs[1..][i] == subs[i + 1];
      RenderedSubsLines(subs[1..]);
      BodyIsPlain(subs[0].lines);
      HeadingsDiffer("");
      TitleRoundTrip(subs[0].title);
      HeadingsDiffer(TitleLine(subs[0].title));
      TitleLineClean(subs[0].title);
    }
  }

  lemma TitleLineClean(title: string)
    requires Clean(title)
    ensures Clean(TitleLine(title)) && Clean("")
  {
  }

  lemma TailLines(s: Section)
    requires GoodSection(s)
    ensures forall t :: t in SectionTail(s) ==> Clean(t) && !IsReleaseHeading(t)
    ensures IsReleaseHeading(s.heading)
  {
    hide Body, IsSubsectionHeading, IsReleaseHeading, ReleaseTitle, Clean, Blank, RenderLeading, RenderSubs, GoodSub;
    RenderedSubsLines(s.subs);
    LeadIsPlain(s);
    HeadingsDiffer("");
    EmptyIsClean();
  }

  lemma {:induction false} RenderedSectionsClean(ss: seq<Section>)
    requires forall i :: 0 <= i < |ss| ==> GoodSection(ss[i])
    ensures AllClean(RenderSections(ss))
  {
    hide SectionTail, RenderLeading, RenderSubs, Clean, GoodSub, IsReleaseHeading, ReleaseTitle;
    if ss != [] {
      assert forall i :: 0 <= i < |ss[1..]| ==> ss[1..][i] == ss[i + 1];
      RenderedSectionsClean(ss[1..]);
      TailLines(ss[0]);
      SectionIsTail(ss[0]);
    }
  }

  lemma PrefixLines(d: Document)
    requires GoodDocument(d)
    ensures forall t :: t in RenderPrefix(d.prefix) ==> Clean(t) && !IsReleaseHeading(t)
    ensures Body(Synthetic(RenderPrefix(d.prefix))) == Body(d.prefix)
  {
    hide Body, Blank, GoodSection, IsReleaseHeading, Clean;
    BodyIsPlain(d.prefix);
    HeadingsDiffer("");
    EmptyIsClean();
    assert Body(Synthetic(RenderPrefix(d.prefix))) == Body(d.prefix) by {
      var b := Body(d.prefix);
      BodyOfBody(d.prefix);
      if b != [] {
        SyntheticAppend(b, [""]);
        BodySnoc(Synthetic(b), Line("", 0));
        assert Synthetic([""]) == [Line("", 0)];
      }
    }
  }

  /** The printed lines, read back, are the document. */
  lemma LinesRead(d: Document)
    requires GoodDocument(d)
    ensures Neat(ParseLines(Synthetic(RenderLines(d)))) == Neat(d)
  {
    var c := Groups(Synthetic(RenderPrefix(d.prefix)), PrintedSections(d.sections));
    hide Body, GoodSection, IsReleaseHeading, Clean, RenderPrefix, RenderSections, Synthetic, NeatSection, ParseSection, SectionTail;
    PrefixLines(d);
    SyntheticNoHeads(RenderPrefix(d.prefix), Release);
    forall i | 0 <= i < |d.sections|
      ensures Heads(Release, c.groups[i].head.text) && NoHeads(c.groups[i].body, Release)
      ensures NeatSection(ParseSection(c.groups[i])) == NeatSection(d.sections[i])
    {
      SectionReads(d.sections[i]);
      TailLines(d.sections[i]);
      SyntheticNoHeads(SectionTail(d.sections[i]), Release);
    }
    PrintedSectionsGlue(d.sections);
    SyntheticAppend(RenderPrefix(d.prefix), RenderSections(d.sections));
    assert Glue(c) == Synthetic(RenderLines(d));
    CutGlue(c, Release);
  }

  /** Parsing what was printed recovers every heading, title and trimmed body; only empty subsections are gone. */
  lemma ParseRender(d: Document)
    requires GoodDocument(d)
    ensures Neat(Parse(Render(d))) == Neat(d)
  {
    hide Neat, ParseLines, GoodSection, Clean, SplitContent, PopEmpty, RenderPrefix, RenderSections, Join, Synthetic;
    var texts := PopEmpty(RenderLines(d));
    PrefixLines(d);
    RenderedSectionsClean(d.sections);
    assert AllClean(texts);
    SplitRendered(texts);
    var read := SplitContent(Render(d));
    LinesRead(d);
    NeatPopped(RenderLines(d));
    if texts == [] {
      HeadingsDiffer("");
      NeatSnoc([], Line("", 0));
      assert Synthetic([]) == [] && Synthetic(read) == [] + [Line("", 0)];
    }
    var numbered := Numbered(read, 1);
    assert Erase(numbered) == Synthetic(read);
    NeatErased(numbered);
  }

  lemma {:induction false} GlueMember(gs: seq<Group>, i: nat, l: Line)
    requires i < |gs| && (l == gs[i].head || l in gs[i].body)
    ensures l in GlueAll(gs)
  {
    if i > 0 {
      GlueMember(gs[1..], i - 1, l);
    }
  }

  lemma {:induction false} ParsedSubsGood(gs: seq<Group>)
    requires forall i :: 0 <= i < |gs| ==>
      IsSubsectionHeading(gs[i].head.text) && Clean(gs[i].head.text) && forall l :: l in gs[i].body ==> PlainLine(l.text)
    ensures forall i :: 0 <= i < |gs| ==> GoodSub(ParseSubs(gs)[i])
  {
    hide IsSubsectionHeading, SubsectionTitle, PlainLine, GoodTitle;
    if gs != [] {
      assert forall i :: 0 <= i < |gs[1..]| ==> gs[1..][i] == gs[i + 1];
      ParsedSubsGood(gs[1..]);
      SubsectionTitleIsGood(gs[0].head.text);
      assert forall t :: t in Texts(gs[0].body) ==> PlainLine(t);
      assert forall i :: 0 < i < |gs| ==> ParseSubs(gs)[i] == ParseSubs(gs[1..])[i - 1];
    }
  }

  lemma ParsedSectionGood(g: Group)
    requires IsReleaseHeading(g.head.text) && Clean(g.head.text)
    requires forall l :: l in g.body ==> Clean(l.text) && !IsReleaseHeading(l.text)
    ensures GoodSection(ParseSection(g))
  {
    hide IsReleaseHeading, IsSubsectionHeading, ReleaseTitle, Clean, GoodSub, Cut;
    var c := Cut(g.body, Sub);
    GlueCut(g.body, Sub);
    assert forall l :: l in c.lead ==> l in g.body;
    forall i, l | 0 <= i < |c.groups| && (l == c.groups[i].head || l in c.groups[i].body)
      ensures l in g.body
    {
      GlueMember(c.groups, i, l);
    }
    ParsedSubsGood(c.groups);
  }

  lemma NumberedIsClean(texts: seq<string>, first: nat)
    requires AllClean(texts)
    ensures forall l :: l in Numbered(texts, first) ==> Clean(l.text)
  {
    hide Numbered, Clean;
    var lines := Numbered(texts, first);
    forall l | l in lines
      ensures Clean(l.text)
    {
      var i :| 0 <= i < |lines| && lines[i] == l;
      assert texts[i] in texts;
    }
  }

  lemma ParsedLinesGood(lines: seq<Line>)
    requires forall l :: l in lines ==> Clean(l.text)
    ensures GoodDocument(ParseLines(lines))
  {
    hide IsReleaseHeading, Clean, Cut, GoodSection, ParseSection;
    GlueCut(lines, Release);
    var c := Cut(lines, Release);
    assert forall l :: l in c.lead ==> l in lines;
    forall i | 0 <= i < |c.groups|
      ensures GoodSection(ParseSection(c.groups[i]))
    {
      forall l | l == c.groups[i].head || l in c.groups[i].body
        ensures l in lines
      {
        GlueMember(c.groups, i, l);
      }
      ParsedSectionGood(c.groups[i]);
    }
  }

  lemma ParsedIsGood(content: string)
    ensures GoodDocument(Parse(content))
  {
    hide GoodDocument, ParseLines, Clean, SplitContent, Numbered;
    SplitContentIsClean(content);
    NumberedIsClean(SplitContent(content), 1);
    ParsedLinesGood(Numbered(SplitContent(content), 1));
  }

  /** Rendering is a normal form of any content whatsoever. */
  lemma RenderIsNormalForm(content: string)
    ensures Render(Parse(Render(Parse(content)))) == Render(Parse(content))
  {
    hide Render, Parse, Neat, GoodDocument;
    var d := Parse(content);
    ParsedIsGood(content);
    ParseRender(d);
    RenderSeesNormalForm(d);
    RenderSeesNormalForm(Parse(Render(d)));
  }
}
