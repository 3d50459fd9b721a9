/** The changelog as a document: the parser and the printer. */
module ChangelogDoc {
  import opened Prelude
  import opened ChangelogText

  datatype Line = Line(text: string, number: nat)
  datatype Subsection = Subsection(title: string, lines: seq<Line>)
  datatype Section = Section(heading: string, title: string, leading: seq<Line>, subs: seq<Subsection>)
  datatype Document = Document(prefix: seq<Line>, sections: seq<Section>)

  function Texts(lines: seq<Line>): (r: seq<string>)
    ensures |r| == |lines| && forall i :: 0 <= i < |r| ==> r[i] == lines[i].text
  {
    if lines == [] then [] else [lines[0].text] + Texts(lines[1..])
  }

  lemma NoTexts()
    ensures Texts([]) == []
  {
  }

  function Synthetic(texts: seq<string>): (r: seq<Line>)
    ensures |r| == |texts| && forall i :: 0 <= i < |r| ==> r[i] == Line(texts[i], 0)
  {
    if texts == [] then [] else [Line(texts[0], 0)] + Synthetic(texts[1..])
  }

  function Numbered(texts: seq<string>, first: nat): (r: seq<Line>)
    ensures |r| == |texts| && forall i :: 0 <= i < |r| ==> r[i] == Line(texts[i], first + i)
  {
    if texts == [] then [] else [Line(texts[0], first)] + Numbered(texts[1..], first + 1)
  }

  // ---------------------------------------------------------------- cutting lines at headings

  /** Where lines are cut: at release headings, at subsection headings, at list items. */
  datatype Level = Release | Sub | Bullet

  predicate Heads(at: Level, text: string) {
    match at
    case Release => IsReleaseHeading(text)
    case Sub => IsSubsectionHeading(text)
    case Bullet => IsListItem(text)
  }

  datatype Group = Group(head: Line, body: seq<Line>)
  datatype Groups = Groups(lead: seq<Line>, groups: seq<Group>)

  /** The lines before the first heading, and each heading with the lines up to the next one. */
  function Cut(lines: seq<Line>, at: Level): Groups {
    if lines == [] then Groups([], [])
    else
      var rest := Cut(lines[1..], at);
      if Heads(at, lines[0].text) then Groups([], [Group(lines[0], rest.lead)] + rest.groups)
      else Groups([lines[0]] + rest.lead, rest.groups)
  }

  function GlueAll(gs: seq<Group>): seq<Line> {
    if gs == [] then [] else [gs[0].head] + gs[0].body + GlueAll(gs[1..])
  }

  function Glue(g: Groups): seq<Line> {
    g.lead + GlueAll(g.groups)
  }

  predicate NoHeads(lines: seq<Line>, at: Level) {
    forall l :: l in lines ==> !Heads(at, l.text)
  }

  predicate IsCut(g: Groups, at: Level) {
    && NoHeads(g.lead, at)
    && forall i :: 0 <= i < |g.groups| ==> Heads(at, g.groups[i].head.text) && NoHeads(g.groups[i].body, at)
  }

  lemma CutStep(lines: seq<Line>, at: Level)
    requires lines != []
    ensures var rest := Cut(lines[1..], at);
      Cut(lines, at) ==
        if Heads(at, lines[0].text) then Groups([], [Group(lines[0], rest.lead)] + rest.groups)
        else Groups([lines[0]] + rest.lead, rest.groups)
  {
    hide Heads;
  }

  lemma {:induction false} CutIsCut(lines: seq<Line>, at: Level)
    ensures IsCut(Cut(lines, at), at)
  {
    hide Heads;
    if lines != [] {
      hide Cut;
      CutStep(lines, at);
      CutIsCut(lines[1..], at);
    }
  }

  lemma {:induction false} CutLosesNothing(lines: seq<Line>, at: Level)
    ensures Glue(Cut(lines, at)) == lines
  {
    hide Heads;
    if lines != [] {
      hide Cut;
      CutStep(lines, at);
      CutLosesNothing(lines[1..], at);
      var rest := Cut(lines[1..], at);
      assert lines == [lines[0]] + (rest.lead + GlueAll(rest.groups));
      ConcatAssociative([lines[0]], rest.lead, GlueAll(rest.groups));
      if Heads(at, lines[0].text) {
        var gs := [Group(lines[0], rest.lead)] + rest.groups;
        assert gs[1..] == rest.groups;
        assert [] + GlueAll(gs) == GlueAll(gs);
      }
    }
  }

  lemma GlueCut(lines: seq<Line>, at: Level)
    ensures IsCut(Cut(lines, at), at) && Glue(Cut(lines, at)) == lines
  {
    CutIsCut(lines, at);
    CutLosesNothing(lines, at);
  }

  lemma {:induction false} CutLead(lead: seq<Line>, rest: seq<Line>, at: Level)
    requires NoHeads(lead, at)
    ensures Cut(lead + rest, at) == Groups(lead + Cut(rest, at).lead, Cut(rest, at).groups)
    decreases |lead|
  {
    hide Heads;
    if lead == [] {
      assert lead + rest == rest;
    } else {
      CutLead(lead[1..], rest, at);
      assert (lead + rest)[1..] == lead[1..] + rest;
      assert lead[0] in lead;
    }
  }

  /** Cutting undoes gluing, so a document text has one reading. */
  lemma {:induction false} CutGlue(g: Groups, at: Level)
    requires IsCut(g, at)
    ensures Cut(Glue(g), at) == g
    decreases |g.groups|
  {
    hide Heads;
    CutLead(g.lead, GlueAll(g.groups), at);
    if g.groups != [] {
      var next := Groups(g.groups[0].body, g.groups[1..]);
      CutGlue(next, at);
      var all := GlueAll(g.groups);
      assert all == [g.groups[0].head] + Glue(next);
      assert all[1..] == Glue(next);
      assert g.groups == [g.groups[0]] + g.groups[1..];
      assert Heads(at, all[0].text);
    }
  }

  // ---------------------------------------------------------------- parsing

  function ParseSubs(gs: seq<Group>): (r: seq<Subsection>)
    ensures |r| == |gs|
  {
    if gs == [] then []
    else
      var text := gs[0].head.text;
      [Subsection(if IsSubsectionHeading(text) then SubsectionTitle(text) else text, gs[0].body)] + ParseSubs(gs[1..])
  }

  function ParseSection(g: Group): Section {
    var c := Cut(g.body, Sub);
    var text := g.head.text;
    Section(text, if IsReleaseHeading(text) then ReleaseTitle(text) else text, c.lead, ParseSubs(c.groups))
  }

  function ParseSections(gs: seq<Group>): (r: seq<Section>)
    ensures |r| == |gs| && forall i :: 0 <= i < |r| ==> r[i] == ParseSection(gs[i])
  {
    if gs == [] then [] else [ParseSection(gs[0])] + ParseSections(gs[1..])
  }

  function ParseLines(lines: seq<Line>): Document {
    var c := Cut(lines, Release);
    Document(c.lead, ParseSections(c.groups))
  }

  function Parse(content: string): Document {
    ParseLines(Numbered(SplitContent(content), 1))
  }

  // ---------------------------------------------------------------- blank lines at the edges

  function DropStart(lines: seq<string>): seq<string> {
    if lines != [] && Blank(lines[0]) then DropStart(lines[1..]) else lines
  }

  function DropEnd(lines: seq<string>): seq<string> {
    if lines != [] && Blank(Last(lines)) then DropEnd(lines[..|lines| - 1]) else lines
  }

  function TrimBlank(lines: seq<string>): seq<string> {
    DropEnd(DropStart(lines))
  }

  function Body(lines: seq<Line>): seq<string> {
    TrimBlank(Texts(lines))
  }

  // ---------------------------------------------------------------- printing

  function RenderSub(s: Subsection): seq<string> {
    var b := Body(s.lines);
    if b == [] then [] else ["", TitleLine(s.title), ""] + b
  }

  function RenderSubs(subs: seq<Subsection>): seq<string> {
    if subs == [] then [] else RenderSub(subs[0]) + RenderSubs(subs[1..])
  }

  function RenderLeading(s: Section): seq<string> {
    var b := Body(s.leading);
    if b == [] then [] else [""] + b
  }

  function RenderSection(s: Section): seq<string> {
    [s.heading] + RenderLeading(s) + RenderSubs(s.subs) + [""]
  }

  function RenderSections(ss: seq<Section>): seq<string> {
    if ss == [] then [] else RenderSection(ss[0]) + RenderSections(ss[1..])
  }

  function RenderPrefix(lines: seq<Line>): seq<string> {
    var b := Body(lines);
    if b == [] then [] else b + [""]
  }

  function RenderLines(d: Document): seq<string> {
    RenderPrefix(d.prefix) + RenderSections(d.sections)
  }

  function PopEmpty(lines: seq<string>): (r: seq<string>)
    ensures r <= lines
  {
    if lines != [] && Last(lines) == "" then PopEmpty(lines[..|lines| - 1]) else lines
  }

  function Render(d: Document): string {
    Join(PopEmpty(RenderLines(d))) + "\n"
  }

  // ---------------------------------------------------------------- the loops

  method NextHead(lines: seq<Line>, from: nat, at: Level) returns (to: nat)
    requires from <= |lines|
    ensures from <= to <= |lines| && NoHeads(lines[from..to], at)
    ensures to < |lines| ==> Heads(at, lines[to].text)
  {
    hide Heads;
    to := from;
    while to < |lines| && !Heads(at, lines[to].text)
      invariant from <= to <= |lines| && NoHeads(lines[from..to], at)
    {
      assert lines[from..to + 1] == lines[from..to] + [lines[to]];
      to := to + 1;
    }
  }

  lemma RunOfLines(lines: seq<Line>, from: nat, to: nat, at: Level)
    requires from <= to <= |lines| && NoHeads(lines[from..to], at)
    requires to < |lines| ==> Heads(at, lines[to].text)
    ensures Cut(lines[from..], at) == Groups(lines[from..to], Cut(lines[to..], at).groups)
  {
    hide Heads;
    assert lines[from..] == lines[from..to] + lines[to..];
    CutLead(lines[from..to], lines[to..], at);
    if to < |lines| {
      CutStep(lines[to..], at);
    }
  }

  method CutLoop(lines: seq<Line>, at: Level) returns (lead: seq<Line>, groups: seq<Group>)
    ensures Groups(lead, groups) == Cut(lines, at)
  {
    hide Heads, Cut;
    var i := NextHead(lines, 0, at);
    lead, groups := lines[..i], [];
    RunOfLines(lines, 0, i, at);
    assert lines[0..] == lines;
    while i < |lines|
      invariant 0 <= i <= |lines| && (i < |lines| ==> Heads(at, lines[i].text))
      invariant Cut(lines, at) == Groups(lead, groups + Cut(lines[i..], at).groups)
    {
      var end := NextHead(lines, i + 1, at);
      RunOfLines(lines, i + 1, end, at);
      CutStep(lines[i..], at);
      assert lines[i..][1..] == lines[i + 1..];
      ConcatAssociative(groups, [Group(lines[i], lines[i + 1..end])], Cut(lines[end..], at).groups);
      groups, i := groups + [Group(lines[i], lines[i + 1..end])], end;
    }
    CutEmpty(at);
    assert lines[i..] == [];
  }

  lemma CutEmpty(at: Level)
    ensures Cut([], at) == Groups([], [])
  {
  }

  lemma {:induction false} GlueSnoc(gs: seq<Group>, g: Group)
    ensures GlueAll(gs + [g]) == GlueAll(gs) + [g.head] + g.body
  {
    if gs == [] {
      assert [g][1..] == [];
    } else {
      GlueSnoc(gs[1..], g);
      assert (gs + [g])[1..] == gs[1..] + [g];
    }
  }

  method ParseReleaseSection(group: Group) returns (s: Section)
    ensures s == ParseSection(group)
  {
    hide Cut, IsSubsectionHeading, SubsectionTitle, IsReleaseHeading, ReleaseTitle;
    var leading, groups := CutLoop(group.body, Sub);
    var subs: seq<Subsection> := [];
    for j := 0 to |groups|
      invariant |subs| == j && subs + ParseSubs(groups[j..]) == ParseSubs(groups)
    {
      var text := groups[j].head.text;
      assert groups[j..][1..] == groups[j + 1..];
      subs := subs + [Subsection(if IsSubsectionHeading(text) then SubsectionTitle(text) else text, groups[j].body)];
    }
    var text := group.head.text;
    return Section(text, if IsReleaseHeading(text) then ReleaseTitle(text) else text, leading, subs);
  }

  method ParseChangelog(content: string) returns (d: Document)
    ensures d == Parse(content)
  {
    hide Cut, ParseSection, SplitContent, Numbered;
    var prefix, groups := CutLoop(Numbered(SplitContent(content), 1), Release);
    var sections: seq<Section> := [];
    for i := 0 to |groups|
      invariant sections + ParseSections(groups[i..]) == ParseSections(groups)
    {
      assert groups[i..][1..] == groups[i + 1..];
      var s := ParseReleaseSection(groups[i]);
      sections := sections + [s];
    }
    return Document(prefix, sections);
  }

  method RenderOne(s: Section) returns (output: seq<string>)
    ensures output == RenderSection(s)
  {
    hide Body, TitleLine, RenderLeading, RenderSub;
    output := [s.heading] + RenderLeading(s);
    ghost var start := output;
    for j := 0 to |s.subs|
      invariant output + RenderSubs(s.subs[j..]) == start + RenderSubs(s.subs)
    {
      assert s.subs[j..][1..] == s.subs[j + 1..] && s.subs[j..][0] == s.subs[j];
      ConcatAssociative(output, RenderSub(s.subs[j]), RenderSubs(s.subs[j + 1..]));
      RenderSubIs(s.subs[j]);
      var lines := Body(s.subs[j].lines);
      if lines == [] {
        assert output + [] == output;
        continue;
      }
      output := output + (["", TitleLine(s.subs[j].title), ""] + lines);
    }
    assert output + [] == output;
    output := output + [""];
  }

  lemma RenderSubIs(s: Subsection)
    ensures RenderSub(s) == if Body(s.lines) == [] then [] else ["", TitleLine(s.title), ""] + Body(s.lines)
  {
  }

  method RenderChangelog(d: Document) returns (content: string)
    ensures content == Render(d)
  {
    hide PopEmpty, RenderPrefix, RenderSection;
    var output := RenderPrefix(d.prefix);
    for i := 0 to |d.sections|
      invariant output + RenderSections(d.sections[i..]) == RenderLines(d)
    {
      assert d.sections[i..][1..] == d.sections[i + 1..];
      var one := RenderOne(d.sections[i]);
      output := output + one;
    }
    assert output + [] == output == RenderLines(d);
    while output != [] && Last(output) == ""
      invariant PopEmpty(output) == PopEmpty(RenderLines(d))
    {
      PopStep(output);
      output := output[..|output| - 1];
    }
    PopStep(output);
    return Join(output) + "\n";
  }

  lemma PopStep(lines: seq<string>)
    ensures PopEmpty(lines) == if lines != [] && Last(lines) == "" then PopEmpty(lines[..|lines| - 1]) else lines
  {
  }
}
