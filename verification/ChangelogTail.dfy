/** The archive footer, and collapsing the oldest releases to a byte budget. */
module ChangelogTail {
  import opened Prelude
  import opened ChangelogText
  import opened ChangelogDoc
  import opened ChangelogNormal

  // ---------------------------------------------------------------- the footer

  function LinkStart(): string {
    "Older entries are archived in ["
  }

  predicate Hex(c: char) {
    '0' <= c <= '9' || 'a' <= c <= 'f'
  }

  /** The part up to the last `@`, or all of it. */
  function LastAt(s: string): (i: int)
    ensures -1 <= i < |s| && (i >= 0 ==> s[i] == '@') && '@' !in s[i + 1..]
  {
    if s == "" then -1
    else if Last(s) == '@' then |s| - 1
    else
      var i := LastAt(s[..|s| - 1]);
      assert s[i + 1..] == s[..|s| - 1][i + 1..] + [Last(s)];
      i
  }

  predicate IsReference(s: string) {
    var at := LastAt(s);
    at > 0 && 7 <= |s| - at - 1 <= 40 && forall i :: at < i < |s| ==> Hex(s[i])
  }

  predicate IsTarget(s: string) {
    "(https://" <= s &&
    var close := IndexOf(s[9..], ')');
    close > 0 && s[9..][close..] == ")."
  }

  predicate IsArchiveLink(line: string) {
    LinkStart() <= line &&
    var rest := line[|LinkStart()|..];
    var close := IndexOf(rest, ']');
    close < |rest| && IsReference(rest[..close]) && IsTarget(rest[close + 1..])
  }

  function ArchiveLinkLine(repo: string, path: string, commit: string): string {
    LinkStart() + (path + "@" + (if |commit| > 12 then commit[..12] else commit)) + "]" +
    ("(https://" + ("github.com/" + repo + "/blob/" + commit + "/" + path) + ").")
  }

  lemma {:induction false} IndexOfAfter(s: string, c: char, rest: string)
    requires c !in s
    ensures IndexOf(s + [c] + rest, c) == |s|
  {
    var t := s + [c] + rest;
    if s == "" {
      assert t[0] == c;
    } else {
      IndexOfAfter(s[1..], c, rest);
      assert t[1..] == s[1..] + [c] + rest;
      assert s[0] in s;
    }
  }

  lemma {:induction false} LastAtAfter(path: string, commit: string)
    requires '@' !in commit
    ensures LastAt(path + "@" + commit) == |path|
    decreases |commit|
  {
    var s := path + "@" + commit;
    if commit != "" {
      var front := commit[..|commit| - 1];
      LastAtAfter(path, front);
      assert Last(commit) in commit;
      assert Last(s) == Last(commit) && s[..|s| - 1] == path + "@" + front;
    }
  }

  lemma ReferenceIs(path: string, commit: string)
    requires path != "" && 7 <= |commit| <= 40 && forall c :: c in commit ==> Hex(c)
    ensures IsReference(path + "@" + commit)
  {
    hide LastAt;
    LastAtAfter(path, commit);
    var s := path + "@" + commit;
    forall i | |path| < i < |s|
      ensures Hex(s[i])
    {
      assert s[i] == commit[i - |path| - 1];
    }
  }

  lemma TargetIs(url: string)
    requires url != "" && ')' !in url
    ensures IsTarget("(https://" + url + ").")
  {
    hide IndexOf;
    var s := "(https://" + url + ").";
    IndexOfAfter(url, ')', ".");
    assert s[9..] == url + [')'] + ".";
    assert s[9..][|url|..] == ").";
  }

  lemma DropPrefix(a: string, b: string)
    ensures a <= a + b && (a + b)[|a|..] == b
  {
  }

  lemma {:induction false} LinkParts(name: string, target: string)
    requires IsReference(name) && ']' !in name && IsTarget(target)
    ensures IsArchiveLink(LinkStart() + name + "]" + target)
  {
    hide IsReference, IsTarget, IndexOf, LinkStart;
    var rest := name + [']'] + target;
    DropPrefix(LinkStart(), rest);
    IndexOfAfter(name, ']', target);
    assert LinkStart() + name + "]" + target == LinkStart() + rest;
    assert rest[..|name|] == name && rest[|name| + 1..] == target;
  }

  /** The link this program writes is one it recognizes. */
  lemma {:induction false} WrittenLinkIsRecognized(repo: string, path: string, commit: string)
    requires path != "" && ']' !in path && ')' !in path && ')' !in repo
    requires |commit| >= 7 && forall c :: c in commit ==> Hex(c)
    ensures IsArchiveLink(ArchiveLinkLine(repo, path, commit))
  {
    var short := if |commit| > 12 then commit[..12] else commit;
    var name, url := path + "@" + short, "github.com/" + repo + "/blob/" + commit + "/" + path;
    ReferenceIs(path, short);
    TargetIs(url);
    LinkParts(name, "(https://" + url + ").");
  }

  datatype Footed = Footed(body: string, archiveLink: Option<string>)

  function SolidEnd(lines: seq<string>, n: nat): (e: nat)
    requires n <= |lines|
    ensures e <= n && (e > 0 ==> !Blank(lines[e - 1])) && forall i :: e <= i < n ==> Blank(lines[i])
  {
    if n > 0 && Blank(lines[n - 1]) then SolidEnd(lines, n - 1) else n
  }

  function SplitArchiveFooter(content: string): Footed {
    var lines := SplitContent(content);
    var end := SolidEnd(lines, |lines|);
    if end == 0 || !IsArchiveLink(lines[end - 1]) then Footed(content, None)
    else Footed(Join(lines[..SolidEnd(lines, end - 1)]) + "\n", Some(lines[end - 1]))
  }

  method SplitFooter(content: string) returns (r: Footed)
    ensures r == SplitArchiveFooter(content)
  {
    hide IsArchiveLink, SplitContent, Join, Blank;
    var lines := SplitContent(content);
    var end := |lines|;
    while end > 0 && Blank(lines[end - 1])
      invariant 0 <= end <= |lines| && SolidEnd(lines, end) == SolidEnd(lines, |lines|)
    {
      end := end - 1;
    }
    if end == 0 || !IsArchiveLink(lines[end - 1]) {
      return Footed(content, None);
    }
    var bodyEnd := end - 1;
    while bodyEnd > 0 && Blank(lines[bodyEnd - 1])
      invariant 0 <= bodyEnd <= |lines| && SolidEnd(lines, bodyEnd) == SolidEnd(lines, end - 1)
    {
      bodyEnd := bodyEnd - 1;
    }
    return Footed(Join(lines[..bodyEnd]) + "\n", Some(lines[end - 1]));
  }

  function AppendArchiveFooter(body: string, archiveLink: string): string {
    body + "\n" + archiveLink + "\n"
  }

  predicate Solid(lines: seq<string>) {
    lines == [] || !Blank(Last(lines))
  }

  lemma {:induction false} JoinSnoc(lines: seq<string>, x: string)
    requires lines != []
    ensures Join(lines + [x]) == Join(lines) + "\n" + x
    decreases |lines|
  {
    if |lines| == 1 {
      assert (lines + [x])[1..] == [x];
    } else {
      JoinSnoc(lines[1..], x);
      assert (lines + [x])[1..] == lines[1..] + [x];
    }
  }

  lemma LinkLooks(link: string)
    requires IsArchiveLink(link)
    ensures !Blank(link)
  {
    assert link[0] == LinkStart()[0] == 'O';
    assert !Space('O');
    hide Space, IsArchiveLink;
    TrimEndFacts(link);
    assert TrimStart(link) == link;
  }

  lemma JoinFooter(base: seq<string>, link: string)
    requires base != []
    ensures Join(base + [""] + [link]) + "\n" == AppendArchiveFooter(Join(base) + "\n", link)
  {
    hide Join;
    JoinSnoc(base, "");
    JoinSnoc(base + [""], link);
    assert Join(base) + "\n" + "" == Join(base) + "\n";
  }

  lemma AppendedLines(lines: seq<string>, link: string)
    requires AllClean(lines) && Clean(link)
    ensures SplitContent(AppendArchiveFooter(Join(lines) + "\n", link)) ==
      (if lines == [] then [""] else lines) + [""] + [link]
  {
    assert Clean("");
    var base := if lines == [] then [""] else lines;
    assert Join(base) == Join(lines);
    hide Clean, SplitContent, Join, AppendArchiveFooter;
    JoinFooter(base, link);
    assert AllClean(base + [""] + [link]);
    SplitRendered(base + [""] + [link]);
  }

  /** Splitting takes off exactly the footer that was appended to printed lines. */
  lemma SplitUndoesAppend(lines: seq<string>, link: string)
    requires AllClean(lines) && Solid(lines) && Clean(link) && IsArchiveLink(link)
    ensures SplitArchiveFooter(AppendArchiveFooter(Join(lines) + "\n", link)) == Footed(Join(lines) + "\n", Some(link))
  {
    hide IsArchiveLink, Blank, SplitContent, Clean, AllClean, SolidEnd, AppendArchiveFooter, Join, Solid;
    AppendedLines(lines, link);
    var all := (if lines == [] then [""] else lines) + [""] + [link];
    FooterEnds(lines, link);
    assert all[..|lines|] == lines;
  }

  /** Above the link everything down to the last solid line is kept. */
  lemma FooterEnds(lines: seq<string>, link: string)
    requires Solid(lines) && IsArchiveLink(link)
    ensures var base := if lines == [] then [""] else lines;
      var all := base + [""] + [link];
      SolidEnd(all, |base| + 2) == |base| + 2 && SolidEnd(all, |base| + 1) == |lines|
  {
    hide Blank, SolidEnd, IsArchiveLink;
    LinkLooks(link);
    EmptyIsBlank();
    var base := if lines == [] then [""] else lines;
    var all := base + [""] + [link];
    SolidEndIs(all, |base| + 2, |base| + 2);
    SolidEndIs(all, |base| + 1, |lines|);
  }

  lemma EmptyIsBlank()
    ensures Blank("")
  {
  }

  lemma {:induction false} SolidEndIs(lines: seq<string>, n: nat, e: nat)
    requires e <= n <= |lines| && (e > 0 ==> !Blank(lines[e - 1])) && forall i :: e <= i < n ==> Blank(lines[i])
    ensures SolidEnd(lines, n) == e
  {
    hide Blank;
    if n > e {
      SolidEndIs(lines, n - 1, e);
    }
  }

  // ---------------------------------------------------------------- printed text ends in a solid line

  lemma {:induction false} RenderedSectionsEnd(ss: seq<Section>)
    requires ss != [] && forall i :: 0 <= i < |ss| ==> GoodSection(ss[i])
    ensures var r := RenderSections(ss);
      |r| >= 2 && Last(r) == "" && !Blank(r[|r| - 2])
    decreases |ss|
  {
    hide Blank, Body, TitleLine, GoodSection, RenderSection;
    if |ss| == 1 {
      RenderedSectionEnds(ss[0]);
      assert RenderSections(ss) == RenderSection(ss[0]) + [];
    } else {
      assert forall i :: 0 <= i < |ss[1..]| ==> ss[1..][i] == ss[i + 1];
      RenderedSectionsEnd(ss[1..]);
    }
  }

  lemma {:induction false} RenderedSubsEnd(subs: seq<Subsection>)
    ensures Solid(RenderSubs(subs))
  {
    hide Blank, TitleLine, TrimBlank;
    if subs != [] {
      RenderedSubsEnd(subs[1..]);
      TrimFacts(Texts(subs[0].lines));
    }
  }

  lemma RenderedSectionEnds(s: Section)
    requires GoodSection(s)
    ensures var r := RenderSection(s);
      |r| >= 2 && Last(r) == "" && !Blank(r[|r| - 2])
  {
    hide Blank, TitleLine, TrimBlank, RenderSubs, IsReleaseHeading, IsSubsectionHeading, GoodSub;
    RenderedSubsEnd(s.subs);
    HeadingsDiffer(s.heading);
    TrimFacts(Texts(s.leading));
  }

  lemma PopOnce(r: seq<string>)
    requires |r| >= 2 && Last(r) == "" && !Blank(r[|r| - 2])
    ensures PopEmpty(r) == r[..|r| - 1] && Solid(PopEmpty(r))
  {
    hide Blank;
    HeadingsDiffer("");
    PopStep(r);
    PopStep(r[..|r| - 1]);
  }

  lemma RenderedIsSolid(d: Document)
    requires GoodDocument(d)
    ensures Solid(PopEmpty(RenderLines(d))) && AllClean(PopEmpty(RenderLines(d)))
  {
    assert RenderSections([]) == [];
    hide Blank, TrimBlank, GoodSection, IsReleaseHeading, Clean, RenderSections, PopEmpty, RenderPrefix;
    PrefixLines(d);
    RenderedSectionsClean(d.sections);
    var r := RenderLines(d);
    if d.sections != [] {
      RenderedSectionsEnd(d.sections);
      PopOnce(r);
    } else {
      if r == [] {
        PopStep(r);
      } else {
        PrefixEnds(d.prefix);
        PopOnce(r);
      }
    }
  }

  lemma PrefixEnds(prefix: seq<Line>)
    requires RenderPrefix(prefix) != []
    ensures var r := RenderPrefix(prefix);
      |r| >= 2 && Last(r) == "" && !Blank(r[|r| - 2])
  {
    hide Blank, TrimBlank;
    TrimFacts(Texts(prefix));
  }

  /** A footer appended to a rendered body comes off again, leaving that body. */
  lemma FooterRoundTrip(d: Document, link: string)
    requires GoodDocument(d) && Clean(link) && IsArchiveLink(link)
    ensures SplitArchiveFooter(AppendArchiveFooter(Render(d), link)) == Footed(Render(d), Some(link))
  {
    hide IsArchiveLink, Clean, Solid, RenderLines, PopEmpty, SplitArchiveFooter, AppendArchiveFooter;
    RenderedIsSolid(d);
    SplitUndoesAppend(PopEmpty(RenderLines(d)), link);
  }
}
