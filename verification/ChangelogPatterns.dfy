/** What the program's line patterns accept, said on the text of the line. */
module ChangelogPatterns {
  import opened Prelude
  import opened ChangelogText
  import opened ChangelogTail
  import ReleaseNotes

  // ---------------------------------------------------------------- white space

  predicate AllSpace(s: string) {
    forall c :: c in s ==> Space(c)
  }

  /** White space and line terminators of ECMAScript (sections 12.2 and 12.3 of ECMA-262). */
  lemma SpaceIff(c: char)
    ensures Space(c) <==>
      '\t' <= c <= '\r' || c == ' ' || c == '\U{A0}' || c == '\U{1680}' || '\U{2000}' <= c <= '\U{200A}' ||
      c == '\U{2028}' || c == '\U{2029}' || c == '\U{202F}' || c == '\U{205F}' || c == '\U{3000}' || c == '\U{FEFF}'
  {
  }

  lemma {:induction false} TrimStartIs(blank: string, rest: string)
    requires AllSpace(blank) && (rest == "" || !Space(rest[0]))
    ensures TrimStart(blank + rest) == rest
  {
    hide Space;
    if blank == "" {
      assert blank + rest == rest;
    } else {
      assert blank[0] in blank && (blank + rest)[1..] == blank[1..] + rest;
      TrimStartIs(blank[1..], rest);
    }
  }

  lemma {:induction false} TrimEndIs(rest: string, blank: string)
    requires AllSpace(blank) && (rest == "" || !Space(Last(rest)))
    ensures TrimEnd(rest + blank) == rest
    decreases |blank|
  {
    hide Space;
    if blank == "" {
      assert rest + blank == rest;
    } else {
      assert Last(blank) in blank && (rest + blank)[..|rest + blank| - 1] == rest + blank[..|blank| - 1];
      TrimEndIs(rest, blank[..|blank| - 1]);
    }
  }

  lemma {:induction false} TrimStartLeaves(s: string)
    ensures |TrimStart(s)| <= |s| && AllSpace(s[..|s| - |TrimStart(s)|]) && s == s[..|s| - |TrimStart(s)|] + TrimStart(s)
  {
    hide Space;
    if s != "" && Space(s[0]) {
      TrimStartLeaves(s[1..]);
      var k := |s| - |TrimStart(s)|;
      assert s[..k] == [s[0]] + s[1..][..k - 1];
    }
  }

  lemma {:induction false} TrimEndLeaves(s: string)
    ensures TrimEnd(s) <= s && AllSpace(s[|TrimEnd(s)|..])
    decreases |s|
  {
    hide Space;
    if s != "" && Space(Last(s)) {
      var front := s[..|s| - 1];
      TrimEndLeaves(front);
      assert s[|TrimEnd(s)|..] == front[|TrimEnd(front)|..] + [Last(s)];
    }
  }

  /** A line is blank if and only if it holds white space only. */
  lemma BlankIff(line: string)
    ensures Blank(line) <==> AllSpace(line)
  {
    hide Space;
    TrimStartLeaves(line);
    TrimStartFacts(line);
    TrimEndFacts(TrimStart(line));
    assert line[..|line|] == line && line + "" == line;
    if AllSpace(line) {
      TrimStartIs(line, "");
    }
  }

  // ---------------------------------------------------------------- list items and headings

  /** A list item is a dash and a blank, after any white space. */
  lemma ListItemIff(line: string)
    ensures IsListItem(line) <==> exists k: nat :: k <= |line| && AllSpace(line[..k]) && "- " <= line[k..]
  {
    TrimStartLeaves(line);
    if k: nat :| k <= |line| && AllSpace(line[..k]) && "- " <= line[k..] {
      assert line[k..][0] == '-' && !Space('-');
      TrimStartIs(line[..k], line[k..]);
      assert line[..k] + line[k..] == line;
    }
    if IsListItem(line) {
      var k: nat := |line| - |TrimStart(line)|;
      assert line[k..] == TrimStart(line);
      assert AllSpace(line[..k]) && "- " <= line[k..];
    }
  }

  predicate NamesRelease(line: string, title: string) {
    title != "" && ']' !in title && "## [" + title + "]" <= line
  }

  lemma {:induction false} IndexOfFirst(s: string, c: char, i: nat)
    requires i < |s| && s[i] == c && c !in s[..i]
    ensures IndexOf(s, c) == i
  {
    if i > 0 {
      assert s[0] == s[..i][0];
      assert s[1..][..i - 1] == s[..i][1..];
      IndexOfFirst(s[1..], c, i - 1);
    }
  }

  /** A release heading names its release between `## [` and the next closing bracket, and the name is not empty. */
  lemma ReleaseHeadingIff(line: string)
    ensures IsReleaseHeading(line) <==> exists title :: NamesRelease(line, title)
    ensures forall title :: NamesRelease(line, title) ==> IsReleaseHeading(line) && ReleaseTitle(line) == title
  {
    hide IndexOf;
    forall title | NamesRelease(line, title)
      ensures IsReleaseHeading(line) && ReleaseTitle(line) == title
    {
      var head := "## [" + title + "]";
      assert line[..|head|] == head;
      assert "## [" == head[..4] == line[..4];
      assert line[4..][..|title|] == title && line[4..][|title|] == ']' by {
        assert forall i :: 0 <= i < |title| ==> line[4..][i] == head[4 + i];
        assert line[4..][|title|] == head[4 + |title|];
      }
      IndexOfFirst(line[4..], ']', |title|);
    }
    if IsReleaseHeading(line) {
      var title := ReleaseTitle(line);
      var head := "## [" + title + "]";
      assert forall i :: 0 <= i < |head| ==> head[i] == line[i];
      assert head <= line;
      assert NamesRelease(line, title);
    }
  }

  ghost predicate NamesSubsection(line: string, gap: string, title: string, trail: string) {
    gap != "" && AllSpace(gap) && AllSpace(trail) && title != "" && !Space(title[0]) && !Space(Last(title)) &&
    line == "###" + (gap + (title + trail))
  }

  /** A subsection heading is `###`, white space, and a title that is read without the white space around it. */
  lemma SubsectionHeadingIff(line: string)
    ensures IsSubsectionHeading(line) <==> exists gap, title, trail :: NamesSubsection(line, gap, title, trail)
    ensures forall gap, title, trail :: NamesSubsection(line, gap, title, trail) ==>
      IsSubsectionHeading(line) && SubsectionTitle(line) == title
  {
    hide Space;
    forall gap, title, trail | NamesSubsection(line, gap, title, trail)
      ensures IsSubsectionHeading(line) && SubsectionTitle(line) == title
    {
      SubsectionReads(line, gap, title, trail);
    }
    if IsSubsectionHeading(line) {
      var gap, title, trail := SubsectionParts(line);
    }
  }

  lemma SubsectionReads(line: string, gap: string, title: string, trail: string)
    requires NamesSubsection(line, gap, title, trail)
    ensures IsSubsectionHeading(line) && SubsectionTitle(line) == title
  {
    hide Space;
    assert line[3..] == gap + (title + trail);
    assert line[3] == gap[0] && gap[0] in gap;
    TrimStartIs(gap, title + trail);
    TrimStartIs("", title + trail);
    assert "" + (title + trail) == title + trail;
    TrimEndIs(title, trail);
  }

  lemma SubsectionParts(line: string) returns (gap: string, title: string, trail: string)
    requires IsSubsectionHeading(line)
    ensures NamesSubsection(line, gap, title, trail)
  {
    hide Space;
    var rest := line[3..];
    TrimStartLeaves(rest);
    TrimStartFacts(rest);
    var tail := TrimStart(rest);
    TrimEndLeaves(tail);
    TrimEndFacts(tail);
    gap, title, trail := rest[..|rest| - |tail|], TrimEnd(tail), tail[|TrimEnd(tail)|..];
    assert tail == title + trail && rest == gap + tail;
    assert line == "###" + rest;
    assert gap == "" ==> rest == tail;
  }

  // ---------------------------------------------------------------- headings of the release notes

  /** Every line that starts with `## [` ends the section above it, whatever follows. */
  lemma NotesHeadingIff(line: string)
    ensures ReleaseNotes.IsHeading(line) <==> exists rest :: line == "## [" + rest
  {
    if ReleaseNotes.IsHeading(line) {
      assert line == "## [" + line[4..];
    }
  }

  predicate OneLine(s: string) {
    '\n' !in s && '\r' !in s && '\U{2028}' !in s && '\U{2029}' !in s
  }

  /** A category on one line, followed by white space only, and no longer than it must be. */
  ghost predicate NamesCategory(line: string, cat: string, trail: string) {
    cat != "" && OneLine(cat) && AllSpace(trail) && (|cat| > 1 ==> !Space(Last(cat))) && line == "### " + (cat + trail)
  }

  /** A category heading is `### ` and a category, read without the white space behind it. */
  lemma CategoryHeadingIff(line: string, cat: string)
    ensures ReleaseNotes.CategoryOf(line) == Some(cat) <==> exists trail :: NamesCategory(line, cat, trail)
  {
    hide Space, TrimEnd;
    OneLineIff(cat);
    if ReleaseNotes.CategoryOf(line) == Some(cat) {
      var trail := CategoryTrail(line, cat);
    }
    if trail :| NamesCategory(line, cat, trail) {
      CategoryReads(line, cat, trail);
    }
  }

  lemma OneLineIff(s: string)
    ensures OneLine(s) <==> !exists c :: c in s && ReleaseNotes.EndsLine(c)
  {
    assert ReleaseNotes.EndsLine('\n') && ReleaseNotes.EndsLine('\r') by {
      assert "\n\r\U{2028}\U{2029}"[0] == '\n' && "\n\r\U{2028}\U{2029}"[1] == '\r';
    }
    assert ReleaseNotes.EndsLine('\U{2028}') && ReleaseNotes.EndsLine('\U{2029}') by {
      assert "\n\r\U{2028}\U{2029}"[2] == '\U{2028}' && "\n\r\U{2028}\U{2029}"[3] == '\U{2029}';
    }
  }

  lemma CategoryTrail(line: string, cat: string) returns (trail: string)
    requires ReleaseNotes.CategoryOf(line) == Some(cat)
    ensures NamesCategory(line, cat, trail)
  {
    hide Space, TrimEnd, ReleaseNotes.EndsLine;
    OneLineIff(cat);
    var rest := line[4..];
    TrimEndLeaves(rest);
    assert forall c :: c in rest[1..] ==> c in rest;
    TrimEndLast(rest);
    trail := rest[|cat|..];
    assert line == "### " + rest && rest == cat + trail;
  }

  lemma TrimEndLast(s: string)
    ensures TrimEnd(s) != "" ==> !Space(Last(TrimEnd(s)))
  {
    TrimEndFacts(s);
  }

  lemma CategoryReads(line: string, cat: string, trail: string)
    requires NamesCategory(line, cat, trail)
    ensures ReleaseNotes.CategoryOf(line) == Some(cat)
  {
    OneLineIff(cat);
    TrimmedCategory(cat, trail);
    hide Space, TrimEnd, ReleaseNotes.EndsLine, AllSpace, OneLine;
    var rest := cat + trail;
    assert line[4..] == rest && "### " <= line;
    assert |cat| == 1 ==> line[4..5] == cat;
  }

  lemma TrimmedCategory(cat: string, trail: string)
    requires cat != "" && AllSpace(trail) && (|cat| > 1 ==> !Space(Last(cat)))
    ensures TrimEnd(cat + trail) == cat || (|cat| == 1 && TrimEnd(cat + trail) == "")
  {
    hide Space, TrimEnd;
    var rest := cat + trail;
    if Space(Last(cat)) {
      assert forall c :: c in rest ==> c == cat[0] || c in trail;
      TrimEndIs("", rest);
      assert "" + rest == rest;
    } else {
      TrimEndIs(cat, trail);
    }
  }

  // ---------------------------------------------------------------- the archive link

  /** `path@commit`, the commit abbreviated to seven hexadecimal digits at least. */
  ghost predicate NamesCommit(s: string, path: string, commit: string) {
    path != "" && 7 <= |commit| <= 40 && (forall c :: c in commit ==> c in "0123456789abcdef") && s == path + "@" + commit
  }

  lemma HexIff(c: char)
    ensures Hex(c) <==> c in "0123456789abcdef"
  {
    var digits := "0123456789abcdef";
    if '0' <= c <= '9' {
      assert digits[c as int - '0' as int] == c;
    } else if 'a' <= c <= 'f' {
      assert digits[10 + (c as int - 'a' as int)] == c;
    }
  }

  lemma ReferenceIff(s: string)
    ensures IsReference(s) <==> exists path, commit :: NamesCommit(s, path, commit)
  {
    forall c: char
      ensures Hex(c) <==> c in "0123456789abcdef"
    {
      HexIff(c);
    }
    hide Hex;
    if IsReference(s) {
      var at := LastAt(s);
      assert s == s[..at] + "@" + s[at + 1..];
      assert NamesCommit(s, s[..at], s[at + 1..]);
    }
    if path, commit :| NamesCommit(s, path, commit) {
      ReferenceIs(path, commit);
    }
  }

  ghost predicate LinksArchive(line: string, name: string, url: string) {
    IsReference(name) && ']' !in name && url != "" && ')' !in url &&
    line == "Older entries are archived in [" + (name + ("](https://" + (url + ").")))
  }

  /** The link is recognized in exactly this wording, with a reference between brackets and a URL behind it. */
  lemma ArchiveLinkIff(line: string)
    ensures IsArchiveLink(line) <==> exists name, url :: LinksArchive(line, name, url)
  {
    hide *;
    if IsArchiveLink(line) {
      var name, url := LinkPieces(line);
    }
    if name, url :| LinksArchive(line, name, url) {
      LinkReads(line, name, url);
    }
  }

  lemma LinkPieces(line: string) returns (name: string, url: string)
    requires IsArchiveLink(line)
    ensures LinksArchive(line, name, url)
  {
    hide IsReference, IndexOf, LinkStart, Space, IsTarget, Hex, LastAt;
    var rest := line[|LinkStart()|..];
    assert line == LinkStart() + rest;
    var target;
    name, target := NamePieces(rest);
    url := TargetPieces(target);
    assert "]" + ("(https://" + (url + ").")) == "](https://" + (url + ").");
    LinkWording();
  }

  lemma NamePieces(rest: string) returns (name: string, target: string)
    requires var close := IndexOf(rest, ']');
      close < |rest| && IsReference(rest[..close]) && IsTarget(rest[close + 1..])
    ensures IsReference(name) && ']' !in name && IsTarget(target) && rest == name + ("]" + target)
  {
    hide IsReference, IndexOf, IsTarget;
    var close := IndexOf(rest, ']');
    name, target := rest[..close], rest[close + 1..];
  }

  lemma LinkWording()
    ensures LinkStart() == "Older entries are archived in ["
  {
  }

  lemma TargetPieces(target: string) returns (url: string)
    requires IsTarget(target)
    ensures url != "" && ')' !in url && target == "(https://" + (url + ").")
  {
    hide IndexOf;
    var rest := target[9..];
    var close := IndexOf(rest, ')');
    url := rest[..close];
    assert rest == url + rest[close..];
    assert target == target[..9] + rest && target[..9] == "(https://";
  }

  lemma LinkReads(line: string, name: string, url: string)
    requires LinksArchive(line, name, url)
    ensures IsArchiveLink(line)
  {
    hide IsReference, IndexOf, LinkStart, IsTarget, IsArchiveLink;
    TargetIs(url);
    LinkParts(name, "(https://" + url + ").");
    LinkWording();
    assert "(https://" + (url + ").") == "(https://" + url + ").";
    assert "](https://" + (url + ").") == "]" + ("(https://" + (url + ")."));
    assert line == LinkStart() + name + "]" + ("(https://" + url + ").");
  }

  /** What the program writes: the commit is abbreviated in the text and spelled out in the URL. */
  lemma WrittenLink(repo: string, path: string, commit: string)
    requires |commit| >= 12
    ensures var blob := "github.com/" + repo + "/blob/" + commit + "/" + path;
      ArchiveLinkLine(repo, path, commit) ==
      "Older entries are archived in [" + (path + "@" + commit[..12] + ("](https://" + (blob + ").")))
  {
    hide LinkStart;
    LinkWording();
    var blob := "github.com/" + repo + "/blob/" + commit + "/" + path;
    var short := if |commit| > 12 then commit[..12] else commit;
    assert short == commit[..12];
    assert "]" + ("(https://" + blob + ").") == "](https://" + (blob + ").");
  }
}
