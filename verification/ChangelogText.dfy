/** Lines, whitespace and the two kinds of heading of a changelog. */
module ChangelogText {
  import opened Prelude

  // ---------------------------------------------------------------- whitespace

  /** What `String.prototype.trim` and `\s` treat as white space. */
  const SPACES: set<char> := {
    ' ', '\t', '\n', '\r', '\U{000B}', '\U{000C}', '\U{00A0}', '\U{1680}', '\U{2000}', '\U{2001}', '\U{2002}',
    '\U{2003}', '\U{2004}', '\U{2005}', '\U{2006}', '\U{2007}', '\U{2008}', '\U{2009}', '\U{200A}', '\U{2028}',
    '\U{2029}', '\U{202F}', '\U{205F}', '\U{3000}', '\U{FEFF}'
  }

  predicate Space(c: char) {
    c in SPACES
  }

  function TrimStart(s: string): string {
    if s != "" && Space(s[0]) then TrimStart(s[1..]) else s
  }

  function TrimEnd(s: string): string {
    if s != "" && Space(Last(s)) then TrimEnd(s[..|s| - 1]) else s
  }

  lemma {:induction false} TrimStartFacts(s: string)
    ensures var t := TrimStart(s);
      |t| <= |s| && t == s[|s| - |t|..] && (t != "" ==> !Space(t[0]))
  {
    if s != "" && Space(s[0]) {
      TrimStartFacts(s[1..]);
    }
  }

  lemma {:induction false} TrimEndFacts(s: string)
    ensures var t := TrimEnd(s);
      t <= s && (t != "" ==> !Space(Last(t))) && (s != "" && !Space(s[0]) ==> t != "")
  {
    if s != "" && Space(Last(s)) {
      TrimEndFacts(s[..|s| - 1]);
    }
  }

  function Trim(s: string): string {
    TrimEnd(TrimStart(s))
  }

  predicate Blank(line: string) {
    Trim(line) == ""
  }

  // ---------------------------------------------------------------- lines

  /** `\r\n` and `\r` both become `\n`. */
  function Unix(s: string): string {
    if s == "" then ""
    else if s[0] != '\r' then [s[0]] + Unix(s[1..])
    else if |s| > 1 && s[1] == '\n' then "\n" + Unix(s[2..])
    else "\n" + Unix(s[1..])
  }

  function Split(s: string): (r: seq<string>)
    ensures r != []
  {
    if s == "" then [""]
    else
      var r := Split(s[1..]);
      if s[0] == '\n' then [""] + r else [[s[0]] + r[0]] + r[1..]
  }

  function SplitContent(content: string): seq<string> {
    var s := Unix(content);
    if s != "" && Last(s) == '\n' then Split(s[..|s| - 1]) else Split(s)
  }

  function Join(lines: seq<string>): string {
    if lines == [] then ""
    else if |lines| == 1 then lines[0]
    else lines[0] + "\n" + Join(lines[1..])
  }

  predicate Clean(line: string) {
    '\n' !in line && '\r' !in line
  }

  predicate AllClean(lines: seq<string>) {
    forall line :: line in lines ==> Clean(line)
  }

  lemma {:induction false} UnixSkips(a: string, rest: string)
    requires '\r' !in a
    ensures Unix(a + rest) == a + Unix(rest)
  {
    if a == "" {
      assert a + rest == rest;
    } else {
      UnixSkips(a[1..], rest);
      assert (a + rest)[1..] == a[1..] + rest && a == [a[0]] + a[1..];
    }
  }

  /** A line break is one, whether written `\n`, `\r` or `\r\n`; all other text stays. */
  lemma UnixBreaks(a: string, b: string)
    requires '\r' !in a
    ensures Unix(a + "\r\n" + b) == a + "\n" + Unix(b)
    ensures Unix(a + "\n" + b) == a + "\n" + Unix(b)
    ensures (b == "" || b[0] != '\n') ==> Unix(a + "\r" + b) == a + "\n" + Unix(b)
    ensures Unix(a) == a
  {
    BreakHere(b);
    hide Unix;
    BreakThere(a, "\r\n", b);
    BreakThere(a, "\n", b);
    BreakThere(a, "\r", b);
    BreakThere(a, "", "");
  }

  lemma BreakHere(b: string)
    ensures Unix("\r\n" + b) == Unix("\n" + b) == "\n" + Unix(b)
    ensures (b == "" || b[0] != '\n') ==> Unix("\r" + b) == "\n" + Unix(b)
    ensures Unix("") == ""
  {
    assert ("\r\n" + b)[2..] == b && ("\n" + b)[1..] == b && ("\r" + b)[1..] == b;
  }

  lemma BreakThere(a: string, br: string, b: string)
    requires '\r' !in a
    ensures Unix(a + br + b) == a + Unix(br + b)
    ensures br == b == "" ==> Unix(a) == a
  {
    BreakHere("");
    hide Unix;
    UnixSkips(a, br + b);
    assert a + br + b == a + (br + b);
    assert br == b == "" ==> a + (br + b) == a && br + b == "";
  }

  lemma {:induction false} UnixIsClean(s: string)
    ensures '\r' !in Unix(s)
  {
    if s != "" {
      if s[0] != '\r' {
        UnixIsClean(s[1..]);
      } else if |s| > 1 && s[1] == '\n' {
        UnixIsClean(s[2..]);
      } else {
        UnixIsClean(s[1..]);
      }
    }
  }

  lemma {:induction false} SplitIsClean(s: string)
    requires '\r' !in s
    ensures AllClean(Split(s))
  {
    if s != "" {
      SplitIsClean(s[1..]);
      var r := Split(s[1..]);
      assert Clean(r[0]);
    }
  }

  lemma SplitContentIsClean(content: string)
    ensures AllClean(SplitContent(content))
  {
    var s := Unix(content);
    UnixIsClean(content);
    SplitIsClean(s);
    if s != "" {
      SplitIsClean(s[..|s| - 1]);
    }
  }

  lemma {:induction false} SplitLine(line: string, s: string)
    requires '\n' !in line
    ensures Split(line + "\n" + s) == [line] + Split(s)
  {
    if line == "" {
      assert (line + "\n" + s)[1..] == s;
    } else {
      SplitLine(line[1..], s);
      assert (line + "\n" + s)[1..] == line[1..] + "\n" + s;
      assert line[0] != '\n' && [line[0]] + line[1..] == line;
    }
  }

  lemma {:induction false} SplitOneLine(line: string)
    requires '\n' !in line
    ensures Split(line) == [line]
  {
    if line != "" {
      SplitOneLine(line[1..]);
      assert line[0] != '\n' && [line[0]] + line[1..] == line;
    }
  }

  lemma {:induction false} SplitJoined(lines: seq<string>)
    requires lines != [] && forall line :: line in lines ==> '\n' !in line
    ensures Split(Join(lines)) == lines
    decreases |lines|
  {
    assert '\n' !in lines[0];
    if |lines| == 1 {
      SplitOneLine(lines[0]);
    } else {
      assert forall line :: line in lines[1..] ==> line in lines;
      SplitJoined(lines[1..]);
      SplitLine(lines[0], Join(lines[1..]));
      assert lines == [lines[0]] + lines[1..];
    }
  }

  lemma {:induction false} JoinIsClean(lines: seq<string>)
    requires AllClean(lines)
    ensures '\r' !in Join(lines)
    decreases |lines|
  {
    if |lines| > 1 {
      assert Clean(lines[0]) && forall line :: line in lines[1..] ==> line in lines;
      JoinIsClean(lines[1..]);
    } else if lines != [] {
      assert Clean(lines[0]);
    }
  }

  /** Text written as terminated lines splits back into those lines. */
  lemma SplitRendered(lines: seq<string>)
    requires AllClean(lines)
    ensures SplitContent(Join(lines) + "\n") == if lines == [] then [""] else lines
  {
    var s := Join(lines) + "\n";
    if lines != [] {
      SplitJoined(lines);
    }
    JoinIsClean(lines);
    UnixBreaks(s, "");
    assert s[..|s| - 1] == Join(lines);
  }

  lemma {:induction false} JoinEnds(lines: seq<string>)
    requires lines != [] && Last(lines) != ""
    ensures Join(lines) != "" && Last(Join(lines)) == Last(Last(lines))
    decreases |lines|
  {
    if |lines| > 1 {
      JoinEnds(lines[1..]);
    }
  }

  /** The last line need not be terminated. */
  lemma SplitUnterminated(lines: seq<string>)
    requires lines != [] && AllClean(lines) && Last(lines) != ""
    ensures SplitContent(Join(lines)) == lines
  {
    SplitJoined(lines);
    JoinIsClean(lines);
    UnixBreaks(Join(lines), "");
    JoinEnds(lines);
    assert Clean(Last(lines)) && Last(Last(lines)) in Last(lines);
  }

  // ---------------------------------------------------------------- headings

  function IndexOf(s: string, c: char): (i: nat)
    ensures i <= |s| && (i < |s| ==> s[i] == c) && c !in s[..i]
  {
    if s == "" || s[0] == c then 0 else 1 + IndexOf(s[1..], c)
  }

  predicate IsReleaseHeading(line: string) {
    "## [" <= line && 0 < IndexOf(line[4..], ']') < |line| - 4
  }

  function ReleaseTitle(line: string): string
    requires IsReleaseHeading(line)
  {
    line[4..][..IndexOf(line[4..], ']')]
  }

  predicate IsSubsectionHeading(line: string) {
    "###" <= line && |line| > 3 && Space(line[3]) && TrimStart(line[3..]) != ""
  }

  function SubsectionTitle(line: string): string
    requires IsSubsectionHeading(line)
  {
    Trim(TrimStart(line[3..]))
  }

  predicate IsListItem(line: string) {
    "- " <= TrimStart(line)
  }

  lemma HeadingsDiffer(line: string)
    ensures !(IsReleaseHeading(line) && IsSubsectionHeading(line))
    ensures IsReleaseHeading(line) || IsSubsectionHeading(line) ==> !Blank(line)
    ensures !IsReleaseHeading("") && !IsSubsectionHeading("") && Blank("")
    ensures IsListItem(line) ==> !Blank(line)
  {
    if "###" <= line {
      assert line[2] == '#';
    }
    TrimStartFacts(line);
    TrimEndFacts(TrimStart(line));
  }

  lemma EmptyIsClean()
    ensures Clean("")
  {
  }

  /** A title that a subsection heading can carry. */
  predicate GoodTitle(title: string) {
    title != "" && Trim(title) == title
  }

  function TitleLine(title: string): string {
    "### " + title
  }

  lemma TitleLineShape(title: string)
    ensures var line := TitleLine(title);
      |line| > 3 && "###" <= line && line[3] == ' ' && line[3..] == " " + title
  {
  }

  lemma TitleLineIsHeading(title: string)
    requires GoodTitle(title)
    ensures IsSubsectionHeading(TitleLine(title))
  {
    hide TrimStart, TrimEnd, Trim, Space, TitleLine;
    TitleLineShape(title);
    TrimmedIsTrimmed(title);
    TrimStartDropsSpace(title);
  }

  lemma TitleRoundTrip(title: string)
    requires GoodTitle(title)
    ensures IsSubsectionHeading(TitleLine(title)) && SubsectionTitle(TitleLine(title)) == title
  {
    hide TrimStart, TrimEnd, Trim, Space, TitleLine;
    TitleLineIsHeading(title);
    TitleLineShape(title);
    TrimmedIsTrimmed(title);
    TrimStartDropsSpace(title);
  }

  lemma TrimStartDropsSpace(s: string)
    ensures Space(' ') && TrimStart(" " + s) == TrimStart(s)
  {
    assert Space(' ');
    hide Space, TrimEnd;
    assert (" " + s)[1..] == s;
  }

  lemma TrimmedIsTrimmed(s: string)
    requires Trim(s) == s
    ensures TrimStart(s) == s
  {
    hide TrimStart, TrimEnd;
    TrimStartFacts(s);
    TrimEndFacts(TrimStart(s));
  }

  lemma SubsectionTitleIsGood(line: string)
    requires IsSubsectionHeading(line)
    ensures GoodTitle(SubsectionTitle(line))
    ensures forall c :: c in SubsectionTitle(line) ==> c in line
  {
    var rest := TrimStart(line[3..]);
    var title := TrimEnd(rest);
    TrimStartFacts(line[3..]);
    TrimEndFacts(rest);
    assert TrimStart(rest) == rest;
    assert title[0] == rest[0];
    assert TrimStart(title) == title && TrimEnd(title) == title;
  }
}
