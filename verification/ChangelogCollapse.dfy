/** Collapsing the oldest releases of a changelog to fit a byte budget. */
module ChangelogCollapse {
  import opened Prelude
  import opened ChangelogText
  import opened ChangelogDoc
  import opened ChangelogNormal
  import opened ChangelogTail

  /** Length of a character in UTF-8. */
  function Utf8(c: char): nat {
    if c < '\U{80}' then 1 else if c < '\U{800}' then 2 else if c < '\U{10000}' then 3 else 4
  }

  function Bytes(s: string): nat {
    if s == "" then 0 else Utf8(s[0]) + Bytes(s[1..])
  }

  lemma {:induction false} BytesAppend(a: string, b: string)
    ensures Bytes(a + b) == Bytes(a) + Bytes(b)
  {
    hide Utf8;
    if a == "" {
      assert a + b == b;
    } else {
      BytesAppend(a[1..], b);
      assert (a + b)[1..] == a[1..] + b;
    }
  }

  /** The bytes of the first `n` lines, each with its line break. */
  function LineBytes(lines: seq<string>, n: nat): nat
    requires n <= |lines|
  {
    if n == 0 then 0 else LineBytes(lines, n - 1) + Bytes(lines[n - 1]) + 1
  }

  lemma {:induction false} LineBytesAre(lines: seq<string>, n: nat)
    requires 0 < n <= |lines|
    ensures Bytes(Join(lines[..n]) + "\n") == LineBytes(lines, n)
  {
    assert Bytes("\n") == 1;
    assert lines[..1] == [lines[0]];
    assert Join(lines[..1]) == lines[0];
    hide Bytes, Join;
    BytesAppend(Join(lines[..n]), "\n");
    if n == 1 {
      assert LineBytes(lines, 1) == LineBytes(lines, 0) + Bytes(lines[0]) + 1;
    } else {
      LineBytesAre(lines, n - 1);
      assert lines[..n] == lines[..n - 1] + [lines[n - 1]];
      JoinSnoc(lines[..n - 1], lines[n - 1]);
      BytesAppend(Join(lines[..n - 1]) + "\n", lines[n - 1]);
    }
  }

  /** The lines below `n` that are release headings. */
  function HeadsBelow(lines: seq<string>, n: nat): (r: seq<nat>)
    requires n <= |lines|
    ensures forall i :: 0 <= i < |r| ==> r[i] < n && IsReleaseHeading(lines[r[i]])
    ensures forall i, j :: 0 <= i < j < |r| ==> r[i] < r[j]
  {
    if n == 0 then []
    else HeadsBelow(lines, n - 1) + if IsReleaseHeading(lines[n - 1]) then [n - 1] else []
  }

  /** What is kept when everything from line `h` on goes. */
  function Before(lines: seq<string>, h: nat): string
    requires h <= |lines|
  {
    Join(lines[..SolidEnd(lines, h)]) + "\n"
  }

  lemma HeadIsSolid(lines: seq<string>, h: nat, n: nat)
    requires h < n <= |lines| && IsReleaseHeading(lines[h])
    ensures SolidEnd(lines, n) > h
    ensures Bytes(Before(lines, n)) == LineBytes(lines, SolidEnd(lines, n))
  {
    hide Blank, IsReleaseHeading, Bytes, LineBytes, Join;
    HeadingsDiffer(lines[h]);
    LineBytesAre(lines, SolidEnd(lines, n));
  }

  method CollapseTail(content: string, archiveLink: string, maxBytes: int) returns (kept: string, collapsed: nat)
    ensures var lines := SplitContent(content);
      var heads := HeadsBelow(lines, |lines|);
      var footer := Bytes("\n" + archiveLink + "\n");
      if Bytes(content) + footer <= maxBytes || |heads| <= 2 then kept == content && collapsed == 0
      else
        var k := |heads| - collapsed;
        2 <= k < |heads| && kept == Before(lines, heads[k]) &&
        (k == 2 || Bytes(kept) + footer <= maxBytes) &&
        forall c :: k < c < |heads| ==> Bytes(Before(lines, heads[c])) + footer > maxBytes
  {
    hide Blank, IsReleaseHeading, Bytes, LineBytes, Join, SplitContent, Before, SolidEnd, HeadsBelow;
    var footer := Bytes("\n" + archiveLink + "\n");
    if Bytes(content) + footer <= maxBytes {
      return content, 0;
    }
    var lines := SplitContent(content);
    var heads := FindHeads(lines);
    if |heads| <= 2 {
      return content, 0;
    }
    var cumulative := Accumulate(lines);
    var k := 2;
    var candidate := |heads| - 1;
    while candidate >= 2
      invariant 1 <= candidate < |heads| && k == 2
      invariant forall i :: 0 <= i <= |lines| ==> cumulative[i] == LineBytes(lines, i)
      invariant forall c :: candidate < c < |heads| ==> Bytes(Before(lines, heads[c])) + footer > maxBytes
    {
      HeadIsSolid(lines, heads[0], heads[candidate]);
      var end := BodyEnd(lines, heads[candidate]);
      if cumulative[end] <= maxBytes - footer {
        k := candidate;
        break;
      }
      candidate := candidate - 1;
    }
    HeadIsSolid(lines, heads[0], heads[k]);
    var end := BodyEnd(lines, heads[k]);
    return Join(lines[..end]) + "\n", |heads| - k;
  }

  method BodyEnd(lines: seq<string>, h: nat) returns (end: nat)
    requires h <= |lines|
    ensures end == SolidEnd(lines, h)
    ensures Before(lines, h) == Join(lines[..end]) + "\n"
  {
    hide Blank;
    end := h;
    while end > 0 && Blank(lines[end - 1])
      invariant end <= |lines| && SolidEnd(lines, end) == SolidEnd(lines, h)
    {
      end := end - 1;
    }
  }

  method FindHeads(lines: seq<string>) returns (heads: seq<nat>)
    ensures heads == HeadsBelow(lines, |lines|)
  {
    hide IsReleaseHeading;
    heads := [];
    for i := 0 to |lines|
      invariant heads == HeadsBelow(lines, i)
    {
      if IsReleaseHeading(lines[i]) {
        heads := heads + [i];
      }
    }
  }

  method Accumulate(lines: seq<string>) returns (cumulative: array<nat>)
    ensures fresh(cumulative) && cumulative.Length == |lines| + 1
    ensures forall i :: 0 <= i <= |lines| ==> cumulative[i] == LineBytes(lines, i)
  {
    hide Bytes;
    cumulative := new nat[|lines| + 1];
    cumulative[0] := 0;
    for i := 0 to |lines|
      invariant forall j :: 0 <= j <= i ==> cumulative[j] == LineBytes(lines, j)
    {
      cumulative[i + 1] := cumulative[i] + Bytes(lines[i]) + 1;
    }
  }

  // ---------------------------------------------------------------- what is left reads as the newest sections

  lemma {:induction false} HeadsCount(lines: seq<string>, n: nat)
    requires n <= |lines|
    ensures |Cut(Synthetic(lines[..n]), Release).groups| == |HeadsBelow(lines, n)|
  {
    assert Synthetic(lines[..0]) == [];
    CutEmpty(Release);
    hide IsReleaseHeading, Synthetic, Cut;
    if n > 0 {
      HeadsCount(lines, n - 1);
      var front, l := Synthetic(lines[..n - 1]), Line(lines[n - 1], 0);
      assert Synthetic(lines[..n]) == front + [l];
      if IsReleaseHeading(l.text) {
        CutJoin(front, [l], Release);
        assert Cut([l], Release) == Groups([], [Group(l, [])]) by { CutGlue(Groups([], [Group(l, [])]), Release); }
      } else {
        CutSnoc(front, l, Release);
      }
    }
  }

  /** Lines that start at a heading are cut on their own. */
  lemma {:induction false} CutJoin(a: seq<Line>, b: seq<Line>, at: Level)
    requires b != [] && Heads(at, b[0].text)
    ensures Cut(a + b, at) == Groups(Cut(a, at).lead, Cut(a, at).groups + Cut(b, at).groups)
  {
    hide Heads, Cut, GlueAll, NoHeads;
    CutStep(b, at);
    GlueCut(a, at);
    GlueCut(b, at);
    var x, y := Cut(a, at), Cut(b, at);
    GlueConcat(x.groups, y.groups);
    ConcatAssociative(x.lead, GlueAll(x.groups), GlueAll(y.groups));
    assert [] + GlueAll(y.groups) == GlueAll(y.groups);
    CutGlue(Groups(x.lead, x.groups + y.groups), at);
  }

  lemma {:induction false} GlueConcat(a: seq<Group>, b: seq<Group>)
    ensures GlueAll(a + b) == GlueAll(a) + GlueAll(b)
  {
    if a == [] {
      assert a + b == b;
    } else {
      GlueConcat(a[1..], b);
      assert (a + b)[1..] == a[1..] + b;
      ConcatAssociative([a[0].head] + a[0].body, GlueAll(a[1..]), GlueAll(b));
    }
  }

  lemma {:induction false} NeatSolid(lines: seq<string>, n: nat)
    requires n <= |lines|
    ensures Neat(ParseLines(Synthetic(lines[..SolidEnd(lines, n)]))) == Neat(ParseLines(Synthetic(lines[..n])))
  {
    hide Blank, Neat, ParseLines, Synthetic;
    if n > 0 && Blank(lines[n - 1]) {
      NeatSolid(lines, n - 1);
      NeatSnoc(Synthetic(lines[..n - 1]), Line(lines[n - 1], 0));
      assert Synthetic(lines[..n]) == Synthetic(lines[..n - 1]) + [Line(lines[n - 1], 0)];
    }
  }

  /** Reading lines and reading their numbered form gives one normal document. */
  lemma NeatOfContent(content: string)
    ensures Neat(Parse(content)) == Neat(ParseLines(Synthetic(SplitContent(content))))
  {
    hide Neat, ParseLines, SplitContent;
    var numbered := Numbered(SplitContent(content), 1);
    assert Erase(numbered) == Synthetic(SplitContent(content));
    NeatErased(numbered);
  }

  /** What is kept parses to the first `k` sections, untouched. */
  lemma CollapseKeepsSections(content: string, k: nat)
    requires var lines := SplitContent(content); 0 < k < |HeadsBelow(lines, |lines|)|
    ensures var lines := SplitContent(content);
      var whole, rest := Neat(Parse(content)), Neat(Parse(Before(lines, HeadsBelow(lines, |lines|)[k])));
      k < |whole.sections| && rest == Document(whole.prefix, whole.sections[..k])
  {
    hide SplitContent, HeadsBelow, Neat, Synthetic, ParseLines, SolidEnd;
    var lines := SplitContent(content);
    var heads := HeadsBelow(lines, |lines|);
    var h := heads[k];
    var end := SolidEnd(lines, h);
    SplitContentIsClean(content);
    HeadIsSolid(lines, heads[0], h);
    assert AllClean(lines[..end]);
    SplitRendered(lines[..end]);
    NeatOfContent(content);
    NeatOfContent(Before(lines, h));
    NeatSolid(lines, h);
    HeadsPrefix(lines, |lines|, k);
    PrefixReads(lines, h, k);
  }

  lemma {:induction false} HeadsPrefix(lines: seq<string>, n: nat, k: nat)
    requires n <= |lines| && k < |HeadsBelow(lines, n)|
    ensures HeadsBelow(lines, HeadsBelow(lines, n)[k]) == HeadsBelow(lines, n)[..k]
  {
    hide IsReleaseHeading;
    if k < |HeadsBelow(lines, n - 1)| {
      HeadsPrefix(lines, n - 1, k);
    } else {
      assert HeadsBelow(lines, n)[..k] == HeadsBelow(lines, n - 1);
    }
  }

  lemma PrefixReads(lines: seq<string>, h: nat, k: nat)
    requires h < |lines| && IsReleaseHeading(lines[h]) && |HeadsBelow(lines, h)| == k
    ensures var whole, rest := Neat(ParseLines(Synthetic(lines))), Neat(ParseLines(Synthetic(lines[..h])));
      k < |whole.sections| && rest == Document(whole.prefix, whole.sections[..k])
  {
    hide IsReleaseHeading, Synthetic, Cut, Body, NeatSection, ParseSection;
    var a, b := Synthetic(lines[..h]), Synthetic(lines[h..]);
    assert lines == lines[..h] + lines[h..];
    SyntheticAppend(lines[..h], lines[h..]);
    CutJoin(a, b, Release);
    HeadsCount(lines, h);
    GlueCut(b, Release);
    var y := Cut(b, Release);
    assert b[0] in b;
    assert y.groups == [] ==> b == y.lead;
    var x := Cut(a, Release);
    assert forall i :: 0 <= i < |x.groups| ==> (x.groups + y.groups)[i] == x.groups[i];
  }
}
