/** Merging the changelog sections of several versions into one release body. */
module ReleaseNotes {
  import opened Prelude
  import opened Decimal
  import opened ChangelogText

  // ---------------------------------------------------------------- version spans

  /** `end` is the line just past the body. */
  datatype Span = Span(version: string, start: nat, end: nat)

  predicate IsHeading(line: string) {
    "## [" <= line
  }

  /** `N.N.N]` at the start of `s`, without the bracket. */
  function LeadingVersion(s: string): Option<string> {
    var a := Digits(s);
    if a == 0 || !("." <= s[a..]) then None
    else
      var t := s[a + 1..];
      var b := Digits(t);
      if b == 0 || !("." <= t[b..]) then None
      else
        var u := t[b + 1..];
        var c := Digits(u);
        if c == 0 || !("]" <= u[c..]) then None else Some(s[..a + b + c + 2])
  }

  function VersionOf(line: string): Option<string> {
    if IsHeading(line) then LeadingVersion(line[4..]) else None
  }

  /** The first heading at or after line `i`, or the end. */
  function NextHeading(lines: seq<string>, i: nat): (n: nat)
    requires i <= |lines|
    ensures i <= n <= |lines| && (n < |lines| ==> IsHeading(lines[n]))
    ensures forall k :: i <= k < n ==> !IsHeading(lines[k])
    decreases |lines| - i
  {
    if i == |lines| || IsHeading(lines[i]) then i else NextHeading(lines, i + 1)
  }

  function SpansBelow(lines: seq<string>, n: nat): seq<Span>
    requires n <= |lines|
  {
    if n == 0 then []
    else
      SpansBelow(lines, n - 1) +
      if VersionOf(lines[n - 1]).Some? then [Span(VersionOf(lines[n - 1]).value, n - 1, NextHeading(lines, n))] else []
  }

  method HeadingLines(lines: seq<string>) returns (headings: seq<nat>)
    ensures forall i, j :: 0 <= i < j < |headings| ==> headings[i] < headings[j]
    ensures forall i :: 0 <= i < |headings| ==> headings[i] < |lines| && IsHeading(lines[headings[i]])
    ensures forall k :: 0 <= k < |lines| && IsHeading(lines[k]) ==> k in headings
  {
    headings := [];
    for k := 0 to |lines|
      invariant forall i, j :: 0 <= i < j < |headings| ==> headings[i] < headings[j]
      invariant forall i :: 0 <= i < |headings| ==> headings[i] < k && IsHeading(lines[headings[i]])
      invariant forall l :: 0 <= l < k && IsHeading(lines[l]) ==> l in headings
    {
      if IsHeading(lines[k]) {
        headings := headings + [k];
      }
    }
  }

  lemma {:induction false} NoSpansBetween(lines: seq<string>, lo: nat, hi: nat)
    requires lo <= hi <= |lines| && forall k :: lo <= k < hi ==> !IsHeading(lines[k])
    ensures SpansBelow(lines, hi) == SpansBelow(lines, lo)
    decreases hi
  {
    hide LeadingVersion;
    if lo < hi {
      NoSpansBetween(lines, lo, hi - 1);
    }
  }

  lemma NextIs(lines: seq<string>, lo: nat, hi: nat)
    requires lo <= hi <= |lines| && (hi < |lines| ==> IsHeading(lines[hi])) && forall k :: lo <= k < hi ==> !IsHeading(lines[k])
    ensures NextHeading(lines, lo) == hi
  {
    hide IsHeading;
  }

  lemma BetweenHeadings(lines: seq<string>, headings: seq<nat>, i: nat, end: nat)
    requires forall x, y :: 0 <= x < y < |headings| ==> headings[x] < headings[y]
    requires forall k :: 0 <= k < |lines| && IsHeading(lines[k]) ==> k in headings
    requires i <= |headings| && end <= |lines| && end == if i < |headings| then headings[i] else |lines|
    ensures forall k :: (if i == 0 then 0 else headings[i - 1] + 1) <= k < end ==> !IsHeading(lines[k])
  {
    hide IsHeading;
    forall j | 0 <= j < |headings|
      ensures headings[j] < (if i == 0 then 0 else headings[i - 1] + 1) || headings[j] >= end
    {
    }
    forall k | (if i == 0 then 0 else headings[i - 1] + 1) <= k < end
      ensures !IsHeading(lines[k])
    {
      assert IsHeading(lines[k]) ==> k in headings;
    }
  }

  /** Every version heading with the lines up to the next heading of any kind. */
  method EnumerateChangelogVersions(lines: seq<string>) returns (spans: seq<Span>)
    ensures spans == SpansBelow(lines, |lines|)
  {
    hide LeadingVersion, IsHeading;
    var headings := HeadingLines(lines);
    spans := [];
    BetweenHeadings(lines, headings, 0, if |headings| > 0 then headings[0] else |lines|);
    NoSpansBetween(lines, 0, if |headings| > 0 then headings[0] else |lines|);
    for i := 0 to |headings|
      invariant spans == SpansBelow(lines, if i < |headings| then headings[i] else |lines|)
    {
      var idx := headings[i];
      var next := if i + 1 < |headings| then headings[i + 1] else |lines|;
      BetweenHeadings(lines, headings, i + 1, next);
      NoSpansBetween(lines, idx + 1, next);
      NextIs(lines, idx + 1, next);
      var v := VersionOf(lines[idx]);
      if v.Some? {
        spans := spans + [Span(v.value, idx, next)];
      }
    }
  }

  lemma {:induction false} SpanShape(lines: seq<string>, n: nat, i: nat)
    requires n <= |lines| && i < |SpansBelow(lines, n)|
    ensures var s := SpansBelow(lines, n)[i];
      s.start < n && VersionOf(lines[s.start]) == Some(s.version) && s.end == NextHeading(lines, s.start + 1)
  {
    hide VersionOf;
    if i < |SpansBelow(lines, n - 1)| {
      SpanShape(lines, n - 1, i);
    }
  }

  lemma HeadingStops(lines: seq<string>, i: nat, k: nat)
    requires i <= k < |lines| && IsHeading(lines[k])
    ensures NextHeading(lines, i) <= k
  {
    hide IsHeading;
  }

  /** Spans are in order, do not overlap, and reach exactly to the next heading. */
  lemma {:induction false} SpansAreOrdered(lines: seq<string>, n: nat, i: nat, j: nat)
    requires n <= |lines| && i < j < |SpansBelow(lines, n)|
    ensures SpansBelow(lines, n)[i].end <= SpansBelow(lines, n)[j].start
  {
    hide LeadingVersion, IsHeading;
    if j < |SpansBelow(lines, n - 1)| {
      SpansAreOrdered(lines, n - 1, i, j);
    } else {
      SpanShape(lines, n - 1, i);
      HeadingStops(lines, SpansBelow(lines, n)[i].start + 1, n - 1);
    }
  }

  /** Every version heading has its span. */
  lemma {:induction false} EveryVersionHasSpan(lines: seq<string>, n: nat, k: nat)
    requires k < n <= |lines| && VersionOf(lines[k]).Some?
    ensures Span(VersionOf(lines[k]).value, k, NextHeading(lines, k + 1)) in SpansBelow(lines, n)
  {
    hide VersionOf;
    if k < n - 1 {
      EveryVersionHasSpan(lines, n - 1, k);
    }
  }

  // ---------------------------------------------------------------- lines under categories

  datatype Entry = Entry(cat: string, line: string)

  /** What the source's `.` does not match. */
  predicate EndsLine(c: char) {
    c in "\n\r\U{2028}\U{2029}"
  }

  /** The text of a `### ` heading without trailing white space, if it is one line. */
  function CategoryOf(line: string): Option<string> {
    if !("### " <= line) || |line| == 4 then None
    else
      var cat := if TrimEnd(line[4..]) == "" then line[4..5] else TrimEnd(line[4..]);
      if exists c :: c in cat && EndsLine(c) then None else Some(cat)
  }

  /** The non-blank lines, each with the category it stands under; lines above the first category are dropped. */
  function EntriesOf(lines: seq<string>, cat: Option<string>): seq<Entry>
    decreases |lines|
  {
    if lines == [] then []
    else if CategoryOf(lines[0]).Some? then EntriesOf(lines[1..], CategoryOf(lines[0]))
    else (if cat.None? || Blank(lines[0]) then [] else [Entry(cat.value, lines[0])]) + EntriesOf(lines[1..], cat)
  }

  predicate Within(spans: seq<Span>, lines: seq<string>) {
    forall i :: 0 <= i < |spans| ==> spans[i].start < spans[i].end <= |lines|
  }

  function AllEntries(lines: seq<string>, spans: seq<Span>): seq<Entry>
    requires Within(spans, lines)
  {
    if spans == [] then []
    else EntriesOf(lines[spans[0].start + 1..spans[0].end], None) + AllEntries(lines, spans[1..])
  }

  predicate Seen(es: seq<Entry>, key: string) {
    exists j :: 0 <= j < |es| && Trim(es[j].line) == key
  }

  /** Only the first entry of every trimmed text. */
  function Dedup(es: seq<Entry>): seq<Entry> {
    if es == [] then []
    else
      var front := es[..|es| - 1];
      Dedup(front) + if Seen(front, Trim(Last(es).line)) then [] else [Last(es)]
  }

  function LinesOf(es: seq<Entry>, cat: string): seq<string> {
    if es == [] then []
    else LinesOf(es[..|es| - 1], cat) + if Last(es).cat == cat then [Last(es).line] else []
  }

  /** The bucket of a category: its first occurrences, in order. */
  function Bucket(es: seq<Entry>, cat: string): seq<string> {
    LinesOf(Dedup(es), cat)
  }

  function CountText(lines: seq<string>, key: string): nat {
    if lines == [] then 0 else CountText(lines[..|lines| - 1], key) + if Trim(Last(lines)) == key then 1 else 0
  }

  lemma DedupSnoc(es: seq<Entry>, e: Entry)
    ensures Dedup(es + [e]) == Dedup(es) + if Seen(es, Trim(e.line)) then [] else [e]
  {
    hide Trim;
    assert (es + [e])[..|es|] == es;
  }

  lemma LinesSnoc(es: seq<Entry>, e: Entry, cat: string)
    ensures LinesOf(es + [e], cat) == LinesOf(es, cat) + if e.cat == cat then [e.line] else []
  {
    assert (es + [e])[..|es|] == es;
  }

  lemma CountSnoc(lines: seq<string>, x: string, key: string)
    ensures CountText(lines + [x], key) == CountText(lines, key) + if Trim(x) == key then 1 else 0
  {
    hide Trim;
    assert (lines + [x])[..|lines|] == lines;
  }

  lemma BucketSnoc(es: seq<Entry>, e: Entry, cat: string)
    ensures Bucket(es + [e], cat) == Bucket(es, cat) + if e.cat == cat && !Seen(es, Trim(e.line)) then [e.line] else []
  {
    hide Dedup, LinesOf, Seen, Trim;
    DedupSnoc(es, e);
    if !Seen(es, Trim(e.line)) {
      LinesSnoc(Dedup(es), e, cat);
    } else {
      assert Dedup(es) + [] == Dedup(es);
    }
  }

  /** The first entry with a given text. */
  function FirstOf(es: seq<Entry>, key: string): (i: nat)
    ensures i <= |es| && (i < |es| ==> Trim(es[i].line) == key) && forall j :: 0 <= j < i ==> Trim(es[j].line) != key
  {
    if es == [] || Trim(es[0].line) == key then 0
    else
      var i := FirstOf(es[1..], key);
      assert forall j :: 0 < j < i + 1 ==> es[j] == es[1..][j - 1];
      i + 1
  }

  lemma FirstIffSeen(es: seq<Entry>, key: string)
    ensures FirstOf(es, key) < |es| <==> Seen(es, key)
  {
    hide Trim;
  }

  lemma FirstSnoc(es: seq<Entry>, e: Entry, key: string)
    ensures FirstOf(es + [e], key) ==
      if FirstOf(es, key) < |es| then FirstOf(es, key) else if Trim(e.line) == key then |es| else |es| + 1
  {
    hide Trim, FirstOf;
    var all := es + [e];
    var i, j := FirstOf(es, key), FirstOf(all, key);
    assert all[|es|] == e;
    assert forall k :: 0 <= k < |es| ==> all[k] == es[k];
  }

  lemma NothingKept(cat: string, key: string)
    ensures Bucket([], cat) == [] && CountText([], key) == 0
  {
  }

  /** Every text that occurs is kept exactly once, under the category of its first occurrence and in that wording. */
  lemma {:induction false} KeptOnce(es: seq<Entry>, key: string, cat: string)
    ensures var first := FirstOf(es, key);
      CountText(Bucket(es, cat), key) == (if first < |es| && es[first].cat == cat then 1 else 0) &&
      (first < |es| && es[first].cat == cat ==> es[first].line in Bucket(es, cat))
  {
    hide Bucket, CountText, Trim, FirstOf, LinesOf;
    if es == [] {
      NothingKept(cat, key);
    } else {
      var front, e := es[..|es| - 1], Last(es);
      assert es == front + [e];
      KeptOnce(front, key, cat);
      BucketSnoc(front, e, cat);
      CountSnoc(Bucket(front, cat), e.line, key);
      FirstSnoc(front, e, key);
      FirstIffSeen(front, key);
      hide Seen;
      assert Bucket(front, cat) + [] == Bucket(front, cat);
      assert forall k :: 0 <= k < |front| ==> es[k] == front[k];
    }
  }

  /** Nothing else is kept. */
  lemma {:induction false} OnlyEntriesKept(es: seq<Entry>, cat: string, line: string)
    requires line in Bucket(es, cat)
    ensures Entry(cat, line) in es
  {
    hide Bucket, Trim, LinesOf;
    if es == [] {
      NothingKept(cat, "");
    } else {
      var front, e := es[..|es| - 1], Last(es);
      assert es == front + [e];
      BucketSnoc(front, e, cat);
      if line in Bucket(front, cat) {
        OnlyEntriesKept(front, cat, line);
      }
    }
  }
}
