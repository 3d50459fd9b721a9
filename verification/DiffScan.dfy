/** Reading a unified diff, and the line numbers it promotes. */
module DiffScan {
  import opened Prelude
  import opened ChangelogText
  import opened Decimal
  import opened DiffPairing

  datatype HunkRef = HunkRef(path: string, index: int)
  datatype Added = Added(path: string, number: nat, text: string, hunk: HunkRef)
  datatype Removed = Removed(path: string, text: string, hunk: HunkRef)
  datatype Item = Item(path: string, text: string)

  datatype Scan = Scan(
    path: string, newLine: nat, hunk: int,
    added: seq<Added>, removed: seq<Removed>, released: set<HunkRef>)

  const START := Scan("", 0, -1, [], [], {})

  // ---------------------------------------------------------------- hunk headers

  /** The text after `N` or `N,M`. */
  function AfterRange(s: string): Option<string> {
    var d := Digits(s);
    if d == 0 then None
    else if "," <= s[d..] && Digits(s[d + 1..]) > 0 then Some(s[d + 1..][Digits(s[d + 1..])..])
    else Some(s[d..])
  }

  /** The new-file start of a hunk header. */
  function HunkStart(line: string): Option<nat> {
    if !("@@ -" <= line) then None
    else
      var range := AfterRange(line[4..]);
      if range.None? || !(" +" <= range.value) then None
      else
        var s := range.value[2..];
        var target := AfterRange(s);
        if target.None? || !(" @@" <= target.value) then None
        else
          (DigitsAre(s); Some(Value(s[..Digits(s)])))
  }

  // ---------------------------------------------------------------- the scan

  function ScanLine(s: Scan, raw: string): Scan {
    if "+++ b/" <= raw then s.(path := raw[6..])
    else if "diff --git " <= raw then s.(path := "", hunk := -1)
    else if HunkStart(raw).Some? then s.(newLine := HunkStart(raw).value, hunk := s.hunk + 1)
    else if s.path == "" || s.hunk < 0 || raw == "" then s
    else
      var text, ref := raw[1..], HunkRef(s.path, s.hunk);
      if raw[0] == '+' then
        s.(released := if "+## [" <= raw then s.released + {ref} else s.released,
           added := if IsListItem(text) then s.added + [Added(s.path, s.newLine, text, ref)] else s.added,
           newLine := s.newLine + 1)
      else if raw[0] == '-' then
        s.(removed := if IsListItem(text) then s.removed + [Removed(s.path, text, ref)] else s.removed)
      else if raw[0] == ' ' then s.(newLine := s.newLine + 1)
      else s
  }

  function ScanAll(s: Scan, raws: seq<string>): Scan
    decreases |raws|
  {
    if raws == [] then s else ScanAll(ScanLine(s, raws[0]), raws[1..])
  }

  /** Text outside the hunks of a file is ignored, however it starts; so is text before the first file. */
  lemma OutsideHunks(s: Scan, raw: string)
    requires s.hunk < 0 || s.path == ""
    requires !("+++ b/" <= raw) && !("diff --git " <= raw) && HunkStart(raw).None?
    ensures ScanLine(s, raw) == s
  {
  }

  function ItemsAdded(added: seq<Added>): (r: seq<Item>)
    ensures |r| == |added| && forall i :: 0 <= i < |r| ==> r[i] == Item(added[i].path, Trim(added[i].text))
  {
    seq(|added|, i requires 0 <= i < |added| => Item(added[i].path, Trim(added[i].text)))
  }

  function ItemsRemoved(removed: seq<Removed>): (r: seq<Item>)
    ensures |r| == |removed| && forall i :: 0 <= i < |r| ==> r[i] == Item(removed[i].path, Trim(removed[i].text))
  {
    seq(|removed|, i requires 0 <= i < |removed| => Item(removed[i].path, Trim(removed[i].text)))
  }

  function HunksAdding(added: seq<Added>): (r: seq<HunkRef>)
    ensures |r| == |added| && forall i :: 0 <= i < |r| ==> r[i] == added[i].hunk
  {
    seq(|added|, i requires 0 <= i < |added| => added[i].hunk)
  }

  function HunksRemoving(removed: seq<Removed>): (r: seq<HunkRef>)
    ensures |r| == |removed| && forall i :: 0 <= i < |r| ==> r[i] == removed[i].hunk
  {
    seq(|removed|, i requires 0 <= i < |removed| => removed[i].hunk)
  }

  /** The verdict on every added item: paired, and promoted. */
  ghost predicate Verdict(s: Scan, addedPaired: seq<bool>, removedPaired: seq<bool>, promoted: seq<bool>) {
    && |addedPaired| == |promoted| == |s.added| && |removedPaired| == |s.removed|
    && AdditionMarks(addedPaired, ItemsRemoved(s.removed), ItemsAdded(s.added))
    && RemovalMarks(removedPaired, ItemsRemoved(s.removed), ItemsAdded(s.added), |s.added|)
    && PromotionMarks(promoted, HunksAdding(s.added), addedPaired, s.released, HunksRemoving(s.removed), removedPaired)
  }

  ghost predicate Reports(lines: map<string, set<int>>, added: seq<Added>, promoted: seq<bool>, n: nat)
    requires n <= |added| == |promoted|
  {
    && (forall i :: 0 <= i < n && promoted[i] ==> added[i].path in lines && added[i].number in lines[added[i].path])
    && (forall p :: p in lines ==> lines[p] != {})
    && (forall p, l :: p in lines && l in lines[p] ==>
          exists i :: 0 <= i < n && promoted[i] && added[i].path == p && added[i].number == l)
  }

  method CollectLines(added: seq<Added>, promoted: seq<bool>) returns (lines: map<string, set<int>>)
    requires |added| == |promoted|
    ensures Reports(lines, added, promoted, |added|)
  {
    lines := map[];
    for i := 0 to |added|
      invariant Reports(lines, added, promoted, i)
    {
      if promoted[i] {
        var p := added[i].path;
        lines := lines[p := (if p in lines then lines[p] else {}) + {added[i].number}];
      }
    }
  }

  /** The added bullets to promote, per file, with the verdicts that justify them. */
  method CollectPromotable(raws: seq<string>)
    returns (lines: map<string, set<int>>, addedPaired: seq<bool>, removedPaired: seq<bool>, promoted: seq<bool>)
    ensures var s := ScanAll(START, raws);
      Verdict(s, addedPaired, removedPaired, promoted) && Reports(lines, s.added, promoted, |s.added|)
  {
    hide ScanLine, Trim, Reports, AdditionMarks, RemovalMarks, PromotionMarks;
    var s := START;
    for i := 0 to |raws|
      invariant ScanAll(s, raws[i..]) == ScanAll(START, raws)
    {
      assert raws[i..][1..] == raws[i + 1..];
      s := ScanLine(s, raws[i]);
    }
    addedPaired, removedPaired := Pair(ItemsAdded(s.added), ItemsRemoved(s.removed));
    promoted := Promote(HunksAdding(s.added), addedPaired, s.released, HunksRemoving(s.removed), removedPaired);
    lines := CollectLines(s.added, promoted);
  }

  // ---------------------------------------------------------------- well-formed diffs

  datatype DiffLine = Context(text: string) | Plus(text: string) | Minus(text: string) | NoNewline
  datatype Hunk = Hunk(oldStart: nat, oldCount: nat, newStart: nat, lines: seq<DiffLine>, section: string)
  datatype FileDiff = FileDiff(path: string, hunks: seq<Hunk>)

  lemma RangeThen(a: string, b: string, rest: string)
    requires a != "" && b != "" && (forall c :: c in a + b ==> Digit(c)) && rest != "" && !Digit(rest[0])
    ensures AfterRange(a + "," + b + rest) == Some(rest) && Digits(a + "," + b + rest) == |a|
  {
    hide Digits;
    var tail := "," + b + rest;
    assert a + "," + b + rest == a + tail;
    assert forall c :: c in a ==> c in a + b;
    assert forall c :: c in b ==> c in a + b;
    DigitsThen(a, tail);
    assert (a + tail)[|a|..] == tail && (a + tail)[|a| + 1..] == b + rest;
    DigitsThen(b, rest);
    assert (b + rest)[|b|..] == rest;
  }

  function NewSide(lines: seq<DiffLine>): seq<string> {
    if lines == [] then []
    else (if lines[0].Context? || lines[0].Plus? then [lines[0].text] else []) + NewSide(lines[1..])
  }

  /** A range of lines as git prints it: a count of one is left out. */
  function Range(start: nat, count: nat): string {
    if count == 1 then Dec(start) else Dec(start) + "," + Dec(count)
  }

  function HunkHeader(h: Hunk): string {
    "@@ -" + (Range(h.oldStart, h.oldCount) + (" +" + (Range(h.newStart, |NewSide(h.lines)|) + (" @@" + h.section))))
  }

  lemma RangeReads(start: nat, count: nat, rest: string)
    requires rest != "" && !Digit(rest[0]) && rest[0] != ','
    ensures var s := Range(start, count) + rest;
      AfterRange(s) == Some(rest) && Digits(s) == |Dec(start)| && s[..Digits(s)] == Dec(start)
  {
    hide Digits, Dec, Value;
    var a := Dec(start);
    ValueOfDec(start);
    ValueOfDec(count);
    if count == 1 {
      DigitsThen(a, rest);
      assert (a + rest)[|a|..] == rest;
    } else {
      RangeThen(a, Dec(count), rest);
      assert (a + "," + Dec(count) + rest)[..|a|] == a;
    }
  }

  lemma HeaderReads(h: Hunk)
    ensures HunkStart(HunkHeader(h)) == Some(h.newStart)
    ensures !("+++ b/" <= HunkHeader(h)) && !("diff --git " <= HunkHeader(h))
  {
    hide Digits, AfterRange, Dec, Value, Range;
    var last := " @@" + h.section;
    var target := Range(h.newStart, |NewSide(h.lines)|) + last;
    var middle := " +" + target;
    var range := Range(h.oldStart, h.oldCount) + middle;
    RangeReads(h.oldStart, h.oldCount, middle);
    RangeReads(h.newStart, |NewSide(h.lines)|, last);
    var line := HunkHeader(h);
    assert line == "@@ -" + range;
    assert line[0] == '@' && "+++ b/"[0] == '+' && "diff --git "[0] == 'd';
    assert line[4..] == range && middle[2..] == target;
    ValueOfDec(h.newStart);
  }

  /** The header git prints for one added line, with no lines of context. */
  lemma OneAddedLine(text: string)
    ensures HunkHeader(Hunk(8, 0, 9, [Plus(text)], "")) == "@@ -8,0 +9 @@"
  {
    assert [Plus(text)][1..] == [];
    assert NewSide([Plus(text)]) == [text];
    assert Dec(8) == "8" && Dec(0) == "0" && Dec(9) == "9";
  }

  function Raw(l: DiffLine): string {
    match l
    case Context(t) => " " + t
    case Plus(t) => "+" + t
    case Minus(t) => "-" + t
    case NoNewline => "\\ No newline at end of file"
  }

  function Raws(lines: seq<DiffLine>): seq<string> {
    if lines == [] then [] else [Raw(lines[0])] + Raws(lines[1..])
  }

  function PrintHunks(hunks: seq<Hunk>): seq<string> {
    if hunks == [] then [] else [HunkHeader(hunks[0])] + Raws(hunks[0].lines) + PrintHunks(hunks[1..])
  }

  function PrintFiles(files: seq<FileDiff>): seq<string> {
    if files == [] then []
    else
      var p := files[0].path;
      ["diff --git a/" + p + " b/" + p, "--- a/" + p, "+++ b/" + p] + PrintHunks(files[0].hunks) + PrintFiles(files[1..])
  }

  /** No added line reads like a file header. */
  predicate Plain(lines: seq<DiffLine>) {
    forall i :: 0 <= i < |lines| && lines[i].Plus? ==> !("++ b/" <= lines[i].text)
  }

  predicate GoodFiles(files: seq<FileDiff>) {
    forall i :: 0 <= i < |files| ==> files[i].path != "" && forall k :: 0 <= k < |files[i].hunks| ==> Plain(files[i].hunks[k].lines)
  }

  /** What a hunk contributes, with the line number in the new file of every added item. */
  function HunkAdds(ref: HunkRef, first: nat, lines: seq<DiffLine>): seq<Added>
    decreases |lines|
  {
    if lines == [] then []
    else if lines[0].Plus? then
      (if IsListItem(lines[0].text) then [Added(ref.path, first, lines[0].text, ref)] else []) +
      HunkAdds(ref, first + 1, lines[1..])
    else HunkAdds(ref, if lines[0].Context? then first + 1 else first, lines[1..])
  }

  function FileAdds(path: string, index: int, hunks: seq<Hunk>): seq<Added>
    decreases |hunks|
  {
    if hunks == [] then []
    else HunkAdds(HunkRef(path, index), hunks[0].newStart, hunks[0].lines) + FileAdds(path, index + 1, hunks[1..])
  }

  function AllAdds(files: seq<FileDiff>): seq<Added> {
    if files == [] then [] else FileAdds(files[0].path, 0, files[0].hunks) + AllAdds(files[1..])
  }

  function HunkRemovals(ref: HunkRef, lines: seq<DiffLine>): seq<Removed> {
    if lines == [] then []
    else
      (if lines[0].Minus? && IsListItem(lines[0].text) then [Removed(ref.path, lines[0].text, ref)] else []) +
      HunkRemovals(ref, lines[1..])
  }

  function FileRemovals(path: string, index: int, hunks: seq<Hunk>): seq<Removed>
    decreases |hunks|
  {
    if hunks == [] then []
    else HunkRemovals(HunkRef(path, index), hunks[0].lines) + FileRemovals(path, index + 1, hunks[1..])
  }

  function AllRemovals(files: seq<FileDiff>): seq<Removed> {
    if files == [] then [] else FileRemovals(files[0].path, 0, files[0].hunks) + AllRemovals(files[1..])
  }

  /** The hunk, if it adds a release heading. */
  function HunkReleases(ref: HunkRef, lines: seq<DiffLine>): set<HunkRef> {
    if lines == [] then {}
    else (if lines[0].Plus? && "## [" <= lines[0].text then {ref} else {}) + HunkReleases(ref, lines[1..])
  }

  function FileReleases(path: string, index: int, hunks: seq<Hunk>): set<HunkRef>
    decreases |hunks|
  {
    if hunks == [] then {}
    else HunkReleases(HunkRef(path, index), hunks[0].lines) + FileReleases(path, index + 1, hunks[1..])
  }

  function AllReleases(files: seq<FileDiff>): set<HunkRef> {
    if files == [] then {} else FileReleases(files[0].path, 0, files[0].hunks) + AllReleases(files[1..])
  }

  /** Every number a hunk reports is the new-file line of that very item. */
  lemma {:induction false} AddsAreNewLines(ref: HunkRef, first: nat, lines: seq<DiffLine>, a: Added)
    requires a in HunkAdds(ref, first, lines)
    ensures first <= a.number < first + |NewSide(lines)| && NewSide(lines)[a.number - first] == a.text
    ensures IsListItem(a.text) && a.hunk == ref && a.path == ref.path
    decreases |lines|
  {
    hide IsListItem;
    var own := if lines[0].Plus? && IsListItem(lines[0].text) then [Added(ref.path, first, lines[0].text, ref)] else [];
    if a !in own {
      var shift := if lines[0].Plus? || lines[0].Context? then 1 else 0;
      AddsAreNewLines(ref, first + shift, lines[1..], a);
      assert NewSide(lines)[a.number - first] == NewSide(lines[1..])[a.number - first - shift];
    }
  }

  lemma RawIsNoHeader(l: DiffLine)
    requires l.Plus? ==> !("++ b/" <= l.text)
    ensures !("+++ b/" <= Raw(l)) && !("diff --git " <= Raw(l)) && HunkStart(Raw(l)).None? && Raw(l) != ""
  {
    hide AfterRange;
    var raw := Raw(l);
    assert l.Plus? ==> raw[1..] == l.text;
    assert raw[0] in " +-\\";
  }

  lemma {:induction false} HunkReads(s: Scan, lines: seq<DiffLine>)
    requires s.path != "" && s.hunk >= 0 && Plain(lines)
    ensures var e, ref := ScanAll(s, Raws(lines)), HunkRef(s.path, s.hunk);
      e.path == s.path && e.hunk == s.hunk && e.added == s.added + HunkAdds(ref, s.newLine, lines) &&
      e.removed == s.removed + HunkRemovals(ref, lines) && e.released == s.released + HunkReleases(ref, lines)
    decreases |lines|
  {
    hide IsListItem, HunkStart, Raw, ScanLine;
    if lines != [] {
      var next := ScanLine(s, Raw(lines[0]));
      assert forall i :: 0 <= i < |lines[1..]| ==> lines[1..][i] == lines[i + 1];
      LineReads(s, lines[0]);
      HunkReads(next, lines[1..]);
      assert Raws(lines)[1..] == Raws(lines[1..]);
      var ref := HunkRef(s.path, s.hunk);
      var own := if lines[0].Plus? && IsListItem(lines[0].text) then [Added(s.path, s.newLine, lines[0].text, ref)] else [];
      assert HunkAdds(ref, s.newLine, lines) == own + HunkAdds(ref, next.newLine, lines[1..]);
      ConcatAssociative(s.added, own, HunkAdds(ref, next.newLine, lines[1..]));
      var gone := if lines[0].Minus? && IsListItem(lines[0].text) then [Removed(s.path, lines[0].text, ref)] else [];
      ConcatAssociative(s.removed, gone, HunkRemovals(ref, lines[1..]));
    } else {
      assert s.added + [] == s.added && s.removed + [] == s.removed && s.released + {} == s.released;
    }
  }

  lemma LineReads(s: Scan, l: DiffLine)
    requires s.path != "" && s.hunk >= 0 && (l.Plus? ==> !("++ b/" <= l.text))
    ensures var e, ref := ScanLine(s, Raw(l)), HunkRef(s.path, s.hunk);
      e.path == s.path && e.hunk == s.hunk &&
      e.newLine == s.newLine + (if l.Context? || l.Plus? then 1 else 0) &&
      e.added == s.added + (if l.Plus? && IsListItem(l.text) then [Added(s.path, s.newLine, l.text, ref)] else []) &&
      e.removed == s.removed + (if l.Minus? && IsListItem(l.text) then [Removed(s.path, l.text, ref)] else []) &&
      e.released == s.released + if l.Plus? && "## [" <= l.text then {ref} else {}
  {
    hide IsListItem, HunkStart;
    RawIsNoHeader(l);
    assert l.Plus? || l.Minus? || l.Context? ==> Raw(l)[1..] == l.text;
    if l.Plus? {
      HeadingRaw(l.text);
    }
  }

  lemma HeadingRaw(text: string)
    ensures "+## [" <= "+" + text <==> "## [" <= text
  {
    var raw := "+" + text;
    assert raw[1..] == text;
    if "+## [" <= raw {
      assert raw[..5] == "+## [";
      assert text[..4] == raw[1..5] == "## [";
    }
    if "## [" <= text {
      assert text[..4] == "## [";
      assert raw[..5] == "+" + text[..4] == "+## [";
    }
  }

  lemma {:induction false} ScanAppend(s: Scan, a: seq<string>, b: seq<string>)
    ensures ScanAll(s, a + b) == ScanAll(ScanAll(s, a), b)
    decreases |a|
  {
    hide ScanLine;
    if a == [] {
      assert a + b == b;
    } else {
      assert (a + b)[1..] == a[1..] + b;
      ScanAppend(ScanLine(s, a[0]), a[1..], b);
    }
  }

  lemma OpenHunk(s: Scan, h: Hunk)
    ensures ScanLine(s, HunkHeader(h)) == s.(newLine := h.newStart, hunk := s.hunk + 1)
  {
    hide HunkHeader, HunkStart;
    HeaderReads(h);
  }

  /** What the scan has found besides what it had. */
  ghost predicate Found(s: Scan, e: Scan, added: seq<Added>, removed: seq<Removed>, released: set<HunkRef>) {
    e.added == s.added + added && e.removed == s.removed + removed && e.released == s.released + released
  }

  lemma FoundMore(
    s: Scan, m: Scan, e: Scan, a: seq<Added>, b: seq<Removed>, c: set<HunkRef>, a': seq<Added>, b': seq<Removed>, c': set<HunkRef>)
    requires Found(s, m, a, b, c) && Found(m, e, a', b', c')
    ensures Found(s, e, a + a', b + b', c + c')
  {
    ConcatAssociative(s.added, a, a');
    ConcatAssociative(s.removed, b, b');
  }

  lemma {:induction false} HunksRead(s: Scan, hunks: seq<Hunk>)
    requires s.path != "" && s.hunk >= -1 && forall k :: 0 <= k < |hunks| ==> Plain(hunks[k].lines)
    ensures var i := s.hunk + 1;
      Found(s, ScanAll(s, PrintHunks(hunks)),
        FileAdds(s.path, i, hunks), FileRemovals(s.path, i, hunks), FileReleases(s.path, i, hunks))
    decreases |hunks|
  {
    hide ScanLine, HunkHeader, Plain, HunkAdds, HunkRemovals, HunkReleases, Raws, ScanAll, NewSide, PrintHunks;
    hide FileAdds, FileRemovals, FileReleases;
    var i := s.hunk + 1;
    PrintStep(s.path, i, hunks);
    if hunks == [] {
      ScanStep(s, []);
      assert s.added + [] == s.added && s.removed + [] == s.removed && s.released + {} == s.released;
    } else {
      var h := hunks[0];
      var inside := s.(newLine := h.newStart, hunk := i);
      OpenHunk(s, h);
      HunkReads(inside, h.lines);
      var done := ScanAll(inside, Raws(h.lines));
      HunksRead(done, hunks[1..]);
      ScanAppend(inside, Raws(h.lines), PrintHunks(hunks[1..]));
      var all, ref := PrintHunks(hunks), HunkRef(s.path, i);
      ScanStep(s, all);
      FoundMore(s, done, ScanAll(s, all),
        HunkAdds(ref, h.newStart, h.lines), HunkRemovals(ref, h.lines), HunkReleases(ref, h.lines),
        FileAdds(s.path, i + 1, hunks[1..]), FileRemovals(s.path, i + 1, hunks[1..]), FileReleases(s.path, i + 1, hunks[1..]));
    }
  }

  lemma PrintStep(path: string, index: int, hunks: seq<Hunk>)
    ensures hunks == [] ==>
      PrintHunks(hunks) == [] && FileAdds(path, index, hunks) == [] && FileRemovals(path, index, hunks) == [] &&
      FileReleases(path, index, hunks) == {}
    ensures hunks != [] ==>
      var all, ref, rest := PrintHunks(hunks), HunkRef(path, index), hunks[1..];
      all != [] && all[0] == HunkHeader(hunks[0]) && all[1..] == Raws(hunks[0].lines) + PrintHunks(rest) &&
      FileAdds(path, index, hunks) ==
        HunkAdds(ref, hunks[0].newStart, hunks[0].lines) + FileAdds(path, index + 1, rest) &&
      FileRemovals(path, index, hunks) == HunkRemovals(ref, hunks[0].lines) + FileRemovals(path, index + 1, rest) &&
      FileReleases(path, index, hunks) == HunkReleases(ref, hunks[0].lines) + FileReleases(path, index + 1, rest)
  {
    hide HunkHeader, Raws, HunkAdds, HunkRemovals, HunkReleases;
  }

  lemma ScanStep(s: Scan, raws: seq<string>)
    ensures ScanAll(s, raws) == if raws == [] then s else ScanAll(ScanLine(s, raws[0]), raws[1..])
  {
  }

  lemma FileHeaderReads(s: Scan, path: string)
    requires path != ""
    ensures ScanAll(s, ["diff --git a/" + path + " b/" + path, "--- a/" + path, "+++ b/" + path]) == s.(path := path, hunk := -1)
  {
    var a, b, c := "diff --git a/" + path + " b/" + path, "--- a/" + path, "+++ b/" + path;
    assert a[0] == 'd' && b[0] == '-' && c[0] == '+';
    assert "diff --git " <= a by { assert a[..11] == "diff --git "; }
    assert ScanLine(s, a) == s.(path := "", hunk := -1);
    var t := s.(path := "", hunk := -1);
    assert !("@@ -" <= b) && !("+++ b/" <= b) && !("diff --git " <= b);
    assert ScanLine(t, b) == t;
    assert c[6..] == path;
    assert ScanLine(t, c) == t.(path := path);
    hide ScanLine;
    assert [a, b, c][1..] == [b, c] && [b, c][1..] == [c] && [c][1..] == [];
    assert ScanAll(t.(path := path), []) == t.(path := path);
    assert ScanAll(t, [c]) == t.(path := path);
    assert ScanAll(t, [b, c]) == t.(path := path);
  }

  /**
   Scanning a printed diff finds every added item of every hunk, in order, at its line in the new file, every removed
   item, and the hunks that add a release heading.
  */
  lemma {:induction false} ScanReads(s: Scan, files: seq<FileDiff>)
    requires GoodFiles(files)
    ensures Found(s, ScanAll(s, PrintFiles(files)), AllAdds(files), AllRemovals(files), AllReleases(files))
    decreases |files|
  {
    hide ScanLine, Plain;
    if files == [] {
      assert s.added + [] == s.added && s.removed + [] == s.removed && s.released + {} == s.released;
    } else {
      var f, rest := files[0], files[1..];
      assert forall i :: 0 <= i < |rest| ==> rest[i] == files[i + 1];
      FileReads(s, f, PrintFiles(rest));
      hide PrintHunks, FileAdds, FileRemovals, FileReleases, ScanAll;
      var inside := s.(path := f.path, hunk := -1);
      HunksRead(inside, f.hunks);
      var done := ScanAll(inside, PrintHunks(f.hunks));
      ScanReads(done, rest);
      FoundMore(s, done, ScanAll(done, PrintFiles(rest)),
        FileAdds(f.path, 0, f.hunks), FileRemovals(f.path, 0, f.hunks), FileReleases(f.path, 0, f.hunks),
        AllAdds(rest), AllRemovals(rest), AllReleases(rest));
    }
  }

  /** One file: its header opens it, its hunks follow. */
  lemma FileReads(s: Scan, f: FileDiff, after: seq<string>)
    requires f.path != ""
    ensures ScanAll(s, ["diff --git a/" + f.path + " b/" + f.path, "--- a/" + f.path, "+++ b/" + f.path] + PrintHunks(f.hunks) + after) ==
      ScanAll(ScanAll(s.(path := f.path, hunk := -1), PrintHunks(f.hunks)), after)
  {
    hide ScanLine, PrintHunks, ScanAll;
    var header := ["diff --git a/" + f.path + " b/" + f.path, "--- a/" + f.path, "+++ b/" + f.path];
    FileHeaderReads(s, f.path);
    ScanAppend(s, header, PrintHunks(f.hunks) + after);
    ScanAppend(s.(path := f.path, hunk := -1), PrintHunks(f.hunks), after);
    ConcatAssociative(header, PrintHunks(f.hunks), after);
  }

  // ---------------------------------------------------------------- what a diff promotes

  /** Of one hunk, the added items and the removed items without a partner anywhere in the diff. */
  function UnmatchedAdds(files: seq<FileDiff>, h: HunkRef): nat {
    var a, b := AllAdds(files), AllRemovals(files);
    Tally(Unmatched(ItemsAdded(a), ItemsRemoved(b)), HunksAdding(a), |a|, h)
  }

  function UnmatchedRemovals(files: seq<FileDiff>, h: HunkRef): nat {
    var a, b := AllAdds(files), AllRemovals(files);
    Tally(Unmatched(ItemsRemoved(b), ItemsAdded(a)), HunksRemoving(b), |b|, h)
  }

  /** Each hunk of the diff promotes its unmatched additions beyond its unmatched removals, or none. */
  lemma DiffPromotes(files: seq<FileDiff>, addedPaired: seq<bool>, removedPaired: seq<bool>, promoted: seq<bool>, h: HunkRef)
    requires GoodFiles(files) && Verdict(ScanAll(START, PrintFiles(files)), addedPaired, removedPaired, promoted)
    ensures |promoted| == |AllAdds(files)|
    ensures Tally(promoted, HunksAdding(AllAdds(files)), |promoted|, h) ==
      if h in AllReleases(files) then 0 else Max(0, UnmatchedAdds(files, h) - UnmatchedRemovals(files, h))
  {
    hide ScanAll, PrintFiles, Tally, AllAdds, AllRemovals, AllReleases, Unmatched, AdditionMarks, RemovalMarks, PromotionMarks;
    hide ItemsAdded, ItemsRemoved, HunksAdding, HunksRemoving;
    var a, b := AllAdds(files), AllRemovals(files);
    ScanReads(START, files);
    assert [] + a == a && [] + b == b && {} + AllReleases(files) == AllReleases(files);
    MarksPromote(
      ItemsAdded(a), ItemsRemoved(b), HunksAdding(a), HunksRemoving(b), AllReleases(files), addedPaired, removedPaired, promoted, h);
  }
}
