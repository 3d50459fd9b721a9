/** Exactly which diffs the scan reads right: added text that looks like a file header misleads it. */
module DiffExact {
  import opened Prelude
  import opened ChangelogText
  import opened DiffScan

  predicate LooksLikeHeader(l: DiffLine) {
    l.Plus? && "++ b/" <= l.text
  }

  predicate AddsItem(l: DiffLine) {
    l.Plus? && IsListItem(l.text)
  }

  /** The path in the last added line that looks like a file header. */
  function LastHeader(lines: seq<DiffLine>): Option<string> {
    if lines == [] then None
    else if LooksLikeHeader(Last(lines)) then Some(Last(lines).text[5..])
    else LastHeader(lines[..|lines| - 1])
  }

  function LinesBefore(hunks: seq<Hunk>, k: nat): seq<DiffLine>
    requires k <= |hunks|
  {
    if k == 0 then [] else LinesBefore(hunks, k - 1) + hunks[k - 1].lines
  }

  /** The path the scan believes in after those lines of a file. */
  function PathAfter(path: string, lines: seq<DiffLine>): string {
    if LastHeader(lines).Some? then LastHeader(lines).value else path
  }

  /** Added text misleads the scan about nothing that matters: not about the line, not about the file of an added item. */
  ghost predicate ReadableHunk(path: string, before: seq<DiffLine>, lines: seq<DiffLine>) {
    forall i :: 0 <= i < |lines| && AddsItem(lines[i]) ==> LastHeader(lines[..i]).None? && PathAfter(path, before) == path
  }

  ghost predicate ReadableFiles(files: seq<FileDiff>) {
    forall f, k :: 0 <= f < |files| && 0 <= k < |files[f].hunks| ==>
      ReadableHunk(files[f].path, LinesBefore(files[f].hunks, k), files[f].hunks[k].lines)
  }

  // ---------------------------------------------------------------- what the scan makes of any hunk

  /** The items the scan records for a hunk it enters at `number`, believing in `path`. */
  function SeenAdds(path: string, hunk: int, number: nat, lines: seq<DiffLine>): seq<Added>
    decreases |lines|
  {
    if lines == [] then []
    else if LooksLikeHeader(lines[0]) then SeenAdds(lines[0].text[5..], hunk, number, lines[1..])
    else if path == "" then SeenAdds(path, hunk, number, lines[1..])
    else
      (if AddsItem(lines[0]) then [Added(path, number, lines[0].text, HunkRef(path, hunk))] else []) +
      SeenAdds(path, hunk, if lines[0].Plus? || lines[0].Context? then number + 1 else number, lines[1..])
  }

  lemma HeaderRaw(text: string)
    requires "++ b/" <= text
    ensures "+++ b/" <= "+" + text && ("+" + text)[6..] == text[5..]
  {
    var raw := "+" + text;
    assert text[..5] == "++ b/";
    assert raw[..6] == "+" + text[..5] == "+++ b/";
  }

  lemma PathAfterOne(path: string, l: DiffLine)
    ensures PathAfter(path, [l]) == if LooksLikeHeader(l) then l.text[5..] else path
  {
    hide LooksLikeHeader;
    assert [l][..|[l]| - 1] == [] && LastHeader([]).None?;
  }

  lemma AnyLineReads(s: Scan, l: DiffLine)
    requires s.hunk >= 0
    ensures var e := ScanLine(s, Raw(l));
      e.hunk == s.hunk && e.path == PathAfter(s.path, [l]) &&
      e.added == s.added + SeenAdds(s.path, s.hunk, s.newLine, [l]) &&
      (s.path != "" && !LooksLikeHeader(l) ==> e.newLine == if l.Plus? || l.Context? then s.newLine + 1 else s.newLine) &&
      (s.path == "" || LooksLikeHeader(l) ==> e.newLine == s.newLine)
  {
    hide IsListItem, HunkStart;
    assert [l][..0] == [] && [l][1..] == [] && s.added + [] == s.added;
    PathAfterOne(s.path, l);
    if LooksLikeHeader(l) {
      HeaderRaw(l.text);
    } else if s.path == "" {
      RawIsNoHeader(l);
    } else {
      LineReads(s, l);
    }
  }

  lemma {:induction false} PathAfterCons(path: string, l: DiffLine, rest: seq<DiffLine>)
    ensures PathAfter(path, [l] + rest) == PathAfter(PathAfter(path, [l]), rest)
    ensures LastHeader([l] + rest).None? <==> !LooksLikeHeader(l) && LastHeader(rest).None?
  {
    hide LooksLikeHeader;
    assert [l][..0] == [];
    if rest != [] {
      PathAfterCons(path, l, rest[..|rest| - 1]);
      assert ([l] + rest)[..|rest|] == [l] + rest[..|rest| - 1];
    } else {
      assert [l] + rest == [l];
    }
  }

  lemma SeenStep(path: string, hunk: int, number: nat, lines: seq<DiffLine>)
    requires lines != []
    ensures var l := lines[0];
      var n := if path != "" && !LooksLikeHeader(l) && (l.Plus? || l.Context?) then number + 1 else number;
      SeenAdds(path, hunk, number, lines) ==
        SeenAdds(path, hunk, number, [l]) + SeenAdds(PathAfter(path, [l]), hunk, n, lines[1..])
  {
    hide IsListItem;
    var l := lines[0];
    assert [l][..0] == [] && [l][1..] == [];
    PathAfterOne(path, l);
    var own := if path != "" && AddsItem(l) then [Added(path, number, l.text, HunkRef(path, hunk))] else [];
    HeaderIsNoItem(l);
    assert SeenAdds(path, hunk, number, [l]) == own + [] == own;
  }

  lemma {:induction false} AnyHunkReads(s: Scan, lines: seq<DiffLine>)
    requires s.hunk >= 0
    ensures var e := ScanAll(s, Raws(lines));
      e.path == PathAfter(s.path, lines) && e.hunk == s.hunk && e.added == s.added + SeenAdds(s.path, s.hunk, s.newLine, lines)
    decreases |lines|
  {
    hide ScanLine, Raw, LooksLikeHeader, AddsItem;
    if lines == [] {
      assert s.added + [] == s.added;
    } else {
      var next := ScanLine(s, Raw(lines[0]));
      AnyLineReads(s, lines[0]);
      SeenStep(s.path, s.hunk, s.newLine, lines);
      hide SeenAdds, PathAfter, LastHeader;
      AnyHunkReads(next, lines[1..]);
      PathAfterCons(s.path, lines[0], lines[1..]);
      assert [lines[0]] + lines[1..] == lines && Raws(lines)[1..] == Raws(lines[1..]);
      ConcatAssociative(
        s.added, SeenAdds(s.path, s.hunk, s.newLine, [lines[0]]), SeenAdds(next.path, s.hunk, next.newLine, lines[1..]));
    }
  }

  // ---------------------------------------------------------------- one hunk

  lemma {:induction false} SeenAtMost(path: string, hunk: int, number: nat, ref: HunkRef, first: nat, lines: seq<DiffLine>)
    ensures |SeenAdds(path, hunk, number, lines)| <= |HunkAdds(ref, first, lines)|
    ensures HunkAdds(ref, first, lines) == [] <==> forall i :: 0 <= i < |lines| ==> !AddsItem(lines[i])
    decreases |lines|
  {
    hide IsListItem;
    if lines != [] {
      var n := if path == "" || LooksLikeHeader(lines[0]) then number else if lines[0].Plus? || lines[0].Context? then number + 1 else number;
      var p := if LooksLikeHeader(lines[0]) then lines[0].text[5..] else path;
      SeenAtMost(p, hunk, n, ref, if lines[0].Plus? || lines[0].Context? then first + 1 else first, lines[1..]);
      HeaderIsNoItem(lines[0]);
      assert lines == [lines[0]] + lines[1..];
    }
  }

  lemma HeaderIsNoItem(l: DiffLine)
    ensures !(LooksLikeHeader(l) && AddsItem(l))
  {
    if LooksLikeHeader(l) {
      assert l.text[0] == '+' && !Space('+');
    }
  }

  /** The recorded items are right exactly when path and number are, and no header-like line comes before an item. */
  ghost predicate RightFrom(path: string, number: nat, file: string, first: nat, lines: seq<DiffLine>) {
    forall i :: 0 <= i < |lines| && AddsItem(lines[i]) ==> path == file && number == first && LastHeader(lines[..i]).None?
  }

  lemma HeaderBefore(lines: seq<DiffLine>, i: nat)
    requires lines != [] && i < |lines[1..]|
    ensures LastHeader(lines[..i + 1]).None? <==> !LooksLikeHeader(lines[0]) && LastHeader(lines[1..][..i]).None?
  {
    hide LooksLikeHeader, LastHeader;
    assert lines[..i + 1] == [lines[0]] + lines[1..][..i];
    PathAfterCons("", lines[0], lines[1..][..i]);
  }

  lemma RightFromStep(path: string, number: nat, file: string, first: nat, lines: seq<DiffLine>, path': string, number': nat, first': nat)
    requires lines != [] && file != ""
    requires LooksLikeHeader(lines[0]) ==> number' < first'
    requires !LooksLikeHeader(lines[0]) ==> path' == path && (path == file ==> (number' == first' <==> number == first))
    ensures RightFrom(path, number, file, first, lines) <==>
      (AddsItem(lines[0]) ==> path == file && number == first) && RightFrom(path', number', file, first', lines[1..])
  {
    hide AddsItem, LooksLikeHeader;
    var l, rest := lines[0], lines[1..];
    HeaderIsNoItem(l);
    hide LastHeader;
    assert lines[..0] == [];
    NoLinesNoHeader();
    if RightFrom(path, number, file, first, lines) {
      assert AddsItem(lines[0]) ==> path == file && number == first;
      forall i | 0 <= i < |rest| && AddsItem(rest[i])
        ensures path' == file && number' == first' && LastHeader(rest[..i]).None?
      {
        assert AddsItem(lines[i + 1]);
        HeaderBefore(lines, i);
      }
    }
    if (AddsItem(lines[0]) ==> path == file && number == first) && RightFrom(path', number', file, first', rest) {
      forall i | 0 <= i < |lines| && AddsItem(lines[i])
        ensures path == file && number == first && LastHeader(lines[..i]).None?
      {
        if i > 0 {
          assert AddsItem(rest[i - 1]);
          HeaderBefore(lines, i - 1);
        }
      }
    }
  }

  lemma NoLinesNoHeader()
    ensures LastHeader([]).None?
  {
  }

  lemma {:induction false} HunkIff(path: string, hunk: int, number: nat, file: string, first: nat, lines: seq<DiffLine>)
    requires file != "" && number <= first
    ensures SeenAdds(path, hunk, number, lines) == HunkAdds(HunkRef(file, hunk), first, lines) <==>
      RightFrom(path, number, file, first, lines)
    decreases |lines|
  {
    hide IsListItem, LastHeader;
    if lines != [] {
      var l, ref := lines[0], HunkRef(file, hunk);
      var counted := l.Plus? || l.Context?;
      var n := if path != "" && !LooksLikeHeader(l) && counted then number + 1 else number;
      var p := if LooksLikeHeader(l) then l.text[5..] else path;
      var m := if counted then first + 1 else first;
      HunkIff(p, hunk, n, file, m, lines[1..]);
      HeaderIsNoItem(l);
      RightFromStep(path, number, file, first, lines, p, n, m);
      hide RightFrom;
      var seen, rest := SeenAdds(p, hunk, n, lines[1..]), HunkAdds(ref, m, lines[1..]);
      var own := if AddsItem(l) && path != "" then [Added(path, number, l.text, HunkRef(path, hunk))] else [];
      var due := if AddsItem(l) then [Added(file, first, l.text, ref)] else [];
      assert SeenAdds(path, hunk, number, lines) == own + seen;
      assert HunkAdds(ref, first, lines) == due + rest;
      SeenAtMost(p, hunk, n, ref, m, lines[1..]);
      SplitEqual(own, seen, due, rest);
    }
  }

  /** Of two concatenations whose parts are at most as long, equality is equality of the parts. */
  lemma SplitEqual<T>(a: seq<T>, b: seq<T>, c: seq<T>, d: seq<T>)
    requires |a| <= |c| && |b| <= |d|
    ensures a + b == c + d <==> a == c && b == d
  {
    if a + b == c + d {
      assert |a| == |c| && |b| == |d|;
      assert (a + b)[..|a|] == a && (c + d)[..|a|] == c;
      assert (a + b)[|a|..] == b && (c + d)[|a|..] == d;
    }
  }

  // ---------------------------------------------------------------- all hunks of a file

  function SeenInFile(path: string, index: int, hunks: seq<Hunk>): seq<Added>
    decreases |hunks|
  {
    if hunks == [] then []
    else
      SeenAdds(path, index, hunks[0].newStart, hunks[0].lines) +
      SeenInFile(PathAfter(path, hunks[0].lines), index + 1, hunks[1..])
  }

  lemma SeenFileStep(path: string, index: int, hunks: seq<Hunk>)
    ensures SeenInFile(path, index, hunks) ==
      if hunks == [] then []
      else
        SeenAdds(path, index, hunks[0].newStart, hunks[0].lines) +
        SeenInFile(PathAfter(path, hunks[0].lines), index + 1, hunks[1..])
  {
  }

  lemma {:induction false} AnyHunksRead(s: Scan, hunks: seq<Hunk>)
    requires s.hunk >= -1
    ensures ScanAll(s, PrintHunks(hunks)).added == s.added + SeenInFile(s.path, s.hunk + 1, hunks)
    decreases |hunks|
  {
    hide ScanLine, HunkHeader, Raws, ScanAll, NewSide, PrintHunks, SeenAdds, PathAfter, SeenInFile;
    hide FileAdds, FileRemovals, FileReleases;
    PrintStep(s.path, s.hunk + 1, hunks);
    SeenFileStep(s.path, s.hunk + 1, hunks);
    if hunks == [] {
      ScanStep(s, []);
      assert s.added + [] == s.added;
    } else {
      var h, rest := hunks[0], hunks[1..];
      var inside := s.(newLine := h.newStart, hunk := s.hunk + 1);
      OpenHunk(s, h);
      AnyHunkReads(inside, h.lines);
      var done := ScanAll(inside, Raws(h.lines));
      AnyHunksRead(done, rest);
      ScanAppend(inside, Raws(h.lines), PrintHunks(rest));
      ScanStep(s, PrintHunks(hunks));
      ConcatAssociative(
        s.added, SeenAdds(s.path, s.hunk + 1, h.newStart, h.lines), SeenInFile(PathAfter(s.path, h.lines), s.hunk + 2, rest));
    }
  }

  /** Readable when the scan enters the hunks believing in `path`. */
  ghost predicate ReadableHunks(path: string, file: string, hunks: seq<Hunk>) {
    forall k :: 0 <= k < |hunks| ==>
      RightFrom(PathAfter(path, LinesBefore(hunks, k)), hunks[k].newStart, file, hunks[k].newStart, hunks[k].lines)
  }

  lemma {:induction false} LinesBeforeCons(h: Hunk, rest: seq<Hunk>, k: nat)
    requires k <= |rest|
    ensures LinesBefore([h] + rest, k + 1) == h.lines + LinesBefore(rest, k)
  {
    var all := [h] + rest;
    if k == 0 {
      assert LinesBefore(all, 0) == [];
      assert h.lines + [] == h.lines == [] + h.lines;
    } else {
      LinesBeforeCons(h, rest, k - 1);
      assert all[k] == rest[k - 1];
      ConcatAssociative(h.lines, LinesBefore(rest, k - 1), rest[k - 1].lines);
    }
  }

  lemma {:induction false} PathAfterJoin(path: string, a: seq<DiffLine>, b: seq<DiffLine>)
    ensures PathAfter(path, a + b) == PathAfter(PathAfter(path, a), b)
  {
    hide LooksLikeHeader;
    if b == [] {
      assert a + b == a;
    } else {
      PathAfterJoin(path, a, b[..|b| - 1]);
      assert (a + b)[..|a + b| - 1] == a + b[..|b| - 1];
    }
  }

  lemma ReadableStep(path: string, file: string, hunks: seq<Hunk>)
    requires hunks != []
    ensures var h := hunks[0];
      ReadableHunks(path, file, hunks) <==>
      RightFrom(path, h.newStart, file, h.newStart, h.lines) && ReadableHunks(PathAfter(path, h.lines), file, hunks[1..])
  {
    hide RightFrom, LastHeader;
    var h, rest := hunks[0], hunks[1..];
    var next := PathAfter(path, h.lines);
    assert hunks == [h] + rest;
    NoLinesNoHeader();
    assert LinesBefore(hunks, 0) == [];
    assert PathAfter(path, []) == path;
    forall k | 0 <= k < |rest|
      ensures PathAfter(path, LinesBefore(hunks, k + 1)) == PathAfter(next, LinesBefore(rest, k)) && hunks[k + 1] == rest[k]
    {
      LinesBeforeCons(h, rest, k);
      PathAfterJoin(path, h.lines, LinesBefore(rest, k));
    }
    hide PathAfter, LinesBefore;
    if ReadableHunks(path, file, hunks) {
      forall k | 0 <= k < |rest|
        ensures RightFrom(PathAfter(next, LinesBefore(rest, k)), rest[k].newStart, file, rest[k].newStart, rest[k].lines)
      {
        assert hunks[k + 1] == rest[k];
      }
      assert RightFrom(PathAfter(path, LinesBefore(hunks, 0)), hunks[0].newStart, file, hunks[0].newStart, hunks[0].lines);
    }
    if RightFrom(path, h.newStart, file, h.newStart, h.lines) && ReadableHunks(next, file, rest) {
      forall k | 0 <= k < |hunks|
        ensures RightFrom(PathAfter(path, LinesBefore(hunks, k)), hunks[k].newStart, file, hunks[k].newStart, hunks[k].lines)
      {
        if k > 0 {
          assert hunks[k] == rest[k - 1];
        }
      }
    }
  }

  lemma {:induction false} FileIff(path: string, index: int, file: string, hunks: seq<Hunk>)
    requires file != ""
    ensures SeenInFile(path, index, hunks) == FileAdds(file, index, hunks) <==> ReadableHunks(path, file, hunks)
    ensures |SeenInFile(path, index, hunks)| <= |FileAdds(file, index, hunks)|
    decreases |hunks|
  {
    hide SeenAdds, HunkAdds, PathAfter, RightFrom, LinesBefore;
    if hunks != [] {
      var h, rest := hunks[0], hunks[1..];
      var next, ref := PathAfter(path, h.lines), HunkRef(file, index);
      ReadableStep(path, file, hunks);
      FileIff(next, index + 1, file, rest);
      HunkIff(path, index, h.newStart, file, h.newStart, h.lines);
      SeenAtMost(path, index, h.newStart, ref, h.newStart, h.lines);
      hide ReadableHunks;
      SplitEqual(SeenAdds(path, index, h.newStart, h.lines), SeenInFile(next, index + 1, rest),
        HunkAdds(ref, h.newStart, h.lines), FileAdds(file, index + 1, rest));
    }
  }

  // ---------------------------------------------------------------- all files

  function SeenInAll(files: seq<FileDiff>): seq<Added> {
    if files == [] then [] else SeenInFile(files[0].path, 0, files[0].hunks) + SeenInAll(files[1..])
  }

  lemma {:induction false} AnyFilesRead(s: Scan, files: seq<FileDiff>)
    requires forall f :: f in files ==> f.path != ""
    ensures ScanAll(s, PrintFiles(files)).added == s.added + SeenInAll(files)
    decreases |files|
  {
    hide ScanLine, SeenInFile;
    if files == [] {
      assert s.added + [] == s.added;
    } else {
      var f, rest := files[0], files[1..];
      assert f in files && forall g :: g in rest ==> g in files;
      FileReads(s, f, PrintFiles(rest));
      hide PrintHunks, ScanAll;
      var inside := s.(path := f.path, hunk := -1);
      AnyHunksRead(inside, f.hunks);
      AnyFilesRead(ScanAll(inside, PrintHunks(f.hunks)), rest);
      ConcatAssociative(s.added, SeenInFile(f.path, 0, f.hunks), SeenInAll(rest));
    }
  }

  lemma {:induction false} AllIff(files: seq<FileDiff>)
    requires forall f :: f in files ==> f.path != ""
    ensures SeenInAll(files) == AllAdds(files) <==> forall f :: f in files ==> ReadableHunks(f.path, f.path, f.hunks)
    ensures |SeenInAll(files)| <= |AllAdds(files)|
    decreases |files|
  {
    hide SeenInFile, FileAdds, ReadableHunks;
    if files != [] {
      var f, rest := files[0], files[1..];
      assert f in files && forall g :: g in files <==> g == f || g in rest;
      AllIff(rest);
      FileIff(f.path, 0, f.path, f.hunks);
      SplitEqual(SeenInFile(f.path, 0, f.hunks), SeenInAll(rest), FileAdds(f.path, 0, f.hunks), AllAdds(rest));
    }
  }

  lemma ReadableMeans(f: FileDiff)
    ensures ReadableHunks(f.path, f.path, f.hunks) <==>
      forall k :: 0 <= k < |f.hunks| ==> ReadableHunk(f.path, LinesBefore(f.hunks, k), f.hunks[k].lines)
  {
    hide PathAfter, LinesBefore, AddsItem, LastHeader;
  }

  /**
   The scan reports every added item at its file and new-file line if and only if no added text that looks like a file
   header precedes an added item in its hunk, or names another file last in the earlier hunks of that file.
  */
  lemma ReadsExactlyIff(files: seq<FileDiff>)
    requires forall f :: f in files ==> f.path != ""
    ensures ScanAll(START, PrintFiles(files)).added == AllAdds(files) <==> ReadableFiles(files)
  {
    hide ScanAll, SeenInAll, AllAdds, PrintFiles, ReadableHunks, ReadableHunk, LinesBefore;
    AnyFilesRead(START, files);
    assert [] + SeenInAll(files) == SeenInAll(files);
    AllIff(files);
    forall f | f in files
      ensures ReadableHunks(f.path, f.path, f.hunks) <==>
        forall k :: 0 <= k < |f.hunks| ==> ReadableHunk(f.path, LinesBefore(f.hunks, k), f.hunks[k].lines)
    {
      ReadableMeans(f);
    }
    if ReadableFiles(files) {
      forall f | f in files
        ensures ReadableHunks(f.path, f.path, f.hunks)
      {
        var i :| 0 <= i < |files| && files[i] == f;
      }
    }
    if forall f :: f in files ==> ReadableHunks(f.path, f.path, f.hunks) {
      forall f, k | 0 <= f < |files| && 0 <= k < |files[f].hunks|
        ensures ReadableHunk(files[f].path, LinesBefore(files[f].hunks, k), files[f].hunks[k].lines)
      {
        assert files[f] in files;
      }
    }
  }

  /** A diff that adds a line `++ b/p` above an item: the item is reported one line too early. */
  lemma HeaderTextMisleads(start: nat)
    ensures var lines := [Plus("++ b/p"), Plus("- a")];
      var files := [FileDiff("p", [Hunk(1, 0, start, lines, "")])];
      AllAdds(files) == [Added("p", start + 1, "- a", HunkRef("p", 0))] &&
      ScanAll(START, PrintFiles(files)).added == [Added("p", start, "- a", HunkRef("p", 0))]
  {
    var lines := [Plus("++ b/p"), Plus("- a")];
    var h := Hunk(1, 0, start, lines, "");
    var files := [FileDiff("p", [h])];
    var ref := HunkRef("p", 0);
    assert !Space('-') && !Space('+');
    assert TrimStart("- a") == "- a" && TrimStart("++ b/p") == "++ b/p";
    assert "++ b/p"[..5] == "++ b/" && "++ b/p"[5..] == "p";
    assert lines[1..] == [Plus("- a")] && lines[1..][1..] == [];
    AnyFilesRead(START, files);
    assert files[1..] == [] && [h][1..] == [];
    assert HunkAdds(ref, start + 1, lines[1..]) == [Added("p", start + 1, "- a", ref)];
    assert HunkAdds(ref, start, lines) == [Added("p", start + 1, "- a", ref)];
    assert SeenAdds("p", 0, start, lines[1..]) == [Added("p", start, "- a", ref)];
    assert SeenAdds("p", 0, start, lines) == [Added("p", start, "- a", ref)];
    assert FileAdds("p", 0, [h]) == [Added("p", start + 1, "- a", ref)];
    assert SeenInFile("p", 0, [h]) == [Added("p", start, "- a", ref)];
  }
}
