/** Where the program reads numbers: hunk headers, version headings, and the parts of release titles. */
module NumberPatterns {
  import opened Prelude
  import opened Decimal
  import opened ChangelogText
  import opened ChangelogPatterns
  import DiffScan
  import ReleaseNotes
  import ReleaseOrder

  predicate Numeral(s: string) {
    s != "" && forall c :: c in s ==> Digit(c)
  }

  predicate NoDigitNext(s: string) {
    s != "" ==> !Digit(s[0])
  }

  lemma NumeralSplits(s: string)
    ensures s == s[..Digits(s)] + s[Digits(s)..] && NoDigitNext(s[Digits(s)..])
    ensures Digits(s) > 0 ==> Numeral(s[..Digits(s)])
  {
    hide Digits;
    DigitsAre(s);
  }

  lemma NumeralStands(a: string, rest: string)
    requires Numeral(a) && NoDigitNext(rest)
    ensures Digits(a + rest) == |a| && (a + rest)[..|a|] == a && (a + rest)[|a|..] == rest
  {
    hide Digits;
    DigitsThen(a, rest);
  }

  // ---------------------------------------------------------------- hunk headers

  /** Nothing, or a comma and a number. */
  predicate Count(s: string) {
    s == "" || (s[0] == ',' && Numeral(s[1..]))
  }

  lemma RangeStands(a: string, count: string, rest: string)
    requires Numeral(a) && Count(count) && rest != "" && !Digit(rest[0]) && rest[0] != ','
    ensures var s := a + (count + rest);
      DiffScan.AfterRange(s) == Some(rest) && Digits(s) == |a| && s[..|a|] == a
  {
    hide Digits;
    var tail := count + rest;
    if count == "" {
      assert tail == rest;
    } else {
      assert tail[1..] == count[1..] + rest && tail[0] == ',';
      NumeralStands(count[1..], rest);
    }
    NumeralStands(a, tail);
    assert (a + tail)[|a| + 1..] == tail[1..];
  }

  lemma RangePieces(s: string) returns (a: string, count: string)
    requires DiffScan.AfterRange(s).Some?
    ensures Numeral(a) && Count(count) && s == a + (count + DiffScan.AfterRange(s).value)
    ensures Digits(s) == |a|
  {
    hide Digits;
    NumeralSplits(s);
    a := s[..Digits(s)];
    var tail := s[Digits(s)..];
    if "," <= tail && Digits(tail[1..]) > 0 {
      assert s[Digits(s) + 1..] == tail[1..];
      NumeralSplits(tail[1..]);
      count := "," + tail[1..][..Digits(tail[1..])];
      assert count[1..] == tail[1..][..Digits(tail[1..])];
      assert tail == "," + tail[1..];
    } else {
      assert tail != "" ==> s[Digits(s) + 1..] == tail[1..];
      count := "";
      assert count + tail == tail;
    }
  }

  ghost predicate NamesHunk(line: string, a: string, m: string, b: string, n: string, rest: string) {
    Numeral(a) && Count(m) && Numeral(b) && Count(n) &&
    line == "@@ -" + (a + (m + (" +" + (b + (n + (" @@" + rest))))))
  }

  /** A hunk header is read in exactly this form, and what is read is the number after the `+`. */
  lemma HunkHeaderIff(line: string, k: nat)
    ensures DiffScan.HunkStart(line) == Some(k) <==>
      exists a, m, b, n, rest :: NamesHunk(line, a, m, b, n, rest) && Value(b) == k
  {
    hide Value, Digits, DiffScan.AfterRange;
    if DiffScan.HunkStart(line) == Some(k) {
      var a, m, b, n, rest := HunkPieces(line);
    }
    if a, m, b, n, rest :| NamesHunk(line, a, m, b, n, rest) && Value(b) == k {
      HunkReads(line, a, m, b, n, rest);
    }
  }

  lemma HunkPieces(line: string) returns (a: string, m: string, b: string, n: string, rest: string)
    requires DiffScan.HunkStart(line).Some?
    ensures NamesHunk(line, a, m, b, n, rest) && DiffScan.HunkStart(line) == Some(Value(b))
  {
    hide Value, Digits, DiffScan.AfterRange;
    a, m := RangePieces(line[4..]);
    var middle := DiffScan.AfterRange(line[4..]).value;
    b, n := RangePieces(middle[2..]);
    var last := DiffScan.AfterRange(middle[2..]).value;
    rest := last[3..];
    assert last == " @@" + rest && middle == " +" + middle[2..] && line == "@@ -" + line[4..];
    assert middle[2..][..|b|] == b;
  }

  lemma HunkReads(line: string, a: string, m: string, b: string, n: string, rest: string)
    requires NamesHunk(line, a, m, b, n, rest)
    ensures DiffScan.HunkStart(line) == Some(Value(b))
  {
    hide Value, Digits, DiffScan.AfterRange;
    var last := " @@" + rest;
    var target := b + (n + last);
    var middle := " +" + target;
    var range := a + (m + middle);
    RangeStands(a, m, middle);
    RangeStands(b, n, last);
    assert line[4..] == range && middle[2..] == target;
  }

  // ---------------------------------------------------------------- version headings

  ghost predicate NamesVersion(line: string, v: string, a: string, b: string, c: string) {
    Numeral(a) && Numeral(b) && Numeral(c) && v == a + ("." + (b + ("." + c))) && "## [" + (v + "]") <= line
  }

  /** A version heading names three numbers between the brackets, and all of them are taken. */
  lemma VersionHeadingIff(line: string, v: string)
    ensures ReleaseNotes.VersionOf(line) == Some(v) <==> exists a, b, c :: NamesVersion(line, v, a, b, c)
  {
    hide Digits, ReleaseNotes.LeadingVersion, Numeral;
    if ReleaseNotes.VersionOf(line) == Some(v) {
      var a, b, c := VersionPieces(line[4..]);
      InBrackets(line, v);
      assert NamesVersion(line, v, a, b, c);
    }
    if a, b, c :| NamesVersion(line, v, a, b, c) {
      var rest := AfterBrackets(line, v);
      VersionReads(line[4..], a, b, c, rest);
    }
  }

  lemma InBrackets(line: string, v: string)
    requires "## [" <= line && v + "]" <= line[4..]
    ensures "## [" + (v + "]") <= line
  {
    assert line == "## [" + line[4..];
  }

  lemma AfterBrackets(line: string, v: string) returns (rest: string)
    requires "## [" + (v + "]") <= line
    ensures "## [" <= line && line[4..] == v + ("]" + rest)
  {
    var head := "## [" + (v + "]");
    rest := line[|head|..];
    assert line[..|head|] == head;
    assert line == "## [" + (v + ("]" + rest));
  }

  lemma VersionPieces(s: string) returns (a: string, b: string, c: string)
    requires ReleaseNotes.LeadingVersion(s).Some?
    ensures Numeral(a) && Numeral(b) && Numeral(c)
    ensures ReleaseNotes.LeadingVersion(s).value == a + ("." + (b + ("." + c)))
    ensures a + ("." + (b + ("." + c))) + "]" <= s
  {
    var rest;
    a, b, c, rest := Pieces(s);
    hide *;
    Regroup(a, b, c, rest);
    VersionReads(s, a, b, c, rest);
    var v := a + ("." + (b + ("." + c)));
    assert s == v + "]" + rest;
  }

  predicate StopsWith(s: string, stop: char) {
    0 < Digits(s) < |s| && s[Digits(s)] == stop
  }

  lemma VersionStops(s: string)
    requires ReleaseNotes.LeadingVersion(s).Some?
    ensures StopsWith(s, '.')
    ensures var t := s[Digits(s) + 1..];
      StopsWith(t, '.') && StopsWith(t[Digits(t) + 1..], ']')
  {
    hide Digits;
    var a := Digits(s);
    assert s[a] == s[a..][0];
    var t := s[a + 1..];
    var b := Digits(t);
    assert t[b] == t[b..][0];
    var u := t[b + 1..];
    assert u[Digits(u)] == u[Digits(u)..][0];
  }

  lemma Pieces(s: string) returns (a: string, b: string, c: string, rest: string)
    requires ReleaseNotes.LeadingVersion(s).Some?
    ensures Numeral(a) && Numeral(b) && Numeral(c)
    ensures s == a + ("." + (b + ("." + (c + ("]" + rest)))))
  {
    hide Digits, Numeral, ReleaseNotes.LeadingVersion, StopsWith;
    VersionStops(s);
    var t, u;
    a, t := Piece(s, '.');
    b, u := Piece(t, '.');
    c, rest := Piece(u, ']');
  }

  lemma Piece(s: string, stop: char) returns (a: string, rest: string)
    requires StopsWith(s, stop)
    ensures Numeral(a) && s == a + ([stop] + rest) && |a| == Digits(s) && rest == s[|a| + 1..]
  {
    hide Digits;
    NumeralSplits(s);
    a, rest := s[..Digits(s)], s[Digits(s) + 1..];
  }

  lemma Regroup(a: string, b: string, c: string, rest: string)
    ensures a + ("." + (b + ("." + (c + ("]" + rest))))) == a + ("." + (b + ("." + c))) + ("]" + rest)
  {
  }

  lemma VersionReads(s: string, a: string, b: string, c: string, rest: string)
    requires Numeral(a) && Numeral(b) && Numeral(c)
    requires s == a + ("." + (b + ("." + c))) + ("]" + rest)
    ensures ReleaseNotes.LeadingVersion(s) == Some(a + ("." + (b + ("." + c))))
  {
    hide Digits, Numeral;
    var u := c + ("]" + rest);
    var t := b + ("." + u);
    Regroup(a, b, c, rest);
    assert s == a + ("." + t);
    StandsBefore(a, '.', t);
    StandsBefore(b, '.', u);
    StandsBefore(c, ']', rest);
    var v := a + ("." + (b + ("." + c)));
    assert s[..|v|] == v;
  }

  lemma StandsBefore(a: string, stop: char, rest: string)
    requires Numeral(a) && !Digit(stop)
    ensures var s := a + ([stop] + rest);
      0 < Digits(s) == |a| && s[|a|..] == [stop] + rest && s[|a| + 1..] == rest
  {
    hide Digits;
    NumeralStands(a, [stop] + rest);
  }

  // ---------------------------------------------------------------- the parts of a release title

  /** White space, a sign, a number, and whatever follows. */
  ghost predicate NamesInt(s: string, n: int, blank: string, sign: string, digits: string, rest: string) {
    && AllSpace(blank) && sign in {"", "+", "-"} && Numeral(digits) && NoDigitNext(rest)
    && s == blank + (sign + (digits + rest))
    && n == if sign == "-" then -(Value(digits) as int) else Value(digits) as int
  }

  /** A part is a number if and only if it starts so, and no number otherwise. */
  lemma ParseIntIff(s: string, n: int)
    ensures ReleaseOrder.ParseInt(s) == Some(n) <==>
      exists blank, sign, digits, rest :: NamesInt(s, n, blank, sign, digits, rest)
  {
    hide Value, Digits, TrimStart, Space, AllSpace;
    if ReleaseOrder.ParseInt(s) == Some(n) {
      var blank, sign, digits, rest := IntPieces(s, n);
    }
    if blank, sign, digits, rest :| NamesInt(s, n, blank, sign, digits, rest) {
      IntReads(s, n, blank, sign, digits, rest);
    }
  }

  lemma IntPieces(s: string, n: int) returns (blank: string, sign: string, digits: string, rest: string)
    requires ReleaseOrder.ParseInt(s) == Some(n)
    ensures NamesInt(s, n, blank, sign, digits, rest)
  {
    hide Value, Digits, TrimStart, Space, AllSpace, Numeral, NoDigitNext;
    TrimStartLeaves(s);
    var t := TrimStart(s);
    blank := s[..|s| - |t|];
    var u;
    sign, u := SignPieces(t);
    NumeralSplits(u);
    digits, rest := u[..Digits(u)], u[Digits(u)..];
  }

  lemma SignPieces(t: string) returns (sign: string, u: string)
    ensures t == sign + u && sign in {"", "+", "-"}
    ensures sign == "-" <==> "-" <= t
    ensures u == if "-" <= t || "+" <= t then t[1..] else t
  {
    sign, u := if "-" <= t then "-" else if "+" <= t then "+" else "", if "-" <= t || "+" <= t then t[1..] else t;
  }

  lemma IntReads(s: string, n: int, blank: string, sign: string, digits: string, rest: string)
    requires NamesInt(s, n, blank, sign, digits, rest)
    ensures ReleaseOrder.ParseInt(s) == Some(n)
  {
    hide Value, Digits, TrimStart;
    var u := digits + rest;
    var t := sign + u;
    assert digits[0] in digits;
    assert t[0] == if sign == "" then digits[0] else sign[0];
    assert !Space(t[0]);
    TrimStartIs(blank, t);
    NumeralStands(digits, rest);
    if sign == "" {
      assert t == u && !("-" <= t) && !("+" <= t);
    } else {
      assert t[1..] == u && t[..1] == sign;
    }
  }

  function Dotted(ns: seq<nat>): string
    requires ns != []
  {
    if |ns| == 1 then Dec(ns[0]) else Dec(ns[0]) + "." + Dotted(ns[1..])
  }

  function Numbers(ns: seq<nat>): (r: seq<Option<int>>)
    ensures |r| == |ns| && forall i :: 0 <= i < |ns| ==> r[i] == Some(ns[i] as int)
  {
    seq(|ns|, i requires 0 <= i < |ns| => Some(ns[i] as int))
  }

  lemma {:induction false} SplitOnAfter(a: string, c: char, rest: string)
    requires c !in a
    ensures ReleaseOrder.SplitOn(a + [c] + rest, c) == [a] + ReleaseOrder.SplitOn(rest, c)
    ensures ReleaseOrder.SplitOn(a, c) == [a]
  {
    if a == "" {
      assert (a + [c] + rest)[1..] == rest;
    } else {
      SplitOnAfter(a[1..], c, rest);
      assert (a + [c] + rest)[1..] == a[1..] + [c] + rest;
      assert a[0] in a && [a[0]] + a[1..] == a;
    }
  }

  lemma DecReads(n: nat)
    ensures ReleaseOrder.ParseInt(Dec(n)) == Some(n as int) && '.' !in Dec(n)
  {
    hide Dec, Value;
    assert "" + ("" + (Dec(n) + "")) == Dec(n);
    ValueOfDec(n);
    IntReads(Dec(n), n, "", "", Dec(n), "");
  }

  /** A title of dotted numbers is compared by those numbers, not by its text. */
  lemma {:induction false} DottedReads(ns: seq<nat>)
    requires ns != []
    ensures ReleaseOrder.Version(Dotted(ns)) == Numbers(ns)
  {
    hide Dec, ReleaseOrder.ParseInt;
    DecReads(ns[0]);
    if |ns| == 1 {
      SplitOnAfter(Dec(ns[0]), '.', "");
    } else {
      DottedReads(ns[1..]);
      SplitOnAfter(Dec(ns[0]), '.', Dotted(ns[1..]));
      var rest := ReleaseOrder.SplitOn(Dotted(ns[1..]), '.');
      assert ([Dec(ns[0])] + rest)[1..] == rest;
      assert ReleaseOrder.Version(Dotted(ns)) == [Some(ns[0] as int)] + ReleaseOrder.Version(Dotted(ns[1..]));
    }
  }

  /** The number at `i`; missing ones count as zero. */
  function At(ns: seq<nat>, i: nat): nat {
    if i < |ns| then ns[i] else 0
  }

  ghost predicate DiffersAt(ns: seq<nat>, ms: seq<nat>, from: nat, i: nat) {
    from <= i && At(ns, i) > At(ms, i) && forall j :: from <= j < i ==> At(ns, j) == At(ms, j)
  }

  /** `ns` has the larger number at the first difference from there on. */
  ghost predicate NewerFrom(ns: seq<nat>, ms: seq<nat>, from: nat) {
    exists i: nat :: DiffersAt(ns, ms, from, i)
  }

  lemma NewerStep(ns: seq<nat>, ms: seq<nat>, i: nat)
    ensures At(ns, i) > At(ms, i) ==> NewerFrom(ns, ms, i)
    ensures At(ns, i) < At(ms, i) ==> !NewerFrom(ns, ms, i)
    ensures At(ns, i) == At(ms, i) ==> (NewerFrom(ns, ms, i) <==> NewerFrom(ns, ms, i + 1))
  {
    hide At;
    if At(ns, i) > At(ms, i) {
      assert DiffersAt(ns, ms, i, i);
    } else if At(ns, i) == At(ms, i) {
      if k: nat :| DiffersAt(ns, ms, i, k) {
        assert DiffersAt(ns, ms, i + 1, k);
      }
      var next := i + 1;
      if k: nat :| DiffersAt(ns, ms, next, k) {
        assert DiffersAt(ns, ms, i, k);
      }
    }
  }

  lemma NumberAt(ns: seq<nat>, i: nat)
    ensures ReleaseOrder.Part(Numbers(ns), i) == Some(At(ns, i) as int)
  {
  }

  lemma {:induction false} NumbersCompare(ns: seq<nat>, ms: seq<nat>, i: nat)
    ensures var c := ReleaseOrder.CompareFrom(Numbers(ns), Numbers(ms), i);
      c.Some? && (c.value < 0 <==> NewerFrom(ns, ms, i)) && (c.value > 0 <==> NewerFrom(ms, ns, i))
    decreases |ns| + |ms| - i
  {
    hide NewerFrom, At, Numbers, ReleaseOrder.Part;
    NumberAt(ns, i);
    NumberAt(ms, i);
    if i < ReleaseOrder.Max(|ns|, |ms|) {
      NewerStep(ns, ms, i);
      NewerStep(ms, ns, i);
      if At(ns, i) == At(ms, i) {
        NumbersCompare(ns, ms, i + 1);
      }
    } else {
      NothingNewer(ns, ms, i);
      NothingNewer(ms, ns, i);
    }
  }

  lemma NothingNewer(ns: seq<nat>, ms: seq<nat>, i: nat)
    requires i >= |ns|
    ensures !NewerFrom(ns, ms, i)
  {
  }

  /** Titles of dotted numbers stand with the newer one first: the larger number at the first difference decides. */
  lemma DottedOrder(ns: seq<nat>, ms: seq<nat>)
    requires ns != [] && ms != []
    ensures var c := ReleaseOrder.CompareFrom(ReleaseOrder.Version(Dotted(ns)), ReleaseOrder.Version(Dotted(ms)), 0);
      c.Some? && (c.value < 0 <==> NewerFrom(ns, ms, 0)) && (c.value > 0 <==> NewerFrom(ms, ns, 0))
    ensures ReleaseOrder.NotAfter(Dotted(ns), Dotted(ms)) <==> !NewerFrom(ms, ns, 0)
  {
    hide NewerFrom, ReleaseOrder.Version, ReleaseOrder.CompareFrom, Dotted;
    DottedReads(ns);
    DottedReads(ms);
    NumbersCompare(ns, ms, 0);
  }
}
