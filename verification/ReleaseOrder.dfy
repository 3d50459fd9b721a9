/** The order of release titles: numeric parts, newest first. */
module ReleaseOrder {
  import opened Prelude
  import opened Decimal
  import opened ChangelogText

  function SplitOn(s: string, c: char): (r: seq<string>)
    ensures r != []
  {
    if s == "" then [""]
    else
      var r := SplitOn(s[1..], c);
      if s[0] == c then [""] + r else [[s[0]] + r[0]] + r[1..]
  }

  /** `parseInt(s, 10)`; `None` is NaN. */
  function ParseInt(s: string): Option<int> {
    var t := TrimStart(s);
    var negative := "-" <= t;
    var u := if negative || "+" <= t then t[1..] else t;
    var n := Digits(u);
    DigitsAre(u);
    if n == 0 then None else Some((if negative then -1 else 1) * Value(u[..n]))
  }

  function Ints(parts: seq<string>): (r: seq<Option<int>>)
    ensures |r| == |parts|
  {
    if parts == [] then [] else [ParseInt(parts[0])] + Ints(parts[1..])
  }

  function Version(title: string): seq<Option<int>> {
    Ints(SplitOn(title, '.'))
  }

  /** The part at `i`; missing parts are zero. */
  function Part(v: seq<Option<int>>, i: nat): Option<int> {
    if i < |v| then v[i] else Some(0)
  }

  function Max(a: nat, b: nat): nat {
    if a < b then b else a
  }

  /** The first difference right minus left; `None` where it is NaN. */
  function CompareFrom(l: seq<Option<int>>, r: seq<Option<int>>, i: nat): Option<int>
    decreases Max(|l|, |r|) - i
  {
    if i >= Max(|l|, |r|) then Some(0)
    else if Part(l, i).None? || Part(r, i).None? then None
    else if Part(l, i) != Part(r, i) then Some(Part(r, i).value - Part(l, i).value)
    else CompareFrom(l, r, i + 1)
  }

  method CompareVersionTitlesDesc(left: string, right: string) returns (c: Option<int>)
    ensures c == CompareFrom(Version(left), Version(right), 0)
  {
    var l, r := Version(left), Version(right);
    var i := 0;
    while i < Max(|l|, |r|)
      invariant i <= Max(|l|, |r|) && CompareFrom(l, r, i) == CompareFrom(l, r, 0)
    {
      if Part(l, i).None? || Part(r, i).None? {
        return None;
      }
      var difference := Part(r, i).value - Part(l, i).value;
      if difference != 0 {
        return Some(difference);
      }
      i := i + 1;
    }
    return Some(0);
  }

  /** What the sort makes of the comparison; NaN counts as equal. */
  predicate NotAfter(left: string, right: string) {
    var c := CompareFrom(Version(left), Version(right), 0);
    c.None? || c.value <= 0
  }

  predicate IsNumeric(v: seq<Option<int>>) {
    forall i :: 0 <= i < |v| ==> v[i].Some?
  }

  predicate Numeric(title: string) {
    IsNumeric(Version(title))
  }

  /** `l` is lexicographically at least `r` on positions `i..n`. */
  predicate AtLeast(l: seq<Option<int>>, r: seq<Option<int>>, i: nat, n: nat)
    requires IsNumeric(l) && IsNumeric(r)
    decreases n - i
  {
    i >= n || Part(l, i).value > Part(r, i).value ||
    (Part(l, i).value == Part(r, i).value && AtLeast(l, r, i + 1, n))
  }

  lemma {:induction false} CompareIsLexicographic(l: seq<Option<int>>, r: seq<Option<int>>, i: nat, n: nat)
    requires IsNumeric(l) && IsNumeric(r) && n >= Max(|l|, |r|)
    ensures CompareFrom(l, r, i).Some? && (CompareFrom(l, r, i).value <= 0 <==> AtLeast(l, r, i, n))
    decreases n - i
  {
    if i < n {
      CompareIsLexicographic(l, r, i + 1, n);
    }
  }

  lemma {:induction false} AtLeastTotal(l: seq<Option<int>>, r: seq<Option<int>>, i: nat, n: nat)
    requires IsNumeric(l) && IsNumeric(r)
    ensures AtLeast(l, r, i, n) || AtLeast(r, l, i, n)
    decreases n - i
  {
    if i < n {
      AtLeastTotal(l, r, i + 1, n);
    }
  }

  lemma {:induction false} AtLeastTransitive(a: seq<Option<int>>, b: seq<Option<int>>, c: seq<Option<int>>, i: nat, n: nat)
    requires IsNumeric(a) && IsNumeric(b) && IsNumeric(c) && AtLeast(a, b, i, n) && AtLeast(b, c, i, n)
    ensures AtLeast(a, c, i, n)
    decreases n - i
  {
    if i < n && Part(a, i) == Part(b, i) && Part(b, i) == Part(c, i) {
      AtLeastTransitive(a, b, c, i + 1, n);
    }
  }

  /** On numeric titles the comparison is a total preorder, so "stable descending order" means something. */
  lemma NotAfterIsPreorder(a: string, b: string, c: string)
    requires Numeric(a) && Numeric(b) && Numeric(c)
    ensures NotAfter(a, b) || NotAfter(b, a)
    ensures NotAfter(a, b) && NotAfter(b, c) ==> NotAfter(a, c)
  {
    hide Version, CompareFrom, AtLeast;
    var x, y, z := Version(a), Version(b), Version(c);
    var n := Max(|x|, Max(|y|, |z|));
    CompareIsLexicographic(x, y, 0, n);
    CompareIsLexicographic(y, x, 0, n);
    CompareIsLexicographic(y, z, 0, n);
    CompareIsLexicographic(x, z, 0, n);
    AtLeastTotal(x, y, 0, n);
    if NotAfter(a, b) && NotAfter(b, c) {
      AtLeastTransitive(x, y, z, 0, n);
    }
  }
}
