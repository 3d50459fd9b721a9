/** Textual substitution (`subText` in scripts/inline-functions.ts): edits applied from the last to the first. */
module InlineEdits {
  import opened Prelude

  datatype Edit<T> = Edit(start: nat, end: nat, text: seq<T>)

  /** The edits in ascending order, disjoint, and inside the text. */
  ghost predicate Disjoint<T>(edits: seq<Edit<T>>, from: nat, length: nat) {
    if edits == [] then from <= length
    else from <= edits[0].start <= edits[0].end && Disjoint(edits[1..], edits[0].end, length)
  }

  lemma {:induction false} DisjointBounds<T>(edits: seq<Edit<T>>, from: nat, length: nat)
    requires Disjoint(edits, from, length)
    ensures from <= length
    ensures edits != [] ==> Last(edits).end <= length && Last(edits).start <= Last(edits).end
  {
    if edits != [] {
      DisjointBounds(edits[1..], edits[0].end, length);
    }
  }

  /** Every gap copied from the original text, every edited range replaced. */
  ghost function Simultaneous<T>(text: seq<T>, edits: seq<Edit<T>>, from: nat): seq<T>
    requires Disjoint(edits, from, |text|)
  {
    DisjointBounds(edits, from, |text|);
    if edits == [] then text[from..]
    else
      DisjointBounds(edits[1..], edits[0].end, |text|);
      text[from..edits[0].start] + edits[0].text + Simultaneous(text, edits[1..], edits[0].end)
  }

  lemma {:induction false} DisjointInit<T>(edits: seq<Edit<T>>, from: nat, length: nat)
    requires edits != [] && Disjoint(edits, from, length)
    ensures Disjoint(edits[..|edits| - 1], from, Last(edits).start)
    decreases |edits|
  {
    if |edits| > 1 {
      DisjointInit(edits[1..], edits[0].end, length);
      assert edits[1..][..|edits| - 2] == edits[..|edits| - 1][1..];
    }
  }

  /** Replacing the last range first and then the others is replacing them all at once. */
  lemma {:induction false} LastEditFirst<T>(text: seq<T>, edits: seq<Edit<T>>, from: nat)
    requires edits != [] && Disjoint(edits, from, |text|)
    ensures Last(edits).start <= Last(edits).end <= |text|
    ensures var e := Last(edits);
      Disjoint(edits[..|edits| - 1], from, e.start) &&
      Simultaneous(text, edits, from) ==
      Simultaneous(text[..e.start], edits[..|edits| - 1], from) + e.text + text[e.end..]
    decreases |edits|
  {
    var e := Last(edits);
    DisjointBounds(edits, from, |text|);
    DisjointInit(edits, from, |text|);
    if |edits| == 1 {
      assert edits[1..] == [] && edits[..0] == [];
      assert text[from..e.start] == text[..e.start][from..];
    } else {
      var d := edits[0];
      LastEditFirst(text, edits[1..], d.end);
      assert edits[1..][..|edits| - 2] == edits[..|edits| - 1][1..];
      DisjointBounds(edits[..|edits| - 1][1..], d.end, e.start);
      assert text[from..d.start] == text[..e.start][from..d.start];
    }
  }

  lemma {:induction false} SuffixIgnored<T>(text: seq<T>, suffix: seq<T>, edits: seq<Edit<T>>, from: nat)
    requires Disjoint(edits, from, |text|)
    ensures Disjoint(edits, from, |text + suffix|)
    ensures Simultaneous(text + suffix, edits, from) == Simultaneous(text, edits, from) + suffix
    decreases |edits|
  {
    DisjointBounds(edits, from, |text|);
    if edits == [] {
      assert (text + suffix)[from..] == text[from..] + suffix;
    } else {
      var d := edits[0];
      SuffixIgnored(text, suffix, edits[1..], d.end);
      DisjointBounds(edits[1..], d.end, |text|);
      assert (text + suffix)[from..d.start] == text[from..d.start];
    }
  }

  /** The loop over the edits, last one first: positions of the earlier ones stay valid. */
  method SubText<T>(text: seq<T>, edits: seq<Edit<T>>) returns (r: seq<T>)
    requires Disjoint(edits, 0, |text|)
    ensures r == Simultaneous(text, edits, 0)
  {
    r := text;
    var n := |edits|;
    assert edits[..n] == edits;
    while n > 0
      invariant 0 <= n <= |edits|
      invariant Disjoint(edits[..n], 0, |r|)
      invariant Simultaneous(r, edits[..n], 0) == Simultaneous(text, edits, 0)
    {
      var e := edits[n - 1];
      var before := r;
      LastEditFirst(before, edits[..n], 0);
      assert edits[..n][..n - 1] == edits[..n - 1];
      r := before[..e.start] + e.text + before[e.end..];
      SuffixIgnored(before[..e.start], e.text + before[e.end..], edits[..n - 1], 0);
      assert r == before[..e.start] + (e.text + before[e.end..]);
      n := n - 1;
    }
    assert edits[..0] == [];
  }
}
