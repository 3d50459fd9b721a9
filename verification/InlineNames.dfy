/** Fresh names (`freshName` in scripts/inline-functions.ts): the base name, or the first free `base_2`, `base_3`, ... */
module InlineNames {
  import opened Prelude

  function Digit(d: nat): char
    requires d < 10
  {
    "0123456789"[d]
  }

  function Decimal(n: nat): (s: string)
    ensures s != []
  {
    if n < 10 then [Digit(n)] else Decimal(n / 10) + [Digit(n % 10)]
  }

  lemma {:induction false} DecimalInjective(m: nat, n: nat)
    ensures Decimal(m) == Decimal(n) ==> m == n
  {
    if Decimal(m) == Decimal(n) {
      DigitInjective(m % 10, n % 10);
      assert Last(Decimal(m)) == Digit(m % 10) && Last(Decimal(n)) == Digit(n % 10);
      if m >= 10 {
        assert Decimal(m)[..|Decimal(m)| - 1] == Decimal(m / 10);
      }
      if n >= 10 {
        assert Decimal(n)[..|Decimal(n)| - 1] == Decimal(n / 10);
      }
      if m >= 10 && n >= 10 {
        DecimalInjective(m / 10, n / 10);
      }
    }
  }

  lemma DigitInjective(d: nat, e: nat)
    requires d < 10 && e < 10
    ensures Digit(d) == Digit(e) ==> d == e
  {
  }

  function Candidate(base: string, i: nat): string {
    base + "_" + Decimal(i)
  }

  lemma CandidateInjective(base: string, i: nat, j: nat)
    ensures Candidate(base, i) == Candidate(base, j) ==> i == j
  {
    if Candidate(base, i) == Candidate(base, j) {
      var n := |base| + 1;
      assert Candidate(base, i)[n..] == Decimal(i) && Candidate(base, j)[n..] == Decimal(j);
      DecimalInjective(i, j);
    }
  }

  /** The first candidate from `i` on that is not taken. */
  function FreshFrom(base: string, taken: set<string>, i: nat): (k: nat)
    ensures k >= i && Candidate(base, k) !in taken
    ensures forall j :: i <= j < k ==> Candidate(base, j) in taken
    decreases |taken|
  {
    if Candidate(base, i) !in taken then i
    else
      var k := FreshFrom(base, taken - {Candidate(base, i)}, i + 1);
      CandidateInjective(base, i, k);
      k
  }

  function FreshName(base: string, taken: set<string>): (name: string)
    ensures name !in taken
    ensures base !in taken ==> name == base
  {
    if base !in taken then base else Candidate(base, FreshFrom(base, taken, 2))
  }

  /** The numbers start at two and leave none out. */
  lemma SecondName(base: string, taken: set<string>)
    requires base in taken
    ensures base + "_2" !in taken ==> FreshName(base, taken) == base + "_2"
    ensures base + "_2" in taken && base + "_3" !in taken ==> FreshName(base, taken) == base + "_3"
  {
    assert Decimal(2) == "2" && Decimal(3) == "3";
    assert Candidate(base, 2) == base + "_2" && Candidate(base, 3) == base + "_3";
  }

  /** The loop ends because only finitely many names are taken. */
  method FindFreshName(base: string, taken: set<string>) returns (name: string)
    ensures name == FreshName(base, taken)
  {
    if base !in taken {
      return base;
    }
    var i := 2;
    name := Candidate(base, i);
    ghost var k := FreshFrom(base, taken, 2);
    while name in taken
      invariant 2 <= i <= k && name == Candidate(base, i)
      decreases k - i
    {
      i := i + 1;
      name := Candidate(base, i);
    }
  }
}
