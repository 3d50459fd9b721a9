/** Decimal numerals. */
module Decimal {
  import opened Prelude

  predicate Digit(c: char) {
    '0' <= c <= '9'
  }

  function Digits(s: string): (n: nat)
    ensures n <= |s|
  {
    if s != "" && Digit(s[0]) then 1 + Digits(s[1..]) else 0
  }

  function Value(s: string): nat
    requires forall c :: c in s ==> Digit(c)
  {
    if s == "" then 0
    else
      assert Last(s) in s && Digit(Last(s));
      10 * Value(s[..|s| - 1]) + (Last(s) as int - '0' as int)
  }

  lemma {:induction false} DigitsAre(s: string)
    ensures forall c :: c in s[..Digits(s)] ==> Digit(c)
    ensures Digits(s) < |s| ==> !Digit(s[Digits(s)])
  {
    if s != "" && Digit(s[0]) {
      DigitsAre(s[1..]);
      assert s[..Digits(s)] == [s[0]] + s[1..][..Digits(s[1..])];
    }
  }

  function Dec(n: nat): (s: string)
    ensures s != "" && forall c :: c in s ==> Digit(c)
  {
    if n < 10 then [('0' as int + n) as char] else Dec(n / 10) + [('0' as int + n % 10) as char]
  }

  lemma {:induction false} ValueOfDec(n: nat)
    ensures Value(Dec(n)) == n
  {
    if n >= 10 {
      ValueOfDec(n / 10);
      var s := Dec(n);
      assert s[..|s| - 1] == Dec(n / 10);
    } else {
      assert Dec(n)[..0] == "";
    }
  }

  lemma {:induction false} DigitsThen(s: string, rest: string)
    requires (forall c :: c in s ==> Digit(c)) && (rest != "" ==> !Digit(rest[0]))
    ensures Digits(s + rest) == |s|
  {
    if s == "" {
      assert s + rest == rest;
    } else {
      assert (s + rest)[1..] == s[1..] + rest;
      assert s[0] in s;
      DigitsThen(s[1..], rest);
    }
  }
}
