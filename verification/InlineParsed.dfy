/** What the precedence grammar reads, and that it reads nothing into the text that is not there. */
module InlineParsed {
  import opened Prelude
  import opened InlineSyntax

  /** Operand tokens hold operands: names, literals and other operations. */
  predicate Operands(ts: seq<Token>) {
    forall i :: 0 <= i < |ts| && ts[i].TOperand? ==> ts[i].e.Var? || ts[i].e.Lit? || ts[i].e.Op?
  }

  /** Whatever is read is well-formed, stands at its level, and prints as the text that was read. */
  lemma {:induction false} ParsedPrints(ts: seq<Token>, level: nat)
    requires 1 <= level <= 6 && Operands(ts) && ParseAt(ts, level).Some?
    ensures var (e, rest) := ParseAt(ts, level).value;
      WellFormed(e) && Level(e) >= level && ts == Print(e) + rest && Operands(rest)
    decreases |ts|, 6 - level, 1
  {
    if level == 6 {
      if ts[0].TOpen? {
        ParsedPrints(ts[1..], 1);
        var (e, rest) := ParseAt(ts[1..], 1).value;
        assert ts == [TOpen] + (Print(e) + ([TClose] + rest[1..]));
        assert ts == [TOpen] + Print(e) + [TClose] + rest[1..];
      }
    } else if level == 5 {
      if ts[0] == TBang {
        ParsedPrints(ts[1..], 5);
      } else {
        ParsedPrints(ts, 6);
      }
    } else {
      ParsedPrints(ts, level + 1);
      var (e, rest) := ParseAt(ts, level + 1).value;
      MorePrints(e, rest, level);
    }
  }

  lemma {:induction false} MorePrints(left: Expr, ts: seq<Token>, level: nat)
    requires 1 <= level <= 4 && Operands(ts) && WellFormed(left) && Level(left) >= level && ParseMore(left, ts, level).Some?
    ensures var (e, rest) := ParseMore(left, ts, level).value;
      WellFormed(e) && Level(e) >= level && Print(left) + ts == Print(e) + rest && Operands(rest)
    decreases |ts|, 6 - level, 0
  {
    hide Print, WellFormed, Level, TokenLevel, Binary, ParseAt;
    if ts != [] && TokenLevel(ts[0]) == level {
      ParsedPrints(ts[1..], level + 1);
      var (right, rest) := ParseAt(ts[1..], level + 1).value;
      BinaryPrints(ts[0], left, right, level);
      MorePrints(Binary(ts[0], left, right), rest, level);
      assert ts == [ts[0]] + ts[1..];
      Regroup(Print(left), [ts[0]], Print(right), rest);
    }
  }

  lemma Regroup(a: seq<Token>, b: seq<Token>, c: seq<Token>, d: seq<Token>)
    ensures a + (b + (c + d)) == a + b + c + d
  {
  }

  lemma BinaryPrints(t: Token, l: Expr, r: Expr, level: nat)
    requires 1 <= level <= 4 && TokenLevel(t) == level && WellFormed(l) && WellFormed(r)
    requires Level(l) >= level && Level(r) > level
    ensures var e := Binary(t, l, r);
      WellFormed(e) && Level(e) == level && Print(e) == Print(l) + [t] + Print(r)
  {
  }

  /** Printing is the inverse of reading: a condition is read from a text if and only if it is well-formed and prints as it. */
  lemma ParsesIff(ts: seq<Token>, e: Expr)
    requires Operands(ts)
    ensures Parse(ts) == Some(e) <==> WellFormed(e) && Print(e) == ts
  {
    if Parse(ts) == Some(e) {
      ParsedPrints(ts, 1);
      assert Print(e) + [] == Print(e);
    }
    if WellFormed(e) && Print(e) == ts {
      ParseInvertsPrint(e);
    }
  }

  lemma NameStands(x: string)
    ensures WellFormed(Var(x)) && Level(Var(x)) == 6 && Print(Var(x)) == [TOperand(Var(x))]
    ensures WellFormed(Not(Var(x))) && Level(Not(Var(x))) == 5 && Print(Not(Var(x))) == [TBang, TOperand(Var(x))]
  {
    var v := Var(x);
    assert WellFormed(v) && Print(v) == [TOperand(v)];
  }

  /** `!` binds before order, order before equality, equality before `&&`, and `&&` before `||`. */
  lemma Precedence(a: string, b: string, c: string, d: string, e: string)
    ensures Parse([TOperand(Var(e)), TOr, TOperand(Var(d)), TAnd, TBang, TOperand(Var(c)), TCmp(StrictEq),
                   TOperand(Var(a)), TCmp(Less), TOperand(Var(b))]) ==
      Some(Or(Var(e), And(Var(d), Cmp(StrictEq, Not(Var(c)), Cmp(Less, Var(a), Var(b))))))
  {
    var order := Cmp(Less, Var(a), Var(b));
    var equality := Cmp(StrictEq, Not(Var(c)), order);
    var both := And(Var(d), equality);
    NameStands(a);
    NameStands(b);
    NameStands(c);
    NameStands(d);
    NameStands(e);
    assert TokenLevel(TCmp(Less)) == 4 && TokenLevel(TCmp(StrictEq)) == 3 && TokenLevel(TAnd) == 2 && TokenLevel(TOr) == 1;
    hide Print, WellFormed, Level, TokenLevel, Parse;
    BinaryPrints(TCmp(Less), Var(a), Var(b), 4);
    BinaryPrints(TCmp(StrictEq), Not(Var(c)), order, 3);
    BinaryPrints(TAnd, Var(d), equality, 2);
    BinaryPrints(TOr, Var(e), both, 1);
    ParseInvertsPrint(Or(Var(e), both));
    assert Print(both) == [TOperand(Var(d)), TAnd] + ([TBang, TOperand(Var(c)), TCmp(StrictEq)] + Print(order));
    assert Print(Or(Var(e), both)) ==
      [TOperand(Var(e)), TOr, TOperand(Var(d)), TAnd, TBang, TOperand(Var(c)), TCmp(StrictEq), TOperand(Var(a)), TCmp(Less),
       TOperand(Var(b))];
  }

  /** Chains of one level lean to the left. */
  lemma LeansLeft(op: Comparator, same: Comparator, a: string, b: string, c: string)
    requires CmpLevel(op) == CmpLevel(same)
    ensures Parse([TOperand(Var(a)), TCmp(op), TOperand(Var(b)), TCmp(same), TOperand(Var(c))]) ==
      Some(Cmp(same, Cmp(op, Var(a), Var(b)), Var(c)))
  {
    var first := Cmp(op, Var(a), Var(b));
    NameStands(a);
    NameStands(b);
    NameStands(c);
    BinaryPrints(TCmp(op), Var(a), Var(b), CmpLevel(op));
    BinaryPrints(TCmp(same), first, Var(c), CmpLevel(same));
    ParseInvertsPrint(Cmp(same, first, Var(c)));
    assert Print(Cmp(same, first, Var(c))) ==
      [TOperand(Var(a)), TCmp(op), TOperand(Var(b)), TCmp(same), TOperand(Var(c))];
  }
}
