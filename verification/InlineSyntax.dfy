/**
 The expression language of the function inliner (scripts/inline-functions.ts):
 conditions built with `!`, `&&`, `||` and comparators over operands with
 effects, their printed form, and the precedence grammar the printed form is
 read back with.
*/
module InlineSyntax {
  import opened Prelude

  datatype Value = Undefined | NotANumber | Num(n: int) | Bool(b: bool)

  datatype Comparator = StrictEq | StrictNe | LooseEq | LooseNe | Less | Greater | LessEq | GreaterEq

  /** `Op` is any other operation (call, member read, arithmetic, ...) on evaluated arguments. */
  datatype Expr =
    | Var(name: string)
    | Lit(value: Value)
    | Op(f: string, args: seq<Expr>)
    | Paren(inner: Expr)
    | Not(operand: Expr)
    | And(left: Expr, right: Expr)
    | Or(left: Expr, right: Expr)
    | Cmp(op: Comparator, left: Expr, right: Expr)

  // ----------------------------------------------------------------- printing

  /** An operand prints as one token: only the logical structure is tokenised. */
  datatype Token = TOperand(e: Expr) | TOpen | TClose | TBang | TAnd | TOr | TCmp(op: Comparator)

  predicate IsOrder(op: Comparator) {
    op.Less? || op.Greater? || op.LessEq? || op.GreaterEq?
  }

  function CmpLevel(op: Comparator): nat {
    if IsOrder(op) then 4 else 3
  }

  /** Binding strength: `||` 1, `&&` 2, equality 3, order 4, `!` 5, operands and parentheses 6. */
  function Level(e: Expr): nat {
    match e
    case Or(_, _) => 1
    case And(_, _) => 2
    case Cmp(op, _, _) => CmpLevel(op)
    case Not(_) => 5
    case _ => 6
  }

  /** The tree is one a parser can produce: looser operands are parenthesised, chains lean left. */
  predicate WellFormed(e: Expr) {
    match e
    case Or(l, r) => WellFormed(l) && WellFormed(r) && Level(r) >= 2
    case And(l, r) => WellFormed(l) && WellFormed(r) && Level(l) >= 2 && Level(r) >= 3
    case Cmp(op, l, r) => WellFormed(l) && WellFormed(r) && Level(l) >= CmpLevel(op) && Level(r) > CmpLevel(op)
    case Not(o) => WellFormed(o) && Level(o) >= 5
    case Paren(i) => WellFormed(i)
    case _ => true
  }

  function Print(e: Expr): seq<Token> {
    match e
    case Or(l, r) => Print(l) + [TOr] + Print(r)
    case And(l, r) => Print(l) + [TAnd] + Print(r)
    case Cmp(op, l, r) => Print(l) + [TCmp(op)] + Print(r)
    case Not(o) => [TBang] + Print(o)
    case Paren(i) => [TOpen] + Print(i) + [TClose]
    case _ => [TOperand(e)]
  }

  // ------------------------------------------------------------------ parsing

  function TokenLevel(t: Token): nat {
    match t
    case TOr => 1
    case TAnd => 2
    case TCmp(op) => CmpLevel(op)
    case _ => 0
  }

  function Binary(t: Token, l: Expr, r: Expr): Expr
    requires TokenLevel(t) > 0
  {
    match t
    case TOr => Or(l, r)
    case TAnd => And(l, r)
    case TCmp(op) => Cmp(op, l, r)
  }

  function ParseAt(ts: seq<Token>, level: nat): (r: Option<(Expr, seq<Token>)>)
    requires 1 <= level <= 6
    ensures r.Some? ==> |r.value.1| < |ts|
    decreases |ts|, 6 - level, 1
  {
    if ts == [] then None
    else if level == 6 then
      match ts[0]
      case TOperand(e) => Some((e, ts[1..]))
      case TOpen =>
        (match ParseAt(ts[1..], 1)
         case Some((e, rest)) => if rest != [] && rest[0] == TClose then Some((Paren(e), rest[1..])) else None
         case None => None)
      case _ => None
    else if level == 5 then
      if ts[0] == TBang then
        match ParseAt(ts[1..], 5)
        case Some((e, rest)) => Some((Not(e), rest))
        case None => None
      else
        ParseAt(ts, 6)
    else
      match ParseAt(ts, level + 1)
      case Some((e, rest)) => ParseMore(e, rest, level)
      case None => None
  }

  /** The left-associative loop of a binary level. */
  function ParseMore(left: Expr, ts: seq<Token>, level: nat): (r: Option<(Expr, seq<Token>)>)
    requires 1 <= level <= 4
    ensures r.Some? ==> |r.value.1| <= |ts|
    decreases |ts|, 6 - level, 0
  {
    if ts == [] || TokenLevel(ts[0]) != level then Some((left, ts))
    else
      match ParseAt(ts[1..], level + 1)
      case Some((right, rest)) => ParseMore(Binary(ts[0], left, right), rest, level)
      case None => None
  }

  function Parse(ts: seq<Token>): Option<Expr> {
    match ParseAt(ts, 1)
    case Some((e, rest)) => if rest == [] then Some(e) else None
    case None => None
  }

  ghost predicate StopsAt(rest: seq<Token>, level: nat) {
    rest == [] || TokenLevel(rest[0]) <= level
  }

  /** What remains to be done after a printed expression has been read at a level. */
  function Continue(e: Expr, rest: seq<Token>, level: nat): Option<(Expr, seq<Token>)>
    requires 1 <= level <= 6
  {
    if level <= 4 then ParseMore(e, rest, level) else Some((e, rest))
  }

  lemma PrintNonEmpty(e: Expr)
    ensures Print(e) != []
    ensures Level(e) == 6 ==> Print(e)[0] != TBang
  {
  }

  lemma {:induction false} ParseBinary(l: Expr, t: Token, r: Expr, rest: seq<Token>)
    requires TokenLevel(t) > 0 && WellFormed(Binary(t, l, r))
    requires StopsAt(rest, TokenLevel(t))
    ensures ParseAt(Print(l) + [t] + Print(r) + rest, TokenLevel(t)) == ParseMore(Binary(t, l, r), rest, TokenLevel(t))
    decreases Binary(t, l, r), 0
  {
    var level := TokenLevel(t);
    var more := [t] + (Print(r) + rest);
    ParsePrint(l, more, level);
    assert Print(l) + [t] + Print(r) + rest == Print(l) + more;
    assert more[1..] == Print(r) + rest;
    ParsePrint(r, rest, level + 1);
  }

  /** Reading a printed tree back at any level it may stand at yields that tree. */
  lemma {:induction false} ParsePrint(e: Expr, rest: seq<Token>, level: nat)
    requires WellFormed(e) && 1 <= level <= Level(e) && StopsAt(rest, level)
    ensures ParseAt(Print(e) + rest, level) == Continue(e, rest, level)
    decreases e, 7 - level
  {
    PrintNonEmpty(e);
    if level < Level(e) && level <= 5 {
      ParsePrint(e, rest, level + 1);
      assert (Print(e) + rest)[0] == Print(e)[0];
    } else {
      match e {
        case Or(l, r) => ParseBinary(l, TOr, r, rest);
        case And(l, r) => ParseBinary(l, TAnd, r, rest);
        case Cmp(op, l, r) => ParseBinary(l, TCmp(op), r, rest);
        case Not(o) =>
          ParsePrint(o, rest, 5);
          assert (Print(e) + rest)[1..] == Print(o) + rest;
        case Paren(i) =>
          ParsePrint(i, [TClose] + rest, 1);
          assert (Print(e) + rest)[1..] == Print(i) + ([TClose] + rest);
        case _ =>
          assert (Print(e) + rest)[1..] == rest;
      }
    }
  }

  /** Printing loses nothing: every well-formed tree is read back from its printed form. */
  lemma ParseInvertsPrint(e: Expr)
    requires WellFormed(e)
    ensures Parse(Print(e)) == Some(e)
  {
    ParsePrint(e, [], 1);
    assert Print(e) + [] == Print(e);
  }

  // ------------------------------------------------------------- substitution

  function Subst(e: Expr, sub: map<string, Expr>): Expr {
    match e
    case Var(x) => if x in sub then sub[x] else e
    case Lit(_) => e
    case Op(f, args) => Op(f, SubstAll(args, sub))
    case Paren(i) => Paren(Subst(i, sub))
    case Not(o) => Not(Subst(o, sub))
    case And(l, r) => And(Subst(l, sub), Subst(r, sub))
    case Or(l, r) => Or(Subst(l, sub), Subst(r, sub))
    case Cmp(op, l, r) => Cmp(op, Subst(l, sub), Subst(r, sub))
  }

  function SubstAll(es: seq<Expr>, sub: map<string, Expr>): (r: seq<Expr>)
    ensures |r| == |es|
  {
    if es == [] then [] else [Subst(es[0], sub)] + SubstAll(es[1..], sub)
  }

  /** Arguments are spliced in as operands: anything looser has been parenthesised. */
  ghost predicate OperandsOnly(sub: map<string, Expr>) {
    forall x :: x in sub ==> Level(sub[x]) == 6 && WellFormed(sub[x])
  }

  lemma {:induction false} SubstWellFormed(e: Expr, sub: map<string, Expr>)
    requires WellFormed(e) && OperandsOnly(sub)
    ensures WellFormed(Subst(e, sub)) && Level(Subst(e, sub)) == Level(e)
  {
    match e {
      case Or(l, r) => SubstWellFormed(l, sub); SubstWellFormed(r, sub);
      case And(l, r) => SubstWellFormed(l, sub); SubstWellFormed(r, sub);
      case Cmp(op, l, r) => SubstWellFormed(l, sub); SubstWellFormed(r, sub);
      case Not(o) => SubstWellFormed(o, sub);
      case Paren(i) => SubstWellFormed(i, sub);
      case _ =>
    }
  }

  const NO_SUB: map<string, Expr> := map[]

  lemma {:induction false} SubstNothing(e: Expr)
    ensures Subst(e, NO_SUB) == e
    decreases e
  {
    match e {
      case Op(_, args) => SubstNothingAll(args);
      case Paren(i) => SubstNothing(i);
      case Not(o) => SubstNothing(o);
      case And(l, r) => SubstNothing(l); SubstNothing(r);
      case Or(l, r) => SubstNothing(l); SubstNothing(r);
      case Cmp(_, l, r) => SubstNothing(l); SubstNothing(r);
      case _ =>
    }
  }

  lemma {:induction false} SubstNothingAll(es: seq<Expr>)
    ensures SubstAll(es, NO_SUB) == es
    decreases es
  {
    if es != [] {
      SubstNothing(es[0]);
      SubstNothingAll(es[1..]);
    }
  }
}
