/**
 Guard inversion (`negate`, `wrap` and `combineGuards` in
 scripts/inline-functions.ts) on printed text, and what the text means when it
 is parsed again.
*/
module InlineGuards {
  import opened Prelude
  import opened InlineSyntax
  import opened InlineEval

  const PREC_OR := 1
  const PREC_AND := 2
  const PREC_ATOM := 3

  datatype Negated = Negated(text: seq<Token>, prec: nat)

  function Flip(op: Comparator): Comparator {
    match op
    case StrictEq => StrictNe
    case StrictNe => StrictEq
    case LooseEq => LooseNe
    case LooseNe => LooseEq
    case Less => GreaterEq
    case Greater => LessEq
    case LessEq => Greater
    case GreaterEq => Less
  }

  function LogicalPrec(e: Expr): (prec: nat)
    ensures PREC_OR <= prec <= PREC_ATOM
  {
    match e
    case Paren(i) => LogicalPrec(i)
    case Or(_, _) => PREC_OR
    case And(_, _) => PREC_AND
    case _ => PREC_ATOM
  }

  function SubText(e: Expr, sub: map<string, Expr>): seq<Token> {
    Print(Subst(e, sub))
  }

  function Wrap(part: Negated, minPrec: nat): seq<Token> {
    if part.prec < minPrec then [TOpen] + part.text + [TClose] else part.text
  }

  function Negate(e: Expr, sub: map<string, Expr>): Negated {
    match e
    case Paren(i) => Negate(i, sub)
    case Not(o) => Negated(SubText(o, sub), LogicalPrec(o))
    case Cmp(op, l, r) => Negated(SubText(l, sub) + [TCmp(Flip(op))] + SubText(r, sub), PREC_ATOM)
    case And(l, r) => Negated(Negate(l, sub).text + [TOr] + Negate(r, sub).text, PREC_OR)
    case Or(l, r) =>
      Negated(Wrap(Negate(l, sub), PREC_AND) + [TAnd] + Wrap(Negate(r, sub), PREC_AND), PREC_AND)
    case _ => Negated([TBang, TOpen] + SubText(e, sub) + [TClose], PREC_ATOM)
  }

  /** `parts.map(wrap).join(" && ")`, or the bare text of a single part. */
  function CombineGuards(guards: seq<Expr>, sub: map<string, Expr>): seq<Token>
    requires guards != []
  {
    if |guards| == 1 then Negate(guards[0], sub).text else JoinAnd(guards, sub)
  }

  function JoinAnd(guards: seq<Expr>, sub: map<string, Expr>): seq<Token>
    requires guards != []
  {
    var last := Wrap(Negate(Last(guards), sub), PREC_AND);
    if |guards| == 1 then last else JoinAnd(guards[..|guards| - 1], sub) + [TAnd] + last
  }

  // ------------------------------------------- the tree the text is read as

  /** `l || r` where the text of `r` may itself be a chain: the chain leans left. */
  function OrJoin(l: Expr, r: Expr): Expr {
    match r
    case Or(r1, r2) => Or(OrJoin(l, r1), r2)
    case _ => Or(l, r)
  }

  function AndJoin(l: Expr, r: Expr): Expr {
    match r
    case And(r1, r2) => And(AndJoin(l, r1), r2)
    case _ => And(l, r)
  }

  function WrapTree(prec: nat, e: Expr): Expr {
    if prec < PREC_AND then Paren(e) else e
  }

  function NegTree(e: Expr, sub: map<string, Expr>): Expr {
    match e
    case Paren(i) => NegTree(i, sub)
    case Not(o) => Subst(o, sub)
    case Cmp(op, l, r) => Cmp(Flip(op), Subst(l, sub), Subst(r, sub))
    case And(l, r) => OrJoin(NegTree(l, sub), NegTree(r, sub))
    case Or(l, r) =>
      AndJoin(WrapTree(Negate(l, sub).prec, NegTree(l, sub)), WrapTree(Negate(r, sub).prec, NegTree(r, sub)))
    case _ => Not(Paren(Subst(e, sub)))
  }

  lemma {:induction false} OrJoinPrints(l: Expr, r: Expr)
    requires WellFormed(l) && WellFormed(r)
    ensures WellFormed(OrJoin(l, r)) && Level(OrJoin(l, r)) == 1
    ensures Print(OrJoin(l, r)) == Print(l) + [TOr] + Print(r)
  {
    if r.Or? {
      OrJoinPrints(l, r.left);
      assert Print(l) + [TOr] + (Print(r.left) + [TOr] + Print(r.right))
          == Print(l) + [TOr] + Print(r.left) + [TOr] + Print(r.right);
    }
  }

  lemma {:induction false} AndJoinPrints(l: Expr, r: Expr)
    requires WellFormed(l) && WellFormed(r) && Level(l) >= 2 && Level(r) >= 2
    ensures WellFormed(AndJoin(l, r)) && Level(AndJoin(l, r)) == 2
    ensures Print(AndJoin(l, r)) == Print(l) + [TAnd] + Print(r)
  {
    if r.And? {
      AndJoinPrints(l, r.left);
      assert Print(l) + [TAnd] + (Print(r.left) + [TAnd] + Print(r.right))
          == Print(l) + [TAnd] + Print(r.left) + [TAnd] + Print(r.right);
    }
  }

  /** The text is the printed form of the tree, and binds at least as tightly as claimed. */
  ghost predicate Prints(n: Negated, t: Expr) {
    WellFormed(t) && Print(t) == n.text && PREC_OR <= n.prec <= Level(t) && n.prec <= PREC_ATOM
  }

  lemma WrapPrints(n: Negated, t: Expr)
    requires Prints(n, t)
    ensures WellFormed(WrapTree(n.prec, t)) && Level(WrapTree(n.prec, t)) >= 2
    ensures Print(WrapTree(n.prec, t)) == Wrap(n, PREC_AND)
  {
  }

  lemma DisjunctionPrints(e: Expr, sub: map<string, Expr>)
    requires e.Or? && Prints(Negate(e.left, sub), NegTree(e.left, sub)) && Prints(Negate(e.right, sub), NegTree(e.right, sub))
    ensures Prints(Negate(e, sub), NegTree(e, sub))
  {
    WrapPrints(Negate(e.left, sub), NegTree(e.left, sub));
    WrapPrints(Negate(e.right, sub), NegTree(e.right, sub));
    AndJoinPrints(WrapTree(Negate(e.left, sub).prec, NegTree(e.left, sub)),
                  WrapTree(Negate(e.right, sub).prec, NegTree(e.right, sub)));
  }

  /** The negated text is the printed form of a well-formed tree that binds as tightly as claimed. */
  lemma {:induction false} NegatedTextIsTree(e: Expr, sub: map<string, Expr>)
    requires WellFormed(e) && OperandsOnly(sub)
    ensures Prints(Negate(e, sub), NegTree(e, sub))
  {
    match e {
      case Paren(i) => NegatedTextIsTree(i, sub);
      case Not(o) => SubstWellFormed(o, sub);
      case Cmp(op, l, r) => SubstWellFormed(l, sub); SubstWellFormed(r, sub);
      case And(l, r) =>
        NegatedTextIsTree(l, sub);
        NegatedTextIsTree(r, sub);
        OrJoinPrints(NegTree(l, sub), NegTree(r, sub));
      case Or(l, r) =>
        NegatedTextIsTree(l, sub);
        NegatedTextIsTree(r, sub);
        DisjunctionPrints(e, sub);
      case _ => SubstWellFormed(e, sub);
    }
  }

  /** Guards in sequence are one disjunction: its negation is the combined text. */
  function GuardChain(guards: seq<Expr>): Expr
    requires guards != []
  {
    if |guards| == 1 then Paren(guards[0]) else Or(GuardChain(guards[..|guards| - 1]), Paren(Last(guards)))
  }

  lemma {:induction false} CombinedIsNegatedChain(guards: seq<Expr>, sub: map<string, Expr>)
    requires guards != [] && forall g :: g in guards ==> WellFormed(g)
    ensures WellFormed(GuardChain(guards))
    ensures Negate(GuardChain(guards), sub).text == CombineGuards(guards, sub)
    ensures Wrap(Negate(GuardChain(guards), sub), PREC_AND) == JoinAnd(guards, sub)
  {
    if |guards| > 1 {
      CombinedIsNegatedChain(guards[..|guards| - 1], sub);
    }
  }

  /** The printed condition parses, and parses to the negation of the guard chain. */
  lemma CombinedTextParses(guards: seq<Expr>, sub: map<string, Expr>)
    requires guards != [] && (forall g :: g in guards ==> WellFormed(g)) && OperandsOnly(sub)
    ensures Parse(CombineGuards(guards, sub)) == Some(NegTree(GuardChain(guards), sub))
  {
    CombinedIsNegatedChain(guards, sub);
    NegatedTextIsTree(GuardChain(guards), sub);
    ParseInvertsPrint(NegTree(GuardChain(guards), sub));
  }

  // ------------------------------------------------------------------ meaning

  datatype GuardRun<+W> = RunsTail(world: W) | Returns(world: W) | Throws(world: W)

  /** `if (g) return;` clauses one after the other. */
  function RunGuards<W>(it: Interp<W>, guards: seq<Expr>, f: Frame, w: W): GuardRun<W> {
    if guards == [] then RunsTail(w)
    else
      match Eval(it, guards[0], f, w)
      case Throw(w1) => Throws(w1)
      case Ret(v, w1) => if Truthy(v) then Returns(w1) else RunGuards(it, guards[1..], f, w1)
  }

  /** `if (condition) { tail }`. */
  function RunCondition<W>(it: Interp<W>, condition: Expr, f: Frame, w: W): GuardRun<W> {
    match Eval(it, condition, f, w)
    case Throw(w1) => Throws(w1)
    case Ret(v, w1) => if Truthy(v) then RunsTail(w1) else Returns(w1)
  }

  /** No order comparison that the inversion flips meets an operand that is not ordered. */
  ghost predicate Ordered<W>(it: Interp<W>, e: Expr, f: Frame, w: W) {
    match e
    case Paren(i) => Ordered(it, i, f, w)
    case Cmp(op, l, r) =>
      IsOrder(op) ==>
        var o := Eval(it, l, f, w);
        o.Ret? ==>
          var p := Eval(it, r, f, o.world);
          p.Ret? ==> LessThan(o.value, p.value).Some?
    case And(l, r) =>
      Ordered(it, l, f, w) &&
      var o := Eval(it, l, f, w);
      o.Ret? && Truthy(o.value) ==> Ordered(it, r, f, o.world)
    case Or(l, r) =>
      Ordered(it, l, f, w) &&
      var o := Eval(it, l, f, w);
      o.Ret? && !Truthy(o.value) ==> Ordered(it, r, f, o.world)
    case _ => true
  }

  ghost predicate GuardsOrdered<W>(it: Interp<W>, guards: seq<Expr>, f: Frame, w: W) {
    guards != [] ==>
      Ordered(it, guards[0], f, w) &&
      var o := Eval(it, guards[0], f, w);
      o.Ret? && !Truthy(o.value) ==> GuardsOrdered(it, guards[1..], f, o.world)
  }

  /** The flipped comparator is the complement exactly on ordered operands. */
  lemma FlipComplements(op: Comparator, v: Value, u: Value)
    ensures (Compare(Flip(op), v, u) != Compare(op, v, u)) <==> (IsOrder(op) ==> LessThan(v, u).Some?)
  {
  }

  lemma {:induction false} OrJoinEval<W>(it: Interp<W>, l: Expr, r: Expr, f: Frame, w: W)
    ensures Eval(it, OrJoin(l, r), f, w) == Eval(it, Or(l, r), f, w)
  {
    if r.Or? {
      OrJoinEval(it, l, r.left, f, w);
    }
  }

  lemma {:induction false} AndJoinEval<W>(it: Interp<W>, l: Expr, r: Expr, f: Frame, w: W)
    ensures Eval(it, AndJoin(l, r), f, w) == Eval(it, And(l, r), f, w)
  {
    if r.And? {
      AndJoinEval(it, l, r.left, f, w);
    }
  }

  /** The negated tree has the same effects and the opposite truth value. */
  lemma {:induction false} NegTreeComplements<W(!new)>(it: Interp<W>, e: Expr, sub: map<string, Expr>, f: Frame, w: W)
    requires Ordered(it, Subst(e, sub), f, w)
    ensures Complement(Eval(it, Subst(e, sub), f, w), Eval(it, NegTree(e, sub), f, w))
  {
    match e {
      case Paren(i) => NegTreeComplements(it, i, sub, f, w);
      case Cmp(op, l, r) =>
        var o := Eval(it, Subst(l, sub), f, w);
        if o.Ret? {
          var p := Eval(it, Subst(r, sub), f, o.world);
          if p.Ret? {
            FlipComplements(op, o.value, p.value);
          }
        }
      case And(l, r) =>
        NegTreeComplements(it, l, sub, f, w);
        OrJoinEval(it, NegTree(l, sub), NegTree(r, sub), f, w);
        var o := Eval(it, Subst(l, sub), f, w);
        if o.Ret? && Truthy(o.value) {
          NegTreeComplements(it, r, sub, f, o.world);
        }
      case Or(l, r) =>
        NegTreeComplements(it, l, sub, f, w);
        var nl := WrapTree(Negate(l, sub).prec, NegTree(l, sub));
        var nr := WrapTree(Negate(r, sub).prec, NegTree(r, sub));
        AndJoinEval(it, nl, nr, f, w);
        var o := Eval(it, Subst(l, sub), f, w);
        if o.Ret? && !Truthy(o.value) {
          NegTreeComplements(it, r, sub, f, o.world);
        }
      case _ =>
    }
  }

  /** The outcome of guard conditions read as one disjunction. */
  function AsGuardRun<W>(o: Outcome<W>): GuardRun<W> {
    if o.Throw? then Throws(o.world) else if Truthy(o.value) then Returns(o.world) else RunsTail(o.world)
  }

  lemma {:induction false} RunGuardsAppend<W>(it: Interp<W>, guards: seq<Expr>, g: Expr, f: Frame, w: W)
    ensures var run := RunGuards(it, guards, f, w);
      RunGuards(it, guards + [g], f, w) == if run.RunsTail? then AsGuardRun(Eval(it, g, f, run.world)) else run
    ensures GuardsOrdered(it, guards + [g], f, w) <==>
      GuardsOrdered(it, guards, f, w) &&
      (RunGuards(it, guards, f, w).RunsTail? ==> Ordered(it, g, f, RunGuards(it, guards, f, w).world))
  {
    if guards == [] {
      assert guards + [g] == [g] && [g][1..] == [];
    } else {
      assert (guards + [g])[1..] == guards[1..] + [g];
      var o := Eval(it, guards[0], f, w);
      if o.Ret? && !Truthy(o.value) {
        RunGuardsAppend(it, guards[1..], g, f, o.world);
      }
    }
  }

  lemma {:induction false} ChainIsSequence<W>(it: Interp<W>, guards: seq<Expr>, f: Frame, w: W)
    requires guards != []
    ensures AsGuardRun(Eval(it, GuardChain(guards), f, w)) == RunGuards(it, guards, f, w)
    ensures Ordered(it, GuardChain(guards), f, w) <==> GuardsOrdered(it, guards, f, w)
  {
    var earlier := guards[..|guards| - 1];
    assert guards == earlier + [Last(guards)];
    RunGuardsAppend(it, earlier, Last(guards), f, w);
    if |guards| > 1 {
      ChainIsSequence(it, earlier, f, w);
    }
  }

  lemma {:induction false} SubstChain(guards: seq<Expr>, sub: map<string, Expr>)
    requires guards != []
    ensures Subst(GuardChain(guards), sub) == GuardChain(SubstAll(guards, sub))
  {
    var gs := SubstAll(guards, sub);
    SubstAllAt(guards, sub);
    if |guards| > 1 {
      SubstChain(guards[..|guards| - 1], sub);
      SubstAllAt(guards[..|guards| - 1], sub);
      assert SubstAll(guards[..|guards| - 1], sub) == gs[..|gs| - 1];
    }
  }

  lemma {:induction false} SubstAllAt(es: seq<Expr>, sub: map<string, Expr>)
    ensures forall i :: 0 <= i < |es| ==> SubstAll(es, sub)[i] == Subst(es[i], sub)
  {
    if es != [] {
      SubstAllAt(es[1..], sub);
    }
  }

  /**
   The printed condition is read back as one that runs the same effects, in the
   same order, as the sequential guards, and lets the tail run exactly when none
   of them returns.
  */
  lemma CombinedGuardsAgree<W(!new)>(it: Interp<W>, guards: seq<Expr>, sub: map<string, Expr>, f: Frame, w: W)
    requires guards != [] && (forall g :: g in guards ==> WellFormed(g)) && OperandsOnly(sub)
    requires GuardsOrdered(it, SubstAll(guards, sub), f, w)
    ensures Parse(CombineGuards(guards, sub)).Some?
    ensures RunCondition(it, Parse(CombineGuards(guards, sub)).value, f, w) ==
            RunGuards(it, SubstAll(guards, sub), f, w)
  {
    CombinedTextParses(guards, sub);
    SubstChain(guards, sub);
    ChainIsSequence(it, SubstAll(guards, sub), f, w);
    NegTreeComplements(it, GuardChain(guards), sub, f, w);
  }
}
