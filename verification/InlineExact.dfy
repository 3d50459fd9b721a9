/**
 When NaN can occur, guard inversion is faithful exactly for guards that flip
 no order comparison. The operands of the guards may return anything: the k-th
 value read is whatever a script says, and the world counts the reads.
*/
module InlineExact {
  import opened Prelude
  import opened InlineSyntax
  import opened InlineEval
  import opened InlineGuards

  type Script = int -> Value

  function Scripted(script: Script): Interp<int> {
    Interp((x, k) => Ret(script(k), k + 1), (x, v, k) => Ret(v, k + 1), (f, vs, k) => Ret(script(k), k + 1))
  }

  predicate Atom(e: Expr) {
    match e
    case Paren(i) => Atom(i)
    case _ => e.Var? || e.Op?
  }

  predicate Constant(e: Expr) {
    match e
    case Paren(i) => Constant(i)
    case Lit(v) => v.Num? || v.Bool?
    case _ => false
  }

  /**
   Comparisons compare operands, not both literals, and no literal stands for a
   condition, so nothing in the condition is decided in advance.
  */
  predicate Open(e: Expr) {
    match e
    case Var(_) => true
    case Op(_, _) => true
    case Lit(_) => false
    case Paren(i) => Open(i)
    case Not(o) => Open(o)
    case And(l, r) => Open(l) && Open(r)
    case Or(l, r) => Open(l) && Open(r)
    case Cmp(_, l, r) => (Atom(l) && (Atom(r) || Constant(r))) || (Constant(l) && Atom(r))
  }

  /** The inversion flips an order comparison of this condition. */
  predicate FlipsOrder(e: Expr) {
    match e
    case Paren(i) => FlipsOrder(i)
    case And(l, r) => FlipsOrder(l) || FlipsOrder(r)
    case Or(l, r) => FlipsOrder(l) || FlipsOrder(r)
    case Cmp(op, _, _) => IsOrder(op)
    case _ => false
  }

  predicate Plain(v: Value) {
    v.Num? || v.Bool?
  }

  // ---------------------------------------------------------- steering a script

  /** From position `k` on the script begins with `p`. */
  ghost predicate Matches(script: Script, k: int, p: seq<Value>) {
    forall i: nat :: i < |p| ==> script(k + i) == p[i]
  }

  lemma MatchesSplit(script: Script, k: int, p: seq<Value>, q: seq<Value>)
    requires Matches(script, k, p + q)
    ensures Matches(script, k, p) && Matches(script, k + |p|, q)
  {
    forall i: nat | i < |p|
      ensures script(k + i) == p[i]
    {
      assert script(k + i) == (p + q)[i];
    }
    forall i: nat | i < |q|
      ensures script(k + |p| + i) == q[i]
    {
      assert script(k + (|p| + i)) == (p + q)[|p| + i];
    }
  }

  ghost predicate AllPlain(p: seq<Value>) {
    forall v :: v in p ==> Plain(v)
  }

  /** Under a script that matches `p`, the expression reads exactly `p` and yields `v`. */
  ghost predicate Yields(e: Expr, p: seq<Value>, v: Value) {
    forall script: Script, k: int :: Matches(script, k, p) ==> Eval(Scripted(script), e, map[], k) == Ret(v, k + |p|)
  }

  /** Moreover no order comparison met on the way has an unordered operand. */
  ghost predicate Steers(e: Expr, p: seq<Value>, v: Value) {
    Yields(e, p, v) &&
    forall script: Script, k: int :: Matches(script, k, p) ==> Ordered(Scripted(script), e, map[], k)
  }

  ghost predicate YieldsAll(es: seq<Expr>, p: seq<Value>) {
    forall script: Script, k: int :: Matches(script, k, p) ==>
      var o := EvalAll(Scripted(script), es, map[], k);
      o.RetAll? && o.world == k + |p|
  }

  lemma {:induction false} SomeRun(e: Expr) returns (p: seq<Value>, v: Value)
    ensures Yields(e, p, v) && AllPlain(p)
    decreases e
  {
    match e {
      case Var(_) =>
        p, v := [Bool(true)], Bool(true);
        VarYields(e, v);
      case Lit(value) => p, v := [], value;
      case Op(_, args) =>
        var q := SomeRunAll(args);
        p, v := q + [Bool(true)], Bool(true);
        OpYields(e, q, v);
      case Paren(i) => p, v := SomeRun(i);
      case Not(o) =>
        p, v := SomeRun(o);
        v := Bool(!Truthy(v));
      case And(l, r) =>
        p, v := SomeRun(l);
        if Truthy(v) {
          var q, u := SomeRun(r);
          AndYields(l, r, p, v, q, u);
          p, v := p + q, u;
        }
      case Or(l, r) =>
        p, v := SomeRun(l);
        if !Truthy(v) {
          var q, u := SomeRun(r);
          OrYields(l, r, p, v, q, u);
          p, v := p + q, u;
        }
      case Cmp(op, l, r) =>
        p, v := SomeRun(l);
        var q, u := SomeRun(r);
        CmpYields(op, l, r, p, v, q, u);
        p, v := p + q, Bool(Compare(op, v, u));
    }
  }

  lemma {:induction false} SomeRunAll(es: seq<Expr>) returns (p: seq<Value>)
    ensures YieldsAll(es, p) && AllPlain(p)
    decreases es
  {
    if es == [] {
      p := [];
    } else {
      var q, v := SomeRun(es[0]);
      var t := SomeRunAll(es[1..]);
      p := q + t;
      forall script: Script, k: int | Matches(script, k, p)
        ensures EvalAll(Scripted(script), es, map[], k).RetAll?
        ensures EvalAll(Scripted(script), es, map[], k).world == k + |p|
      {
        MatchesSplit(script, k, q, t);
      }
    }
  }

  // ------------------------------------------------------ one evaluation step

  lemma EvalCmp(it: Interp<int>, op: Comparator, l: Expr, r: Expr, k: int)
    requires Eval(it, l, map[], k).Ret? && Eval(it, r, map[], Eval(it, l, map[], k).world).Ret?
    ensures var o := Eval(it, l, map[], k);
      var p := Eval(it, r, map[], o.world);
      Eval(it, Cmp(op, l, r), map[], k) == Ret(Bool(Compare(op, o.value, p.value)), p.world)
  {
    hide Compare;
  }

  lemma EvalJoin(it: Interp<int>, l: Expr, r: Expr, isAnd: bool, k: int)
    ensures var o := Eval(it, l, map[], k);
      Eval(it, if isAnd then And(l, r) else Or(l, r), map[], k) ==
      if o.Ret? && Truthy(o.value) == isAnd then Eval(it, r, map[], o.world) else o
  {
  }

  lemma VarYields(e: Expr, v: Value)
    requires e.Var?
    ensures Yields(e, [v], v)
  {
    forall script: Script, k: int | Matches(script, k, [v])
      ensures Eval(Scripted(script), e, map[], k) == Ret(v, k + |[v]|)
    {
      var i: nat := 0;
      assert script(k + i) == [v][i];
    }
  }

  lemma OpYields(e: Expr, q: seq<Value>, v: Value)
    requires e.Op? && YieldsAll(e.args, q)
    ensures Yields(e, q + [v], v)
  {
    forall script: Script, k: int | Matches(script, k, q + [v])
      ensures Eval(Scripted(script), e, map[], k) == Ret(v, k + |q + [v]|)
    {
      MatchesSplit(script, k, q, [v]);
      var i: nat := 0;
      assert script(k + |q| + i) == [v][i];
    }
  }

  lemma AndYields(l: Expr, r: Expr, p: seq<Value>, v: Value, q: seq<Value>, u: Value)
    requires Yields(l, p, v) && Truthy(v) && Yields(r, q, u)
    ensures Yields(And(l, r), p + q, u)
  {
    hide Eval, Compare;
    forall script: Script, k: int | Matches(script, k, p + q)
      ensures Eval(Scripted(script), And(l, r), map[], k) == Ret(u, k + |p + q|)
    {
      MatchesSplit(script, k, p, q);
      assert Eval(Scripted(script), l, map[], k) == Ret(v, k + |p|);
      assert Eval(Scripted(script), r, map[], k + |p|) == Ret(u, k + |p| + |q|);
      EvalJoin(Scripted(script), l, r, true, k);
    }
  }

  lemma OrYields(l: Expr, r: Expr, p: seq<Value>, v: Value, q: seq<Value>, u: Value)
    requires Yields(l, p, v) && !Truthy(v) && Yields(r, q, u)
    ensures Yields(Or(l, r), p + q, u)
  {
    hide Eval, Compare;
    forall script: Script, k: int | Matches(script, k, p + q)
      ensures Eval(Scripted(script), Or(l, r), map[], k) == Ret(u, k + |p + q|)
    {
      MatchesSplit(script, k, p, q);
      assert Eval(Scripted(script), l, map[], k) == Ret(v, k + |p|);
      assert Eval(Scripted(script), r, map[], k + |p|) == Ret(u, k + |p| + |q|);
      EvalJoin(Scripted(script), l, r, false, k);
    }
  }

  lemma CmpYields(op: Comparator, l: Expr, r: Expr, p: seq<Value>, v: Value, q: seq<Value>, u: Value)
    requires Yields(l, p, v) && Yields(r, q, u)
    ensures Yields(Cmp(op, l, r), p + q, Bool(Compare(op, v, u)))
  {
    hide Eval, Compare;
    forall script: Script, k: int | Matches(script, k, p + q)
      ensures Eval(Scripted(script), Cmp(op, l, r), map[], k) == Ret(Bool(Compare(op, v, u)), k + |p + q|)
    {
      MatchesSplit(script, k, p, q);
      assert Eval(Scripted(script), l, map[], k) == Ret(v, k + |p|);
      assert Eval(Scripted(script), r, map[], k + |p|) == Ret(u, k + |p| + |q|);
      EvalCmp(Scripted(script), op, l, r, k);
    }
  }

  /** An operand can be made to yield any value. */
  lemma {:induction false} ForceAtom(e: Expr, v: Value) returns (p: seq<Value>)
    requires Atom(e)
    ensures Yields(e, p, v) && p != []
    ensures Plain(v) ==> AllPlain(p)
  {
    match e {
      case Paren(i) => p := ForceAtom(i, v);
      case Var(_) =>
        p := [v];
        VarYields(e, v);
      case Op(_, args) =>
        var q := SomeRunAll(args);
        OpYields(e, q, v);
        p := q + [v];
    }
  }

  lemma {:induction false} ConstantYields(e: Expr) returns (v: Value)
    requires Constant(e)
    ensures Yields(e, [], v) && Plain(v)
  {
    match e {
      case Paren(i) => v := ConstantYields(i);
      case Lit(u) => v := u;
    }
  }

  /** A plain value that compares as wanted with a given plain value. */
  function Rival(op: Comparator, c: Value, want: bool, onLeft: bool): (v: Value)
    requires Plain(c)
    ensures Plain(v)
    ensures onLeft ==> Compare(op, v, c) == want
    ensures !onLeft ==> Compare(op, c, v) == want
  {
    var n := ToNumber(c).value;
    match op
    case StrictEq => if want then c else Num(n + 2)
    case StrictNe => if want then Num(n + 2) else c
    case LooseEq => if want then c else Num(n + 2)
    case LooseNe => if want then Num(n + 2) else c
    case Less => if want == onLeft then Num(n - 1) else Num(n + 1)
    case Greater => if want == onLeft then Num(n + 1) else Num(n - 1)
    case LessEq => if want == onLeft then Num(n - 1) else Num(n + 1)
    case GreaterEq => if want == onLeft then Num(n + 1) else Num(n - 1)
  }

  lemma AndSteers(l: Expr, r: Expr, p: seq<Value>, v: Value, q: seq<Value>, u: Value)
    requires Steers(l, p, v) && Truthy(v) && Steers(r, q, u)
    ensures Steers(And(l, r), p + q, u)
  {
    AndYields(l, r, p, v, q, u);
    forall script: Script, k: int | Matches(script, k, p + q)
      ensures Ordered(Scripted(script), And(l, r), map[], k)
    {
      MatchesSplit(script, k, p, q);
      assert Eval(Scripted(script), l, map[], k) == Ret(v, k + |p|);
      assert Eval(Scripted(script), r, map[], k + |p|) == Ret(u, k + |p| + |q|);
    }
  }

  lemma OrSteers(l: Expr, r: Expr, p: seq<Value>, v: Value, q: seq<Value>, u: Value)
    requires Steers(l, p, v) && !Truthy(v) && Steers(r, q, u)
    ensures Steers(Or(l, r), p + q, u)
  {
    OrYields(l, r, p, v, q, u);
    forall script: Script, k: int | Matches(script, k, p + q)
      ensures Ordered(Scripted(script), Or(l, r), map[], k)
    {
      MatchesSplit(script, k, p, q);
      assert Eval(Scripted(script), l, map[], k) == Ret(v, k + |p|);
      assert Eval(Scripted(script), r, map[], k + |p|) == Ret(u, k + |p| + |q|);
    }
  }

  lemma CmpSteers(op: Comparator, l: Expr, r: Expr, p: seq<Value>, v: Value, q: seq<Value>, u: Value)
    requires Yields(l, p, v) && Yields(r, q, u) && Plain(v) && Plain(u)
    ensures Steers(Cmp(op, l, r), p + q, Bool(Compare(op, v, u)))
  {
    CmpYields(op, l, r, p, v, q, u);
    forall script: Script, k: int | Matches(script, k, p + q)
      ensures Ordered(Scripted(script), Cmp(op, l, r), map[], k)
    {
      MatchesSplit(script, k, p, q);
      assert Eval(Scripted(script), l, map[], k) == Ret(v, k + |p|);
      assert Eval(Scripted(script), r, map[], k + |p|) == Ret(u, k + |p| + |q|);
    }
  }

  /** An open condition can be steered to either truth value with plain values only. */
  lemma {:induction false} Force(e: Expr, want: bool) returns (p: seq<Value>, v: Value)
    requires Open(e)
    ensures Steers(e, p, v) && Truthy(v) == want && AllPlain(p) && p != []
    decreases e
  {
    match e {
      case Var(_) =>
        v := Bool(want);
        p := ForceAtom(e, v);
      case Op(_, _) =>
        v := Bool(want);
        p := ForceAtom(e, v);
      case Paren(i) => p, v := Force(i, want);
      case Not(o) =>
        p, v := Force(o, !want);
        v := Bool(!Truthy(v));
      case And(l, r) =>
        p, v := Force(l, want);
        if want {
          var q, u := Force(r, true);
          AndSteers(l, r, p, v, q, u);
          p, v := p + q, u;
        }
      case Or(l, r) =>
        p, v := Force(l, want);
        if !want {
          var q, u := Force(r, false);
          OrSteers(l, r, p, v, q, u);
          p, v := p + q, u;
        }
      case Cmp(op, l, r) =>
        p, v := ForceComparison(op, l, r, want);
    }
  }

  lemma ForceComparison(op: Comparator, l: Expr, r: Expr, want: bool) returns (p: seq<Value>, v: Value)
    requires Open(Cmp(op, l, r))
    ensures Steers(Cmp(op, l, r), p, v) && Truthy(v) == want && AllPlain(p) && p != []
  {
    var p1, p2, v1, v2;
    if Atom(l) && Atom(r) {
      v2 := Num(0);
      v1 := Rival(op, v2, want, true);
      p1 := ForceAtom(l, v1);
      p2 := ForceAtom(r, v2);
    } else if Atom(l) {
      v2 := ConstantYields(r);
      v1 := Rival(op, v2, want, true);
      p1 := ForceAtom(l, v1);
      p2 := [];
    } else {
      v1 := ConstantYields(l);
      v2 := Rival(op, v1, want, false);
      p1 := [];
      p2 := ForceAtom(r, v2);
    }
    CmpSteers(op, l, r, p1, v1, p2, v2);
    p, v := p1 + p2, Bool(Compare(op, v1, v2));
  }

  // ------------------------------------------------- reaching a flipped order

  /** A condition still to be joined to the value of the part already evaluated. */
  datatype Pending = Pending(isAnd: bool, next: Expr)

  function Resume(script: Script, o: Outcome<int>, pend: seq<Pending>): Outcome<int>
    decreases |pend|
  {
    if pend == [] then o
    else
      var goesOn := o.Ret? && Truthy(o.value) == pend[0].isAnd;
      Resume(script, if goesOn then Eval(Scripted(script), pend[0].next, map[], o.world) else o, pend[1..])
  }

  /** The same continuation in the negated condition: `&&` and `||` trade places. */
  function ResumeNeg(script: Script, o: Outcome<int>, pend: seq<Pending>): Outcome<int>
    decreases |pend|
  {
    if pend == [] then o
    else
      var goesOn := o.Ret? && Truthy(o.value) != pend[0].isAnd;
      ResumeNeg(
        script,
        if goesOn then Eval(Scripted(script), NegTree(pend[0].next, NO_SUB), map[], o.world) else o,
        pend[1..])
  }

  lemma {:induction false} ResumeAppend(script: Script, o: Outcome<int>, pend: seq<Pending>, x: Pending)
    ensures Resume(script, o, pend + [x]) == Resume(script, Resume(script, o, pend), [x])
    ensures ResumeNeg(script, o, pend + [x]) == ResumeNeg(script, ResumeNeg(script, o, pend), [x])
    decreases |pend|
  {
    if pend == [] {
      assert pend + [x] == [x];
    } else {
      assert (pend + [x])[0] == pend[0] && (pend + [x])[1..] == pend[1..] + [x];
      var it := Scripted(script);
      ResumeAppend(
        script,
        if o.Ret? && Truthy(o.value) == pend[0].isAnd then Eval(it, pend[0].next, map[], o.world) else o,
        pend[1..], x);
      ResumeAppend(
        script,
        if o.Ret? && Truthy(o.value) != pend[0].isAnd then Eval(it, NegTree(pend[0].next, NO_SUB), map[], o.world) else o,
        pend[1..], x);
    }
  }

  /** After reading `p`, both the condition and its negation hold `false` and go on with `pend`. */
  ghost predicate Stuck(e: Expr, p: seq<Value>, pend: seq<Pending>) {
    forall script: Script, k: int :: Matches(script, k, p) ==>
      && Eval(Scripted(script), e, map[], k) == Resume(script, Ret(Bool(false), k + |p|), pend)
      && Eval(Scripted(script), NegTree(e, NO_SUB), map[], k) == ResumeNeg(script, Ret(Bool(false), k + |p|), pend)
  }

  /** A value that is not ordered makes a comparison and its flipped form both false. */
  lemma UnorderedIsFalse(op: Comparator, v: Value, u: Value)
    requires IsOrder(op) && LessThan(v, u).None?
    ensures !Compare(op, v, u) && !Compare(Flip(op), v, u)
  {
  }

  lemma FlippedTree(op: Comparator, l: Expr, r: Expr)
    ensures NegTree(Cmp(op, l, r), NO_SUB) == Cmp(Flip(op), l, r)
  {
    SubstNothing(l);
    SubstNothing(r);
  }

  lemma UnorderedStuck(op: Comparator, l: Expr, r: Expr, p: seq<Value>, v: Value, q: seq<Value>, u: Value)
    requires IsOrder(op) && Yields(l, p, v) && Yields(r, q, u) && LessThan(v, u).None?
    ensures Stuck(Cmp(op, l, r), p + q, [])
  {
    CmpYields(op, l, r, p, v, q, u);
    CmpYields(Flip(op), l, r, p, v, q, u);
    UnorderedIsFalse(op, v, u);
    FlippedTree(op, l, r);
    hide Eval, Compare, NegTree, Matches, LessThan, Flip;
  }

  lemma NanIsStuck(op: Comparator, l: Expr, r: Expr) returns (p: seq<Value>)
    requires Open(Cmp(op, l, r)) && IsOrder(op)
    ensures Stuck(Cmp(op, l, r), p, [])
  {
    var nan := NotANumber;
    var p1, p2, v;
    if Atom(l) {
      p1 := ForceAtom(l, nan);
      p2, v := SomeRun(r);
      UnorderedStuck(op, l, r, p1, nan, p2, v);
    } else {
      p1, v := SomeRun(l);
      p2 := ForceAtom(r, nan);
      UnorderedStuck(op, l, r, p1, v, p2, nan);
    }
    p := p1 + p2;
  }

  lemma LeftStuck(l: Expr, r: Expr, isAnd: bool, p: seq<Value>, pend: seq<Pending>)
    requires Stuck(l, p, pend)
    ensures Stuck(if isAnd then And(l, r) else Or(l, r), p, pend + [Pending(isAnd, r)])
  {
    var e := if isAnd then And(l, r) else Or(l, r);
    var x := Pending(isAnd, r);
    forall script: Script, k: int | Matches(script, k, p)
      ensures Eval(Scripted(script), e, map[], k) == Resume(script, Ret(Bool(false), k + |p|), pend + [x])
      ensures Eval(Scripted(script), NegTree(e, NO_SUB), map[], k) ==
              ResumeNeg(script, Ret(Bool(false), k + |p|), pend + [x])
    {
      var it := Scripted(script);
      ResumeAppend(script, Ret(Bool(false), k + |p|), pend, x);
      NegJoinEval(script, l, r, isAnd, k);
    }
  }

  lemma NegJoinEval(script: Script, l: Expr, r: Expr, isAnd: bool, k: int)
    ensures Eval(Scripted(script), NegTree(if isAnd then And(l, r) else Or(l, r), NO_SUB), map[], k) ==
            ResumeNeg(script, Eval(Scripted(script), NegTree(l, NO_SUB), map[], k), [Pending(isAnd, r)])
  {
    var it := Scripted(script);
    if isAnd {
      OrJoinEval(it, NegTree(l, NO_SUB), NegTree(r, NO_SUB), map[], k);
    } else {
      AndJoinEval(it, WrapTree(Negate(l, NO_SUB).prec, NegTree(l, NO_SUB)),
                  WrapTree(Negate(r, NO_SUB).prec, NegTree(r, NO_SUB)), map[], k);
    }
  }

  lemma RightStuck(l: Expr, r: Expr, isAnd: bool, p: seq<Value>, v: Value, q: seq<Value>, pend: seq<Pending>)
    requires Steers(l, p, v) && Truthy(v) == isAnd && Stuck(r, q, pend)
    ensures Stuck(if isAnd then And(l, r) else Or(l, r), p + q, pend)
  {
    var e := if isAnd then And(l, r) else Or(l, r);
    forall script: Script, k: int | Matches(script, k, p + q)
      ensures Eval(Scripted(script), e, map[], k) == Resume(script, Ret(Bool(false), k + |p + q|), pend)
      ensures Eval(Scripted(script), NegTree(e, NO_SUB), map[], k) ==
              ResumeNeg(script, Ret(Bool(false), k + |p + q|), pend)
    {
      MatchesSplit(script, k, p, q);
      RightRuns(script, l, r, isAnd, p, v, k);
      StuckAt(script, r, q, pend, k + |p|);
      hide Eval, NegTree, Matches, Stuck, Steers, Resume, ResumeNeg;
      assert k + |p| + |q| == k + |p + q|;
    }
  }

  /** The left side lets both forms go on with the right one. */
  lemma RightRuns(script: Script, l: Expr, r: Expr, isAnd: bool, p: seq<Value>, v: Value, k: int)
    requires Steers(l, p, v) && Truthy(v) == isAnd && Matches(script, k, p)
    ensures var e := if isAnd then And(l, r) else Or(l, r);
      Eval(Scripted(script), e, map[], k) == Eval(Scripted(script), r, map[], k + |p|) &&
      Eval(Scripted(script), NegTree(e, NO_SUB), map[], k) == Eval(Scripted(script), NegTree(r, NO_SUB), map[], k + |p|)
  {
    SubstNothing(l);
    NegTreeComplements(Scripted(script), l, NO_SUB, map[], k);
    NegJoinEval(script, l, r, isAnd, k);
  }

  lemma StuckAt(script: Script, e: Expr, p: seq<Value>, pend: seq<Pending>, k: int)
    requires Stuck(e, p, pend) && Matches(script, k, p)
    ensures Eval(Scripted(script), e, map[], k) == Resume(script, Ret(Bool(false), k + |p|), pend)
    ensures Eval(Scripted(script), NegTree(e, NO_SUB), map[], k) == ResumeNeg(script, Ret(Bool(false), k + |p|), pend)
  {
    hide Eval, NegTree, Resume, ResumeNeg, Matches;
  }

  ghost predicate PendingOpen(pend: seq<Pending>) {
    forall x :: x in pend ==> Open(x.next)
  }

  lemma {:induction false} ReachFlip(e: Expr) returns (p: seq<Value>, pend: seq<Pending>)
    requires Open(e) && FlipsOrder(e)
    ensures Stuck(e, p, pend) && PendingOpen(pend)
  {
    match e {
      case Paren(i) => p, pend := ReachFlip(i);
      case Cmp(op, l, r) =>
        p := NanIsStuck(op, l, r);
        pend := [];
      case And(l, r) => p, pend := ReachBelow(l, r, true);
      case Or(l, r) => p, pend := ReachBelow(l, r, false);
    }
  }

  lemma {:induction false} ReachBelow(l: Expr, r: Expr, isAnd: bool) returns (p: seq<Value>, pend: seq<Pending>)
    requires Open(l) && Open(r) && (FlipsOrder(l) || FlipsOrder(r))
    ensures Stuck(if isAnd then And(l, r) else Or(l, r), p, pend) && PendingOpen(pend)
    decreases if isAnd then And(l, r) else Or(l, r), 0
  {
    if FlipsOrder(l) {
      p, pend := ReachFlip(l);
      LeftStuck(l, r, isAnd, p, pend);
      pend := pend + [Pending(isAnd, r)];
    } else {
      var q, v := Force(l, isAnd);
      p, pend := ReachFlip(r);
      RightStuck(l, r, isAnd, q, v, p, pend);
      p := q + p;
    }
  }

  // ------------------------------------------------------------- disagreement

  ghost predicate PlainFrom(script: Script, j: int) {
    forall i :: i >= j ==> Plain(script(i))
  }

  ghost predicate Periodic(script: Script, j: int, m: nat) {
    forall i :: i >= j ==> script(i + m) == script(i)
  }

  function Shift(o: Outcome<int>, m: nat): Outcome<int> {
    if o.Ret? then Ret(o.value, o.world + m) else Throw(o.world + m)
  }

  ghost predicate Shifts(script: Script, m: nat, e: Expr, k: int) {
    var o := Eval(Scripted(script), e, map[], k);
    o.Ret? && o.world >= k && Eval(Scripted(script), e, map[], k + m) == Ret(o.value, o.world + m)
  }

  lemma JoinShifts(script: Script, m: nat, l: Expr, r: Expr, isAnd: bool, k: int)
    requires Shifts(script, m, l, k) && Shifts(script, m, r, Eval(Scripted(script), l, map[], k).world)
    ensures Shifts(script, m, if isAnd then And(l, r) else Or(l, r), k)
  {
    hide Eval, Scripted;
    EvalJoin(Scripted(script), l, r, isAnd, k);
    EvalJoin(Scripted(script), l, r, isAnd, k + m);
  }

  lemma ShiftsAre(script: Script, m: nat, e: Expr, k: int)
    requires var o := Eval(Scripted(script), e, map[], k);
      o.Ret? && o.world >= k && Eval(Scripted(script), e, map[], k + m) == Ret(o.value, o.world + m)
    ensures Shifts(script, m, e, k)
  {
  }

  lemma CmpShifts(script: Script, m: nat, op: Comparator, l: Expr, r: Expr, k: int)
    requires Shifts(script, m, l, k) && Shifts(script, m, r, Eval(Scripted(script), l, map[], k).world)
    ensures Shifts(script, m, Cmp(op, l, r), k)
  {
    hide Compare, Eval, Scripted;
    var it := Scripted(script);
    var o := Eval(it, l, map[], k);
    var p := Eval(it, r, map[], o.world);
    assert Eval(it, l, map[], k + m) == Ret(o.value, o.world + m);
    assert Eval(it, r, map[], o.world + m) == Ret(p.value, p.world + m);
    hide Shifts;
    EvalCmp(it, op, l, r, k);
    EvalCmp(it, op, l, r, k + m);
    assert Eval(it, Cmp(op, l, r), map[], k + m) == Ret(Bool(Compare(op, o.value, p.value)), p.world + m);
    ShiftsAre(script, m, Cmp(op, l, r), k);
  }

  /** Evaluation never throws, only moves forward, and repeats itself one period later. */
  lemma {:induction false} EvalShifts(script: Script, j: int, m: nat, e: Expr, k: int)
    requires Periodic(script, j, m) && k >= j
    ensures Shifts(script, m, e, k)
    decreases e
  {
    match e {
      case Var(_) =>
      case Lit(_) =>
      case Op(_, args) => EvalAllShifts(script, j, m, args, k);
      case Paren(i) => EvalShifts(script, j, m, i, k);
      case Not(o) => EvalShifts(script, j, m, o, k);
      case And(l, r) =>
        EvalShifts(script, j, m, l, k);
        EvalShifts(script, j, m, r, Eval(Scripted(script), l, map[], k).world);
        JoinShifts(script, m, l, r, true, k);
      case Or(l, r) =>
        EvalShifts(script, j, m, l, k);
        EvalShifts(script, j, m, r, Eval(Scripted(script), l, map[], k).world);
        JoinShifts(script, m, l, r, false, k);
      case Cmp(op, l, r) =>
        EvalShifts(script, j, m, l, k);
        EvalShifts(script, j, m, r, Eval(Scripted(script), l, map[], k).world);
        CmpShifts(script, m, op, l, r, k);
    }
  }

  lemma {:induction false} EvalAllShifts(script: Script, j: int, m: nat, es: seq<Expr>, k: int)
    requires Periodic(script, j, m) && k >= j
    ensures var o := EvalAll(Scripted(script), es, map[], k);
      o.RetAll? && o.world >= k && EvalAll(Scripted(script), es, map[], k + m) == RetAll(o.values, o.world + m)
    decreases es
  {
    if es != [] {
      EvalShifts(script, j, m, es[0], k);
      EvalAllShifts(script, j, m, es[1..], Eval(Scripted(script), es[0], map[], k).world);
    }
  }

  lemma {:induction false} ResumeShifts(script: Script, j: int, m: nat, o: Outcome<int>, pend: seq<Pending>)
    requires Periodic(script, j, m) && o.Ret? && o.world >= j
    ensures Resume(script, Shift(o, m), pend) == Shift(Resume(script, o, pend), m)
    decreases |pend|
  {
    if pend != [] {
      EvalShifts(script, j, m, pend[0].next, o.world);
      var goesOn := Truthy(o.value) == pend[0].isAnd;
      ResumeShifts(script, j, m, if goesOn then Eval(Scripted(script), pend[0].next, map[], o.world) else o, pend[1..]);
    }
  }

  lemma {:induction false} AtomPlain(script: Script, j: int, m: nat, e: Expr, k: int)
    requires PlainFrom(script, j) && Periodic(script, j, m) && k >= j && (Atom(e) || Constant(e))
    ensures var o := Eval(Scripted(script), e, map[], k); o.Ret? && Plain(o.value)
    decreases e
  {
    EvalShifts(script, j, m, e, k);
    match e {
      case Paren(i) => AtomPlain(script, j, m, i, k);
      case Op(_, args) => EvalAllShifts(script, j, m, args, k);
      case _ =>
    }
  }

  lemma {:induction false} OpenOrdered(script: Script, j: int, m: nat, e: Expr, k: int)
    requires PlainFrom(script, j) && Periodic(script, j, m) && k >= j && Open(e)
    ensures Ordered(Scripted(script), e, map[], k)
    decreases e
  {
    var it := Scripted(script);
    match e {
      case Paren(i) => OpenOrdered(script, j, m, i, k);
      case And(l, r) =>
        OpenOrdered(script, j, m, l, k);
        EvalShifts(script, j, m, l, k);
        OpenOrdered(script, j, m, r, Eval(it, l, map[], k).world);
      case Or(l, r) =>
        OpenOrdered(script, j, m, l, k);
        EvalShifts(script, j, m, l, k);
        OpenOrdered(script, j, m, r, Eval(it, l, map[], k).world);
      case Cmp(_, l, r) =>
        EvalShifts(script, j, m, l, k);
        AtomPlain(script, j, m, l, k);
        AtomPlain(script, j, m, r, Eval(it, l, map[], k).world);
      case _ =>
    }
  }

  /** On plain scripts the negated continuation stays the complement. */
  lemma {:induction false} ResumeComplements(
    script: Script, j: int, m: nat, o: Outcome<int>, p: Outcome<int>, pend: seq<Pending>)
    requires PlainFrom(script, j) && Periodic(script, j, m) && PendingOpen(pend)
    requires o.Ret? && o.world >= j && Complement(o, p)
    ensures Complement(Resume(script, o, pend), ResumeNeg(script, p, pend))
    decreases |pend|
  {
    if pend != [] {
      var it := Scripted(script);
      var next := pend[0].next;
      assert pend[0] in pend;
      assert PendingOpen(pend[1..]);
      if Truthy(o.value) == pend[0].isAnd {
        OpenOrdered(script, j, m, next, o.world);
        SubstNothing(next);
        NegTreeComplements(it, next, NO_SUB, map[], o.world);
        EvalShifts(script, j, m, next, o.world);
        ResumeComplements(
          script, j, m, Eval(it, next, map[], o.world), Eval(it, NegTree(next, NO_SUB), map[], o.world), pend[1..]);
      } else {
        ResumeComplements(script, j, m, o, p, pend[1..]);
      }
    }
  }

  /** Position within a cycle of length `m`. */
  function Phase(n: nat, m: nat): (r: nat)
    requires m > 0
    ensures r < m && (n < m ==> r == n)
  {
    if n < m then n else Phase(n - m, m)
  }

  /** `p` once, then `t` over and over. */
  function Looping(p: seq<Value>, t: seq<Value>): Script
    requires t != []
  {
    (i: int) =>
      if 0 <= i < |p| then p[i]
      else if i >= |p| then t[Phase(i - |p|, |t|)]
      else Bool(false)
  }

  lemma LoopingFacts(p: seq<Value>, t: seq<Value>)
    requires t != [] && AllPlain(t)
    ensures Matches(Looping(p, t), 0, p) && Matches(Looping(p, t), |p|, t)
    ensures PlainFrom(Looping(p, t), |p|) && Periodic(Looping(p, t), |p|, |t|)
  {
    var script := Looping(p, t);
    forall i: nat | i < |t|
      ensures script(|p| + i) == t[i]
    {
      assert Phase(i, |t|) == i;
    }
    forall i | i >= |p|
      ensures script(i + |t|) == script(i) && Plain(script(i))
    {
      assert Phase(i - |p| + |t|, |t|) == Phase(i - |p|, |t|);
      assert script(i) in t;
    }
  }

  /** Some script on which the negated condition is not the complement of the condition. */
  lemma FlipMisleads(e: Expr) returns (script: Script)
    requires Open(e) && FlipsOrder(e)
    ensures !Complement(Eval(Scripted(script), e, map[], 0), Eval(Scripted(script), NegTree(e, NO_SUB), map[], 0))
  {
    var p, pend := ReachFlip(e);
    if pend == [] {
      script := Looping(p, [Bool(false)]);
      LoopingFacts(p, [Bool(false)]);
    } else {
      assert pend[0] in pend;
      var t, v := Force(pend[0].next, !pend[0].isAnd);
      script := Looping(p, t);
      LoopingFacts(p, t);
      PendingMisleads(script, |p|, t, v, pend);
    }
  }

  /**
   One side evaluates the next pending condition and the other does not; from
   there on both go the same way, so they never read equally often again.
  */
  lemma PendingMisleads(script: Script, j: int, t: seq<Value>, v: Value, pend: seq<Pending>)
    requires pend != [] && PendingOpen(pend) && PlainFrom(script, j) && Periodic(script, j, |t|) && Matches(script, j, t)
    requires t != [] && Steers(pend[0].next, t, v) && Truthy(v) != pend[0].isAnd
    ensures Resume(script, Ret(Bool(false), j), pend).world != ResumeNeg(script, Ret(Bool(false), j), pend).world
  {
    assert PendingOpen(pend[1..]);
    assert Eval(Scripted(script), pend[0].next, map[], j) == Ret(v, j + |t|);
    if pend[0].isAnd {
      NegationReadsOn(script, j, t, v, pend[0].next, pend[1..]);
    } else {
      ConditionReadsOn(script, j, |t|, v, pend[1..]);
    }
  }

  lemma NegationReadsOn(script: Script, j: int, t: seq<Value>, v: Value, next: Expr, rest: seq<Pending>)
    requires PendingOpen(rest) && PlainFrom(script, j) && Periodic(script, j, |t|) && Matches(script, j, t)
    requires Steers(next, t, v) && !Truthy(v)
    ensures var o := Eval(Scripted(script), NegTree(next, NO_SUB), map[], j);
      ResumeNeg(script, o, rest).world == Resume(script, Ret(Bool(false), j), rest).world + |t|
  {
    hide Resume, ResumeNeg, NegTree;
    var o := Eval(Scripted(script), NegTree(next, NO_SUB), map[], j);
    SubstNothing(next);
    NegTreeComplements(Scripted(script), next, NO_SUB, map[], j);
    ResumeComplements(script, j, |t|, Ret(v, j + |t|), o, rest);
    FalsyAlike(script, Ret(v, j + |t|), Ret(Bool(false), j + |t|), rest);
    ResumeShifts(script, j, |t|, Ret(Bool(false), j), rest);
  }

  lemma ConditionReadsOn(script: Script, j: int, m: nat, v: Value, rest: seq<Pending>)
    requires PendingOpen(rest) && PlainFrom(script, j) && Periodic(script, j, m) && Truthy(v)
    ensures Resume(script, Ret(v, j + m), rest).world == ResumeNeg(script, Ret(Bool(false), j), rest).world + m
  {
    ResumeComplements(script, j, m, Ret(v, j), Ret(Bool(false), j), rest);
    ResumeShifts(script, j, m, Ret(v, j), rest);
  }

  lemma FalsyAlike(script: Script, o: Outcome<int>, p: Outcome<int>, pend: seq<Pending>)
    requires o.Ret? && p.Ret? && o.world == p.world && !Truthy(o.value) && !Truthy(p.value)
    ensures Resume(script, o, pend).world == Resume(script, p, pend).world
    decreases |pend|
  {
    if pend != [] && !pend[0].isAnd {
      assert Resume(script, o, pend) == Resume(script, p, pend);
    } else if pend != [] {
      FalsyAlike(script, o, p, pend[1..]);
    }
  }

  // ------------------------------------------------------------------ theorem

  lemma {:induction false} NoFlipNoDanger<W>(it: Interp<W>, e: Expr, f: Frame, w: W)
    requires !FlipsOrder(e)
    ensures Ordered(it, e, f, w)
  {
    match e {
      case Paren(i) => NoFlipNoDanger(it, i, f, w);
      case And(l, r) =>
        NoFlipNoDanger(it, l, f, w);
        NoFlipNoDanger(it, r, f, Eval(it, l, f, w).world);
      case Or(l, r) =>
        NoFlipNoDanger(it, l, f, w);
        NoFlipNoDanger(it, r, f, Eval(it, l, f, w).world);
      case _ =>
    }
  }

  lemma {:induction false} ChainOpen(guards: seq<Expr>)
    requires guards != [] && forall g :: g in guards ==> Open(g)
    ensures Open(GuardChain(guards))
  {
    if |guards| > 1 {
      ChainOpen(guards[..|guards| - 1]);
    }
  }

  lemma {:induction false} ChainFlips(guards: seq<Expr>)
    requires guards != []
    ensures FlipsOrder(GuardChain(guards)) <==> exists g :: g in guards && FlipsOrder(g)
  {
    var last := Last(guards);
    assert FlipsOrder(Paren(last)) == FlipsOrder(last);
    if |guards| == 1 {
      assert GuardChain(guards) == Paren(last);
      if FlipsOrder(GuardChain(guards)) {
        assert last in guards && FlipsOrder(last);
      }
    } else {
      var earlier := guards[..|guards| - 1];
      ChainFlips(earlier);
      assert guards == earlier + [last];
      if g :| g in earlier && FlipsOrder(g) {
        assert g in guards && FlipsOrder(g);
      }
      if FlipsOrder(last) {
        assert last in guards && FlipsOrder(last);
      }
      var chain := Or(GuardChain(earlier), Paren(last));
      assert FlipsOrder(chain) == (FlipsOrder(GuardChain(earlier)) || FlipsOrder(Paren(last)));
    }
  }

  /** The combined condition behaves as the guards in sequence under this script. */
  ghost predicate AgreesUnder(script: Script, guards: seq<Expr>)
    requires guards != []
  {
    var condition := Parse(CombineGuards(guards, NO_SUB));
    condition.Some? &&
    RunCondition(Scripted(script), condition.value, map[], 0) == RunGuards(Scripted(script), guards, map[], 0)
  }

  /**
   Guards whose operands may return anything, NaN included, are inverted
   faithfully whatever is read exactly when none of them has an order
   comparison that the inversion flips.
  */
  lemma FaithfulIffNoOrderFlip(guards: seq<Expr>)
    requires guards != [] && forall g :: g in guards ==> WellFormed(g) && Open(g)
    ensures (forall script: Script :: AgreesUnder(script, guards)) <==> (forall g :: g in guards ==> !FlipsOrder(g))
  {
    var chain := GuardChain(guards);
    CombinedTextParses(guards, NO_SUB);
    ChainOpen(guards);
    ChainFlips(guards);
    SubstNothing(chain);
    if FlipsOrder(chain) {
      var script := FlipMisleads(chain);
      ChainIsSequence(Scripted(script), guards, map[], 0);
      assert !AgreesUnder(script, guards);
    } else {
      forall script: Script
        ensures AgreesUnder(script, guards)
      {
        NoFlipNoDanger(Scripted(script), chain, map[], 0);
        NegTreeComplements(Scripted(script), chain, NO_SUB, map[], 0);
        ChainIsSequence(Scripted(script), guards, map[], 0);
      }
    }
  }

  /** The concrete failure: with NaN operands `if (a < b) return;` goes on to the tail, its inversion `a >= b` skips it. */
  lemma NanGuardIsLost()
    ensures var guards := [Cmp(Less, Var("a"), Var("b"))];
      Parse(CombineGuards(guards, NO_SUB)) == Some(Cmp(GreaterEq, Var("a"), Var("b"))) &&
      RunGuards(Scripted(k => NotANumber), guards, map[], 0) == RunsTail(2) &&
      RunCondition(Scripted(k => NotANumber), Cmp(GreaterEq, Var("a"), Var("b")), map[], 0) == Returns(2)
  {
    var g := Cmp(Less, Var("a"), Var("b"));
    CombinedTextParses([g], NO_SUB);
    assert GuardChain([g]) == Paren(g);
    var it := Scripted(k => NotANumber);
    assert Eval(it, g, map[], 0) == Ret(Bool(false), 2);
    assert RunGuards(it, [g][1..], map[], 2) == RunsTail(2);
  }
}
