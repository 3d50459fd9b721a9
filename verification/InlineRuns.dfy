/** What the statements of the modelled language do to bindings and to the world. */
module InlineRuns {
  import opened InlineSyntax
  import opened InlineEval
  import opened InlineStmts

  /** An assignment to a binding is what a later read finds; it throws before the declaration has run. */
  lemma SetThenRead<W>(it: Interp<W>, x: string, e: Expr, f: Frame, w: W, v: Value, w1: W)
    requires x in f && Eval(it, e, f, w) == Ret(v, w1)
    ensures var r := Exec(it, Set(x, e), f, w);
      if f[x].Some? then
        && r.Finished? && r.world == w1 && r.frame.Keys == f.Keys
        && Eval(it, Var(x), r.frame, r.world) == Ret(v, w1)
        && forall y :: y in f && y != x ==> r.frame[y] == f[y]
      else r == Failed(w1)
  {
  }

  /** An assignment to any other name is one write of the interpretation, and throws exactly when that does. */
  lemma SetOuter<W>(it: Interp<W>, x: string, e: Expr, f: Frame, w: W, v: Value, w1: W)
    requires x !in f && Eval(it, e, f, w) == Ret(v, w1)
    ensures var r := Exec(it, Set(x, e), f, w);
      r.world == it.write(x, v, w1).world && (r.Failed? <==> it.write(x, v, w1).Throw?) && (r.Finished? ==> r.frame == f)
  {
  }

  lemma {:induction false} KeepsKeys<W>(it: Interp<W>, b: seq<Stmt>, f: Frame, w: W)
    requires Locals(b) == {}
    ensures ExecAll(it, b, f, w).Finished? ==> ExecAll(it, b, f, w).frame.Keys == f.Keys
    decreases |b|
  {
    if b != [] {
      hide Eval, Locals;
      LocalsAreNames(b);
      StepKeepsKeys(it, b[0], f, w);
      if Exec(it, b[0], f, w).Finished? {
        KeepsKeys(it, b[1..], Exec(it, b[0], f, w).frame, Exec(it, b[0], f, w).world);
      }
    }
  }

  lemma StepKeepsKeys<W>(it: Interp<W>, s: Stmt, f: Frame, w: W)
    requires !s.Local?
    ensures Exec(it, s, f, w).Finished? ==> Exec(it, s, f, w).frame.Keys == f.Keys
  {
  }

  /** A block without declarations is its statements: whatever they assign stays assigned. */
  lemma BlockIsBody<W>(it: Interp<W>, b: seq<Stmt>, f: Frame, w: W)
    requires Locals(b) == {}
    ensures ExecBlock(it, b, f, w) == ExecAll(it, b, f, w)
  {
    hide ExecAll, Locals;
    KeepsKeys(it, b, f, w);
    assert Enter(f, {}) == f;
    var r := ExecAll(it, b, f, w);
    if r.Finished? {
      assert Leave(f, r.frame, {}) == r.frame;
    }
  }

  /** A conditional runs the branch its condition selects, in its own block. */
  lemma BranchRuns<W>(it: Interp<W>, c: Expr, thn: seq<Stmt>, els: seq<Stmt>, f: Frame, w: W)
    requires Eval(it, c, f, w).Ret? && Locals(thn) == Locals(els) == {}
    ensures var o := Eval(it, c, f, w);
      Exec(it, Branch(c, thn, els), f, w) ==
      ExecAll(it, if o.value in {Undefined, NotANumber, Num(0), Bool(false)} then els else thn, f, o.world)
  {
    FalsyValues(Eval(it, c, f, w).value);
    BlockIsBody(it, thn, f, Eval(it, c, f, w).world);
    BlockIsBody(it, els, f, Eval(it, c, f, w).world);
  }
}
