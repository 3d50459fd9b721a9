/**
 Running substituted code in the caller's frame mirrors running the original in
 the helper's frame, as long as the names that replace others are fresh.
*/
module InlineSim {
  import opened Prelude
  import opened InlineSyntax
  import opened InlineEval
  import opened InlineStmts

  /** What a helper name denotes is what its replacement denotes in the caller. */
  ghost predicate Denotes(sub: map<string, Expr>, f: Frame, g: Frame, x: string) {
    if x !in f then x !in sub && x !in g
    else if x !in sub then x in g && g[x] == f[x]
    else if sub[x].Var? then sub[x].name in g && g[sub[x].name] == f[x]
    else sub[x].Lit? && f[x] == Some(sub[x].value)
  }

  ghost predicate Mirrors(sub: map<string, Expr>, f: Frame, g: Frame, names: set<string>) {
    forall x :: x in names ==> Denotes(sub, f, g, x)
  }

  /** Replacement names are distinct and none of the given names. */
  ghost predicate FreshTargets(sub: map<string, Expr>, names: set<string>) {
    && (forall x :: x in sub && sub[x].Var? ==> sub[x].name !in names)
    && (forall x, y :: x in sub && y in sub && x != y && sub[x].Var? && sub[y].Var? ==> sub[x].name != sub[y].name)
  }

  ghost predicate LiteralsFixed(sub: map<string, Expr>, fixed: set<string>) {
    forall x :: x in sub && !sub[x].Var? ==> x in fixed
  }

  lemma {:induction false} EvalMirrors<W>(
    it: Interp<W>, e: Expr, sub: map<string, Expr>, f: Frame, g: Frame, names: set<string>, w: W)
    requires Mirrors(sub, f, g, names) && Names(e) <= names
    ensures Eval(it, e, f, w) == Eval(it, Subst(e, sub), g, w)
    decreases e
  {
    match e {
      case Var(x) => assert Denotes(sub, f, g, x);
      case Lit(_) =>
      case Op(_, args) => EvalAllMirrors(it, args, sub, f, g, names, w);
      case Paren(i) => EvalMirrors(it, i, sub, f, g, names, w);
      case Not(o) => EvalMirrors(it, o, sub, f, g, names, w);
      case And(l, r) =>
        EvalMirrors(it, l, sub, f, g, names, w);
        EvalMirrors(it, r, sub, f, g, names, Eval(it, l, f, w).world);
      case Or(l, r) =>
        EvalMirrors(it, l, sub, f, g, names, w);
        EvalMirrors(it, r, sub, f, g, names, Eval(it, l, f, w).world);
      case Cmp(_, l, r) =>
        EvalMirrors(it, l, sub, f, g, names, w);
        EvalMirrors(it, r, sub, f, g, names, Eval(it, l, f, w).world);
    }
  }

  lemma {:induction false} EvalAllMirrors<W>(
    it: Interp<W>, es: seq<Expr>, sub: map<string, Expr>, f: Frame, g: Frame, names: set<string>, w: W)
    requires Mirrors(sub, f, g, names) && NamesAll(es) <= names
    ensures EvalAll(it, es, f, w) == EvalAll(it, SubstAll(es, sub), g, w)
    decreases es
  {
    if es != [] {
      EvalMirrors(it, es[0], sub, f, g, names, w);
      assert SubstAll(es, sub)[1..] == SubstAll(es[1..], sub);
      EvalAllMirrors(it, es[1..], sub, f, g, names, Eval(it, es[0], f, w).world);
    }
  }

  /** Both fail in the same world, or both finish in the same world with mirrored frames. */
  ghost predicate MirrorRun<W(!new)>(
    r: Completion<W>, t: Completion<W>, sub: map<string, Expr>, names: set<string>)
  {
    r.world == t.world && (r.Failed? <==> t.Failed?) && (r.Finished? ==> Mirrors(sub, r.frame, t.frame, names))
  }

  /** The statement assigns no name of `fixed`, except through a shadowing declaration. */
  predicate Respects(s: Stmt, fixed: set<string>) {
    match s
    case Do(_) => true
    case Local(x, _) => x !in fixed
    case Set(x, _) => x !in fixed
    case Branch(_, thn, els) => WritesNone(thn, fixed - Locals(thn)) && WritesNone(els, fixed - Locals(els))
  }

  lemma UpdateMirrors(sub: map<string, Expr>, f: Frame, g: Frame, names: set<string>, x: string, v: Option<Value>)
    requires Mirrors(sub, f, g, names) && FreshTargets(sub, names - sub.Keys) && x in names && x in f
    requires x in sub ==> sub[x].Var?
    ensures Mirrors(sub, f[x := v], g[Renamed(x, sub) := v], names)
  {
    forall y | y in names
      ensures Denotes(sub, f[x := v], g[Renamed(x, sub) := v], y)
    {
      assert Denotes(sub, f, g, x) && Denotes(sub, f, g, y);
    }
  }

  /** Replacement names avoid the names in play that are not replaced, and those declared in nested blocks. */
  ghost predicate Avoids(sub: map<string, Expr>, names: set<string>, bound: set<string>) {
    FreshTargets(sub, (names - sub.Keys) + bound)
  }

  /** `names` are the free names in play, `bound` the names declared in nested blocks. */
  lemma {:induction false} ExecMirrors<W(!new)>(
    it: Interp<W>, s: Stmt, sub: map<string, Expr>, f: Frame, g: Frame,
    names: set<string>, bound: set<string>, fixed: set<string>, w: W)
    requires Mirrors(sub, f, g, names) && Avoids(sub, names, bound) && LiteralsFixed(sub, fixed)
    requires StmtFree(s) <= names && StmtInner(s) <= bound && Respects(s, fixed) && (s.Local? ==> s.x in f)
    ensures MirrorRun(Exec(it, s, f, w), Exec(it, SubstStmt(s, sub), g, w), sub, names)
    decreases s
  {
    match s {
      case Do(e) => EvalMirrors(it, e, sub, f, g, names, w);
      case Local(x, e) =>
        EvalMirrors(it, e, sub, f, g, names, w);
        var o := Eval(it, e, f, w);
        if o.Ret? {
          UpdateMirrors(sub, f, g, names, x, Some(o.value));
        }
      case Set(x, e) =>
        EvalMirrors(it, e, sub, f, g, names, w);
        assert Denotes(sub, f, g, x);
        var o := Eval(it, e, f, w);
        if o.Ret? && x in f {
          UpdateMirrors(sub, f, g, names, x, Some(o.value));
        }
      case Branch(c, thn, els) =>
        EvalMirrors(it, c, sub, f, g, names, w);
        var o := Eval(it, c, f, w);
        if o.Ret? {
          ExecBlockMirrors(it, if Truthy(o.value) then thn else els, sub, f, g, names, bound, fixed, o.world);
        }
    }
  }

  lemma EnterMirrors(sub: map<string, Expr>, f: Frame, g: Frame, names: set<string>, bound: set<string>, locals: set<string>)
    requires Mirrors(sub, f, g, names) && Avoids(sub, names, bound) && locals <= bound
    ensures Mirrors(sub - locals, Enter(f, locals), Enter(g, locals), names + locals)
    ensures Avoids(sub - locals, names + locals, bound)
  {
    forall x | x in names + locals
      ensures Denotes(sub - locals, Enter(f, locals), Enter(g, locals), x)
    {
      assert x in names ==> Denotes(sub, f, g, x);
    }
  }

  lemma LeaveMirrors(
    sub: map<string, Expr>, f: Frame, g: Frame, f': Frame, g': Frame, names: set<string>, bound: set<string>,
    locals: set<string>)
    requires Mirrors(sub, f, g, names) && Avoids(sub, names, bound) && locals <= bound
    requires Mirrors(sub - locals, f', g', names + locals)
    requires forall x :: x in locals && x in sub && sub[x].Var? ==> SameAt(g, g', sub[x].name)
    requires f.Keys <= f'.Keys
    ensures Mirrors(sub, Leave(f, f', locals), Leave(g, g', locals), names)
  {
    forall x | x in names
      ensures Denotes(sub, Leave(f, f', locals), Leave(g, g', locals), x)
    {
      assert Denotes(sub, f, g, x) && Denotes(sub - locals, f', g', x);
    }
  }

  lemma StepGrows<W>(it: Interp<W>, s: Stmt, f: Frame, w: W)
    ensures var r := Exec(it, s, f, w); r.Finished? ==> f.Keys <= r.frame.Keys
  {
    if s.Branch? {
      var o := Eval(it, s.c, f, w);
      var b := if o.Ret? && Truthy(o.value) then s.thn else s.els;
      assert forall inner, names :: Leave(f, inner, names).Keys == f.Keys;
    }
  }

  lemma {:induction false} FrameGrows<W>(it: Interp<W>, b: seq<Stmt>, f: Frame, w: W)
    ensures var r := ExecAll(it, b, f, w); r.Finished? ==> f.Keys <= r.frame.Keys
    decreases b
  {
    if b != [] {
      StepGrows(it, b[0], f, w);
      var r := Exec(it, b[0], f, w);
      if r.Finished? {
        FrameGrows(it, b[1..], r.frame, r.world);
      }
    }
  }

  lemma {:induction false} ExecBlockMirrors<W(!new)>(
    it: Interp<W>, b: seq<Stmt>, sub: map<string, Expr>, f: Frame, g: Frame,
    names: set<string>, bound: set<string>, fixed: set<string>, w: W)
    requires Mirrors(sub, f, g, names) && Avoids(sub, names, bound) && LiteralsFixed(sub, fixed)
    requires BlockFree(b) - Locals(b) <= names && Locals(b) + InnerLocals(b) <= bound && WritesNone(b, fixed - Locals(b))
    ensures MirrorRun(
      ExecBlock(it, b, f, w), ExecBlock(it, SubstBlock(b, sub - Locals(b)), g, w), sub, names)
    decreases b, 1
  {
    var locals := Locals(b);
    var sub' := sub - locals;
    var c := SubstBlock(b, sub');
    LocalsAreNames(b);
    SubstBlockKeepsLocals(b, sub');
    EnterMirrors(sub, f, g, names, bound, locals);
    ExecAllMirrors(it, b, sub', Enter(f, locals), Enter(g, locals), names + locals, bound, fixed - locals, w);
    var r := ExecAll(it, b, Enter(f, locals), w);
    var t := ExecAll(it, c, Enter(g, locals), w);
    if r.Finished? {
      FrameGrows(it, b, Enter(f, locals), w);
      forall x | x in locals && x in sub && sub[x].Var?
        ensures SameAt(g, t.frame, sub[x].name)
      {
        ShadowedUntouched(it, b, sub, names, bound, fixed, x, g, w);
      }
      LeaveMirrors(sub, f, g, r.frame, t.frame, names, bound, locals);
    }
  }

  /** While a nested declaration shadows `x`, the replacement of the outer `x` is left alone. */
  lemma ShadowedUntouched<W>(
    it: Interp<W>, b: seq<Stmt>, sub: map<string, Expr>, names: set<string>, bound: set<string>, fixed: set<string>,
    x: string, g: Frame, w: W)
    requires x in Locals(b) && x in sub && sub[x].Var? && Avoids(sub, names, bound) && LiteralsFixed(sub, fixed)
    requires BlockFree(b) - Locals(b) <= names && Locals(b) <= bound && WritesNone(b, fixed - Locals(b))
    ensures var t := ExecAll(it, SubstBlock(b, sub - Locals(b)), Enter(g, Locals(b)), w);
      t.Finished? ==> SameAt(g, t.frame, sub[x].name)
  {
    var y := sub[x].name;
    var sub' := sub - Locals(b);
    WrittenAreFree(b);
    FixedUnwritten(b, fixed - Locals(b));
    if y in WrittenAll(SubstBlock(b, sub')) {
      var z := SubstWritesAll(b, sub', y);
    }
    ExecAllUntouched(it, SubstBlock(b, sub'), Enter(g, Locals(b)), w, y);
  }

  lemma {:induction false} ExecAllMirrors<W(!new)>(
    it: Interp<W>, b: seq<Stmt>, sub: map<string, Expr>, f: Frame, g: Frame,
    names: set<string>, bound: set<string>, fixed: set<string>, w: W)
    requires Mirrors(sub, f, g, names) && Avoids(sub, names, bound) && LiteralsFixed(sub, fixed)
    requires BlockFree(b) <= names && InnerLocals(b) <= bound
    requires WritesNone(b, fixed) && Locals(b) !! fixed && Locals(b) <= f.Keys
    ensures MirrorRun(ExecAll(it, b, f, w), ExecAll(it, SubstBlock(b, sub), g, w), sub, names)
    decreases b, 0
  {
    if b != [] {
      LocalsAreNames(b);
      ExecMirrors(it, b[0], sub, f, g, names, bound, fixed, w);
      var r := Exec(it, b[0], f, w);
      assert SubstBlock(b, sub)[1..] == SubstBlock(b[1..], sub);
      if r.Finished? {
        StepGrows(it, b[0], f, w);
        ExecAllMirrors(
          it, b[1..], sub, r.frame, Exec(it, SubstStmt(b[0], sub), g, w).frame, names, bound, fixed, r.world);
      }
    }
  }
}
