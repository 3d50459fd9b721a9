/** Strict-mode inlining preserves meaning: effects, exceptions and the caller's bindings. */
module InlineTheorem {
  import opened Prelude
  import opened InlineSyntax
  import opened InlineEval
  import opened InlineGuards
  import opened InlineStmts
  import opened InlineSim
  import opened InlineReplace

  // ------------------------------------------------------------- plan invariants

  ghost predicate Targets(sub: map<string, Expr>, t: string) {
    exists x :: x in sub && sub[x] == Var(t)
  }

  /** Replacement names are pairwise distinct and were free before the replacement. */
  ghost predicate GoodPlan(plan: Plan, reserved: set<string>) {
    && reserved <= plan.reserved
    && (forall x :: x in plan.sub ==> plan.sub[x] == Lit(Undefined) || plan.sub[x].Var?)
    && (forall x :: x in plan.sub && plan.sub[x].Var? ==>
          plan.sub[x].name in plan.reserved && plan.sub[x].name !in reserved)
    && (forall x, y :: x in plan.sub && y in plan.sub && x != y && plan.sub[x].Var? && plan.sub[y].Var? ==>
          plan.sub[x].name != plan.sub[y].name)
  }

  /** The prefix declares exactly the names that replace parameters. */
  ghost predicate PrefixDeclares(plan: Plan) {
    && (forall i :: 0 <= i < |plan.prefix| ==> plan.prefix[i].Do? || plan.prefix[i].Local?)
    && (forall t :: t in Locals(plan.prefix) <==> Targets(plan.sub, t))
  }

  lemma AppendLocals(b: seq<Stmt>, s: Stmt)
    ensures Locals(b + [s]) == Locals(b) + if s.Local? then {s.x} else {}
  {
    var c := b + [s];
    assert forall i :: 0 <= i < |b| ==> c[i] == b[i];
    assert c[|b|] == s;
    forall x
      ensures x in Locals(c) <==> x in Locals(b) + if s.Local? then {s.x} else {}
    {
      if x in Locals(b) {
        var i :| 0 <= i < |b| && b[i].Local? && b[i].x == x;
        assert c[i].Local? && c[i].x == x;
      }
    }
  }

  lemma ExtendTargets(sub: map<string, Expr>, x: string, e: Expr)
    requires x !in sub
    ensures forall t :: Targets(sub[x := e], t) <==> Targets(sub, t) || e == Var(t)
  {
    forall t
      ensures Targets(sub[x := e], t) <==> Targets(sub, t) || e == Var(t)
    {
      if Targets(sub, t) {
        var y :| y in sub && sub[y] == Var(t);
        assert y in sub[x := e] && sub[x := e][y] == Var(t);
      }
      if e == Var(t) {
        assert sub[x := e][x] == Var(t);
      }
    }
  }

  ghost predicate PlanKeys(h: Helper, args: seq<Expr>, sub: map<string, Expr>, n: nat)
    requires n <= |h.params|
  {
    && (forall x :: x in sub ==> x in h.params[..n])
    && (forall i :: 0 <= i < n ==> (h.params[i] in sub <==> Used(h, h.params[i])))
    && (forall i :: 0 <= i < n && h.params[i] in sub ==> (sub[h.params[i]].Lit? <==> i >= |args|))
  }

  lemma {:induction false} PlanKeyed(h: Helper, args: seq<Expr>, reserved: set<string>, n: nat)
    requires NoDuplicates(h.params) && n <= |h.params|
    ensures PlanKeys(h, args, PlanUpTo(h, args, reserved, n).sub, n)
  {
    hide Used, LiteralArg;
    if n > 0 {
      PlanKeyed(h, args, reserved, n - 1);
      PlanKeyStep(h, args, PlanUpTo(h, args, reserved, n - 1), n - 1);
    }
  }

  lemma PlanKeyStep(h: Helper, args: seq<Expr>, plan: Plan, i: nat)
    requires NoDuplicates(h.params) && i < |h.params| && PlanKeys(h, args, plan.sub, i)
    ensures PlanKeys(h, args, PlanParam(h, args, plan, i).sub, i + 1)
  {
    hide Used, LiteralArg;
    assert h.params[..i + 1] == h.params[..i] + [h.params[i]];
    assert h.params[i] !in h.params[..i];
  }

  lemma {:induction false} PlanGood(h: Helper, args: seq<Expr>, reserved: set<string>, n: nat)
    requires n <= |h.params|
    ensures GoodPlan(PlanUpTo(h, args, reserved, n), reserved)
  {
    if n > 0 {
      PlanGood(h, args, reserved, n - 1);
    }
  }

  lemma {:induction false} PlanDeclares(h: Helper, args: seq<Expr>, reserved: set<string>, n: nat)
    requires NoDuplicates(h.params) && n <= |h.params|
    ensures PrefixDeclares(PlanUpTo(h, args, reserved, n))
  {
    if n > 0 {
      PlanDeclares(h, args, reserved, n - 1);
      PlanKeyed(h, args, reserved, n - 1);
      var plan := PlanUpTo(h, args, reserved, n - 1);
      var p := h.params[n - 1];
      var next := PlanParam(h, args, plan, n - 1);
      assert p !in plan.sub;
      if |next.prefix| > |plan.prefix| {
        AppendLocals(plan.prefix, Last(next.prefix));
      }
      if Used(h, p) {
        ExtendTargets(plan.sub, p, next.sub[p]);
      }
    }
  }

  lemma {:induction false} RenameGood(tail: seq<Stmt>, plan: Plan, reserved: set<string>, n: nat)
    requires GoodPlan(plan, reserved) && n <= |tail| && Locals(tail) !! plan.sub.Keys
    ensures GoodPlan(RenameUpTo(tail, plan, n), reserved)
    ensures RenameUpTo(tail, plan, n).prefix == plan.prefix && plan.reserved <= RenameUpTo(tail, plan, n).reserved
    ensures forall x :: x in plan.sub ==> x in RenameUpTo(tail, plan, n).sub && RenameUpTo(tail, plan, n).sub[x] == plan.sub[x]
    ensures forall x :: x in RenameUpTo(tail, plan, n).sub && x !in plan.sub ==>
      x in Locals(tail) && RenameUpTo(tail, plan, n).sub[x].Var?
  {
    if n > 0 {
      RenameGood(tail, plan, reserved, n - 1);
      if tail[n - 1].Local? {
        assert tail[n - 1].x in Locals(tail);
      }
    }
  }

  /** A declaration that kept its name was not taken. */
  lemma {:induction false} UnrenamedIsFree(tail: seq<Stmt>, plan: Plan, n: nat, x: string)
    requires n <= |tail| && x in Locals(tail[..n]) && x !in RenameUpTo(tail, plan, n).sub
    ensures x !in plan.reserved
  {
    var before := RenameUpTo(tail, plan, n - 1);
    assert tail[..n] == tail[..n - 1] + [tail[n - 1]];
    AppendLocals(tail[..n - 1], tail[n - 1]);
    RenameGrows(tail, plan, n - 1);
    if x in Locals(tail[..n - 1]) {
      UnrenamedIsFree(tail, plan, n - 1, x);
    }
  }

  lemma {:induction false} RenameGrows(tail: seq<Stmt>, plan: Plan, n: nat)
    requires n <= |tail|
    ensures plan.reserved <= RenameUpTo(tail, plan, n).reserved
    ensures plan.sub.Keys <= RenameUpTo(tail, plan, n).sub.Keys
  {
    if n > 0 {
      RenameGrows(tail, plan, n - 1);
    }
  }

  // ------------------------------------------------------------------- hygiene

  /** The shadow check: names the body takes from outside are not bound in the caller's frame. */
  ghost predicate ScopeClean(h: Helper, f: Frame) {
    forall x :: x in FreeNames(h) && x !in h.params && x !in Locals(h.tail) ==> x !in f
  }

  /**
   No new name is one the helper takes from outside or declares in a block, and
   guards do not mention declarations of the tail.
  */
  predicate Hygienic(h: Helper, args: seq<Expr>, reserved: set<string>) {
    && NewNames(h, args, reserved) !! OuterNames(h) + InnerLocals(h.tail)
    && (h.guards != [] ==> Locals(h.tail) !! NewNames(h, args, reserved) + NamesAll(h.guards))
  }

  lemma {:induction false} PlanTakes(h: Helper, args: seq<Expr>, reserved: set<string>, n: nat)
    requires n <= |h.params|
    ensures PlanUpTo(h, args, reserved, n).reserved == reserved + ToSet(TempNames(h, args, reserved, n))
    ensures forall t :: Targets(PlanUpTo(h, args, reserved, n).sub, t) ==> t in TempNames(h, args, reserved, n)
  {
    if n > 0 {
      PlanTakes(h, args, reserved, n - 1);
      var plan, next := PlanUpTo(h, args, reserved, n - 1), PlanUpTo(h, args, reserved, n);
      forall t | Targets(next.sub, t)
        ensures t in TempNames(h, args, reserved, n)
      {
        var x :| x in next.sub && next.sub[x] == Var(t);
        assert x in plan.sub && plan.sub[x] == next.sub[x] ==> Targets(plan.sub, t);
      }
    }
  }

  lemma {:induction false} RenameTakes(tail: seq<Stmt>, plan: Plan, n: nat)
    requires n <= |tail|
    ensures RenameUpTo(tail, plan, n).reserved == TakenAfter(tail, plan.reserved, n)
    ensures forall t :: Targets(RenameUpTo(tail, plan, n).sub, t) ==>
      Targets(plan.sub, t) || t in RenamedNames(tail, plan.reserved, n)
  {
    if n > 0 {
      RenameTakes(tail, plan, n - 1);
      var before, after := RenameUpTo(tail, plan, n - 1), RenameUpTo(tail, plan, n);
      forall t | Targets(after.sub, t)
        ensures Targets(plan.sub, t) || t in RenamedNames(tail, plan.reserved, n)
      {
        var x :| x in after.sub && after.sub[x] == Var(t);
        assert x in before.sub && before.sub[x] == after.sub[x] ==> Targets(before.sub, t);
      }
    }
  }

  /** The plan introduces no name that the search does not find. */
  lemma TargetsAreNew(h: Helper, args: seq<Expr>, reserved: set<string>)
    ensures forall t :: Targets(PlanUpTo(h, args, reserved, |h.params|).sub, t) ==> t in NewNames(h, args, reserved)
    ensures forall t :: Targets(FinalPlan(h, args, reserved).sub, t) ==> t in NewNames(h, args, reserved)
  {
    PlanTakes(h, args, reserved, |h.params|);
    if h.guards == [] {
      RenameTakes(h.tail, PlanUpTo(h, args, reserved, |h.params|), |h.tail|);
    }
  }

  /** A declaration of the tail that keeps its name is not a new name of another. */
  lemma {:induction false} UnrenamedIsNoTarget(tail: seq<Stmt>, plan: Plan, n: nat, x: string, y: string)
    requires n <= |tail| && x in Locals(tail[..n]) && x !in RenameUpTo(tail, plan, n).sub
    requires y in RenameUpTo(tail, plan, n).sub && y !in plan.sub
    ensures RenameUpTo(tail, plan, n).sub[y] != Var(x) && x in RenameUpTo(tail, plan, n).reserved
  {
    var s, before := tail[n - 1], RenameUpTo(tail, plan, n - 1);
    assert tail[..n] == tail[..n - 1] + [s];
    AppendLocals(tail[..n - 1], s);
    if x in Locals(tail[..n - 1]) {
      KeptIsTaken(tail, plan, n - 1, x);
      if y in before.sub {
        UnrenamedIsNoTarget(tail, plan, n - 1, x, y);
      }
    } else {
      TargetsAreTaken(tail, plan, n - 1, y);
    }
  }

  lemma {:induction false} KeptIsTaken(tail: seq<Stmt>, plan: Plan, n: nat, x: string)
    requires n <= |tail| && x in Locals(tail[..n]) && x !in RenameUpTo(tail, plan, n).sub
    ensures x in RenameUpTo(tail, plan, n).reserved
  {
    var s := tail[n - 1];
    assert tail[..n] == tail[..n - 1] + [s];
    AppendLocals(tail[..n - 1], s);
    if x in Locals(tail[..n - 1]) {
      KeptIsTaken(tail, plan, n - 1, x);
    }
  }

  lemma {:induction false} TargetsAreTaken(tail: seq<Stmt>, plan: Plan, n: nat, y: string)
    requires n <= |tail| && y !in plan.sub
    ensures var after := RenameUpTo(tail, plan, n);
      y in after.sub ==> after.sub[y].Var? && after.sub[y].name in after.reserved
  {
    if n > 0 {
      TargetsAreTaken(tail, plan, n - 1, y);
    }
  }

  // ---------------------------------------------------------- running the prefix

  lemma {:induction false} EvalAllAppend<W>(it: Interp<W>, es: seq<Expr>, e: Expr, f: Frame, w: W)
    ensures var o := EvalAll(it, es, f, w);
      var p := if o.RetAll? then Eval(it, e, f, o.world) else Throw(o.world);
      EvalAll(it, es + [e], f, w) == if p.Throw? then ThrowAll(p.world) else RetAll(o.values + [p.value], p.world)
    decreases |es|
  {
    if es == [] {
      assert es + [e] == [e] && [e][1..] == [];
    } else {
      assert (es + [e])[0] == es[0] && (es + [e])[1..] == es[1..] + [e];
      var o := Eval(it, es[0], f, w);
      if o.Ret? {
        EvalAllAppend(it, es[1..], e, f, o.world);
      }
    }
  }

  lemma {:induction false} EvalAllLength<W>(it: Interp<W>, es: seq<Expr>, f: Frame, w: W)
    ensures var o := EvalAll(it, es, f, w); o.RetAll? ==> |o.values| == |es|
    decreases |es|
  {
    if es != [] {
      var o := Eval(it, es[0], f, w);
      if o.Ret? {
        EvalAllLength(it, es[1..], f, o.world);
      }
    }
  }

  lemma {:induction false} NamesOfMember(es: seq<Expr>, i: nat)
    requires i < |es|
    ensures Names(es[i]) <= NamesAll(es)
  {
    if i > 0 {
      NamesOfMember(es[1..], i - 1);
    }
  }

  lemma {:induction false} LiteralIsSilent<W>(it: Interp<W>, e: Expr, f: Frame, w: W)
    requires LiteralArg(e)
    ensures Eval(it, e, f, w).Ret? && Eval(it, e, f, w).world == w
  {
    if e.Paren? {
      LiteralIsSilent(it, e.inner, f, w);
    }
  }

  /** The hoisted names hold the argument values. */
  ghost predicate Bound(h: Helper, sub: map<string, Expr>, g: Frame, values: seq<Value>, n: nat)
    requires n <= |h.params|
  {
    forall i :: 0 <= i < n && h.params[i] in sub && sub[h.params[i]].Var? ==>
      i < |values| && sub[h.params[i]].name in g && g[sub[h.params[i]].name] == Some(values[i])
  }

  function Min(a: nat, b: nat): nat {
    if a < b then a else b
  }

  /** What running the first `n` rounds of the prefix has done. */
  ghost predicate PrefixRan<W(!new)>(
    h: Helper, plan: Plan, n: nat, o: ListOutcome<W>, r: Completion<W>, g: Frame)
    requires n <= |h.params|
  {
    && r.world == o.world
    && (r.Failed? <==> o.ThrowAll?)
    && (r.Finished? ==>
          Bound(h, plan.sub, r.frame, o.values, n) &&
          forall y :: y !in Locals(plan.prefix) ==> SameAt(g, r.frame, y))
  }

  /** The caller's names mean the same in the block the replacement is spliced into. */
  ghost predicate Extends(f: Frame, g: Frame, reserved: set<string>) {
    forall x :: x in reserved ==> SameAt(f, g, x)
  }

  lemma ArgEvaluatesAlike<W(!new)>(
    it: Interp<W>, e: Expr, f: Frame, g: Frame, t: Frame, reserved: set<string>, hoisted: set<string>, w: W)
    requires Extends(f, g, reserved) && Names(e) <= reserved && hoisted !! reserved
    requires forall y :: y !in hoisted ==> SameAt(g, t, y)
    ensures Eval(it, e, t, w) == Eval(it, e, f, w)
  {
    forall x | x in Names(e)
      ensures Denotes(NO_SUB, f, t, x)
    {
      assert SameAt(f, g, x) && SameAt(g, t, x);
    }
    EvalMirrors(it, e, NO_SUB, f, t, Names(e), w);
    SubstNothing(e);
  }

  lemma {:induction false} PrefixRuns<W(!new)>(
    it: Interp<W>, h: Helper, args: seq<Expr>, reserved: set<string>, n: nat, f: Frame, g: Frame, w: W)
    requires NoDuplicates(h.params) && n <= |h.params| && NamesAll(args) <= reserved && Extends(f, g, reserved)
    ensures var plan := PlanUpTo(h, args, reserved, n);
      PrefixRan(h, plan, n, EvalAll(it, args[..Min(n, |args|)], f, w), ExecAll(it, plan.prefix, g, w), g)
  {
    if n > 0 {
      hide PrefixRan, PlanUpTo;
      var i := n - 1;
      PrefixRuns(it, h, args, reserved, i, f, g, w);
      if i < |args| {
        assert args[..n] == args[..i] + [args[i]];
        PrefixStep(it, h, args, reserved, i, f, g, w);
      } else {
        assert args[..|args|] == args;
        PrefixSkip(it, h, args, reserved, i, EvalAll(it, args, f, w), g, w);
      }
    } else {
      assert args[..0] == [];
    }
  }

  /** A parameter without an argument hoists nothing. */
  lemma PrefixSkip<W(!new)>(
    it: Interp<W>, h: Helper, args: seq<Expr>, reserved: set<string>, i: nat, o: ListOutcome<W>, g: Frame, w: W)
    requires NoDuplicates(h.params) && |args| <= i < |h.params|
    requires var plan := PlanUpTo(h, args, reserved, i);
      PrefixRan(h, plan, i, o, ExecAll(it, plan.prefix, g, w), g)
    ensures var next := PlanUpTo(h, args, reserved, i + 1);
      PrefixRan(h, next, i + 1, o, ExecAll(it, next.prefix, g, w), g)
  {
    hide EvalAll, ExecAll, SameAt;
    PlanKeyed(h, args, reserved, i);
    PlanGood(h, args, reserved, i);
  }

  lemma PrefixStep<W(!new)>(
    it: Interp<W>, h: Helper, args: seq<Expr>, reserved: set<string>, i: nat, f: Frame, g: Frame, w: W)
    requires NoDuplicates(h.params) && i < |h.params| && i < |args| && NamesAll(args) <= reserved && Extends(f, g, reserved)
    requires var plan := PlanUpTo(h, args, reserved, i);
      PrefixRan(h, plan, i, EvalAll(it, args[..i], f, w), ExecAll(it, plan.prefix, g, w), g)
    ensures var next := PlanUpTo(h, args, reserved, i + 1);
      PrefixRan(h, next, i + 1, EvalAll(it, args[..i] + [args[i]], f, w), ExecAll(it, next.prefix, g, w), g)
  {
    var plan, next := PlanUpTo(h, args, reserved, i), PlanUpTo(h, args, reserved, i + 1);
    var r := ExecAll(it, plan.prefix, g, w);
    EvalAllAppend(it, args[..i], args[i], f, w);
    EvalAllLength(it, args[..i], f, w);
    if Used(h, h.params[i]) || !LiteralArg(args[i]) {
      ExecAppend(it, plan.prefix, [Last(next.prefix)], g, w);
      AppendLocals(plan.prefix, Last(next.prefix));
    }
    if r.Finished? {
      HoistedAreNew(h, args, reserved, i);
      NamesOfMember(args, i);
      ArgEvaluatesAlike(it, args[i], f, g, r.frame, reserved, Locals(plan.prefix), r.world);
      ArgStep(it, h, args, reserved, i, f, g, r, EvalAll(it, args[..i], f, w).values);
    }
  }

  lemma HoistedAreNew(h: Helper, args: seq<Expr>, reserved: set<string>, n: nat)
    requires NoDuplicates(h.params) && n <= |h.params|
    ensures Locals(PlanUpTo(h, args, reserved, n).prefix) !! reserved
    ensures Locals(PlanUpTo(h, args, reserved, n).prefix) <= PlanUpTo(h, args, reserved, n).reserved
  {
    PlanGood(h, args, reserved, n);
    PlanDeclares(h, args, reserved, n);
  }

  lemma ArgStep<W(!new)>(
    it: Interp<W>, h: Helper, args: seq<Expr>, reserved: set<string>, i: nat, f: Frame, g: Frame,
    r: Completion<W>, values: seq<Value>)
    requires NoDuplicates(h.params) && i < |h.params| && i < |args| && r.Finished? && |values| == i
    requires var plan := PlanUpTo(h, args, reserved, i);
      Bound(h, plan.sub, r.frame, values, i) && forall y :: y !in Locals(plan.prefix) ==> SameAt(g, r.frame, y)
    requires Eval(it, args[i], r.frame, r.world) == Eval(it, args[i], f, r.world)
    ensures var next := PlanUpTo(h, args, reserved, i + 1);
      var o := Eval(it, args[i], f, r.world);
      var added := if Used(h, h.params[i]) || !LiteralArg(args[i]) then [Last(next.prefix)] else [];
      var t := ExecAll(it, added, r.frame, r.world);
      t.world == o.world && (t.Failed? <==> o.Throw?) &&
      (t.Finished? ==>
         Bound(h, next.sub, t.frame, values + [o.value], i + 1) &&
         forall y :: y !in Locals(next.prefix) ==> SameAt(g, t.frame, y))
  {
    var p := h.params[i];
    var plan, next := PlanUpTo(h, args, reserved, i), PlanUpTo(h, args, reserved, i + 1);
    PlanKeyed(h, args, reserved, i);
    PlanGood(h, args, reserved, i);
    HoistedAreNew(h, args, reserved, i);
    var o := Eval(it, args[i], f, r.world);
    if Used(h, p) {
      AppendLocals(plan.prefix, Last(next.prefix));
      assert [Last(next.prefix)][1..] == [];
    } else if !LiteralArg(args[i]) {
      AppendLocals(plan.prefix, Last(next.prefix));
      assert [Last(next.prefix)][1..] == [];
    } else {
      LiteralIsSilent(it, args[i], f, r.world);
    }
  }

  // ---------------------------------------------------------------- the theorem

  /** What the substitution promises about a parameter. */
  lemma ParamDenotes(
    h: Helper, args: seq<Expr>, reserved: set<string>, sub: map<string, Expr>, values: seq<Value>, g: Frame, x: string)
    requires Accepted(h) && x in h.params && Used(h, x) && |values| == |args| <= |h.params|
    requires var plan := PlanUpTo(h, args, reserved, |h.params|);
      Bound(h, plan.sub, g, values, |h.params|) && (forall y :: y in plan.sub ==> y in sub && sub[y] == plan.sub[y])
    ensures Denotes(sub, HelperFrame(h, values), g, x)
    ensures Denotes(sub, ParamFrame(h, values), g, x)
  {
    var plan := PlanUpTo(h, args, reserved, |h.params|);
    PlanKeyed(h, args, reserved, |h.params|);
    PlanGood(h, args, reserved, |h.params|);
    var i := ParamIndex(h.params, x);
    assert h.params[i] == x;
    assert x in plan.sub;
    assert x in ToSet(h.params);
  }

  ghost predicate Agrees<W(!new)>(r: Completion<W>, t: Completion<W>, f: Frame) {
    && r.world == t.world
    && (r.Failed? <==> t.Failed?)
    && (r.Finished? ==> r.frame == f && forall y :: y in f ==> SameAt(f, t.frame, y))
  }

  lemma {:induction false} GuardsMirror<W(!new)>(
    it: Interp<W>, guards: seq<Expr>, sub: map<string, Expr>, f: Frame, g: Frame, names: set<string>, w: W)
    requires Mirrors(sub, f, g, names) && NamesAll(guards) <= names
    ensures RunGuards(it, guards, f, w) == RunGuards(it, SubstAll(guards, sub), g, w)
    ensures GuardsOrdered(it, guards, f, w) ==> GuardsOrdered(it, SubstAll(guards, sub), g, w)
    decreases |guards|
  {
    if guards != [] {
      EvalMirrors(it, guards[0], sub, f, g, names, w);
      OrderedMirrors(it, guards[0], sub, f, g, names, w);
      assert SubstAll(guards, sub)[1..] == SubstAll(guards[1..], sub);
      GuardsMirror(it, guards[1..], sub, f, g, names, Eval(it, guards[0], f, w).world);
    }
  }

  lemma {:induction false} OrderedMirrors<W(!new)>(
    it: Interp<W>, e: Expr, sub: map<string, Expr>, f: Frame, g: Frame, names: set<string>, w: W)
    requires Mirrors(sub, f, g, names) && Names(e) <= names
    ensures Ordered(it, e, f, w) ==> Ordered(it, Subst(e, sub), g, w)
    decreases e
  {
    match e {
      case Var(x) => assert Denotes(sub, f, g, x);
      case Paren(i) => OrderedMirrors(it, i, sub, f, g, names, w);
      case And(l, r) =>
        EvalMirrors(it, l, sub, f, g, names, w);
        OrderedMirrors(it, l, sub, f, g, names, w);
        OrderedMirrors(it, r, sub, f, g, names, Eval(it, l, f, w).world);
      case Or(l, r) =>
        EvalMirrors(it, l, sub, f, g, names, w);
        OrderedMirrors(it, l, sub, f, g, names, w);
        OrderedMirrors(it, r, sub, f, g, names, Eval(it, l, f, w).world);
      case Cmp(_, l, r) =>
        EvalMirrors(it, l, sub, f, g, names, w);
        EvalMirrors(it, r, sub, f, g, names, Eval(it, l, f, w).world);
      case _ =>
    }
  }

  /** The hypotheses under which a call of the helper is replaced. */
  ghost predicate Replaceable(h: Helper, args: seq<Expr>, reserved: set<string>, f: Frame) {
    && Accepted(h)
    && |args| <= |h.params|
    && f.Keys + NamesAll(args) <= reserved
    && ScopeClean(h, f)
    && Hygienic(h, args, reserved)
  }

  /** No flipped order comparison of the guards meets an unordered operand in this call. */
  ghost predicate CallOrdered<W>(it: Interp<W>, h: Helper, args: seq<Expr>, f: Frame, w: W) {
    var o := EvalAll(it, args, f, w);
    o.RetAll? ==> GuardsOrdered(it, h.guards, HelperFrame(h, o.values), o.world)
  }

  lemma PlanFacts(h: Helper, args: seq<Expr>, reserved: set<string>)
    requires Accepted(h)
    ensures var plan0 := PlanUpTo(h, args, reserved, |h.params|);
      var plan := FinalPlan(h, args, reserved);
      && GoodPlan(plan, reserved) && plan.prefix == plan0.prefix && reserved <= plan0.reserved
      && plan0.sub.Keys <= ToSet(h.params)
      && (forall x :: x in plan0.sub ==> x in plan.sub && plan.sub[x] == plan0.sub[x])
      && (forall x :: x in plan.sub && x !in plan0.sub ==> x in Locals(h.tail) && plan.sub[x].Var? && h.guards == [])
  {
    var plan0 := PlanUpTo(h, args, reserved, |h.params|);
    PlanGood(h, args, reserved, |h.params|);
    PlanKeyed(h, args, reserved, |h.params|);
    if h.guards == [] {
      RenameGood(h.tail, plan0, reserved, |h.tail|);
    }
  }

  /** The new names avoid what the code still mentions: outer names, declarations that keep their name, inner ones. */
  lemma PlanIsFresh(h: Helper, args: seq<Expr>, reserved: set<string>)
    requires Accepted(h) && Hygienic(h, args, reserved)
    ensures Avoids(FinalPlan(h, args, reserved).sub, FreeNames(h), InnerNames(h))
    ensures LiteralsFixed(FinalPlan(h, args, reserved).sub, ToSet(h.params))
    ensures OperandsOnly(FinalPlan(h, args, reserved).sub)
  {
    PlanFacts(h, args, reserved);
    TargetsAreNew(h, args, reserved);
    PlanKeyed(h, args, reserved, |h.params|);
    var sub := FinalPlan(h, args, reserved).sub;
    forall x | x in sub && sub[x].Var?
      ensures sub[x].name !in FreeNames(h) - sub.Keys && sub[x].name !in InnerNames(h)
    {
      assert Targets(sub, sub[x].name);
      KeptAvoidsTarget(h, args, reserved, x, sub[x].name);
    }
  }

  lemma KeptAvoidsTarget(h: Helper, args: seq<Expr>, reserved: set<string>, x: string, t: string)
    requires Accepted(h) && Hygienic(h, args, reserved)
    requires var sub := FinalPlan(h, args, reserved).sub; x in sub && sub[x] == Var(t)
    ensures t in FreeNames(h) ==> t in FinalPlan(h, args, reserved).sub
  {
    var plan0, sub := PlanUpTo(h, args, reserved, |h.params|), FinalPlan(h, args, reserved).sub;
    PlanFacts(h, args, reserved);
    TargetsAreNew(h, args, reserved);
    PlanKeyed(h, args, reserved, |h.params|);
    PlanGood(h, args, reserved, |h.params|);
    assert Targets(sub, t);
    if t in h.params {
      var i := ParamIndex(h.params, t);
      assert h.params[i] == t;
    } else if t !in sub && t in Locals(h.tail) && h.guards == [] {
      assert h.tail[..|h.tail|] == h.tail;
      UnrenamedIsFree(h.tail, plan0, |h.tail|, t);
      if x !in plan0.sub {
        UnrenamedIsNoTarget(h.tail, plan0, |h.tail|, t, x);
      }
    }
  }

  /** A name the helper takes from outside denotes the same thing in the caller. */
  lemma OutsideDenotes(h: Helper, sub: map<string, Expr>, f: Frame, inner: Frame, g: Frame, added: set<string>, x: string)
    requires x in FreeNames(h) && x !in h.params && x !in Locals(h.tail) && ScopeClean(h, f)
    requires x !in inner && x !in sub && x !in added && g.Keys <= f.Keys + added
    ensures Denotes(sub, inner, g, x)
  {
  }

  /** The values and names in place once the prefix has run. */
  ghost predicate PrefixDone<W(!new)>(
    it: Interp<W>, h: Helper, args: seq<Expr>, reserved: set<string>, f: Frame, inserted: set<string>, w: W)
  {
    var plan0 := PlanUpTo(h, args, reserved, |h.params|);
    PrefixRan(h, plan0, |h.params|, EvalAll(it, args, f, w), ExecAll(it, plan0.prefix, Enter(f, inserted), w),
              Enter(f, inserted))
  }

  lemma PrefixIsDone<W(!new)>(
    it: Interp<W>, h: Helper, args: seq<Expr>, reserved: set<string>, f: Frame, inserted: set<string>, w: W)
    requires Replaceable(h, args, reserved, f) && inserted !! reserved
    ensures PrefixDone(it, h, args, reserved, f, inserted, w)
  {
    assert args[..Min(|h.params|, |args|)] == args;
    PrefixRuns(it, h, args, reserved, |h.params|, f, Enter(f, inserted), w);
  }

  lemma ParamsOfFrame(h: Helper, values: seq<Value>)
    ensures HelperFrame(h, values).Keys == ToSet(h.params) + Locals(h.tail)
  {
  }

  lemma FrameKeysAfterPrefix(g0: Frame, g1: Frame, hoisted: set<string>, inserted: set<string>, f: Frame)
    requires g0 == Enter(f, inserted) && hoisted <= inserted
    requires forall y :: y !in hoisted ==> SameAt(g0, g1, y)
    ensures g1.Keys <= f.Keys + inserted
    ensures forall y :: y in f && y !in inserted ==> SameAt(f, g1, y)
  {
    forall y | y in g1
      ensures y in f.Keys + inserted
    {
      if y !in hoisted {
        assert SameAt(g0, g1, y);
      }
    }
    forall y | y in f && y !in inserted
      ensures SameAt(f, g1, y)
    {
      assert SameAt(g0, g1, y);
    }
  }

  // ------------------------------------------------------------ guarded helpers

  lemma GuardNamesMirror(
    h: Helper, args: seq<Expr>, reserved: set<string>, f: Frame, values: seq<Value>, g: Frame, inserted: set<string>)
    requires Replaceable(h, args, reserved, f) && h.guards != [] && |values| == |args|
    requires Bound(h, PlanUpTo(h, args, reserved, |h.params|).sub, g, values, |h.params|)
    requires g.Keys <= f.Keys + inserted && inserted !! OuterNames(h)
    ensures var sub := FinalPlan(h, args, reserved).sub;
      && Mirrors(sub, HelperFrame(h, values), g, NamesAll(h.guards))
      && Mirrors(sub, ParamFrame(h, values), g,
                 BlockFree(h.tail) - Locals(h.tail))
  {
    var sub := FinalPlan(h, args, reserved).sub;
    var params := ParamFrame(h, values);
    PlanFacts(h, args, reserved);
    ParamsOfFrame(h, values);
    forall x | x in NamesAll(h.guards) || (x in BlockFree(h.tail) && x !in Locals(h.tail))
      ensures x in NamesAll(h.guards) ==> Denotes(sub, HelperFrame(h, values), g, x)
      ensures Denotes(sub, params, g, x)
    {
      if x in h.params {
        ParamDenotes(h, args, reserved, sub, values, g, x);
      } else {
        OutsideDenotes(h, sub, f, HelperFrame(h, values), g, inserted, x);
        OutsideDenotes(h, sub, f, params, g, inserted, x);
      }
    }
  }

  /** Guards and tail, once the arguments have their values. */
  function Body<W>(it: Interp<W>, h: Helper, inner: Frame, f: Frame, w: W): Completion<W> {
    var run := RunGuards(it, h.guards, inner, w);
    if run.Throws? then Failed(run.world)
    else if run.Returns? then Finished(f, run.world)
    else
      var r := ExecAll(it, h.tail, inner, run.world);
      if r.Failed? then r else Finished(f, r.world)
  }

  /** The caller's bindings are out of reach of the substituted tail. */
  lemma CallerUntouched(h: Helper, args: seq<Expr>, reserved: set<string>, f: Frame, y: string)
    requires Replaceable(h, args, reserved, f) && y in f
    ensures var sub := FinalPlan(h, args, reserved).sub;
      && (h.guards != [] ==> y !in WrittenAll(SubstBlock(h.tail, sub - Locals(h.tail))) - Locals(h.tail))
      && (h.guards == [] ==> y !in WrittenAll(SubstBlock(h.tail, sub)))
  {
    var sub := FinalPlan(h, args, reserved).sub;
    var used := if h.guards != [] then sub - Locals(h.tail) else sub;
    PlanFacts(h, args, reserved);
    FixedUnwritten(h.tail, ToSet(h.params));
    WrittenAreFree(h.tail);
    if y in WrittenAll(SubstBlock(h.tail, used)) {
      var x := SubstWritesAll(h.tail, used, y);
      if x in Locals(h.tail) && h.guards == [] && x !in sub {
        assert h.tail[..|h.tail|] == h.tail;
        UnrenamedIsFree(h.tail, PlanUpTo(h, args, reserved, |h.params|), |h.tail|, x);
      }
    }
  }

  /** `if (c) { tail }` in terms of the guard run. */
  lemma BranchRuns<W>(it: Interp<W>, c: Expr, tail: seq<Stmt>, g: Frame, w: W)
    ensures var run := RunCondition(it, c, g, w);
      Exec(it, Branch(c, tail, []), g, w) ==
      if run.Throws? then Failed(run.world)
      else if run.RunsTail? then ExecBlock(it, tail, g, run.world)
      else Finished(g, run.world)
  {
    assert forall w1 :: ExecAll(it, [], Enter(g, {}), w1) == Finished(Enter(g, {}), w1);
    assert Leave(g, Enter(g, {}), {}) == g;
    assert Locals([]) == {};
  }

  lemma GuardedBodyAgrees<W(!new)>(
    it: Interp<W>, h: Helper, args: seq<Expr>, reserved: set<string>, f: Frame, values: seq<Value>,
    g: Frame, inserted: set<string>, w: W)
    requires Replaceable(h, args, reserved, f) && h.guards != [] && |values| == |args|
    requires Bound(h, PlanUpTo(h, args, reserved, |h.params|).sub, g, values, |h.params|)
    requires g.Keys <= f.Keys + inserted && inserted !! OuterNames(h)
    requires forall y :: y in f ==> SameAt(f, g, y)
    requires GuardsOrdered(it, h.guards, HelperFrame(h, values), w)
    ensures var r := Build(h, args, reserved);
      && Parse(r.condition.value).Some?
      && Agrees(Body(it, h, HelperFrame(h, values), f, w),
                Exec(it, Branch(Parse(r.condition.value).value, r.tail, []), g, w), f)
  {
    hide Eval, ExecAll, ExecBlock, FinalPlan, CombineGuards, GuardsOrdered, RunGuards, SubstBlock, RunCondition, Mirrors;
    hide HelperFrame, Bound;
    var sub := FinalPlan(h, args, reserved).sub;
    var inner := HelperFrame(h, values);
    PlanIsFresh(h, args, reserved);
    GuardNamesMirror(h, args, reserved, f, values, g, inserted);
    GuardsMirror(it, h.guards, sub, inner, g, NamesAll(h.guards), w);
    CombinedGuardsAgree(it, h.guards, sub, g, w);
    var c := Parse(CombineGuards(h.guards, sub)).value;
    BranchRuns(it, c, SubstBlock(h.tail, sub - Locals(h.tail)), g, w);
    var run := RunGuards(it, h.guards, inner, w);
    if run.RunsTail? {
      TailAgrees(it, h, args, reserved, f, values, g, run.world);
    }
  }

  lemma TailAgrees<W(!new)>(
    it: Interp<W>, h: Helper, args: seq<Expr>, reserved: set<string>, f: Frame, values: seq<Value>, g: Frame, w: W)
    requires Replaceable(h, args, reserved, f) && h.guards != []
    requires var sub := FinalPlan(h, args, reserved).sub;
      && Avoids(sub, FreeNames(h), InnerNames(h)) && LiteralsFixed(sub, ToSet(h.params))
      && Mirrors(sub, ParamFrame(h, values), g,
                 BlockFree(h.tail) - Locals(h.tail))
    requires forall y :: y in f ==> SameAt(f, g, y)
    ensures var r := ExecAll(it, h.tail, HelperFrame(h, values), w);
      Agrees(if r.Failed? then r else Finished(f, r.world),
             ExecBlock(it, SubstBlock(h.tail, FinalPlan(h, args, reserved).sub - Locals(h.tail)), g, w), f)
  {
    var sub := FinalPlan(h, args, reserved).sub;
    var params := ParamFrame(h, values);
    var tail := SubstBlock(h.tail, sub - Locals(h.tail));
    assert ToSet(h.params) - Locals(h.tail) == ToSet(h.params);
    ExecBlockMirrors(it, h.tail, sub, params, g, BlockFree(h.tail) - Locals(h.tail), InnerNames(h), ToSet(h.params), w);
    var t := ExecBlock(it, tail, g, w);
    if t.Finished? {
      SubstBlockKeepsLocals(h.tail, sub - Locals(h.tail));
      forall y | y in f
        ensures SameAt(f, t.frame, y)
      {
        CallerUntouched(h, args, reserved, f, y);
        ExecBlockUntouched(it, tail, g, w, y);
        assert SameAt(f, g, y);
      }
    }
  }

  // ---------------------------------------------------------- guardless helpers

  lemma InsertedTailLocals(h: Helper, args: seq<Expr>, reserved: set<string>, y: string)
    requires Accepted(h) && h.guards == []
    ensures var sub := FinalPlan(h, args, reserved).sub;
      y in Locals(SubstBlock(h.tail, sub)) ==>
        y !in reserved && (Targets(sub, y) || y in Locals(h.tail))
  {
    var sub := FinalPlan(h, args, reserved).sub;
    PlanFacts(h, args, reserved);
    SubstBlockLocals(h.tail, sub);
    if y in Locals(SubstBlock(h.tail, sub)) {
      var x :| x in Locals(h.tail) && Renamed(x, sub) == y;
      if x in sub {
        assert sub[x].Var? && Targets(sub, y);
      } else {
        assert h.tail[..|h.tail|] == h.tail;
        UnrenamedIsFree(h.tail, PlanUpTo(h, args, reserved, |h.params|), |h.tail|, x);
      }
    }
  }

  lemma GuardlessNamesMirror(
    h: Helper, args: seq<Expr>, reserved: set<string>, f: Frame, values: seq<Value>, g0: Frame, g: Frame,
    hoisted: set<string>)
    requires Replaceable(h, args, reserved, f) && h.guards == [] && |values| == |args|
    requires Bound(h, PlanUpTo(h, args, reserved, |h.params|).sub, g, values, |h.params|)
    requires var sub := FinalPlan(h, args, reserved).sub;
      g0 == Enter(f, hoisted + Locals(SubstBlock(h.tail, sub)))
    requires hoisted == Locals(PlanUpTo(h, args, reserved, |h.params|).prefix)
    requires forall y :: y !in hoisted ==> SameAt(g0, g, y)
    ensures Mirrors(FinalPlan(h, args, reserved).sub, HelperFrame(h, values), g, BlockFree(h.tail))
  {
    var plan0 := PlanUpTo(h, args, reserved, |h.params|);
    var sub := FinalPlan(h, args, reserved).sub;
    PlanFacts(h, args, reserved);
    TargetsAreNew(h, args, reserved);
    PlanDeclares(h, args, reserved, |h.params|);
    ParamsOfFrame(h, values);
    forall x | x in BlockFree(h.tail)
      ensures Denotes(sub, HelperFrame(h, values), g, x)
    {
      if x in h.params {
        ParamDenotes(h, args, reserved, sub, values, g, x);
      } else if x in Locals(h.tail) {
        LocalDenotes(h, args, reserved, f, values, g0, g, hoisted, x);
      } else {
        InsertedTailLocals(h, args, reserved, x);
        forall z | z in plan0.sub
          ensures plan0.sub[z] != Var(x)
        {
          assert plan0.sub[z] == sub[z] && Targets(sub, x) ==> x in NewNames(h, args, reserved);
        }
        assert SameAt(g0, g, x);
      }
    }
  }

  /** What a declaration of the tail is called in the end is not a temporary. */
  lemma LocalIsNotHoisted(h: Helper, args: seq<Expr>, reserved: set<string>, x: string)
    requires Accepted(h) && h.guards == [] && x in Locals(h.tail)
    ensures !Targets(PlanUpTo(h, args, reserved, |h.params|).sub, Renamed(x, FinalPlan(h, args, reserved).sub))
  {
    var plan0, sub := PlanUpTo(h, args, reserved, |h.params|), FinalPlan(h, args, reserved).sub;
    PlanFacts(h, args, reserved);
    PlanGood(h, args, reserved, |h.params|);
    if x !in sub {
      assert h.tail[..|h.tail|] == h.tail;
      UnrenamedIsFree(h.tail, plan0, |h.tail|, x);
    }
    var y := Renamed(x, sub);
    forall z | z in plan0.sub
      ensures plan0.sub[z] != Var(y)
    {
      assert plan0.sub[z] == sub[z] && z in ToSet(h.params);
    }
  }

  lemma LocalDenotes(
    h: Helper, args: seq<Expr>, reserved: set<string>, f: Frame, values: seq<Value>, g0: Frame, g: Frame,
    hoisted: set<string>, x: string)
    requires Replaceable(h, args, reserved, f) && h.guards == [] && x in Locals(h.tail)
    requires var sub := FinalPlan(h, args, reserved).sub;
      g0 == Enter(f, hoisted + Locals(SubstBlock(h.tail, sub)))
    requires hoisted == Locals(PlanUpTo(h, args, reserved, |h.params|).prefix)
    requires forall y :: y !in hoisted ==> SameAt(g0, g, y)
    ensures Denotes(FinalPlan(h, args, reserved).sub, HelperFrame(h, values), g, x)
  {
    var plan0 := PlanUpTo(h, args, reserved, |h.params|);
    var sub := FinalPlan(h, args, reserved).sub;
    PlanFacts(h, args, reserved);
    PlanDeclares(h, args, reserved, |h.params|);
    SubstBlockLocals(h.tail, sub);
    LocalsAreNames(h.tail);
    var y := Renamed(x, sub);
    assert y in Locals(SubstBlock(h.tail, sub));
    LocalIsNotHoisted(h, args, reserved, x);
    assert SameAt(g0, g, y);
  }

  lemma GuardlessTailAgrees<W(!new)>(
    it: Interp<W>, h: Helper, args: seq<Expr>, reserved: set<string>, f: Frame, values: seq<Value>, g: Frame, w: W)
    requires Replaceable(h, args, reserved, f) && h.guards == []
    requires Mirrors(FinalPlan(h, args, reserved).sub, HelperFrame(h, values), g, BlockFree(h.tail))
    requires forall y :: y in f ==> SameAt(f, g, y)
    ensures Agrees(Body(it, h, HelperFrame(h, values), f, w),
                   ExecAll(it, SubstBlock(h.tail, FinalPlan(h, args, reserved).sub), g, w), f)
  {
    var sub := FinalPlan(h, args, reserved).sub;
    var tail := SubstBlock(h.tail, sub);
    PlanIsFresh(h, args, reserved);
    ParamsOfFrame(h, values);
    ExecAllMirrors(
      it, h.tail, sub, HelperFrame(h, values), g, BlockFree(h.tail), InnerNames(h), ToSet(h.params), w);
    var t := ExecAll(it, tail, g, w);
    if t.Finished? {
      forall y | y in f
        ensures SameAt(f, t.frame, y)
      {
        CallerUntouched(h, args, reserved, f, y);
        ExecAllUntouched(it, tail, g, w, y);
        assert SameAt(f, g, y);
      }
    }
  }

  // ------------------------------------------------------------------ both cases

  lemma LocalsOfConcat(b: seq<Stmt>, c: seq<Stmt>)
    ensures Locals(b + c) == Locals(b) + Locals(c)
  {
    var d := b + c;
    assert forall i :: 0 <= i < |b| ==> d[i] == b[i];
    assert forall i :: 0 <= i < |c| ==> d[|b| + i] == c[i];
    forall x
      ensures x in Locals(d) <==> x in Locals(b) + Locals(c)
    {
      if x in Locals(b) {
        var i :| 0 <= i < |b| && b[i].Local? && b[i].x == x;
        assert d[i].Local? && d[i].x == x;
      }
      if x in Locals(c) {
        var i :| 0 <= i < |c| && c[i].Local? && c[i].x == x;
        assert d[|b| + i].Local? && d[|b| + i].x == x;
      }
      if x in Locals(d) {
        var i :| 0 <= i < |d| && d[i].Local? && d[i].x == x;
        assert i < |b| ==> b[i].Local? && b[i].x == x;
        assert i >= |b| ==> c[i - |b|].Local? && c[i - |b|].x == x;
      }
    }
  }

  /** What follows the hoisted prefix in the caller's block. */
  function Rest(r: Replacement): seq<Stmt> {
    match r.condition
    case None => r.tail
    case Some(text) => (match Parse(text) case Some(c) => [Branch(c, r.tail, [])] case None => [])
  }

  lemma InsertedShape(h: Helper, args: seq<Expr>, reserved: set<string>)
    requires Accepted(h)
    ensures var r := Build(h, args, reserved);
      && Inserted(r) == r.prefix + Rest(r)
      && r.prefix == PlanUpTo(h, args, reserved, |h.params|).prefix
      && Locals(Inserted(r)) == Locals(r.prefix) + Locals(Rest(r))
      && Locals(Inserted(r)) !! reserved
      && (h.guards != [] ==> Locals(Rest(r)) == {})
  {
    var r := Build(h, args, reserved);
    PlanFacts(h, args, reserved);
    HoistedAreNew(h, args, reserved, |h.params|);
    PlanDeclares(h, args, reserved, |h.params|);
    LocalsOfConcat(r.prefix, Rest(r));
    assert Inserted(r) == r.prefix + Rest(r);
    if h.guards == [] {
      forall y | y in Locals(Rest(r))
        ensures y !in reserved
      {
        InsertedTailLocals(h, args, reserved, y);
      }
    } else {
      assert Locals(Rest(r)) == {};
    }
  }

  /** The names the splice adds to the caller's block were not in use there. */
  lemma InsertedAreNew(h: Helper, args: seq<Expr>, reserved: set<string>, f: Frame)
    requires Replaceable(h, args, reserved, f)
    ensures var r := Build(h, args, reserved);
      && Inserted(r) == r.prefix + Rest(r)
      && r.prefix == PlanUpTo(h, args, reserved, |h.params|).prefix
      && Locals(Inserted(r)) == Locals(r.prefix) + Locals(Rest(r))
      && Locals(Inserted(r)) !! reserved
      && (h.guards != [] ==> Locals(Rest(r)) == {} && Locals(Inserted(r)) !! OuterNames(h))
  {
    InsertedShape(h, args, reserved);
    PlanDeclares(h, args, reserved, |h.params|);
    TargetsAreNew(h, args, reserved);
  }

  /**
   Strict-mode replacement of a call has exactly the call's effects, in the same
   order, the same exceptions, and leaves every binding of the caller alone.
  */
  lemma StrictInliningPreserves<W(!new)>(
    it: Interp<W>, h: Helper, args: seq<Expr>, reserved: set<string>, f: Frame, w: W)
    requires Replaceable(h, args, reserved, f) && CallOrdered(it, h, args, f, w)
    ensures var inserted := Inserted(Build(h, args, reserved));
      Agrees(Call(it, h, args, f, w), ExecAll(it, inserted, Enter(f, Locals(inserted)), w), f)
  {
    hide Build, FinalPlan, PlanUpTo, Rest, ExecAll, EvalAll, Body, HelperFrame, FreeNames, OuterNames, Hygienic, Accepted;
    var r := Build(h, args, reserved);
    var plan0 := PlanUpTo(h, args, reserved, |h.params|);
    var all := Locals(Inserted(r));
    var g0 := Enter(f, all);
    InsertedAreNew(h, args, reserved, f);
    PrefixIsDone(it, h, args, reserved, f, all, w);
    var o := EvalAll(it, args, f, w);
    var t := ExecAll(it, r.prefix, g0, w);
    ExecAppend(it, r.prefix, Rest(r), g0, w);
    CallUnfolds(it, h, args, f, w);
    if o.RetAll? {
      EvalAllLength(it, args, f, w);
      FrameKeysAfterPrefix(g0, t.frame, Locals(r.prefix), all, f);
      RestAgrees(it, h, args, reserved, f, o.values, g0, t.frame, o.world);
    }
  }

  lemma CallUnfolds<W>(it: Interp<W>, h: Helper, args: seq<Expr>, f: Frame, w: W)
    ensures var o := EvalAll(it, args, f, w);
      Call(it, h, args, f, w) ==
      if o.ThrowAll? then Failed(o.world) else Body(it, h, HelperFrame(h, o.values), f, o.world)
  {
  }

  lemma RestAgrees<W(!new)>(
    it: Interp<W>, h: Helper, args: seq<Expr>, reserved: set<string>, f: Frame, values: seq<Value>,
    g0: Frame, g: Frame, w: W)
    requires Replaceable(h, args, reserved, f) && |values| == |args|
    requires Bound(h, PlanUpTo(h, args, reserved, |h.params|).sub, g, values, |h.params|)
    requires GuardsOrdered(it, h.guards, HelperFrame(h, values), w)
    requires var all := Locals(Inserted(Build(h, args, reserved)));
      g0 == Enter(f, all) && g.Keys <= f.Keys + all
    requires forall y :: y !in Locals(Build(h, args, reserved).prefix) ==> SameAt(g0, g, y)
    requires forall y :: y in f ==> SameAt(f, g, y)
    ensures Agrees(Body(it, h, HelperFrame(h, values), f, w), ExecAll(it, Rest(Build(h, args, reserved)), g, w), f)
  {
    InsertedAreNew(h, args, reserved, f);
    var r := Build(h, args, reserved);
    if h.guards == [] {
      GuardlessNamesMirror(h, args, reserved, f, values, g0, g, Locals(r.prefix));
      GuardlessTailAgrees(it, h, args, reserved, f, values, g, w);
    } else {
      GuardedBodyAgrees(it, h, args, reserved, f, values, g, Locals(Inserted(r)), w);
      SingleStatement(it, Branch(Parse(r.condition.value).value, r.tail, []), g, w);
    }
  }

  lemma SingleStatement<W>(it: Interp<W>, s: Stmt, g: Frame, w: W)
    ensures ExecAll(it, [s], g, w) == Exec(it, s, g, w)
  {
    assert [s][1..] == [];
  }
}
