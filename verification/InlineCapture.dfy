/**
 Exactly when strict inlining is faithful as far as names go. Runs are observed
 through the outer variables they read and write, under interpretations whose
 every answer comes from a script.
*/
module InlineCapture {
  import opened Prelude
  import opened InlineSyntax
  import opened InlineEval
  import opened InlineGuards
  import opened InlineStmts
  import opened InlineSim
  import opened InlineReplace
  import opened InlineExact
  import opened InlineTheorem
  import opened InlineTraces

  // ---------------------------------------------------------------- the statement

  /** Nothing is bound at the call site that the helper takes from outside. */
  ghost predicate CallSite(h: Helper, reserved: set<string>, f: Frame) {
    f.Keys <= reserved && ScopeClean(h, f)
  }

  ghost predicate AgreesOn(script: Script, h: Helper, args: seq<Expr>, reserved: set<string>, f: Frame) {
    var inserted := Inserted(Build(h, args, reserved));
    Agrees(Call(Tracing(script), h, args, f, START),
           ExecAll(Tracing(script), inserted, Enter(f, Locals(inserted)), START), f)
  }

  /** The replacement behaves like the call, whatever is read and wherever it stands. */
  ghost predicate Faithful(h: Helper, args: seq<Expr>, reserved: set<string>) {
    forall script: Script, f: Frame :: CallSite(h, reserved, f) ==> AgreesOn(script, h, args, reserved, f)
  }

  /** The condition on the call: the fresh-name search finds no outer name, and no guard reads a name of the tail. */
  predicate CaptureFree(h: Helper, args: seq<Expr>, reserved: set<string>) {
    && NewNames(h, args, reserved) !! OuterNames(h)
    && (h.guards != [] ==> Locals(h.tail) !! NamesAll(h.guards))
  }

  predicate NoFlips(guards: seq<Expr>) {
    forall g :: g in guards ==> !FlipsOrder(g)
  }

  /**
   An accepted helper and call whose guards flip no order comparison, with
   distinct declarations in the tail, and no inner declaration called like a
   new name.
  */
  ghost predicate Candidate(h: Helper, args: seq<Expr>, reserved: set<string>) {
    && Accepted(h) && |args| <= |h.params| && NamesAll(args) <= reserved
    && NoFlips(h.guards)
    && DistinctLocals(h.tail)
    && NewNames(h, args, reserved) !! InnerLocals(h.tail)
    && (h.guards != [] ==> NewNames(h, args, reserved) !! Locals(h.tail))
  }

  /** The helper's body, with its guards taken on their own: no declaration of the tail is in their way. */
  function ApartRun<W>(it: Interp<W>, h: Helper, values: seq<Value>, w: W): W {
    var run := RunGuards(it, h.guards, ParamFrame(h, values), w);
    if run.RunsTail? then ExecAll(it, h.tail, HelperFrame(h, values), run.world).world else run.world
  }

  ghost predicate ReachedBy(script: Script, h: Helper, args: seq<Expr>, x: string) {
    var o := EvalAll(Tracing(script), args, map[], START);
    o.RetAll? && Times(ApartRun(Tracing(script), h, o.values, o.world).seen, {x}) > Times(o.world.seen, {x})
  }

  /** Every name from outside the body, and every name of the tail a guard mentions, is read or written in some run. */
  ghost predicate AllReached(h: Helper, args: seq<Expr>) {
    forall x :: x in OuterNames(h) + Locals(h.tail) * NamesAll(h.guards) ==> exists script: Script :: ReachedBy(script, h, args, x)
  }

  // ------------------------------------------------------- the names it declares

  lemma {:induction false} TempsAreTargets(h: Helper, args: seq<Expr>, reserved: set<string>, n: nat)
    requires NoDuplicates(h.params) && n <= |h.params|
    ensures forall t :: t in TempNames(h, args, reserved, n) ==> Targets(PlanUpTo(h, args, reserved, n).sub, t)
  {
    if n > 0 {
      TempsAreTargets(h, args, reserved, n - 1);
      PlanKeyed(h, args, reserved, n - 1);
      PlanTakes(h, args, reserved, n - 1);
      var plan, next := PlanUpTo(h, args, reserved, n - 1), PlanUpTo(h, args, reserved, n);
      var p := h.params[n - 1];
      assert p !in h.params[..n - 1];
      if Used(h, p) {
        ExtendTargets(plan.sub, p, next.sub[p]);
      }
    }
  }

  /** No name is declared twice by the direct statements of the tail, as in every block of the source. */
  ghost predicate DistinctLocals(tail: seq<Stmt>) {
    forall i, j :: 0 <= i < j < |tail| && tail[i].Local? && tail[j].Local? ==> tail[i].x != tail[j].x
  }

  lemma {:induction false} RenamedComesFrom(tail: seq<Stmt>, plan: Plan, n: nat, y: string) returns (x: string)
    requires n <= |tail| && DistinctLocals(tail) && y in RenamedNames(tail, plan.reserved, n)
    ensures x in Locals(tail[..n])
    ensures x in RenameUpTo(tail, plan, n).sub && RenameUpTo(tail, plan, n).sub[x] == Var(y)
  {
    var s := tail[n - 1];
    assert tail[..n] == tail[..n - 1] + [s];
    AppendLocals(tail[..n - 1], s);
    RenameTakes(tail, plan, n - 1);
    if y in RenamedNames(tail, plan.reserved, n - 1) {
      x := RenamedComesFrom(tail, plan, n - 1, y);
    } else {
      x := s.x;
    }
  }

  /** Every name the search finds is declared in the caller's block. */
  lemma NewAreInserted(h: Helper, args: seq<Expr>, reserved: set<string>)
    requires Accepted(h) && DistinctLocals(h.tail)
    ensures NewNames(h, args, reserved) <= Locals(Inserted(Build(h, args, reserved)))
  {
    var n, r := |h.params|, Build(h, args, reserved);
    var plan0 := PlanUpTo(h, args, reserved, n);
    InsertedShape(h, args, reserved);
    TempsAreTargets(h, args, reserved, n);
    PlanDeclares(h, args, reserved, n);
    PlanTakes(h, args, reserved, n);
    if h.guards == [] {
      forall y | y in RenamedNames(h.tail, plan0.reserved, |h.tail|)
        ensures y in Locals(Rest(r))
      {
        var x := RenamedComesFrom(h.tail, plan0, |h.tail|, y);
        assert h.tail[..|h.tail|] == h.tail;
        SubstBlockLocals(h.tail, FinalPlan(h, args, reserved).sub);
      }
    }
  }

  /** What is declared there is a new name, unless it is a declaration of the tail. */
  lemma GuardedDeclareNew(h: Helper, args: seq<Expr>, reserved: set<string>)
    requires Accepted(h) && h.guards != []
    ensures Locals(Inserted(Build(h, args, reserved))) == NewNames(h, args, reserved)
  {
    InsertedShape(h, args, reserved);
    TargetsAreNew(h, args, reserved);
    TempsAreTargets(h, args, reserved, |h.params|);
    PlanDeclares(h, args, reserved, |h.params|);
  }

  // ------------------------------------------------------------------ sufficiency

  lemma {:induction false} NoFlipGuards<W>(it: Interp<W>, guards: seq<Expr>, f: Frame, w: W)
    requires NoFlips(guards)
    ensures GuardsOrdered(it, guards, f, w)
  {
    if guards != [] {
      NoFlipNoDanger(it, guards[0], f, w);
      NoFlipGuards(it, guards[1..], f, Eval(it, guards[0], f, w).world);
    }
  }

  lemma CaptureFreeIsFaithful(h: Helper, args: seq<Expr>, reserved: set<string>)
    requires Candidate(h, args, reserved) && CaptureFree(h, args, reserved)
    ensures Faithful(h, args, reserved)
  {
    forall script: Script, f: Frame | CallSite(h, reserved, f)
      ensures AgreesOn(script, h, args, reserved, f)
    {
      var it := Tracing(script);
      var o := EvalAll(it, args, f, START);
      if o.RetAll? {
        NoFlipGuards(it, h.guards, HelperFrame(h, o.values), o.world);
      }
      StrictInliningPreserves(it, h, args, reserved, f, START);
    }
  }

  // -------------------------------------------------------------------- necessity

  lemma {:induction false} SubstFlips(e: Expr, sub: map<string, Expr>)
    requires forall x :: x in sub ==> sub[x].Var? || sub[x].Lit?
    ensures FlipsOrder(Subst(e, sub)) == FlipsOrder(e)
  {
    match e {
      case Paren(i) => SubstFlips(i, sub);
      case And(l, r) => SubstFlips(l, sub); SubstFlips(r, sub);
      case Or(l, r) => SubstFlips(l, sub); SubstFlips(r, sub);
      case _ =>
    }
  }

  lemma SubstNoFlips(guards: seq<Expr>, sub: map<string, Expr>)
    requires NoFlips(guards) && forall x :: x in sub ==> sub[x].Var? || sub[x].Lit?
    ensures NoFlips(SubstAll(guards, sub))
  {
    SubstAllAt(guards, sub);
    forall g | g in SubstAll(guards, sub)
      ensures !FlipsOrder(g)
    {
      var i :| 0 <= i < |guards| && SubstAll(guards, sub)[i] == g;
      SubstFlips(guards[i], sub);
    }
  }

  /** What the replacement does from the empty frame once its prefix has run. */
  lemma InlinedRun(script: Script, h: Helper, args: seq<Expr>, reserved: set<string>) returns (g: Frame)
    requires Candidate(h, args, reserved) && EvalAll(Tracing(script), args, map[], START).RetAll?
    ensures var it := Tracing(script);
      var o, r := EvalAll(it, args, map[], START), Build(h, args, reserved);
      && |o.values| == |args| && g.Keys <= Locals(Inserted(r))
      && Bound(h, PlanUpTo(h, args, reserved, |h.params|).sub, g, o.values, |h.params|)
      && ExecAll(it, Inserted(r), Enter(map[], Locals(Inserted(r))), START) == ExecAll(it, Rest(r), g, o.world)
  {
    hide Build, FinalPlan, PlanUpTo, Rest, ExecAll, EvalAll, Tracing, NewNames, InnerNames, Bound;
    var it, r := Tracing(script), Build(h, args, reserved);
    var all := Locals(Inserted(r));
    var g0 := Enter(map[], all);
    InsertedShape(h, args, reserved);
    assert Extends(map[], g0, reserved);
    assert args[..Min(|h.params|, |args|)] == args;
    PrefixRuns(it, h, args, reserved, |h.params|, map[], g0, START);
    EvalAllLength(it, args, map[], START);
    ExecAppend(it, r.prefix, Rest(r), g0, START);
    g := ExecAll(it, r.prefix, g0, START).frame;
    FrameKeysAfterPrefix(g0, g, Locals(r.prefix), all, map[]);
  }

  /** The helper's body hides its own declarations, and its guards are where it starts. */
  lemma BodySees(script: Script, h: Helper, values: seq<Value>, w: Log)
    ensures var it, inner := Tracing(script), HelperFrame(h, values);
      Sees(inner, w, Body(it, h, inner, map[], w).world) &&
      RunGuards(it, h.guards, inner, w).world.seen <= Body(it, h, inner, map[], w).world.seen
  {
    hide Sees, HelperFrame, Tracing, Exec;
    var it, inner := Tracing(script), HelperFrame(h, values);
    GuardsSee(script, h.guards, inner, w);
    var run := RunGuards(it, h.guards, inner, w);
    if run.RunsTail? {
      var e := ExecAll(it, h.tail, inner, run.world).world;
      AllSees(script, h.tail, inner, run.world);
      SeesGrows(inner, run.world, e);
      SeesOn(inner, w, run.world, e);
    }
  }

  /** Guards that read no declaration of the tail run as they would on their own. */
  lemma ApartIsBody<W(!new)>(it: Interp<W>, h: Helper, values: seq<Value>, w: W)
    requires Accepted(h) && Locals(h.tail) !! NamesAll(h.guards)
    ensures ApartRun(it, h, values, w) == Body(it, h, HelperFrame(h, values), map[], w).world
  {
    var own, inner := ParamFrame(h, values), HelperFrame(h, values);
    ParamsOfFrame(h, values);
    forall x | x in NamesAll(h.guards)
      ensures Denotes(NO_SUB, own, inner, x)
    {
      assert x in inner <==> x in h.params;
    }
    GuardsMirror(it, h.guards, NO_SUB, own, inner, NamesAll(h.guards), w);
    SubstNothingAll(h.guards);
  }

  /** The replacement does not see the names it declares. */
  lemma InsertedUnseen(script: Script, h: Helper, args: seq<Expr>, reserved: set<string>, names: set<string>)
    requires Accepted(h) && DistinctLocals(h.tail) && names <= NewNames(h, args, reserved)
    ensures var inserted := Inserted(Build(h, args, reserved));
      Times(ExecAll(Tracing(script), inserted, Enter(map[], Locals(inserted)), START).world.seen, names) == 0
  {
    hide Build, Locals, NewNames, ExecAll;
    var inserted := Inserted(Build(h, args, reserved));
    var g0 := Enter(map[], Locals(inserted));
    NewAreInserted(h, args, reserved);
    AllSees(script, inserted, g0, START);
    assert names <= g0.Keys;
  }

  /** A new name equal to an outer one that is reached: the helper sees it, the replacement cannot. */
  lemma OuterIsCaptured(script: Script, h: Helper, args: seq<Expr>, reserved: set<string>, t: string)
    requires Candidate(h, args, reserved) && ReachedBy(script, h, args, t) && t in NewNames(h, args, reserved)
    requires Locals(h.tail) !! NamesAll(h.guards)
    ensures !AgreesOn(script, h, args, reserved, map[])
  {
    hide Build, NewNames, InnerNames, ApartRun, Body, Call, ExecAll, EvalAll, HelperFrame, Accepted, Tracing;
    var it := Tracing(script);
    var o := EvalAll(it, args, map[], START);
    ApartIsBody(it, h, o.values, o.world);
    CallUnfolds(it, h, args, map[], START);
    InsertedUnseen(script, h, args, reserved, {t});
  }

  lemma GuardsArePlaced(h: Helper, args: seq<Expr>, reserved: set<string>, values: seq<Value>, g: Frame)
    requires Candidate(h, args, reserved) && h.guards != [] && |values| == |args|
    requires g.Keys <= NewNames(h, args, reserved)
    requires Bound(h, PlanUpTo(h, args, reserved, |h.params|).sub, g, values, |h.params|)
    ensures Placed(
      FinalPlan(h, args, reserved).sub, ParamFrame(h, values), g, HelperFrame(h, values), Locals(h.tail),
      NewNames(h, args, reserved), NamesAll(h.guards))
  {
    hide Bound, NewNames, Denotes;
    var sub := FinalPlan(h, args, reserved).sub;
    var own, inner := ParamFrame(h, values), HelperFrame(h, values);
    PlanFacts(h, args, reserved);
    ParamsOfFrame(h, values);
    assert Locals(h.tail) <= InnerNames(h);
    forall x | x in NamesAll(h.guards) && x in h.params
      ensures Denotes(sub, own, g, x)
    {
      ParamDenotes(h, args, reserved, sub, values, g, x);
    }
  }

  /** Guards on their own that see a name of the tail: in the helper or in the replacement they do not do the same. */
  lemma GuardsDisagree(
    script: Script, h: Helper, args: seq<Expr>, reserved: set<string>, values: seq<Value>, g: Frame, x: string, w: Log)
    requires Candidate(h, args, reserved) && h.guards != [] && |values| == |args|
    requires g.Keys <= NewNames(h, args, reserved)
    requires Bound(h, PlanUpTo(h, args, reserved, |h.params|).sub, g, values, |h.params|)
    requires x in Locals(h.tail)
    requires Times(ApartRun(Tracing(script), h, values, w).seen, {x}) > Times(w.seen, {x})
    ensures var it := Tracing(script);
      Parted(
        w, RunGuards(it, SubstAll(h.guards, FinalPlan(h, args, reserved).sub), g, w).world,
        RunGuards(it, h.guards, HelperFrame(h, values), w).world, Locals(h.tail), NewNames(h, args, reserved))
  {
    hide Candidate, NewNames, FinalPlan, PlanUpTo, Bound, Placed, Parted, Tracing, RunGuards, HelperFrame, ExecAll;
    var it := Tracing(script);
    var own, inner, mine, added := ParamFrame(h, values), HelperFrame(h, values), Locals(h.tail), NewNames(h, args, reserved);
    GuardsArePlaced(h, args, reserved, values, g);
    GuardsPart(script, h.guards, FinalPlan(h, args, reserved).sub, own, g, inner, mine, added, NamesAll(h.guards), w);
    var run := RunGuards(it, h.guards, own, w);
    GuardsGrow(script, h.guards, own, w);
    ParamsOfFrame(h, values);
    AllSees(script, h.tail, inner, run.world);
    assert {x} <= inner.Keys;
    TimesGrow(w.seen, run.world.seen, {x}, mine + added);
  }

  /** The replacement of a guarded helper starts with the guards as substituted. */
  lemma ConditionFirst(
    script: Script, h: Helper, args: seq<Expr>, reserved: set<string>, g: Frame, w: Log)
    requires Candidate(h, args, reserved) && h.guards != []
    ensures var it := Tracing(script);
      RunGuards(it, SubstAll(h.guards, FinalPlan(h, args, reserved).sub), g, w).world.seen <=
      ExecAll(it, Rest(Build(h, args, reserved)), g, w).world.seen
  {
    hide FinalPlan, RunGuards, RunCondition, CombineGuards, SubstBlock, Tracing, NewNames, InnerNames;
    var it, sub, r := Tracing(script), FinalPlan(h, args, reserved).sub, Build(h, args, reserved);
    PlanFacts(h, args, reserved);
    SubstNoFlips(h.guards, sub);
    NoFlipGuards(it, SubstAll(h.guards, sub), g, w);
    CombinedGuardsAgree(it, h.guards, sub, g, w);
    var c := Parse(r.condition.value).value;
    BranchRuns(it, c, r.tail, g, w);
    SingleStatement(it, Branch(c, r.tail, []), g, w);
    var run := RunCondition(it, c, g, w);
    BlockSees(script, r.tail, g, run.world);
  }

  lemma GuardIsCaptured(script: Script, h: Helper, args: seq<Expr>, reserved: set<string>, x: string)
    requires Candidate(h, args, reserved) && ReachedBy(script, h, args, x) && x in Locals(h.tail) * NamesAll(h.guards)
    ensures !AgreesOn(script, h, args, reserved, map[])
  {
    hide Build, NewNames, ApartRun, Body, ExecAll, EvalAll, HelperFrame, Accepted, Tracing, FinalPlan, PlanUpTo,
      RunGuards, Rest, Bound, Call, InnerNames;
    var it, mine, added := Tracing(script), Locals(h.tail), NewNames(h, args, reserved);
    var o := EvalAll(it, args, map[], START);
    var w := o.world;
    var g := InlinedRun(script, h, args, reserved);
    GuardedDeclareNew(h, args, reserved);
    GuardsDisagree(script, h, args, reserved, o.values, g, x, w);
    ConditionFirst(script, h, args, reserved, g, w);
    CallUnfolds(it, h, args, map[], START);
    BodySees(script, h, o.values, w);
    ParamsOfFrame(h, o.values);
    InsertedUnseen(script, h, args, reserved, added);
    var inlined := RunGuards(it, SubstAll(h.guards, FinalPlan(h, args, reserved).sub), g, w).world;
    var called := RunGuards(it, h.guards, HelperFrame(h, o.values), w).world;
    var e := ExecAll(it, Rest(Build(h, args, reserved)), g, w).world;
    var b := Body(it, h, HelperFrame(h, o.values), map[], w).world;
    TimesGrow(inlined.seen, e.seen, mine, mine);
    TimesGrow(called.seen, b.seen, added, added);
  }

  /**
   For a helper whose names from outside are all reached: every replacement of
   the call behaves like it, whatever the outer variables hold, if and only if
   the fresh-name search finds no name the helper takes from outside and no
   guard mentions a declaration of the tail.
  */
  lemma CaptureIff(h: Helper, args: seq<Expr>, reserved: set<string>)
    requires Candidate(h, args, reserved) && AllReached(h, args)
    ensures Faithful(h, args, reserved) <==> CaptureFree(h, args, reserved)
  {
    hide Candidate, AgreesOn, ReachedBy, NewNames, OuterNames, NamesAll, Locals;
    if CaptureFree(h, args, reserved) {
      CaptureFreeIsFaithful(h, args, reserved);
    } else {
      NothingBound(h, reserved);
      var read, taken := Locals(h.tail) * NamesAll(h.guards), NewNames(h, args, reserved) * OuterNames(h);
      CommonOrDisjoint(Locals(h.tail), NamesAll(h.guards));
      CommonOrDisjoint(NewNames(h, args, reserved), OuterNames(h));
      var x := Member(if read == {} then taken else read);
      assert x in OuterNames(h) + read;
      var script: Script :| ReachedBy(script, h, args, x);
      if read == {} {
        OuterIsCaptured(script, h, args, reserved, x);
      } else {
        GuardIsCaptured(script, h, args, reserved, x);
      }
    }
  }

  lemma CommonOrDisjoint<T>(a: set<T>, b: set<T>)
    ensures a * b == {} <==> a !! b
  {
    forall x | x in a && x in b
      ensures x in a * b
    {
    }
  }

  lemma NothingBound(h: Helper, reserved: set<string>)
    ensures CallSite(h, reserved, map[])
  {
  }

  // --------------------------------------------------- helpers that reach every name

  /** Every operand is evaluated. */
  predicate Straight(e: Expr) {
    match e
    case Op(_, args) => StraightAll(args)
    case Paren(i) => Straight(i)
    case Not(o) => Straight(o)
    case And(_, _) => false
    case Or(_, _) => false
    case Cmp(_, l, r) => Straight(l) && Straight(r)
    case _ => true
  }

  predicate StraightAll(es: seq<Expr>) {
    es == [] || (Straight(es[0]) && StraightAll(es[1..]))
  }

  /** No guards, and a tail of expression statements and assignments that evaluate all they mention. */
  predicate StraightLine(h: Helper) {
    h.guards == [] && forall s :: s in h.tail ==> (s.Do? || s.Set?) && Straight(s.e)
  }

  ghost predicate Usable(f: Frame) {
    forall x :: x in f ==> f[x].Some?
  }

  lemma {:induction false} EvalReturns(script: Script, e: Expr, f: Frame, w: Log)
    requires Usable(f)
    ensures Eval(Tracing(script), e, f, w).Ret?
    decreases e
  {
    match e {
      case Op(_, args) => EvalAllReturns(script, args, f, w);
      case Paren(i) => EvalReturns(script, i, f, w);
      case Not(o) => EvalReturns(script, o, f, w);
      case And(l, r) =>
        EvalReturns(script, l, f, w);
        EvalReturns(script, r, f, Eval(Tracing(script), l, f, w).world);
      case Or(l, r) =>
        EvalReturns(script, l, f, w);
        EvalReturns(script, r, f, Eval(Tracing(script), l, f, w).world);
      case Cmp(_, l, r) =>
        EvalReturns(script, l, f, w);
        EvalReturns(script, r, f, Eval(Tracing(script), l, f, w).world);
      case _ =>
    }
  }

  lemma {:induction false} EvalAllReturns(script: Script, es: seq<Expr>, f: Frame, w: Log)
    requires Usable(f)
    ensures EvalAll(Tracing(script), es, f, w).RetAll?
    decreases es
  {
    if es != [] {
      EvalReturns(script, es[0], f, w);
      EvalAllReturns(script, es[1..], f, Eval(Tracing(script), es[0], f, w).world);
    }
  }

  /** More of the name has been seen. */
  ghost predicate More(w: Log, e: Log, x: string) {
    w.seen <= e.seen && Times(e.seen, {x}) > Times(w.seen, {x})
  }

  lemma MoreOn(w: Log, m: Log, e: Log, x: string)
    requires w.seen <= m.seen && m.seen <= e.seen && (More(w, m, x) || More(m, e, x))
    ensures More(w, e, x)
  {
    TimesGrow(w.seen, m.seen, {x}, {x});
    TimesGrow(m.seen, e.seen, {x}, {x});
  }

  lemma {:induction false} EvalReads(script: Script, e: Expr, f: Frame, w: Log, x: string)
    requires Usable(f) && Straight(e) && x in Names(e) && x !in f
    ensures More(w, Eval(Tracing(script), e, f, w).world, x)
    decreases e
  {
    hide More;
    match e {
      case Var(_) => ReadSeen(script, x, f, w);
      case Op(_, args) =>
        EvalAllReturns(script, args, f, w);
        EvalAllReads(script, args, f, w, x);
        var o := EvalAll(Tracing(script), args, f, w);
        MoreOf(w, o.world, Log(o.world.answers + 1, o.world.seen), x);
      case Paren(i) => EvalReads(script, i, f, w, x);
      case Not(o) => EvalReads(script, o, f, w, x);
      case Cmp(_, l, r) =>
        EvalReturns(script, l, f, w);
        var o := Eval(Tracing(script), l, f, w);
        if x in Names(l) {
          EvalReads(script, l, f, w, x);
        } else {
          EvalReads(script, r, f, o.world, x);
        }
        EvalGrows(script, l, f, w);
        EvalGrows(script, r, f, o.world);
        MoreOn(w, o.world, Eval(Tracing(script), r, f, o.world).world, x);
    }
  }

  lemma ReadSeen(script: Script, x: string, f: Frame, w: Log)
    requires x !in f
    ensures More(w, Eval(Tracing(script), Var(x), f, w).world, x)
  {
    ReadOutside(script, x, f, w);
    TimesSnoc(w.seen, x, {x});
  }

  lemma MoreOf(w: Log, m: Log, e: Log, x: string)
    requires More(w, m, x) && m.seen == e.seen
    ensures More(w, e, x)
  {
  }

  lemma {:induction false} EvalAllReads(script: Script, es: seq<Expr>, f: Frame, w: Log, x: string)
    requires Usable(f) && StraightAll(es) && x in NamesAll(es) && x !in f
    ensures More(w, EvalAll(Tracing(script), es, f, w).world, x)
    decreases es
  {
    hide More;
    EvalReturns(script, es[0], f, w);
    var o := Eval(Tracing(script), es[0], f, w);
    if x in Names(es[0]) {
      EvalReads(script, es[0], f, w, x);
    } else {
      EvalAllReads(script, es[1..], f, o.world, x);
    }
    EvalGrows(script, es[0], f, w);
    EvalAllSees(script, es[1..], f, o.world);
    SeesGrows(f, o.world, EvalAll(Tracing(script), es[1..], f, o.world).world);
    MoreOn(w, o.world, EvalAll(Tracing(script), es[1..], f, o.world).world, x);
  }

  lemma StatementReads(script: Script, s: Stmt, f: Frame, w: Log, x: string)
    requires Usable(f) && (s.Do? || (s.Set? && s.x !in f)) && Straight(s.e)
    ensures var r := Exec(Tracing(script), s, f, w);
      r.Finished? && r.frame == f && w.seen <= r.world.seen && (x in StmtFree(s) && x !in f ==> More(w, r.world, x))
  {
    EvalReturns(script, s.e, f, w);
    EvalGrows(script, s.e, f, w);
    var o := Eval(Tracing(script), s.e, f, w);
    if x in Names(s.e) && x !in f {
      EvalReads(script, s.e, f, w, x);
    }
    if s.Set? {
      TimesSnoc(o.world.seen, s.x, {x});
      TimesGrow(w.seen, o.world.seen, {x}, {x});
    }
  }

  lemma {:induction false} TailReads(script: Script, b: seq<Stmt>, f: Frame, w: Log, x: string)
    requires Usable(f) && (forall s :: s in b ==> (s.Do? || (s.Set? && s.x !in f)) && Straight(s.e))
    ensures var e := ExecAll(Tracing(script), b, f, w).world;
      w.seen <= e.seen && (x in BlockFree(b) && x !in f ==> More(w, e, x))
    decreases |b|
  {
    if b != [] {
      hide More;
      StatementReads(script, b[0], f, w, x);
      var m := Exec(Tracing(script), b[0], f, w).world;
      TailReads(script, b[1..], f, m, x);
      if x in BlockFree(b) && x !in f {
        MoreOn(w, m, ExecAll(Tracing(script), b[1..], f, m).world, x);
      }
    }
  }

  lemma {:induction false} WritesOutside(b: seq<Stmt>, names: set<string>, s: Stmt)
    requires WritesNone(b, names) && s in b && s.Set?
    ensures s.x !in names
  {
    if s != b[0] {
      WritesOutside(b[1..], names, s);
    }
  }

  lemma StraightLineReaches(h: Helper, args: seq<Expr>)
    requires Accepted(h) && StraightLine(h)
    ensures AllReached(h, args)
  {
    forall x | x in OuterNames(h) + Locals(h.tail) * NamesAll(h.guards)
      ensures exists script: Script :: ReachedBy(script, h, args, x)
    {
      var script: Script := k => Undefined;
      EvalAllReturns(script, args, map[], START);
      var o := EvalAll(Tracing(script), args, map[], START);
      var f := HelperFrame(h, o.values);
      assert Locals(h.tail) == {};
      ParamsOfFrame(h, o.values);
      forall s | s in h.tail && s.Set?
        ensures s.x !in f
      {
        WritesOutside(h.tail, ToSet(h.params), s);
      }
      TailReads(script, h.tail, f, o.world, x);
      assert ReachedBy(script, h, args, x);
    }
  }

  /** For straight-line helpers the condition is the fresh-name search alone. */
  lemma StraightLineIff(h: Helper, args: seq<Expr>, reserved: set<string>)
    requires Accepted(h) && StraightLine(h) && |args| <= |h.params| && NamesAll(args) <= reserved
    ensures Faithful(h, args, reserved) <==> NewNames(h, args, reserved) !! OuterNames(h)
  {
    hide NewNames, OuterNames, Faithful, AllReached, WritesNone, NamesAll;
    StraightLineReaches(h, args);
    NothingInside(h.tail);
    CaptureIff(h, args, reserved);
  }

  lemma {:induction false} NothingInside(b: seq<Stmt>)
    requires forall s :: s in b ==> s.Do? || s.Set?
    ensures InnerLocals(b) == {}
  {
    if b != [] {
      NothingInside(b[1..]);
    }
  }
}
