/** Concrete calls whose replacement captures a name, one for each naming hypothesis. */
module InlineCaptureRuns {
  import opened Prelude
  import opened InlineSyntax
  import opened InlineEval
  import opened InlineGuards
  import opened InlineStmts
  import opened InlineReplace
  import opened InlineTheorem
  import opened InlineCapture
  import opened InlineExact
  import opened InlineTraces

  /** An interpretation in which every read of an outer variable is recorded. */
  const COUNTING: Interp<int> :=
    Interp((x, k) => Ret(Num(7), k + 1), (x, v, k) => Ret(v, k), (f, vs, k) => Ret(Undefined, k))

  /**
   The temporary for parameter `p` is named without looking at the helper's own
   names: a helper that reads an outer `__inl_p` reads the temporary instead.
  */
  lemma TemporaryCaptures()
    ensures var h := Helper(["p"], [], [Do(Var("__inl_p")), Do(Var("p"))]);
      var args := [Lit(Num(1))];
      var inserted := Inserted(Build(h, args, {}));
      && Candidate(h, args, {}) && NewNames(h, args, {}) == {"__inl_p"} == OuterNames(h) && !Faithful(h, args, {})
      && Call(COUNTING, h, args, map[], 0) == Finished(map[], 1)
      && ExecAll(COUNTING, inserted, Enter(map[], Locals(inserted)), 0).world == 0
  {
    var h := Helper(["p"], [], [Do(Var("__inl_p")), Do(Var("p"))]);
    var args := [Lit(Num(1))];
    hide FinalPlan, Build, ExecAll, Call, Enter, NewNames, OuterNames, Faithful;
    CaptureNames(h, args);
    StraightLineIff(h, args, {});
    CaptureTail(h, args);
    RunCapture(h, args, Inserted(Build(h, args, {})));
  }

  lemma CaptureNames(h: Helper, args: seq<Expr>)
    requires h == Helper(["p"], [], [Do(Var("__inl_p")), Do(Var("p"))]) && args == [Lit(Num(1))]
    ensures Candidate(h, args, {}) && NewNames(h, args, {}) == {"__inl_p"} == OuterNames(h)
  {
    assert BlockFree(h.tail) == {"__inl_p", "p"};
    assert h.tail[1..] == [Do(Var("p"))];
    NothingInside(h.tail);
    assert "__inl_" + "p" == "__inl_p";
    assert TempNames(h, args, {}, 0) == [];
    assert TempNames(h, args, {}, 1) == ["__inl_p"];
    assert RenamedNames(h.tail, {"__inl_p"}, 1) == {};
    assert RenamedNames(h.tail, {"__inl_p"}, 2) == {};
    assert {} + ToSet(["__inl_p"]) == {"__inl_p"};
    assert Locals(h.tail) == {};
  }

  lemma CapturePlan(h: Helper, args: seq<Expr>)
    requires h == Helper(["p"], [], [Do(Var("__inl_p")), Do(Var("p"))]) && args == [Lit(Num(1))]
    ensures FinalPlan(h, args, {}) ==
      Plan([Local("__inl_p", args[0])], map["p" := Var("__inl_p")], {"__inl_p"})
  {
    var temp := "__inl_p";
    assert BlockFree(h.tail) == {temp, "p"};
    assert PlanUpTo(h, args, {}, 0) == Plan([], map[], {});
    var plan := PlanUpTo(h, args, {}, 1);
    assert "__inl_" + "p" == temp;
    assert plan == Plan([Local(temp, args[0])], map["p" := Var(temp)], {temp});
    assert RenameUpTo(h.tail, plan, 1) == plan;
    assert RenameUpTo(h.tail, plan, 2) == plan;
  }

  lemma CaptureTail(h: Helper, args: seq<Expr>)
    requires h == Helper(["p"], [], [Do(Var("__inl_p")), Do(Var("p"))]) && args == [Lit(Num(1))]
    ensures Inserted(Build(h, args, {})) ==
      [Local("__inl_p", args[0]), Do(Var("__inl_p")), Do(Var("__inl_p"))]
  {
    hide FinalPlan;
    CapturePlan(h, args);
    var temp := "__inl_p";
    var sub := map["p" := Var(temp)];
    assert h.tail[1..] == [Do(Var("p"))] && h.tail[1..][1..] == [];
    assert SubstStmt(h.tail[0], sub) == Do(Var(temp));
    assert SubstBlock(h.tail[1..], sub) == [Do(Var(temp))] + SubstBlock([], sub);
    assert SubstBlock(h.tail, sub) == [Do(Var(temp))] + SubstBlock(h.tail[1..], sub);
  }

  lemma RunCapture(h: Helper, args: seq<Expr>, inserted: seq<Stmt>)
    requires h == Helper(["p"], [], [Do(Var("__inl_p")), Do(Var("p"))]) && args == [Lit(Num(1))]
    requires inserted == [Local("__inl_p", args[0]), Do(Var("__inl_p")), Do(Var("__inl_p"))]
    ensures Call(COUNTING, h, args, map[], 0) == Finished(map[], 1)
    ensures ExecAll(COUNTING, inserted, Enter(map[], Locals(inserted)), 0).world == 0
  {
    var temp := "__inl_p";
    assert args[1..] == [];
    assert EvalAll(COUNTING, args, map[], 0) == RetAll([Num(1)], 0);
    var inner := HelperFrame(h, [Num(1)]);
    assert inner["p"] == Some(Num(1)) && temp !in inner;
    assert h.tail[1..] == [Do(Var("p"))] && h.tail[1..][1..] == [];
    assert ExecAll(COUNTING, h.tail[1..], inner, 1) == Finished(inner, 1);
    var g := Enter(map[], Locals(inserted));
    assert inserted[1..] == [Do(Var(temp)), Do(Var(temp))];
    assert inserted[1..][1..] == [Do(Var(temp))] && inserted[1..][1..][1..] == [];
    var g1 := g[temp := Some(Num(1))];
    assert ExecAll(COUNTING, inserted[1..][1..], g1, 0) == Finished(g1, 0);
    assert ExecAll(COUNTING, inserted[1..], g1, 0) == Finished(g1, 0);
  }

  // ------------------------------------------------- a guard and the tail's own names

  /**
   A guard that mentions a declaration of the tail throws in the helper, where
   it has not run yet, and reads an outer variable of that name in the
   replacement, where it stands in a block of its own.
  */
  lemma GuardReadsTailLocal()
    ensures var h := Helper([], [Var("x")], [Local("x", Lit(Num(1)))]);
      var inserted := Inserted(Build(h, [], {}));
      && Candidate(h, [], {}) && NewNames(h, [], {}) == {} && !Faithful(h, [], {})
      && Call(COUNTING, h, [], map[], 0) == Failed(0)
      && ExecAll(COUNTING, inserted, Enter(map[], Locals(inserted)), 0) == Finished(map[], 1)
  {
    var h := Helper([], [Var("x")], [Local("x", Lit(Num(1)))]);
    GuardIsCandidate(h);
    GuardNames(h);
    hide Candidate, AllReached, Faithful, NewNames, OuterNames, Call, Locals, NamesAll, Build, ExecAll;
    CaptureIff(h, [], {});
    GuardThrows(h);
    GuardInverted(h);
    InvertedRun(SubstBlock(h.tail, NO_SUB));
  }

  ghost predicate GuardedBy(h: Helper) {
    h == Helper([], [Var("x")], [Local("x", Lit(Num(1)))])
  }

  lemma GuardNames(h: Helper)
    requires GuardedBy(h)
    ensures Locals(h.tail) == {"x"} && OuterNames(h) == {} && NamesAll(h.guards) == {"x"}
  {
    assert h.tail[1..] == [] && h.guards[1..] == [];
    LocalsAreNames(h.tail);
    assert NamesAll(h.guards[1..]) == {} && BlockFree(h.tail[1..]) == {};
    assert NamesAll(h.guards) == {"x"};
    assert BlockFree(h.tail) == {"x"};
  }

  lemma GuardIsCandidate(h: Helper)
    requires GuardedBy(h)
    ensures Candidate(h, [], {}) && AllReached(h, []) && NewNames(h, [], {}) == {}
  {
    GuardNames(h);
    assert h.tail[1..] == [];
    GuardIsReached(h, k => Undefined);
  }

  lemma GuardIsReached(h: Helper, script: Script)
    requires GuardedBy(h)
    ensures ReachedBy(script, h, [], "x")
  {
    var it, own, w := Tracing(script), ParamFrame(h, []), Log(1, ["x"]);
    var inner := HelperFrame(h, []);
    GuardNames(h);
    assert EvalAll(it, [], map[], START) == RetAll([], START);
    assert RunGuards(it, h.guards, own, START).world == w by {
      ReadOutside(script, "x", own, START);
      assert h.guards[1..] == [];
    }
    AllSees(script, h.tail, inner, w);
    hide Exec, ExecAll, RunGuards, Locals, Tracing;
    TimesSnoc([], "x", {"x"});
    assert [] + ["x"] == ["x"];
    var run := RunGuards(it, h.guards, own, START);
    TimesGrow(w.seen, if run.RunsTail? then ExecAll(it, h.tail, inner, w).world.seen else w.seen, {"x"}, {"x"});
  }

  lemma GuardThrows(h: Helper)
    requires GuardedBy(h)
    ensures Call(COUNTING, h, [], map[], 0) == Failed(0)
  {
    GuardNames(h);
    ParamsOfFrame(h, []);
    assert HelperFrame(h, [])["x"] == None;
  }

  lemma GuardInverted(h: Helper)
    requires GuardedBy(h)
    ensures Inserted(Build(h, [], {})) == [Branch(Not(Paren(Var("x"))), SubstBlock(h.tail, NO_SUB), [])]
  {
    CombinedTextParses(h.guards, NO_SUB);
    assert GuardChain(h.guards) == Paren(Var("x"));
    assert NegTree(Paren(Var("x")), NO_SUB) == Not(Paren(Var("x")));
    assert FinalPlan(h, [], {}) == Plan([], map[], {});
    assert NO_SUB - Locals(h.tail) == NO_SUB;
  }

  lemma InvertedRun(tail: seq<Stmt>)
    ensures var inserted := [Branch(Not(Paren(Var("x"))), tail, [])];
      ExecAll(COUNTING, inserted, Enter(map[], Locals(inserted)), 0) == Finished(map[], 1)
  {
    var c := Not(Paren(Var("x")));
    var s := Branch(c, tail, []);
    assert Locals([s]) == {} && Enter(map[], {}) == map[];
    BranchRuns(COUNTING, c, tail, map[], 0);
    assert RunCondition(COUNTING, c, map[], 0) == Returns(1);
    SingleStatement(COUNTING, s, map[], 0);
  }

  // ------------------------------------------------------------ inner declarations

  /** An interpretation that remembers the last value written to an outer variable. */
  const LAST_WRITTEN: Interp<Value> :=
    Interp((x, w) => Ret(w, w), (x, v, w) => Ret(v, v), (f, vs, w) => Ret(Undefined, w))

  ghost predicate DeclaresInside(h: Helper) {
    h == Helper(["p"], [], [Branch(Lit(Bool(true)), [Local("__inl_p", Lit(Undefined)), Set("y", Var("p"))], [])])
  }

  /**
   A nested declaration named like a temporary captures it: the helper writes
   its argument, the replacement the value declared inside. The outer names do
   not show this.
  */
  lemma InnerDeclarationCaptures(h: Helper)
    requires DeclaresInside(h)
    ensures var args := [Lit(Num(1))];
      var inserted := Inserted(Build(h, args, {}));
      && Accepted(h) && CaptureFree(h, args, {}) && NewNames(h, args, {}) == {"__inl_p"} == InnerNames(h)
      && Call(LAST_WRITTEN, h, args, map[], Undefined).world == Num(1)
      && ExecAll(LAST_WRITTEN, inserted, Enter(map[], Locals(inserted)), Undefined).world == Undefined
  {
    var args := [Lit(Num(1))];
    InnerNamesOf(h, args);
    InnerPlan(h, args);
    InnerCall(h, args);
    hide FinalPlan, Build, ExecAll, Call, Enter, NewNames, OuterNames, InnerNames;
    InnerReplaced(Inserted(Build(h, args, {})));
  }

  lemma InnerNamesOf(h: Helper, args: seq<Expr>)
    requires DeclaresInside(h) && args == [Lit(Num(1))]
    ensures Accepted(h) && CaptureFree(h, args, {}) && NewNames(h, args, {}) == {"__inl_p"} == InnerNames(h)
  {
    var thn := h.tail[0].thn;
    var temp := "__inl_p";
    LocalsAreNames(thn);
    LocalsAreNames(thn[1..]);
    assert thn[1..] == [Set("y", Var("p"))] && thn[1..][1..] == [] && h.tail[1..] == [];
    assert Locals(thn) == {temp} && InnerLocals(thn) == {};
    assert BlockFree(thn) == {temp, "y", "p"};
    assert BlockFree(h.tail) == {"y", "p"};
    assert Locals(h.tail) == {};
    assert InnerNames(h) == {temp};
    assert WritesNone(thn, {"p"}) by {
      assert "y"[0] != "p"[0];
    }
    assert ToSet(h.params) - Locals(thn) == {"p"};
    assert "__inl_" + "p" == temp;
    assert TempNames(h, args, {}, 0) == [];
    assert TempNames(h, args, {}, 1) == [temp];
    assert RenamedNames(h.tail, {temp}, 1) == {};
    assert {} + ToSet([temp]) == {temp};
  }

  lemma InnerPlan(h: Helper, args: seq<Expr>)
    requires DeclaresInside(h) && args == [Lit(Num(1))]
    ensures Inserted(Build(h, args, {})) ==
      [Local("__inl_p", Lit(Num(1))),
       Branch(Lit(Bool(true)), [Local("__inl_p", Lit(Undefined)), Set("y", Var("__inl_p"))], [])]
  {
    InnerNamesOf(h, args);
    var thn := h.tail[0].thn;
    var temp := "__inl_p";
    var sub: map<string, Expr> := map["p" := Var(temp)];
    assert Used(h, "p");
    assert PlanUpTo(h, args, {}, 0) == Plan([], map[], {});
    var plan := PlanUpTo(h, args, {}, 1);
    assert plan == Plan([Local(temp, args[0])], sub, {temp});
    assert RenameUpTo(h.tail, plan, 1) == plan;
    assert sub - Locals(thn) == sub;
    assert thn[1..] == [Set("y", Var("p"))] && thn[1..][1..] == [] && h.tail[1..] == [];
    assert SubstBlock(thn[1..], sub) == [Set("y", Var(temp))];
    assert SubstBlock(thn, sub) == [Local(temp, Lit(Undefined)), Set("y", Var(temp))];
    assert SubstBlock([], sub - {}) == [];
    assert SubstStmt(h.tail[0], sub) == Branch(Lit(Bool(true)), SubstBlock(thn, sub), []);
  }

  lemma ExecPair<W>(it: Interp<W>, s: Stmt, t: Stmt, f: Frame, w: W)
    ensures ExecAll(it, [s, t], f, w) ==
      var r := Exec(it, s, f, w);
      if r.Failed? then r else Exec(it, t, r.frame, r.world)
  {
    assert [s, t][1..] == [t];
    var r := Exec(it, s, f, w);
    if r.Finished? {
      SingleStatement(it, t, r.frame, r.world);
    }
  }

  lemma TakeBranch<W>(it: Interp<W>, thn: seq<Stmt>, f: Frame, w: W)
    ensures Exec(it, Branch(Lit(Bool(true)), thn, []), f, w) == ExecBlock(it, thn, f, w)
  {
  }

  lemma InnerCall(h: Helper, args: seq<Expr>)
    requires DeclaresInside(h) && args == [Lit(Num(1))]
    ensures Call(LAST_WRITTEN, h, args, map[], Undefined).world == Num(1)
  {
    assert args[1..] == [];
    assert EvalAll(LAST_WRITTEN, args, map[], Undefined) == RetAll([Num(1)], Undefined);
    var inner := HelperFrame(h, [Num(1)]);
    assert inner["p"] == Some(Num(1)) && "y" !in inner;
    SetInside("p", inner, Num(1));
    hide Exec, ExecAll, ExecBlock, HelperFrame;
    SingleStatement(LAST_WRITTEN, h.tail[0], inner, Undefined);
    TakeBranch(LAST_WRITTEN, h.tail[0].thn, inner, Undefined);
  }

  lemma InnerReplaced(inserted: seq<Stmt>)
    requires inserted ==
      [Local("__inl_p", Lit(Num(1))),
       Branch(Lit(Bool(true)), [Local("__inl_p", Lit(Undefined)), Set("y", Var("__inl_p"))], [])]
    ensures ExecAll(LAST_WRITTEN, inserted, Enter(map[], Locals(inserted)), Undefined).world == Undefined
  {
    var g := Enter(map[], Locals(inserted));
    var g1 := g["__inl_p" := Some(Num(1))];
    LocalsAreNames(inserted);
    assert Locals(inserted[1..]) == {};
    assert Exec(LAST_WRITTEN, inserted[0], g, Undefined) == Finished(g1, Undefined);
    SetInside("__inl_p", g1, Undefined);
    hide Exec, ExecAll, ExecBlock;
    ExecPair(LAST_WRITTEN, inserted[0], inserted[1], g, Undefined);
    TakeBranch(LAST_WRITTEN, inserted[1].thn, g1, Undefined);
  }

  lemma SetInside(z: string, f: Frame, v: Value)
    requires "y" !in f
    requires if z == "__inl_p" then v == Undefined else z in f && f[z] == Some(v)
    ensures var r := ExecBlock(LAST_WRITTEN, [Local("__inl_p", Lit(Undefined)), Set("y", Var(z))], f, Undefined);
      r.Finished? && r.world == v
  {
    var s, t := Local("__inl_p", Lit(Undefined)), Set("y", Var(z));
    assert [s, t][1..] == [t] && [t][1..] == [];
    LocalsAreNames([s, t]);
    LocalsAreNames([t]);
    assert Locals([s, t]) == {"__inl_p"};
    hide Exec, ExecAll;
    ExecPair(LAST_WRITTEN, s, t, Enter(f, {"__inl_p"}), Undefined);
    SetAfter(z, Enter(f, {"__inl_p"}), v);
  }

  lemma SetAfter(z: string, f: Frame, v: Value)
    requires "y" !in f && "__inl_p" in f
    requires if z == "__inl_p" then v == Undefined else z in f && f[z] == Some(v)
    ensures var g := f["__inl_p" := Some(Undefined)];
      Exec(LAST_WRITTEN, Local("__inl_p", Lit(Undefined)), f, Undefined) == Finished(g, Undefined) &&
      Exec(LAST_WRITTEN, Set("y", Var(z)), g, Undefined) == Finished(g, v)
  {
    assert Eval(LAST_WRITTEN, Var(z), f["__inl_p" := Some(Undefined)], Undefined) == Ret(v, Undefined);
    assert "y"[0] != "__inl_p"[0];
  }
}
