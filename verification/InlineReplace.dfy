/**
 Strict-mode replacement of one call (`buildReplacement` and
 `renameCollidingLocals` in scripts/inline-functions.ts): every argument that
 has an effect or is used is hoisted left to right, guards become one condition,
 and the tail is substituted.
*/
module InlineReplace {
  import opened Prelude
  import opened InlineSyntax
  import opened InlineEval
  import opened InlineGuards
  import opened InlineStmts
  import opened InlineNames

  /** An accepted helper: parameters, leading guard conditions, and the remaining statements. */
  datatype Helper = Helper(params: seq<string>, guards: seq<Expr>, tail: seq<Stmt>)

  function FreeNames(h: Helper): set<string> {
    NamesAll(h.guards) + BlockFree(h.tail)
  }

  /** Names the helper takes from outside. */
  function OuterNames(h: Helper): set<string> {
    FreeNames(h) - ToSet(h.params) - Locals(h.tail)
  }

  /** Names declared in the blocks of what is spliced in: nested ones, and a guarded tail as a whole. */
  function InnerNames(h: Helper): set<string> {
    InnerLocals(h.tail) + if h.guards != [] then Locals(h.tail) else {}
  }

  /** A parameter has references in the body. */
  predicate Used(h: Helper, p: string) {
    p in FreeNames(h)
  }

  /** What a helper must satisfy for its calls to be replaced. */
  ghost predicate Accepted(h: Helper) {
    && NoDuplicates(h.params)
    && (forall g :: g in h.guards ==> WellFormed(g))
    && WritesNone(h.tail, ToSet(h.params))
    && Locals(h.tail) !! ToSet(h.params)
  }

  // --------------------------------------------------------------- the original

  function ParamIndex(params: seq<string>, p: string): (i: nat)
    requires p in params
    ensures i < |params| && params[i] == p
  {
    if params[0] == p then 0 else 1 + ParamIndex(params[1..], p)
  }

  function ArgValue(params: seq<string>, values: seq<Value>, p: string): Value
    requires p in params
  {
    var i := ParamIndex(params, p);
    if i < |values| then values[i] else Undefined
  }

  function ParamAt(h: Helper, values: seq<Value>, p: string): Option<Value> {
    if p in h.params then Some(ArgValue(h.params, values, p)) else None
  }

  function ParamFrame(h: Helper, values: seq<Value>): Frame {
    map p | p in h.params :: ParamAt(h, values, p)
  }

  /** Parameters and the tail's declarations; nothing of the caller's frame is visible. */
  function HelperFrame(h: Helper, values: seq<Value>): Frame {
    Enter(ParamFrame(h, values), Locals(h.tail))
  }

  /** `helper(args);` */
  function Call<W>(it: Interp<W>, h: Helper, args: seq<Expr>, f: Frame, w: W): Completion<W> {
    var o := EvalAll(it, args, f, w);
    if o.ThrowAll? then Failed(o.world)
    else
      var inner := HelperFrame(h, o.values);
      var run := RunGuards(it, h.guards, inner, o.world);
      if run.Throws? then Failed(run.world)
      else if run.Returns? then Finished(f, run.world)
      else
        var r := ExecAll(it, h.tail, inner, run.world);
        if r.Failed? then r else Finished(f, r.world)
  }

  // ------------------------------------------------------------ the replacement

  /** Hoisted statements, the substitution of the parameters so far, and the names taken. */
  datatype Plan = Plan(prefix: seq<Stmt>, sub: map<string, Expr>, reserved: set<string>)

  predicate LiteralArg(e: Expr) {
    match e
    case Paren(i) => LiteralArg(i)
    case _ => e.Lit?
  }

  /** One round of the loop over the parameters. */
  function PlanParam(h: Helper, args: seq<Expr>, plan: Plan, i: nat): Plan
    requires i < |h.params|
  {
    var p := h.params[i];
    if !Used(h, p) then
      if i < |args| && !LiteralArg(args[i]) then plan.(prefix := plan.prefix + [Do(args[i])]) else plan
    else if i >= |args| then
      plan.(sub := plan.sub[p := Lit(Undefined)])
    else
      var temp := FreshName("__inl_" + p, plan.reserved);
      Plan(plan.prefix + [Local(temp, args[i])], plan.sub[p := Var(temp)], plan.reserved + {temp})
  }

  function PlanUpTo(h: Helper, args: seq<Expr>, reserved: set<string>, n: nat): Plan
    requires n <= |h.params|
  {
    if n == 0 then Plan([], map[], reserved)
    else PlanParam(h, args, PlanUpTo(h, args, reserved, n - 1), n - 1)
  }

  /** One round of the loop over the tail's own declarations (guardless helpers only). */
  function RenameOne(s: Stmt, plan: Plan): Plan {
    if !s.Local? then plan
    else if s.x !in plan.reserved then plan.(reserved := plan.reserved + {s.x})
    else
      var renamed := FreshName(s.x, plan.reserved);
      Plan(plan.prefix, plan.sub[s.x := Var(renamed)], plan.reserved + {renamed})
  }

  function RenameUpTo(tail: seq<Stmt>, plan: Plan, n: nat): Plan
    requires n <= |tail|
  {
    if n == 0 then plan else RenameOne(tail[n - 1], RenameUpTo(tail, plan, n - 1))
  }

  function FinalPlan(h: Helper, args: seq<Expr>, reserved: set<string>): Plan {
    var plan := PlanUpTo(h, args, reserved, |h.params|);
    if h.guards != [] then plan else RenameUpTo(h.tail, plan, |h.tail|)
  }

  // ------------------------------------------------------------ the names it adds

  /** The temporaries of the first `n` parameters: one for each that is used and has an argument. */
  function TempNames(h: Helper, args: seq<Expr>, reserved: set<string>, n: nat): seq<string>
    requires n <= |h.params|
  {
    if n == 0 then []
    else
      var ts := TempNames(h, args, reserved, n - 1);
      if Used(h, h.params[n - 1]) && n - 1 < |args| then ts + [FreshName("__inl_" + h.params[n - 1], reserved + ToSet(ts))]
      else ts
  }

  /** The names taken after the first `n` statements of the tail. */
  function TakenAfter(tail: seq<Stmt>, taken: set<string>, n: nat): set<string>
    requires n <= |tail|
  {
    if n == 0 then taken
    else
      var before := TakenAfter(tail, taken, n - 1);
      if !tail[n - 1].Local? then before
      else if tail[n - 1].x !in before then before + {tail[n - 1].x}
      else before + {FreshName(tail[n - 1].x, before)}
  }

  /** The new names of declarations that collide. */
  function RenamedNames(tail: seq<Stmt>, taken: set<string>, n: nat): set<string>
    requires n <= |tail|
  {
    if n == 0 then {}
    else
      var before := TakenAfter(tail, taken, n - 1);
      RenamedNames(tail, taken, n - 1) +
      if tail[n - 1].Local? && tail[n - 1].x in before then {FreshName(tail[n - 1].x, before)} else {}
  }

  /** Every name the replacement makes up, by the fresh-name search alone. */
  function NewNames(h: Helper, args: seq<Expr>, reserved: set<string>): set<string> {
    var temps := ToSet(TempNames(h, args, reserved, |h.params|));
    if h.guards != [] then temps else temps + RenamedNames(h.tail, reserved + temps, |h.tail|)
  }

  datatype Replacement = Replacement(prefix: seq<Stmt>, condition: Option<seq<Token>>, tail: seq<Stmt>)

  function Build(h: Helper, args: seq<Expr>, reserved: set<string>): Replacement {
    var plan := FinalPlan(h, args, reserved);
    Replacement(
      plan.prefix,
      if h.guards != [] then Some(CombineGuards(h.guards, plan.sub)) else None,
      SubstBlock(h.tail, if h.guards != [] then plan.sub - Locals(h.tail) else plan.sub))
  }

  method BuildReplacement(h: Helper, args: seq<Expr>, reserved: set<string>) returns (r: Replacement)
    ensures r == Build(h, args, reserved)
  {
    var prefix: seq<Stmt>, sub: map<string, Expr>, taken := [], map[], reserved;
    for i := 0 to |h.params|
      invariant Plan(prefix, sub, taken) == PlanUpTo(h, args, reserved, i)
    {
      var p := h.params[i];
      if !Used(h, p) {
        if i < |args| && !LiteralArg(args[i]) {
          prefix := prefix + [Do(args[i])];
        }
      } else if i >= |args| {
        sub := sub[p := Lit(Undefined)];
      } else {
        var temp := FindFreshName("__inl_" + p, taken);
        taken := taken + {temp};
        prefix := prefix + [Local(temp, args[i])];
        sub := sub[p := Var(temp)];
      }
    }
    if h.guards != [] {
      return Replacement(prefix, Some(CombineGuards(h.guards, sub)), SubstBlock(h.tail, sub - Locals(h.tail)));
    }
    ghost var plan := Plan(prefix, sub, taken);
    for k := 0 to |h.tail|
      invariant Plan(prefix, sub, taken) == RenameUpTo(h.tail, plan, k)
    {
      if h.tail[k].Local? {
        var original := h.tail[k].x;
        if original !in taken {
          taken := taken + {original};
        } else {
          var renamed := FindFreshName(original, taken);
          taken := taken + {renamed};
          sub := sub[original := Var(renamed)];
        }
      }
    }
    r := Replacement(prefix, None, SubstBlock(h.tail, sub));
  }

  /** The statements spliced into the caller's block. */
  function Inserted(r: Replacement): seq<Stmt> {
    match r.condition
    case None => r.prefix + r.tail
    case Some(text) =>
      match Parse(text)
      case Some(c) => r.prefix + [Branch(c, r.tail, [])]
      case None => r.prefix
  }
}
