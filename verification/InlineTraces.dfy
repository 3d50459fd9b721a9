/**
 What runs see of the outer variables, under interpretations whose every answer
 comes from a script: a frame hides the names it binds, and guards evaluated in
 frames that bind different names either do the same or see different names.
*/
module InlineTraces {
  import opened Prelude
  import opened InlineSyntax
  import opened InlineEval
  import opened InlineGuards
  import opened InlineStmts
  import opened InlineSim
  import opened InlineExact

  /** How many answers were given, and the outer names seen so far. */
  datatype Log = Log(answers: int, seen: seq<string>)

  const START := Log(0, [])

  function Tracing(script: Script): Interp<Log> {
    Interp(
      (x: string, w: Log) => Ret(script(w.answers), Log(w.answers + 1, w.seen + [x])),
      (x: string, v: Value, w: Log) => Ret(v, Log(w.answers + 1, w.seen + [x])),
      (f: string, vs: seq<Value>, w: Log) => Ret(script(w.answers), Log(w.answers + 1, w.seen)))
  }

  // ---------------------------------------------------------------- what runs see

  function Times(seen: seq<string>, names: set<string>): nat {
    if seen == [] then 0 else Times(seen[..|seen| - 1], names) + if Last(seen) in names then 1 else 0
  }

  lemma TimesSnoc(seen: seq<string>, x: string, names: set<string>)
    ensures Times(seen + [x], names) == Times(seen, names) + if x in names then 1 else 0
  {
    assert (seen + [x])[..|seen|] == seen;
  }

  lemma {:induction false} TimesGrow(a: seq<string>, b: seq<string>, n: set<string>, m: set<string>)
    requires a <= b && n <= m
    ensures Times(a, n) <= Times(b, n)
    ensures Times(b, n) > Times(a, n) ==> Times(b, m) > Times(a, m)
    decreases |b|
  {
    if |a| < |b| {
      TimesGrow(a, b[..|b| - 1], n, m);
      TimesGrow(a, b[..|b| - 1], m, m);
    } else {
      assert a == b;
    }
  }

  /** The run goes on from `w`, and does not see names bound in the frame. */
  ghost predicate Sees(f: Frame, w: Log, e: Log) {
    w.seen <= e.seen && forall n: set<string> :: n <= f.Keys ==> Times(e.seen, n) == Times(w.seen, n)
  }

  lemma SeesOn(f: Frame, w: Log, m: Log, e: Log)
    requires Sees(f, w, m) && Sees(f, m, e)
    ensures Sees(f, w, e)
  {
  }

  lemma SeesOne(f: Frame, w: Log, x: string, k: int)
    requires x !in f
    ensures Sees(f, w, Log(k, w.seen + [x])) && Sees(f, w, Log(k, w.seen))
  {
    forall n: set<string> | n <= f.Keys
      ensures Times(w.seen + [x], n) == Times(w.seen, n)
    {
      TimesSnoc(w.seen, x, n);
    }
  }

  lemma {:induction false} EvalSees(script: Script, e: Expr, f: Frame, w: Log)
    ensures Sees(f, w, Eval(Tracing(script), e, f, w).world)
    decreases e
  {
    hide Sees;
    assert forall k :: Sees(f, w, Log(k, w.seen)) by {
      SeesItself(f, w);
    }
    match e {
      case Var(x) =>
        if x !in f {
          SeesOne(f, w, x, w.answers + 1);
        }
      case Lit(_) =>
      case Op(_, args) =>
        EvalAllSees(script, args, f, w);
        var o := EvalAll(Tracing(script), args, f, w);
        SeesItself(f, o.world);
        SeesOn(f, w, o.world, Log(o.world.answers + 1, o.world.seen));
      case Paren(i) => EvalSees(script, i, f, w);
      case Not(o) => EvalSees(script, o, f, w);
      case And(l, r) =>
        EvalSees(script, l, f, w);
        var o := Eval(Tracing(script), l, f, w);
        EvalSees(script, r, f, o.world);
        SeesOn(f, w, o.world, Eval(Tracing(script), r, f, o.world).world);
      case Or(l, r) =>
        EvalSees(script, l, f, w);
        var o := Eval(Tracing(script), l, f, w);
        EvalSees(script, r, f, o.world);
        SeesOn(f, w, o.world, Eval(Tracing(script), r, f, o.world).world);
      case Cmp(_, l, r) =>
        EvalSees(script, l, f, w);
        var o := Eval(Tracing(script), l, f, w);
        EvalSees(script, r, f, o.world);
        SeesOn(f, w, o.world, Eval(Tracing(script), r, f, o.world).world);
    }
  }

  lemma SeesItself(f: Frame, w: Log)
    ensures forall k :: Sees(f, w, Log(k, w.seen))
    ensures Sees(f, w, w)
  {
  }

  lemma {:induction false} EvalAllSees(script: Script, es: seq<Expr>, f: Frame, w: Log)
    ensures Sees(f, w, EvalAll(Tracing(script), es, f, w).world)
    decreases es
  {
    hide Sees;
    SeesItself(f, w);
    if es != [] {
      EvalSees(script, es[0], f, w);
      var o := Eval(Tracing(script), es[0], f, w);
      if o.Ret? {
        EvalAllSees(script, es[1..], f, o.world);
        SeesOn(f, w, o.world, EvalAll(Tracing(script), es[1..], f, o.world).world);
      }
    }
  }

  lemma {:induction false} GuardsSee(script: Script, guards: seq<Expr>, f: Frame, w: Log)
    ensures Sees(f, w, RunGuards(Tracing(script), guards, f, w).world)
  {
    hide Sees;
    SeesItself(f, w);
    if guards != [] {
      EvalSees(script, guards[0], f, w);
      var o := Eval(Tracing(script), guards[0], f, w);
      if o.Ret? && !Truthy(o.value) {
        GuardsSee(script, guards[1..], f, o.world);
        SeesOn(f, w, o.world, RunGuards(Tracing(script), guards[1..], f, o.world).world);
      }
    }
  }

  lemma SeesGrows(f: Frame, w: Log, e: Log)
    requires Sees(f, w, e)
    ensures w.seen <= e.seen
  {
  }

  lemma SeesMore(f: Frame, g: Frame, w: Log, e: Log)
    requires Sees(g, w, e) && f.Keys <= g.Keys
    ensures Sees(f, w, e)
  {
  }

  lemma {:induction false} ExecSees(script: Script, s: Stmt, f: Frame, w: Log)
    ensures Sees(f, w, Exec(Tracing(script), s, f, w).world)
    decreases s
  {
    hide Sees;
    var it := Tracing(script);
    match s {
      case Do(e) => EvalSees(script, e, f, w);
      case Local(_, e) => EvalSees(script, e, f, w);
      case Set(x, e) =>
        EvalSees(script, e, f, w);
        var o := Eval(it, e, f, w);
        if o.Ret? && x !in f {
          SeesOne(f, o.world, x, o.world.answers + 1);
          SeesOn(f, w, o.world, Log(o.world.answers + 1, o.world.seen + [x]));
        }
      case Branch(c, thn, els) =>
        EvalSees(script, c, f, w);
        var o := Eval(it, c, f, w);
        if o.Ret? {
          BlockSees(script, if Truthy(o.value) then thn else els, f, o.world);
          SeesOn(f, w, o.world, ExecBlock(it, if Truthy(o.value) then thn else els, f, o.world).world);
        }
    }
  }

  lemma {:induction false} BlockSees(script: Script, b: seq<Stmt>, f: Frame, w: Log)
    ensures Sees(f, w, ExecBlock(Tracing(script), b, f, w).world)
    decreases b, 1
  {
    AllSees(script, b, Enter(f, Locals(b)), w);
    SeesMore(f, Enter(f, Locals(b)), w, ExecAll(Tracing(script), b, Enter(f, Locals(b)), w).world);
  }

  lemma {:induction false} AllSees(script: Script, b: seq<Stmt>, f: Frame, w: Log)
    ensures Sees(f, w, ExecAll(Tracing(script), b, f, w).world)
    decreases b, 0
  {
    hide Sees;
    SeesItself(f, w);
    if b != [] {
      var it := Tracing(script);
      ExecSees(script, b[0], f, w);
      var r := Exec(it, b[0], f, w);
      if r.Finished? {
        StepGrows(it, b[0], f, w);
        AllSees(script, b[1..], r.frame, r.world);
        var e := ExecAll(it, b[1..], r.frame, r.world).world;
        SeesMore(f, r.frame, r.world, e);
        SeesOn(f, w, r.world, e);
      }
    }
  }

  // ---------------------------------------------------------------- guards that part ways

  /**
   Three frames for the guards: on their own, in the caller after the prefix, and in the helper. They differ in the
   names `mine` (declared by the tail, unusable in the helper) and `new` ones (bound in the caller).
  */
  ghost predicate Placed(
    sub: map<string, Expr>, own: Frame, g: Frame, inner: Frame, mine: set<string>, added: set<string>, names: set<string>)
  {
    forall x :: x in names ==>
      if x in own then own[x].Some? && x in inner && inner[x] == own[x] && Denotes(sub, own, g, x)
      else
        x !in sub &&
        (if x in mine then x !in g && x in inner && inner[x].None? else x !in inner && (x in g ==> x in added))
  }

  /** The caller's run sees a name of the tail, or the helper's run a new one. */
  ghost predicate Parted(w: Log, b: Log, c: Log, mine: set<string>, added: set<string>) {
    Times(b.seen, mine) > Times(w.seen, mine) || Times(c.seen, added) > Times(w.seen, added)
  }

  ghost predicate Clean(w: Log, a: Log, mine: set<string>, added: set<string>) {
    Times(a.seen, mine + added) == Times(w.seen, mine + added)
  }

  lemma PartedStays(w: Log, m: Log, b: Log, c: Log, b': Log, c': Log, mine: set<string>, added: set<string>)
    requires Parted(m, b, c, mine, added) && w.seen <= m.seen && b.seen <= b'.seen && c.seen <= c'.seen
    ensures Parted(w, b', c', mine, added)
  {
    TimesGrow(w.seen, m.seen, mine, mine);
    TimesGrow(w.seen, m.seen, added, added);
    TimesGrow(b.seen, b'.seen, mine, mine);
    TimesGrow(c.seen, c'.seen, added, added);
  }

  /** Evaluated in the three frames, a condition either does the same and sees none of those names, or they part. */
  ghost predicate SameOrParted(
    w: Log, a: Outcome<Log>, b: Outcome<Log>, c: Outcome<Log>, mine: set<string>, added: set<string>)
  {
    (a == b && a == c && Clean(w, a.world, mine, added)) || Parted(w, b.world, c.world, mine, added)
  }

  lemma {:induction false} EvalParts(
    script: Script, e: Expr, sub: map<string, Expr>, own: Frame, g: Frame, inner: Frame,
    mine: set<string>, added: set<string>, names: set<string>, w: Log)
    requires Placed(sub, own, g, inner, mine, added, names) && Names(e) <= names
    ensures var it := Tracing(script);
      SameOrParted(w, Eval(it, e, own, w), Eval(it, Subst(e, sub), g, w), Eval(it, e, inner, w), mine, added)
    decreases e, 1
  {
    hide Parted, Clean, Placed;
    match e {
      case Var(_) => VarParts(script, e, sub, own, g, inner, mine, added, names, w);
      case Lit(_) => CleanItself(w, mine, added);
      case Op(_, args) =>
        EvalAllParts(script, args, sub, own, g, inner, mine, added, names, w);
        OpParts(script, w, e, sub, own, g, inner, mine, added);
      case Paren(i) => EvalParts(script, i, sub, own, g, inner, mine, added, names, w);
      case Not(o) =>
        EvalParts(script, o, sub, own, g, inner, mine, added, names, w);
        NotParts(script, e, sub, own, g, inner, mine, added, w);
      case _ => SidesPart(script, e, sub, own, g, inner, mine, added, names, w);
    }
  }

  lemma CleanItself(w: Log, mine: set<string>, added: set<string>)
    ensures Clean(w, w, mine, added)
  {
  }

  lemma VarParts(
    script: Script, e: Expr, sub: map<string, Expr>, own: Frame, g: Frame, inner: Frame,
    mine: set<string>, added: set<string>, names: set<string>, w: Log)
    requires e.Var? && Placed(sub, own, g, inner, mine, added, names) && Names(e) <= names
    ensures var it := Tracing(script);
      SameOrParted(w, Eval(it, e, own, w), Eval(it, Subst(e, sub), g, w), Eval(it, e, inner, w), mine, added)
  {
    var x := e.name;
    assert x in names;
    if x in own {
      CleanItself(w, mine, added);
      if x in sub {
        assert Subst(e, sub) == sub[x];
      }
    } else {
      assert Subst(e, sub) == e;
      NameParts(script, x, own, g, inner, mine, added, w);
    }
  }

  lemma ReadOutside(script: Script, x: string, f: Frame, w: Log)
    requires x !in f
    ensures Eval(Tracing(script), Var(x), f, w) == Ret(script(w.answers), Log(w.answers + 1, w.seen + [x]))
  {
  }

  /** A name that the guards on their own take from outside. */
  lemma NameParts(
    script: Script, x: string, own: Frame, g: Frame, inner: Frame, mine: set<string>, added: set<string>, w: Log)
    requires x !in own
    requires if x in mine then x !in g else x !in inner && (x in g ==> x in added)
    ensures var it := Tracing(script);
      SameOrParted(w, Eval(it, Var(x), own, w), Eval(it, Var(x), g, w), Eval(it, Var(x), inner, w), mine, added)
  {
    hide Eval, Tracing, Times;
    TimesSnoc(w.seen, x, mine);
    TimesSnoc(w.seen, x, added);
    TimesSnoc(w.seen, x, mine + added);
    ReadOutside(script, x, own, w);
    if x !in g {
      ReadOutside(script, x, g, w);
    }
    if x !in inner {
      ReadOutside(script, x, inner, w);
    }
  }

  lemma NotParts(
    script: Script, e: Expr, sub: map<string, Expr>, own: Frame, g: Frame, inner: Frame,
    mine: set<string>, added: set<string>, w: Log)
    requires e.Not?
    requires var it := Tracing(script);
      SameOrParted(
        w, Eval(it, e.operand, own, w), Eval(it, Subst(e.operand, sub), g, w), Eval(it, e.operand, inner, w), mine, added)
    ensures var it := Tracing(script);
      SameOrParted(w, Eval(it, e, own, w), Eval(it, Subst(e, sub), g, w), Eval(it, e, inner, w), mine, added)
  {
    hide Parted, Clean, Truthy;
  }

  predicate TwoSided(e: Expr) {
    e.And? || e.Or? || e.Cmp?
  }

  /** What a two-sided condition does, given what its sides do. */
  function Join(e: Expr, o: Outcome<Log>, p: Outcome<Log>): Outcome<Log>
    requires TwoSided(e)
  {
    match e
    case And(_, _) => if o.Ret? && Truthy(o.value) then p else o
    case Or(_, _) => if o.Ret? && !Truthy(o.value) then p else o
    case Cmp(op, _, _) =>
      if o.Throw? then o else if p.Throw? then p else Ret(Bool(Compare(op, o.value, p.value)), p.world)
  }

  lemma EvalJoins(it: Interp<Log>, e: Expr, sub: map<string, Expr>, f: Frame, w: Log)
    requires TwoSided(e)
    ensures var s := Subst(e, sub);
      TwoSided(s) && s.left == Subst(e.left, sub) && s.right == Subst(e.right, sub) &&
      var o := Eval(it, s.left, f, w);
      Eval(it, s, f, w) == Join(e, o, Eval(it, s.right, f, o.world))
  {
    hide Compare;
  }

  lemma JoinParts(
    e: Expr, w: Log, a: Outcome<Log>, b: Outcome<Log>, c: Outcome<Log>, a2: Outcome<Log>, b2: Outcome<Log>,
    c2: Outcome<Log>, mine: set<string>, added: set<string>)
    requires TwoSided(e) && SameOrParted(w, a, b, c, mine, added)
    requires a == b && a == c ==> SameOrParted(a.world, a2, b2, c2, mine, added)
    requires w.seen <= a.world.seen && b.world.seen <= b2.world.seen && c.world.seen <= c2.world.seen
    ensures SameOrParted(w, Join(e, a, a2), Join(e, b, b2), Join(e, c, c2), mine, added)
  {
    hide Parted, Compare;
    var b', c' := Join(e, b, b2), Join(e, c, c2);
    if Parted(w, b.world, c.world, mine, added) {
      PartedStays(w, w, b.world, c.world, b'.world, c'.world, mine, added);
    } else if Parted(a.world, b2.world, c2.world, mine, added) {
      PartedStays(w, a.world, b2.world, c2.world, b2.world, c2.world, mine, added);
    }
  }

  lemma EvalGrows(script: Script, e: Expr, f: Frame, w: Log)
    ensures w.seen <= Eval(Tracing(script), e, f, w).world.seen
  {
    EvalSees(script, e, f, w);
  }

  lemma {:induction false} SidesPart(
    script: Script, e: Expr, sub: map<string, Expr>, own: Frame, g: Frame, inner: Frame,
    mine: set<string>, added: set<string>, names: set<string>, w: Log)
    requires TwoSided(e) && Placed(sub, own, g, inner, mine, added, names) && Names(e) <= names
    ensures var it := Tracing(script);
      SameOrParted(w, Eval(it, e, own, w), Eval(it, Subst(e, sub), g, w), Eval(it, e, inner, w), mine, added)
    decreases e, 0
  {
    hide Eval, Subst, Placed, SameOrParted, Join, Sees, Tracing;
    var it, l, r := Tracing(script), e.left, e.right;
    var a, b, c := Eval(it, l, own, w), Eval(it, Subst(l, sub), g, w), Eval(it, l, inner, w);
    EvalParts(script, l, sub, own, g, inner, mine, added, names, w);
    EvalParts(script, r, sub, own, g, inner, mine, added, names, a.world);
    EvalGrows(script, l, own, w);
    EvalGrows(script, Subst(r, sub), g, b.world);
    EvalGrows(script, r, inner, c.world);
    EvalJoins(it, e, sub, g, w);
    EvalJoins(it, e, NO_SUB, own, w);
    EvalJoins(it, e, NO_SUB, inner, w);
    SubstNothing(e);
    SubstNothing(l);
    SubstNothing(r);
    JoinParts(
      e, w, a, b, c, Eval(it, r, own, a.world), Eval(it, Subst(r, sub), g, b.world), Eval(it, r, inner, c.world),
      mine, added);
  }

  ghost predicate SameOrPartedAll(
    w: Log, a: ListOutcome<Log>, b: ListOutcome<Log>, c: ListOutcome<Log>, mine: set<string>, added: set<string>)
  {
    (a == b && a == c && Clean(w, a.world, mine, added)) || Parted(w, b.world, c.world, mine, added)
  }

  lemma OpParts(
    script: Script, w: Log, e: Expr, sub: map<string, Expr>, own: Frame, g: Frame, inner: Frame,
    mine: set<string>, added: set<string>)
    requires e.Op?
    requires var it := Tracing(script);
      SameOrPartedAll(w, EvalAll(it, e.args, own, w), EvalAll(it, SubstAll(e.args, sub), g, w), EvalAll(it, e.args, inner, w), mine, added)
    ensures var it := Tracing(script);
      SameOrParted(w, Eval(it, e, own, w), Eval(it, Subst(e, sub), g, w), Eval(it, e, inner, w), mine, added)
  {
  }

  lemma {:induction false} EvalAllParts(
    script: Script, es: seq<Expr>, sub: map<string, Expr>, own: Frame, g: Frame, inner: Frame,
    mine: set<string>, added: set<string>, names: set<string>, w: Log)
    requires Placed(sub, own, g, inner, mine, added, names) && NamesAll(es) <= names
    ensures var it := Tracing(script);
      SameOrPartedAll(w, EvalAll(it, es, own, w), EvalAll(it, SubstAll(es, sub), g, w), EvalAll(it, es, inner, w), mine, added)
    decreases es
  {
    if es != [] {
      var it := Tracing(script);
      var a, b, c := Eval(it, es[0], own, w), Eval(it, Subst(es[0], sub), g, w), Eval(it, es[0], inner, w);
      hide Parted, Clean, Placed, Sees;
      EvalParts(script, es[0], sub, own, g, inner, mine, added, names, w);
      assert SubstAll(es, sub)[0] == Subst(es[0], sub) && SubstAll(es, sub)[1..] == SubstAll(es[1..], sub);
      EvalAllParts(script, es[1..], sub, own, g, inner, mine, added, names, a.world);
      ListParts(script, es, sub, own, g, inner, mine, added, w);
    }
  }

  lemma ListParts(
    script: Script, es: seq<Expr>, sub: map<string, Expr>, own: Frame, g: Frame, inner: Frame,
    mine: set<string>, added: set<string>, w: Log)
    requires es != []
    requires var it := Tracing(script);
      var m, rest := Eval(it, es[0], own, w).world, es[1..];
      SameOrParted(w, Eval(it, es[0], own, w), Eval(it, Subst(es[0], sub), g, w), Eval(it, es[0], inner, w), mine, added) &&
      SameOrPartedAll(m, EvalAll(it, rest, own, m), EvalAll(it, SubstAll(rest, sub), g, m), EvalAll(it, rest, inner, m), mine, added)
    ensures var it := Tracing(script);
      SameOrPartedAll(w, EvalAll(it, es, own, w), EvalAll(it, SubstAll(es, sub), g, w), EvalAll(it, es, inner, w), mine, added)
  {
    var it := Tracing(script);
    var a, b, c := Eval(it, es[0], own, w), Eval(it, Subst(es[0], sub), g, w), Eval(it, es[0], inner, w);
    assert SubstAll(es, sub)[0] == Subst(es[0], sub) && SubstAll(es, sub)[1..] == SubstAll(es[1..], sub);
    EvalSees(script, es[0], own, w);
    EvalAllSees(script, SubstAll(es[1..], sub), g, b.world);
    EvalAllSees(script, es[1..], inner, c.world);
    var b', c' := EvalAll(it, SubstAll(es, sub), g, w), EvalAll(it, es, inner, w);
    if Parted(w, b.world, c.world, mine, added) {
      PartedStays(w, w, b.world, c.world, b'.world, c'.world, mine, added);
    } else {
      var m := a.world;
      var y, z := EvalAll(it, SubstAll(es[1..], sub), g, m).world, EvalAll(it, es[1..], inner, m).world;
      if Parted(m, y, z, mine, added) {
        PartedStays(w, m, y, z, y, z, mine, added);
      }
    }
  }

  /** Where the guards have got to, given what the first one did and where the others end. */
  function Onward(o: Outcome<Log>, rest: Log): Log {
    if o.Ret? && !Truthy(o.value) then rest else o.world
  }

  lemma GuardStep(it: Interp<Log>, guards: seq<Expr>, sub: map<string, Expr>, f: Frame, w: Log)
    requires guards != []
    ensures var o := Eval(it, Subst(guards[0], sub), f, w);
      RunGuards(it, SubstAll(guards, sub), f, w).world ==
      Onward(o, RunGuards(it, SubstAll(guards[1..], sub), f, o.world).world)
  {
    assert SubstAll(guards, sub)[0] == Subst(guards[0], sub) && SubstAll(guards, sub)[1..] == SubstAll(guards[1..], sub);
  }

  /** The guards on their own see none of those names, or the two runs that count part. */
  ghost predicate CleanOrParted(w: Log, a: Log, b: Log, c: Log, mine: set<string>, added: set<string>) {
    Clean(w, a, mine, added) || Parted(w, b, c, mine, added)
  }

  lemma OnwardParts(
    w: Log, a: Outcome<Log>, b: Outcome<Log>, c: Outcome<Log>, x: Log, y: Log, z: Log, mine: set<string>, added: set<string>)
    requires SameOrParted(w, a, b, c, mine, added)
    requires a == b && a == c ==> CleanOrParted(a.world, x, y, z, mine, added)
    requires w.seen <= a.world.seen && b.world.seen <= y.seen && c.world.seen <= z.seen
    ensures CleanOrParted(w, Onward(a, x), Onward(b, y), Onward(c, z), mine, added)
  {
    hide Parted, Truthy;
    if Parted(w, b.world, c.world, mine, added) {
      PartedStays(w, w, b.world, c.world, Onward(b, y), Onward(c, z), mine, added);
    } else if Parted(a.world, y, z, mine, added) {
      PartedStays(w, a.world, y, z, y, z, mine, added);
    }
  }

  lemma GuardsGrow(script: Script, guards: seq<Expr>, f: Frame, w: Log)
    ensures w.seen <= RunGuards(Tracing(script), guards, f, w).world.seen
  {
    GuardsSee(script, guards, f, w);
  }

  /** The guards in sequence. */
  lemma {:induction false} GuardsPart(
    script: Script, guards: seq<Expr>, sub: map<string, Expr>, own: Frame, g: Frame, inner: Frame,
    mine: set<string>, added: set<string>, names: set<string>, w: Log)
    requires Placed(sub, own, g, inner, mine, added, names) && NamesAll(guards) <= names
    ensures var it := Tracing(script);
      CleanOrParted(
        w, RunGuards(it, guards, own, w).world, RunGuards(it, SubstAll(guards, sub), g, w).world,
        RunGuards(it, guards, inner, w).world, mine, added)
    decreases |guards|
  {
    var it := Tracing(script);
    hide Placed, Parted, Sees, Tracing;
    if guards == [] {
      CleanItself(w, mine, added);
    } else {
      hide Clean, CleanOrParted, SameOrParted, Eval, RunGuards, Onward, Subst, SubstAll;
      var rest := guards[1..];
      var a, b, c := Eval(it, guards[0], own, w), Eval(it, Subst(guards[0], sub), g, w), Eval(it, guards[0], inner, w);
      EvalParts(script, guards[0], sub, own, g, inner, mine, added, names, w);
      GuardsPart(script, rest, sub, own, g, inner, mine, added, names, a.world);
      EvalGrows(script, guards[0], own, w);
      GuardsGrow(script, SubstAll(rest, sub), g, b.world);
      GuardsGrow(script, rest, inner, c.world);
      GuardStep(it, guards, sub, g, w);
      GuardStep(it, guards, NO_SUB, own, w);
      GuardStep(it, guards, NO_SUB, inner, w);
      SubstNothingAll(guards);
      SubstNothingAll(rest);
      SubstNothing(guards[0]);
      OnwardParts(
        w, a, b, c, RunGuards(it, rest, own, a.world).world, RunGuards(it, SubstAll(rest, sub), g, b.world).world,
        RunGuards(it, rest, inner, c.world).world, mine, added);
    }
  }
}
