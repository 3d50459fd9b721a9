/** Statements of helper bodies and of their replacements: execution, names and substitution. */
module InlineStmts {
  import opened Prelude
  import opened InlineSyntax
  import opened InlineEval

  /** `Local` declares a block-scoped binding; `Set` assigns to a binding or an outer variable. */
  datatype Stmt =
    | Do(e: Expr)
    | Local(x: string, e: Expr)
    | Set(x: string, e: Expr)
    | Branch(c: Expr, thn: seq<Stmt>, els: seq<Stmt>)

  datatype Completion<+W> = Finished(frame: Frame, world: W) | Failed(world: W)

  function Locals(b: seq<Stmt>): set<string> {
    set i | 0 <= i < |b| && b[i].Local? :: b[i].x
  }

  /** Entering a block: its declarations exist at once but are unusable until they run. */
  function Enter(f: Frame, names: set<string>): Frame {
    f + map x | x in names :: None
  }

  /** Leaving a block: its declarations disappear, assignments to outer bindings stay. */
  function Leave(outer: Frame, inner: Frame, names: set<string>): Frame {
    map x | x in outer :: LeftAt(outer, inner, names, x)
  }

  function LeftAt(outer: Frame, inner: Frame, names: set<string>, x: string): Option<Value> {
    if x !in outer then None else if x in names || x !in inner then outer[x] else inner[x]
  }

  function Exec<W>(it: Interp<W>, s: Stmt, f: Frame, w: W): Completion<W>
    decreases s
  {
    match s
    case Do(e) =>
      var o := Eval(it, e, f, w);
      if o.Throw? then Failed(o.world) else Finished(f, o.world)
    case Local(x, e) =>
      var o := Eval(it, e, f, w);
      if o.Throw? then Failed(o.world) else Finished(f[x := Some(o.value)], o.world)
    case Set(x, e) =>
      var o := Eval(it, e, f, w);
      if o.Throw? then Failed(o.world)
      else if x in f then (if f[x].None? then Failed(o.world) else Finished(f[x := Some(o.value)], o.world))
      else
        var p := it.write(x, o.value, o.world);
        if p.Throw? then Failed(p.world) else Finished(f, p.world)
    case Branch(c, thn, els) =>
      var o := Eval(it, c, f, w);
      if o.Throw? then Failed(o.world)
      else if Truthy(o.value) then ExecBlock(it, thn, f, o.world) else ExecBlock(it, els, f, o.world)
  }

  function ExecBlock<W>(it: Interp<W>, b: seq<Stmt>, f: Frame, w: W): Completion<W>
    decreases b, 1
  {
    var r := ExecAll(it, b, Enter(f, Locals(b)), w);
    if r.Failed? then r else Finished(Leave(f, r.frame, Locals(b)), r.world)
  }

  function ExecAll<W>(it: Interp<W>, b: seq<Stmt>, f: Frame, w: W): Completion<W>
    decreases b, 0
  {
    if b == [] then Finished(f, w)
    else
      var r := Exec(it, b[0], f, w);
      if r.Failed? then r else ExecAll(it, b[1..], r.frame, r.world)
  }

  lemma {:induction false} ExecAppend<W>(it: Interp<W>, b: seq<Stmt>, c: seq<Stmt>, f: Frame, w: W)
    ensures ExecAll(it, b + c, f, w) ==
      var r := ExecAll(it, b, f, w);
      if r.Failed? then r else ExecAll(it, c, r.frame, r.world)
    decreases |b|
  {
    if b == [] {
      assert b + c == c;
    } else {
      assert (b + c)[0] == b[0] && (b + c)[1..] == b[1..] + c;
      var r := Exec(it, b[0], f, w);
      if r.Finished? {
        ExecAppend(it, b[1..], c, r.frame, r.world);
      }
    }
  }

  // -------------------------------------------------------------------- names

  function Names(e: Expr): set<string> {
    match e
    case Var(x) => {x}
    case Lit(_) => {}
    case Op(_, args) => NamesAll(args)
    case Paren(i) => Names(i)
    case Not(o) => Names(o)
    case And(l, r) => Names(l) + Names(r)
    case Or(l, r) => Names(l) + Names(r)
    case Cmp(_, l, r) => Names(l) + Names(r)
  }

  function NamesAll(es: seq<Expr>): set<string> {
    if es == [] then {} else Names(es[0]) + NamesAll(es[1..])
  }

  /** Names declared in nested blocks, at any depth. */
  function StmtInner(s: Stmt): set<string> {
    match s
    case Branch(_, thn, els) => Locals(thn) + InnerLocals(thn) + Locals(els) + InnerLocals(els)
    case _ => {}
  }

  function InnerLocals(b: seq<Stmt>): set<string> {
    if b == [] then {} else StmtInner(b[0]) + InnerLocals(b[1..])
  }

  /** Identifiers that refer to a binding outside any nested block. */
  function StmtFree(s: Stmt): set<string> {
    match s
    case Do(e) => Names(e)
    case Local(x, e) => {x} + Names(e)
    case Set(x, e) => {x} + Names(e)
    case Branch(c, thn, els) => Names(c) + (BlockFree(thn) - Locals(thn)) + (BlockFree(els) - Locals(els))
  }

  function BlockFree(b: seq<Stmt>): set<string> {
    if b == [] then {} else StmtFree(b[0]) + BlockFree(b[1..])
  }

  lemma {:induction false} LocalsAreNames(b: seq<Stmt>)
    ensures Locals(b) <= BlockFree(b)
    ensures b != [] ==> Locals(b) == (if b[0].Local? then {b[0].x} else {}) + Locals(b[1..])
  {
    if b != [] {
      LocalsAreNames(b[1..]);
      assert forall i :: 1 <= i < |b| ==> b[i] == b[1..][i - 1];
      forall x
        ensures x in Locals(b) <==> x in (if b[0].Local? then {b[0].x} else {}) + Locals(b[1..])
      {
        if x in Locals(b[1..]) {
          var i :| 0 <= i < |b| - 1 && b[1..][i].Local? && b[1..][i].x == x;
          assert b[i + 1].Local? && b[i + 1].x == x;
        }
        if b[0].Local? && b[0].x == x {
          assert x in Locals(b);
        }
      }
    }
  }

  /** No assignment to the given names, unless to a nested declaration that shadows them. */
  predicate WritesNone(b: seq<Stmt>, names: set<string>) {
    if b == [] then true
    else
      && WritesNone(b[1..], names)
      && match b[0]
         case Set(x, _) => x !in names
         case Branch(_, thn, els) => WritesNone(thn, names - Locals(thn)) && WritesNone(els, names - Locals(els))
         case _ => true
  }

  // ------------------------------------------------------------- substitution

  /** The name a binding carries after substitution. */
  function Renamed(x: string, sub: map<string, Expr>): string {
    if x in sub && sub[x].Var? then sub[x].name else x
  }

  /** References are substituted by binding: a nested declaration hides the outer name. */
  function SubstStmt(s: Stmt, sub: map<string, Expr>): Stmt {
    match s
    case Do(e) => Do(Subst(e, sub))
    case Local(x, e) => Local(Renamed(x, sub), Subst(e, sub))
    case Set(x, e) => Set(Renamed(x, sub), Subst(e, sub))
    case Branch(c, thn, els) =>
      Branch(Subst(c, sub), SubstBlock(thn, sub - Locals(thn)), SubstBlock(els, sub - Locals(els)))
  }

  function SubstBlock(b: seq<Stmt>, sub: map<string, Expr>): seq<Stmt> {
    if b == [] then [] else [SubstStmt(b[0], sub)] + SubstBlock(b[1..], sub)
  }

  lemma {:induction false} SubstBlockLocals(b: seq<Stmt>, sub: map<string, Expr>)
    ensures Locals(SubstBlock(b, sub)) == set x | x in Locals(b) :: Renamed(x, sub)
  {
    LocalsAreNames(b);
    LocalsAreNames(SubstBlock(b, sub));
    if b != [] {
      SubstBlockLocals(b[1..], sub);
      assert SubstBlock(b, sub)[1..] == SubstBlock(b[1..], sub);
    }
  }

  lemma SubstBlockKeepsLocals(b: seq<Stmt>, sub: map<string, Expr>)
    requires Locals(b) !! sub.Keys
    ensures Locals(SubstBlock(b, sub)) == Locals(b)
  {
    SubstBlockLocals(b, sub);
    assert forall x :: x in Locals(b) ==> Renamed(x, sub) == x;
  }

  // ------------------------------------------------------------ what is touched

  /** Names of the enclosing frame that execution may bind or assign. */
  function Written(s: Stmt): set<string> {
    match s
    case Do(_) => {}
    case Local(x, _) => {x}
    case Set(x, _) => {x}
    case Branch(_, thn, els) => (WrittenAll(thn) - Locals(thn)) + (WrittenAll(els) - Locals(els))
  }

  function WrittenAll(b: seq<Stmt>): set<string> {
    if b == [] then {} else Written(b[0]) + WrittenAll(b[1..])
  }

  ghost predicate SameAt(f: Frame, g: Frame, y: string) {
    (y in f <==> y in g) && (y in f ==> f[y] == g[y])
  }

  lemma {:induction false} ExecUntouched<W>(it: Interp<W>, s: Stmt, f: Frame, w: W, y: string)
    requires y !in Written(s)
    ensures var r := Exec(it, s, f, w); r.Finished? ==> SameAt(f, r.frame, y)
    decreases s
  {
    match s {
      case Branch(c, thn, els) =>
        var o := Eval(it, c, f, w);
        if o.Ret? {
          ExecBlockUntouched(it, if Truthy(o.value) then thn else els, f, o.world, y);
        }
      case _ =>
    }
  }

  lemma {:induction false} ExecBlockUntouched<W>(it: Interp<W>, b: seq<Stmt>, f: Frame, w: W, y: string)
    requires y !in WrittenAll(b) - Locals(b)
    ensures var r := ExecBlock(it, b, f, w); r.Finished? ==> SameAt(f, r.frame, y)
    decreases b, 1
  {
    if y !in Locals(b) {
      ExecAllUntouched(it, b, Enter(f, Locals(b)), w, y);
    }
  }

  lemma {:induction false} ExecAllUntouched<W>(it: Interp<W>, b: seq<Stmt>, f: Frame, w: W, y: string)
    requires y !in WrittenAll(b)
    ensures var r := ExecAll(it, b, f, w); r.Finished? ==> SameAt(f, r.frame, y)
    decreases b, 0
  {
    if b != [] {
      ExecUntouched(it, b[0], f, w, y);
      var r := Exec(it, b[0], f, w);
      if r.Finished? {
        ExecAllUntouched(it, b[1..], r.frame, r.world, y);
      }
    }
  }

  /** Substituted code writes only what the names of the original are renamed to. */
  lemma {:induction false} SubstWrites(s: Stmt, sub: map<string, Expr>, y: string) returns (x: string)
    requires y in Written(SubstStmt(s, sub))
    ensures x in Written(s) && Renamed(x, sub) == y
    decreases s
  {
    match s {
      case Branch(c, thn, els) =>
        var b := if y in WrittenAll(SubstBlock(thn, sub - Locals(thn))) - Locals(SubstBlock(thn, sub - Locals(thn)))
                 then thn else els;
        SubstBlockKeepsLocals(b, sub - Locals(b));
        x := SubstWritesAll(b, sub - Locals(b), y);
      case Local(z, _) => x := z;
      case Set(z, _) => x := z;
    }
  }

  lemma {:induction false} SubstWritesAll(b: seq<Stmt>, sub: map<string, Expr>, y: string) returns (x: string)
    requires y in WrittenAll(SubstBlock(b, sub))
    ensures x in WrittenAll(b) && Renamed(x, sub) == y
    decreases b
  {
    if y in Written(SubstStmt(b[0], sub)) {
      x := SubstWrites(b[0], sub, y);
    } else {
      assert SubstBlock(b, sub)[1..] == SubstBlock(b[1..], sub);
      x := SubstWritesAll(b[1..], sub, y);
    }
  }

  lemma {:induction false} WrittenAreFree(b: seq<Stmt>)
    ensures WrittenAll(b) <= BlockFree(b)
    decreases b
  {
    if b != [] {
      WrittenAreFree(b[1..]);
      if b[0].Branch? {
        WrittenAreFree(b[0].thn);
        WrittenAreFree(b[0].els);
      }
    }
  }

  /** The rule that a helper never writes its parameters means what it says. */
  lemma {:induction false} FixedUnwritten(b: seq<Stmt>, fixed: set<string>)
    requires WritesNone(b, fixed) && Locals(b) !! fixed
    ensures WrittenAll(b) !! fixed
    decreases b
  {
    if b != [] {
      LocalsAreNames(b);
      FixedUnwritten(b[1..], fixed);
      if b[0].Branch? {
        FixedUnwritten(b[0].thn, fixed - Locals(b[0].thn));
        FixedUnwritten(b[0].els, fixed - Locals(b[0].els));
      }
    }
  }
}
