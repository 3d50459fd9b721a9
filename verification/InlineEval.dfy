/**
 Evaluation of expressions with effects. The world carries everything an
 operation may read, change or record, its effect trace included; `Frame`
 holds the `const`/`let` bindings that no operation can reach.
*/
module InlineEval {
  import opened Prelude
  import opened InlineSyntax

  datatype Outcome<+W> = Ret(value: Value, world: W) | Throw(world: W)

  datatype ListOutcome<+W> = RetAll(values: seq<Value>, world: W) | ThrowAll(world: W)

  /** Reading, writing and every other operation may have effects and may throw. */
  datatype Interp<!W> = Interp(
    read: (string, W) -> Outcome<W>,
    write: (string, Value, W) -> Outcome<W>,
    apply: (string, seq<Value>, W) -> Outcome<W>)

  /** `None` marks a binding whose declaration has not run yet: using it throws. */
  type Frame = map<string, Option<Value>>

  function Truthy(v: Value): bool {
    match v
    case Undefined => false
    case NotANumber => false
    case Num(n) => n != 0
    case Bool(b) => b
  }

  /** `None` stands for NaN. */
  function ToNumber(v: Value): Option<int> {
    match v
    case Undefined => None
    case NotANumber => None
    case Num(n) => Some(n)
    case Bool(b) => Some(if b then 1 else 0)
  }

  /** The abstract relational comparison: undefined as soon as an operand is not ordered. */
  function LessThan(v: Value, u: Value): Option<bool> {
    if ToNumber(v).Some? && ToNumber(u).Some? then Some(ToNumber(v).value < ToNumber(u).value) else None
  }

  function Same(v: Value, u: Value): bool {
    !v.NotANumber? && v == u
  }

  function LooselySame(v: Value, u: Value): bool {
    if v.Undefined? || u.Undefined? then v == u
    else ToNumber(v).Some? && ToNumber(v) == ToNumber(u)
  }

  function Compare(op: Comparator, v: Value, u: Value): bool {
    match op
    case StrictEq => Same(v, u)
    case StrictNe => !Same(v, u)
    case LooseEq => LooselySame(v, u)
    case LooseNe => !LooselySame(v, u)
    case Less => LessThan(v, u) == Some(true)
    case Greater => LessThan(u, v) == Some(true)
    case LessEq => LessThan(u, v) == Some(false)
    case GreaterEq => LessThan(v, u) == Some(false)
  }

  /** The values a condition takes for false. */
  lemma FalsyValues(v: Value)
    ensures !Truthy(v) <==> v in {Undefined, NotANumber, Num(0), Bool(false)}
  {
  }

  /** Numbers compare by size, and no comparison with NaN holds but inequality. */
  lemma NumbersCompare(op: Comparator, a: int, b: int)
    ensures Compare(op, Num(a), Num(b)) <==>
      match op
      case StrictEq => a == b
      case StrictNe => a != b
      case LooseEq => a == b
      case LooseNe => a != b
      case Less => a < b
      case Greater => a > b
      case LessEq => a <= b
      case GreaterEq => a >= b
    ensures Compare(op, NotANumber, Num(b)) <==> op.StrictNe? || op.LooseNe?
    ensures Compare(op, Num(a), NotANumber) <==> op.StrictNe? || op.LooseNe?
    ensures Compare(op, NotANumber, NotANumber) <==> op.StrictNe? || op.LooseNe?
  {
  }

  /** `true` counts as 1, but is not the same value; `undefined` equals itself only. */
  lemma OthersCompare(v: Value)
    ensures Compare(LooseEq, Bool(true), Num(1)) && Compare(LooseEq, Bool(false), Num(0)) && Compare(Less, Bool(false), Bool(true))
    ensures Compare(StrictEq, Bool(true), v) <==> v == Bool(true)
    ensures Compare(StrictEq, Undefined, v) <==> v == Undefined
    ensures Compare(LooseEq, Undefined, v) <==> v == Undefined
    ensures !Compare(Less, Undefined, v) && !Compare(LessEq, Undefined, v)
  {
  }

  function Eval<W>(it: Interp<W>, e: Expr, f: Frame, w: W): Outcome<W>
    decreases e
  {
    match e
    case Var(x) =>
      if x in f then (if f[x].Some? then Ret(f[x].value, w) else Throw(w)) else it.read(x, w)
    case Lit(v) => Ret(v, w)
    case Op(op, args) =>
      (match EvalAll(it, args, f, w)
       case RetAll(vs, w1) => it.apply(op, vs, w1)
       case ThrowAll(w1) => Throw(w1))
    case Paren(i) => Eval(it, i, f, w)
    case Not(o) =>
      (match Eval(it, o, f, w)
       case Ret(v, w1) => Ret(Bool(!Truthy(v)), w1)
       case Throw(w1) => Throw(w1))
    case And(l, r) =>
      var o := Eval(it, l, f, w);
      if o.Ret? && Truthy(o.value) then Eval(it, r, f, o.world) else o
    case Or(l, r) =>
      var o := Eval(it, l, f, w);
      if o.Ret? && !Truthy(o.value) then Eval(it, r, f, o.world) else o
    case Cmp(op, l, r) =>
      var o := Eval(it, l, f, w);
      if o.Throw? then o
      else
        var p := Eval(it, r, f, o.world);
        if p.Throw? then p else Ret(Bool(Compare(op, o.value, p.value)), p.world)
  }

  function EvalAll<W>(it: Interp<W>, es: seq<Expr>, f: Frame, w: W): ListOutcome<W>
    decreases es
  {
    if es == [] then RetAll([], w)
    else
      match Eval(it, es[0], f, w)
      case Throw(w1) => ThrowAll(w1)
      case Ret(v, w1) =>
        match EvalAll(it, es[1..], f, w1)
        case ThrowAll(w2) => ThrowAll(w2)
        case RetAll(vs, w2) => RetAll([v] + vs, w2)
  }

  /** The same effects and exceptions, and opposite truth values. */
  ghost predicate Complement<W(!new)>(o: Outcome<W>, p: Outcome<W>) {
    o.world == p.world && (o.Throw? <==> p.Throw?) && (o.Ret? ==> Truthy(o.value) != Truthy(p.value))
  }
}
