/**
 The depth-first cycle check that runs before any package is packed
 (`assertAcyclic` in scripts/ci-release-publish.ts).

 A dependency graph maps every known job name to the names it lists; names
 that are not keys are unknown and ignored.
*/
module DependencyCheck {
  import opened Prelude

  type Graph = map<string, seq<string>>

  predicate Edge(g: Graph, a: string, b: string) {
    a in g && b in g && b in g[a]
  }

  /** Every name in the chain depends on the next one. */
  ghost predicate IsWalk(g: Graph, w: seq<string>) {
    forall i :: 0 <= i < |w| - 1 ==> Edge(g, w[i], w[i + 1])
  }

  ghost predicate IsClosedWalk(g: Graph, w: seq<string>) {
    |w| >= 2 && IsWalk(g, w) && w[0] == Last(w)
  }

  ghost predicate Cyclic(g: Graph) {
    exists w :: IsClosedWalk(g, w)
  }

  /** What the thrown message lists: a dependency walk that ends at a name it already contains. */
  ghost predicate IsCycleReport(g: Graph, chain: seq<string>) {
    |chain| >= 2 && IsWalk(g, chain) && Last(chain) in chain[..|chain| - 1]
  }

  /** Every known dependency of a listed name is listed before it. */
  ghost predicate Topological(g: Graph, order: seq<string>) {
    forall i, d :: 0 <= i < |order| && Edge(g, order[i], d) ==> d in order[..i]
  }

  /** A topological rank exists. */
  ghost predicate Ranked(g: Graph) {
    exists order :: Topological(g, order) && NoDuplicates(order) && ToSet(order) == g.Keys
  }

  lemma {:induction false} WalkDescends(g: Graph, order: seq<string>, w: seq<string>, i: nat, j: nat)
    requires Topological(g, order) && NoDuplicates(order) && ToSet(order) == g.Keys
    requires IsWalk(g, w) && |w| >= 2 && i < |w|
    requires j < |order| && order[j] == w[0]
    ensures w[i] in order[..j + 1] && (i > 0 ==> w[i] in order[..j])
    decreases i
  {
    if i > 0 {
      WalkDescends(g, order, w, i - 1, j);
      var k :| 0 <= k < j + 1 && order[k] == w[i - 1];
      assert Edge(g, order[k], w[i]);
      assert w[i] in order[..k];
    }
  }

  /** A ranked graph has no cycle. */
  lemma RankedIsAcyclic(g: Graph)
    requires Ranked(g)
    ensures !Cyclic(g)
  {
    if Cyclic(g) {
      var w :| IsClosedWalk(g, w);
      var order :| Topological(g, order) && NoDuplicates(order) && ToSet(order) == g.Keys;
      assert Edge(g, w[0], w[1]);
      assert w[0] in ToSet(order);
      var j :| 0 <= j < |order| && order[j] == w[0];
      WalkDescends(g, order, w, |w| - 1, j);
      assert false;
    }
  }

  /** The reported chain really witnesses a cycle. */
  lemma ReportIsCycle(g: Graph, chain: seq<string>)
    requires IsCycleReport(g, chain)
    ensures Cyclic(g)
  {
    var k :| 0 <= k < |chain| - 1 && chain[k] == Last(chain);
    var w := chain[k..];
    forall i | 0 <= i < |w| - 1
      ensures Edge(g, w[i], w[i + 1])
    {
      assert Edge(g, chain[k + i], chain[k + i + 1]);
    }
    assert IsClosedWalk(g, w);
  }

  lemma ExtendWalk(g: Graph, w: seq<string>, n: string)
    requires IsWalk(g, w)
    requires w != [] ==> Edge(g, Last(w), n)
    ensures IsWalk(g, w + [n])
  {
    var v := w + [n];
    forall i | 0 <= i < |v| - 1
      ensures Edge(g, v[i], v[i + 1])
    {
      if i < |w| - 1 {
        assert v[i] == w[i] && v[i + 1] == w[i + 1];
      }
    }
  }

  lemma ExtendTopological(g: Graph, order: seq<string>, n: string)
    requires Topological(g, order)
    requires forall d :: Edge(g, n, d) ==> d in order
    ensures Topological(g, order + [n])
  {
    var o := order + [n];
    forall i, d | 0 <= i < |o| && Edge(g, o[i], d)
      ensures d in o[..i]
    {
      assert o[..i] == order[..i];
      assert i == |order| ==> order[..i] == order;
    }
  }

  datatype Mark = Visiting | Finished

  /** `chain` is the stack of names being visited; `order` lists the finished ones. */
  ghost predicate Consistent(g: Graph, state: map<string, Mark>, order: seq<string>, chain: seq<string>) {
    && state.Keys == ToSet(chain) + ToSet(order)
    && ToSet(chain) !! ToSet(order)
    && ToSet(order) <= g.Keys
    && (forall n :: n in state ==> (state[n] == Finished <==> n in order))
    && NoDuplicates(order)
    && Topological(g, order)
    && IsWalk(g, chain)
  }

  lemma OpenFrame(g: Graph, state: map<string, Mark>, order: seq<string>, chain: seq<string>, name: string)
    requires Consistent(g, state, order, chain) && (chain != [] ==> Edge(g, Last(chain), name))
    ensures IsWalk(g, chain + [name])
    ensures name !in state ==> Consistent(g, state[name := Visiting], order, chain + [name])
    ensures name in state && state[name] == Visiting ==> IsCycleReport(g, chain + [name])
  {
    var inner := chain + [name];
    ExtendWalk(g, chain, name);
    assert Last(inner) == name && inner[..|inner| - 1] == chain;
    assert ToSet(inner) == ToSet(chain) + {name};
  }

  lemma CloseFrame(g: Graph, state: map<string, Mark>, order: seq<string>, chain: seq<string>, name: string)
    requires Consistent(g, state, order, chain + [name]) && name in g && name !in chain
    requires forall d :: Edge(g, name, d) ==> d in order
    ensures Consistent(g, state[name := Finished], order + [name], chain)
  {
    var inner := chain + [name];
    assert name in ToSet(inner);
    AppendNoDuplicates(order, name);
    ExtendTopological(g, order, name);
    assert ToSet(order + [name]) == ToSet(order) + {name};
    assert ToSet(inner) == ToSet(chain) + {name};
    forall i | 0 <= i < |chain| - 1
      ensures Edge(g, chain[i], chain[i + 1])
    {
      assert inner[i] == chain[i] && inner[i + 1] == chain[i + 1];
    }
  }

  /** The traversal: `state` is the map the nested `visit` closure updates. */
  class CycleCheck {
    const g: Graph
    var state: map<string, Mark>
    ghost var order: seq<string>

    ghost predicate Valid(chain: seq<string>)
      reads this
    {
      Consistent(g, state, order, chain)
    }

    constructor (graph: Graph)
      ensures g == graph && Valid([]) && order == []
    {
      g := graph;
      state := map[];
      order := [];
    }

    /** `None` is a normal return, `Some(chain)` the thrown chain. */
    method Visit(name: string, chain: seq<string>) returns (cycle: Option<seq<string>>)
      requires name in g && Valid(chain)
      requires chain != [] ==> Edge(g, Last(chain), name)
      modifies this
      ensures cycle.None? ==>
        Valid(chain) && name in order && old(order) <= order && old(state.Keys) <= state.Keys
      ensures cycle.Some? ==> IsCycleReport(g, cycle.value)
      decreases g.Keys - state.Keys
    {
      OpenFrame(g, state, order, chain, name);
      if name in state && state[name] == Finished {
        return None;
      }
      var inner := chain + [name];
      if name in state {
        return Some(inner);
      }
      assert name !in chain;
      hide Consistent, IsCycleReport, IsWalk;
      state := state[name := Visiting];
      var deps := g[name];
      for i := 0 to |deps|
        invariant Valid(inner) && old(order) <= order
        invariant old(state.Keys) + {name} <= state.Keys
        invariant forall k :: 0 <= k < i && deps[k] in g ==> deps[k] in order
      {
        if deps[i] in g {
          assert Edge(g, Last(inner), deps[i]);
          ghost var earlier := order;
          var r := Visit(deps[i], inner);
          if r.Some? {
            return r;
          }
          assert forall n :: n in earlier ==> n in order;
        }
      }
      CloseFrame(g, state, order, chain, name);
      state := state[name := Finished];
      order := order + [name];
      cycle := None;
    }
  }

  /**
   Normal return exactly when the known dependency relation has no cycle, and
   then a topological rank exists; otherwise the chain that is thrown.
  */
  method AssertAcyclic(names: seq<string>, g: Graph) returns (cycle: Option<seq<string>>)
    requires ToSet(names) == g.Keys
    ensures cycle.None? <==> !Cyclic(g)
    ensures cycle.None? ==> Ranked(g)
    ensures cycle.Some? ==> IsCycleReport(g, cycle.value)
  {
    var check := new CycleCheck(g);
    for i := 0 to |names|
      invariant check.Valid([]) && check.g == g
      invariant forall k :: 0 <= k < i ==> names[k] in check.order
    {
      assert names[i] in ToSet(names);
      ghost var before := check.order;
      var r := check.Visit(names[i], []);
      if r.Some? {
        ReportIsCycle(g, r.value);
        return r;
      }
      assert forall n :: n in before ==> n in check.order;
    }
    assert ToSet(check.order) == g.Keys by {
      forall n | n in g.Keys ensures n in check.order {
        assert n in ToSet(names);
      }
    }
    RankedIsAcyclic(g);
    cycle := None;
  }
}
