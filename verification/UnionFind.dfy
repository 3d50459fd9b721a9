/** Union-find with path compression, and the equivalence closure it computes. */
module UnionFind {
  import opened Prelude

  // ---------------------------------------------------------------- closures

  predicate Linked(edges: set<(int, int)>, u: int, v: int) {
    (u, v) in edges || (v, u) in edges
  }

  predicate IsWalk(edges: set<(int, int)>, walk: seq<int>) {
    walk != [] && forall i :: 0 <= i < |walk| - 1 ==> Linked(edges, walk[i], walk[i + 1])
  }

  ghost predicate Connects(edges: set<(int, int)>, walk: seq<int>, x: int, y: int) {
    IsWalk(edges, walk) && walk[0] == x && Last(walk) == y
  }

  /** The least equivalence that relates the ends of every edge. */
  ghost predicate Connected(edges: set<(int, int)>, x: int, y: int) {
    exists walk :: Connects(edges, walk, x, y)
  }

  lemma ConnectedRefl(edges: set<(int, int)>, x: int)
    ensures Connected(edges, x, x)
  {
    assert Connects(edges, [x], x, x);
  }

  lemma ConnectedEdge(edges: set<(int, int)>, x: int, y: int)
    requires Linked(edges, x, y)
    ensures Connected(edges, x, y)
  {
    assert Connects(edges, [x, y], x, y);
  }

  lemma ConnectedTrans(edges: set<(int, int)>, x: int, y: int, z: int)
    requires Connected(edges, x, y) && Connected(edges, y, z)
    ensures Connected(edges, x, z)
  {
    var p :| Connects(edges, p, x, y);
    var q :| Connects(edges, q, y, z);
    var walk := p + q[1..];
    forall i | 0 <= i < |walk| - 1
      ensures Linked(edges, walk[i], walk[i + 1])
    {
      if i >= |p| - 1 {
        assert walk[i] == q[i - |p| + 1] && walk[i + 1] == q[i - |p| + 2];
      }
    }
    assert Connects(edges, walk, x, z);
  }

  lemma {:induction false} WalkReversed(edges: set<(int, int)>, walk: seq<int>)
    requires IsWalk(edges, walk)
    ensures Connected(edges, Last(walk), walk[0])
    decreases |walk|
  {
    if |walk| == 1 {
      ConnectedRefl(edges, walk[0]);
    } else {
      var rest := walk[1..];
      WalkReversed(edges, rest);
      ConnectedEdge(edges, walk[1], walk[0]);
      ConnectedTrans(edges, Last(walk), walk[1], walk[0]);
    }
  }

  lemma ConnectedSym(edges: set<(int, int)>, x: int, y: int)
    requires Connected(edges, x, y)
    ensures Connected(edges, y, x)
  {
    var p :| Connects(edges, p, x, y);
    WalkReversed(edges, p);
  }

  /** If every edge of one set is a connection of another, so is every connection. */
  lemma {:induction false} WalkCoarser(fine: set<(int, int)>, coarse: set<(int, int)>, walk: seq<int>)
    requires IsWalk(fine, walk) && forall e :: e in fine ==> Connected(coarse, e.0, e.1)
    ensures Connected(coarse, walk[0], Last(walk))
    decreases |walk|
  {
    if |walk| == 1 {
      ConnectedRefl(coarse, walk[0]);
    } else {
      WalkCoarser(fine, coarse, walk[1..]);
      if (walk[0], walk[1]) !in fine {
        assert (walk[1], walk[0]) in fine by { assert Linked(fine, walk[0], walk[1]); }
        ConnectedSym(coarse, walk[1], walk[0]);
      }
      ConnectedTrans(coarse, walk[0], walk[1], Last(walk));
    }
  }

  lemma ConnectedCoarser(fine: set<(int, int)>, coarse: set<(int, int)>, x: int, y: int)
    requires Connected(fine, x, y) && forall e :: e in fine ==> Connected(coarse, e.0, e.1)
    ensures Connected(coarse, x, y)
  {
    var p :| Connects(fine, p, x, y);
    WalkCoarser(fine, coarse, p);
  }

  lemma ConnectedGrows(edges: set<(int, int)>, more: set<(int, int)>, x: int, y: int)
    requires Connected(edges, x, y) && edges <= more
    ensures Connected(more, x, y)
  {
    var p :| Connects(edges, p, x, y);
    assert Connects(more, p, x, y);
  }

  // ---------------------------------------------------------------- the forest

  function ParentOf(parent: map<int, int>, x: int): int {
    if x in parent then parent[x] else x
  }

  /** Parents lead strictly down to the root of their tree. */
  ghost predicate Leads(parent: map<int, int>, root: int -> int, depth: int -> int, x: int) {
    var p := ParentOf(parent, x);
    root(p) == root(x) && root(root(x)) == root(x) && (p == x <==> root(x) == x) && depth(x) >= 0 &&
    (p != x ==> depth(p) < depth(x))
  }

  ghost predicate Forest(parent: map<int, int>, root: int -> int, depth: int -> int) {
    forall x: int :: Leads(parent, root, depth, x)
  }

  ghost predicate Respects(root: int -> int, edges: set<(int, int)>) {
    forall e :: e in edges ==> root(e.0) == root(e.1)
  }

  /** Equal roots are exactly the connections made so far. */
  ghost predicate Classes(root: int -> int, edges: set<(int, int)>) {
    Respects(root, edges) && forall x: int :: Connected(edges, x, root(x))
  }

  lemma {:induction false} WalkKeepsRoot(root: int -> int, edges: set<(int, int)>, walk: seq<int>)
    requires Respects(root, edges) && IsWalk(edges, walk)
    ensures root(walk[0]) == root(Last(walk))
    decreases |walk|
  {
    if |walk| > 1 {
      assert Linked(edges, walk[0], walk[1]);
      WalkKeepsRoot(root, edges, walk[1..]);
    }
  }

  lemma SameRootIffConnected(root: int -> int, edges: set<(int, int)>, x: int, y: int)
    requires Classes(root, edges)
    ensures root(x) == root(y) <==> Connected(edges, x, y)
  {
    if root(x) == root(y) {
      ConnectedSym(edges, y, root(y));
      ConnectedTrans(edges, x, root(x), y);
    }
    if Connected(edges, x, y) {
      var p :| Connects(edges, p, x, y);
      WalkKeepsRoot(root, edges, p);
    }
  }

  lemma RootOfRoot(parent: map<int, int>, root: int -> int, depth: int -> int, x: int)
    requires Forest(parent, root, depth)
    ensures root(root(x)) == root(x)
  {
    assert Leads(parent, root, depth, x);
  }

  lemma CompressKeepsForest(parent: map<int, int>, root: int -> int, depth: int -> int, x: int)
    requires Forest(parent, root, depth) && root(x) != x && depth(root(x)) < depth(x)
    ensures Forest(parent[x := root(x)], root, depth)
  {
    var next := parent[x := root(x)];
    forall y: int
      ensures Leads(next, root, depth, y)
    {
      assert Leads(parent, root, depth, y);
    }
  }

  function JoinedRoot(root: int -> int, ra: int, rb: int): int -> int {
    y => if root(y) == ra then rb else root(y)
  }

  function JoinedDepth(root: int -> int, depth: int -> int, ra: int, rb: int): int -> int {
    y => if root(y) == ra then depth(y) + depth(rb) + 1 else depth(y)
  }

  lemma JoinKeepsForest(parent: map<int, int>, root: int -> int, depth: int -> int, ra: int, rb: int)
    requires Forest(parent, root, depth) && root(ra) == ra && root(rb) == rb && ra != rb
    ensures Forest(parent[ra := rb], JoinedRoot(root, ra, rb), JoinedDepth(root, depth, ra, rb))
  {
    assert Leads(parent, root, depth, rb);
    var next, joined, deeper := parent[ra := rb], JoinedRoot(root, ra, rb), JoinedDepth(root, depth, ra, rb);
    forall y: int
      ensures Leads(next, joined, deeper, y)
    {
      assert Leads(parent, root, depth, y);
    }
  }

  lemma JoinKeepsClasses(root: int -> int, edges: set<(int, int)>, a: int, b: int)
    requires Classes(root, edges)
    ensures Classes(JoinedRoot(root, root(a), root(b)), edges + {(a, b)})
  {
    var ra, rb, more := root(a), root(b), edges + {(a, b)};
    var joined := JoinedRoot(root, ra, rb);
    SameRootIffConnected(root, edges, a, b);
    forall x: int
      ensures Connected(more, x, joined(x))
    {
      ConnectedGrows(edges, more, x, root(x));
      if root(x) == ra {
        ConnectedGrows(edges, more, a, ra);
        ConnectedSym(more, a, ra);
        ConnectedEdge(more, a, b);
        ConnectedGrows(edges, more, b, rb);
        ConnectedTrans(more, x, ra, a);
        ConnectedTrans(more, x, a, b);
        ConnectedTrans(more, x, b, rb);
      }
    }
  }

  class Partition {
    var parent: map<int, int>
    ghost var root: int -> int
    ghost var depth: int -> int
    ghost var edges: set<(int, int)>

    ghost predicate Valid()
      reads this
    {
      Forest(parent, root, depth) && Classes(root, edges)
    }

    constructor ()
      ensures Valid() && edges == {} && forall x: int :: root(x) == x
    {
      parent := map[];
      root, depth, edges := x => x, x => 0, {};
      new;
      forall x: int
        ensures Connected(edges, x, root(x))
      {
        ConnectedRefl(edges, x);
      }
      assert forall x: int :: Leads(parent, root, depth, x);
    }

    /** The representative of `x`; only shortcuts are written. */
    method Find(x: int) returns (r: int)
      requires Valid()
      modifies this`parent
      ensures Valid() && r == root(x) && depth(r) <= depth(x)
      decreases depth(x)
    {
      hide Classes;
      assert Leads(parent, root, depth, x);
      r := ParentOf(parent, x);
      if r != x {
        assert Leads(parent, root, depth, r);
        r := Find(r);
        CompressKeepsForest(parent, root, depth, x);
        parent := parent[x := r];
      }
    }

    method Union(a: int, b: int)
      requires Valid()
      modifies this
      ensures Valid() && edges == old(edges) + {(a, b)}
      ensures forall y: int :: root(y) == if old(root(y)) == old(root(a)) then old(root(b)) else old(root(y))
    {
      hide Forest, Classes;
      var ra := Find(a);
      var rb := Find(b);
      JoinKeepsClasses(root, edges, a, b);
      RootOfRoot(parent, root, depth, a);
      RootOfRoot(parent, root, depth, b);
      if ra != rb {
        JoinKeepsForest(parent, root, depth, ra, rb);
        parent := parent[ra := rb];
        root, depth, edges := JoinedRoot(root, ra, rb), JoinedDepth(root, depth, ra, rb), edges + {(a, b)};
      } else {
        SameJoin(root, ra, edges + {(a, b)});
        edges := edges + {(a, b)};
      }
    }
  }

  lemma SameJoin(root: int -> int, r: int, edges: set<(int, int)>)
    requires Classes(JoinedRoot(root, r, r), edges)
    ensures Classes(root, edges)
  {
    var joined := JoinedRoot(root, r, r);
    assert forall x: int :: joined(x) == root(x);
    forall x: int
      ensures Connected(edges, x, root(x))
    {
      assert Connected(edges, x, joined(x));
    }
  }
}
