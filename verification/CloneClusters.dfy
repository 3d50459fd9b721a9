/** Clone clusters: windows of equal hash, chained along adjacent matches, merged into line runs. */
module CloneClusters {
  import opened Prelude
  import opened UnionFind

  const WINDOW := 7
  const POS := 16777216

  /** The window hashes of every file; a position encodes a file and a window in it. */
  predicate Encodable(hashes: seq<seq<int>>) {
    forall f :: 0 <= f < |hashes| ==> |hashes[f]| < POS
  }

  function Encode(f: int, i: int): int {
    f * POS + i
  }

  predicate IsPos(hashes: seq<seq<int>>, p: int) {
    0 <= p && p / POS < |hashes| && p % POS < |hashes[p / POS]|
  }

  function HashAt(hashes: seq<seq<int>>, p: int): int
    requires IsPos(hashes, p)
  {
    hashes[p / POS][p % POS]
  }

  lemma Decode(hashes: seq<seq<int>>, f: nat, i: nat)
    requires Encodable(hashes) && f < |hashes| && i < |hashes[f]|
    ensures Encode(f, i) / POS == f && Encode(f, i) % POS == i && IsPos(hashes, Encode(f, i))
    ensures HashAt(hashes, Encode(f, i)) == hashes[f][i]
  {
  }

  // ---------------------------------------------------------------- windows by hash

  /** Each list holds the positions of one hash, each exactly once. */
  ghost predicate Grouped(byHash: map<int, seq<int>>, hashes: seq<seq<int>>, seen: set<int>) {
    && (forall h, j :: h in byHash && 0 <= j < |byHash[h]| ==>
          byHash[h][j] in seen && IsPos(hashes, byHash[h][j]) && HashAt(hashes, byHash[h][j]) == h)
    && (forall h, j, k :: h in byHash && 0 <= j < k < |byHash[h]| ==> byHash[h][j] != byHash[h][k])
    && (forall p :: p in seen ==> IsPos(hashes, p) && HashAt(hashes, p) in byHash && p in byHash[HashAt(hashes, p)])
  }

  function AllPositions(hashes: seq<seq<int>>): set<int> {
    set f, i | 0 <= f < |hashes| && 0 <= i < |hashes[f]| :: Encode(f, i)
  }

  lemma AllPositionsAre(hashes: seq<seq<int>>, p: int)
    requires Encodable(hashes)
    ensures p in AllPositions(hashes) <==> IsPos(hashes, p)
  {
    if IsPos(hashes, p) {
      assert p == Encode(p / POS, p % POS);
    }
    if p in AllPositions(hashes) {
      var f, i :| 0 <= f < |hashes| && 0 <= i < |hashes[f]| && p == Encode(f, i);
      Decode(hashes, f, i);
    }
  }

  lemma GroupStep(byHash: map<int, seq<int>>, hashes: seq<seq<int>>, seen: set<int>, p: int)
    requires Grouped(byHash, hashes, seen) && IsPos(hashes, p) && p !in seen
    ensures var h := HashAt(hashes, p);
      Grouped(byHash[h := (if h in byHash then byHash[h] else []) + [p]], hashes, seen + {p})
  {
    hide IsPos, HashAt;
    var h := HashAt(hashes, p);
    var list := if h in byHash then byHash[h] else [];
    var next := byHash[h := list + [p]];
    assert next[h] == list + [p];
    forall q | q in seen + {p}
      ensures IsPos(hashes, q) && HashAt(hashes, q) in next && q in next[HashAt(hashes, q)]
    {
      if q in seen && HashAt(hashes, q) == h {
        assert q in list;
      }
    }
  }

  method GroupByHash(hashes: seq<seq<int>>) returns (byHash: map<int, seq<int>>)
    requires Encodable(hashes)
    ensures Grouped(byHash, hashes, AllPositions(hashes))
  {
    byHash := map[];
    ghost var seen: set<int> := {};
    assert Grouped(byHash, hashes, seen);
    hide Grouped, IsPos, HashAt;
    for f := 0 to |hashes|
      invariant Grouped(byHash, hashes, seen)
      invariant seen == set g, i | 0 <= g < f && 0 <= i < |hashes[g]| :: Encode(g, i)
    {
      for i := 0 to |hashes[f]|
        invariant Grouped(byHash, hashes, seen)
        invariant seen == (set g, j | 0 <= g < f && 0 <= j < |hashes[g]| :: Encode(g, j)) + set j | 0 <= j < i :: Encode(f, j)
      {
        Decode(hashes, f, i);
        var p, h := Encode(f, i), hashes[f][i];
        assert p !in seen by { Fresh(hashes, f, i); }
        GroupStep(byHash, hashes, seen, p);
        byHash := byHash[h := (if h in byHash then byHash[h] else []) + [p]];
        seen := seen + {p};
      }
    }
  }

  lemma Fresh(hashes: seq<seq<int>>, f: nat, i: nat)
    requires Encodable(hashes) && f < |hashes| && i < |hashes[f]|
    ensures forall g, j :: 0 <= g < f && 0 <= j < |hashes[g]| ==> Encode(g, j) != Encode(f, i)
  {
  }

  // ---------------------------------------------------------------- the relation

  function Matched(hashes: seq<seq<int>>): set<int> {
    set p | p in AllPositions(hashes) && IsPos(hashes, p) && HasTwin(hashes, p)
  }

  predicate HasTwin(hashes: seq<seq<int>>, p: int)
    requires IsPos(hashes, p)
  {
    exists q :: q in AllPositions(hashes) && q != p && IsPos(hashes, q) && HashAt(hashes, q) == HashAt(hashes, p)
  }

  /** Same window hash, or neighbouring matched windows. */
  predicate Related(hashes: seq<seq<int>>, p: int, q: int) {
    p in Matched(hashes) && q in Matched(hashes) &&
    ((IsPos(hashes, p) && IsPos(hashes, q) && HashAt(hashes, p) == HashAt(hashes, q)) || q == p + 1)
  }

  function RelatedPairs(hashes: seq<seq<int>>): set<(int, int)> {
    set p, q | p in Matched(hashes) && q in Matched(hashes) && Related(hashes, p, q) :: (p, q)
  }

  lemma TwinsShareList(byHash: map<int, seq<int>>, hashes: seq<seq<int>>, p: int)
    requires Encodable(hashes) && Grouped(byHash, hashes, AllPositions(hashes))
    ensures IsPos(hashes, p) ==> HashAt(hashes, p) in byHash
    ensures p in Matched(hashes) <==> IsPos(hashes, p) && |byHash[HashAt(hashes, p)]| >= 2
  {
    AllPositionsAre(hashes, p);
    hide IsPos, HashAt, AllPositions;
    if IsPos(hashes, p) {
      var h := HashAt(hashes, p);
      var list := byHash[h];
      var i :| 0 <= i < |list| && list[i] == p;
      if |list| >= 2 {
        var q := if i == 0 then list[1] else list[0];
        assert q != p && q in AllPositions(hashes) && HashAt(hashes, q) == h;
      }
      if p in Matched(hashes) {
        var q :| q in AllPositions(hashes) && q != p && IsPos(hashes, q) && HashAt(hashes, q) == h;
        var j :| 0 <= j < |list| && list[j] == q;
        assert i != j;
      }
    }
  }

  // ---------------------------------------------------------------- the edges that are joined

  /** First position of a list with each of its members. */
  function ListEdges(list: seq<int>): set<(int, int)> {
    if |list| < 2 then {} else Spokes(list[0], list)
  }

  function Spokes(hub: int, list: seq<int>): set<(int, int)> {
    set p | p in list :: (hub, p)
  }

  lemma SpokesSnoc(hub: int, list: seq<int>, p: int)
    ensures Spokes(hub, list + [p]) == Spokes(hub, list) + {(hub, p)}
    ensures ToSet(list + [p]) == ToSet(list) + {p}
  {
  }

  ghost predicate HashEdges(byHash: map<int, seq<int>>, done: set<int>, edges: set<(int, int)>) {
    && (forall h :: h in done && h in byHash ==> ListEdges(byHash[h]) <= edges)
    && (forall e :: e in edges ==> exists h :: h in done && h in byHash && e in ListEdges(byHash[h]))
  }

  ghost predicate ChainEdges(matched: set<int>, done: set<int>, edges: set<(int, int)>) {
    && (forall p :: p in done && p + 1 in matched ==> (p, p + 1) in edges)
    && (forall e :: e in edges ==> e.0 in matched && e.1 == e.0 + 1 && e.1 in matched)
  }

  /** Joining a list to its first member connects all windows of that hash; joining neighbours the rest. */
  lemma EdgesAreEnough(
    hashes: seq<seq<int>>, byHash: map<int, seq<int>>, byList: set<(int, int)>, chain: set<(int, int)>, x: int, y: int)
    requires Encodable(hashes) && Grouped(byHash, hashes, AllPositions(hashes))
    requires HashEdges(byHash, byHash.Keys, byList) && ChainEdges(Matched(hashes), Matched(hashes), chain)
    ensures Connected(byList + chain, x, y) <==> Connected(RelatedPairs(hashes), x, y)
  {
    var edges, pairs := byList + chain, RelatedPairs(hashes);
    forall e | e in edges
      ensures Connected(pairs, e.0, e.1)
    {
      EdgeIsRelated(hashes, byHash, byList, chain, e);
      assert e in pairs;
      assert Linked(pairs, e.0, e.1);
      ConnectedEdge(pairs, e.0, e.1);
    }
    forall e | e in pairs
      ensures Connected(edges, e.0, e.1)
    {
      RelatedIsConnected(hashes, byHash, byList, chain, e.0, e.1);
    }
    if Connected(edges, x, y) {
      ConnectedCoarser(edges, pairs, x, y);
    }
    if Connected(pairs, x, y) {
      ConnectedCoarser(pairs, edges, x, y);
    }
  }

  lemma EdgeIsRelated(
    hashes: seq<seq<int>>, byHash: map<int, seq<int>>, byList: set<(int, int)>, chain: set<(int, int)>, e: (int, int))
    requires Encodable(hashes) && Grouped(byHash, hashes, AllPositions(hashes)) && e in byList + chain
    requires HashEdges(byHash, byHash.Keys, byList) && ChainEdges(Matched(hashes), Matched(hashes), chain)
    ensures Related(hashes, e.0, e.1)
  {
    hide IsPos, HashAt, AllPositions, Matched;
    if e in byList {
      var h :| h in byHash && e in ListEdges(byHash[h]);
      var list := byHash[h];
      var j :| 0 <= j < |list| && list[j] == e.1;
      TwinsShareList(byHash, hashes, e.0);
      TwinsShareList(byHash, hashes, e.1);
      assert list[0] == e.0;
    }
  }

  lemma RelatedIsConnected(
    hashes: seq<seq<int>>, byHash: map<int, seq<int>>, byList: set<(int, int)>, chain: set<(int, int)>, p: int, q: int)
    requires Encodable(hashes) && Grouped(byHash, hashes, AllPositions(hashes)) && Related(hashes, p, q)
    requires HashEdges(byHash, byHash.Keys, byList) && ChainEdges(Matched(hashes), Matched(hashes), chain)
    ensures Connected(byList + chain, p, q)
  {
    var edges := byList + chain;
    AllPositionsAre(hashes, p);
    AllPositionsAre(hashes, q);
    hide IsPos, HashAt, AllPositions, Matched;
    if q == p + 1 {
      assert (p, q) in edges;
      assert Linked(edges, p, q);
      ConnectedEdge(edges, p, q);
    } else {
      var h := HashAt(hashes, p);
      TwinsShareList(byHash, hashes, p);
      TwinsShareList(byHash, hashes, q);
      var list := byHash[h];
      assert p in list && q in list;
      assert (list[0], p) in ListEdges(list) && (list[0], q) in ListEdges(list);
      assert Linked(edges, p, list[0]) && Linked(edges, list[0], q);
      ConnectedEdge(edges, p, list[0]);
      ConnectedEdge(edges, list[0], q);
      ConnectedTrans(edges, p, list[0], q);
    }
  }

  /** Joins all windows of one hash. */
  method JoinList(uf: Partition, list: seq<int>, matched: set<int>) returns (more: set<int>)
    requires uf.Valid()
    modifies uf
    ensures uf.Valid() && uf.edges == old(uf.edges) + ListEdges(list)
    ensures more == matched + if |list| < 2 then {} else ToSet(list)
  {
    more := matched;
    if |list| < 2 {
      return;
    }
    assert Spokes(list[0], list[..0]) == {} && ToSet(list[..0]) == {};
    hide Spokes, ToSet, Forest, Classes;
    for j := 0 to |list|
      invariant uf.Valid() && uf.edges == old(uf.edges) + Spokes(list[0], list[..j])
      invariant more == matched + ToSet(list[..j])
    {
      assert list[..j + 1] == list[..j] + [list[j]];
      SpokesSnoc(list[0], list[..j], list[j]);
      more := more + {list[j]};
      uf.Union(list[0], list[j]);
    }
    assert list[..|list|] == list;
  }

  lemma HashEdgesStep(byHash: map<int, seq<int>>, done: set<int>, edges: set<(int, int)>, h: int)
    requires h in byHash && HashEdges(byHash, done, edges)
    ensures HashEdges(byHash, done + {h}, edges + ListEdges(byHash[h]))
  {
    hide ListEdges;
  }

  lemma MatchedStep(byHash: map<int, seq<int>>, done: set<int>, matched: set<int>, h: int)
    requires h in byHash && MatchedBy(byHash, done, matched)
    ensures MatchedBy(byHash, done + {h}, matched + if |byHash[h]| < 2 then {} else ToSet(byHash[h]))
  {
  }

  method JoinHashes(uf: Partition, byHash: map<int, seq<int>>) returns (matched: set<int>)
    requires uf.Valid() && uf.edges == {}
    modifies uf
    ensures uf.Valid() && HashEdges(byHash, byHash.Keys, uf.edges) && MatchedBy(byHash, byHash.Keys, matched)
  {
    matched := {};
    var keys := Enumerate(byHash.Keys);
    assert HashEdges(byHash, ToSet(keys[..0]), uf.edges) && MatchedBy(byHash, ToSet(keys[..0]), matched);
    hide HashEdges, MatchedBy, ListEdges, ToSet, Forest, Classes;
    for i := 0 to |keys|
      invariant uf.Valid() && HashEdges(byHash, ToSet(keys[..i]), uf.edges) && MatchedBy(byHash, ToSet(keys[..i]), matched)
    {
      ToSetSnoc(keys, i);
      HashEdgesStep(byHash, ToSet(keys[..i]), uf.edges, keys[i]);
      MatchedStep(byHash, ToSet(keys[..i]), matched, keys[i]);
      matched := JoinList(uf, byHash[keys[i]], matched);
    }
    assert keys[..|keys|] == keys;
  }

  lemma ChainStep(matched: set<int>, done: set<int>, edges: set<(int, int)>, p: int)
    requires ChainEdges(matched, done, edges) && p in matched
    ensures ChainEdges(matched, done + {p}, edges + if p + 1 in matched then {(p, p + 1)} else {})
  {
  }

  method JoinNeighbours(uf: Partition, matched: set<int>) returns (ghost chain: set<(int, int)>)
    requires uf.Valid()
    modifies uf
    ensures uf.Valid() && uf.edges == old(uf.edges) + chain && ChainEdges(matched, matched, chain)
  {
    chain := {};
    var order := Enumerate(matched);
    assert ChainEdges(matched, ToSet(order[..0]), chain);
    hide ChainEdges, ToSet, Forest, Classes;
    for i := 0 to |order|
      invariant uf.Valid() && uf.edges == old(uf.edges) + chain && ChainEdges(matched, ToSet(order[..i]), chain)
    {
      var p := order[i];
      ToSetSnoc(order, i);
      ChainStep(matched, ToSet(order[..i]), chain, p);
      if p + 1 in matched {
        uf.Union(p, p + 1);
        chain := chain + {(p, p + 1)};
      } else {
        assert chain + {} == chain;
      }
    }
    assert order[..|order|] == order;
  }

  /** Every matched window is found, and two of them share a root exactly when the relation chains them. */
  method FindClusters(hashes: seq<seq<int>>) returns (uf: Partition, matched: set<int>)
    requires Encodable(hashes)
    ensures fresh(uf) && uf.Valid() && matched == Matched(hashes)
    ensures forall p, q :: p in matched && q in matched ==>
      (uf.root(p) == uf.root(q) <==> Connected(RelatedPairs(hashes), p, q))
  {
    hide Grouped, Matched, AllPositions, HashEdges, ChainEdges, MatchedBy, RelatedPairs, Connected, Forest;
    var byHash := GroupByHash(hashes);
    uf := new Partition();
    matched := JoinHashes(uf, byHash);
    MatchedIs(byHash, hashes, matched);
    ghost var byList := uf.edges;
    ghost var chain := JoinNeighbours(uf, matched);
    forall p, q | p in matched && q in matched
      ensures uf.root(p) == uf.root(q) <==> Connected(RelatedPairs(hashes), p, q)
    {
      SameRootIffConnected(uf.root, uf.edges, p, q);
      EdgesAreEnough(hashes, byHash, byList, chain, p, q);
    }
  }

  ghost predicate MatchedBy(byHash: map<int, seq<int>>, done: set<int>, matched: set<int>) {
    forall p :: p in matched <==> exists h :: h in done && h in byHash && |byHash[h]| >= 2 && p in byHash[h]
  }

  lemma MatchedIs(byHash: map<int, seq<int>>, hashes: seq<seq<int>>, matched: set<int>)
    requires Encodable(hashes) && Grouped(byHash, hashes, AllPositions(hashes)) && MatchedBy(byHash, byHash.Keys, matched)
    ensures matched == Matched(hashes)
  {
    hide IsPos, HashAt, AllPositions, Matched;
    forall p
      ensures p in matched <==> p in Matched(hashes)
    {
      TwinsShareList(byHash, hashes, p);
      AllPositionsAre(hashes, p);
      if p in matched {
        var h :| h in byHash && |byHash[h]| >= 2 && p in byHash[h];
        var j :| 0 <= j < |byHash[h]| && byHash[h][j] == p;
      }
    }
  }
}
