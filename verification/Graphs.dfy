// Directed multigraphs in the shape of petgraph's `Graph`: a node count and the edges in
// insertion order. Neighbour iteration runs from the newest edge to the oldest.
module Graphs {

  datatype Graph = Graph(n: nat, edges: seq<(nat, nat)>) {
    ghost predicate Valid() {
      forall e | e in edges :: e.0 < n && e.1 < n
    }

    ghost predicate HasEdge(u: nat, v: nat) {
      (u, v) in edges
    }

    function Succs(u: nat): (s: seq<nat>)
      ensures forall v :: v in s <==> HasEdge(u, v)
    {
      SuccsFrom(edges, u)
    }

    function Preds(v: nat): (s: seq<nat>)
      ensures forall u :: u in s <==> HasEdge(u, v)
    {
      PredsFrom(edges, v)
    }
  }

  function SuccsFrom(edges: seq<(nat, nat)>, u: nat): (s: seq<nat>)
    ensures forall v :: v in s <==> (u, v) in edges
  {
    if edges == [] then []
    else
      var e := edges[|edges| - 1];
      (if e.0 == u then [e.1] else []) + SuccsFrom(edges[..|edges| - 1], u)
  }

  function PredsFrom(edges: seq<(nat, nat)>, v: nat): (s: seq<nat>)
    ensures forall u :: u in s <==> (u, v) in edges
  {
    if edges == [] then []
    else
      var e := edges[|edges| - 1];
      (if e.1 == v then [e.0] else []) + PredsFrom(edges[..|edges| - 1], v)
  }

  // A path is a nonempty walk; nodes may repeat.
  ghost predicate IsPath(g: Graph, p: seq<nat>) {
    && |p| > 0
    && (forall i | 0 <= i < |p| :: p[i] < g.n)
    && (forall i | 0 <= i < |p| - 1 :: g.HasEdge(p[i], p[i + 1]))
  }

  ghost predicate PathBetween(g: Graph, p: seq<nat>, a: nat, b: nat) {
    IsPath(g, p) && p[0] == a && p[|p| - 1] == b
  }

  ghost predicate Reachable(g: Graph, a: nat, b: nat) {
    exists p :: PathBetween(g, p, a, b)
  }

  // Every node lies on some path that starts at the entry.
  ghost predicate FlowGraph(g: Graph, entry: nat) {
    && g.Valid()
    && entry < g.n
    && (forall v | 0 <= v < g.n :: Reachable(g, entry, v))
  }

  // Two paths that meet join up; the shared node is kept once.
  function Join(p: seq<nat>, q: seq<nat>): seq<nat>
    requires |p| > 0 && |q| > 0
  {
    p + q[1..]
  }

  lemma JoinPaths(g: Graph, p: seq<nat>, q: seq<nat>, a: nat, b: nat, c: nat)
    requires PathBetween(g, p, a, b) && PathBetween(g, q, b, c)
    ensures PathBetween(g, Join(p, q), a, c)
    ensures forall x | x in Join(p, q) :: x in p || x in q
  {
    var r := Join(p, q);
    forall i | 0 <= i < |r| - 1
      ensures g.HasEdge(r[i], r[i + 1])
    {
      if i >= |p| - 1 {
        assert r[i] == q[i - |p| + 1] && r[i + 1] == q[i - |p| + 2];
      }
    }
  }

  // Extending a path by one edge.
  lemma ExtendPath(g: Graph, p: seq<nat>, a: nat, b: nat, c: nat)
    requires g.Valid() && PathBetween(g, p, a, b) && g.HasEdge(b, c)
    ensures PathBetween(g, p + [c], a, c)
  {
  }

  // The part of a path from its start to index i, and from index i to its end.
  lemma SplitPath(g: Graph, p: seq<nat>, i: nat)
    requires IsPath(g, p) && i < |p|
    ensures PathBetween(g, p[..i + 1], p[0], p[i])
    ensures PathBetween(g, p[i..], p[i], p[|p| - 1])
  {
  }

  // Sequences of distinct numbers below a bound.
  ghost predicate Distinct(s: seq<nat>) {
    forall i, j | 0 <= i < j < |s| :: s[i] != s[j]
  }

  function Elements(s: seq<nat>): (r: set<nat>)
    ensures forall x :: x in r <==> x in s
  {
    set x | x in s
  }

  lemma DistinctSize(s: seq<nat>)
    requires Distinct(s)
    ensures |Elements(s)| == |s|
  {
    if s == [] {
      assert Elements(s) == {};
    } else {
      var t := s[..|s| - 1];
      DistinctSize(t);
      assert Elements(s) == Elements(t) + {s[|s| - 1]};
    }
  }

  function Below(n: nat): (r: set<nat>)
    ensures forall x: nat :: x in r <==> x < n
    ensures |r| == n
  {
    if n == 0 then {} else Below(n - 1) + {n - 1}
  }

  lemma SubsetSize(a: set<nat>, b: set<nat>)
    requires a <= b
    ensures |a| <= |b|
    ensures |a| == |b| ==> a == b
  {
    var rest := b - a;
    assert b == a + rest && a !! rest;
  }

  // Pigeonhole: distinct numbers below n are at most n many, and n of them are all of them.
  lemma Pigeonhole(s: seq<nat>, n: nat)
    requires Distinct(s) && forall x | x in s :: x < n
    ensures |s| <= n
    ensures |s| == n ==> forall x | 0 <= x < n :: x in s
  {
    DistinctSize(s);
    SubsetSize(Elements(s), Below(n));
    if |s| == n {
      forall x | 0 <= x < n
        ensures x in s
      {
        assert x in Below(n);
      }
    }
  }
}
