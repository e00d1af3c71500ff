// src/dataflow.rs: a worklist solver for join constraints. An edge runs from a node to what it
// depends on, so that the nodes that matter are the ones reachable from the queries.
module Dataflow {
  import opened Graphs
  import opened WorkLists
  import opened Lattices

  // ---- What a solution is ----

  // u is above the initial weight of everything n reaches.
  ghost predicate Bounds<J>(l: Lattice<J>, g: Graph, init: seq<J>, n: nat, u: J)
    requires |init| == g.n
  {
    forall m: nat | m < g.n && Reachable(g, n, m) :: Leq(l, init[m], u)
  }

  ghost predicate BelowAllBounds<J(!new)>(l: Lattice<J>, g: Graph, init: seq<J>, n: nat, x: J)
    requires |init| == g.n
  {
    forall u {:trigger Bounds(l, g, init, n, u)} :: Bounds(l, g, init, n, u) ==> Leq(l, x, u)
  }

  // x is the join of the initial weights of all nodes that n reaches.
  ghost predicate JoinOfReached<J(!new)>(l: Lattice<J>, g: Graph, init: seq<J>, n: nat, x: J)
    requires |init| == g.n
  {
    Bounds(l, g, init, n, x) && BelowAllBounds(l, g, init, n, x)
  }

  // The constraint at n holds: it is above what it depends on.
  ghost predicate Settled<J>(l: Lattice<J>, g: Graph, w: seq<J>, n: nat)
    requires |w| == g.n && n < g.n
  {
    forall m: nat | m < g.n && g.HasEdge(n, m) :: Leq(l, w[m], w[n])
  }

  lemma ReachStep(g: Graph, n: nat, m: nat, k: nat)
    requires g.Valid() && g.HasEdge(n, m) && Reachable(g, m, k)
    ensures Reachable(g, n, k)
  {
    var p :| PathBetween(g, p, m, k);
    assert PathBetween(g, [n, m], n, m);
    JoinPaths(g, [n, m], p, n, m, k);
  }

  lemma ReachSelf(g: Graph, n: nat)
    requires n < g.n
    ensures Reachable(g, n, n)
  {
    assert PathBetween(g, [n], n, n);
  }

  lemma ReachOn(g: Graph, n: nat, m: nat, k: nat)
    requires g.Valid() && Reachable(g, n, m) && g.HasEdge(m, k)
    ensures Reachable(g, n, k)
  {
    var p :| PathBetween(g, p, n, m);
    ExtendPath(g, p, n, m, k);
  }

  // What bounds n bounds everything n depends on.
  lemma BoundsStep<J(!new)>(l: Lattice<J>, g: Graph, init: seq<J>, n: nat, m: nat, x: J)
    requires g.Valid() && |init| == g.n && g.HasEdge(n, m) && BelowAllBounds(l, g, init, m, x)
    ensures BelowAllBounds(l, g, init, n, x)
  {
    forall u | Bounds(l, g, init, n, u)
      ensures Leq(l, x, u)
    {
      forall k: nat | k < g.n && Reachable(g, m, k)
        ensures Leq(l, init[k], u)
      {
        ReachStep(g, n, m, k);
      }
      assert Bounds(l, g, init, m, u);
    }
  }

  lemma BelowJoin<J(!new)>(l: Lattice<J>, g: Graph, init: seq<J>, n: nat, x: J, y: J)
    requires Lawful(l) && |init| == g.n && BelowAllBounds(l, g, init, n, x) && BelowAllBounds(l, g, init, n, y)
    ensures BelowAllBounds(l, g, init, n, l.join(x, y))
  {
    forall u | Bounds(l, g, init, n, u)
      ensures Leq(l, l.join(x, y), u)
    {
      JoinIsLub(l, x, y, u);
    }
  }

  // Settled constraints carry values along whole paths.
  lemma {:induction false} SettledPath<J(!new)>(l: Lattice<J>, g: Graph, w: seq<J>, p: seq<nat>, n: nat, m: nat)
    requires Lawful(l) && g.Valid() && |w| == g.n && PathBetween(g, p, n, m)
    requires forall x: nat | x < g.n && Reachable(g, n, x) :: Settled(l, g, w, x)
    ensures Leq(l, w[m], w[n])
    decreases |p|
  {
    if |p| == 1 {
      LeqRefl(l, w[n]);
    } else {
      var q := p[..|p| - 1];
      assert PathBetween(g, q, n, q[|q| - 1]);
      SettledPath(l, g, w, q, n, q[|q| - 1]);
      assert g.HasEdge(p[|p| - 2], p[|p| - 1]);
      assert Settled(l, g, w, q[|q| - 1]);
      LeqTrans(l, w[m], w[q[|q| - 1]], w[n]);
    }
  }

  // A fixpoint above the initial weights and below all bounds is the join of what is reached.
  lemma FixpointIsJoin<J(!new)>(l: Lattice<J>, g: Graph, init: seq<J>, w: seq<J>, n: nat)
    requires Lawful(l) && g.Valid() && |init| == |w| == g.n && n < g.n
    requires forall x: nat | x < g.n && Reachable(g, n, x) :: Settled(l, g, w, x)
    requires forall x | 0 <= x < g.n :: Leq(l, init[x], w[x])
    requires BelowAllBounds(l, g, init, n, w[n])
    ensures JoinOfReached(l, g, init, n, w[n])
  {
    forall m: nat | m < g.n && Reachable(g, n, m)
      ensures Leq(l, init[m], w[n])
    {
      var p :| PathBetween(g, p, n, m);
      SettledPath(l, g, w, p, n, m);
      LeqTrans(l, init[m], w[m], w[n]);
    }
  }

  // How far the weights can still climb.
  function Slack<J>(l: Lattice<J>, w: seq<J>): nat {
    if w == [] then 0
    else Slack(l, w[..|w| - 1]) + (if l.rank(w[|w| - 1]) <= l.height then l.height - l.rank(w[|w| - 1]) else 0)
  }

  lemma {:induction false} SlackDrops<J(!new)>(l: Lattice<J>, w: seq<J>, n: nat, x: J)
    requires Lawful(l) && n < |w|
    ensures l.rank(w[n]) < l.rank(x) ==> Slack(l, w[n := x]) < Slack(l, w)
  {
    var last := |w| - 1;
    if n == last {
      assert w[n := x][..last] == w[..last];
    } else {
      assert w[n := x][..last] == w[..last][n := x];
      SlackDrops(l, w[..last], n, x);
    }
  }

  // ---- The constraints, by key ----

  datatype Net<!J, !K> = Net(lat: Lattice<J>, nodes: map<K, nat>, weights: seq<J>, edges: seq<(nat, nat)>,
                             queries: set<nat>) {
    function G(): Graph {
      Graph(|weights|, edges)
    }
    function WeightOf(k: K): J {
      if k in nodes && nodes[k] < |weights| then weights[nodes[k]] else lat.bottom
    }
    ghost predicate HasDep(dst: K, src: K) {
      dst in nodes && src in nodes && (nodes[dst], nodes[src]) in edges
    }
    ghost predicate IsQuery(k: K) {
      k in nodes && nodes[k] in queries
    }
  }

  // Node 0 is the sentinel; every other node has one key.
  ghost predicate NetOk<J(!new), K(!new)>(t: Net<J, K>) {
    && Lawful(t.lat) && |t.weights| > 0 && t.G().Valid()
    && (forall k | k in t.nodes :: 0 < t.nodes[k] < |t.weights|)
    && (forall k, k' | k in t.nodes && k' in t.nodes && t.nodes[k] == t.nodes[k'] :: k == k')
    && (forall n | 0 < n < |t.weights| :: n in t.nodes.Values)
    && (forall q | q in t.queries :: 0 < q < |t.weights|)
  }

  // Dependencies are between keys, not with the sentinel.
  ghost predicate KeyEdges<J(!new), K(!new)>(t: Net<J, K>) {
    forall e | e in t.edges :: e.0 != 0 && e.1 != 0
  }

  // The same constraints over at least the same nodes.
  ghost predicate Extends<J(!new), K(!new)>(t: Net<J, K>, t': Net<J, K>) {
    && t'.lat == t.lat && t.nodes.Keys <= t'.nodes.Keys
    && (forall k | k in t.nodes :: t'.nodes[k] == t.nodes[k])
    && t.weights <= t'.weights && t'.edges == t.edges && t'.queries == t.queries
    && (forall n | |t.weights| <= n < |t'.weights| :: t'.weights[n] == t.lat.bottom)
    && (forall k | k in t'.nodes && k !in t.nodes :: t'.nodes[k] >= |t.weights|)
  }

  lemma ExtendsNothing<J(!new), K(!new)>(t: Net<J, K>, k: K)
    requires NetOk(t)
    ensures Extends(t, t) && |t.weights| > 0 && (k in t.nodes ==> t.nodes.Keys + {k} == t.nodes.Keys)
  {
  }

  lemma NodeAdded<J(!new), K(!new)>(t: Net<J, K>, k: K)
    requires NetOk(t) && k !in t.nodes
    ensures var t' := t.(nodes := t.nodes[k := |t.weights|], weights := t.weights + [t.lat.bottom]);
            NetOk(t') && Extends(t, t') && t'.nodes.Keys == t.nodes.Keys + {k} && t'.weights[0] == t.weights[0]
  {
    hide Lawful;
    ValuesGrow(t.nodes, k, |t.weights|);
  }

  lemma ValuesGrow<K>(m: map<K, nat>, k: K, n: nat)
    requires k !in m
    ensures m[k := n].Values == m.Values + {n}
  {
    var m' := m[k := n];
    assert m'[k] == n;
    forall x | x in m.Values
      ensures x in m'.Values
    {
      var j :| j in m && m[j] == x;
      assert m'[j] == x;
    }
  }

  lemma ExtendsSame<J(!new), K(!new)>(t: Net<J, K>, t': Net<J, K>)
    requires NetOk(t) && NetOk(t') && Extends(t, t')
    ensures forall k :: t'.WeightOf(k) == t.WeightOf(k) && (t'.IsQuery(k) <==> t.IsQuery(k))
    ensures forall a, b :: t'.HasDep(a, b) <==> t.HasDep(a, b)
  {
    forall a, b | t'.HasDep(a, b)
      ensures t.HasDep(a, b)
    {
      assert (t'.nodes[a], t'.nodes[b]) in t.edges;
      assert t.G().edges == t.edges;
    }
  }

  lemma DepAdded<J(!new), K(!new)>(t: Net<J, K>, t': Net<J, K>, dst: K, src: K)
    requires NetOk(t) && dst in t.nodes && src in t.nodes && t' == t.(edges := t.edges + [(t.nodes[dst], t.nodes[src])])
    ensures NetOk(t')
    ensures forall a, b :: t'.HasDep(a, b) <==> t.HasDep(a, b) || (a == dst && b == src)
  {
  }

  lemma KeyEdgeAdded<J(!new), K(!new)>(t0: Net<J, K>, t: Net<J, K>, t': Net<J, K>, dst: K, src: K)
    requires NetOk(t) && t.edges == t0.edges && dst in t.nodes && src in t.nodes
    requires t'.edges == t.edges + [(t.nodes[dst], t.nodes[src])]
    ensures KeyEdges(t0) ==> KeyEdges(t')
  {
  }

  lemma QueryAdded<J(!new), K(!new)>(t: Net<J, K>, t': Net<J, K>, k: K)
    requires NetOk(t) && k in t.nodes && t' == t.(queries := t.queries + {t.nodes[k]})
    ensures NetOk(t')
    ensures forall a :: t'.WeightOf(a) == t.WeightOf(a) && (t'.IsQuery(a) <==> t.IsQuery(a) || a == k)
    ensures forall a, b :: t'.HasDep(a, b) <==> t.HasDep(a, b)
  {
  }

  // ---- Solutions, by key ----

  // t' is t with the sentinel made to depend on all queries, and solved.
  ghost predicate SolvedFrom<J(!new), K(!new)>(t: Net<J, K>, t': Net<J, K>) {
    && t'.lat == t.lat && t'.nodes == t.nodes && t'.queries == t.queries && |t'.weights| == |t.weights|
    && (forall u, v :: (u, v) in t'.edges <==> (u, v) in t.edges || (u == 0 && v in t.queries))
    && (forall n: nat | n < |t.weights| && Reachable(t'.G(), 0, n) ::
          JoinOfReached(t.lat, t'.G(), t.weights, n, t'.weights[n]))
  }

  // Some query depends on k.
  ghost predicate Matters<J, K>(t': Net<J, K>, k: K) {
    k in t'.nodes && Reachable(t'.G(), 0, t'.nodes[k])
  }

  lemma JoinOrder<J(!new)>(l: Lattice<J>, g: Graph, init: seq<J>, n: nat, m: nat, x: J, y: J)
    requires Lawful(l) && g.Valid() && |init| == g.n && g.HasEdge(n, m)
    requires JoinOfReached(l, g, init, n, x) && JoinOfReached(l, g, init, m, y)
    ensures Leq(l, y, x)
  {
    BoundsStep(l, g, init, n, m, y);
  }

  // The constraints hold in the solution, wherever they matter; `root` is above all queries.
  lemma SolutionHolds<J(!new), K(!new)>(t: Net<J, K>, t': Net<J, K>, k: K)
    requires NetOk(t) && NetOk(t') && SolvedFrom(t, t')
    ensures t.IsQuery(k) ==> Matters(t', k) && Leq(t.lat, t'.WeightOf(k), t'.weights[0])
    ensures Matters(t', k) ==> Leq(t.lat, t.WeightOf(k), t'.WeightOf(k))
    ensures forall src | t.HasDep(k, src) && Matters(t', k) ::
              Matters(t', src) && Leq(t.lat, t'.WeightOf(src), t'.WeightOf(k))
  {
    var g := t'.G();
    ReachSelf(g, 0);
    if t.IsQuery(k) {
      assert g.HasEdge(0, t.nodes[k]);
      ReachOn(g, 0, 0, t.nodes[k]);
      JoinOrder(t.lat, g, t.weights, 0, t.nodes[k], t'.weights[0], t'.WeightOf(k));
    }
    if Matters(t', k) {
      ReachSelf(g, t.nodes[k]);
      forall src | t.HasDep(k, src)
        ensures Matters(t', src) && Leq(t.lat, t'.WeightOf(src), t'.WeightOf(k))
      {
        assert g.HasEdge(t.nodes[k], t.nodes[src]);
        ReachOn(g, 0, t.nodes[k], t.nodes[src]);
        JoinOrder(t.lat, g, t.weights, t.nodes[k], t.nodes[src], t'.WeightOf(k), t'.WeightOf(src));
      }
    }
  }

  // Whatever the sentinel reaches, a query reaches.
  lemma QueryAbove<J(!new), K(!new)>(t: Net<J, K>, t': Net<J, K>, m: nat) returns (q: nat)
    requires NetOk(t) && NetOk(t') && SolvedFrom(t, t') && (forall e | e in t.edges :: e.0 != 0)
    requires 0 < m < |t'.weights| && Reachable(t'.G(), 0, m)
    ensures q in t.queries && q < |t'.weights| && m < |t.weights| && Leq(t.lat, t.weights[m], t'.weights[q])
  {
    hide Lawful, Leq;
    var g := t'.G();
    var p :| PathBetween(g, p, 0, m);
    assert g.HasEdge(p[0], p[1]);
    q := p[1];
    assert q in t.queries && g.HasEdge(0, q);
    ReachSelf(g, 0);
    ReachOn(g, 0, 0, q);
    SplitPath(g, p, 1);
    assert JoinOfReached(t.lat, g, t.weights, q, t'.weights[q]) && Reachable(g, q, m);
  }

  // `root` is the join over all queries: no smaller weight is above them all.
  lemma RootIsJoinOfQueries<J(!new), K(!new)>(t: Net<J, K>, t': Net<J, K>, u: J)
    requires NetOk(t) && NetOk(t') && SolvedFrom(t, t') && t.weights[0] == t.lat.bottom
    requires forall e | e in t.edges :: e.0 != 0
    requires forall q: nat | q in t.queries :: Leq(t.lat, t'.weights[q], u)
    ensures Leq(t.lat, t'.weights[0], u)
  {
    hide Lawful, Leq, Reachable;
    var g := t'.G();
    ReachSelf(g, 0);
    forall m: nat | m < g.n && Reachable(g, 0, m)
      ensures Leq(t.lat, t.weights[m], u)
    {
      if m == 0 {
        LeqRefl(t.lat, u);
      } else {
        var q := QueryAbove(t, t', m);
        LeqTrans(t.lat, t.weights[m], t'.weights[q], u);
      }
    }
    assert Bounds(t.lat, g, t.weights, 0, u);
  }

  lemma {:induction false} ClosedReach(g: Graph, s: set<nat>, p: seq<nat>, a: nat, b: nat)
    requires PathBetween(g, p, a, b) && a in s
    requires forall u, v | u in s && g.HasEdge(u, v) :: v in s
    ensures b in s
    decreases |p|
  {
    if |p| > 1 {
      assert g.HasEdge(p[0], p[1]);
      assert PathBetween(g, p[1..], p[1], b);
      ClosedReach(g, s, p[1..], p[1], b);
    }
  }

  // ---- What waits ----

  ghost predicate AllIn(a: seq<nat>, b: seq<nat>) {
    forall x | x in a :: x in b
  }

  lemma AllInSame(a: seq<nat>)
    ensures forall b: seq<nat> :: AllIn(a, a + b) && AllIn(a + b[..0], a)
  {
  }

  lemma AllInMore(before: seq<nat>, mem: seq<nat>, more: seq<nat>, i: nat)
    requires i < |more| && AllIn(mem, before + more) && AllIn(before + more[..i], mem)
    ensures var mem' := if more[i] in mem then mem else mem + [more[i]];
            AllIn(mem', before + more) && AllIn(before + more[..i + 1], mem')
  {
  }

  lemma EndsBelow(g: Graph, preds: seq<nat>, n: nat)
    requires g.Valid() && preds == g.Preds(n)
    ensures forall m | m in preds :: m < g.n
  {
    forall m | m in preds
      ensures m < g.n
    {
      assert g.HasEdge(m, n);
    }
  }

  lemma AllWoken(g: Graph, before: seq<nat>, mem: seq<nat>, preds: seq<nat>, n: nat)
    requires AllIn(mem, before + preds) && AllIn(before + preds[..|preds|], mem) && preds == g.Preds(n)
    requires (forall m | m in before :: m < g.n) && (forall m | m in preds :: m < g.n)
    ensures (forall m | m in mem :: m < g.n) && (forall m | m in before :: m in mem)
    ensures forall m: nat | g.HasEdge(m, n) :: m in mem
  {
    assert preds[..|preds|] == preds;
    forall m: nat | g.HasEdge(m, n)
      ensures m in mem
    {
      assert m in preds && m in before + preds;
    }
    forall m | m in before
      ensures m in mem
    {
      assert m in before + preds;
    }
  }

  // ---- The analysis ----

  class Analysis<J(==, !new), K(==, !new)> {
    const lat: Lattice<J>
    const sentinel: nat
    var nodes: map<K, nat>
    var weights: seq<J>
    var edges: seq<(nat, nat)>
    var queries: set<nat>
    var solved: bool

    ghost function Now(): Net<J, K>
      reads this
    {
      Net(lat, nodes, weights, edges, queries)
    }

    ghost predicate Valid()
      reads this
    {
      sentinel == 0 && NetOk(Now()) && (!solved ==> weights[0] == lat.bottom)
    }

    constructor (l: Lattice<J>)
      requires Lawful(l)
      ensures Valid() && !solved && Now() == Net(l, map[], [l.bottom], [], {})
    {
      lat, sentinel := l, 0;
      nodes, weights, edges, queries, solved := map[], [l.bottom], [], {}, false;
    }

    method GetNode(k: K) returns (ix: nat)
      requires Valid()
      modifies this`nodes, this`weights
      ensures Valid() && k in nodes && nodes[k] == ix && Extends(old(Now()), Now())
      ensures nodes.Keys == old(nodes).Keys + {k}
    {
      hide NetOk, Extends;
      ExtendsNothing(Now(), k);
      if k in nodes {
        return nodes[k];
      }
      NodeAdded(Now(), k);
      ix := |weights|;
      weights := weights + [lat.bottom];
      nodes := nodes[k := ix];
    }

    // v is joined into what the key starts from.
    method AddSrc(k: K, v: J)
      requires Valid()
      modifies this`nodes, this`weights
      ensures Valid() && nodes.Keys == old(nodes).Keys + {k}
      ensures forall k' :: Now().WeightOf(k') ==
                           if k' == k then lat.join(v, old(Now()).WeightOf(k)) else old(Now()).WeightOf(k')
      ensures forall a, b :: Now().HasDep(a, b) <==> old(Now()).HasDep(a, b)
      ensures forall a :: Now().IsQuery(a) <==> old(Now()).IsQuery(a)
      ensures edges == old(edges)
    {
      hide Lawful;
      var ix := GetNode(k);
      ExtendsSame(old(Now()), Now());
      weights := weights[ix := lat.join(v, weights[ix])];
    }

    method AddDep(dst: K, src: K)
      requires Valid()
      modifies this`nodes, this`weights, this`edges
      ensures Valid() && nodes.Keys == old(nodes).Keys + {dst, src}
      ensures forall k :: Now().WeightOf(k) == old(Now()).WeightOf(k)
      ensures forall a, b :: Now().HasDep(a, b) <==> old(Now()).HasDep(a, b) || (a == dst && b == src)
      ensures forall a :: Now().IsQuery(a) <==> old(Now()).IsQuery(a)
      ensures KeyEdges(old(Now())) ==> KeyEdges(Now())
    {
      hide Lawful, NetOk;
      var d := GetNode(dst);
      ExtendsSame(old(Now()), Now());
      ghost var mid := Now();
      var s := GetNode(src);
      ExtendsSame(mid, Now());
      ghost var t := Now();
      edges := edges + [(d, s)];
      DepAdded(t, Now(), dst, src);
      KeyEdgeAdded(old(Now()), t, Now(), dst, src);
    }

    method AddQuery(k: K)
      requires Valid()
      modifies this`nodes, this`weights, this`queries
      ensures Valid() && nodes.Keys == old(nodes).Keys + {k}
      ensures forall k' :: Now().WeightOf(k') == old(Now()).WeightOf(k')
      ensures forall a, b :: Now().HasDep(a, b) <==> old(Now()).HasDep(a, b)
      ensures forall a :: Now().IsQuery(a) <==> old(Now()).IsQuery(a) || a == k
      ensures edges == old(edges)
    {
      hide Lawful, NetOk;
      var ix := GetNode(k);
      ExtendsSame(old(Now()), Now());
      ghost var t := Now();
      queries := queries + {ix};
      QueryAdded(t, Now(), k);
    }

    // Make the sentinel depend on every query, and queue what it reaches.
    method Populate(wl: WorkList<nat>)
      requires Valid() && wl.Valid() && wl.mem == []
      modifies this`edges, wl
      ensures Valid() && wl.Valid()
      ensures forall u, v :: (u, v) in edges <==> (u, v) in old(edges) || (u == sentinel && v in queries)
      ensures forall n: nat :: n in wl.mem <==> Reachable(G(), sentinel, n)
    {
      hide Lawful;
      var rest := queries;
      while rest != {}
        invariant rest <= queries && Valid()
        invariant forall u, v :: (u, v) in edges <==> (u, v) in old(edges) || (u == sentinel && v in queries - rest)
        modifies this`edges
      {
        var node :| node in rest;
        edges := edges + [(sentinel, node)];
        rest := rest - {node};
      }
      QueueReached(wl);
    }

    ghost function G(): Graph
      reads this
    {
      Now().G()
    }

    // Depth-first search from the sentinel.
    method QueueReached(wl: WorkList<nat>)
      requires Valid() && wl.Valid() && wl.mem == []
      modifies wl
      ensures wl.Valid() && forall n: nat :: n in wl.mem <==> Reachable(G(), sentinel, n)
    {
      hide NetOk, Searching, Lawful;
      Sizes();
      var stack := [sentinel];
      SearchStarts(G(), sentinel);
      while stack != []
        invariant wl.Valid() && Searching(G(), sentinel, wl.mem, stack)
        decreases |weights| - |wl.mem|, |stack|
        modifies wl
      {
        var n := stack[|stack| - 1];
        var rest := stack[..|stack| - 1];
        SearchPops(G(), sentinel, wl.mem, stack);
        if n in wl.members {
          stack := rest;
        } else {
          stack := rest + Undiscovered(Graph(|weights|, edges).Succs(n), wl.members + {n});
          Room(wl.mem, |weights|, n);
          wl.Insert(n);
        }
      }
      SearchEnds(G(), sentinel, wl.mem);
    }

    lemma Sizes()
      requires Valid()
      ensures sentinel < |weights| && G().Valid() && Lawful(lat)
    {
    }

    // One node: join in everything it depends on.
    method Update(n: nat, ghost init: seq<J>) returns (changed: bool)
      requires Valid() && solved && n < |weights| == |init|
      requires forall m: nat | m < |weights| :: BelowAllBounds(lat, G(), init, m, weights[m])
      modifies this`weights
      ensures Valid() && |weights| == |init| && forall m | 0 <= m < |weights| && m != n :: weights[m] == old(weights)[m]
      ensures Leq(lat, old(weights)[n], weights[n]) && BelowAllBounds(lat, G(), init, n, weights[n])
      ensures Settled(lat, G(), weights, n)
      ensures if changed then lat.rank(old(weights)[n]) < lat.rank(weights[n]) else weights == old(weights)
    {
      hide BelowAllBounds, NetOk, Leq, Lawful;
      Sizes();
      ghost var g := G();
      var start := weights[n];
      weights := weights[n := lat.bottom];
      changed := false;
      var neighs := Graph(|weights|, edges).Succs(n);
      var i := 0;
      LeqRefl(lat, start);
      while i < |neighs|
        invariant 0 <= i <= |neighs| && weights == old(weights)[n := lat.bottom]
        invariant Leq(lat, old(weights)[n], start) && BelowAllBounds(lat, g, init, n, start)
        invariant forall j | 0 <= j < i :: neighs[j] < |weights| && Leq(lat, weights[neighs[j]], start)
        invariant if changed then lat.rank(old(weights)[n]) < lat.rank(start) else start == old(weights)[n]
        modifies {}
      {
        var neigh := neighs[i];
        assert neigh in neighs && g.HasEdge(n, neigh);
        var joined := lat.join(start, weights[neigh]);
        Absorb(lat, start, weights[neigh], old(weights)[n]);
        if neigh != n {
          BoundsStep(lat, g, init, n, neigh, weights[neigh]);
        } else {
          BottomBelow(lat, g, init, n);
        }
        BelowJoin(lat, g, init, n, start, weights[neigh]);
        forall j | 0 <= j < i
          ensures Leq(lat, weights[neighs[j]], joined)
        {
          Absorb(lat, start, weights[neigh], weights[neighs[j]]);
        }
        changed := changed || joined != start;
        start := joined;
        i := i + 1;
      }
      weights := weights[n := start];
      assert weights == old(weights)[n := start];
      KeepsNet(old(Now()), Now());
      forall m: nat | m < |weights| && g.HasEdge(n, m)
        ensures Leq(lat, weights[m], weights[n])
      {
        assert m in neighs;
        LeqRefl(lat, start);
      }
    }

    // Nodes that matter and are not waiting are settled; nothing is above what it must be.
    ghost predicate Progress(wl: WorkList<nat>, init: seq<J>)
      requires |init| == |weights|
      reads this, wl
    {
      && (forall m: nat | m < |weights| :: BelowAllBounds(lat, G(), init, m, weights[m]))
      && (forall m | 0 <= m < |weights| :: Leq(lat, init[m], weights[m]))
      && (forall m: nat | m < |weights| && Reachable(G(), sentinel, m) && m !in wl.mem :: Settled(lat, G(), weights, m))
    }

    method Solve()
      requires Valid()
      modifies this`weights, this`edges, this`solved
      ensures Valid() && solved
      ensures old(solved) ==> Now() == old(Now())
      ensures !old(solved) ==> SolvedFrom(old(Now()), Now())
    {
      hide Lawful, NetOk, BelowAllBounds, JoinOfReached, Slack;
      if solved {
        return;
      }
      solved := true;
      var wl := new WorkList<nat>();
      Populate(wl);
      ghost var init := weights;
      label Queued:
      StartsBelow(init);
      var more := true;
      while more
        invariant Valid() && wl.Valid() && fresh(wl) && |weights| == |init| && G() == old@Queued(G())
        invariant Progress(wl, init) && forall m | m in wl.mem :: m < |weights|
        invariant !more ==> wl.mem == []
        decreases Slack(lat, weights), |wl.mem|, more
        modifies this`weights, wl
      {
        ghost var waiting := wl.mem;
        var next := wl.Pop();
        assert waiting != [] ==> waiting[0] in waiting && forall m | m in waiting[1..] :: m in waiting;
        if next.None? {
          more := false;
        } else {
          Process(wl, next.value, init);
        }
      }
      forall n: nat | n < |weights| && Reachable(G(), sentinel, n)
        ensures JoinOfReached(lat, G(), init, n, weights[n])
      {
        Finished(wl, init, n);
      }
    }

    // A popped node is brought up to date; if it changed, whatever depends on it has to wait again.
    method Process(wl: WorkList<nat>, n: nat, ghost init: seq<J>)
      requires Valid() && solved && wl.Valid() && |weights| == |init| && n < |weights|
      requires forall m | m in wl.mem :: m < |weights|
      requires forall m: nat | m < |weights| :: BelowAllBounds(lat, G(), init, m, weights[m])
      requires forall m | 0 <= m < |weights| :: Leq(lat, init[m], weights[m])
      requires forall m: nat | m < |weights| && Reachable(G(), sentinel, m) && m !in wl.mem && m != n ::
                 Settled(lat, G(), weights, m)
      modifies this`weights, wl
      ensures Valid() && wl.Valid() && |weights| == |init| && Progress(wl, init)
      ensures forall m | m in wl.mem :: m < |weights|
      ensures Slack(lat, weights) < Slack(lat, old(weights)) ||
              (weights == old(weights) && wl.mem == old(wl.mem))
    {
      hide BelowAllBounds, NetOk, Leq, Lawful, Slack, Reachable, Settled;
      Sizes();
      ghost var g := G();
      var changed := Update(n, init);
      LeqTrans(lat, init[n], old(weights)[n], weights[n]);
      if changed {
        SlackDrops(lat, old(weights), n, weights[n]);
        assert weights == old(weights)[n := weights[n]];
        Wake(wl, n);
        forall m: nat | m < |weights| && Reachable(g, sentinel, m) && m !in wl.mem
          ensures Settled(lat, g, weights, m)
        {
          if m != n {
            StillSettled(lat, g, old(weights), weights, m, n);
          }
        }
      }
    }

    // Everything that depends on n has to wait again.
    method Wake(wl: WorkList<nat>, n: nat)
      requires Valid() && wl.Valid() && forall m | m in wl.mem :: m < |weights|
      modifies wl
      ensures wl.Valid() && (forall m | m in wl.mem :: m < |weights|) && forall m | m in old(wl.mem) :: m in wl.mem
      ensures forall m: nat | G().HasEdge(m, n) :: m in wl.mem
    {
      hide NetOk, Lawful, AllIn;
      Sizes();
      var neighs := Graph(|weights|, edges).Preds(n);
      EndsBelow(G(), neighs, n);
      AllInSame(wl.mem);
      var i := 0;
      while i < |neighs|
        invariant 0 <= i <= |neighs| && wl.Valid()
        invariant AllIn(wl.mem, old(wl.mem) + neighs)
        invariant AllIn(old(wl.mem) + neighs[..i], wl.mem)
        modifies wl
      {
        AllInMore(old(wl.mem), wl.mem, neighs, i);
        wl.Insert(neighs[i]);
        i := i + 1;
      }
      AllWoken(G(), old(wl.mem), wl.mem, neighs, n);
    }

    lemma StartsBelow(init: seq<J>)
      requires Valid() && init == weights
      ensures forall m: nat | m < |weights| :: BelowAllBounds(lat, G(), init, m, weights[m])
      ensures forall m | 0 <= m < |weights| :: Leq(lat, init[m], weights[m])
    {
      forall m: nat | m < |weights|
        ensures BelowAllBounds(lat, G(), init, m, weights[m]) && Leq(lat, init[m], weights[m])
      {
        LeqRefl(lat, init[m]);
        ReachSelf(G(), m);
      }
    }

    lemma Finished(wl: WorkList<nat>, init: seq<J>, n: nat)
      requires Valid() && |weights| == |init| && Progress(wl, init) && wl.mem == []
      requires n < |weights| && Reachable(G(), sentinel, n)
      ensures JoinOfReached(lat, G(), init, n, weights[n])
    {
      forall x: nat | x < |weights| && Reachable(G(), n, x)
        ensures Settled(lat, G(), weights, x)
      {
        var p :| PathBetween(G(), p, sentinel, n);
        var q :| PathBetween(G(), q, n, x);
        JoinPaths(G(), p, q, sentinel, n, x);
      }
      FixpointIsJoin(lat, G(), init, weights, n);
    }

    // What the queries have in common a bound for: the sentinel's value, settled first if it is not yet.
    method Root() returns (j: J)
      requires Valid()
      modifies this`weights, this`edges, this`solved
      ensures Valid() && solved && j == weights[0]
      ensures old(solved) ==> Now() == old(Now())
      ensures !old(solved) ==> SolvedFrom(old(Now()), Now())
    {
      Solve();
      Sizes();
      j := weights[sentinel];
    }

    method Query(k: K) returns (j: J)
      requires Valid() && Now().IsQuery(k)
      modifies this`weights, this`edges, this`solved
      ensures Valid() && solved && j == Now().WeightOf(k)
      ensures old(solved) ==> Now() == old(Now())
      ensures !old(solved) ==> SolvedFrom(old(Now()), Now())
    {
      Solve();
      j := weights[nodes[k]];
    }
  }

  // One join step: above its parts, and strictly higher if it is different.
  lemma Absorb<J(!new)>(l: Lattice<J>, start: J, w: J, low: J)
    requires Lawful(l)
    ensures Leq(l, start, l.join(start, w)) && Leq(l, w, l.join(start, w))
    ensures Leq(l, low, start) ==> Leq(l, low, l.join(start, w))
    ensures l.join(start, w) != start ==> l.rank(start) < l.rank(l.join(start, w))
  {
    JoinIsLub(l, start, w, start);
    if Leq(l, low, start) {
      LeqTrans(l, low, start, l.join(start, w));
    }
  }

  lemma BottomBelow<J(!new)>(l: Lattice<J>, g: Graph, init: seq<J>, n: nat)
    requires Lawful(l) && |init| == g.n
    ensures BelowAllBounds(l, g, init, n, l.bottom)
  {
    forall u | Bounds(l, g, init, n, u)
      ensures Leq(l, l.bottom, u)
    {
      LeqRefl(l, u);
    }
  }

  lemma KeepsNet<J(!new), K(!new)>(t: Net<J, K>, t': Net<J, K>)
    requires NetOk(t) && |t'.weights| == |t.weights| && t' == t.(weights := t'.weights)
    ensures NetOk(t')
  {
  }

  lemma StillSettled<J(!new)>(l: Lattice<J>, g: Graph, w: seq<J>, w': seq<J>, m: nat, n: nat)
    requires |w| == |w'| == g.n && m < g.n && m != n && !g.HasEdge(m, n) && Settled(l, g, w, m)
    requires forall x | 0 <= x < g.n && x != n :: w'[x] == w[x]
    ensures Settled(l, g, w', m)
  {
  }

  // Discovered so far, and still to be looked at.
  ghost predicate Searching(g: Graph, s: nat, mem: seq<nat>, stack: seq<nat>) {
    && (s in mem || s in stack)
    && (forall n | n in mem || n in stack :: n < g.n && Reachable(g, s, n))
    && (forall u, v | u in mem && g.HasEdge(u, v) :: v in mem || v in stack)
  }

  lemma SearchStarts(g: Graph, s: nat)
    requires s < g.n
    ensures Searching(g, s, [], [s])
  {
    ReachSelf(g, s);
  }

  lemma SearchPops(g: Graph, s: nat, mem: seq<nat>, stack: seq<nat>)
    requires g.Valid() && Searching(g, s, mem, stack) && stack != []
    ensures var n, rest := stack[|stack| - 1], stack[..|stack| - 1];
            && n < g.n && (forall m | m in mem :: m < g.n)
            && (n in mem ==> Searching(g, s, mem, rest))
            && (n !in mem ==> Searching(g, s, mem + [n], rest + Undiscovered(g.Succs(n), Elements(mem) + {n})))
  {
    var n, rest := stack[|stack| - 1], stack[..|stack| - 1];
    assert n in stack;
    assert forall x | x in stack :: x in rest || x == n;
    assert forall x | x in rest :: x in stack;
    forall v: nat | g.HasEdge(n, v)
      ensures v < g.n && Reachable(g, s, v)
    {
      assert (n, v) in g.edges;
      ReachOn(g, s, n, v);
    }
    var next := Undiscovered(g.Succs(n), Elements(mem) + {n});
    assert forall v | v in next :: g.HasEdge(n, v);
  }

  lemma SearchEnds(g: Graph, s: nat, mem: seq<nat>)
    requires g.Valid() && Searching(g, s, mem, [])
    ensures forall n: nat :: n in mem <==> Reachable(g, s, n)
  {
    forall n: nat | Reachable(g, s, n)
      ensures n in mem
    {
      var p :| PathBetween(g, p, s, n);
      ClosedReach(g, Elements(mem), p, s, n);
    }
  }

  function Undiscovered(s: seq<nat>, seen: set<nat>): (r: seq<nat>)
    ensures forall x :: x in r <==> x in s && x !in seen
  {
    if s == [] then [] else (if s[0] in seen then [] else [s[0]]) + Undiscovered(s[1..], seen)
  }

  // A queue of distinct nodes that misses one is shorter than the number of nodes.
  lemma Room(mem: seq<nat>, n: nat, x: nat)
    requires Distinct(mem) && x !in mem && x < n && forall m | m in mem :: m < n
    ensures |mem| < n
  {
    Pigeonhole(mem, n);
  }
}
