// Depth-first spanning trees with preorder numbers. `end[v]` is one past the last number given
// out below v, so the subtree of v is the interval [num[v], end[v]).
module DfsTrees {
  import opened Graphs
  import opened Dominance

  datatype Tree = Tree(order: seq<nat>, num: seq<nat>, parent: seq<nat>, end: seq<nat>)

  ghost predicate Sized(g: Graph, t: Tree) {
    |t.order| == g.n && |t.num| == g.n && |t.parent| == g.n && |t.end| == g.n
  }

  // num is a bijection onto 0..n-1, with `order` its inverse.
  ghost predicate Numbering(g: Graph, t: Tree)
    requires Sized(g, t)
  {
    && (forall v | 0 <= v < g.n :: t.num[v] < g.n && t.order[t.num[v]] == v)
    && (forall k | 0 <= k < g.n :: t.order[k] < g.n && t.num[t.order[k]] == k)
  }

  ghost predicate IsDfsTree(g: Graph, r: nat, t: Tree) {
    && g.Valid() && Sized(g, t) && Numbering(g, t)
    && r < g.n && t.num[r] == 0
    && (forall v {:trigger t.parent[v]} | 0 <= v < g.n && v != r ::
          && t.parent[v] < g.n && g.HasEdge(t.parent[v], v)
          && t.num[t.parent[v]] < t.num[v] && t.end[v] <= t.end[t.parent[v]])
    && (forall v {:trigger t.end[v]} | 0 <= v < g.n :: t.num[v] < t.end[v] <= g.n)
    && (forall a, b {:trigger t.end[a], t.parent[b]} | 0 <= a < g.n && 0 <= b < g.n && t.num[a] < t.num[b] < t.end[a] ::
          t.num[t.parent[b]] >= t.num[a])
    && (forall u: nat, v: nat | g.HasEdge(u, v) :: t.num[v] < t.end[u])
  }

  // a is an ancestor of b, or b itself.
  ghost predicate Anc(g: Graph, t: Tree, a: nat, b: nat)
    requires Sized(g, t)
  {
    a < g.n && b < g.n && t.num[a] <= t.num[b] < t.end[a]
  }

  // Following parents upwards from b.
  ghost predicate OnChain(g: Graph, r: nat, t: Tree, a: nat, b: nat)
    requires IsDfsTree(g, r, t) && b < g.n
    decreases t.num[b]
  {
    a == b || (b != r && OnChain(g, r, t, a, t.parent[b]))
  }

  // The interval test is the ancestor relation of the parent chain.
  lemma {:induction false} AncIsChain(g: Graph, r: nat, t: Tree, a: nat, b: nat)
    requires IsDfsTree(g, r, t) && a < g.n && b < g.n
    ensures Anc(g, t, a, b) <==> OnChain(g, r, t, a, b)
    decreases t.num[b]
  {
    assert t.num[b] < t.end[b];
    if a != b {
      assert t.order[t.num[a]] == a && t.order[t.num[b]] == b;
      if b != r {
        AncIsChain(g, r, t, a, t.parent[b]);
        if Anc(g, t, a, t.parent[b]) {
          NestedEnd(g, r, t, a, t.parent[b]);
        }
      }
    }
  }

  lemma NestedEnd(g: Graph, r: nat, t: Tree, a: nat, b: nat)
    requires IsDfsTree(g, r, t) && Anc(g, t, a, b)
    ensures t.end[b] <= t.end[a]
    decreases t.num[b]
  {
    if t.num[a] < t.num[b] {
      NestedEnd(g, r, t, a, t.parent[b]);
    } else {
      assert t.order[t.num[a]] == a;
    }
  }

  lemma AncTrans(g: Graph, r: nat, t: Tree, a: nat, b: nat, c: nat)
    requires IsDfsTree(g, r, t) && Anc(g, t, a, b) && Anc(g, t, b, c)
    ensures Anc(g, t, a, c)
  {
    NestedEnd(g, r, t, a, b);
  }

  lemma SameNum(g: Graph, r: nat, t: Tree, a: nat, b: nat)
    requires IsDfsTree(g, r, t) && a < g.n && b < g.n && t.num[a] == t.num[b]
    ensures a == b
  {
    assert t.order[t.num[a]] == a;
  }

  lemma OtherNum(g: Graph, r: nat, t: Tree, a: nat, b: nat)
    requires IsDfsTree(g, r, t) && a < g.n && b < g.n && a != b
    ensures t.num[a] != t.num[b]
  {
    assert t.order[t.num[a]] == a;
  }

  // A path that never goes below its first vertex stays in that vertex's subtree.
  lemma {:induction false} PathStaysBelow(g: Graph, r: nat, t: Tree, p: seq<nat>)
    requires IsDfsTree(g, r, t) && IsPath(g, p)
    requires forall i | 0 <= i < |p| :: t.num[p[0]] <= t.num[p[i]]
    ensures Anc(g, t, p[0], p[|p| - 1])
  {
    if |p| > 1 {
      var x, y := p[|p| - 2], p[|p| - 1];
      PathStaysBelow(g, r, t, p[..|p| - 1]);
      assert g.HasEdge(p[|p| - 2], p[|p| - 2 + 1]);
      assert Anc(g, t, p[0], x);
      NestedEnd(g, r, t, p[0], x);
    }
  }

  // The tree path from an ancestor a down to b.
  lemma {:induction false} TreePath(g: Graph, r: nat, t: Tree, a: nat, b: nat) returns (p: seq<nat>)
    requires IsDfsTree(g, r, t) && Anc(g, t, a, b)
    ensures PathBetween(g, p, a, b)
    ensures forall x | x in p :: Anc(g, t, a, x) && Anc(g, t, x, b)
    decreases t.num[b]
  {
    if t.num[a] == t.num[b] {
      SameNum(g, r, t, a, b);
      p := [a];
    } else {
      var m := t.parent[b];
      var q := TreePath(g, r, t, a, m);
      p := q + [b];
      ExtendPath(g, q, a, m, b);
      forall x | x in p
        ensures Anc(g, t, a, x) && Anc(g, t, x, b)
      {
        if x in q {
          AncTrans(g, r, t, x, m, b);
        }
      }
    }
  }

  lemma RootAnc(g: Graph, r: nat, t: Tree, v: nat)
    requires IsDfsTree(g, r, t) && v < g.n
    ensures Anc(g, t, r, v)
    decreases t.num[v]
  {
    if v != r {
      RootAnc(g, r, t, t.parent[v]);
      AncTrans(g, r, t, r, t.parent[v], v);
    }
  }

  // Dominators are tree ancestors, so they are ordered by number.
  lemma DomIsAnc(g: Graph, r: nat, t: Tree, a: nat, b: nat)
    requires IsDfsTree(g, r, t) && b < g.n && Dom(g, r, a, b)
    ensures Anc(g, t, a, b)
    ensures a != b ==> t.num[a] < t.num[b]
  {
    RootAnc(g, r, t, b);
    var p := TreePath(g, r, t, r, b);
    assert a in p;
    if t.num[a] == t.num[b] {
      SameNum(g, r, t, a, b);
    }
  }

  // A strict dominator of w dominates the tree parent of w.
  lemma DomParent(g: Graph, r: nat, t: Tree, d: nat, w: nat)
    requires IsDfsTree(g, r, t) && w < g.n && w != r && SDom(g, r, d, w)
    ensures Dom(g, r, d, t.parent[w])
  {
    DomPred(g, r, d, t.parent[w], w);
  }
}
