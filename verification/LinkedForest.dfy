// The forest src/dom.rs links while it computes semidominators, and the tables it fills in.
module LinkedForest {
  import opened Graphs
  import D = Dominance
  import opened DfsTrees
  import opened DomTables
  import opened SemiNca
  import opened DfsGrowth

  // ---- The linked forest used while computing semidominators ----

  ghost predicate Agrees(g: Graph, t: Tree, info: seq<NodeInfo>) {
    && Sized(g, t) && |info| == g.n
    && (forall v {:trigger info[v].dfsnum} | 0 <= v < g.n :: info[v].dfsnum == t.num[v])
    && (forall v {:trigger info[v].parent} | 0 <= v < g.n :: info[v].parent == t.parent[v])
  }

  ghost predicate OnlyAncestors(info0: seq<NodeInfo>, info1: seq<NodeInfo>) {
    && |info0| == |info1|
    && (forall v {:trigger info1[v]} | 0 <= v < |info0| :: info1[v] == info0[v].(ancestor := info1[v].ancestor))
  }

  lemma NumsAgree(g: Graph, t: Tree, info: seq<NodeInfo>)
    requires Agrees(g, t, info)
    ensures Sized(g, t) && |info| == g.n && forall v | 0 <= v < g.n :: info[v].dfsnum == t.num[v]
  {
  }

  lemma SameAncestors(info: seq<NodeInfo>)
    ensures OnlyAncestors(info, info)
  {
  }

  lemma NewAncestor(g: Graph, t: Tree, info0: seq<NodeInfo>, info1: seq<NodeInfo>, v: nat, a: nat)
    requires OnlyAncestors(info0, info1) && Agrees(g, t, info1) && v < |info1|
    ensures var info2 := info1[v := info1[v].(ancestor := a)];
            OnlyAncestors(info0, info2) && Agrees(g, t, info2)
  {
  }

  // Nodes numbered above k are linked to an ancestor; the others are roots.
  ghost predicate Forest(g: Graph, t: Tree, info: seq<NodeInfo>, best: seq<nat>, k: nat) {
    && Sized(g, t) && |info| == |best| == g.n && g.n <= UNINIT
    && (forall v {:trigger ForestNode(g, t, info, best, k, v)} | 0 <= v < g.n && t.num[v] > k ::
          ForestNode(g, t, info, best, k, v))
    && (forall v {:trigger info[v].ancestor} | 0 <= v < g.n && t.num[v] <= k :: info[v].ancestor == UNINIT)
  }

  // `best` of a linked node has the lowest semidominator on the way up to, and excluding, its ancestor.
  ghost predicate ForestNode(g: Graph, t: Tree, info: seq<NodeInfo>, best: seq<nat>, k: nat, v: nat)
    requires Sized(g, t) && |info| == |best| == g.n && v < g.n
  {
    var a, b := info[v].ancestor, best[v];
    && info[v].sdom < g.n && a != v && Anc(g, t, a, v)
    && Anc(g, t, b, v) && t.num[b] > t.num[a] && info[b].sdom < g.n
    && (forall u: nat {:trigger Anc(g, t, u, v)} | Anc(g, t, u, v) && t.num[u] > t.num[a] ::
          t.num[u] > k && info[u].sdom < g.n && t.num[info[b].sdom] <= t.num[info[u].sdom])
  }

  ghost predicate SdomsKnown(g: Graph, t: Tree, info: seq<NodeInfo>, k: nat)
    requires Sized(g, t) && |info| == g.n
  {
    forall u {:trigger info[u].sdom} | 0 <= u < g.n && t.num[u] > k :: info[u].sdom < g.n
  }

  lemma LinkedTo(g: Graph, r: nat, t: Tree, info: seq<NodeInfo>, best: seq<nat>, k: nat, v: nat)
    requires IsDfsTree(g, r, t) && Forest(g, t, info, best, k) && v < g.n && t.num[v] > k
    ensures Anc(g, t, info[v].ancestor, v) && t.num[info[v].ancestor] < t.num[v]
    ensures info[info[v].ancestor].ancestor != UNINIT <==> t.num[info[v].ancestor] > k
    ensures best[v] < g.n && info[best[v]].sdom < g.n
  {
    assert ForestNode(g, t, info, best, k, v);
    var p := info[v].ancestor;
    OtherNum(g, r, t, p, v);
    if t.num[p] > k {
      assert ForestNode(g, t, info, best, k, p);
    }
  }

  // The reference: walk parent by parent up to the first node numbered k or below.
  ghost function WalkMin(g: Graph, r: nat, t: Tree, info: seq<NodeInfo>, k: nat, v: nat): nat
    requires IsDfsTree(g, r, t) && |info| == g.n && v < g.n && t.num[v] > k
    requires SdomsKnown(g, t, info, k)
    decreases t.num[v]
  {
    var here := t.num[info[v].sdom];
    if t.num[t.parent[v]] <= k then here
    else
      var above := WalkMin(g, r, t, info, k, t.parent[v]);
      if above < here then above else here
  }

  lemma {:induction false} WalkMinLower(g: Graph, r: nat, t: Tree, info: seq<NodeInfo>, k: nat, v: nat, x: nat)
    requires IsDfsTree(g, r, t) && |info| == g.n && v < g.n && t.num[v] > k
    requires SdomsKnown(g, t, info, k)
    requires forall u: nat | Anc(g, t, u, v) && t.num[u] > k :: x <= t.num[info[u].sdom]
    ensures x <= WalkMin(g, r, t, info, k, v)
    decreases t.num[v]
  {
    assert Anc(g, t, v, v);
    var p := t.parent[v];
    if t.num[p] > k {
      forall u: nat | Anc(g, t, u, p) && t.num[u] > k
        ensures x <= t.num[info[u].sdom]
      {
        AncTrans(g, r, t, u, p, v);
      }
      WalkMinLower(g, r, t, info, k, p, x);
    }
  }

  lemma {:induction false} WalkMinUpper(g: Graph, r: nat, t: Tree, info: seq<NodeInfo>, k: nat, v: nat, u: nat)
    requires IsDfsTree(g, r, t) && |info| == g.n && v < g.n && t.num[v] > k
    requires SdomsKnown(g, t, info, k)
    requires Anc(g, t, u, v) && t.num[u] > k
    ensures WalkMin(g, r, t, info, k, v) <= t.num[info[u].sdom]
    decreases t.num[v]
  {
    if u != v {
      OtherNum(g, r, t, u, v);
      WalkMinUpper(g, r, t, info, k, t.parent[v], u);
    }
  }

  // The best node of a fully compressed node carries the walk's minimum.
  lemma WalkMinIs(g: Graph, r: nat, t: Tree, info: seq<NodeInfo>, k: nat, v: nat, b: nat)
    requires IsDfsTree(g, r, t) && |info| == g.n && v < g.n && t.num[v] > k
    requires SdomsKnown(g, t, info, k)
    requires Anc(g, t, b, v) && t.num[b] > k
    requires forall u: nat | Anc(g, t, u, v) && t.num[u] > k :: t.num[info[b].sdom] <= t.num[info[u].sdom]
    ensures t.num[info[b].sdom] == WalkMin(g, r, t, info, k, v)
  {
    WalkMinLower(g, r, t, info, k, v, t.num[info[b].sdom]);
    WalkMinUpper(g, r, t, info, k, v, b);
  }

  lemma EvalResult(g: Graph, r: nat, t: Tree, info: seq<NodeInfo>, best: seq<nat>, k: nat, v: nat)
    requires IsDfsTree(g, r, t) && Forest(g, t, info, best, k) && v < g.n && t.num[v] > k
    requires info[v].ancestor < g.n && t.num[info[v].ancestor] <= k
    ensures SdomsKnown(g, t, info, k)
    ensures Anc(g, t, best[v], v) && t.num[best[v]] > k && info[best[v]].sdom < g.n
    ensures t.num[info[best[v]].sdom] == WalkMin(g, r, t, info, k, v)
  {
    forall u | 0 <= u < g.n && t.num[u] > k
      ensures info[u].sdom < g.n
    {
      assert ForestNode(g, t, info, best, k, u);
    }
    assert ForestNode(g, t, info, best, k, v);
    WalkMinIs(g, r, t, info, k, v, best[v]);
  }

  lemma ForestOfRoots(g: Graph, r: nat, t: Tree, info: seq<NodeInfo>, best: seq<nat>)
    requires IsDfsTree(g, r, t) && |info| == |best| == g.n && g.n <= UNINIT
    requires forall v | 0 <= v < g.n :: info[v].ancestor == UNINIT
    ensures g.n > 0 && Forest(g, t, info, best, g.n - 1) && SemisKnown(g, t, info, g.n - 1)
  {
  }

  // A linked node keeps its facts when its own link and the semidominators of linked nodes stay.
  lemma ForestNodeKept(g: Graph, t: Tree, info0: seq<NodeInfo>, best0: seq<nat>, info1: seq<NodeInfo>,
                       best1: seq<nat>, k0: nat, k1: nat, v: nat)
    requires Sized(g, t) && |info0| == |best0| == |info1| == |best1| == g.n && v < g.n && k1 <= k0
    requires ForestNode(g, t, info0, best0, k0, v)
    requires info1[v].ancestor == info0[v].ancestor && best1[v] == best0[v] && t.num[v] > k0
    requires forall u | 0 <= u < g.n && t.num[u] > k0 :: info1[u].sdom == info0[u].sdom
    ensures ForestNode(g, t, info1, best1, k1, v)
  {
    assert t.num[best0[v]] > k0;
  }

  // Path compression keeps the forest invariant.
  lemma Compressed(g: Graph, r: nat, t: Tree, info0: seq<NodeInfo>, best0: seq<nat>, info: seq<NodeInfo>,
                   best: seq<nat>, k: nat, node: nat, p: nat, b: nat)
    requires IsDfsTree(g, r, t) && Forest(g, t, info0, best0, k)
    requires node < g.n && t.num[node] > k && p == info0[node].ancestor
    requires p < g.n && t.num[p] > k && b == best0[p]
    requires info == info0[node := info0[node].(ancestor := info0[p].ancestor)]
    requires b < g.n && best0[node] < g.n && info[b].sdom < g.n && info[best0[node]].sdom < g.n
    requires best == if t.num[info[b].sdom] < t.num[info[best0[node]].sdom] then best0[node := b] else best0
    ensures Forest(g, t, info, best, k)
  {
    hide IsDfsTree, ForestNode, Anc;
    assert ForestNode(g, t, info0, best0, k, node) && ForestNode(g, t, info0, best0, k, p);
    forall v | 0 <= v < g.n && t.num[v] > k
      ensures ForestNode(g, t, info, best, k, v)
    {
      if v != node {
        assert ForestNode(g, t, info0, best0, k, v);
        ForestNodeKept(g, t, info0, best0, info, best, k, k, v);
      } else {
        CompressedNode(g, r, t, info0, best0, info, best, k, node, p, b);
      }
    }
  }

  // The node itself: its new interval is its old one and its old ancestor's.
  lemma CompressedNode(g: Graph, r: nat, t: Tree, info0: seq<NodeInfo>, best0: seq<nat>, info: seq<NodeInfo>,
                       best: seq<nat>, k: nat, node: nat, p: nat, b: nat)
    requires IsDfsTree(g, r, t) && Sized(g, t) && |info0| == |best0| == |info| == |best| == g.n
    requires node < g.n && p == info0[node].ancestor && p < g.n && b == best0[p]
    requires ForestNode(g, t, info0, best0, k, node) && ForestNode(g, t, info0, best0, k, p)
    requires info == info0[node := info0[node].(ancestor := info0[p].ancestor)]
    requires b < g.n && best0[node] < g.n && info[b].sdom < g.n && info[best0[node]].sdom < g.n
    requires best == if t.num[info[b].sdom] < t.num[info[best0[node]].sdom] then best0[node := b] else best0
    ensures ForestNode(g, t, info, best, k, node)
  {
    hide IsDfsTree;
    var a := info0[p].ancestor;
    AncTrans(g, r, t, b, p, node);
    AncTrans(g, r, t, a, p, node);
    OtherNum(g, r, t, p, node);
    forall u: nat | Anc(g, t, u, node) && t.num[u] > t.num[a]
      ensures t.num[u] > k && info[u].sdom < g.n && t.num[info[best[node]].sdom] <= t.num[info[u].sdom]
    {
      if t.num[u] <= t.num[p] {
        assert Anc(g, t, u, p);
      }
    }
  }

  // Linking the node numbered i to its parent lowers the threshold to i - 1.
  lemma Linked(g: Graph, r: nat, t: Tree, info0: seq<NodeInfo>, best0: seq<nat>, info: seq<NodeInfo>,
               best: seq<nat>, i: nat, n: nat, semi: nat)
    requires IsDfsTree(g, r, t) && Forest(g, t, info0, best0, i) && n < g.n && t.num[n] == i > 0 && semi < g.n
    requires SemisKnown(g, t, info0, i) && IsSemi(g, t, semi, n)
    requires info == info0[n := info0[n].(sdom := semi, ancestor := t.parent[n])] && best == best0[n := n]
    ensures Forest(g, t, info, best, i - 1) && SemisKnown(g, t, info, i - 1)
  {
    hide IsDfsTree, ForestNode, IsSemi;
    forall v | 0 <= v < g.n && t.num[v] > i - 1
      ensures ForestNode(g, t, info, best, i - 1, v)
      ensures info[v].sdom < g.n && IsSemi(g, t, info[v].sdom, v)
    {
      if t.num[v] > i {
        assert v != n && info[v].sdom == info0[v].sdom;
        ForestNodeKept(g, t, info0, best0, info, best, i, i - 1, v);
      } else {
        SameNum(g, r, t, v, n);
        NewlyLinked(g, r, t, info, best, n);
      }
    }
    assert forall v | 0 <= v < g.n && t.num[v] <= i - 1 :: info[v].ancestor == info0[v].ancestor;
  }

  lemma NewlyLinked(g: Graph, r: nat, t: Tree, info: seq<NodeInfo>, best: seq<nat>, n: nat)
    requires IsDfsTree(g, r, t) && |info| == |best| == g.n && n < g.n && t.num[n] > 0
    requires info[n].ancestor == t.parent[n] && info[n].sdom < g.n && best[n] == n
    ensures ForestNode(g, t, info, best, t.num[n] - 1, n)
  {
    assert n != r && t.parent[n] < g.n;
    forall u: nat | Anc(g, t, u, n) && t.num[u] > t.num[t.parent[n]]
      ensures u == n
    {
      if u != n {
        OtherNum(g, r, t, u, n);
        assert false;
      }
    }
  }

  // The candidate of one predecessor bounds everything that predecessor offers.
  lemma CandidateCovers(g: Graph, r: nat, t: Tree, info: seq<NodeInfo>, candidate: nat, v: nat, n: nat)
    requires IsDfsTree(g, r, t) && |info| == g.n && n < g.n && v < g.n && candidate < g.n
    requires t.num[v] > t.num[n] ==>
               SdomsKnown(g, t, info, t.num[n]) && t.num[candidate] == WalkMin(g, r, t, info, t.num[n], v)
    requires t.num[v] <= t.num[n] ==> candidate == v
    ensures BelowCandidate(g, t, SdomOf(info), candidate, v, n)
  {
    if t.num[v] > t.num[n] {
      forall u: nat | Anc(g, t, u, v) && t.num[n] < t.num[u]
        ensures SdomOf(info)(u) < g.n && t.num[candidate] <= t.num[SdomOf(info)(u)]
      {
        WalkMinUpper(g, r, t, info, t.num[n], v, u);
      }
    }
  }

  // Nodes numbered below i have their immediate dominator, the others still their tree parent.
  ghost predicate IdomsUpTo(g: Graph, r: nat, t: Tree, info: seq<NodeInfo>, i: nat)
    requires Sized(g, t) && |info| == g.n
  {
    forall v {:trigger info[v].idom} | 0 <= v < g.n && v != r ::
      if t.num[v] < i then info[v].idom < g.n && D.IsIdom(g, r, info[v].idom, v)
      else info[v].idom == t.parent[v]
  }

  // The walk up from n's parent has not passed a dominator of the parent that is high enough.
  ghost predicate WalkKeeps(g: Graph, r: nat, t: Tree, c: nat, s: nat, n: nat)
    requires Sized(g, t) && s < g.n && n < g.n
  {
    forall d: nat | D.Dom(g, r, d, t.parent[n]) && d < g.n && t.num[d] <= t.num[s] :: D.Dom(g, r, d, c)
  }

  lemma WalkUp(g: Graph, r: nat, t: Tree, info: seq<NodeInfo>, i: nat, c: nat, s: nat, n: nat)
    requires IsDfsTree(g, r, t) && |info| == g.n && IdomsUpTo(g, r, t, info, i)
    requires n < g.n && n != r && t.num[n] == i && s < g.n && c < g.n
    requires D.Dom(g, r, c, t.parent[n]) && WalkKeeps(g, r, t, c, s, n) && t.num[c] > t.num[s]
    ensures info[c].idom < g.n && t.num[info[c].idom] < t.num[c]
    ensures D.Dom(g, r, info[c].idom, t.parent[n]) && WalkKeeps(g, r, t, info[c].idom, s, n)
  {
    ParentLower(g, r, t, n);
    DomIsAnc(g, r, t, c, t.parent[n]);
    var e := info[c].idom;
    DomIsAnc(g, r, t, e, c);
    D.DomTrans(g, r, e, c, t.parent[n]);
  }

  lemma IdomFound(g: Graph, r: nat, t: Tree, info: seq<NodeInfo>, i: nat, n: nat, d: nat)
    requires IsDfsTree(g, r, t) && Sized(g, t) && |info| == g.n && IdomsUpTo(g, r, t, info, i)
    requires n < g.n && n != r && t.num[n] == i && d < g.n && D.IsIdom(g, r, d, n)
    ensures IdomsUpTo(g, r, t, info[n := info[n].(idom := d)], i + 1)
  {
    hide IsDfsTree, D.IsIdom;
    var info1 := info[n := info[n].(idom := d)];
    forall v | 0 <= v < g.n && v != r
      ensures if t.num[v] < i + 1 then info1[v].idom < g.n && D.IsIdom(g, r, info1[v].idom, v)
              else info1[v].idom == t.parent[v]
    {
      if v != n {
        OtherNum(g, r, t, v, n);
        assert info1[v].idom == info[v].idom;
      }
    }
  }

  lemma Provisional(g: Graph, r: nat, t: Tree, info0: seq<NodeInfo>, info: seq<NodeInfo>)
    requires IsDfsTree(g, r, t) && Agrees(g, t, info0) && |info| == g.n
    requires forall v {:trigger info0[v].idom} | 0 <= v < g.n && v != r :: info0[v].idom == info0[v].parent
    requires forall v {:trigger info[v].idom} | 0 <= v < g.n :: info[v].idom == info0[v].idom
    ensures IdomsUpTo(g, r, t, info, 1)
  {
    forall v | 0 <= v < g.n && v != r
      ensures t.num[v] >= 1 && info[v].idom == t.parent[v]
    {
      OtherNum(g, r, t, v, r);
      assert info0[v].idom == info0[v].parent;
    }
  }

  lemma OrderBounds(g: Graph, r: nat, t: Tree)
    requires IsDfsTree(g, r, t)
    ensures g.n > 0 && |t.order| == g.n
  {
  }

  // A lower choice, and a table that differs in links only, keep what was established.
  lemma CandidateKept(g: Graph, t: Tree, info0: seq<NodeInfo>, info: seq<NodeInfo>, semi0: nat, semi: nat, v: nat,
                      n: nat)
    requires Sized(g, t) && semi0 < g.n && semi < g.n && v < g.n && n < g.n && |info| == g.n
    requires OnlyAncestors(info0, info) && t.num[semi] <= t.num[semi0]
    requires BelowCandidate(g, t, SdomOf(info0), semi0, v, n)
    ensures BelowCandidate(g, t, SdomOf(info), semi, v, n)
  {
    forall u: nat
      ensures SdomOf(info)(u) == SdomOf(info0)(u)
    {
      if u < |info| {
        assert info[u] == info0[u].(ancestor := info[u].ancestor);
      }
    }
  }

  ghost predicate SemisKnown(g: Graph, t: Tree, info: seq<NodeInfo>, k: nat) {
    && Sized(g, t) && |info| == g.n
    && (forall v {:trigger info[v].sdom} | 0 <= v < g.n && t.num[v] > k ::
          info[v].sdom < g.n && IsSemi(g, t, info[v].sdom, v))
  }

  lemma KeptSemis(g: Graph, t: Tree, info0: seq<NodeInfo>, info: seq<NodeInfo>, k: nat)
    requires SemisKnown(g, t, info0, k) && OnlyAncestors(info0, info)
    ensures SemisKnown(g, t, info, k)
  {
    forall v | 0 <= v < g.n && t.num[v] > k
      ensures info[v].sdom < g.n && IsSemi(g, t, info[v].sdom, v)
    {
      assert info[v].sdom == info0[v].sdom;
    }
  }

  // s is the source of some semipath into n.
  ghost predicate SemiSource(g: Graph, t: Tree, s: nat, n: nat)
    requires Sized(g, t) && n < g.n
  {
    exists p :: SemiPath(g, t, p, n) && p[0] == s
  }

  ghost predicate CandidatesTaken(g: Graph, t: Tree, info: seq<NodeInfo>, semi: nat, preds: seq<nat>, j: nat, n: nat)
    requires Sized(g, t) && semi < g.n && n < g.n && j <= |preds|
  {
    forall m | 0 <= m < j :: preds[m] < g.n && BelowCandidate(g, t, SdomOf(info), semi, preds[m], n)
  }

  lemma ParentLower(g: Graph, r: nat, t: Tree, n: nat)
    requires IsDfsTree(g, r, t) && n < g.n && n != r
    ensures t.parent[n] < g.n && t.num[t.parent[n]] < t.num[n] && SemiSource(g, t, t.parent[n], n)
  {
    ParentSemiPath(g, r, t, n);
    assert [t.parent[n], n][0] == t.parent[n];
  }

  lemma EdgeNodes(g: Graph, r: nat, t: Tree, v: nat, n: nat)
    requires IsDfsTree(g, r, t) && g.HasEdge(v, n)
    ensures v < g.n && n < g.n && SemiSource(g, t, v, n)
  {
    EdgeSemiPath(g, r, t, v, n);
    assert [v, n][0] == v;
  }

  lemma LongSource(g: Graph, r: nat, t: Tree, info: seq<NodeInfo>, i: nat, u: nat, v: nat, n: nat)
    requires IsDfsTree(g, r, t) && SemisKnown(g, t, info, i) && g.HasEdge(v, n)
    requires Anc(g, t, u, v) && n < g.n && t.num[n] == i < t.num[u]
    ensures SemiSource(g, t, info[u].sdom, n)
  {
    LongSemiPath(g, r, t, info[u].sdom, u, v, n);
  }

  lemma OrderedNode(g: Graph, r: nat, t: Tree, i: nat)
    requires IsDfsTree(g, r, t) && 0 < i < g.n
    ensures t.order[i] < g.n && t.num[t.order[i]] == i && t.order[i] != r
  {
  }

  lemma TakeCandidate(g: Graph, r: nat, t: Tree, info0: seq<NodeInfo>, info: seq<NodeInfo>, semi0: nat, semi: nat,
                      candidate: nat, preds: seq<nat>, j: nat, n: nat)
    requires IsDfsTree(g, r, t) && |info| == g.n && n < g.n && j < |preds| && preds[j] < g.n
    requires semi0 < g.n && candidate < g.n && OnlyAncestors(info0, info)
    requires semi == if t.num[candidate] < t.num[semi0] then candidate else semi0
    requires CandidatesTaken(g, t, info0, semi0, preds, j, n)
    requires t.num[preds[j]] > t.num[n] ==>
               SdomsKnown(g, t, info, t.num[n]) && t.num[candidate] == WalkMin(g, r, t, info, t.num[n], preds[j])
    requires t.num[preds[j]] <= t.num[n] ==> candidate == preds[j]
    ensures CandidatesTaken(g, t, info, semi, preds, j + 1, n)
  {
    hide BelowCandidate, WalkMin, SdomsKnown, SdomOf;
    CandidateCovers(g, r, t, info, candidate, preds[j], n);
    CandidateKept(g, t, info, info, candidate, semi, preds[j], n);
    forall m | 0 <= m < j
      ensures preds[m] < g.n && BelowCandidate(g, t, SdomOf(info), semi, preds[m], n)
    {
      CandidateKept(g, t, info0, info, semi0, semi, preds[m], n);
    }
  }

  lemma AllTaken(g: Graph, r: nat, t: Tree, info: seq<NodeInfo>, semi: nat, preds: seq<nat>, n: nat)
    requires IsDfsTree(g, r, t) && n < g.n && n != r && SemisKnown(g, t, info, t.num[n])
    requires semi < g.n && t.num[semi] < t.num[n] && SemiSource(g, t, semi, n)
    requires forall v: nat | g.HasEdge(v, n) :: v in preds
    requires CandidatesTaken(g, t, info, semi, preds, |preds|, n)
    ensures IsSemi(g, t, semi, n)
  {
    SemiFromCandidates(g, r, t, SdomOf(info), semi, n);
  }

  function SdomOf(info: seq<NodeInfo>): nat -> nat {
    (u: nat) => if u < |info| then info[u].sdom else UNINIT
  }

  // ---- Tables of immediate dominators ----

  function IdomsOf(info: seq<NodeInfo>): (r: seq<nat>)
    ensures |r| == |info| && forall v | 0 <= v < |info| :: r[v] == info[v].idom
  {
    seq(|info|, v requires 0 <= v < |info| => info[v].idom)
  }

  lemma TableDone(g: Graph, r: nat, t: Tree, info: seq<NodeInfo>)
    requires IsDfsTree(g, r, t) && |info| == g.n <= UNINIT && info[r].idom == UNINIT
    requires IdomsUpTo(g, r, t, info, g.n)
    ensures IsIdomTable(g, r, IdomsOf(info))
  {
    hide D.IsIdom;
    var idom := IdomsOf(info);
    forall v | 0 <= v < g.n && v != r
      ensures idom[v] < g.n && D.IsIdom(g, r, idom[v], v)
    {
      assert idom[v] == info[v].idom && t.num[v] < g.n;
    }
  }
}
