// Depth-first numbering while it is under way: what numbering one more node keeps, and the tree it ends in.
module DfsGrowth {
  import opened Graphs
  import opened DfsTrees
  import opened DomTables

  datatype NodeInfo = NodeInfo(dfsnum: nat, idom: nat, sdom: nat, parent: nat, ancestor: nat) {
    predicate Seen() { dfsnum != UNINIT }
  }

  const DEFAULT_INFO := NodeInfo(UNINIT, UNINIT, UNINIT, UNINIT, UNINIT)

  function Nums(info: seq<NodeInfo>): (r: seq<nat>)
    ensures |r| == |info| && forall v | 0 <= v < |info| :: r[v] == info[v].dfsnum
  {
    seq(|info|, v requires 0 <= v < |info| => info[v].dfsnum)
  }

  function Parents(info: seq<NodeInfo>): (r: seq<nat>)
    ensures |r| == |info| && forall v | 0 <= v < |info| :: r[v] == info[v].parent
  {
    seq(|info|, v requires 0 <= v < |info| => info[v].parent)
  }

  // The spanning tree recorded in the node table.
  function TreeOf(info: seq<NodeInfo>, dfs: seq<nat>, end: seq<nat>): Tree {
    Tree(dfs, Nums(info), Parents(info), end)
  }

  // `dfs` lists the nodes seen so far, in the order of their numbers.
  ghost predicate Numbered(n: nat, info: seq<NodeInfo>, dfs: seq<nat>) {
    && n <= UNINIT && |info| == n && |dfs| <= n
    && (forall k | 0 <= k < |dfs| :: dfs[k] < n && info[dfs[k]].dfsnum == k)
    && (forall v | 0 <= v < n && info[v].Seen() :: info[v].dfsnum < |dfs| && dfs[info[v].dfsnum] == v)
  }

  // The subtree facts about the nodes numbered base+1 .. hi-1, which lie below the node numbered base.
  ghost predicate Grown(g: Graph, info: seq<NodeInfo>, dfs: seq<nat>, end: seq<nat>, base: nat)
    requires Numbered(g.n, info, dfs) && |end| == g.n
  {
    forall v | 0 <= v < g.n && base < info[v].dfsnum < |dfs| ::
      && GrownNode(g, info, dfs, end, base, v)
      && GrownBelow(g, info, end, v)
  }

  ghost predicate ParentAtLeast(info: seq<NodeInfo>, b: nat, k: nat)
    requires b < |info|
  {
    info[b].parent < |info| && info[info[b].parent].dfsnum >= k
  }

  ghost predicate GrownNode(g: Graph, info: seq<NodeInfo>, dfs: seq<nat>, end: seq<nat>, base: nat, v: nat)
    requires Numbered(g.n, info, dfs) && |end| == g.n && v < g.n
  {
    var p := info[v].parent;
    && p < g.n && g.HasEdge(p, v)
    && base <= info[p].dfsnum < info[v].dfsnum
    && (base < info[p].dfsnum ==> end[v] <= end[p])
    && info[v].dfsnum < end[v] <= |dfs|
    && info[v].idom == p && info[v].sdom == UNINIT && info[v].ancestor == UNINIT
  }

  // Edges out of v lead to numbers below end[v], and what is numbered below v hangs below v.
  ghost predicate GrownBelow(g: Graph, info: seq<NodeInfo>, end: seq<nat>, v: nat)
    requires |info| == |end| == g.n && v < g.n
  {
    && (forall x | 0 <= x < g.n && g.HasEdge(v, x) :: info[x].Seen() && info[x].dfsnum < end[v])
    && (forall b | 0 <= b < g.n && info[v].dfsnum < info[b].dfsnum < end[v] ::
          ParentAtLeast(info, b, info[v].dfsnum))
  }

  // Nodes seen before stay as they were.
  ghost predicate Kept(n: nat, info0: seq<NodeInfo>, end0: seq<nat>, info1: seq<NodeInfo>, end1: seq<nat>) {
    && |info0| == |info1| == n && |end0| == |end1| == n
    && (forall v | 0 <= v < n && info0[v].Seen() :: info1[v] == info0[v] && end1[v] == end0[v])
  }

  // ---- Numbering one more node ----

  // While some node is unseen, fewer than n nodes are numbered.
  lemma SeenFewer(n: nat, info: seq<NodeInfo>, dfs: seq<nat>, v: nat)
    requires Numbered(n, info, dfs) && v < n && !info[v].Seen()
    ensures |dfs| < n
  {
    forall x | x in dfs + [v]
      ensures x < n
    {
    }
    Pigeonhole(dfs + [v], n);
  }

  lemma AllSeen(n: nat, info: seq<NodeInfo>, dfs: seq<nat>)
    requires Numbered(n, info, dfs) && |dfs| == n
    ensures forall v | 0 <= v < n :: info[v].Seen()
  {
    forall v | 0 <= v < n
      ensures info[v].Seen()
    {
      if !info[v].Seen() {
        SeenFewer(n, info, dfs, v);
        assert false;
      }
    }
  }

  lemma OpenNode(g: Graph, info: seq<NodeInfo>, dfs: seq<nat>, end: seq<nat>, cur: nat, entry: NodeInfo)
    requires Numbered(g.n, info, dfs) && |end| == g.n && |dfs| < g.n
    requires cur < g.n && !info[cur].Seen() && entry.dfsnum == |dfs|
    ensures Numbered(g.n, info[cur := entry], dfs + [cur])
    ensures Kept(g.n, info, end, info[cur := entry], end)
    ensures Grown(g, info[cur := entry], dfs + [cur], end, |dfs|)
  {
    var i1, d1 := info[cur := entry], dfs + [cur];
    forall v | 0 <= v < g.n && i1[v].Seen()
      ensures i1[v].dfsnum < |d1| && d1[i1[v].dfsnum] == v
    {
      assert v == cur || (info[v].Seen() && dfs[info[v].dfsnum] == v);
    }
  }

  lemma CloseNode(g: Graph, info: seq<NodeInfo>, dfs: seq<nat>, end: seq<nat>, base: nat, cur: nat)
    requires Numbered(g.n, info, dfs) && |end| == g.n
    requires cur < g.n && info[cur].dfsnum == base < |dfs| && Grown(g, info, dfs, end, base)
    ensures Grown(g, info, dfs, end[cur := |dfs|], base)
  {
    var e1 := end[cur := |dfs|];
    forall v | 0 <= v < g.n && base < info[v].dfsnum < |dfs|
      ensures GrownNode(g, info, dfs, e1, base, v) && GrownBelow(g, info, e1, v)
    {
      assert GrownNode(g, info, dfs, end, base, v) && GrownBelow(g, info, end, v);
    }
  }

  // What the state looks like right after visiting child c of cur.
  ghost predicate Visited(g: Graph, info0: seq<NodeInfo>, dfs0: seq<nat>, end0: seq<nat>,
                          info1: seq<NodeInfo>, dfs1: seq<nat>, end1: seq<nat>, base: nat, cur: nat, c: nat)
  {
    && g.Valid() && cur < g.n && c < g.n && g.HasEdge(cur, c)
    && Numbered(g.n, info0, dfs0) && Kept(g.n, info0, end0, info1, end1) && Numbered(g.n, info1, dfs1)
    && dfs0 < dfs1 && dfs1[|dfs0|] == c
    && info0[cur].dfsnum == base < |dfs0| && !info0[c].Seen()
    && info1[c] == NodeInfo(|dfs0|, cur, UNINIT, cur, UNINIT) && end1[c] == |dfs1|
    && (forall x | 0 <= x < g.n && g.HasEdge(c, x) :: info1[x].Seen())
    && Grown(g, info0, dfs0, end0, base) && Grown(g, info1, dfs1, end1, |dfs0|)
  }

  lemma GrowOld(g: Graph, info0: seq<NodeInfo>, dfs0: seq<nat>, end0: seq<nat>,
                info1: seq<NodeInfo>, dfs1: seq<nat>, end1: seq<nat>, base: nat, cur: nat, c: nat, v: nat)
    requires Visited(g, info0, dfs0, end0, info1, dfs1, end1, base, cur, c)
    requires v < g.n && base < info1[v].dfsnum < |dfs0|
    ensures GrownNode(g, info1, dfs1, end1, base, v) && GrownBelow(g, info1, end1, v)
  {
    hide Grown;
    assert dfs1[info1[v].dfsnum] == v == dfs0[info1[v].dfsnum];
    GrownAt(g, info0, dfs0, end0, base, v);
    forall b | 0 <= b < g.n && info1[v].dfsnum < info1[b].dfsnum < end1[v]
      ensures ParentAtLeast(info1, b, info1[v].dfsnum)
    {
      assert dfs1[info1[b].dfsnum] == b == dfs0[info1[b].dfsnum];
      assert ParentAtLeast(info0, b, info0[v].dfsnum);
      GrownAt(g, info0, dfs0, end0, base, b);
    }
  }

  lemma GrowNew(g: Graph, info0: seq<NodeInfo>, dfs0: seq<nat>, end0: seq<nat>,
                info1: seq<NodeInfo>, dfs1: seq<nat>, end1: seq<nat>, base: nat, cur: nat, c: nat, v: nat)
    requires Visited(g, info0, dfs0, end0, info1, dfs1, end1, base, cur, c)
    requires v < g.n && |dfs0| <= info1[v].dfsnum < |dfs1|
    ensures GrownNode(g, info1, dfs1, end1, base, v) && GrownBelow(g, info1, end1, v)
  {
    hide Grown;
    assert dfs1[info1[v].dfsnum] == v;
    GrownAt(g, info1, dfs1, end1, |dfs0|, v);
    if v == c {
      forall b | 0 <= b < g.n && info1[v].dfsnum < info1[b].dfsnum < end1[v]
        ensures ParentAtLeast(info1, b, info1[v].dfsnum)
      {
        GrownAt(g, info1, dfs1, end1, |dfs0|, b);
      }
    } else {
      assert dfs1[info1[info1[v].parent].dfsnum] == info1[v].parent;
    }
  }

  lemma GrownAt(g: Graph, info: seq<NodeInfo>, dfs: seq<nat>, end: seq<nat>, base: nat, v: nat)
    requires Numbered(g.n, info, dfs) && |end| == g.n && Grown(g, info, dfs, end, base) && v < g.n
    ensures base < info[v].dfsnum < |dfs| ==> GrownNode(g, info, dfs, end, base, v) && GrownBelow(g, info, end, v)
  {
  }

  // The subtree grown by visiting child c extends what was grown below cur before.
  lemma GrowChild(g: Graph, info0: seq<NodeInfo>, dfs0: seq<nat>, end0: seq<nat>,
                  info1: seq<NodeInfo>, dfs1: seq<nat>, end1: seq<nat>, base: nat, cur: nat, c: nat)
    requires Visited(g, info0, dfs0, end0, info1, dfs1, end1, base, cur, c)
    ensures Grown(g, info1, dfs1, end1, base)
  {
    forall v | 0 <= v < g.n && base < info1[v].dfsnum < |dfs1|
      ensures GrownNode(g, info1, dfs1, end1, base, v) && GrownBelow(g, info1, end1, v)
    {
      if info1[v].dfsnum < |dfs0| {
        GrowOld(g, info0, dfs0, end0, info1, dfs1, end1, base, cur, c, v);
      } else {
        GrowNew(g, info0, dfs0, end0, info1, dfs1, end1, base, cur, c, v);
      }
    }
  }

  // ---- From the finished numbering to a depth-first tree ----

  lemma ReachedSeen(g: Graph, r: nat, info: seq<NodeInfo>, p: seq<nat>)
    requires |info| == g.n && IsPath(g, p) && info[p[0]].Seen()
    requires forall u: nat, v: nat | u < g.n && v < g.n && info[u].Seen() && g.HasEdge(u, v) :: info[v].Seen()
    ensures info[p[|p| - 1]].Seen()
  {
    if |p| > 1 {
      ReachedSeen(g, r, info, p[..|p| - 1]);
      assert g.HasEdge(p[|p| - 2], p[|p| - 2 + 1]);
    }
  }

  lemma AllNumbered(n: nat, info: seq<NodeInfo>, dfs: seq<nat>)
    requires Numbered(n, info, dfs) && forall v | 0 <= v < n :: info[v].Seen()
    ensures |dfs| == n
  {
    DistinctSize(dfs);
    forall x | x in Below(n)
      ensures x in Elements(dfs)
    {
      assert info[x].Seen() && dfs[info[x].dfsnum] == x;
    }
    SubsetSize(Below(n), Elements(dfs));
  }

  lemma FinishTree(g: Graph, r: nat, info: seq<NodeInfo>, dfs: seq<nat>, end: seq<nat>)
    requires FlowGraph(g, r) && Numbered(g.n, info, dfs) && |end| == g.n && |dfs| > 0
    requires dfs[0] == r && end[r] == |dfs| && Grown(g, info, dfs, end, 0)
    requires forall x | 0 <= x < g.n && g.HasEdge(r, x) :: info[x].Seen()
    ensures |dfs| == g.n && IsDfsTree(g, r, TreeOf(info, dfs, end))
    ensures forall v {:trigger info[v].idom} | 0 <= v < g.n && v != r ::
              info[v].idom == info[v].parent && info[v].ancestor == UNINIT
  {
    forall u: nat, v: nat | u < g.n && v < g.n && info[u].Seen() && g.HasEdge(u, v)
      ensures info[v].Seen()
    {
      assert dfs[info[u].dfsnum] == u;
      if u != r {
        GrownAt(g, info, dfs, end, 0, u);
      }
    }
    forall v | 0 <= v < g.n
      ensures info[v].Seen()
    {
      assert Reachable(g, r, v);
      var p :| PathBetween(g, p, r, v);
      ReachedSeen(g, r, info, p);
    }
    AllNumbered(g.n, info, dfs);
    forall v | 0 <= v < g.n && v != r
      ensures GrownNode(g, info, dfs, end, 0, v) && GrownBelow(g, info, end, v)
    {
      assert info[v].Seen() && dfs[info[v].dfsnum] == v;
      GrownAt(g, info, dfs, end, 0, v);
    }
    TreeFromGrown(g, r, info, dfs, end);
  }

  lemma TreeFromGrown(g: Graph, r: nat, info: seq<NodeInfo>, dfs: seq<nat>, end: seq<nat>)
    requires g.Valid() && Numbered(g.n, info, dfs) && |end| == |dfs| == g.n > 0
    requires dfs[0] == r && end[r] == g.n
    requires forall v | 0 <= v < g.n :: info[v].Seen()
    requires forall v | 0 <= v < g.n && v != r :: GrownNode(g, info, dfs, end, 0, v) && GrownBelow(g, info, end, v)
    ensures IsDfsTree(g, r, TreeOf(info, dfs, end))
  {
    var t := TreeOf(info, dfs, end);
    forall v | 0 <= v < g.n && v != r
      ensures t.parent[v] < g.n && g.HasEdge(t.parent[v], v)
      ensures t.num[t.parent[v]] < t.num[v] && t.end[v] <= t.end[t.parent[v]]
    {
      assert GrownNode(g, info, dfs, end, 0, v);
      assert dfs[info[info[v].parent].dfsnum] == info[v].parent;
    }
    forall a, b | 0 <= a < g.n && 0 <= b < g.n && t.num[a] < t.num[b] < t.end[a]
      ensures t.num[t.parent[b]] >= t.num[a]
    {
      if a != r {
        assert GrownBelow(g, info, end, a);
        assert ParentAtLeast(info, b, info[a].dfsnum);
      } else {
        assert GrownNode(g, info, dfs, end, 0, b);
      }
    }
    forall u: nat, v: nat | g.HasEdge(u, v)
      ensures t.num[v] < t.end[u]
    {
      assert u < g.n && v < g.n;
      assert info[v].Seen();
      if u != r {
        assert GrownBelow(g, info, end, u);
      }
    }
    forall v | 0 <= v < g.n
      ensures t.num[v] < t.end[v] <= g.n
    {
      assert info[v].Seen();
      assert v != r ==> GrownNode(g, info, dfs, end, 0, v);
    }
  }
}
