// src/dom.rs: depth-first numbering, semidominators by path compression, immediate dominators, and
// from them the frontiers and the tree's children.
module Dom {
  import opened Graphs
  import opened DfsTrees
  import opened DomTables
  import opened SemiNca
  import opened DfsGrowth
  import opened LinkedForest

  class DomInfo {
    const g: Graph
    const entry: nat
    var info: seq<NodeInfo>
    var dfs: seq<nat>
    var best: seq<nat>
    // one past the last number handed out below each node
    ghost var end: seq<nat>
    // the finished depth-first tree
    ghost var tree: Tree

    // Semi-NCA, start to finish.
    constructor (cfg: Graph, root: nat)
      requires FlowGraph(cfg, root) && cfg.n <= UNINIT
      ensures g == cfg && entry == root
      ensures Ready() && SemisKnown(g, tree, info, 0)
      ensures IsIdomTable(g, entry, IdomsOf(info))
    {
      hide IsDfsTree, Grown, SemisKnown, IdomsUpTo, IsIdomTable;
      g, entry := cfg, root;
      info := seq(cfg.n, _ => DEFAULT_INFO);
      dfs := [];
      best := seq(cfg.n, _ => UNINIT);
      end := seq(cfg.n, _ => 0);
      new;
      Dfs(entry, UNINIT);
      FinishTree(g, entry, info, dfs, end);
      tree := TreeOf(info, dfs, end);
      ghost var info0 := info;
      Semis();
      Provisional(g, entry, tree, info0, info);
      Idoms();
      TableDone(g, entry, tree, info);
    }

    // Numbers everything reachable from `cur` that has no number yet.
    method Dfs(cur: nat, parent: nat)
      requires g.Valid() && Numbered(g.n, info, dfs) && |end| == g.n
      requires cur < g.n && !info[cur].Seen()
      modifies this`info, this`dfs, this`end
      ensures Numbered(g.n, info, dfs) && |end| == g.n
      ensures Kept(g.n, old(info), old(end), info, end)
      ensures old(dfs) < dfs && dfs[|old(dfs)|] == cur
      ensures info[cur] == NodeInfo(|old(dfs)|, parent, UNINIT, parent, UNINIT)
      ensures end[cur] == |dfs|
      ensures forall x | 0 <= x < g.n && g.HasEdge(cur, x) :: info[x].Seen()
      ensures Grown(g, info, dfs, end, |old(dfs)|)
      decreases g.n - |dfs|
    {
      hide Grown;
      SeenFewer(g.n, info, dfs, cur);
      var base := |dfs|;
      OpenNode(g, info, dfs, end, cur, NodeInfo(base, parent, UNINIT, parent, UNINIT));
      info := info[cur := NodeInfo(base, parent, UNINIT, parent, UNINIT)];
      dfs := dfs + [cur];
      ghost var info1, end1, dfs1 := info, end, dfs;
      var ns := g.Succs(cur);
      forall j | 0 <= j < |ns|
        ensures ns[j] < g.n
      {
        assert g.HasEdge(cur, ns[j]);
      }
      var i := 0;
      while i < |ns|
        invariant 0 <= i <= |ns|
        invariant Numbered(g.n, info, dfs) && |end| == g.n
        invariant forall j | 0 <= j < |ns| :: ns[j] < g.n
        invariant Kept(g.n, info1, end1, info, end)
        invariant dfs1 <= dfs
        invariant forall j | 0 <= j < i :: info[ns[j]].Seen()
        invariant Grown(g, info, dfs, end, base)
        decreases |ns| - i
      {
        if |dfs| == g.n {
          AllSeen(g.n, info, dfs);
          break;
        }
        var c := ns[i];
        assert g.HasEdge(cur, c);
        if !info[c].Seen() {
          ghost var info2, dfs2, end2 := info, dfs, end;
          Dfs(c, cur);
          GrowChild(g, info2, dfs2, end2, info, dfs, end, base, cur, c);
        }
        i := i + 1;
      }
      forall x | 0 <= x < g.n && g.HasEdge(cur, x)
        ensures info[x].Seen()
      {
        assert x in ns;
      }
      CloseNode(g, info, dfs, end, base, cur);
      end := end[cur := |dfs|];
    }

    // The state after numbering: `tree` is the depth-first tree, the table agrees with it.
    ghost predicate Ready()
      reads this
    {
      && entry < g.n && g.n <= UNINIT && |best| == g.n
      && IsDfsTree(g, entry, tree) && Agrees(g, tree, info)
    }

    // a.k.a AncestorWithLowestSemi in the Tiger Book. Nodes numbered above k are linked.
    method Eval(node: nat, ghost k: nat) returns (r: nat)
      requires Ready() && Forest(g, tree, info, best, k)
      requires node < g.n && tree.num[node] > k
      modifies this`info, this`best
      ensures Ready() && Forest(g, tree, info, best, k)
      ensures OnlyAncestors(old(info), info)
      ensures forall v {:trigger info[v]} {:trigger best[v]} | 0 <= v < g.n && tree.num[v] > tree.num[node] ::
                info[v] == old(info[v]) && best[v] == old(best[v])
      ensures info[node].ancestor < g.n && tree.num[info[node].ancestor] <= k
      ensures r == best[node] && Anc(g, tree, r, node) && tree.num[r] > k && info[r].sdom < g.n
      ensures SdomsKnown(g, tree, info, k)
      ensures tree.num[info[r].sdom] == WalkMin(g, entry, tree, info, k, node)
      decreases tree.num[node]
    {
      hide IsDfsTree, Forest, ForestNode, WalkMin, Agrees, OnlyAncestors, SdomsKnown;
      NumsAgree(g, tree, info);
      SameAncestors(info);
      var p := info[node].ancestor;
      LinkedTo(g, entry, tree, info, best, k, node);
      if info[p].ancestor != UNINIT {
        var b := Eval(p, k);
        LinkedTo(g, entry, tree, info, best, k, node);
        ghost var info1, best1 := info, best;
        NumsAgree(g, tree, info);
        NewAncestor(g, tree, old(info), info, node, info[p].ancestor);
        info := info[node := info[node].(ancestor := info[p].ancestor)];
        if info[info[b].sdom].dfsnum < info[info[best[node]].sdom].dfsnum {
          best := best[node := b];
        }
        Compressed(g, entry, tree, info1, best1, info, best, k, node, p, b);
      }
      r := best[node];
      EvalResult(g, entry, tree, info, best, k, node);
    }

    // The candidates of all predecessors of n, numbered i; the lowest is n's semidominator.
    method LowestCandidate(n: nat, parent: nat, ghost i: nat) returns (semi: nat)
      requires Ready() && Forest(g, tree, info, best, i) && SemisKnown(g, tree, info, i)
      requires n < g.n && n != entry && tree.num[n] == i && parent == tree.parent[n]
      modifies this`info, this`best
      ensures Ready() && Forest(g, tree, info, best, i) && OnlyAncestors(old(info), info)
      ensures SemisKnown(g, tree, info, i)
      ensures semi < g.n && IsSemi(g, tree, semi, n)
    {
      hide IsDfsTree, Forest, ForestNode, WalkMin, SemiPath, BelowCandidate, IsSemi;
      semi := parent;
      ParentLower(g, entry, tree, n);
      var preds := g.Preds(n);
      var j := 0;
      while j < |preds|
        invariant 0 <= j <= |preds|
        invariant Ready() && Forest(g, tree, info, best, i) && OnlyAncestors(old(info), info)
        invariant SemisKnown(g, tree, info, i)
        invariant semi < g.n && tree.num[semi] < i && SemiSource(g, tree, semi, n)
        invariant CandidatesTaken(g, tree, info, semi, preds, j, n)
        decreases |preds| - j
      {
        var pred := preds[j];
        assert pred in preds;
        EdgeNodes(g, entry, tree, pred, n);
        var candidate;
        ghost var info0, semi0 := info, semi;
        if info[pred].dfsnum <= info[n].dfsnum {
          candidate := pred;
        } else {
          var lowest := Eval(pred, i);
          candidate := info[lowest].sdom;
          KeptSemis(g, tree, info0, info, i);
          LongSource(g, entry, tree, info, i, lowest, pred, n);
        }
        if info[candidate].dfsnum < info[semi].dfsnum {
          semi := candidate;
        }
        TakeCandidate(g, entry, tree, info0, info, semi0, semi, candidate, preds, j, n);
        j := j + 1;
      }
      AllTaken(g, entry, tree, info, semi, preds, n);
    }

    // Computes semidominators, in decreasing order of number.
    method Semis()
      requires Ready() && dfs == tree.order
      requires forall v {:trigger info[v].ancestor} | 0 <= v < g.n :: info[v].ancestor == UNINIT
      modifies this`info, this`best, this`dfs
      ensures Ready() && dfs == old(dfs) && SemisKnown(g, tree, info, 0)
      ensures forall v {:trigger info[v].idom} | 0 <= v < g.n :: info[v].idom == old(info[v].idom)
    {
      hide IsDfsTree, Forest, ForestNode, IsSemi, SemisKnown;
      ForestOfRoots(g, entry, tree, info, best);
      var order := dfs;
      dfs := [];
      var i := g.n - 1;
      while i > 0
        invariant 0 <= i < g.n && Ready()
        invariant Forest(g, tree, info, best, i) && SemisKnown(g, tree, info, i)
        invariant forall v {:trigger info[v].idom} | 0 <= v < g.n :: info[v].idom == old(info[v].idom)
        decreases i
      {
        var n := order[i];
        OrderedNode(g, entry, tree, i);
        var parent := info[n].parent;
        ghost var info0 := info;
        var semi := LowestCandidate(n, parent, i);
        ghost var info1, best1 := info, best;
        info := info[n := info[n].(sdom := semi)];
        Link(parent, n);
        Linked(g, entry, tree, info1, best1, info, best, i, n, semi);
        i := i - 1;
      }
      dfs := order;
    }

    // Up from n's tree parent, dominator by dominator, to the level of n's semidominator.
    method LowEnough(n: nat, ghost i: nat) returns (idom: nat)
      requires Ready() && SemisKnown(g, tree, info, 0) && IdomsUpTo(g, entry, tree, info, i)
      requires n < g.n && n != entry && tree.num[n] == i > 0
      ensures idom < g.n && D.IsIdom(g, entry, idom, n)
    {
      hide IsDfsTree, IsSemi, D.Dom, D.IsIdom;
      idom := info[n].idom;
      var semiDfs: nat := info[info[n].sdom].dfsnum;
      ParentLower(g, entry, tree, n);
      D.DomRefl(g, entry, tree.parent[n]);
      while info[idom].dfsnum > semiDfs
        invariant tree.parent[n] < g.n && idom < g.n && D.Dom(g, entry, idom, tree.parent[n])
        invariant WalkKeeps(g, entry, tree, idom, info[n].sdom, n)
        decreases tree.num[idom]
      {
        WalkUp(g, entry, tree, info, i, idom, info[n].sdom, n);
        idom := info[idom].idom;
      }
      NcaIsIdom(g, entry, tree, info[n].sdom, idom, n);
    }

    // Turns the provisional idom of every node, its tree parent, into its immediate dominator.
    method Idoms()
      requires Ready() && dfs == tree.order && SemisKnown(g, tree, info, 0)
      requires IdomsUpTo(g, entry, tree, info, 1)
      modifies this`info, this`dfs
      ensures Ready() && dfs == old(dfs) && SemisKnown(g, tree, info, 0)
      ensures IdomsUpTo(g, entry, tree, info, g.n)
      ensures info[entry].idom == old(info[entry].idom)
    {
      hide IsDfsTree, IsSemi, D.Dom, D.IsIdom;
      OrderBounds(g, entry, tree);
      var order := dfs;
      dfs := [];
      var i := 1;
      while i < g.n
        invariant 1 <= i <= g.n && Ready() && SemisKnown(g, tree, info, 0)
        invariant IdomsUpTo(g, entry, tree, info, i)
        invariant info[entry].idom == old(info[entry].idom)
      {
        var n := order[i];
        OrderedNode(g, entry, tree, i);
        var idom := LowEnough(n, i);
        IdomFound(g, entry, tree, info, i, n, idom);
        info := info[n := info[n].(idom := idom)];
        i := i + 1;
      }
      dfs := order;
    }

    // Up the dominator tree from p, a predecessor of b, until b's immediate dominator.
    method Walk(p: nat, b: nat, fronts0: seq<set<nat>>) returns (fronts: seq<set<nat>>)
      requires FlowGraph(g, entry) && IsIdomTable(g, entry, IdomsOf(info)) && b < g.n && g.HasEdge(p, b)
      requires |fronts0| == g.n && SoundFor(g, entry, fronts0, b)
      ensures |fronts| == g.n && GrowsBy(g.n, b, fronts0, fronts)
      ensures SoundFor(g, entry, fronts, b) && WalkedFrom(g, entry, fronts, b, p)
    {
      hide FlowGraph, IsIdomTable, InFrontier, D.Dom, OnWalk, WalkDone, WalkedFrom, SoundFor, GrowsBy;
      ghost var idoms := IdomsOf(info);
      TableShape(g, entry, idoms);
      fronts := fronts0;
      var bdom: nat := info[b].idom;
      WalkBegin(g, entry, idoms, fronts, p, b);
      NotGrown(g.n, b, fronts);
      var runner: nat := p;
      while runner != bdom
        invariant |fronts| == g.n && GrowsBy(g.n, b, fronts0, fronts)
        invariant SoundFor(g, entry, fronts, b)
        invariant OnWalk(g, entry, idoms, runner, p, b)
        invariant WalkDone(g, entry, fronts, b, p, runner)
        decreases if runner < g.n then 1 + Depth(g, entry, runner) else 0
      {
        RunnerNode(g, entry, idoms, runner, p, b);
        ghost var fronts2 := fronts;
        GrowsAt(g.n, b, fronts0, fronts, runner);
        fronts := fronts[runner := fronts[runner] + {b}];
        WalkNext(g, entry, idoms, fronts2, fronts, runner, p, b);
        runner := info[runner].idom;
      }
      WalkEnd(g, entry, idoms, fronts, p, b);
    }

    // The dominance frontier of every node, by walking up from each predecessor of each join point.
    method DomFrontier() returns (fronts: seq<set<nat>>)
      requires FlowGraph(g, entry) && IsIdomTable(g, entry, IdomsOf(info))
      ensures FrontsUpTo(g, entry, fronts, g.n)
      ensures FrontierExact(g, entry, fronts) <==> |g.Preds(entry)| != 1
    {
      hide FlowGraph, IsIdomTable, InFrontier, D.Dom, OnWalk, WalkDone, WalkedFrom, SoundFor, GrowsBy;
      ghost var idoms := IdomsOf(info);
      TableShape(g, entry, idoms);
      fronts := seq(g.n, _ => {});
      var b := 0;
      while b < g.n
        invariant 0 <= b <= g.n && |fronts| == g.n
        invariant FrontsUpTo(g, entry, fronts, b)
      {
        var neighs := g.Preds(b);
        ghost var fronts0 := fronts;
        NothingYet(g, entry, fronts, b);
        NotGrown(g.n, b, fronts);
        if |neighs| >= 2 {
          var i := 0;
          while i < |neighs|
            invariant 0 <= i <= |neighs| && |fronts| == g.n
            invariant GrowsBy(g.n, b, fronts0, fronts)
            invariant SoundFor(g, entry, fronts, b)
            invariant forall j | 0 <= j < i :: WalkedFrom(g, entry, fronts, b, neighs[j])
          {
            var p := neighs[i];
            assert p in neighs;
            ghost var fronts1 := fronts;
            fronts := Walk(p, b, fronts);
            GrowsTwice(g.n, b, fronts0, fronts1, fronts);
            StillWalked(g, entry, fronts1, fronts, b, neighs, i);
            i := i + 1;
          }
        }
        NodeDone(g, entry, idoms, fronts0, fronts, b);
        b := b + 1;
      }
      FrontierVerdict(g, entry, idoms, fronts);
    }

    // The dominator tree, as a list of children for each node.
    method DomTree() returns (tree: seq<seq<nat>>)
      requires FlowGraph(g, entry) && IsIdomTable(g, entry, IdomsOf(info))
      ensures IsDomTree(g, entry, tree)
    {
      hide D.Dom, D.IsIdom, FlowGraph;
      ghost var idoms := IdomsOf(info);
      tree := seq(g.n, _ => []);
      var i := 0;
      while i < g.n
        invariant 0 <= i <= g.n && |tree| == g.n
        invariant forall d | 0 <= d < g.n :: Ascending(tree[d], i)
        invariant forall d: nat, c: nat | d < g.n && c < g.n :: c in tree[d] <==> c < i && info[c].idom == d
      {
        if info[i].idom != UNINIT {
          var d := info[i].idom;
          assert i != entry;
          tree := tree[d := tree[d] + [i]];
        }
        i := i + 1;
      }
      forall d: nat, c: nat | d < g.n && c < g.n
        ensures c in tree[d] <==> D.IsIdom(g, entry, d, c)
      {
        TableUnique(g, entry, idoms, d, c);
      }
    }

    method Link(parent: nat, node: nat)
      requires node < |info| == |best|
      modifies this`info, this`best
      ensures info == old(info)[node := old(info)[node].(ancestor := parent)]
      ensures best == old(best)[node := node]
    {
      info := info[node := info[node].(ancestor := parent)];
      best := best[node := node];
    }
  }
}
