// Tables of immediate dominators, what is read off them, and the dominance frontier.
module DomTables {
  import opened Graphs
  import opened Dominance

  // The "no such node" marker; node counts stay at or below it.
  const UNINIT: nat := 0xFFFF_FFFF

  ghost predicate IsIdomTable(g: Graph, r: nat, idom: seq<nat>) {
    && r < g.n <= UNINIT && |idom| == g.n && idom[r] == UNINIT
    && (forall v {:trigger idom[v]} | 0 <= v < g.n && v != r :: idom[v] < g.n && IsIdom(g, r, idom[v], v))
  }

  lemma TableShape(g: Graph, r: nat, idom: seq<nat>)
    requires IsIdomTable(g, r, idom)
    ensures r < g.n <= UNINIT && |idom| == g.n && idom[r] == UNINIT
    ensures forall v {:trigger idom[v]} | 0 <= v < g.n && v != r :: idom[v] < g.n
  {
  }

  lemma TableEntry(g: Graph, r: nat, idom: seq<nat>, v: nat)
    requires IsIdomTable(g, r, idom) && v < g.n && v != r
    ensures idom[v] < g.n && SDom(g, r, idom[v], v)
    ensures forall e | SDom(g, r, e, v) :: Dom(g, r, e, idom[v])
  {
    assert idom[v] < g.n;
  }

  // An immediate dominator is unique, so the table lists exactly the pairs (d, c).
  lemma TableUnique(g: Graph, r: nat, idom: seq<nat>, d: nat, c: nat)
    requires FlowGraph(g, r) && IsIdomTable(g, r, idom) && d < g.n && c < g.n
    ensures IsIdom(g, r, d, c) <==> idom[c] == d
  {
    if c == r {
      if IsIdom(g, r, d, c) {
        EntryDom(g, r, d);
        DomAntisym(g, r, d, r);
        assert false;
      }
    } else {
      assert idom[c] < g.n;
      if IsIdom(g, r, d, c) {
        IdomUnique(g, r, d, idom[c], c);
      }
    }
  }

  // How many nodes dominate v: strictly fewer for its immediate dominator.
  ghost function Dominators(g: Graph, r: nat, v: nat): (s: set<nat>)
    ensures forall x: nat :: x in s <==> x < g.n && Dom(g, r, x, v)
  {
    set x | x in Below(g.n) && Dom(g, r, x, v)
  }

  ghost function Depth(g: Graph, r: nat, v: nat): nat {
    |Dominators(g, r, v)|
  }

  lemma DepthDrops(g: Graph, r: nat, d: nat, v: nat)
    requires FlowGraph(g, r) && v < g.n && SDom(g, r, d, v)
    ensures Depth(g, r, d) < Depth(g, r, v)
  {
    forall x | x in Dominators(g, r, d)
      ensures x in Dominators(g, r, v)
    {
      DomTrans(g, r, x, d, v);
    }
    DomRefl(g, r, v);
    if v in Dominators(g, r, d) {
      DomAntisym(g, r, v, d);
      assert false;
    }
    SubsetSize(Dominators(g, r, d), Dominators(g, r, v));
  }

  // ---- Dominator trees ----

  ghost predicate Ascending(s: seq<nat>, bound: nat) {
    && (forall i, j | 0 <= i < j < |s| :: s[i] < s[j])
    && (forall i | 0 <= i < |s| :: s[i] < bound)
  }

  // Child lists: each node once, under its immediate dominator.
  ghost predicate IsDomTree(g: Graph, r: nat, tree: seq<seq<nat>>) {
    && |tree| == g.n
    && (forall d | 0 <= d < g.n :: Ascending(tree[d], g.n))
    && (forall d: nat, c: nat | d < g.n && c < g.n :: c in tree[d] <==> IsIdom(g, r, d, c))
  }

  lemma DepthBound(g: Graph, r: nat, v: nat)
    ensures Depth(g, r, v) <= g.n
  {
    SubsetSize(Dominators(g, r, v), Below(g.n));
  }

  // The dominators of a node form a chain.
  lemma {:induction false} DomComparable(g: Graph, r: nat, idom: seq<nat>, a: nat, b: nat, x: nat)
    requires FlowGraph(g, r) && IsIdomTable(g, r, idom) && x < g.n && Dom(g, r, a, x) && Dom(g, r, b, x)
    ensures Dom(g, r, a, b) || Dom(g, r, b, a)
    decreases Depth(g, r, x)
  {
    if a != x && b != x {
      if x == r {
        EntryDom(g, r, a);
        assert Reachable(g, r, r);
        DomAntisym(g, r, r, a);
        assert false;
      } else {
        TableEntry(g, r, idom, x);
        DepthDrops(g, r, idom[x], x);
        DomComparable(g, r, idom, a, b, idom[x]);
      }
    }
  }

  // The child of `cur` on the way down to x.
  lemma {:induction false} ChildToward(g: Graph, r: nat, idom: seq<nat>, cur: nat, x: nat) returns (c: nat)
    requires FlowGraph(g, r) && IsIdomTable(g, r, idom) && x < g.n && SDom(g, r, cur, x)
    ensures c < g.n && c != r && idom[c] == cur && Dom(g, r, c, x)
    decreases Depth(g, r, x)
  {
    if x == r {
      assert Reachable(g, r, x);
      EntryDom(g, r, cur);
      DomAntisym(g, r, r, cur);
      assert false;
    } else {
      TableEntry(g, r, idom, x);
      if idom[x] == cur {
        c := x;
        DomRefl(g, r, x);
      } else {
        DepthDrops(g, r, idom[x], x);
        c := ChildToward(g, r, idom, cur, idom[x]);
        DomTrans(g, r, c, idom[x], x);
      }
    }
  }

  // Different children of one node have disjoint subtrees, which do not contain the node itself.
  lemma ChildrenApart(g: Graph, r: nat, idom: seq<nat>, cur: nat, c: nat, d: nat, x: nat)
    requires FlowGraph(g, r) && IsIdomTable(g, r, idom) && c < g.n && d < g.n && c != r && d != r
    requires idom[c] == cur && idom[d] == cur && c != d && x < g.n && Dom(g, r, c, x)
    ensures !Dom(g, r, d, x)
  {
    if Dom(g, r, d, x) {
      DomComparable(g, r, idom, c, d, x);
      var hi, lo := if Dom(g, r, c, d) then c else d, if Dom(g, r, c, d) then d else c;
      TableEntry(g, r, idom, lo);
      ChildBelow(g, r, idom, cur, hi);
    }
  }

  lemma ChildBelow(g: Graph, r: nat, idom: seq<nat>, cur: nat, c: nat)
    requires FlowGraph(g, r) && IsIdomTable(g, r, idom) && c < g.n && c != r && idom[c] == cur
    ensures SDom(g, r, cur, c) && !Dom(g, r, c, cur) && Depth(g, r, cur) < Depth(g, r, c)
  {
    TableEntry(g, r, idom, c);
    DepthDrops(g, r, cur, c);
    if Dom(g, r, c, cur) {
      DomAntisym(g, r, c, cur);
    }
  }

  // What the child lists of a dominator tree are good for.
  lemma ChildList(g: Graph, r: nat, idom: seq<nat>, dt: seq<seq<nat>>, cur: nat)
    requires FlowGraph(g, r) && IsIdomTable(g, r, idom) && IsDomTree(g, r, dt) && cur < g.n
    ensures |dt| == g.n
    ensures forall i, j | 0 <= i < j < |dt[cur]| :: dt[cur][i] != dt[cur][j]
    ensures forall c | c in dt[cur] :: c < g.n && c != r && idom[c] == cur
    ensures forall c: nat | c < g.n && c != r && idom[c] == cur :: c in dt[cur]
  {
    assert Ascending(dt[cur], g.n);
    forall c: nat | c < g.n
      ensures c in dt[cur] <==> idom[c] == cur
    {
      TableUnique(g, r, idom, cur, c);
    }
    assert idom[r] == UNINIT;
  }

  // ---- Dominance frontiers ----

  // b is in the frontier of x: x dominates a predecessor of b but not strictly b itself.
  ghost predicate InFrontier(g: Graph, r: nat, x: nat, b: nat) {
    !SDom(g, r, x, b) && exists p: nat :: g.HasEdge(p, b) && Dom(g, r, x, p)
  }

  ghost predicate FrontierExact(g: Graph, r: nat, fronts: seq<set<nat>>) {
    && |fronts| == g.n
    && (forall x: nat, b: nat | x < g.n && b < g.n :: b in fronts[x] <==> InFrontier(g, r, x, b))
  }

  // A node other than the entry with fewer than two incoming edges is in no frontier.
  lemma SinglePredecessor(g: Graph, r: nat, idom: seq<nat>, x: nat, b: nat)
    requires FlowGraph(g, r) && IsIdomTable(g, r, idom) && x < g.n && b < g.n && b != r
    requires |g.Preds(b)| <= 1
    ensures !InFrontier(g, r, x, b)
  {
    if InFrontier(g, r, x, b) {
      var p: nat :| g.HasEdge(p, b) && Dom(g, r, x, p);
      forall q: nat | g.HasEdge(q, b)
        ensures q == p
      {
        assert q in g.Preds(b) && p in g.Preds(b);
      }
      DomFromPreds(g, r, x, b);
      DomRefl(g, r, p);
      DomFromPreds(g, r, p, b);
      assert x == b;
      DomAntisym(g, r, p, b);
      LoopOnly(g, r, b);
    }
  }

  // A reachable node other than the entry has a predecessor besides itself.
  lemma LoopOnly(g: Graph, r: nat, b: nat)
    requires FlowGraph(g, r) && b < g.n && b != r
    ensures exists q: nat :: q != b && g.HasEdge(q, b)
  {
    assert Reachable(g, r, b);
    var p :| PathBetween(g, p, r, b);
    var i := 1;
    while p[i] != b
      invariant 1 <= i < |p| && p[i - 1] != b
      decreases |p| - i
    {
      i := i + 1;
    }
    assert g.HasEdge(p[i - 1], p[i - 1 + 1]);
  }

  // ---- The frontier computation: a runner climbs from each predecessor of b to b's idom ----

  ghost predicate GrowsBy(n: nat, b: nat, f0: seq<set<nat>>, f1: seq<set<nat>>) {
    && |f0| == |f1| == n
    && (forall x: nat, c: nat | x < n && c != b :: c in f1[x] <==> c in f0[x])
    && (forall x: nat | x < n && b in f0[x] :: b in f1[x])
  }

  lemma NotGrown(n: nat, b: nat, f: seq<set<nat>>)
    requires |f| == n
    ensures GrowsBy(n, b, f, f)
  {
  }

  lemma GrowsAt(n: nat, b: nat, f0: seq<set<nat>>, f1: seq<set<nat>>, x: nat)
    requires GrowsBy(n, b, f0, f1) && x < n
    ensures GrowsBy(n, b, f0, f1[x := f1[x] + {b}])
  {
  }

  lemma GrowsTwice(n: nat, b: nat, f0: seq<set<nat>>, f1: seq<set<nat>>, f2: seq<set<nat>>)
    requires GrowsBy(n, b, f0, f1) && GrowsBy(n, b, f1, f2)
    ensures GrowsBy(n, b, f0, f2)
  {
  }

  ghost predicate SoundFor(g: Graph, r: nat, fronts: seq<set<nat>>, b: nat)
    requires |fronts| == g.n
  {
    forall x: nat | x < g.n && b in fronts[x] :: InFrontier(g, r, x, b)
  }

  ghost predicate WalkedFrom(g: Graph, r: nat, fronts: seq<set<nat>>, b: nat, p: nat)
    requires |fronts| == g.n
  {
    forall x: nat | x < g.n && Dom(g, r, x, p) && !SDom(g, r, x, b) :: b in fronts[x]
  }

  // The runner is on the chain of dominators of p, at or below b's immediate dominator.
  ghost predicate OnWalk(g: Graph, r: nat, idom: seq<nat>, runner: nat, p: nat, b: nat)
    requires |idom| == g.n && b < g.n
  {
    if runner == UNINIT then b == r
    else runner < g.n && Dom(g, r, runner, p) && (b != r ==> Dom(g, r, idom[b], runner))
  }

  // Every dominator of p that the runner has already passed has b in its frontier.
  ghost predicate WalkDone(g: Graph, r: nat, fronts: seq<set<nat>>, b: nat, p: nat, runner: nat)
    requires |fronts| == g.n
  {
    forall x: nat | x < g.n && Dom(g, r, x, p) && !(runner < g.n && Dom(g, r, x, runner)) :: b in fronts[x]
  }

  lemma WalkBegin(g: Graph, r: nat, idom: seq<nat>, fronts: seq<set<nat>>, p: nat, b: nat)
    requires FlowGraph(g, r) && IsIdomTable(g, r, idom) && |fronts| == g.n && b < g.n && g.HasEdge(p, b)
    ensures p < g.n && OnWalk(g, r, idom, p, p, b) && WalkDone(g, r, fronts, b, p, p)
  {
    DomRefl(g, r, p);
    if b != r {
      TableEntry(g, r, idom, b);
      DomPred(g, r, idom[b], p, b);
    }
  }

  lemma {:induction false} WalkNext(g: Graph, r: nat, idom: seq<nat>, f0: seq<set<nat>>, f1: seq<set<nat>>,
                                    runner: nat, p: nat, b: nat)
    requires FlowGraph(g, r) && IsIdomTable(g, r, idom) && b < g.n && g.HasEdge(p, b) && |f0| == g.n
    requires OnWalk(g, r, idom, runner, p, b) && runner != idom[b]
    requires WalkDone(g, r, f0, b, p, runner) && SoundFor(g, r, f0, b)
    requires runner < g.n && f1 == f0[runner := f0[runner] + {b}]
    ensures OnWalk(g, r, idom, idom[runner], p, b)
    ensures WalkDone(g, r, f1, b, p, idom[runner]) && SoundFor(g, r, f1, b)
    ensures idom[runner] < g.n ==> Depth(g, r, idom[runner]) < Depth(g, r, runner)
  {
    if SDom(g, r, runner, b) {
      if b == r {
        EntryDom(g, r, runner);
        DomAntisym(g, r, runner, b);
        assert false;
      } else {
        TableEntry(g, r, idom, b);
        DomAntisym(g, r, runner, idom[b]);
        assert false;
      }
    }
    assert InFrontier(g, r, runner, b);
    if runner == r {
      if b != r {
        EntryDom(g, r, idom[b]);
        DomAntisym(g, r, r, idom[b]);
        assert false;
      }
      forall x: nat | x < g.n && Dom(g, r, x, p)
        ensures b in f1[x]
      {
        if Dom(g, r, x, runner) {
          EntryDom(g, r, x);
          DomAntisym(g, r, x, r);
        }
      }
    } else {
      TableEntry(g, r, idom, runner);
      DomTrans(g, r, idom[runner], runner, p);
      DepthDrops(g, r, idom[runner], runner);
    }
  }

  lemma NothingYet(g: Graph, r: nat, fronts: seq<set<nat>>, b: nat)
    requires FrontsUpTo(g, r, fronts, b)
    ensures SoundFor(g, r, fronts, b)
  {
  }

  lemma RunnerNode(g: Graph, r: nat, idom: seq<nat>, runner: nat, p: nat, b: nat)
    requires IsIdomTable(g, r, idom) && b < g.n && OnWalk(g, r, idom, runner, p, b) && runner != idom[b]
    ensures runner < g.n
  {
  }

  lemma StillWalked(g: Graph, r: nat, f0: seq<set<nat>>, f1: seq<set<nat>>, b: nat, ps: seq<nat>, i: nat)
    requires GrowsBy(g.n, b, f0, f1) && i <= |ps|
    requires forall j | 0 <= j < i :: WalkedFrom(g, r, f0, b, ps[j])
    ensures forall j | 0 <= j < i :: WalkedFrom(g, r, f1, b, ps[j])
  {
  }

  lemma WalkEnd(g: Graph, r: nat, idom: seq<nat>, fronts: seq<set<nat>>, p: nat, b: nat)
    requires FlowGraph(g, r) && IsIdomTable(g, r, idom) && b < g.n && g.HasEdge(p, b) && |fronts| == g.n
    requires WalkDone(g, r, fronts, b, p, idom[b])
    ensures WalkedFrom(g, r, fronts, b, p)
  {
    if b != r {
      TableEntry(g, r, idom, b);
      forall x: nat | x < g.n && Dom(g, r, x, p) && !SDom(g, r, x, b)
        ensures b in fronts[x]
      {
        if Dom(g, r, x, idom[b]) {
          DomTrans(g, r, x, idom[b], b);
          assert x == b;
          DomAntisym(g, r, b, idom[b]);
          assert false;
        }
      }
    }
  }

  // The frontiers restricted to nodes below b are right, except at an entry with one incoming edge.
  ghost predicate FrontsUpTo(g: Graph, r: nat, fronts: seq<set<nat>>, b: nat) {
    && |fronts| == g.n
    && (forall x: nat, c | x < g.n && c in fronts[x] :: c < b)
    && (forall x: nat, c: nat | x < g.n && c < b && c < g.n ::
          c in fronts[x] <==> |g.Preds(c)| >= 2 && InFrontier(g, r, x, c))
  }

  lemma NodeDone(g: Graph, r: nat, idom: seq<nat>, f0: seq<set<nat>>, f1: seq<set<nat>>, b: nat)
    requires b < g.n && FrontsUpTo(g, r, f0, b) && GrowsBy(g.n, b, f0, f1)
    requires |g.Preds(b)| < 2 ==> f1 == f0
    requires |g.Preds(b)| >= 2 ==>
               SoundFor(g, r, f1, b) && forall p | p in g.Preds(b) :: WalkedFrom(g, r, f1, b, p)
    ensures FrontsUpTo(g, r, f1, b + 1)
  {
    forall x: nat, c: nat | x < g.n && c < b + 1 && c < g.n
      ensures c in f1[x] <==> |g.Preds(c)| >= 2 && InFrontier(g, r, x, c)
    {
      if c == b && |g.Preds(b)| >= 2 && InFrontier(g, r, x, b) {
        var p: nat :| g.HasEdge(p, b) && Dom(g, r, x, p);
        assert p in g.Preds(b);
      }
    }
  }

  // An entry with one incoming edge is in the frontier of everything that dominates the edge's source,
  // and the two-predecessor test leaves it out of all of them.
  lemma EntrySkipped(g: Graph, r: nat, fronts: seq<set<nat>>)
    requires FlowGraph(g, r) && FrontsUpTo(g, r, fronts, g.n) && |g.Preds(r)| == 1
    ensures forall x: nat | x < g.n :: r !in fronts[x]
    ensures forall x: nat | x < g.n :: InFrontier(g, r, x, r) <==> Dom(g, r, x, g.Preds(r)[0])
    ensures InFrontier(g, r, r, r)
  {
    var p := g.Preds(r)[0];
    assert p in g.Preds(r) && g.HasEdge(p, r);
    EntryDom(g, r, p);
    forall x: nat | x < g.n
      ensures InFrontier(g, r, x, r) <==> Dom(g, r, x, p)
    {
      assert PathBetween(g, [r], r, r);
      assert Dom(g, r, x, r) ==> x in [r];
      if q: nat :| g.HasEdge(q, r) && Dom(g, r, x, q) {
        assert q in g.Preds(r);
      }
    }
  }

  // The two-predecessor test costs exactly one thing: an entry with a single incoming edge.
  lemma FrontierVerdict(g: Graph, r: nat, idom: seq<nat>, fronts: seq<set<nat>>)
    requires FlowGraph(g, r) && IsIdomTable(g, r, idom) && FrontsUpTo(g, r, fronts, g.n)
    ensures FrontierExact(g, r, fronts) <==> |g.Preds(r)| != 1
  {
    forall x: nat, b: nat | x < g.n && b < g.n && (b != r || |g.Preds(r)| != 1)
      ensures b in fronts[x] <==> InFrontier(g, r, x, b)
    {
      if |g.Preds(b)| < 2 && InFrontier(g, r, x, b) {
        var p: nat :| g.HasEdge(p, b) && Dom(g, r, x, p);
        assert p in g.Preds(b);
        if b != r {
          SinglePredecessor(g, r, idom, x, b);
          assert false;
        }
      }
    }
    if |g.Preds(r)| == 1 {
      EntrySkipped(g, r, fronts);
    }
  }
}
