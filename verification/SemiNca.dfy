// The mathematics of the Semi-NCA algorithm: semidominators over a depth-first tree, and the
// immediate dominator as the nearest dominator of the tree parent that lies at or above the
// semidominator.
module SemiNca {
  import opened Graphs
  import opened Dominance
  import opened DfsTrees

  // A path into w whose interior vertices all have numbers above w's.
  ghost predicate SemiPath(g: Graph, t: Tree, p: seq<nat>, w: nat)
    requires Sized(g, t) && w < g.n
  {
    && IsPath(g, p) && |p| >= 2 && p[|p| - 1] == w
    && (forall i | 0 < i < |p| - 1 :: t.num[w] < t.num[p[i]])
  }

  // s is the semidominator of w: the lowest-numbered source of such a path.
  ghost predicate IsSemi(g: Graph, t: Tree, s: nat, w: nat)
    requires Sized(g, t) && w < g.n
  {
    && s < g.n
    && (exists p :: SemiPath(g, t, p, w) && p[0] == s)
    && (forall p | SemiPath(g, t, p, w) :: t.num[s] <= t.num[p[0]])
  }

  lemma ParentSemiPath(g: Graph, r: nat, t: Tree, w: nat)
    requires IsDfsTree(g, r, t) && w < g.n && w != r
    ensures SemiPath(g, t, [t.parent[w], w], w)
  {
  }

  // An edge from a lower-numbered vertex is a semipath.
  lemma EdgeSemiPath(g: Graph, r: nat, t: Tree, v: nat, w: nat)
    requires IsDfsTree(g, r, t) && g.HasEdge(v, w)
    ensures SemiPath(g, t, [v, w], w)
  {
  }

  // A semipath into u, the tree path from u down to v, and the edge into w.
  lemma LongSemiPath(g: Graph, r: nat, t: Tree, s: nat, u: nat, v: nat, w: nat)
    requires IsDfsTree(g, r, t) && g.HasEdge(v, w) && Anc(g, t, u, v) && t.num[w] < t.num[u]
    requires exists p :: SemiPath(g, t, p, u) && p[0] == s
    ensures exists p :: SemiPath(g, t, p, w) && p[0] == s
  {
    var p :| SemiPath(g, t, p, u) && p[0] == s;
    var q := TreePath(g, r, t, u, v);
    JoinPaths(g, p, q, s, u, v);
    var j := Join(p, q);
    ExtendPath(g, j, s, v, w);
    var z := j + [w];
    forall i | 0 < i < |z| - 1
      ensures t.num[w] < t.num[z[i]]
    {
      if i >= |p| {
        assert z[i] == q[i - |p| + 1];
        assert z[i] in q;
      }
    }
    assert SemiPath(g, t, z, w);
  }

  // The highest ancestor of v = p[k] on a semipath p's interior up to k.
  lemma FirstAncestorOnPath(g: Graph, t: Tree, p: seq<nat>, k: nat, v: nat) returns (j: nat)
    requires Sized(g, t) && IsPath(g, p) && 1 <= k < |p| && Anc(g, t, p[k], v)
    ensures 1 <= j <= k && Anc(g, t, p[j], v)
    ensures forall i | 1 <= i < j :: !Anc(g, t, p[i], v)
  {
    j := 1;
    while !Anc(g, t, p[j], v)
      invariant 1 <= j <= k
      invariant forall i | 1 <= i < j :: !Anc(g, t, p[i], v)
      decreases k - j
    {
      j := j + 1;
    }
  }

  // The lowest-numbered vertex among p[a..b).
  lemma LowestOnPath(g: Graph, t: Tree, p: seq<nat>, a: nat, b: nat) returns (m: nat)
    requires Sized(g, t) && IsPath(g, p) && a < b <= |p|
    ensures a <= m < b && forall i | a <= i < b :: t.num[p[m]] <= t.num[p[i]]
  {
    m := a;
    for k := a to b
      invariant a <= m < b
      invariant forall i | a <= i < k :: t.num[p[m]] <= t.num[p[i]]
    {
      if t.num[p[k]] < t.num[p[m]] {
        m := k;
      }
    }
  }

  // A stretch p[a..b] in which p[a] has no ancestor-of-p[b] before p[b] stays above p[b].
  lemma StretchAbove(g: Graph, r: nat, t: Tree, p: seq<nat>, a: nat, b: nat)
    requires IsDfsTree(g, r, t) && IsPath(g, p) && a < b < |p|
    requires forall i | a < i < b :: !Anc(g, t, p[i], p[b])
    ensures forall i | a < i < b :: t.num[p[b]] < t.num[p[i]]
  {
    if a + 1 < b {
      var m := LowestOnPath(g, t, p, a + 1, b);
      if t.num[p[m]] <= t.num[p[b]] {
        SplitPath(g, p, b);
        SplitPath(g, p[..b + 1], m);
        var q := p[..b + 1][m..];
        PathStaysBelow(g, r, t, q);
        assert false;
      }
    }
  }

  // What the loop over the predecessors of w has established when it is done: semi is the source
  // of a semipath and is no higher than any candidate a predecessor offers.
  ghost predicate BelowCandidate(g: Graph, t: Tree, sdom: nat -> nat, semi: nat, v: nat, w: nat)
    requires Sized(g, t) && semi < g.n && v < g.n && w < g.n
  {
    if t.num[v] <= t.num[w] then t.num[semi] <= t.num[v]
    else forall u: nat | Anc(g, t, u, v) && t.num[w] < t.num[u] ::
        sdom(u) < g.n && t.num[semi] <= t.num[sdom(u)]
  }

  lemma {:induction false} SemiFromCandidates(g: Graph, r: nat, t: Tree, sdom: nat -> nat, semi: nat, w: nat)
    requires IsDfsTree(g, r, t) && w < g.n && w != r && semi < g.n
    requires forall u | 0 <= u < g.n && t.num[w] < t.num[u] :: IsSemi(g, t, sdom(u), u)
    requires exists p :: SemiPath(g, t, p, w) && p[0] == semi
    requires forall v: nat | g.HasEdge(v, w) :: BelowCandidate(g, t, sdom, semi, v, w)
    requires t.num[semi] < t.num[w]
    ensures IsSemi(g, t, semi, w)
  {
    hide BelowCandidate;
    forall p | SemiPath(g, t, p, w)
      ensures t.num[semi] <= t.num[p[0]]
    {
      assert g.HasEdge(p[|p| - 2], p[|p| - 2 + 1]);
      if |p| > 2 {
        LongCandidate(g, r, t, sdom, semi, w, p);
      } else {
        ShortCandidate(g, r, t, sdom, semi, w, p);
      }
    }
  }

  // A path with an interior: the first ancestor of its last vertex but one has a semidominator as low as its start.
  lemma LongCandidate(g: Graph, r: nat, t: Tree, sdom: nat -> nat, semi: nat, w: nat, p: seq<nat>)
    requires IsDfsTree(g, r, t) && w < g.n && w != r && semi < g.n && SemiPath(g, t, p, w) && |p| > 2
    requires forall u | 0 <= u < g.n && t.num[w] < t.num[u] :: IsSemi(g, t, sdom(u), u)
    requires BelowCandidate(g, t, sdom, semi, p[|p| - 2], w)
    ensures t.num[semi] <= t.num[p[0]]
  {
    var k := |p| - 2;
    var v := p[k];
    var j := FirstAncestorOnPath(g, t, p, k, v);
    var u := p[j];
    forall i | 0 < i < j
      ensures !Anc(g, t, p[i], u)
    {
      if Anc(g, t, p[i], u) {
        AncTrans(g, r, t, p[i], u, v);
        assert false;
      }
    }
    StretchAbove(g, r, t, p, 0, j);
    SplitPath(g, p, j);
    var q := p[..j + 1];
    assert SemiPath(g, t, q, u) && q[0] == p[0];
    assert IsSemi(g, t, sdom(u), u);
  }

  lemma ShortCandidate(g: Graph, r: nat, t: Tree, sdom: nat -> nat, semi: nat, w: nat, p: seq<nat>)
    requires IsDfsTree(g, r, t) && w < g.n && w != r && semi < g.n && SemiPath(g, t, p, w) && |p| == 2
    requires forall u | 0 <= u < g.n && t.num[w] < t.num[u] :: IsSemi(g, t, sdom(u), u)
    requires BelowCandidate(g, t, sdom, semi, p[0], w)
    ensures t.num[semi] <= t.num[p[0]]
  {
    var v := p[0];
    if t.num[v] > t.num[w] {
      assert Anc(g, t, v, v) && IsSemi(g, t, sdom(v), v);
      ParentSemiPath(g, r, t, v);
      SemiIsAncestor(g, r, t, sdom(v), v);
    }
  }

  // The semidominator is a proper tree ancestor.
  lemma SemiIsAncestor(g: Graph, r: nat, t: Tree, s: nat, w: nat)
    requires IsDfsTree(g, r, t) && w < g.n && w != r && IsSemi(g, t, s, w)
    ensures t.num[s] < t.num[w] && Anc(g, t, s, w)
  {
    ParentSemiPath(g, r, t, w);
    assert t.num[s] <= t.num[[t.parent[w], w][0]];
    var p :| SemiPath(g, t, p, w) && p[0] == s;
    PathStaysBelow(g, r, t, p);
  }

  // No strict dominator of w lies strictly below the semidominator of w.
  lemma DominatorAboveSemi(g: Graph, r: nat, t: Tree, s: nat, w: nat, d: nat)
    requires IsDfsTree(g, r, t) && w < g.n && w != r && IsSemi(g, t, s, w) && SDom(g, r, d, w)
    ensures d < g.n && t.num[d] <= t.num[s]
  {
    SemiIsAncestor(g, r, t, s, w);
    DomIsAnc(g, r, t, d, w);
    RootAnc(g, r, t, s);
    var p := TreePath(g, r, t, r, s);
    var q :| SemiPath(g, t, q, w) && q[0] == s;
    JoinPaths(g, p, q, r, s, w);
    assert d in Join(p, q);
    forall i | 0 < i < |q|
      ensures q[i] != d
    {
    }
    assert q[0] in p;
    forall x | x in p
      ensures t.num[x] <= t.num[s]
    {
    }
  }

  // The heart of Semi-NCA: a dominator c of w's parent that is no lower than w's semidominator
  // dominates w itself.
  lemma {:induction false} ParentDominatorDominates(g: Graph, r: nat, t: Tree, s: nat, c: nat, w: nat)
    requires IsDfsTree(g, r, t) && w < g.n && w != r && IsSemi(g, t, s, w)
    requires c < g.n && Dom(g, r, c, t.parent[w]) && t.num[c] <= t.num[s]
    ensures Dom(g, r, c, w)
  {
    DomIsAnc(g, r, t, c, t.parent[w]);
    AncTrans(g, r, t, c, t.parent[w], w);
    forall p | PathBetween(g, p, r, w)
      ensures c in p
    {
      PathMeetsDominator(g, r, t, s, c, w, p);
    }
  }

  lemma PathMeetsDominator(g: Graph, r: nat, t: Tree, s: nat, c: nat, w: nat, p: seq<nat>)
    requires IsDfsTree(g, r, t) && w < g.n && w != r && IsSemi(g, t, s, w)
    requires c < g.n && Dom(g, r, c, t.parent[w]) && t.num[c] <= t.num[s] && Anc(g, t, c, w)
    requires PathBetween(g, p, r, w)
    ensures c in p
  {
    if c !in p {
      assert p[0] == r;
      if t.num[c] == 0 {
        SameNum(g, r, t, c, r);
        assert false;
      }
      var i := LastBelow(g, t, p, t.num[c]);
      forall m | i < m < |p|
        ensures t.num[p[m]] > t.num[c]
      {
        OtherNum(g, r, t, p[m], c);
      }
      var j := EntersTreePath(g, r, t, w, p, i);
      if p[j] == w {
        StretchBoundsSemi(g, t, s, w, p, i, j);
      } else {
        DetourToParent(g, r, t, c, w, p, j);
      }
    }
  }

  lemma StretchBoundsSemi(g: Graph, t: Tree, s: nat, w: nat, p: seq<nat>, i: nat, j: nat)
    requires Sized(g, t) && w < g.n && IsSemi(g, t, s, w)
    requires IsPath(g, p) && i < j < |p| && p[j] == w
    requires forall m | i < m < j :: t.num[w] < t.num[p[m]]
    ensures t.num[s] <= t.num[p[i]]
  {
    SplitPath(g, p, j);
    SplitPath(g, p[..j + 1], i);
    var q := p[..j + 1][i..];
    assert forall k | 0 <= k < |q| :: q[k] == p[i + k];
    assert SemiPath(g, t, q, w);
  }

  // The first vertex after position i that is an ancestor of w; everything in between is above it.
  lemma EntersTreePath(g: Graph, r: nat, t: Tree, w: nat, p: seq<nat>, i: nat) returns (j: nat)
    requires IsDfsTree(g, r, t) && IsPath(g, p) && i < |p| - 1 && p[|p| - 1] == w
    ensures i < j < |p| && Anc(g, t, p[j], w)
    ensures forall m | i < m < j :: t.num[p[j]] < t.num[p[m]]
  {
    j := i + 1;
    while !Anc(g, t, p[j], w)
      invariant i < j < |p|
      invariant forall m | i < m < j :: !Anc(g, t, p[m], w)
      decreases |p| - j
    {
      j := j + 1;
    }
    forall m | i < m < j
      ensures !Anc(g, t, p[m], p[j])
    {
      if Anc(g, t, p[m], p[j]) {
        AncTrans(g, r, t, p[m], p[j], w);
        assert false;
      }
    }
    StretchAbove(g, r, t, p, i, j);
  }

  // The last index of p whose vertex has a number below bound.
  lemma LastBelow(g: Graph, t: Tree, p: seq<nat>, bound: nat) returns (i: nat)
    requires Sized(g, t) && IsPath(g, p) && t.num[p[0]] < bound <= t.num[p[|p| - 1]]
    ensures i < |p| - 1 && t.num[p[i]] < bound
    ensures forall m | i < m < |p| :: bound <= t.num[p[m]]
  {
    i := |p| - 2;
    while t.num[p[i]] >= bound
      invariant 0 <= i < |p| - 1
      invariant forall m | i < m < |p| :: bound <= t.num[p[m]]
      decreases i
    {
      i := i - 1;
    }
  }

  // If p reaches a proper ancestor of w below c, the tree continues it to w's parent without c,
  // so c was already on p.
  lemma DetourToParent(g: Graph, r: nat, t: Tree, c: nat, w: nat, p: seq<nat>, j: nat)
    requires IsDfsTree(g, r, t) && w < g.n && w != r && Dom(g, r, c, t.parent[w])
    requires IsPath(g, p) && p[0] == r && j < |p| && c < g.n
    requires Anc(g, t, p[j], w) && p[j] != w && t.num[c] < t.num[p[j]]
    ensures c in p
  {
    var y, m := p[j], t.parent[w];
    if t.num[y] == t.num[w] {
      SameNum(g, r, t, y, w);
      assert false;
    }
    SplitPath(g, p, j);
    var q := TreePath(g, r, t, y, m);
    JoinPaths(g, p[..j + 1], q, r, y, m);
    assert c in Join(p[..j + 1], q);
    assert c !in q;
  }

  // The walk in `idoms` stops at a node that is the immediate dominator.
  lemma NcaIsIdom(g: Graph, r: nat, t: Tree, s: nat, c: nat, w: nat)
    requires IsDfsTree(g, r, t) && w < g.n && w != r && IsSemi(g, t, s, w)
    requires c < g.n && Dom(g, r, c, t.parent[w]) && t.num[c] <= t.num[s]
    requires forall d: nat | Dom(g, r, d, t.parent[w]) && d < g.n && t.num[d] <= t.num[s] :: Dom(g, r, d, c)
    ensures IsIdom(g, r, c, w)
  {
    ParentDominatorDominates(g, r, t, s, c, w);
    SemiIsAncestor(g, r, t, s, w);
    forall e | SDom(g, r, e, w)
      ensures Dom(g, r, e, c)
    {
      DomParent(g, r, t, e, w);
      DomIsAnc(g, r, t, e, w);
      DominatorAboveSemi(g, r, t, s, w, e);
    }
  }
}
