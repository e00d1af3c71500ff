// src/compile.rs, `process_function`: a frame's edges are added node by node, so they are grouped by
// source, while the graph's edges stand in the order in which the front end made them.
module Regrouping {
  import opened Ir
  import opened Semantics
  import opened Bytecode
  import opened Frames

  // The edges out of a block, oldest first.
  function OutInOrder(edges: seq<Edge>, src: nat): seq<nat> {
    if edges == [] then []
    else
      var last := |edges| - 1;
      OutInOrder(edges[..last], src) + (if edges[last].src == src then [last] else [])
  }

  // Which of the graph's edges each of the frame's edges is.
  function EdgesBySource(edges: seq<Edge>, n: nat): seq<nat> {
    if n == 0 then [] else EdgesBySource(edges, n - 1) + OutInOrder(edges, n - 1)
  }

  function FrameEdge(edge: Edge, cond: nat): FEdge {
    FEdge(edge.src, edge.dst, if edge.cond.Some? then Some(cond) else None)
  }

  // A rearrangement that keeps the order of the edges of each source.
  ghost predicate Rearranges(edges: seq<Edge>, em: seq<nat>) {
    && |em| == |edges| && (forall e | 0 <= e < |em| :: em[e] < |edges|)
    && (forall g: nat | g < |edges| :: g in em)
    && (forall e, e2 | 0 <= e < e2 < |em| :: em[e] != em[e2])
    && (forall e, e2 | 0 <= e < e2 < |em| && edges[em[e]].src == edges[em[e2]].src :: em[e] < em[e2])
  }

  // All edges out of src, ascending.
  ghost predicate AreOut(edges: seq<Edge>, src: nat, r: seq<nat>) {
    && (forall i | 0 <= i < |r| :: r[i] < |edges| && edges[r[i]].src == src)
    && (forall i, j | 0 <= i < j < |r| :: r[i] < r[j])
    && (forall e: nat | e < |edges| && edges[e].src == src :: e in r)
  }

  lemma {:induction false} OutInOrderIs(edges: seq<Edge>, src: nat)
    ensures AreOut(edges, src, OutInOrder(edges, src))
  {
    if edges != [] {
      OutInOrderIs(edges[..|edges| - 1], src);
      OneMoreOut(edges, src, OutInOrder(edges[..|edges| - 1], src));
    }
  }

  lemma OneMoreOut(edges: seq<Edge>, src: nat, init: seq<nat>)
    requires edges != [] && AreOut(edges[..|edges| - 1], src, init)
    ensures AreOut(edges, src, init + (if edges[|edges| - 1].src == src then [|edges| - 1] else []))
  {
    forall e: nat | e < |edges| - 1 && edges[e].src == src
      ensures e in init
    {
      assert edges[..|edges| - 1][e] == edges[e];
    }
  }

  // The walker gives the newest edge first; turned round, that is the order of insertion.
  lemma {:induction false} ReversedOut(edges: seq<Edge>, src: nat, k: nat)
    requires k < |OutEdges(edges, src)|
    ensures |OutInOrder(edges, src)| == |OutEdges(edges, src)|
    ensures OutInOrder(edges, src)[k] == OutEdges(edges, src)[|OutEdges(edges, src)| - 1 - k]
  {
    SameLength(edges, src);
    var init := edges[..|edges| - 1];
    SameLength(init, src);
    if k < |OutEdges(init, src)| {
      ReversedOut(init, src, k);
    }
  }

  lemma {:induction false} SameLength(edges: seq<Edge>, src: nat)
    ensures |OutInOrder(edges, src)| == |OutEdges(edges, src)|
  {
    if edges != [] {
      SameLength(edges[..|edges| - 1], src);
    }
  }

  // What the first n sources contribute.
  ghost predicate GroupedBelow(edges: seq<Edge>, n: nat, r: seq<nat>) {
    && (forall i | 0 <= i < |r| :: r[i] < |edges| && edges[r[i]].src < n)
    && (forall e: nat | e < |edges| && edges[e].src < n :: e in r)
    && (forall i, j | 0 <= i < j < |r| :: r[i] != r[j])
    && (forall i, j | 0 <= i < j < |r| && edges[r[i]].src == edges[r[j]].src :: r[i] < r[j])
  }

  lemma {:induction false} RegroupedUpTo(edges: seq<Edge>, n: nat)
    ensures GroupedBelow(edges, n, EdgesBySource(edges, n))
  {
    hide GroupedBelow, AreOut, OutInOrder;
    if n == 0 {
      NothingBelow(edges);
    } else {
      RegroupedUpTo(edges, n - 1);
      OutInOrderIs(edges, n - 1);
      OneMoreSource(edges, n - 1, EdgesBySource(edges, n - 1), OutInOrder(edges, n - 1));
    }
  }

  lemma NothingBelow(edges: seq<Edge>)
    ensures GroupedBelow(edges, 0, [])
  {
  }

  lemma OneMoreSource(edges: seq<Edge>, n: nat, r: seq<nat>, s: seq<nat>)
    requires GroupedBelow(edges, n, r)
    requires AreOut(edges, n, s)
    ensures GroupedBelow(edges, n + 1, r + s)
  {
  }

  lemma {:induction false} Counting(s: seq<nat>, n: nat)
    requires (forall i | 0 <= i < |s| :: s[i] < n) && (forall e: nat | e < n :: e in s)
    requires forall i, j | 0 <= i < j < |s| :: s[i] != s[j]
    ensures |s| == n
  {
    if n > 0 {
      assert n - 1 in s;
      var i :| 0 <= i < |s| && s[i] == n - 1;
      WithoutOne(s, i);
      Counting(s[..i] + s[i + 1..], n - 1);
    }
  }

  // Taking out position i leaves everything else, still without repetition.
  lemma WithoutOne(s: seq<nat>, i: nat)
    requires i < |s| && forall j, k | 0 <= j < k < |s| :: s[j] != s[k]
    ensures var t := s[..i] + s[i + 1..];
            && (forall j, k | 0 <= j < k < |t| :: t[j] != t[k])
            && (forall e :: e in t <==> e in s && e != s[i])
  {
    var t := s[..i] + s[i + 1..];
    forall j | 0 <= j < |t|
      ensures t[j] == s[if j < i then j else j + 1]
    {
    }
    forall e | e in s && e != s[i]
      ensures e in t
    {
      var j :| 0 <= j < |s| && s[j] == e;
      assert t[if j < i then j else j - 1] == e;
    }
  }

  // Grouping loses no edge, repeats none, and keeps the order of each source's edges.
  lemma RegroupRearranges(edges: seq<Edge>, n: nat)
    requires forall e | 0 <= e < |edges| :: edges[e].src < n
    ensures Rearranges(edges, EdgesBySource(edges, n))
  {
    RegroupedUpTo(edges, n);
    Counting(EdgesBySource(edges, n), |edges|);
  }

  // Frame edge e was made from graph edge em[e].
  ghost predicate MadeFrom(fedges: seq<FEdge>, edges: seq<Edge>, em: seq<nat>, cond: nat -> nat) {
    && |fedges| == |em|
    && (forall e | 0 <= e < |em| :: em[e] < |edges| && fedges[e] == FrameEdge(edges[em[e]], cond(em[e])))
  }

  // The edges of one source. `cond` gives the register that a branch condition was put into.
  method ProcessNode(edges: seq<Edge>, src: nat, cond: nat -> nat, before: seq<FEdge>, ghost em: seq<nat>)
    returns (fedges: seq<FEdge>)
    requires MadeFrom(before, edges, em, cond)
    ensures MadeFrom(fedges, edges, em + OutInOrder(edges, src), cond)
  {
    hide MadeFrom, OutEdges, OutInOrder, FrameEdge;
    fedges := before;
    var branches := OutEdges(edges, src);
    ghost var out := OutInOrder(edges, src);
    OutInOrderIs(edges, src);
    SameLength(edges, src);
    var k := |branches|;
    assert em + out[..0] == em;
    while k > 0
      invariant 0 <= k <= |branches| == |out| && MadeFrom(fedges, edges, em + out[..|out| - k], cond)
    {
      k := k - 1;
      var e := branches[k];
      ReversedOut(edges, src, |out| - 1 - k);
      OneMoreMade(fedges, edges, em + out[..|out| - 1 - k], cond, e);
      assert em + out[..|out| - k] == em + out[..|out| - 1 - k] + [e];
      fedges := fedges + [FrameEdge(edges[e], cond(e))];
    }
    assert out[..|out|] == out;
  }

  method ProcessEdges(edges: seq<Edge>, n: nat, cond: nat -> nat) returns (fedges: seq<FEdge>)
    ensures MadeFrom(fedges, edges, EdgesBySource(edges, n), cond)
  {
    hide MadeFrom;
    fedges := [];
    NothingMade(edges, cond);
    for i := 0 to n
      invariant MadeFrom(fedges, edges, EdgesBySource(edges, i), cond)
    {
      fedges := ProcessNode(edges, i, cond, fedges, EdgesBySource(edges, i));
    }
  }

  lemma NothingMade(edges: seq<Edge>, cond: nat -> nat)
    ensures MadeFrom([], edges, [], cond)
  {
  }

  lemma OneMoreMade(fedges: seq<FEdge>, edges: seq<Edge>, em: seq<nat>, cond: nat -> nat, e: nat)
    requires MadeFrom(fedges, edges, em, cond) && e < |edges|
    ensures MadeFrom(fedges + [FrameEdge(edges[e], cond(e))], edges, em + [e], cond)
  {
  }

  // ---- Both take the same branch ----

  ghost predicate Taken<V, W>(sem: MSem<V, W>, edges: seq<FEdge>, b: nat, e: nat, regs: Regs<V>)
    requires e < |edges|
  {
    edges[e].src == b && (edges[e].cond.None? || sem.nonzero(regs(Reg(Int, edges[e].cond.value))))
  }

  lemma {:induction false} ChooseIsFirst<V, W>(sem: MSem<V, W>, edges: seq<FEdge>, b: nat, k: nat, regs: Regs<V>)
    requires k <= |edges|
    ensures var r := Choose(sem, edges, b, k, regs);
            && (r.None? ==> forall e | k <= e < |edges| :: !Taken(sem, edges, b, e, regs))
            && (r.Some? ==>
                  && k <= r.value && Taken(sem, edges, b, r.value, regs)
                  && (forall e | k <= e < r.value :: !Taken(sem, edges, b, e, regs)))
    decreases |edges| - k
  {
    if k < |edges| {
      ChooseIsFirst(sem, edges, b, k + 1, regs);
    }
  }

  ghost predicate Holds<V, W>(sem: Sem<V, W>, lg: set<nat>, edges: seq<Edge>, b: nat, e: nat, env: Env<V>, w: W)
    requires e < |edges|
  {
    edges[e].src == b && (edges[e].cond.None? || sem.truthy(Operand(sem, lg, env, w, edges[e].cond.value)))
  }

  lemma {:induction false} BranchIsFirst<V, W>(sem: Sem<V, W>, lg: set<nat>, edges: seq<Edge>, b: nat, k: nat,
                                               env: Env<V>, w: W)
    requires k <= |edges|
    ensures var r := Branch(sem, lg, edges, b, k, env, w);
            && (r.None? ==> forall e | k <= e < |edges| :: !Holds(sem, lg, edges, b, e, env, w))
            && (r.Some? ==>
                  && k <= r.value && Holds(sem, lg, edges, b, r.value, env, w)
                  && (forall e | k <= e < r.value :: !Holds(sem, lg, edges, b, e, env, w)))
    decreases |edges| - k
  {
    if k < |edges| {
      BranchIsFirst(sem, lg, edges, b, k + 1, env, w);
    }
  }

  // If the condition registers out of b hold what the graph's conditions say, the frame takes the
  // very edge that the graph takes.
  lemma SameBranch<V, W, X, Y>(sem: Sem<V, W>, msem: MSem<X, Y>, lg: set<nat>, edges: seq<Edge>, em: seq<nat>,
                               fedges: seq<FEdge>, cond: nat -> nat, b: nat, env: Env<V>, w: W, regs: Regs<X>)
    requires Rearranges(edges, em) && MadeFrom(fedges, edges, em, cond)
    requires forall g: nat | g < |edges| && edges[g].src == b && edges[g].cond.Some? ::
               msem.nonzero(regs(Reg(Int, cond(g)))) <==> sem.truthy(Operand(sem, lg, env, w, edges[g].cond.value))
    ensures var r := Choose(msem, fedges, b, 0, regs);
            Branch(sem, lg, edges, b, 0, env, w) == if r.Some? then Some(em[r.value]) else None
  {
    hide Operand;
    ChooseIsFirst(msem, fedges, b, 0, regs);
    BranchIsFirst(sem, lg, edges, b, 0, env, w);
    forall e | 0 <= e < |fedges|
      ensures Taken(msem, fedges, b, e, regs) <==> Holds(sem, lg, edges, b, em[e], env, w)
    {
    }
    var r, q := Choose(msem, fedges, b, 0, regs), Branch(sem, lg, edges, b, 0, env, w);
    if r.Some? {
      assert Holds(sem, lg, edges, b, em[r.value], env, w);
      assert q.Some? && q.value in em;
      var e :| 0 <= e < |em| && em[e] == q.value;
      assert Taken(msem, fedges, b, e, regs);
      KeepsOrder(edges, em, r.value, e);
    } else {
      forall g: nat | g < |edges|
        ensures !Holds(sem, lg, edges, b, g, env, w)
      {
        assert g in em;
        var e :| 0 <= e < |em| && em[e] == g;
        assert !Taken(msem, fedges, b, e, regs);
      }
    }
  }

  lemma KeepsOrder(edges: seq<Edge>, em: seq<nat>, a: nat, e: nat)
    requires Rearranges(edges, em) && a <= e < |em| && edges[em[a]].src == edges[em[e]].src
    ensures em[a] <= em[e]
  {
  }
}
