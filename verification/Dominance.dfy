// Dominators of a flow graph, defined by paths, with the laws every layer above uses.
module Dominance {
  import opened Graphs

  // a dominates b: every path from the entry r to b passes through a.
  ghost predicate Dom(g: Graph, r: nat, a: nat, b: nat) {
    forall p {:trigger PathBetween(g, p, r, b)} :: PathBetween(g, p, r, b) ==> a in p
  }

  ghost predicate SDom(g: Graph, r: nat, a: nat, b: nat) {
    a != b && Dom(g, r, a, b)
  }

  // d is the immediate dominator of w: a strict dominator that every strict dominator dominates.
  ghost predicate IsIdom(g: Graph, r: nat, d: nat, w: nat) {
    && SDom(g, r, d, w)
    && forall e | SDom(g, r, e, w) :: Dom(g, r, e, d)
  }

  lemma DomRefl(g: Graph, r: nat, a: nat)
    ensures Dom(g, r, a, a)
  {
    forall p | PathBetween(g, p, r, a)
      ensures a in p
    {
      assert p[|p| - 1] == a;
    }
  }

  lemma EntryDom(g: Graph, r: nat, a: nat)
    ensures Dom(g, r, r, a)
  {
    forall p | PathBetween(g, p, r, a)
      ensures r in p
    {
      assert p[0] == r;
    }
  }

  lemma DomTrans(g: Graph, r: nat, a: nat, b: nat, c: nat)
    requires Dom(g, r, a, b) && Dom(g, r, b, c)
    ensures Dom(g, r, a, c)
  {
    forall p | PathBetween(g, p, r, c)
      ensures a in p
    {
      var i :| 0 <= i < |p| && p[i] == b;
      SplitPath(g, p, i);
      assert a in p[..i + 1];
    }
  }

  // A strict dominator of w dominates every predecessor of w.
  lemma DomPred(g: Graph, r: nat, a: nat, p: nat, w: nat)
    requires g.Valid() && SDom(g, r, a, w) && g.HasEdge(p, w)
    ensures Dom(g, r, a, p)
  {
    forall q | PathBetween(g, q, r, p)
      ensures a in q
    {
      ExtendPath(g, q, r, p, w);
      assert a in q + [w];
    }
  }

  // A node that dominates every predecessor of w, w not being the entry, dominates w.
  lemma DomFromPreds(g: Graph, r: nat, a: nat, w: nat)
    requires w != r
    requires forall p | g.HasEdge(p, w) :: Dom(g, r, a, p)
    ensures Dom(g, r, a, w)
  {
    forall q | PathBetween(g, q, r, w)
      ensures a in q
    {
      assert |q| >= 2;
      var p := q[|q| - 2];
      SplitPath(g, q, |q| - 2);
      assert g.HasEdge(p, q[|q| - 2 + 1]);
      assert a in q[..|q| - 2 + 1];
    }
  }

  // Shortest-path argument: mutual dominance means equality.
  lemma DomAntisym(g: Graph, r: nat, a: nat, b: nat)
    requires Reachable(g, r, a) && Dom(g, r, a, b) && Dom(g, r, b, a)
    ensures a == b
  {
    var p :| PathBetween(g, p, r, a);
    DomAntisymPath(g, r, a, b, p);
  }

  lemma DomAntisymPath(g: Graph, r: nat, a: nat, b: nat, p: seq<nat>)
    requires PathBetween(g, p, r, a) && Dom(g, r, a, b) && Dom(g, r, b, a)
    ensures a == b
    decreases |p|
  {
    var i :| 0 <= i < |p| && p[i] == b;
    SplitPath(g, p, i);
    if a != b {
      assert i < |p| - 1;
      DomAntisymPath(g, r, b, a, p[..i + 1]);
    }
  }

  lemma IdomUnique(g: Graph, r: nat, d: nat, e: nat, w: nat)
    requires Reachable(g, r, d)
    requires IsIdom(g, r, d, w) && IsIdom(g, r, e, w)
    ensures d == e
  {
    DomAntisym(g, r, d, e);
  }
}
