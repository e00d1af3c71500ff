// The SSA conversion of one function, as a finished object: the original graph, what was placed,
// what was renamed, and what all layers together guarantee about it.
module SsaForm {
  import opened Graphs
  import opened Dominance
  import opened DomTables
  import opened Ir
  import opened PhiPlacement
  import opened Renaming

  // `sites` maps each promoted identifier to its definition sites; `w` holds the renamed graph.
  datatype Conversion = Conversion(entry: nat, blocks: seq<seq<PrimStmt>>, edges: seq<Edge>,
                                   idom: seq<nat>, df: seq<set<nat>>, sites: map<Ident, set<nat>>,
                                   phis: map<Ident, set<nat>>, pre: seq<seq<PrimStmt>>, w: Work) {
    function G(): Graph {
      GraphOf(|blocks|, edges)
    }
    function Before(): Program {
      Program(entry, blocks, edges)
    }
    function After(): Program {
      Program(entry, w.blocks, w.edges)
    }
  }

  ghost predicate Converts(c: Conversion) {
    && FlowGraph(c.G(), c.entry) && IsIdomTable(c.G(), c.entry, c.idom)
    && FrontierExact(c.G(), c.entry, c.df)
    && Placed(c.G(), c.phis, c.pre, c.blocks, c.w.base)
    && (forall id | id in c.sites :: IsIteratedFrontier(c.df, c.sites[id], PlacedFor(c.phis, id)))
    && (forall id | id !in c.sites :: PlacedFor(c.phis, id) == {})
    && c.w.baseEdges == c.edges && IsRenamed(c.entry, c.idom, c.w)
  }

  lemma ConvertsIs(c: Conversion)
    requires FlowGraph(c.G(), c.entry) && IsIdomTable(c.G(), c.entry, c.idom)
    requires FrontierExact(c.G(), c.entry, c.df) && Placed(c.G(), c.phis, c.pre, c.blocks, c.w.base)
    requires forall id | id in c.sites :: IsIteratedFrontier(c.df, c.sites[id], PlacedFor(c.phis, id))
    requires forall id | id !in c.sites :: PlacedFor(c.phis, id) == {}
    requires c.w.baseEdges == c.edges && IsRenamed(c.entry, c.idom, c.w)
    ensures Converts(c)
  {
  }

  // Every assignment to this name, every use and every branch on it is of version zero.
  ghost predicate Unversioned(p: Program, low: nat) {
    && (forall b, i | 0 <= b < |p.blocks| && 0 <= i < |p.blocks[b]| && p.blocks[b][i].Defines(low) ::
          p.blocks[b][i].id.sub == 0)
    && (forall b, i, v | 0 <= b < |p.blocks| && 0 <= i < |p.blocks[b]| && v in p.blocks[b][i].Uses() &&
                         v.Var? && v.id.low == low :: v.id.sub == 0)
    && (forall e | 0 <= e < |p.edges| && p.edges[e].cond.Some? && p.edges[e].cond.value.Var? &&
                   p.edges[e].cond.value.id.low == low :: p.edges[e].cond.value.id.sub == 0)
  }

  // True globals stay at version zero from the entry on, all over the graph.
  lemma {:induction false} GlobalStaysZero(c: Conversion, b: nat, i: nat, low: nat)
    requires Converts(c) && b < |c.w.trace| && i < |c.w.trace[b]| && low < |c.w.globs| && c.w.globs[low]
    ensures Shaped(c.w) && BlockOk(c.w.globs, c.w.base[b], c.w.blocks[b], c.w.trace[b])
    ensures |c.w.trace[b][i]| == |c.w.globs| && c.w.trace[b][i][low] == 0
    decreases Depth(c.G(), c.entry, b), i
  {
    assert BlockState(c.w, b);
    TraceSizes(c.w.globs, c.w.base[b], c.w.blocks[b], c.w.trace[b], i);
    if i > 0 {
      assert StepOk(c.w.globs, c.w.base[b][i - 1], c.w.blocks[b][i - 1], c.w.trace[b][i - 1], c.w.trace[b][i - 1 + 1]);
      GlobalStaysZero(c, b, i - 1, low);
    } else {
      assert FlowsInto(c.entry, c.idom, c.w.trace, b);
      if b != c.entry {
        TableEntry(c.G(), c.entry, c.idom, b);
        DepthDrops(c.G(), c.entry, c.idom[b], b);
        GlobalStaysZero(c, c.idom[b], |c.w.trace[c.idom[b]]| - 1, low);
      }
    }
  }

  lemma GlobalsUnversioned(c: Conversion, low: nat)
    requires Converts(c) && low < |c.w.globs| && c.w.globs[low]
    ensures Unversioned(c.After(), low)
  {
    var p := c.After();
    forall b, i | 0 <= b < |p.blocks| && 0 <= i < |p.blocks[b]|
      ensures p.blocks[b][i].Defines(low) ==> p.blocks[b][i].id.sub == 0
      ensures forall v | v in p.blocks[b][i].Uses() && v.Var? && v.id.low == low :: v.id.sub == 0
    {
      StmtUnversioned(c, b, i, low);
    }
    forall e | 0 <= e < |p.edges| && p.edges[e].cond.Some? && p.edges[e].cond.value.Var? &&
               p.edges[e].cond.value.id.low == low
      ensures p.edges[e].cond.value.id.sub == 0
    {
      assert EdgeState(c.w, e);
      var src := c.w.baseEdges[e].src;
      GlobalStaysZero(c, src, |c.w.trace[src]| - 1, low);
    }
  }

  lemma StmtUnversioned(c: Conversion, b: nat, i: nat, low: nat)
    requires Converts(c) && low < |c.w.globs| && c.w.globs[low] && b < |c.w.blocks| && i < |c.w.blocks[b]|
    ensures c.w.blocks[b][i].Defines(low) ==> c.w.blocks[b][i].id.sub == 0
    ensures forall v | v in c.w.blocks[b][i].Uses() && v.Var? && v.id.low == low :: v.id.sub == 0
  {
    assert BlockState(c.w, b);
    GlobalStaysZero(c, b, i, low);
    var s, t := c.w.base[b][i], c.w.blocks[b][i];
    assert StepOk(c.w.globs, s, t, c.w.trace[b][i], c.w.trace[b][i + 1]);
    assert !t.IsPhi() ==> t.Uses() == RenameArgs(s.Uses(), c.w.trace[b][i]);
  }

  // A name that is versioned.
  predicate Local(c: Conversion, low: nat) {
    low != 0 && low < |c.w.globs| && !c.w.globs[low]
  }

  ghost predicate IsPromoted(c: Conversion, low: nat) {
    exists id :: id in c.sites && id.low == low
  }

  // ---- What the front end guarantees about the graph it builds ----

  ghost predicate IdentOk(c: Conversion, lg: set<nat>, id: Ident) {
    && id.sub == 0
    && (id.low != 0 ==> id.low < |c.w.globs| && (c.w.globs[id.low] <==> id.IsGlobal(lg)))
  }

  // A name holds one value along every path to the start of b: it is promoted, or every block
  // that assigns to it strictly dominates b.
  ghost predicate TrackedIn(c: Conversion, low: nat, b: nat) {
    IsPromoted(c, low) ||
    forall d: nat | d < |c.blocks| && DefinesIn(c.blocks[d], low) :: SDom(c.G(), c.entry, d, b)
  }

  // ... or it was assigned earlier in the block.
  ghost predicate TrackedAt(c: Conversion, low: nat, b: nat, i: nat)
    requires b < |c.blocks| && i <= |c.blocks[b]|
  {
    TrackedIn(c, low, b) || DefinesIn(c.blocks[b][..i], low)
  }

  ghost predicate UseOk(c: Conversion, lg: set<nat>, v: PrimVal, b: nat, i: nat)
    requires b < |c.blocks| && i <= |c.blocks[b]|
  {
    v.Var? ==> IdentOk(c, lg, v.id) && (Local(c, v.id.low) ==> TrackedAt(c, v.id.low, b, i))
  }

  ghost predicate StmtWellFormed(c: Conversion, lg: set<nat>, b: nat, i: nat)
    requires b < |c.blocks| && i < |c.blocks[b]|
  {
    var s := c.blocks[b][i];
    && !s.IsPhi()
    && (s.AsgnVar? ==> IdentOk(c, lg, s.id))
    && (forall v | v in s.Uses() :: UseOk(c, lg, v, b, i))
  }

  // No phis yet, the entry is not a branch target, promoted names are recorded at every block that
  // assigns to them, and the names that get no phis are assigned before they are used.
  ghost predicate WellFormed(c: Conversion, lg: set<nat>) {
    && c.G().Preds(c.entry) == []
    && (forall b, i {:trigger StmtWellFormed(c, lg, b, i)} | 0 <= b < |c.blocks| && 0 <= i < |c.blocks[b]| ::
          StmtWellFormed(c, lg, b, i))
    && (forall e | 0 <= e < |c.edges| && c.edges[e].cond.Some? && c.edges[e].src < |c.blocks| ::
          UseOk(c, lg, c.edges[e].cond.value, c.edges[e].src, |c.blocks[c.edges[e].src]|))
    && (forall id | id in c.sites :: id.sub == 0 && Local(c, id.low))
    && (forall id, other | id in c.sites && other in c.sites && id.low == other.low :: id == other)
    && (forall id, d: nat | id in c.sites && d < |c.blocks| && DefinesIn(c.blocks[d], id.low) :: d in c.sites[id])
  }

  // ---- Versions across blocks and edges ----

  ghost predicate Ready(c: Conversion, lg: set<nat>) {
    && Converts(c) && WellFormed(c, lg)
    && |c.blocks| == |c.pre| == |c.w.base| == |c.w.blocks| == |c.w.trace| == |c.df| == |c.idom|
    && c.entry < |c.blocks| && |c.w.edges| == |c.edges|
  }

  lemma ReadyIs(c: Conversion, lg: set<nat>)
    requires Converts(c) && WellFormed(c, lg)
    ensures Ready(c, lg)
  {
  }

  // Block b after phi insertion, its renaming, and its phis.
  lemma BlockFacts(c: Conversion, lg: set<nat>, b: nat)
    requires Ready(c, lg) && b < |c.blocks|
    ensures c.w.trace[b] != [] && BlockOk(c.w.globs, c.w.base[b], c.w.blocks[b], c.w.trace[b])
    ensures c.w.base[b] == c.pre[b] + c.blocks[b] && IsPhiRun(c.pre[b], c.G().Preds(b))
    ensures |c.w.blocks[b]| == |c.pre[b]| + |c.blocks[b]| && |c.w.trace[b]| == |c.w.blocks[b]| + 1
    ensures forall id :: HasPhi(c.pre[b], id) <==> b in PlacedFor(c.phis, id)
    ensures FlowsInto(c.entry, c.idom, c.w.trace, b)
    ensures forall i | 0 <= i < |c.w.trace[b]| :: |c.w.trace[b][i]| == |c.w.globs|
  {
    assert BlockState(c.w, b);
    assert BlockHolds(c.phis, b, c.pre[b], c.G().Preds(b), c.blocks[b], c.w.base[b]);
    forall i | 0 <= i < |c.w.trace[b]|
      ensures |c.w.trace[b][i]| == |c.w.globs|
    {
      TraceSizes(c.w.globs, c.w.base[b], c.w.blocks[b], c.w.trace[b], i);
    }
  }

  // Versions in front of the block's own statements, that is, after its phis.
  ghost function Start(c: Conversion, b: nat): Vers
    requires b < |c.w.trace| && b < |c.pre| && |c.pre[b]| < |c.w.trace[b]|
  {
    c.w.trace[b][|c.pre[b]|]
  }

  // A stretch of statements without a definition of `low` keeps its version.
  lemma {:induction false} SteadyStretch(c: Conversion, lg: set<nat>, b: nat, i: nat, j: nat, low: nat)
    requires Ready(c, lg) && b < |c.blocks| && i <= j <= |c.w.base[b]| && low < |c.w.globs|
    requires forall k | i <= k < j :: !c.w.base[b][k].Defines(low)
    ensures |c.w.trace[b]| == |c.w.base[b]| + 1 && |c.w.trace[b][i]| == |c.w.trace[b][j]| == |c.w.globs|
    ensures c.w.trace[b][i][low] == c.w.trace[b][j][low]
    decreases j - i
  {
    BlockFacts(c, lg, b);
    if i < j {
      SteadyStretch(c, lg, b, i, j - 1, low);
      assert StepOk(c.w.globs, c.w.base[b][j - 1], c.w.blocks[b][j - 1], c.w.trace[b][j - 1], c.w.trace[b][j - 1 + 1]);
      assert !c.w.base[b][j - 1].Defines(low);
    }
  }

  // `low` keeps its version through x: neither a phi nor a statement there assigns to it.
  ghost predicate Passes(c: Conversion, x: nat, low: nat) {
    x < |c.w.base| && !DefinesIn(c.w.base[x], low)
  }

  // Climbing the dominator tree from x up to d without meeting a definition.
  lemma {:induction false} Climb(c: Conversion, lg: set<nat>, d: nat, x: nat, low: nat)
    requires Ready(c, lg) && d < |c.blocks| && x < |c.blocks| && low < |c.w.globs|
    requires Dom(c.G(), c.entry, d, x)
    requires forall y: nat | y < |c.blocks| && y != d && Dom(c.G(), c.entry, d, y) && Dom(c.G(), c.entry, y, x) ::
               Passes(c, y, low)
    ensures c.w.trace[x] != [] && c.w.trace[d] != [] && |Out(c.w.trace[x])| == |Out(c.w.trace[d])| == |c.w.globs|
    ensures Out(c.w.trace[x])[low] == Out(c.w.trace[d])[low]
    decreases Depth(c.G(), c.entry, x)
  {
    BlockFacts(c, lg, x);
    BlockFacts(c, lg, d);
    var g, r := c.G(), c.entry;
    if x != d {
      if x == r {
        assert Reachable(g, r, r);
        EntryDom(g, r, d);
        DomAntisym(g, r, r, d);
        assert false;
      }
      TableEntry(g, r, c.idom, x);
      DepthDrops(g, r, c.idom[x], x);
      DomRefl(g, r, x);
      assert Passes(c, x, low);
      SteadyStretch(c, lg, x, 0, |c.w.base[x]|, low);
      forall y: nat | y < |c.blocks| && y != d && Dom(g, r, d, y) && Dom(g, r, y, c.idom[x])
        ensures Passes(c, y, low)
      {
        DomTrans(g, r, y, c.idom[x], x);
      }
      Climb(c, lg, d, c.idom[x], low);
    }
  }

  ghost predicate PhiFor(c: Conversion, b: nat, low: nat)
    requires b < |c.pre|
  {
    DefinesIn(c.pre[b], low)
  }

  lemma PhiForPromoted(c: Conversion, lg: set<nat>, b: nat, low: nat)
    requires Ready(c, lg) && b < |c.blocks| && PhiFor(c, b, low)
    ensures exists id :: id in c.sites && id.low == low && b in PlacedFor(c.phis, id)
  {
    BlockFacts(c, lg, b);
    var i :| 0 <= i < |c.pre[b]| && c.pre[b][i].Defines(low);
    assert HasPhi(c.pre[b], c.pre[b][i].id);
  }

  // A definition of a tracked name in y puts a phi for it wherever y's dominance ends.
  lemma DefinitionPutsPhi(c: Conversion, lg: set<nat>, b: nat, y: nat, low: nat)
    requires Ready(c, lg) && b < |c.blocks| && y < |c.blocks|
    requires TrackedIn(c, low, b) && InFrontier(c.G(), c.entry, y, b) && DefinesIn(c.w.base[y], low)
    ensures PhiFor(c, b, low)
  {
    BlockFacts(c, lg, y);
    BlockFacts(c, lg, b);
    assert b in c.df[y];
    var i :| 0 <= i < |c.w.base[y]| && c.w.base[y][i].Defines(low);
    var id: Ident;
    if i < |c.pre[y]| {
      assert c.pre[y][i].Defines(low);
      PhiForPromoted(c, lg, y, low);
      id :| id in c.sites && id.low == low && y in PlacedFor(c.phis, id);
    } else {
      assert c.blocks[y][i - |c.pre[y]|].Defines(low);
      assert DefinesIn(c.blocks[y], low);
      assert IsPromoted(c, low);
      id :| id in c.sites && id.low == low;
      assert y in c.sites[id];
    }
    assert Closed(c.df, c.sites[id], PlacedFor(c.phis, id));
    assert HasPhi(c.pre[b], id);
    var k :| 0 <= k < |c.pre[b]| && c.pre[b][k].AsgnVar? && c.pre[b][k].id == id;
    assert c.pre[b][k].Defines(low);
  }

  // On the way from a predecessor p of b up to b's immediate dominator nothing assigns to `low`,
  // if b has no phi for it.
  lemma RunnersPass(c: Conversion, lg: set<nat>, p: nat, b: nat, low: nat, y: nat)
    requires Ready(c, lg) && b < |c.blocks| && b != c.entry && c.G().HasEdge(p, b)
    requires TrackedIn(c, low, b) && !PhiFor(c, b, low)
    requires y < |c.blocks| && y != c.idom[b] && Dom(c.G(), c.entry, c.idom[b], y) && Dom(c.G(), c.entry, y, p)
    ensures Passes(c, y, low)
  {
    var g, r := c.G(), c.entry;
    TableEntry(g, r, c.idom, b);
    if SDom(g, r, y, b) {
      assert Reachable(g, r, y);
      DomAntisym(g, r, y, c.idom[b]);
      assert false;
    }
    assert InFrontier(g, r, y, b);
    if DefinesIn(c.w.base[y], low) {
      DefinitionPutsPhi(c, lg, b, y, low);
    }
  }

  // Without a phi, every edge into b brings the version b starts with.
  lemma EdgeVersion(c: Conversion, lg: set<nat>, p: nat, b: nat, low: nat)
    requires Ready(c, lg) && b < |c.blocks| && p < |c.blocks| && c.G().HasEdge(p, b)
    requires Local(c, low) && TrackedIn(c, low, b) && !PhiFor(c, b, low)
    ensures c.w.trace[p] != [] && |Out(c.w.trace[p])| == |c.w.globs|
    ensures |c.pre[b]| < |c.w.trace[b]| && |Start(c, b)| == |c.w.globs|
    ensures Out(c.w.trace[p])[low] == Start(c, b)[low]
  {
    var g, r := c.G(), c.entry;
    BlockFacts(c, lg, b);
    BlockFacts(c, lg, p);
    assert p in g.Preds(b);
    assert b != r;
    TableEntry(g, r, c.idom, b);
    DomPred(g, r, c.idom[b], p, b);
    forall y: nat | y < |c.blocks| && y != c.idom[b] && Dom(g, r, c.idom[b], y) && Dom(g, r, y, p)
      ensures Passes(c, y, low)
    {
      RunnersPass(c, lg, p, b, low, y);
    }
    Climb(c, lg, c.idom[b], p, low);
    forall k | 0 <= k < |c.pre[b]|
      ensures !c.w.base[b][k].Defines(low)
    {
      assert c.w.base[b][k] == c.pre[b][k];
      assert !c.pre[b][k].Defines(low);
    }
    SteadyStretch(c, lg, b, 0, |c.pre[b]|, low);
  }
}
