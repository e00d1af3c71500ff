// Renaming yields strict SSA: one assignment per version, and definitions dominate uses.
module SsaStrict {
  import opened Graphs
  import opened Dominance
  import opened DomTables
  import opened Ir
  import opened Renaming
  import opened Semantics
  import opened SsaForm
  import opened SsaMeaning

  // Version sub of `low` is assigned before position i of block b on every path.
  ghost predicate DefinedBefore(c: Conversion, low: nat, sub: nat, b: nat, i: nat)
    requires Shaped(c.w)
  {
    exists d: nat, j: nat :: DefAt(c.w, d, j, low, sub) && ((d == b && j < i) || SDom(c.G(), c.entry, d, b))
  }

  // ... or before the end of block p.
  ghost predicate DefinedByEnd(c: Conversion, low: nat, sub: nat, p: nat)
    requires Shaped(c.w)
  {
    exists d: nat, j: nat :: DefAt(c.w, d, j, low, sub) && Dom(c.G(), c.entry, d, p)
  }

  // Climbing towards the entry finds where the current version came from.
  lemma {:induction false} VersionHasSource(c: Conversion, lg: set<nat>, b: nat, i: nat, low: nat)
    requires Ready(c, lg) && b < |c.blocks| && i < |c.w.trace[b]| && Local(c, low)
    requires low < |c.w.trace[b][i]| && c.w.trace[b][i][low] != 0
    ensures DefinedBefore(c, low, c.w.trace[b][i][low], b, i)
    decreases Depth(c.G(), c.entry, b), i, 1
  {
    BlockFacts(c, lg, b);
    var sub := c.w.trace[b][i][low];
    if i > 0 {
      assert StepOk(c.w.globs, c.w.base[b][i - 1], c.w.blocks[b][i - 1], c.w.trace[b][i - 1], c.w.trace[b][i - 1 + 1]);
      if c.w.base[b][i - 1].Defines(low) {
        assert DefAt(c.w, b, i - 1, low, sub);
      } else {
        VersionHasSource(c, lg, b, i - 1, low);
        var d: nat, j: nat :| DefAt(c.w, d, j, low, sub) && ((d == b && j < i - 1) || SDom(c.G(), c.entry, d, b));
        assert DefAt(c.w, d, j, low, sub);
      }
    } else {
      SourceAbove(c, lg, b, low);
    }
  }

  lemma {:induction false} SourceAbove(c: Conversion, lg: set<nat>, b: nat, low: nat)
    requires Ready(c, lg) && b < |c.blocks| && 0 < |c.w.trace[b]| && Local(c, low)
    requires low < |c.w.trace[b][0]| && c.w.trace[b][0][low] != 0
    ensures DefinedBefore(c, low, c.w.trace[b][0][low], b, 0)
    decreases Depth(c.G(), c.entry, b), 0, 0
  {
    assert b < |c.w.trace|;
    hide Ready, SDom, DefAt;
    var sub := c.w.trace[b][0][low];
    var m := FromIdom(c, lg, b, low);
    VersionHasSource(c, lg, m, |c.w.trace[m]| - 1, low);
    var d: nat, j: nat :|
      DefAt(c.w, d, j, low, sub) && ((d == m && j < |c.w.trace[m]| - 1) || SDom(c.G(), c.entry, d, m));
    if d != m {
      SDomOn(c, lg, d, m, b);
    }
    assert DefAt(c.w, d, j, low, sub) && SDom(c.G(), c.entry, d, b);
  }

  // A nonzero version in front of a block is the one that its immediate dominator ends with.
  lemma FromIdom(c: Conversion, lg: set<nat>, b: nat, low: nat) returns (m: nat)
    requires Ready(c, lg) && b < |c.blocks| && b < |c.w.trace| && 0 < |c.w.trace[b]|
    requires low < |c.w.trace[b][0]| && c.w.trace[b][0][low] != 0
    ensures Shaped(c.w) && m < |c.blocks| && m < |c.w.trace| && |c.w.trace[m]| > 0 && SDom(c.G(), c.entry, m, b)
    ensures Depth(c.G(), c.entry, m) < Depth(c.G(), c.entry, b) && c.w.trace[b][0] == Out(c.w.trace[m])
  {
    BlockFacts(c, lg, b);
    m := c.idom[b];
    TableEntry(c.G(), c.entry, c.idom, b);
    DepthDrops(c.G(), c.entry, m, b);
    BlockFacts(c, lg, m);
  }

  lemma SDomOn(c: Conversion, lg: set<nat>, d: nat, m: nat, b: nat)
    requires Ready(c, lg) && b < |c.blocks| && SDom(c.G(), c.entry, d, m) && SDom(c.G(), c.entry, m, b)
    ensures SDom(c.G(), c.entry, d, b)
  {
    hide IsIdomTable, FrontierExact, IsRenamed, WellFormed;
    DomTrans(c.G(), c.entry, d, m, b);
    if d == b {
      assert Reachable(c.G(), c.entry, b);
      DomAntisym(c.G(), c.entry, b, m);
    }
  }

  lemma EndSource(c: Conversion, lg: set<nat>, p: nat, low: nat)
    requires Ready(c, lg) && p < |c.blocks| && c.w.trace[p] != [] && Local(c, low)
    requires low < |Out(c.w.trace[p])| && Out(c.w.trace[p])[low] != 0
    ensures DefinedByEnd(c, low, Out(c.w.trace[p])[low], p)
  {
    var sub := Out(c.w.trace[p])[low];
    VersionHasSource(c, lg, p, |c.w.trace[p]| - 1, low);
    var d: nat, j: nat :|
      DefAt(c.w, d, j, low, sub) && ((d == p && j < |c.w.trace[p]| - 1) || SDom(c.G(), c.entry, d, p));
    DomRefl(c.G(), c.entry, p);
    assert DefAt(c.w, d, j, low, sub);
  }

  // Every nonzero version of a local is assigned by at most one statement, phis included.
  lemma OneDefinition(c: Conversion, lg: set<nat>, b: nat, i: nat, d: nat, j: nat, low: nat, sub: nat)
    requires Ready(c, lg) && Shaped(c.w)
    requires DefAt(c.w, b, i, low, sub) && DefAt(c.w, d, j, low, sub)
    ensures sub > 0 && b == d && i == j
  {
    var counts :| FreshOk(c.w, counts);
  }

  // An ordinary use of a nonzero version is dominated by its definition.
  lemma UseIsDominated(c: Conversion, lg: set<nat>, b: nat, i: nat, v: PrimVal)
    requires Ready(c, lg) && Shaped(c.w) && b < |c.blocks| && i < |c.w.blocks[b]|
    requires v in c.w.blocks[b][i].Uses() && v.Var? && Local(c, v.id.low) && v.id.sub != 0
    ensures DefinedBefore(c, v.id.low, v.id.sub, b, i)
  {
    BlockFacts(c, lg, b);
    var s, t := c.w.base[b][i], c.w.blocks[b][i];
    assert StepOk(c.w.globs, c.w.base[b][i], c.w.blocks[b][i], c.w.trace[b][i], c.w.trace[b][i + 1]);
    var k :| 0 <= k < |t.Uses()| && t.Uses()[k] == v;
    assert t.Uses() == RenameArgs(s.Uses(), c.w.trace[b][i]);
    VersionHasSource(c, lg, b, i, v.id.low);
  }

  // A branch condition is a use at the end of its block.
  lemma CondIsDominated(c: Conversion, lg: set<nat>, e: nat)
    requires Ready(c, lg) && Shaped(c.w) && e < |c.w.edges| && c.w.edges[e].cond.Some?
    requires var v := c.w.edges[e].cond.value; v.Var? && Local(c, v.id.low) && v.id.sub != 0
    ensures DefinedByEnd(c, c.w.edges[e].cond.value.id.low, c.w.edges[e].cond.value.id.sub, c.w.edges[e].src)
  {
    assert EdgeState(c.w, e);
    var p := c.edges[e].src;
    BlockFacts(c, lg, p);
    EndSource(c, lg, p, c.w.edges[e].cond.value.id.low);
  }

  // The argument a phi takes from predecessor p is defined on every path to the end of p.
  lemma PhiArgIsDominated(c: Conversion, lg: set<nat>, p: nat, b: nat, k: nat)
    requires Ready(c, lg) && Shaped(c.w) && b < |c.blocks| && p < |c.blocks| && c.G().HasEdge(p, b)
    requires k < |c.w.blocks[b]| && c.w.blocks[b][k].IsPhi()
    ensures var arg := ArgFor(c.w.blocks[b][k].e.preds, p);
            && arg.Some? && arg.value.low == c.w.blocks[b][k].id.low && Local(c, arg.value.low)
            && (arg.value.sub != 0 ==> DefinedByEnd(c, arg.value.low, arg.value.sub, p))
  {
    PhiAt(c, lg, b, k);
    PhiReads(c, lg, p, b, k);
    var arg := ArgFor(c.w.blocks[b][k].e.preds, p).value;
    if arg.sub != 0 {
      EndSource(c, lg, p, arg.low);
    }
  }

  // The graph after renaming, as one statement.
  ghost predicate IsStrictSsa(c: Conversion)
    requires Shaped(c.w)
  {
    && (forall b: nat, i: nat, d: nat, j: nat, low: nat, sub: nat |
          DefAt(c.w, b, i, low, sub) && DefAt(c.w, d, j, low, sub) :: sub > 0 && b == d && i == j)
    && (forall b: nat, i: nat, v | b < |c.w.blocks| && i < |c.w.blocks[b]| && v in c.w.blocks[b][i].Uses() &&
                         v.Var? && Local(c, v.id.low) && v.id.sub != 0 ::
          DefinedBefore(c, v.id.low, v.id.sub, b, i))
    && (forall e | 0 <= e < |c.w.edges| && c.w.edges[e].cond.Some? && c.w.edges[e].cond.value.Var? &&
                   Local(c, c.w.edges[e].cond.value.id.low) && c.w.edges[e].cond.value.id.sub != 0 ::
          DefinedByEnd(c, c.w.edges[e].cond.value.id.low, c.w.edges[e].cond.value.id.sub, c.w.edges[e].src))
    && (forall p: nat, b: nat, k: nat {:trigger ArgFor(c.w.blocks[b][k].e.preds, p)} |
          b < |c.w.blocks| && c.G().HasEdge(p, b) && k < |c.w.blocks[b]| && c.w.blocks[b][k].IsPhi() ::
          var arg := ArgFor(c.w.blocks[b][k].e.preds, p);
          arg.Some? && (arg.value.sub != 0 ==> DefinedByEnd(c, arg.value.low, arg.value.sub, p)))
  }

  lemma ConversionIsStrictSsa(c: Conversion, lg: set<nat>)
    requires Converts(c) && WellFormed(c, lg)
    ensures Shaped(c.w) && IsStrictSsa(c)
  {
    ReadyIs(c, lg);
    ShapeOf(c.w);
    hide Ready, Converts, WellFormed, DefAt, DefinedBefore, DefinedByEnd;
    SizesOf(c, lg);
    forall b: nat, i: nat, d: nat, j: nat, low: nat, sub: nat | DefAt(c.w, b, i, low, sub) && DefAt(c.w, d, j, low, sub)
      ensures sub > 0 && b == d && i == j
    {
      OneDefinition(c, lg, b, i, d, j, low, sub);
    }
    forall b: nat, i: nat, v | b < |c.w.blocks| && i < |c.w.blocks[b]| && v in c.w.blocks[b][i].Uses() &&
                     v.Var? && Local(c, v.id.low) && v.id.sub != 0
      ensures DefinedBefore(c, v.id.low, v.id.sub, b, i)
    {
      UseIsDominated(c, lg, b, i, v);
    }
    forall e | 0 <= e < |c.w.edges| && c.w.edges[e].cond.Some? && c.w.edges[e].cond.value.Var? &&
               Local(c, c.w.edges[e].cond.value.id.low) && c.w.edges[e].cond.value.id.sub != 0
      ensures DefinedByEnd(c, c.w.edges[e].cond.value.id.low, c.w.edges[e].cond.value.id.sub, c.w.edges[e].src)
    {
      CondIsDominated(c, lg, e);
    }
    forall p: nat, b: nat, k: nat |
           b < |c.w.blocks| && c.G().HasEdge(p, b) && k < |c.w.blocks[b]| && c.w.blocks[b][k].IsPhi()
      ensures var arg := ArgFor(c.w.blocks[b][k].e.preds, p);
              arg.Some? && (arg.value.sub != 0 ==> DefinedByEnd(c, arg.value.low, arg.value.sub, p))
    {
      EdgeSource(c, lg, p, b);
      PhiArgIsDominated(c, lg, p, b, k);
    }
  }

  lemma EdgeSource(c: Conversion, lg: set<nat>, p: nat, b: nat)
    requires Ready(c, lg) && c.G().HasEdge(p, b)
    ensures p < |c.blocks| && b < |c.blocks|
  {
  }
}
