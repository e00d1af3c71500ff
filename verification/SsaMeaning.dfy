// SSA conversion preserves meaning: the original graph and the renamed graph run in lockstep.
module SsaMeaning {
  import opened Graphs
  import opened Dominance
  import opened DomTables
  import opened Ir
  import opened PhiPlacement
  import opened Renaming
  import opened Semantics
  import opened SsaForm

  // Every local whose value is determined at position i of block b is held by its current version.
  ghost predicate Agree<V>(c: Conversion, b: nat, i: nat, env0: Env<V>, env1: Env<V>)
    requires b < |c.blocks| && i <= |c.blocks[b]| && b < |c.pre| && b < |c.w.trace|
    requires |c.w.trace[b]| == |c.pre[b]| + |c.blocks[b]| + 1
  {
    var vers := c.w.trace[b][|c.pre[b]| + i];
    && |vers| == |c.w.globs|
    && (forall low: nat | Local(c, low) && TrackedAt(c, low, b, i) :: env1(low, vers[low]) == env0(low, 0))
  }

  lemma SameOperand<V, W>(sem: Sem<V, W>, lg: set<nat>, c: Conversion, b: nat, i: nat, env0: Env<V>, env1: Env<V>,
                          w: W, v: PrimVal)
    requires Ready(c, lg) && b < |c.blocks| && i <= |c.blocks[b]|
    requires |c.w.trace[b]| == |c.pre[b]| + |c.blocks[b]| + 1
    requires Agree(c, b, i, env0, env1) && UseOk(c, lg, v, b, i)
    ensures Operand(sem, lg, env1, w, RenameVal(v, c.w.trace[b][|c.pre[b]| + i])) == Operand(sem, lg, env0, w, v)
  {
  }

  lemma SameOperands<V, W>(sem: Sem<V, W>, lg: set<nat>, c: Conversion, b: nat, i: nat, env0: Env<V>, env1: Env<V>,
                           w: W, args: seq<PrimVal>)
    requires Ready(c, lg) && b < |c.blocks| && i <= |c.blocks[b]|
    requires |c.w.trace[b]| == |c.pre[b]| + |c.blocks[b]| + 1
    requires Agree(c, b, i, env0, env1) && forall v | v in args :: UseOk(c, lg, v, b, i)
    ensures Operands(sem, lg, env1, w, RenameArgs(args, c.w.trace[b][|c.pre[b]| + i])) ==
            Operands(sem, lg, env0, w, args)
  {
    forall k | 0 <= k < |args|
      ensures Operand(sem, lg, env1, w, RenameVal(args[k], c.w.trace[b][|c.pre[b]| + i])) ==
              Operand(sem, lg, env0, w, args[k])
    {
      SameOperand(sem, lg, c, b, i, env0, env1, w, args[k]);
    }
  }

  // One statement: same effect on the world, and the locals still agree.
  lemma SameStmt<V, W>(sem: Sem<V, W>, lg: set<nat>, c: Conversion, b: nat, i: nat, env0: Env<V>, env1: Env<V>, w: W)
    requires Ready(c, lg) && b < |c.blocks| && i < |c.blocks[b]|
    requires |c.w.trace[b]| == |c.pre[b]| + |c.blocks[b]| + 1 && |c.w.blocks[b]| == |c.pre[b]| + |c.blocks[b]|
    requires Agree(c, b, i, env0, env1)
    ensures var (e0, w0) := RunStmt(sem, lg, c.blocks[b][i], env0, w);
            var (e1, w1) := RunStmt(sem, lg, c.w.blocks[b][|c.pre[b]| + i], env1, w);
            w0 == w1 && Agree(c, b, i + 1, e0, e1)
  {
    BlockFacts(c, lg, b);
    var k := |c.pre[b]| + i;
    var s, t := c.blocks[b][i], c.w.blocks[b][k];
    var before, after := c.w.trace[b][k], c.w.trace[b][k + 1];
    assert c.w.base[b][k] == s;
    assert StepOk(c.w.globs, c.w.base[b][k], c.w.blocks[b][k], c.w.trace[b][k], c.w.trace[b][k + 1]);
    assert StmtWellFormed(c, lg, b, i);
    SameOperands(sem, lg, c, b, i, env0, env1, w, s.Uses());
    var (e0, w0) := RunStmt(sem, lg, s, env0, w);
    var (e1, w1) := RunStmt(sem, lg, t, env1, w);
    forall low: nat | Local(c, low) && TrackedAt(c, low, b, i + 1)
      ensures e1(low, after[low]) == e0(low, 0)
    {
      if !s.Defines(low) {
        TrackedBefore(c, lg, b, i, low);
      }
    }
  }

  lemma TrackedBefore(c: Conversion, lg: set<nat>, b: nat, i: nat, low: nat)
    requires Ready(c, lg) && b < |c.blocks| && i < |c.blocks[b]|
    requires !c.blocks[b][i].Defines(low) && TrackedAt(c, low, b, i + 1)
    ensures TrackedAt(c, low, b, i)
  {
    if !TrackedIn(c, low, b) {
      var j :| 0 <= j < i + 1 && c.blocks[b][..i + 1][j].Defines(low);
      assert c.blocks[b][..i][j].Defines(low);
    }
  }

  // The phis at the top of a block do nothing when the block runs.
  lemma {:induction false} PhisIdle<V, W>(sem: Sem<V, W>, lg: set<nat>, c: Conversion, b: nat, k: nat, env: Env<V>,
                                          w: W)
    requires Ready(c, lg) && b < |c.blocks| && |c.pre| == |c.w.blocks| == |c.blocks|
    requires k <= |c.pre[b]| && |c.w.blocks[b]| == |c.pre[b]| + |c.blocks[b]|
    ensures RunUpTo(sem, lg, c.w.blocks[b], k, env, w) == (env, w)
  {
    hide Ready;
    if k > 0 {
      PhisIdle(sem, lg, c, b, k - 1, env, w);
      PhiAt(c, lg, b, k - 1);
    }
  }

  // Statement k of a renamed block is a phi exactly in front of the block's own statements.
  lemma PhiAt(c: Conversion, lg: set<nat>, b: nat, k: nat)
    requires Ready(c, lg) && b < |c.blocks| && k < |c.w.blocks[b]|
    ensures |c.w.blocks[b]| == |c.pre[b]| + |c.blocks[b]|
    ensures c.w.blocks[b][k].IsPhi() <==> k < |c.pre[b]|
    ensures k < |c.pre[b]| ==>
              && c.w.blocks[b][k].id.low == c.pre[b][k].id.low
              && SamePhi(c.pre[b][k].e.preds, c.w.blocks[b][k].e.preds)
              && c.pre[b][k] == FreshPhi(c.pre[b][k].id, c.G().Preds(b))
              && |c.w.trace[b]| == |c.w.blocks[b]| + 1 && |c.w.trace[b][k]| == |c.w.trace[b][k + 1]| == |c.w.globs|
              && (Local(c, c.pre[b][k].id.low) ==>
                    c.w.trace[b][k + 1] == c.w.trace[b][k][c.pre[b][k].id.low := c.w.blocks[b][k].id.sub])
  {
    BlockFacts(c, lg, b);
    assert StepOk(c.w.globs, c.w.base[b][k], c.w.blocks[b][k], c.w.trace[b][k], c.w.trace[b][k + 1]);
    if k < |c.pre[b]| {
      assert c.w.base[b][k] == c.pre[b][k];
    } else {
      assert c.w.base[b][k] == c.blocks[b][k - |c.pre[b]|];
      assert StmtWellFormed(c, lg, b, k - |c.pre[b]|);
    }
  }

  // A block's own statements, from environments that agree after its phis.
  lemma {:induction false} SameBlock<V, W>(sem: Sem<V, W>, lg: set<nat>, c: Conversion, b: nat, i: nat,
                                           env0: Env<V>, env1: Env<V>, w: W)
    requires Ready(c, lg) && b < |c.blocks| && i <= |c.blocks[b]|
    requires b < |c.pre| && b < |c.w.trace| && b < |c.w.blocks|
    requires |c.w.trace[b]| == |c.pre[b]| + |c.blocks[b]| + 1 && |c.w.blocks[b]| == |c.pre[b]| + |c.blocks[b]|
    requires Agree(c, b, 0, env0, env1)
    ensures var (e0, w0) := RunUpTo(sem, lg, c.blocks[b], i, env0, w);
            var (e1, w1) := RunUpTo(sem, lg, c.w.blocks[b], |c.pre[b]| + i, env1, w);
            w0 == w1 && Agree(c, b, i, e0, e1)
  {
    hide Ready, Agree;
    if i == 0 {
      SizesOf(c, lg);
      PhisIdle(sem, lg, c, b, |c.pre[b]|, env1, w);
    } else {
      SameBlock(sem, lg, c, b, i - 1, env0, env1, w);
      var (e0, w0) := RunUpTo(sem, lg, c.blocks[b], i - 1, env0, w);
      var (e1, w1) := RunUpTo(sem, lg, c.w.blocks[b], |c.pre[b]| + (i - 1), env1, w);
      SameStmt(sem, lg, c, b, i - 1, e0, e1, w0);
    }
  }

  lemma EdgeRenamed(c: Conversion, lg: set<nat>, e: nat)
    requires Ready(c, lg) && e < |c.edges|
    ensures |c.w.edges| == |c.edges| && c.edges[e].src < |c.blocks| == |c.w.trace| && c.w.trace[c.edges[e].src] != []
    ensures c.w.edges[e] == RenameEdge(c.edges[e], Out(c.w.trace[c.edges[e].src]))
    ensures c.edges[e].cond.Some? ==> UseOk(c, lg, c.edges[e].cond.value, c.edges[e].src, |c.blocks[c.edges[e].src]|)
  {
    assert EdgeState(c.w, e);
  }

  // Both graphs choose the same edge.
  lemma {:induction false} SameBranch<V, W>(sem: Sem<V, W>, lg: set<nat>, c: Conversion, b: nat, e: nat,
                                            env0: Env<V>, env1: Env<V>, w: W)
    requires Ready(c, lg) && b < |c.blocks| && e <= |c.edges|
    requires |c.w.trace[b]| == |c.pre[b]| + |c.blocks[b]| + 1
    requires Agree(c, b, |c.blocks[b]|, env0, env1)
    ensures Branch(sem, lg, c.w.edges, b, e, env1, w) == Branch(sem, lg, c.edges, b, e, env0, w)
    decreases |c.edges| - e
  {
    hide Ready, Agree, UseOk;
    SizesOf(c, lg);
    if e < |c.edges| {
      SameBranch(sem, lg, c, b, e + 1, env0, env1, w);
      EdgeRenamed(c, lg, e);
      if c.edges[e].src == b && c.edges[e].cond.Some? {
        SameOperand(sem, lg, c, b, |c.blocks[b]|, env0, env1, w, c.edges[e].cond.value);
      }
    }
  }

  // ---- Crossing an edge ----

  // The argument a phi takes for predecessor p is the first one listed for p.
  lemma {:induction false} ArgForIs(ps: seq<(nat, Ident)>, p: nat, vers: Vers, low: nat)
    requires (forall k | 0 <= k < |ps| :: ps[k].1.low == low) && (exists k :: 0 <= k < |ps| && ps[k].0 == p)
    requires ArgOk(ps, p, vers)
    ensures ArgFor(ps, p).Some? && ArgFor(ps, p).value.low == low
    ensures ArgFor(ps, p).value.sub == if low < |vers| then vers[low] else 0
  {
    hide RenameIdent, ArgOk;
    if ps[0].0 != p {
      var k :| 0 <= k < |ps| && ps[k].0 == p;
      assert ps[1..][k - 1].0 == p;
      ArgOkTail(ps, p, vers);
      ArgForIs(ps[1..], p, vers, low);
    } else {
      ArgOkHead(ps, p, vers);
      Renamed(ps[0].1, vers);
    }
  }

  lemma ArgOkTail(ps: seq<(nat, Ident)>, p: nat, vers: Vers)
    requires ps != [] && ps[0].0 != p && ArgOk(ps, p, vers)
    ensures ArgOk(ps[1..], p, vers)
  {
    hide RenameIdent;
    forall k | 0 <= k < |ps[1..]| && ps[1..][k].0 == p && (forall j | 0 <= j < k :: ps[1..][j].0 != p)
      ensures ps[1..][k].1 == RenameIdent(ps[1..][k].1, vers)
    {
      forall j | 0 <= j < k + 1
        ensures ps[j].0 != p
      {
        assert j > 0 ==> ps[j] == ps[1..][j - 1];
      }
      assert ps[k + 1] == ps[1..][k];
    }
  }

  lemma ArgOkHead(ps: seq<(nat, Ident)>, p: nat, vers: Vers)
    requires ps != [] && ps[0].0 == p && ArgOk(ps, p, vers)
    ensures ps[0].1 == RenameIdent(ps[0].1, vers)
  {
    hide RenameIdent;
  }

  lemma Renamed(id: Ident, vers: Vers)
    ensures RenameIdent(id, vers).low == id.low
    ensures RenameIdent(id, vers).sub == if id.low < |vers| then vers[id.low] else 0
  {
  }

  // The phis of b are filled in for p with the versions that p ends with.
  lemma ArgsFrom(c: Conversion, lg: set<nat>, p: nat, b: nat)
    requires Ready(c, lg) && b < |c.blocks| && p < |c.blocks| && c.G().HasEdge(p, b)
    ensures p < |c.w.trace| && c.w.trace[p] != [] && b < |c.w.blocks| && PhiArgsOk(c.w.blocks[b], p, Out(c.w.trace[p]))
  {
    hide PhiArgsOk;
    var e := EdgeOf(|c.blocks|, c.edges, p, b);
    assert EdgeState(c.w, e);
  }

  lemma PhiIsLocal(c: Conversion, lg: set<nat>, b: nat, low: nat)
    requires Ready(c, lg) && b < |c.blocks| && PhiFor(c, b, low)
    ensures Local(c, low)
  {
    PhiForPromoted(c, lg, b, low);
  }

  // The k-th phi of b reads the version that is current at the end of predecessor p.
  lemma PhiReads(c: Conversion, lg: set<nat>, p: nat, b: nat, k: nat)
    requires Ready(c, lg) && b < |c.blocks| && p < |c.blocks| && c.G().HasEdge(p, b) && k < |c.pre[b]|
    ensures k < |c.w.blocks[b]| && c.w.blocks[b][k].IsPhi() && c.w.trace[p] != []
    ensures var low := c.pre[b][k].id.low;
            var arg := ArgFor(c.w.blocks[b][k].e.preds, p);
            && c.w.blocks[b][k].id.low == low && Local(c, low) && |Out(c.w.trace[p])| == |c.w.globs|
            && arg.Some? && arg.value.low == low && arg.value.sub == Out(c.w.trace[p])[low]
  {
    hide Ready, BlockOk, IsPhiRun, FlowsInto, ArgOk;
    SizesOf(c, lg);
    BlockFacts(c, lg, b);
    BlockFacts(c, lg, p);
    PhiAt(c, lg, b, k);
    var low := c.pre[b][k].id.low;
    assert c.pre[b][k].Defines(low);
    PhiIsLocal(c, lg, b, low);
    ArgsFrom(c, lg, p, b);
    var ps, qs := c.pre[b][k].e.preds, c.w.blocks[b][k].e.preds;
    assert p in c.G().Preds(b);
    var m :| 0 <= m < |c.G().Preds(b)| && c.G().Preds(b)[m] == p;
    assert ps[m] == (p, c.pre[b][k].id);
    assert qs[m].0 == p;
    forall j | 0 <= j < |qs|
      ensures qs[j].1.low == low
    {
      assert ps[j].1 == c.pre[b][k].id;
    }
    ArgForIs(qs, p, Out(c.w.trace[p]), low);
  }

  ghost predicate PhiAssigns(c: Conversion, b: nat, j: nat, low: nat, sub: nat)
    requires b < |c.w.blocks| && j < |c.w.blocks[b]|
  {
    var s := c.w.blocks[b][j];
    s.AsgnVar? && s.id.low == low && s.id.sub == sub
  }

  // The phis from the k-th on move the outgoing versions of p into place and touch nothing else.
  lemma {:induction false} EnterIs<V>(c: Conversion, lg: set<nat>, p: nat, b: nat, k: nat, env0: Env<V>, env: Env<V>,
                                      low: nat, sub: nat)
    requires Ready(c, lg) && b < |c.blocks| && p < |c.blocks| && c.G().HasEdge(p, b)
    requires b < |c.w.blocks| && b < |c.pre| && p < |c.w.trace|
    requires |c.w.blocks[b]| == |c.pre[b]| + |c.blocks[b]| && k <= |c.pre[b]|
    requires c.w.trace[p] != [] && |Out(c.w.trace[p])| == |c.w.globs|
    ensures (exists j :: k <= j < |c.pre[b]| && PhiAssigns(c, b, j, low, sub)) ==>
              low < |c.w.globs| &&
              EnterFrom(c.w.blocks[b], k, p, env0, env)(low, sub) == env0(low, Out(c.w.trace[p])[low])
    ensures (forall j | k <= j < |c.pre[b]| :: !PhiAssigns(c, b, j, low, sub)) ==>
              EnterFrom(c.w.blocks[b], k, p, env0, env)(low, sub) == env(low, sub)
    decreases |c.pre[b]| - k
  {
    hide Ready;
    if k < |c.pre[b]| {
      PhiReads(c, lg, p, b, k);
      var t := c.w.blocks[b][k];
      var arg := ArgFor(t.e.preds, p).value;
      var env1: Env<V> := Set(env, t.id.low, t.id.sub, env0(arg.low, arg.sub));
      assert PhiAssigns(c, b, k, low, sub) <==> t.id.low == low && t.id.sub == sub;
      assert EnterFrom(c.w.blocks[b], k, p, env0, env) == EnterFrom(c.w.blocks[b], k + 1, p, env0, env1);
      EnterIs(c, lg, p, b, k + 1, env0, env1, low, sub);
    } else if k < |c.w.blocks[b]| {
      PhiAt(c, lg, b, k);
    }
  }

  // The version a phi assigns is the one the block starts with.
  lemma StartIsPhi(c: Conversion, lg: set<nat>, b: nat, j: nat)
    requires Ready(c, lg) && b < |c.blocks| && j < |c.pre[b]|
    ensures |c.pre[b]| < |c.w.trace[b]| && j < |c.w.blocks[b]| && c.w.blocks[b][j].IsPhi()
    ensures var low := c.pre[b][j].id.low;
            && Local(c, low) && |Start(c, b)| == |c.w.globs|
            && c.w.blocks[b][j].id.low == low && Start(c, b)[low] == c.w.blocks[b][j].id.sub
  {
    BlockFacts(c, lg, b);
    PhiAt(c, lg, b, j);
    var low := c.pre[b][j].id.low;
    assert c.pre[b][j].Defines(low);
    PhiForPromoted(c, lg, b, low);
    forall k | j + 1 <= k < |c.pre[b]|
      ensures !c.w.base[b][k].Defines(low)
    {
      assert c.w.base[b][k] == c.pre[b][k];
      OnePhiPerName(c, lg, b, j, k);
    }
    SteadyStretch(c, lg, b, j + 1, |c.pre[b]|, low);
  }

  lemma OnePhiPerName(c: Conversion, lg: set<nat>, b: nat, j: nat, k: nat)
    requires Ready(c, lg) && b < |c.blocks| && j < k < |c.pre[b]|
    ensures c.pre[b][j].AsgnVar? && c.pre[b][k].AsgnVar? && c.pre[b][j].id.low != c.pre[b][k].id.low
  {
    BlockFacts(c, lg, b);
    assert HasPhi(c.pre[b], c.pre[b][j].id) && HasPhi(c.pre[b], c.pre[b][k].id);
  }

  // A name tracked into b was tracked to the end of each predecessor.
  lemma TrackedBack(c: Conversion, lg: set<nat>, p: nat, b: nat, low: nat)
    requires Ready(c, lg) && b < |c.blocks| && p < |c.blocks| && c.G().HasEdge(p, b)
    requires TrackedIn(c, low, b)
    ensures TrackedAt(c, low, p, |c.blocks[p]|)
  {
    if !IsPromoted(c, low) {
      assert c.blocks[p][..|c.blocks[p]|] == c.blocks[p];
      if !DefinesIn(c.blocks[p], low) {
        forall d: nat | d < |c.blocks| && DefinesIn(c.blocks[d], low)
          ensures SDom(c.G(), c.entry, d, p)
        {
          DomPred(c.G(), c.entry, d, p, b);
        }
      }
    }
  }

  lemma NoPhiYet<V>(c: Conversion, lg: set<nat>, b: nat, p: nat, env: Env<V>)
    requires Ready(c, lg) && b < |c.blocks|
    ensures EnterFrom(c.blocks[b], 0, p, env, env) == env
  {
    if |c.blocks[b]| > 0 {
      assert StmtWellFormed(c, lg, b, 0);
    }
  }

  lemma TrackedAtStart(c: Conversion, low: nat, b: nat)
    requires b < |c.blocks| && TrackedAt(c, low, b, 0)
    ensures TrackedIn(c, low, b)
  {
  }

  // Crossing the edge p -> b: agreement at the end of p gives agreement after b's phis.
  lemma SameEntry<V>(c: Conversion, lg: set<nat>, p: nat, b: nat, env0: Env<V>, env1: Env<V>)
    requires Ready(c, lg) && b < |c.blocks| && p < |c.blocks| && c.G().HasEdge(p, b)
    requires |c.w.trace[p]| == |c.pre[p]| + |c.blocks[p]| + 1
    requires |c.w.trace[b]| == |c.pre[b]| + |c.blocks[b]| + 1
    requires Agree(c, p, |c.blocks[p]|, env0, env1)
    ensures EnterFrom(c.blocks[b], 0, p, env0, env0) == env0
    ensures Agree(c, b, 0, env0, EnterFrom(c.w.blocks[b], 0, p, env1, env1))
  {
    hide Ready, BlockOk, IsPhiRun, FlowsInto, TrackedIn, DefinesIn, EnterFrom;
    SizesOf(c, lg);
    BlockFacts(c, lg, b);
    BlockFacts(c, lg, p);
    NoPhiYet(c, lg, b, p, env0);
    var env2 := EnterFrom(c.w.blocks[b], 0, p, env1, env1);
    var start := Start(c, b);
    forall low: nat | Local(c, low) && TrackedAt(c, low, b, 0)
      ensures env2(low, start[low]) == env0(low, 0)
    {
      TrackedAtStart(c, low, b);
      TrackedBack(c, lg, p, b, low);
      SameOnEntry(c, lg, p, b, env1, low);
    }
  }

  // A local's first version in b holds, behind b's phis, what its last version in p held.
  lemma SameOnEntry<V>(c: Conversion, lg: set<nat>, p: nat, b: nat, env: Env<V>, low: nat)
    requires Ready(c, lg) && b < |c.blocks| && p < |c.blocks| && c.G().HasEdge(p, b)
    requires |c.w.trace[p]| == |c.pre[p]| + |c.blocks[p]| + 1
    requires |c.w.trace[b]| == |c.pre[b]| + |c.blocks[b]| + 1
    requires Local(c, low) && TrackedIn(c, low, b)
    ensures |Start(c, b)| == |c.w.globs| == |Out(c.w.trace[p])|
    ensures EnterFrom(c.w.blocks[b], 0, p, env, env)(low, Start(c, b)[low]) == env(low, Out(c.w.trace[p])[low])
  {
    hide Ready, BlockOk, IsPhiRun, FlowsInto, TrackedIn, EnterFrom, PhiFor, PhiAssigns;
    SizesOf(c, lg);
    BlockFacts(c, lg, b);
    BlockFacts(c, lg, p);
    EnterIs(c, lg, p, b, 0, env, env, low, Start(c, b)[low]);
    if PhiFor(c, b, low) {
      var j := PhiAtStart(c, lg, b, low);
    } else {
      EdgeVersion(c, lg, p, b, low);
    }
  }

  lemma PhiAtStart(c: Conversion, lg: set<nat>, b: nat, low: nat) returns (j: nat)
    requires Ready(c, lg) && b < |c.blocks| && PhiFor(c, b, low)
    ensures b < |c.w.blocks| && b < |c.pre| && b < |c.w.trace| && |c.pre[b]| < |c.w.trace[b]| && low < |Start(c, b)|
    ensures j < |c.pre[b]| && j < |c.w.blocks[b]| && PhiAssigns(c, b, j, low, Start(c, b)[low])
  {
    hide Ready;
    SizesOf(c, lg);
    BlockFacts(c, lg, b);
    j :| 0 <= j < |c.pre[b]| && c.pre[b][j].Defines(low);
    StartIsPhi(c, lg, b, j);
  }

  // ---- Whole runs ----

  ghost predicate InStep<V, W>(c: Conversion, s0: State<V, W>, s1: State<V, W>) {
    match (s0, s1)
    case (Halted(w0), Halted(w1)) => w0 == w1
    case (At(b0, e0, w0), At(b1, e1, w1)) =>
      && b0 == b1 && w0 == w1 && b0 < |c.blocks| && b0 < |c.pre| && b0 < |c.w.trace|
      && |c.w.trace[b0]| == |c.pre[b0]| + |c.blocks[b0]| + 1
      && Agree(c, b0, 0, e0, e1)
    case _ => false
  }

  lemma SizesOf(c: Conversion, lg: set<nat>)
    requires Ready(c, lg)
    ensures |c.blocks| == |c.pre| == |c.w.base| == |c.w.blocks| == |c.w.trace| && |c.w.edges| == |c.edges|
  {
  }

  lemma EdgeEnds(c: Conversion, lg: set<nat>, e: nat)
    requires Ready(c, lg) && e < |c.edges|
    ensures e < |c.w.edges| && c.w.edges[e].src == c.edges[e].src && c.w.edges[e].dst == c.edges[e].dst
    ensures c.edges[e].dst < |c.blocks| && c.G().HasEdge(c.edges[e].src, c.edges[e].dst)
  {
    assert EdgeState(c.w, e);
    HasEdgeAt(|c.blocks|, c.edges, e);
  }

  lemma InStepStep<V, W>(sem: Sem<V, W>, lg: set<nat>, c: Conversion, s0: State<V, W>, s1: State<V, W>)
    requires Ready(c, lg) && InStep(c, s0, s1)
    ensures InStep(c, Step(sem, lg, c.Before(), s0), Step(sem, lg, c.After(), s1))
  {
    hide Ready, Agree, RunUpTo, Branch, EnterFrom;
    SizesOf(c, lg);
    if s0.At? {
      var b := s0.block;
      BlockFacts(c, lg, b);
      SameBlock(sem, lg, c, b, |c.blocks[b]|, s0.env, s1.env, s0.world);
      var (e0, w0) := RunUpTo(sem, lg, c.blocks[b], |c.blocks[b]|, s0.env, s0.world);
      var (e1, w1) := RunUpTo(sem, lg, c.w.blocks[b], |c.w.blocks[b]|, s1.env, s1.world);
      SameBranch(sem, lg, c, b, 0, e0, e1, w0);
      var br := Branch(sem, lg, c.edges, b, 0, e0, w0);
      if br.Some? {
        var d := c.edges[br.value].dst;
        EdgeEnds(c, lg, br.value);
        BlockFacts(c, lg, d);
        SameEntry(c, lg, b, d, e0, e1);
      }
    }
  }

  // The main theorem. From any initial values of the locals and any world, after any number of
  // steps both programs are in the same block with the same world and agreeing locals, or both
  // have stopped with the same world.
  lemma {:induction false} SsaPreservesMeaning<V, W>(sem: Sem<V, W>, lg: set<nat>, c: Conversion, env: Env<V>, w: W,
                                                     k: nat)
    requires Converts(c) && WellFormed(c, lg)
    ensures InStep(c, Run(sem, lg, c.Before(), k, At(c.entry, env, w)), Run(sem, lg, c.After(), k, At(c.entry, env, w)))
  {
    hide Converts, WellFormed, Ready, InStep, Step, Agree;
    ReadyIs(c, lg);
    if k == 0 {
      StartInStep(c, lg, env, w);
    } else {
      SsaPreservesMeaning(sem, lg, c, env, w, k - 1);
      InStepStep(sem, lg, c, Run(sem, lg, c.Before(), k - 1, At(c.entry, env, w)),
                 Run(sem, lg, c.After(), k - 1, At(c.entry, env, w)));
    }
  }

  lemma StartInStep<V, W>(c: Conversion, lg: set<nat>, env: Env<V>, w: W)
    requires Ready(c, lg)
    ensures InStep<V, W>(c, At(c.entry, env, w), At(c.entry, env, w))
  {
    hide Agree;
    EntryAgrees(c, lg, env);
  }

  // The entry has no phis, so it starts with version 0 of everything.
  lemma EntryAgrees<V>(c: Conversion, lg: set<nat>, env: Env<V>)
    requires Ready(c, lg)
    ensures |c.w.trace[c.entry]| == |c.pre[c.entry]| + |c.blocks[c.entry]| + 1
    ensures Agree(c, c.entry, 0, env, env)
  {
    var b := c.entry;
    BlockFacts(c, lg, b);
    if c.pre[b] != [] {
      var id := c.pre[b][0].id;
      assert HasPhi(c.pre[b], id);
      PhiHasPredecessor(c, lg, b, id);
      assert false;
    }
  }

  // Phis are placed at nodes that have a predecessor.
  lemma PhiHasPredecessor(c: Conversion, lg: set<nat>, b: nat, id: Ident)
    requires Ready(c, lg) && b < |c.blocks| && b in PlacedFor(c.phis, id)
    ensures c.G().Preds(b) != []
  {
    hide IsIdomTable, IsRenamed, FlowGraph, WellFormed, BlockHolds;
    var placed := PlacedFor(c.phis, id);
    var smaller := set x | x in placed && c.G().Preds(x) != [];
    forall x: nat | (x in c.sites[id] || x in smaller) && x < |c.df|
      ensures c.df[x] <= smaller
    {
      assert Closed(c.df, c.sites[id], placed);
      forall d | d in c.df[x]
        ensures d in smaller
      {
        assert d in placed;
        assert d < |c.blocks|;
        assert InFrontier(c.G(), c.entry, x, d);
        var p: nat :| c.G().HasEdge(p, d) && Dom(c.G(), c.entry, x, p);
        assert p in c.G().Preds(d);
      }
    }
    assert Closed(c.df, c.sites[id], smaller);
  }
}
