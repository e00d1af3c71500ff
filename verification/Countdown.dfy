// A loop taken through the whole translation by hand, x = 3; do x = x - 1 while (x); print x; return x,
// as a witness that the conditions of the end-to-end theorem can be met together.
module Countdown {
  import opened Graphs
  import opened Dominance
  import opened DomTables
  import opened Ir
  import opened PhiPlacement
  import opened Renaming
  import opened Semantics
  import opened SsaForm
  import opened Bytecode
  import opened Frames
  import opened Layout
  import opened FrameRules
  import opened Regrouping
  import opened SsaFrames
  import opened Lowering
  import opened EndToEnd
  import opened StatementSoundness

  // ---- The graph ----

  const LOOP := Graph(3, [(0, 1), (1, 1), (1, 2)])

  function X(sub: nat): Ident {
    Ident(1, sub, false)
  }

  function Use(sub: nat): PrimVal {
    Var(X(sub))
  }

  const THREE := PrimExpr.Op(Val, [ILit(3)])

  function Less(sub: nat): PrimExpr {
    PrimExpr.Op(CallBuiltin(0), [Use(sub)])
  }

  const EDGES := [Edge(0, 1, None), Edge(1, 1, Some(Use(0))), Edge(1, 2, None)]
  const BLOCKS := [[AsgnVar(X(0), THREE)], [AsgnVar(X(0), Less(0))],
                   [Do(Printf(false), [Use(0)]), Do(Return, [Use(0)])]]
  const PHI := AsgnVar(X(0), Phi([(1, X(0)), (0, X(0))]))
  const PRE: seq<seq<PrimStmt>> := [[], [PHI], []]
  const BASE := [[AsgnVar(X(0), THREE)], [PHI, AsgnVar(X(0), Less(0))],
                 [Do(Printf(false), [Use(0)]), Do(Return, [Use(0)])]]

  // ---- Its renamed form: x is 1 at first, 2 for the phi, 3 for the decrement ----

  const RENAMED := [[AsgnVar(X(1), THREE)], [AsgnVar(X(2), Phi([(1, X(3)), (0, X(1))])), AsgnVar(X(3), Less(2))],
                    [Do(Printf(false), [Use(3)]), Do(Return, [Use(3)])]]
  const RENAMED_EDGES := [Edge(0, 1, None), Edge(1, 1, Some(Use(3))), Edge(1, 2, None)]
  const TRACE: seq<seq<Vers>> := [[[0, 0], [0, 1]], [[0, 1], [0, 2], [0, 3]], [[0, 3], [0, 3], [0, 3]]]
  const WORK := Work([false, false], BASE, EDGES, RENAMED, RENAMED_EDGES, TRACE, {0, 1, 2})
  const IDOM: seq<nat> := [UNINIT, 0, 1]
  const FRONTS: seq<set<nat>> := [{}, {1}, {}]
  const CONVERSION := Conversion(0, BLOCKS, EDGES, IDOM, FRONTS, map[X(0) := {0, 1}], map[X(0) := {1}], PRE, WORK)

  // ---- Its frame: version i of x lives in register i + 1 ----

  function RegOf(low: nat, sub: nat): Reg {
    if low == 1 then Reg(Int, sub + 1) else Reg(Null, UNUSED)
  }

  const X1 := Reg(Int, 2)
  const X2 := Reg(Int, 3)
  const X3 := Reg(Int, 4)
  const NODES := [[Left(LL.Op(0, [X1], []))], [PhiReg(X2, [(1, 4), (0, 2)]), Left(LL.Op(1, [X3], [X2]))],
                  [Left(LL.Op(2, [], [X3])), RetVal(X3)]]
  const FRAME := Frame(true, [X1, X2, X3], [], NODES, [FEdge(0, 1, None), FEdge(1, 1, Some(4)), FEdge(1, 2, None)])
  const UNIT := Unit([FRAME], [Reg(Int, 0)])
  const ORIGIN := Origin(CONVERSION, {}, RegOf, (e: nat) => 4, [[0, 1], [0, 0, 1], [0, 1, 2]], [0, 0, 0])

  // ---- Both meanings: the world is what was printed last ----

  function Eval(op: ExprOp, vs: seq<int>, w: int): (int, int) {
    if vs == [] then (0, w) else if op == Val then (vs[0], w) else (vs[0] - 1, w)
  }

  function Exec(op: StmtOp, vs: seq<int>, w: int): int {
    if op == Printf(false) && vs != [] then vs[0] else w
  }

  function OpVal(op: nat, vs: seq<int>, w: int, k: nat): int {
    if op == 0 || vs == [] then 3 else vs[0] - 1
  }

  function OpWorld(op: nat, vs: seq<int>, w: int): int {
    if op == 2 && vs != [] then vs[0] else w
  }

  function Lit(v: PrimVal): int {
    if v.ILit? then v.i else 0
  }

  const SEM: Sem<int, int> :=
    Sem(Lit, 0, (l: nat, w: int) => 0, (l: nat, v: int, w: int) => w, Eval, Exec, (v: int) => v != 0)
  const MSEM: MSem<int, int> := MSem(OpVal, OpWorld, (t: Ty, w: int) => 0, (t: Ty, w: int) => w, (v: int) => v != 0)
  const SETTING: Setting<int, int, int, int> :=
    Setting(SEM, MSEM, (t: Ty, a: int, v: int) => a == v, (y: int, w: int) => y == w)

  // ---- Dominators ----

  lemma LastEdge(edges: seq<(nat, nat)>, e: (nat, nat), v: nat)
    ensures PredsFrom(edges + [e], v) == (if e.1 == v then [e.0] else []) + PredsFrom(edges, v)
  {
    assert (edges + [e])[..|edges|] == edges;
  }

  lemma LoopPreds(v: nat)
    requires v < 3
    ensures LOOP.Preds(v) == if v == 0 then [] else if v == 1 then [1, 0] else [1]
  {
    LastEdge([], (0, 1), v);
    LastEdge([(0, 1)], (1, 1), v);
    LastEdge([(0, 1), (1, 1)], (1, 2), v);
    assert [(0, 1), (1, 1)] + [(1, 2)] == LOOP.edges;
  }

  lemma LoopGraph()
    ensures CONVERSION.G() == LOOP
    ensures forall u, v :: LOOP.HasEdge(u, v) <==> (u, v) in [(0, 1), (1, 1), (1, 2)]
  {
    assert Endpoints(EDGES) == LOOP.edges;
  }

  lemma LoopFlows()
    ensures FlowGraph(LOOP, 0)
  {
    LoopGraph();
    assert PathBetween(LOOP, [0], 0, 0);
    assert PathBetween(LOOP, [0, 1], 0, 1);
    assert PathBetween(LOOP, [0, 1, 2], 0, 2);
    forall v | 0 <= v < LOOP.n
      ensures Reachable(LOOP, 0, v)
    {
    }
  }

  lemma LoopDoms(a: nat)
    ensures Dom(LOOP, 0, a, 0) <==> a == 0
    ensures Dom(LOOP, 0, a, 1) <==> a == 0 || a == 1
    ensures Dom(LOOP, 0, a, 2) <==> a == 0 || a == 1 || a == 2
  {
    LoopGraph();
    EntryDom(LOOP, 0, 0);
    EntryDom(LOOP, 0, 1);
    EntryDom(LOOP, 0, 2);
    DomRefl(LOOP, 0, 1);
    DomRefl(LOOP, 0, 2);
    DomFromPreds(LOOP, 0, 1, 2);
    assert PathBetween(LOOP, [0], 0, 0);
    assert PathBetween(LOOP, [0, 1], 0, 1);
    assert PathBetween(LOOP, [0, 1, 2], 0, 2);
  }

  lemma LoopTable()
    ensures IsIdomTable(LOOP, 0, IDOM)
  {
    forall a: nat
      ensures SDom(LOOP, 0, a, 1) <==> a == 0
      ensures SDom(LOOP, 0, a, 2) <==> a == 0 || a == 1
      ensures Dom(LOOP, 0, 0, 0) && (Dom(LOOP, 0, a, 1) <==> a == 0 || a == 1)
    {
      LoopDoms(a);
    }
    LoopDoms(0);
  }

  lemma LoopFronts()
    ensures FrontierExact(LOOP, 0, FRONTS)
  {
    hide Dom;
    LoopGraph();
    forall x: nat, b: nat | x < 3 && b < 3
      ensures b in FRONTS[x] <==> InFrontier(LOOP, 0, x, b)
    {
      LoopDoms(x);
      if x == 1 && b == 1 {
        assert LOOP.HasEdge(1, 1) && Dom(LOOP, 0, 1, 1);
      }
    }
  }

  // ---- Phis and versions ----

  lemma LoopPhi()
    ensures IsPhiRun([PHI], [1, 0]) && forall id :: HasPhi([PHI], id) <==> id == X(0)
  {
    var args := FreshPhi(X(0), [1, 0]).e.preds;
    assert args == [(1, X(0)), (0, X(0))];
    assert [PHI][0].id == X(0);
  }

  lemma LoopHolds(b: nat)
    requires b < 3
    ensures BlockHolds(CONVERSION.phis, b, PRE[b], LOOP.Preds(b), BLOCKS[b], BASE[b])
  {
    hide FreshPhi, IsPhiRun, HasPhi, PlacedFor;
    LoopPreds(b);
    PhiOnlyAtOne(b);
    var pre, own := PRE[b], BLOCKS[b];
    if b == 1 {
      LoopPhi();
      assert pre == [PHI] && BASE[b] == pre + own;
    } else {
      NoPhi(LOOP.Preds(b));
      assert pre == [] && BASE[b] == pre + own;
    }
  }

  lemma PhiOnlyAtOne(b: nat)
    ensures forall id :: b in PlacedFor(CONVERSION.phis, id) <==> b == 1 && id == X(0)
  {
  }

  lemma NoPhi(preds: seq<nat>)
    ensures IsPhiRun([], preds) && forall id :: !HasPhi([], id)
  {
  }

  lemma LoopPhis()
    ensures Placed(LOOP, CONVERSION.phis, PRE, BLOCKS, BASE)
    ensures IsIteratedFrontier(FRONTS, {0, 1}, PlacedFor(CONVERSION.phis, X(0)))
  {
    hide BlockHolds;
    forall b | 0 <= b < 3
      ensures BlockHolds(CONVERSION.phis, b, PRE[b], LOOP.Preds(b), BLOCKS[b], BASE[b])
    {
      LoopHolds(b);
    }
    forall other | Closed(FRONTS, {0, 1}, other)
      ensures {1} <= other
    {
      assert FRONTS[1] <= other;
    }
  }

  lemma LoopStep(b: nat, i: nat)
    requires b < 3 && i < |BASE[b]|
    ensures StepOk(WORK.globs, BASE[b][i], RENAMED[b][i], TRACE[b][i], TRACE[b][i + 1])
  {
    assert RenameArgs([Use(0)], [0, 2]) == [Use(2)];
    assert RenameArgs([Use(0)], [0, 3]) == [Use(3)];
    assert RenameArgs([ILit(3)], [0, 0]) == [ILit(3)];
  }

  lemma LoopBlock(b: nat)
    requires b < 3
    ensures BlockState(WORK, b) && FlowsInto(0, IDOM, TRACE, b)
  {
    hide StepOk;
    forall i | 0 <= i < |BASE[b]|
      ensures StepOk(WORK.globs, BASE[b][i], RENAMED[b][i], TRACE[b][i], TRACE[b][i + 1])
    {
      LoopStep(b, i);
    }
  }

  lemma LoopEdge(e: nat)
    requires e < 3
    ensures EdgeState(WORK, e)
  {
  }

  lemma LoopFresh()
    ensures FreshOk(WORK, [0, 3])
  {
  }

  lemma LoopRenamed()
    ensures IsRenamed(0, IDOM, WORK)
  {
    hide BlockState, EdgeState, FlowsInto, FreshOk;
    forall b | 0 <= b < 3
      ensures BlockState(WORK, b) && FlowsInto(0, IDOM, TRACE, b)
    {
      LoopBlock(b);
    }
    forall e | 0 <= e < 3
      ensures EdgeState(WORK, e)
    {
      LoopEdge(e);
    }
    LoopFresh();
  }

  lemma LoopConverts()
    ensures Converts(CONVERSION)
  {
    hide FlowGraph, IsIdomTable, FrontierExact, Placed, IsRenamed, IsIteratedFrontier;
    LoopGraph();
    LoopFlows();
    LoopTable();
    LoopFronts();
    LoopPhis();
    LoopRenamed();
  }

  lemma LoopUses(b: nat, i: nat)
    requires b < 3 && i <= |BLOCKS[b]|
    ensures UseOk(CONVERSION, {}, Use(0), b, i) && UseOk(CONVERSION, {}, ILit(3), b, i)
  {
    assert X(0) in CONVERSION.sites && IsPromoted(CONVERSION, 1);
  }

  lemma LoopStmt(b: nat, i: nat)
    requires b < 3 && i < |BLOCKS[b]|
    ensures StmtWellFormed(CONVERSION, {}, b, i)
  {
    hide UseOk;
    LoopUses(b, i);
  }

  lemma LoopWellFormed()
    ensures WellFormed(CONVERSION, {})
  {
    hide UseOk, StmtWellFormed;
    LoopGraph();
    LoopPreds(0);
    LoopUses(1, 1);
    forall b, i | 0 <= b < 3 && 0 <= i < |BLOCKS[b]|
      ensures StmtWellFormed(CONVERSION, {}, b, i)
    {
      LoopStmt(b, i);
    }
    forall d: nat | d < 3 && DefinesIn(BLOCKS[d], 1)
      ensures d in {0, 1}
    {
    }
  }

  // ---- The frame comes from that conversion ----

  lemma NoneOut(src: nat)
    ensures OutInOrder([], src) == []
  {
  }

  lemma ThreeOut(e0: Edge, e1: Edge, e2: Edge, src: nat)
    ensures OutInOrder([e0, e1, e2], src) ==
            (if e0.src == src then [0] else []) + (if e1.src == src then [1] else []) +
            (if e2.src == src then [2] else [])
  {
    hide OutInOrder;
    NoneOut(src);
    LastOut([], e0, src);
    LastOut([e0], e1, src);
    LastOut([e0, e1], e2, src);
    assert [] + [e0] == [e0] && [e0] + [e1] == [e0, e1] && [e0, e1] + [e2] == [e0, e1, e2];
  }

  lemma ThreeSources(edges: seq<Edge>)
    ensures EdgesBySource(edges, 3) == OutInOrder(edges, 0) + OutInOrder(edges, 1) + OutInOrder(edges, 2)
  {
    hide OutInOrder;
    assert EdgesBySource(edges, 0) == [];
    assert EdgesBySource(edges, 1) == OutInOrder(edges, 0);
  }

  lemma LoopGrouping()
    ensures Grouping(ORIGIN) == [0, 1, 2]
  {
    hide OutInOrder, EdgesBySource;
    ThreeSources(EDGES);
    ThreeOut(EDGES[0], EDGES[1], EDGES[2], 0);
    ThreeOut(EDGES[0], EDGES[1], EDGES[2], 1);
    ThreeOut(EDGES[0], EDGES[1], EDGES[2], 2);
    assert EDGES == [EDGES[0], EDGES[1], EDGES[2]];
  }

  lemma LastOut(edges: seq<Edge>, e: Edge, src: nat)
    ensures OutInOrder(edges + [e], src) == OutInOrder(edges, src) + (if e.src == src then [|edges|] else [])
  {
    assert (edges + [e])[..|edges|] == edges;
  }

  lemma LoopReads(b: nat, i: nat, r: Reg)
    requires b < 3 && i <= |NODES[b]|
    requires b == 0 ==> r == X1 && i == 1
    requires b == 1 ==> i > 0 && r == if i == 1 then X2 else X3
    requires b == 2 ==> r == X3
    ensures ReadsOk(UNIT, [ORIGIN], 0, b, i, r)
  {
    assert Local(CONVERSION, 1) && RegOf(1, VersAt(ORIGIN, b, i)[1]) == r;
  }

  lemma LoopNode(b: nat)
    requires b < 3
    ensures NodeFrom(UNIT, [ORIGIN], 0, b)
  {
    hide ReadsOk, Loose, BranchShape, PhiPlaced;
    LoopShape(b);
    forall i | 0 <= i < |NODES[b]|
      ensures InstFrom(UNIT, [ORIGIN], 0, b, i, NODES[b][i])
    {
      if b > 0 && !NODES[b][i].PhiReg? {
        LoopReads(b, i, if b == 1 then X2 else X3);
      }
    }
    if b == 1 {
      LoopPhiPlaced();
    }
  }

  lemma LoopShape(b: nat)
    requires b < 3
    ensures BranchShape(FRAME, b)
  {
    if b < 2 {
      var l := if b == 0 then 0 else 2;
      assert FRAME.edges[l].src == b && FRAME.edges[l].cond.None?;
    }
  }

  lemma LoopPhiPlaced()
    ensures PhiPlaced(UNIT, [ORIGIN], ORIGIN, 1, 0, NODES[1])
  {
    LoopGraph();
    var args, srcs := RENAMED[1][0].e.preds, NODES[1][0].preds;
    assert ArgFor(args, 1) == Some(X(3)) && ArgFor(args, 0) == Some(X(1));
    assert ArgReg(srcs, 1) == Some(4) && ArgReg(srcs, 0) == Some(2);
  }

  lemma LoopTranslates()
    ensures Translates(UNIT, [ORIGIN], 0)
  {
    hide Converts, WellFormed, NodeFrom, EdgeFrom, Grouping, IsPhiDst;
    LoopConverts();
    LoopWellFormed();
    LoopGrouping();
    LoopDst();
    forall b | 0 <= b < 3
      ensures NodeFrom(UNIT, [ORIGIN], 0, b)
    {
      LoopNode(b);
    }
    forall e | 0 <= e < 3
      ensures EdgeFrom(UNIT, [ORIGIN], 0, e)
    {
      LoopEdgeFrom(e);
    }
  }

  lemma LoopDst()
    ensures forall r | IsPhiDst(FRAME, r) :: r == X2
  {
  }

  lemma LoopEdgeFrom(e: nat)
    requires e < 3
    ensures EdgeFrom(UNIT, [ORIGIN], 0, e)
  {
    hide ReadsOk;
    LoopReads(1, 2, X3);
  }

  lemma LoopUnit()
    ensures UnitFrom(UNIT, [ORIGIN])
  {
    hide Translates;
    LoopTranslates();
  }

  // ---- Statement by statement ----

  lemma KeptIs(low: nat, sub: nat)
    ensures Kept(ORIGIN, low, sub) <==> low == 1 && sub + 1 != UNUSED
  {
  }

  lemma HeldIs(regs: Regs<int>, env: Env<int>)
    ensures Held(SETTING, ORIGIN, regs, env) <==>
            forall sub: nat | sub + 1 != UNUSED :: regs(Reg(Int, sub + 1)) == env(1, sub)
  {
    hide Kept;
    forall low: nat, sub: nat
      ensures Kept(ORIGIN, low, sub) <==> low == 1 && sub + 1 != UNUSED
    {
      KeptIs(low, sub);
    }
    if forall sub: nat | sub + 1 != UNUSED :: regs(Reg(Int, sub + 1)) == env(1, sub) {
      assert Held(SETTING, ORIGIN, regs, env);
    }
    if Held(SETTING, ORIGIN, regs, env) {
      forall sub: nat | sub + 1 != UNUSED
        ensures regs(Reg(Int, sub + 1)) == env(1, sub)
      {
        HeldAt(SETTING, ORIGIN, regs, env, 1, sub);
      }
    }
  }

  // A version set in its register and in the environment.
  lemma HeldSet(regs: Regs<int>, env: Env<int>, sub: nat, v: int)
    requires Held(SETTING, ORIGIN, regs, env) && sub + 1 != UNUSED
    ensures Held(SETTING, ORIGIN, SetReg(regs, Reg(Int, sub + 1), v), Set(env, 1, sub, v))
  {
    HeldIs(regs, env);
    HeldIs(SetReg(regs, Reg(Int, sub + 1), v), Set(env, 1, sub, v));
  }

  // What the single statements mean.
  lemma StmtIs(b: nat, s: nat, env: Env<int>, w: int)
    requires b < 3 && s < |BLOCKS[b]|
    ensures InBlock(ORIGIN, b, s + 1)
    ensures RunStmt(SEM, {}, RENAMED[b][|PRE[b]| + s], env, w) ==
            if b == 0 then (Set(env, 1, 1, 3), w)
            else if b == 1 then (Set(env, 1, 3, env(1, 2) - 1), w)
            else if s == 0 then (env, env(1, 3))
            else (env, w)
  {
    var stmt := RENAMED[b][|PRE[b]| + s];
    if b == 0 {
      assert Operands(SEM, {}, env, w, [ILit(3)]) == [3];
    } else {
      var sub := if b == 1 then 2 else 3;
      assert Operands(SEM, {}, env, w, [Use(sub)]) == [env(1, sub)];
    }
  }

  lemma WriteOne<V>(regs: Regs<V>, r: Reg, f: nat -> V)
    ensures WriteFrom(regs, [r], 0, f) == SetReg(regs, r, f(0))
  {
    assert WriteFrom(SetReg(regs, r, f(0)), [r], 1, f) == SetReg(regs, r, f(0));
  }

  lemma PlainOne<V, W>(sem: MSem<V, W>, op: nat, r: Reg, srcs: seq<Reg>, regs: Regs<V>, w: W)
    ensures Plain(sem, LL.Op(op, [r], srcs), regs, w) ==
            (SetReg(regs, r, sem.opVal(op, Read(regs, srcs), w, 0)), sem.opWorld(op, Read(regs, srcs), w))
  {
    var vs := Read(regs, srcs);
    WriteOne(regs, r, (k: nat) => sem.opVal(op, vs, w, k));
  }

  // What the single instructions mean.
  lemma InstIs(b: nat, i: nat, regs: Regs<int>, y: int)
    requires b < 3 && i < |NODES[b]|
    ensures FRun(MSEM, [FRAME], 1, Active(0, b, i, regs, y, [])) ==
            if b == 0 then Active(0, 0, 1, SetReg(regs, X1, 3), y, [])
            else if b == 1 && i == 0 then Active(0, 1, 1, regs, y, [])
            else if b == 1 then Active(0, 1, 2, SetReg(regs, X3, regs(X2) - 1), y, [])
            else if i == 0 then Active(0, 2, 1, regs, regs(X3), [])
            else Done(y)
  {
    var st: FState<int, int> := Active(0, b, i, regs, y, []);
    OneFrameStep(MSEM, [FRAME], st);
    assert FStep(MSEM, [FRAME], st) == FInstStep(MSEM, [FRAME], st, NODES[b][i]);
    if b == 0 {
      PlainOne(MSEM, 0, X1, [], regs, y);
      assert Plain(MSEM, LL.Op(0, [X1], []), regs, y) == (SetReg(regs, X1, 3), y);
    } else if b == 1 && i == 1 {
      assert Read(regs, [X2]) == [regs(X2)];
      PlainOne(MSEM, 1, X3, [X2], regs, y);
      assert Plain(MSEM, LL.Op(1, [X3], [X2]), regs, y) == (SetReg(regs, X3, regs(X2) - 1), y);
    } else if b == 2 && i == 0 {
      assert Read(regs, [X3]) == [regs(X3)];
      assert Plain(MSEM, LL.Op(2, [], [X3]), regs, y) == (regs, regs(X3));
    }
  }

  lemma FirstIs(b: nat, s: nat)
    requires b < 3 && s <= |BLOCKS[b]|
    ensures FirstOf(ORIGIN.at[b], s) == if b == 1 then 2 * s else s
  {
    assert [0, 0, 1][1..] == [0, 1] && [0, 1][1..] == [1] && [0, 1, 2][1..] == [1, 2] && [1, 2][1..] == [2];
    assert FirstOf([0], 0) == 0 && FirstOf([1], 1) == 0 && FirstOf([2], 2) == 0;
    assert FirstOf([0, 1], 1) == 1 && FirstOf([1, 2], 2) == 1;
  }

  lemma LoopStmtRuns(b: nat, s: nat, regs: Regs<int>, y: int, env: Env<int>) returns (n: nat)
    requires b < 3 && s < |BLOCKS[b]| && Held(SETTING, ORIGIN, regs, env) && InBlock(ORIGIN, b, s + 1)
    ensures StmtEnds(SETTING, UNIT, ORIGIN, 0, b, s, env, y,
                     FRun(MSEM, [FRAME], n, Active(0, b, FirstOf(ORIGIN.at[b], s), regs, y, [])))
  {
    hide Held, FRun, RunStmt, FirstOf;
    FirstIs(b, s);
    FirstIs(b, s + 1);
    StmtIs(b, s, env, y);
    HeldIs(regs, env);
    if b == 0 {
      n := 1;
      InstIs(0, 0, regs, y);
      HeldSet(regs, env, 1, 3);
    } else if b == 1 {
      n := 2;
      InstIs(1, 0, regs, y);
      InstIs(1, 1, regs, y);
      FRunAdd(MSEM, [FRAME], 1, 1, Active(0, 1, 0, regs, y, []));
      HeldSet(regs, env, 3, env(1, 2) - 1);
    } else {
      n := 1;
      InstIs(2, s, regs, y);
    }
  }

  lemma LoopTailRuns(b: nat, regs: Regs<int>, y: int, env: Env<int>)
    requires b < 2 && Held(SETTING, ORIGIN, regs, env)
    ensures TailEnds(SETTING, FRAME, ORIGIN, 0, b, env, y,
                     FRun(MSEM, [FRAME], 0, Active(0, b, FirstOf(ORIGIN.at[b], |BLOCKS[b]|), regs, y, [])))
  {
    hide Held, FirstOf, CondsHold, Converted;
    FirstIs(b, |BLOCKS[b]|);
    LoopConds(b, regs, y, env);
    LoopConverted(b, regs, env);
  }

  lemma LoopConds(b: nat, regs: Regs<int>, y: int, env: Env<int>)
    requires Held(SETTING, ORIGIN, regs, env)
    ensures CondsHold(SETTING, ORIGIN, b, regs, env, y)
  {
    hide Held;
    HeldIs(regs, env);
    assert regs(Reg(Int, 3 + 1)) == env(1, 3);
  }

  // Both phi arguments are of the phi's type, so nothing has to be converted.
  lemma LoopConverted(b: nat, regs: Regs<int>, env: Env<int>)
    ensures Converted(SETTING, FRAME, ORIGIN, b, regs, env)
  {
    hide Held, Kept, ArgHeld;
    KeptIs(1, 1);
    KeptIs(1, 3);
    var args := RENAMED[1][0].e.preds;
    assert ArgFor(args, 1) == Some(X(3)) && ArgFor(args, 0) == Some(X(1));
  }

  lemma LoopStmtsSound(b: nat)
    requires b < 3
    ensures StmtsSound(SETTING, UNIT, ORIGIN, 0, b)
  {
    hide Held, StmtEnds, TailEnds, FRun, FirstOf;
    forall s | 0 <= s < |BLOCKS[b]|
      ensures InBlock(ORIGIN, b, s + 1) && StmtSound(SETTING, UNIT, ORIGIN, 0, b, s)
    {
      StmtIs(b, s, (low: nat, sub: nat) => 0, 0);
      forall regs: Regs<int>, y: int, env: Env<int>, w: int | Held(SETTING, ORIGIN, regs, env) && SETTING.same(y, w)
        ensures exists n: nat :: StmtEnds(SETTING, UNIT, ORIGIN, 0, b, s, env, w,
                                          FRun(MSEM, [FRAME], n, Active(0, b, FirstOf(ORIGIN.at[b], s), regs, y, [])))
      {
        var n := LoopStmtRuns(b, s, regs, y, env);
      }
    }
    if b < 2 {
      forall regs: Regs<int>, y: int, env: Env<int>, w: int | Held(SETTING, ORIGIN, regs, env) && SETTING.same(y, w)
        ensures exists n: nat :: TailEnds(SETTING, FRAME, ORIGIN, 0, b, env, w,
                                          FRun(MSEM, [FRAME], n,
                                               Active(0, b, FirstOf(ORIGIN.at[b], |BLOCKS[b]|), regs, y, [])))
      {
        LoopTailRuns(b, regs, y, env);
      }
    }
  }

  // All conditions of the end-to-end theorem hold of this unit together.
  lemma LoopIsSound()
    ensures UnitFrom(UNIT, [ORIGIN]) && SoundByStatement(SETTING, UNIT, [ORIGIN], 0)
    ensures Sound(SETTING, UNIT, [ORIGIN], 0)
  {
    hide UnitFrom, StmtsSound;
    LoopUnit();
    forall b | 0 <= b < 3
      ensures StmtsSound(SETTING, UNIT, ORIGIN, 0, b)
    {
      LoopStmtsSound(b);
    }
    StatementsSuffice(SETTING, UNIT, [ORIGIN], 0);
  }

  // ---- What the graph computes ----

  lemma SourceStmts(b: nat, env: Env<int>, w: int)
    requires b < 3
    ensures RunUpTo(SEM, {}, BLOCKS[b], |BLOCKS[b]|, env, w) ==
            if b == 0 then (Set(env, 1, 0, 3), w)
            else if b == 1 then (Set(env, 1, 0, env(1, 0) - 1), w)
            else (env, env(1, 0))
  {
    assert Operands(SEM, {}, env, w, [ILit(3)]) == [3];
    assert Operands(SEM, {}, env, w, [Use(0)]) == [env(1, 0)];
    assert RunUpTo(SEM, {}, BLOCKS[b], 0, env, w) == (env, w);
    var first := RunUpTo(SEM, {}, BLOCKS[b], 1, env, w);
    assert first == RunStmt(SEM, {}, BLOCKS[b][0], env, w);
    if b == 2 {
      assert first == (env, env(1, 0));
      assert Operands(SEM, {}, env, env(1, 0), [Use(0)]) == [env(1, 0)];
    }
  }

  lemma SourceStep(b: nat, env: Env<int>, w: int)
    requires b < 3
    ensures Step(SEM, {}, CONVERSION.Before(), At(b, env, w)) ==
            if b == 0 then At(1, Set(env, 1, 0, 3), w)
            else if b == 1 then At(if env(1, 0) != 1 then 1 else 2, Set(env, 1, 0, env(1, 0) - 1), w)
            else Halted(env(1, 0))
  {
    hide RunUpTo;
    SourceStmts(b, env, w);
  }

  lemma SourceRuns(env: Env<int>, w: int)
    ensures Run(SEM, {}, CONVERSION.Before(), 5, At(0, env, w)) == Halted(0)
  {
    hide Step;
    var env3 := Set(env, 1, 0, 3);
    var env2 := Set(env3, 1, 0, 2);
    var env1 := Set(env2, 1, 0, 1);
    var env0 := Set(env1, 1, 0, 0);
    SourceStep(0, env, w);
    SourceStep(1, env3, w);
    SourceStep(1, env2, w);
    SourceStep(1, env1, w);
    SourceStep(2, env0, w);
    var p, st := CONVERSION.Before(), At(0, env, w);
    assert Run(SEM, {}, p, 0, st) == st;
    assert Run(SEM, {}, p, 1, st) == At(1, env3, w);
    assert Run(SEM, {}, p, 2, st) == At(1, env2, w);
    assert Run(SEM, {}, p, 3, st) == At(1, env1, w);
    assert Run(SEM, {}, p, 4, st) == At(2, env0, w);
  }

  // So the machine prints 0 and stops, whatever its registers held before.
  lemma LoopPrintsZero(regs: Regs<int>, y: int) returns (n: nat)
    ensures MRun(MSEM, [FrameCode(UNIT, 0)], n, FreshMachine(0, regs, y)) == Finished(0)
  {
    hide UnitFrom, Sound, Held, MRun, Run, FrameCode;
    LoopIsSound();
    var env: Env<int> := (low: nat, sub: nat) => regs(Reg(Int, sub + 1));
    HeldIs(regs, env);
    SourceRuns(env, y);
    FreshIs(regs, y);
    var m;
    n, m := BytecodeComputesGraph(SETTING, UNIT, [ORIGIN], [FrameCode(UNIT, 0)], 0, regs, y, env, y, 5);
  }

  // There are no map locals to allocate.
  lemma FreshIs(regs: Regs<int>, y: int)
    ensures FreshFrame(MSEM, UNIT, 0, regs, y) == Active(0, 0, 0, regs, y, [])
  {
    var rs := FRAME.locals;
    assert rs[..2] == [X1, X2] && rs[..2][..1] == [X1];
    assert AllocAll(MSEM, rs[..2][..1][..0], regs, y) == (regs, y);
    assert AllocAll(MSEM, [X1], regs, y) == (regs, y);
    assert AllocAll(MSEM, [X1, X2], regs, y) == (regs, y);
  }
}
