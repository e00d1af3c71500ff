// When a set of frames can be lowered: every value that is read is current, although phi moves run
// for all successors at once and registers are shared by all activations of a function.
module FrameRules {
  import opened Bytecode
  import opened Frames
  import opened Layout

  // live[fn][b][i]: the phi-assigned registers of fn whose value is needed from instruction i of node b on.
  type Live = seq<seq<seq<set<Reg>>>>

  predicate LeadingPhi(node: seq<FInst>, k: nat) {
    k < |node| && forall j | 0 <= j <= k :: node[j].PhiReg?
  }

  // Registers that some phi of f moves into.
  ghost predicate IsPhiDst(f: Frame, r: Reg) {
    exists b, k :: 0 <= b < |f.nodes| && 0 <= k && LeadingPhi(f.nodes[b], k) && f.nodes[b][k].dst == r && Real(r)
  }

  // Registers in which the machine may hold a value the frames do not: phi destinations that are
  // not current, and return registers.
  ghost predicate Fragile(u: Unit, r: Reg) {
    || (exists fn :: 0 <= fn < |u.frames| && u.frames[fn].called && IsPhiDst(u.frames[fn], r))
    || (r in u.rets && Real(r))
  }

  ghost predicate LiveShape(u: Unit, live: Live) {
    && |live| == |u.frames|
    && (forall fn | 0 <= fn < |u.frames| :: |live[fn]| == |u.frames[fn].nodes|)
    && (forall fn, b | 0 <= fn < |u.frames| && 0 <= b < |u.frames[fn].nodes| ::
          |live[fn][b]| == |u.frames[fn].nodes[b]| + 1)
  }

  // A position in a frame, the end of a node included.
  predicate InFrame(u: Unit, fn: nat, b: nat, i: nat) {
    fn < |u.frames| && b < |u.frames[fn].nodes| && i <= |u.frames[fn].nodes[b]|
  }

  ghost predicate Readable(u: Unit, live: Live, fn: nat, b: nat, i: nat, r: Reg)
    requires LiveShape(u, live) && InFrame(u, fn, b, i)
  {
    !Fragile(u, r) || r in live[fn][b][i]
  }

  ghost predicate InstOk(u: Unit, live: Live, fn: nat, b: nat, i: nat)
    requires LiveShape(u, live) && InFrame(u, fn, b, i) && i < |u.frames[fn].nodes[b]|
  {
    var next, here := live[fn][b][i + 1], live[fn][b][i];
    match u.frames[fn].nodes[b][i]
    case Left(ll) =>
      && ll.IsPlain()
      && (forall r <- Sources(ll) :: Readable(u, live, fn, b, i, r))
      && (forall r <- next :: r in here || r in Targets(ll))
    case CallUdf(g, dst, args) =>
      && g < |u.frames| && g < |u.rets| && u.frames[g].called && |args| == |u.frames[g].params|
      && (forall k | 0 <= k < |args| :: args[k].ty == u.frames[g].params[k].ty && !args[k].ty.IsIter())
      && (forall r <- args :: Readable(u, live, fn, b, i, r))
      && dst.ty == u.rets[g].ty && (Real(dst) ==> u.rets[g].ix != UNUSED && ReturnsValue(u.frames[g]))
      && (forall r <- next :: r in here || (r == dst && Real(dst)))
    case RetVal(r) => fn < |u.rets| && r.ty == u.rets[fn].ty && Readable(u, live, fn, b, i, r)
    case PhiReg(_, _) => next <= here
    case DropIter(_) => next <= here
  }

  predicate ReturnsValue(f: Frame) {
    forall b, i | 0 <= b < |f.nodes| && 0 <= i < |f.nodes[b]| && f.nodes[b][i].RetVal? :: f.nodes[b][i].r.ix != UNUSED
  }

  function Sources(ll: LL): seq<Reg> {
    match ll
    case Op(_, _, srcs) => srcs
    case Mov(dst, src) => [Reg(dst.ty, src)]
    case _ => []
  }

  function Targets(ll: LL): seq<Reg> {
    match ll
    case Op(_, dsts, _) => dsts
    case AllocMap(reg) => [reg]
    case Mov(dst, _) => [dst]
    case _ => []
  }

  // ---- Phi moves ----

  function MovesOf(f: Frame, b: nat): seq<LL> {
    AllMoves(f, b, OutOf(f.edges, b, |f.edges|))
  }

  function Src(m: LL): Reg
    requires m.Mov?
  {
    Reg(m.dst.ty, m.src)
  }

  // Only moves into themselves touch this register.
  ghost predicate Unmoved(ms: seq<LL>, r: Reg) {
    forall i | 0 <= i < |ms| && ms[i].Mov? && ms[i].dst == r :: Src(ms[i]) == r
  }

  // No move changes what a later one reads, and moves into one register agree.
  ghost predicate MovesOrdered(ms: seq<LL>) {
    && (forall i | 0 <= i < |ms| :: ms[i].Mov? && ms[i].dst.ty.Stackable())
    && (forall i, j | 0 <= i < j < |ms| && ms[i].dst == Src(ms[j]) :: ms[i].dst == Src(ms[i]))
    && (forall i, j | 0 <= i < |ms| && 0 <= j < |ms| && ms[i].dst == ms[j].dst :: ms[i].src == ms[j].src)
  }

  ghost predicate PhiBrings(f: Frame, p: nat, d: nat, r: Reg)
    requires d < |f.nodes|
  {
    exists k :: 0 <= k && LeadingPhi(f.nodes[d], k) && PhiMove(f.nodes[d][k], p).Some? &&
                PhiMove(f.nodes[d][k], p).value.0 == r
  }

  // Crossing an edge: conditions and everything needed in the target survive the moves.
  ghost predicate EdgeOk(u: Unit, live: Live, fn: nat, e: nat)
    requires LiveShape(u, live) && fn < |u.frames| && EdgesOk(u.frames[fn]) && e < |u.frames[fn].edges|
  {
    var f := u.frames[fn];
    var b, d := f.edges[e].src, f.edges[e].dst;
    var ms, last := MovesOf(f, b), |f.nodes[b]|;
    && (f.edges[e].cond.Some? ==>
          var c := Reg(Int, f.edges[e].cond.value);
          Readable(u, live, fn, b, last, c) && Unmoved(ms, c))
    && (forall r <- live[fn][d][0] :: PhiBrings(f, b, d, r) || (r in live[fn][b][last] && Unmoved(ms, r)))
  }

  // Conditional branches, then exactly one `else`; or the node returns.
  ghost predicate BranchShape(f: Frame, b: nat)
    requires b < |f.nodes|
  {
    || (|f.nodes[b]| > 0 && f.nodes[b][|f.nodes[b]| - 1].RetVal?)
    || (exists l :: 0 <= l < |f.edges| && f.edges[l].src == b && f.edges[l].cond.None? &&
          forall e | 0 <= e < |f.edges| && f.edges[e].src == b && e != l :: e < l && f.edges[e].cond.Some?)
  }

  ghost predicate NodeOk(u: Unit, live: Live, fn: nat, b: nat)
    requires LiveShape(u, live) && fn < |u.frames| && b < |u.frames[fn].nodes|
  {
    var f := u.frames[fn];
    && (forall i {:trigger InstOk(u, live, fn, b, i)} | 0 <= i < |f.nodes[b]| :: InstOk(u, live, fn, b, i))
    && BranchShape(f, b)
    && MovesOrdered(MovesOf(f, b))
    && (forall i | 0 <= i < |MovesOf(f, b)| && MovesOf(f, b)[i].Mov? ::
          Readable(u, live, fn, b, |f.nodes[b]|, Src(MovesOf(f, b)[i])))
  }

  ghost predicate FrameOk(u: Unit, live: Live, fn: nat)
    requires LiveShape(u, live) && fn < |u.frames|
  {
    var f := u.frames[fn];
    && EdgesOk(f) && |f.nodes| > 0
    && DistinctRegs(f.locals) && DistinctRegs(f.params)
    && (forall r | IsPhiDst(f, r) :: r in f.locals)
    && (forall r <- f.locals | Real(r) :: r !in u.rets)
    && (forall b, i | 0 <= b < |f.nodes| && 0 <= i <= |f.nodes[b]| :: forall r <- live[fn][b][i] :: IsPhiDst(f, r))
    && live[fn][0][0] == {}
    && (forall b {:trigger NodeOk(u, live, fn, b)} | 0 <= b < |f.nodes| :: NodeOk(u, live, fn, b))
    && (forall e {:trigger EdgeOk(u, live, fn, e)} | 0 <= e < |f.edges| :: EdgeOk(u, live, fn, e))
  }

  ghost predicate UnitOk(u: Unit, live: Live) {
    && |u.frames| == |u.rets| && LiveShape(u, live)
    && (forall fn {:trigger FrameOk(u, live, fn)} | 0 <= fn < |u.frames| && u.frames[fn].called :: FrameOk(u, live, fn))
  }

  // The bytecode of a unit: frames that are never called get none.
  ghost predicate IsCode(u: Unit, code: seq<seq<LL>>) {
    && |code| == |u.frames|
    && (forall fn | 0 <= fn < |u.frames| && u.frames[fn].called ::
          EdgesOk(u.frames[fn]) && code[fn] == FrameCode(u, fn))
  }
}
