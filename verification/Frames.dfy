// Typed function frames (src/compile.rs) and what they mean: each activation keeps its own
// locals, a call binds parameters to argument values, and phis take effect in parallel on the
// chosen edge.
module Frames {
  import opened Ir
  import opened Bytecode

  datatype FInst =
    | Left(ll: LL)
    | CallUdf(func: nat, dst: Reg, args: seq<Reg>)
    | RetVal(r: Reg)
    | PhiReg(dst: Reg, preds: seq<(nat, nat)>)
    | DropIter(r: Reg)

  // None stands for `else`; otherwise the Int register tested.
  datatype FEdge = FEdge(src: nat, dst: nat, cond: Option<nat>)

  datatype Frame = Frame(called: bool, locals: seq<Reg>, params: seq<Reg>, nodes: seq<seq<FInst>>, edges: seq<FEdge>)

  // A register a value can be moved into or out of.
  predicate Real(r: Reg) {
    r.ix != UNUSED && r.ty.Stackable()
  }

  // The map locals, allocated afresh in every activation.
  function AllocAll<V, W>(sem: MSem<V, W>, locals: seq<Reg>, regs: Regs<V>, w: W): (Regs<V>, W) {
    if locals == [] then (regs, w)
    else
      var (regs1, w1) := AllocAll(sem, locals[..|locals| - 1], regs, w);
      var r := locals[|locals| - 1];
      if r.ty.IsArray() then (SetReg(regs1, r, sem.alloc(r.ty, w1)), sem.allocWorld(r.ty, w1)) else (regs1, w1)
  }

  function Bind<V>(params: seq<Reg>, vs: seq<V>, regs: Regs<V>): Regs<V>
    requires |params| == |vs|
  {
    if params == [] then regs
    else
      var r := params[|params| - 1];
      var regs1 := Bind(params[..|params| - 1], vs[..|vs| - 1], regs);
      if r.ty.Stackable() then SetReg(regs1, r, vs[|vs| - 1]) else regs1
  }

  // Back from a call: locals as the caller left them, except iterators; then the result.
  function Restore<V>(locals: seq<Reg>, snap: Regs<V>, regs: Regs<V>): Regs<V> {
    (r: Reg) => if r in locals && r.ty.Stackable() then snap(r) else regs(r)
  }

  function Deliver<V>(dst: Reg, v: V, regs: Regs<V>): Regs<V> {
    if Real(dst) then SetReg(regs, dst, v) else regs
  }

  function ArgReg(preds: seq<(nat, nat)>, p: nat): Option<nat> {
    if preds == [] then None
    else if preds[0].0 == p then Some(preds[0].1)
    else ArgReg(preds[1..], p)
  }

  // One phi on the edge from p: what it moves, if anything.
  function PhiMove(i: FInst, p: nat): Option<(Reg, nat)> {
    match i
    case PhiReg(dst, preds) =>
      var src := ArgReg(preds, p);
      if src.Some? && src.value != UNUSED && Real(dst) then Some((dst, src.value)) else None
    case _ => None
  }

  // The leading phis of a node, from the k-th on, in parallel: all reads come from `regs0`.
  function EnterNode<V>(node: seq<FInst>, k: nat, p: nat, regs0: Regs<V>, regs: Regs<V>): Regs<V>
    requires k <= |node|
    decreases |node| - k
  {
    if k < |node| && node[k].PhiReg? then
      var m := PhiMove(node[k], p);
      var regs1: Regs<V> := if m.Some? then SetReg(regs, m.value.0, regs0(Reg(m.value.0.ty, m.value.1))) else regs;
      EnterNode(node, k + 1, p, regs0, regs1)
    else regs
  }

  // The first edge out of b whose condition holds.
  function Choose<V, W>(sem: MSem<V, W>, edges: seq<FEdge>, b: nat, e: nat, regs: Regs<V>): (r: Option<nat>)
    requires e <= |edges|
    ensures r.Some? ==> r.value < |edges| && edges[r.value].src == b
    decreases |edges| - e
  {
    if e == |edges| then None
    else if edges[e].src == b && (edges[e].cond.None? || sem.nonzero(regs(Reg(Int, edges[e].cond.value)))) then Some(e)
    else Choose(sem, edges, b, e + 1, regs)
  }

  // A caller waiting at instruction i of node b for the result of a call, with its registers then.
  datatype Suspended<!V> = Suspended(fn: nat, b: nat, i: nat, snap: Regs<V>)

  datatype FState<!V, !W> =
    | Active(fn: nat, b: nat, i: nat, regs: Regs<V>, world: W, stack: seq<Suspended<V>>)
    | Done(world: W)
    | Wrong

  function FStep<V, W>(sem: MSem<V, W>, frames: seq<Frame>, st: FState<V, W>): FState<V, W> {
    if !st.Active? then st
    else if st.fn >= |frames| || st.b >= |frames[st.fn].nodes| || st.i > |frames[st.fn].nodes[st.b]| then Wrong
    else
      var f := frames[st.fn];
      var node := f.nodes[st.b];
      if st.i < |node| then FInstStep(sem, frames, st, node[st.i])
      else
        var e := Choose(sem, f.edges, st.b, 0, st.regs);
        if e.None? || f.edges[e.value].dst >= |f.nodes| then Wrong
        else
          var d := f.edges[e.value].dst;
          Active(st.fn, d, 0, EnterNode(f.nodes[d], 0, st.b, st.regs, st.regs), st.world, st.stack)
  }

  function FInstStep<V, W>(sem: MSem<V, W>, frames: seq<Frame>, st: FState<V, W>, i: FInst): FState<V, W>
    requires st.Active? && st.fn < |frames|
  {
    match i
    case Left(ll) =>
      if !ll.IsPlain() then Wrong
      else
        var (regs, w) := Plain(sem, ll, st.regs, st.world);
        Active(st.fn, st.b, st.i + 1, regs, w, st.stack)
    case PhiReg(_, _) => Active(st.fn, st.b, st.i + 1, st.regs, st.world, st.stack)
    case DropIter(_) => Active(st.fn, st.b, st.i + 1, st.regs, st.world, st.stack)
    case CallUdf(g, _, args) =>
      if g >= |frames| || |frames[g].params| != |args| then Wrong
      else
        var (regs, w) := AllocAll(sem, frames[g].locals, st.regs, st.world);
        Active(g, 0, 0, Bind(frames[g].params, Read(st.regs, args), regs), w,
               st.stack + [Suspended(st.fn, st.b, st.i, st.regs)])
    case RetVal(r) =>
      if st.stack == [] then Done(st.world)
      else
        var s := st.stack[|st.stack| - 1];
        if !WaitsAtCall(frames, s.fn, s.b, s.i) then Wrong
        else
          var dst := frames[s.fn].nodes[s.b][s.i].dst;
          var regs := Deliver(dst, st.regs(Reg(dst.ty, r.ix)), Restore(frames[s.fn].locals, s.snap, st.regs));
          Active(s.fn, s.b, s.i + 1, regs, st.world, st.stack[..|st.stack| - 1])
  }

  predicate WaitsAtCall(frames: seq<Frame>, fn: nat, b: nat, i: nat) {
    fn < |frames| && b < |frames[fn].nodes| && i < |frames[fn].nodes[b]| && frames[fn].nodes[b][i].CallUdf?
  }

  function FRun<V, W>(sem: MSem<V, W>, frames: seq<Frame>, n: nat, st: FState<V, W>): FState<V, W> {
    if n == 0 then st else FRun(sem, frames, n - 1, FStep(sem, frames, st))
  }
}
