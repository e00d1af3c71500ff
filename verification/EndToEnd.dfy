// From the control-flow graph to the bytecode: if the straight-line code of every block is translated
// soundly, the machine computes what the original graph computes. Phi insertion, renaming, the
// grouping of edges, branches, phi moves, calls and the layout of the instruction vector are proved
// to keep that.
module EndToEnd {
  import opened Ir
  import opened Renaming
  import opened Semantics
  import opened SsaForm
  import opened SsaMeaning
  import opened Bytecode
  import opened Frames
  import opened Layout
  import opened FrameRules
  import opened CallSim
  import opened Simulation
  import opened Regrouping
  import opened SsaFrames
  import opened Lowering

  // Both languages' meanings, which register values stand for a value, and which machine worlds for a world.
  datatype Setting<!V, !W, !X, !Y> = Setting(sem: Sem<V, W>, msem: MSem<X, Y>,
                                             rep: (Ty, X, V) -> bool, same: (Y, W) -> bool)

  // A version defined by a phi that no move carries out: slot instructions have pushed it aside, or
  // it is an iterator.
  ghost predicate Lost(o: Origin, low: nat, sub: nat) {
    exists b: nat, k: nat :: LostAt(o, b, k, low, sub)
  }

  ghost predicate LostAt(o: Origin, b: nat, k: nat, low: nat, sub: nat) {
    && b < |o.lead| && b < |o.c.pre| && k < |o.c.pre[b]| && (o.lead[b] > 0 || o.reg(low, sub).ty.IsIter())
    && b < |o.c.w.blocks| && k < |o.c.w.blocks[b]| && o.c.w.blocks[b][k].IsPhi()
    && o.c.w.blocks[b][k].id.low == low && o.c.w.blocks[b][k].id.sub == sub
  }

  // A version that has a register with a value.
  ghost predicate Kept(o: Origin, low: nat, sub: nat) {
    Local(o.c, low) && o.reg(low, sub).ix != UNUSED && !o.reg(low, sub).ty.Null? && !Lost(o, low, sub)
  }

  // Every version's register stands for the version's value.
  ghost predicate Held<V, W, X, Y>(x: Setting<V, W, X, Y>, o: Origin, regs: Regs<X>, env: Env<V>) {
    forall low: nat, sub: nat | Kept(o, low, sub) :: x.rep(o.reg(low, sub).ty, regs(o.reg(low, sub)), env(low, sub))
  }

  // Branch conditions out of b say the same, and the values converted for phis stand for the arguments.
  ghost predicate CondsHold<V, W, X, Y>(x: Setting<V, W, X, Y>, o: Origin, b: nat, regs: Regs<X>, env: Env<V>, w: W) {
    forall g: nat | g < |o.c.w.edges| && o.c.w.edges[g].src == b && o.c.w.edges[g].cond.Some? ::
      x.msem.nonzero(regs(Reg(Int, o.cond(g)))) <==>
      x.sem.truthy(Operand(x.sem, o.lg, env, w, o.c.w.edges[g].cond.value))
  }

  ghost predicate ArgHeld<V, W, X, Y>(x: Setting<V, W, X, Y>, o: Origin, dst: Reg, arg: Ident, src: nat, regs: Regs<X>,
                                      env: Env<V>) {
    x.rep(dst.ty, regs(Reg(dst.ty, src)), env(arg.low, arg.sub))
  }

  ghost predicate Converted<V, W, X, Y>(x: Setting<V, W, X, Y>, f: Frame, o: Origin, b: nat, regs: Regs<X>,
                                        env: Env<V>) {
    forall d: nat, k: nat | o.c.G().HasEdge(b, d) && d < |f.nodes| && LeadingPhi(f.nodes[d], k) &&
                            d < |o.c.w.blocks| && k < |o.c.w.blocks[d]| && o.c.w.blocks[d][k].IsPhi() ::
      var dst := f.nodes[d][k].dst;
      var arg, src := ArgFor(o.c.w.blocks[d][k].e.preds, b), ArgReg(f.nodes[d][k].preds, b);
      arg.Some? && src.Some? &&
      (o.reg(arg.value.low, arg.value.sub).ty != dst.ty || !Kept(o, arg.value.low, arg.value.sub)) ==>
        ArgHeld(x, o, dst, arg.value, src.value, regs, env)
  }

  // Where n steps through the instructions of node b end, next to the statements of block b.
  ghost predicate BlockEnds<V, W, X, Y>(x: Setting<V, W, X, Y>, u: Unit, o: Origin, fn: nat, b: nat, env: Env<V>, w: W,
                                        st: FState<X, Y>)
    requires fn < |u.frames| && b < |u.frames[fn].nodes| && b < |o.c.w.blocks|
  {
    var (env1, w1) := RunUpTo(x.sem, o.lg, o.c.w.blocks[b], |o.c.w.blocks[b]|, env, w);
    if EndsInRet(u.frames[fn], b) then st.Done? && x.same(st.world, w1)
    else
      && st.Active? && st.fn == fn && st.b == b && st.i == |u.frames[fn].nodes[b]| && st.stack == []
      && x.same(st.world, w1) && Held(x, o, st.regs, env1) && CondsHold(x, o, b, st.regs, env1, w1)
      && Converted(x, u.frames[fn], o, b, st.regs, env1)
  }

  // The straight-line code of block b is translated soundly; calls count as part of it.
  ghost predicate BlockSound<V(!new), W(!new), X(!new), Y(!new)>(x: Setting<V, W, X, Y>, u: Unit, o: Origin, fn: nat,
                               b: nat)
    requires fn < |u.frames| && b < |u.frames[fn].nodes| && b < |o.c.w.blocks|
  {
    forall regs: Regs<X>, y: Y, env: Env<V>, w: W | Held(x, o, regs, env) && x.same(y, w) ::
      exists n: nat :: BlockEnds(x, u, o, fn, b, env, w, FRun(x.msem, u.frames, n, Active(fn, b, 0, regs, y, [])))
  }

  // ... for all blocks; and those that return are those without successors.
  ghost predicate Sound<V(!new), W(!new), X(!new), Y(!new)>(x: Setting<V, W, X, Y>, u: Unit, os: seq<Origin>, fn: nat) {
    && fn < |os| && fn < |u.frames| && |u.frames[fn].nodes| == |os[fn].c.w.blocks|
    && (forall b | 0 <= b < |u.frames[fn].nodes| :: BlockSound(x, u, os[fn], fn, b))
    && (forall e | 0 <= e < |os[fn].c.edges| && os[fn].c.edges[e].src < |u.frames[fn].nodes| ::
          !EndsInRet(u.frames[fn], os[fn].c.edges[e].src))
  }

  // ---- Branches ----

  lemma FrameOf(u: Unit, os: seq<Origin>, fn: nat)
    requires UnitFrom(u, os) && fn < |os| && u.frames[fn].called
    ensures fn < |u.frames| && Translates(u, os, fn) && Ready(os[fn].c, os[fn].lg) && EdgesOk(u.frames[fn])
    ensures |u.frames[fn].nodes| == |os[fn].c.blocks| == |os[fn].c.w.blocks| == |os[fn].c.pre| && os[fn].c.entry == 0
    ensures |os[fn].c.edges| == |os[fn].c.w.edges|
    ensures MadeFrom(u.frames[fn].edges, os[fn].c.edges, Grouping(os[fn]), os[fn].cond)
  {
    assert Translates(u, os, fn);
    ReadyIs(os[fn].c, os[fn].lg);
  }

  // Renaming changes the conditions' versions only.
  lemma SameEnds(c: Conversion, lg: set<nat>, e: nat)
    requires Ready(c, lg) && e < |c.edges|
    ensures e < |c.w.edges| && c.w.edges[e].src == c.edges[e].src && c.w.edges[e].dst == c.edges[e].dst
    ensures c.w.edges[e].cond.Some? <==> c.edges[e].cond.Some?
    ensures c.edges[e].src < |c.blocks| && c.edges[e].dst < |c.blocks| && c.G().HasEdge(c.edges[e].src, c.edges[e].dst)
  {
    assert EdgeState(c.w, e);
    HasEdgeAt(|c.blocks|, c.edges, e);
  }

  // The frame's edges are those of the renamed graph, in an order that each source's edges keep.
  lemma EdgesOfRenamed(u: Unit, os: seq<Origin>, fn: nat)
    requires UnitFrom(u, os) && fn < |os| && u.frames[fn].called
    ensures Rearranges(os[fn].c.w.edges, Grouping(os[fn]))
    ensures MadeFrom(u.frames[fn].edges, os[fn].c.w.edges, Grouping(os[fn]), os[fn].cond)
  {
    hide UnitFrom, Translates, Ready;
    FrameOf(u, os, fn);
    var c, em := os[fn].c, Grouping(os[fn]);
    forall e | 0 <= e < |c.edges|
      ensures c.edges[e].src < |c.blocks| && c.w.edges[e].src == c.edges[e].src && c.w.edges[e].dst == c.edges[e].dst
      ensures c.w.edges[e].cond.Some? <==> c.edges[e].cond.Some?
    {
      SameEnds(c, os[fn].lg, e);
    }
    RegroupRearranges(c.edges, |c.blocks|);
  }

  // A node that does not return has an edge to take.
  lemma SomeEdge<X, Y>(msem: MSem<X, Y>, u: Unit, os: seq<Origin>, fn: nat, b: nat, regs: Regs<X>)
    requires UnitFrom(u, os) && fn < |os| && u.frames[fn].called && b < |u.frames[fn].nodes|
    requires !EndsInRet(u.frames[fn], b)
    ensures Choose(msem, u.frames[fn].edges, b, 0, regs).Some?
  {
    hide UnitFrom, Converts, WellFormed, InstFrom, PhiPlaced, EdgeFrom, MadeFrom;
    FrameOf(u, os, fn);
    assert NodeFrom(u, os, fn, b);
    var f := u.frames[fn];
    ChooseIsFirst(msem, f.edges, b, 0, regs);
    var l :| 0 <= l < |f.edges| && f.edges[l].src == b && f.edges[l].cond.None?;
    assert Taken(msem, f.edges, b, l, regs);
  }

  // ---- Phis ----

  // Two versions never share a register.
  lemma OwnRegister(u: Unit, os: seq<Origin>, fn: nat, low: nat, sub: nat, low2: nat, sub2: nat)
    requires UnitFrom(u, os) && fn < |os| && Kept(os[fn], low, sub) && Local(os[fn].c, low2)
    requires os[fn].reg(low, sub) == os[fn].reg(low2, sub2) && Real(os[fn].reg(low, sub))
    ensures low == low2 && sub == sub2
  {
    hide Translates;
    OwnerUnique(u, os, fn, low, sub, low2, sub2, os[fn].reg(low, sub));
  }

  // One phi, with its move.
  lemma PhiKeepsHeld<V, W, X, Y>(x: Setting<V, W, X, Y>, u: Unit, os: seq<Origin>, fn: nat, low: nat, sub: nat,
                                 regs: Regs<X>, env: Env<V>, a: X, v: V)
    requires UnitFrom(u, os) && fn < |os| && Held(x, os[fn], regs, env) && Local(os[fn].c, low)
    requires Kept(os[fn], low, sub) ==> Real(os[fn].reg(low, sub)) && x.rep(os[fn].reg(low, sub).ty, a, v)
    ensures var o := os[fn];
            var regs1: Regs<X> := if Real(o.reg(low, sub)) then SetReg(regs, o.reg(low, sub), a) else regs;
            Held(x, o, regs1, Set(env, low, sub, v))
  {
    hide UnitFrom;
    var o := os[fn];
    var regs1: Regs<X> := if Real(o.reg(low, sub)) then SetReg(regs, o.reg(low, sub), a) else regs;
    forall l: nat, s: nat | Kept(o, l, s)
      ensures x.rep(o.reg(l, s).ty, regs1(o.reg(l, s)), Set(env, low, sub, v)(l, s))
    {
      if o.reg(l, s) == o.reg(low, sub) && Real(o.reg(low, sub)) {
        OwnRegister(u, os, fn, l, s, low, sub);
      }
    }
  }

  // Phi k of block d, entered from b: what it takes is held.
  lemma ArgIsHeld<V, W, X, Y>(x: Setting<V, W, X, Y>, u: Unit, os: seq<Origin>, fn: nat, b: nat, d: nat, k: nat,
                              regs: Regs<X>, env: Env<V>)
    requires UnitFrom(u, os) && fn < |os| && u.frames[fn].called && os[fn].c.G().HasEdge(b, d)
    requires d < |u.frames[fn].nodes|
    requires LeadingPhi(u.frames[fn].nodes[d], k) && Held(x, os[fn], regs, env)
    requires Converted(x, u.frames[fn], os[fn], b, regs, env)
    ensures d < |os[fn].c.w.blocks| && k < |os[fn].c.w.blocks[d]| && os[fn].c.w.blocks[d][k].IsPhi()
    ensures var o, phi, inst := os[fn], os[fn].c.w.blocks[d][k], u.frames[fn].nodes[d][k];
            var arg, m := ArgFor(phi.e.preds, b), PhiMove(inst, b);
            && inst.PhiReg? && inst.dst == o.reg(phi.id.low, phi.id.sub) && arg.Some?
            && (m.Some? <==> Real(inst.dst))
            && (m.Some? ==> m.value.0 == inst.dst && ArgHeld(x, o, inst.dst, arg.value, m.value.1, regs, env))
  {
    hide UnitFrom, Translates, Ready, Held, Loose, Lost;
    FrameOf(u, os, fn);
    var o, f := os[fn], u.frames[fn];
    PhiOfFrame(u, os, fn, d, k);
    var inst, phi := f.nodes[d][k], o.c.w.blocks[d][k];
    var arg, src := ArgFor(phi.e.preds, b), ArgReg(inst.preds, b);
    var from := o.reg(arg.value.low, arg.value.sub);
    if Real(inst.dst) && from.ty == inst.dst.ty && Kept(o, arg.value.low, arg.value.sub) {
      HeldAt(x, o, regs, env, arg.value.low, arg.value.sub);
    }
  }

  lemma HeldAt<V, W, X, Y>(x: Setting<V, W, X, Y>, o: Origin, regs: Regs<X>, env: Env<V>, low: nat, sub: nat)
    requires Held(x, o, regs, env) && Kept(o, low, sub)
    ensures x.rep(o.reg(low, sub).ty, regs(o.reg(low, sub)), env(low, sub))
  {
  }

  // All phis from the k-th on, the graph's next to the frame's.
  lemma {:induction false} EnterHeld<V, W, X, Y>(
      x: Setting<V, W, X, Y>, u: Unit, os: seq<Origin>, fn: nat, b: nat, d: nat, k: nat, regs0: Regs<X>, env0: Env<V>,
      regs: Regs<X>, env: Env<V>)
    requires UnitFrom(u, os) && fn < |os| && u.frames[fn].called && os[fn].c.G().HasEdge(b, d)
    requires d < |u.frames[fn].nodes|
    requires d < |os[fn].lead| && os[fn].lead[d] == 0 && d < |os[fn].c.pre| && k <= |os[fn].c.pre[d]|
    requires k <= |u.frames[fn].nodes[d]| && d < |os[fn].c.w.blocks| && k <= |os[fn].c.w.blocks[d]|
    requires forall l | 0 <= l < k :: u.frames[fn].nodes[d][l].PhiReg?
    requires Held(x, os[fn], regs0, env0) && Converted(x, u.frames[fn], os[fn], b, regs0, env0)
    requires Held(x, os[fn], regs, env)
    ensures Held(x, os[fn], EnterNode(u.frames[fn].nodes[d], k, b, regs0, regs),
                 EnterFrom(os[fn].c.w.blocks[d], k, b, env0, env))
    decreases |os[fn].c.pre[d]| - k
  {
    hide UnitFrom, Translates, Ready, Held, Converted, ArgHeld, PhiMove, ArgReg, ArgFor;
    FrameOf(u, os, fn);
    var o, f := os[fn], u.frames[fn];
    PhisMatch(u, os, fn, d, k);
    if k < |o.c.pre[d]| {
      ArgIsHeld(x, u, os, fn, b, d, k, regs0, env0);
      var phi, m := o.c.w.blocks[d][k], PhiMove(f.nodes[d][k], b);
      var arg := ArgFor(phi.e.preds, b);
      var regs1: Regs<X> := if m.Some? then SetReg(regs, m.value.0, regs0(Reg(m.value.0.ty, m.value.1))) else regs;
      var env1 := Set(env, phi.id.low, phi.id.sub, env0(arg.value.low, arg.value.sub));
      ReadySizes(o.c, o.lg);
      assert o.reg(phi.id.low, phi.id.sub).ty.IsIter() ==> LostAt(o, d, k, phi.id.low, phi.id.sub);
      if m.Some? {
        ArgHeldIs(x, o, f.nodes[d][k].dst, arg.value, m.value.1, regs0, env0);
        PhiKeepsHeld(x, u, os, fn, phi.id.low, phi.id.sub, regs, env, regs0(Reg(m.value.0.ty, m.value.1)),
                     env0(arg.value.low, arg.value.sub));
      } else {
        PhiKeepsHeld(x, u, os, fn, phi.id.low, phi.id.sub, regs, env, regs(o.reg(0, 0)),
                     env0(arg.value.low, arg.value.sub));
      }
      EnterHeld(x, u, os, fn, b, d, k + 1, regs0, env0, regs1, env1);
    }
  }

  lemma ArgHeldIs<V, W, X, Y>(x: Setting<V, W, X, Y>, o: Origin, dst: Reg, arg: Ident, src: nat, regs: Regs<X>,
                              env: Env<V>)
    requires ArgHeld(x, o, dst, arg, src, regs, env)
    ensures x.rep(dst.ty, regs(Reg(dst.ty, src)), env(arg.low, arg.sub))
  {
  }

  // Instruction k of a node without slot instructions in front is a phi exactly if statement k is.
  lemma PhisMatch(u: Unit, os: seq<Origin>, fn: nat, d: nat, k: nat)
    requires UnitFrom(u, os) && fn < |os| && u.frames[fn].called && d < |u.frames[fn].nodes|
    requires d < |os[fn].lead| && os[fn].lead[d] == 0 && d < |os[fn].c.pre| && k <= |os[fn].c.pre[d]|
    requires d < |os[fn].c.w.blocks|
    requires forall l | 0 <= l < k && l < |u.frames[fn].nodes[d]| :: u.frames[fn].nodes[d][l].PhiReg?
    ensures var node, stmts := u.frames[fn].nodes[d], os[fn].c.w.blocks[d];
            if k < |os[fn].c.pre[d]| then
              && k < |node| && k < |stmts| && LeadingPhi(node, k)
              && stmts[k].IsPhi() && Local(os[fn].c, stmts[k].id.low)
            else
              && (k < |node| ==> !node[k].PhiReg?) && (k < |stmts| ==> !stmts[k].IsPhi())
  {
    hide UnitFrom, Converts, WellFormed, InstFrom, EdgeFrom, MadeFrom, PhiFrom, BranchShape, Ready;
    FrameOf(u, os, fn);
    var o := os[fn];
    assert NodeFrom(u, os, fn, d);
    if k < |o.c.pre[d]| {
      assert PhiPlaced(u, os, o, d, k, u.frames[fn].nodes[d]);
      PhiIsReg(u, os, o, d, k, u.frames[fn].nodes[d]);
      PhiDefines(o.c, o.lg, d, k);
    } else if k < |o.c.w.blocks[d]| {
      PhiAt(o.c, o.lg, d, k);
    }
  }

  lemma PhiIsReg(u: Unit, os: seq<Origin>, o: Origin, b: nat, k: nat, node: seq<FInst>)
    requires b < |o.c.w.blocks| && b < |o.lead| && o.lead[b] + k < |node| && PhiPlaced(u, os, o, b, k, node)
    ensures node[o.lead[b] + k].PhiReg?
  {
  }

  // Phis behind slot instructions: the frame does not carry them out, and nothing that is kept depends on them.
  lemma {:induction false} LostPhis<V, W, X, Y>(x: Setting<V, W, X, Y>, c: Conversion, o: Origin, b: nat, d: nat,
                                                k: nat,
                                                regs: Regs<X>, env0: Env<V>, env: Env<V>)
    requires o.c == c && Ready(c, o.lg) && d < |c.blocks| && d < |o.lead| && o.lead[d] > 0
    requires d < |c.w.blocks| && k <= |c.w.blocks[d]| && Held(x, o, regs, env)
    ensures Held(x, o, regs, EnterFrom(c.w.blocks[d], k, b, env0, env))
    decreases |c.w.blocks[d]| - k
  {
    hide Ready;
    if k < |c.w.blocks[d]| && c.w.blocks[d][k].IsPhi() {
      var phi, arg := c.w.blocks[d][k], ArgFor(c.w.blocks[d][k].e.preds, b);
      PhiAt(c, o.lg, d, k);
      ReadySizes(c, o.lg);
      assert LostAt(o, d, k, phi.id.low, phi.id.sub);
      var env1: Env<V> := if arg.None? then env
                          else Set(env, phi.id.low, phi.id.sub, env0(arg.value.low, arg.value.sub));
      LostPhis(x, c, o, b, d, k + 1, regs, env0, env1);
    }
  }

  // ---- From block to block ----

  // Frame and renamed graph stand in front of the same block, or are both done.
  ghost predicate Follows<V, W, X, Y>(x: Setting<V, W, X, Y>, f: Frame, o: Origin, fn: nat, st: FState<X, Y>,
                                      s: State<V, W>) {
    match s
    case Halted(w) => st.Done? && x.same(st.world, w)
    case At(b, env, w) =>
      && st.Active? && st.fn == fn && st.b == b < |f.nodes| && st.i == 0 && st.stack == []
      && Held(x, o, st.regs, env) && x.same(st.world, w)
  }

  lemma CrossEdge<V, W, X, Y>(x: Setting<V, W, X, Y>, u: Unit, os: seq<Origin>, fn: nat, b: nat, regs: Regs<X>, y: Y,
                              env: Env<V>, w: W)
    requires UnitFrom(u, os) && fn < |os| && u.frames[fn].called && b < |u.frames[fn].nodes|
    requires !EndsInRet(u.frames[fn], b) && x.same(y, w)
    requires Held(x, os[fn], regs, env) && CondsHold(x, os[fn], b, regs, env, w)
    requires Converted(x, u.frames[fn], os[fn], b, regs, env)
    ensures var br := Branch(x.sem, os[fn].lg, os[fn].c.w.edges, b, 0, env, w);
            && br.Some? && os[fn].c.w.edges[br.value].dst < |os[fn].c.w.blocks|
            && var d := os[fn].c.w.edges[br.value].dst;
               Follows(x, u.frames[fn], os[fn], fn,
                       FStep(x.msem, u.frames, Active(fn, b, |u.frames[fn].nodes[b]|, regs, y, [])),
                       At(d, EnterFrom(os[fn].c.w.blocks[d], 0, b, env, env), w))
  {
    hide UnitFrom, Translates, Ready, Held, Converted, MadeFrom, Rearranges, Operand;
    FrameOf(u, os, fn);
    var o, f := os[fn], u.frames[fn];
    EdgesOfRenamed(u, os, fn);
    SomeEdge(x.msem, u, os, fn, b, regs);
    Regrouping.SameBranch(x.sem, x.msem, o.lg, o.c.w.edges, Grouping(o), f.edges, o.cond, b, env, w, regs);
    var e := Choose(x.msem, f.edges, b, 0, regs).value;
    EdgeEndsMatch(f.edges, o.c.w.edges, Grouping(o), o.cond, e);
    var g := Grouping(o)[e];
    SameEnds(o.c, o.lg, g);
    var d := f.edges[e].dst;
    NodeHasLead(u, os, fn, d);
    if o.lead[d] == 0 {
      EnterHeld(x, u, os, fn, b, d, 0, regs, env, regs, env);
    } else {
      LostPhis(x, o.c, o, b, d, 0, regs, env, env);
      NoLeadingPhi(u, os, fn, d);
    }
  }

  lemma EdgeEndsMatch(fedges: seq<FEdge>, edges: seq<Edge>, em: seq<nat>, cond: nat -> nat, e: nat)
    requires MadeFrom(fedges, edges, em, cond) && e < |fedges|
    ensures e < |em| && em[e] < |edges| && fedges[e].src == edges[em[e]].src && fedges[e].dst == edges[em[e]].dst
  {
  }

  lemma NodeHasLead(u: Unit, os: seq<Origin>, fn: nat, d: nat)
    requires UnitFrom(u, os) && fn < |os| && u.frames[fn].called && d < |u.frames[fn].nodes|
    ensures d < |os[fn].lead|
  {
    FrameOf(u, os, fn);
    assert NodeFrom(u, os, fn, d);
  }

  lemma NoLeadingPhi(u: Unit, os: seq<Origin>, fn: nat, d: nat)
    requires UnitFrom(u, os) && fn < |os| && u.frames[fn].called && d < |u.frames[fn].nodes|
    requires d < |os[fn].lead| && os[fn].lead[d] > 0
    ensures u.frames[fn].nodes[d] != [] && !u.frames[fn].nodes[d][0].PhiReg?
  {
    FrameOf(u, os, fn);
    assert NodeFrom(u, os, fn, d);
  }

  lemma {:induction false} FRunAdd<X, Y>(msem: MSem<X, Y>, frames: seq<Frame>, a: nat, b: nat, st: FState<X, Y>)
    ensures FRun(msem, frames, a + b, st) == FRun(msem, frames, b, FRun(msem, frames, a, st))
  {
    if a > 0 {
      FRunAdd(msem, frames, a - 1, b, FStep(msem, frames, st));
    }
  }

  // One block of the renamed graph is matched by some number of frame steps.
  lemma FollowStep<V(!new), W(!new), X(!new), Y(!new)>(x: Setting<V, W, X, Y>, u: Unit, os: seq<Origin>, fn: nat,
                                                       st: FState<X, Y>, s: State<V, W>) returns (n: nat)
    requires UnitFrom(u, os) && fn < |os| && u.frames[fn].called && Sound(x, u, os, fn)
    requires Follows(x, u.frames[fn], os[fn], fn, st, s)
    ensures Follows(x, u.frames[fn], os[fn], fn, FRun(x.msem, u.frames, n, st),
                    Step(x.sem, os[fn].lg, os[fn].c.After(), s))
  {
    hide UnitFrom, Translates, Ready, Held, Converted, CondsHold, FStep, FRun, Step, RunUpTo, Branch, EnterFrom,
         Operand, Sound;
    FrameOf(u, os, fn);
    var o, f := os[fn], u.frames[fn];
    StepIs(x.sem, o.lg, o.c.After(), s);
    if s.Halted? {
      n := 0;
      NoFrameSteps(x.msem, u.frames, st);
    } else {
      var b := s.block;
      var n1 := RunBlock(x, u, os, fn, b, st, s);
      var mid := FRun(x.msem, u.frames, n1, st);
      var (env1, w1) := RunUpTo(x.sem, o.lg, o.c.w.blocks[b], |o.c.w.blocks[b]|, s.env, s.world);
      if EndsInRet(f, b) {
        NoBranch(x, u, os, fn, b, env1, w1);
        n := n1;
      } else {
        CrossEdge(x, u, os, fn, b, mid.regs, mid.world, env1, w1);
        n := n1 + 1;
        FRunAdd(x.msem, u.frames, n1, 1, st);
        OneFrameStep(x.msem, u.frames, mid);
      }
    }
  }

  lemma RunBlock<V(!new), W(!new), X(!new), Y(!new)>(x: Setting<V, W, X, Y>, u: Unit, os: seq<Origin>, fn: nat, b: nat,
                                                     st: FState<X, Y>, s: State<V, W>) returns (n: nat)
    requires Sound(x, u, os, fn) && s.At? && s.block == b && Follows(x, u.frames[fn], os[fn], fn, st, s)
    ensures BlockEnds(x, u, os[fn], fn, b, s.env, s.world, FRun(x.msem, u.frames, n, st))
  {
    hide Held, BlockEnds, FRun;
    assert BlockSound(x, u, os[fn], fn, b);
    assert st == Active(fn, b, 0, st.regs, st.world, []);
    n :| BlockEnds(x, u, os[fn], fn, b, s.env, s.world,
                   FRun(x.msem, u.frames, n, Active(fn, b, 0, st.regs, st.world, [])));
  }

  lemma StepIs<V, W>(sem: Sem<V, W>, lg: set<nat>, p: Program, s: State<V, W>)
    ensures s.Halted? ==> Step(sem, lg, p, s) == s
    ensures s.At? && s.block < |p.blocks| ==>
              var (env1, w1) := RunUpTo(sem, lg, p.blocks[s.block], |p.blocks[s.block]|, s.env, s.world);
              var br := Branch(sem, lg, p.edges, s.block, 0, env1, w1);
              && (br.None? ==> Step(sem, lg, p, s) == Halted(w1))
              && (br.Some? && p.edges[br.value].dst < |p.blocks| ==>
                    var d := p.edges[br.value].dst;
                    Step(sem, lg, p, s) == At(d, EnterFrom(p.blocks[d], 0, s.block, env1, env1), w1))
  {
    hide RunUpTo, Branch, EnterFrom;
  }

  lemma NoFrameSteps<X, Y>(msem: MSem<X, Y>, frames: seq<Frame>, st: FState<X, Y>)
    ensures FRun(msem, frames, 0, st) == st
  {
  }

  lemma OneFrameStep<X, Y>(msem: MSem<X, Y>, frames: seq<Frame>, st: FState<X, Y>)
    ensures FRun(msem, frames, 1, st) == FStep(msem, frames, st)
  {
    assert FRun(msem, frames, 0, FStep(msem, frames, st)) == FStep(msem, frames, st);
  }

  lemma NoBranch<V(!new), W(!new), X(!new), Y(!new)>(x: Setting<V, W, X, Y>, u: Unit, os: seq<Origin>, fn: nat, b: nat,
                                                     env: Env<V>, w: W)
    requires Sound(x, u, os, fn) && Ready(os[fn].c, os[fn].lg) && b < |u.frames[fn].nodes| && EndsInRet(u.frames[fn], b)
    ensures Branch(x.sem, os[fn].lg, os[fn].c.w.edges, b, 0, env, w).None?
  {
    hide Ready, Operand, BlockSound;
    var c := os[fn].c;
    BranchIsFirst(x.sem, os[fn].lg, c.w.edges, b, 0, env, w);
    var r := Branch(x.sem, os[fn].lg, c.w.edges, b, 0, env, w);
    SizesOf(c, os[fn].lg);
    forall e: nat | e < |c.w.edges|
      ensures c.w.edges[e].src != b
    {
      SameEnds(c, os[fn].lg, e);
    }
  }

  lemma {:induction false} FramesFollowGraph<V(!new), W(!new), X(!new), Y(!new)>(
      x: Setting<V, W, X, Y>, u: Unit, os: seq<Origin>, fn: nat, st: FState<X, Y>, env: Env<V>, w: W, k: nat)
    returns (n: nat)
    requires UnitFrom(u, os) && fn < |os| && u.frames[fn].called && Sound(x, u, os, fn)
    requires Follows(x, u.frames[fn], os[fn], fn, st, At(os[fn].c.entry, env, w))
    ensures Follows(x, u.frames[fn], os[fn], fn, FRun(x.msem, u.frames, n, st),
                    Run(x.sem, os[fn].lg, os[fn].c.After(), k, At(os[fn].c.entry, env, w)))
  {
    hide UnitFrom, Sound, Follows, FStep, Step;
    if k == 0 {
      n := 0;
    } else {
      var n1 := FramesFollowGraph(x, u, os, fn, st, env, w, k - 1);
      var mid := FRun(x.msem, u.frames, n1, st);
      var s := Run(x.sem, os[fn].lg, os[fn].c.After(), k - 1, At(os[fn].c.entry, env, w));
      var n2 := FollowStep(x, u, os, fn, mid, s);
      n := n1 + n2;
      FRunAdd(x.msem, u.frames, n1, n2, st);
    }
  }

  // ---- The whole way ----

  // The machine next to the original graph, which still has its unversioned locals.
  ghost predicate Computes<V, W, X, Y>(x: Setting<V, W, X, Y>, u: Unit, o: Origin, fn: nat, m: Outcome<X, Y>,
                                       s: State<V, W>) {
    match s
    case Halted(w) => m.Finished? && x.same(m.world, w)
    case At(b, env, w) =>
      && m.Going? && fn < |u.frames| && b < |u.frames[fn].nodes| && EdgesOk(u.frames[fn])
      && m.m.fn == fn && m.m.pc == Pos(u, fn, b, 0) && m.m.calls == [] && (forall t :: m.m.stacks(t) == [])
      && x.same(m.m.world, w)
      && b < |o.c.blocks| && b < |o.c.w.trace| && b < |o.c.pre| && |o.c.pre[b]| < |o.c.w.trace[b]|
      && forall low: nat | Local(o.c, low) && TrackedAt(o.c, low, b, 0) ::
           low < |SsaForm.Start(o.c, b)| && HoldsLocal(x, o, low, SsaForm.Start(o.c, b)[low], m.m.regs, env)
  }

  ghost predicate HoldsLocal<V, W, X, Y>(x: Setting<V, W, X, Y>, o: Origin, low: nat, sub: nat, regs: Regs<X>,
                                         env: Env<V>) {
    Kept(o, low, sub) ==> x.rep(o.reg(low, sub).ty, regs(o.reg(low, sub)), env(low, 0))
  }

  // Started where registers and world stand for the locals and the world, the bytecode goes through
  // the blocks that the original graph goes through, with the same world and, in the registers of
  // the latest versions, the same locals; and it stops when the graph does.
  lemma BytecodeComputesGraph<V(!new), W(!new), X(!new), Y(!new)>(
      x: Setting<V, W, X, Y>, u: Unit, os: seq<Origin>, code: seq<seq<LL>>, fn: nat, regs: Regs<X>, y: Y,
      env: Env<V>, w: W, k: nat)
    returns (n: nat, m: Outcome<X, Y>)
    requires UnitFrom(u, os) && IsCode(u, code) && fn < |os| && fn < |u.frames|
    requires u.frames[fn].called && u.frames[fn].params == [] && Sound(x, u, os, fn)
    requires var st := FreshFrame(x.msem, u, fn, regs, y); Held(x, os[fn], st.regs, env) && x.same(st.world, w)
    ensures MRun(x.msem, code, n, FreshMachine(fn, regs, y)) == m
    ensures Computes(x, u, os[fn], fn, m, Run(x.sem, os[fn].lg, os[fn].c.Before(), k, At(os[fn].c.entry, env, w)))
  {
    hide UnitFrom, Translates, Ready, Held, Sound, MRun, FRun, Run, LiveOf, IsCode, AllocAll, Converts, WellFormed,
         InStep, Matches, Follows;
    FrameOf(u, os, fn);
    var o := os[fn];
    var st := FreshFrame(x.msem, u, fn, regs, y);
    StartFollows(x, u, os, fn, st, env, w);
    var nf := FramesFollowGraph(x, u, os, fn, st, env, w, k);
    var snaps;
    n, m, snaps := BytecodeFollowsFrames(x.msem, u, os, code, fn, regs, y, nf);
    FromConversion(u, os, fn);
    SsaPreservesMeaning(x.sem, o.lg, o.c, env, w, k);
    Together(x, u, os, fn, FRun(x.msem, u.frames, nf, st), m, snaps,
             Run(x.sem, o.lg, o.c.Before(), k, At(o.c.entry, env, w)),
             Run(x.sem, o.lg, o.c.After(), k, At(o.c.entry, env, w)));
  }

  lemma StartFollows<V, W, X, Y>(x: Setting<V, W, X, Y>, u: Unit, os: seq<Origin>, fn: nat, st: FState<X, Y>,
                                 env: Env<V>, w: W)
    requires UnitFrom(u, os) && fn < |os| && u.frames[fn].called
    requires st.Active? && st.fn == fn && st.b == 0 && st.i == 0 && st.stack == []
    requires Held(x, os[fn], st.regs, env) && x.same(st.world, w)
    ensures Follows(x, u.frames[fn], os[fn], fn, st, At(os[fn].c.entry, env, w))
  {
    FrameOf(u, os, fn);
  }

  lemma FromConversion(u: Unit, os: seq<Origin>, fn: nat)
    requires UnitFrom(u, os) && fn < |os| && u.frames[fn].called
    ensures Converts(os[fn].c) && WellFormed(os[fn].c, os[fn].lg)
  {
    assert Translates(u, os, fn);
  }

  lemma Together<V, W, X, Y>(x: Setting<V, W, X, Y>, u: Unit, os: seq<Origin>, fn: nat, st: FState<X, Y>,
                             m: Outcome<X, Y>, snaps: seq<Regs<X>>, s0: State<V, W>, s1: State<V, W>)
    requires UnitFrom(u, os) && fn < |os| && |os| == |u.frames| && u.frames[fn].called
    requires Follows(x, u.frames[fn], os[fn], fn, st, s1) && InStep(os[fn].c, s0, s1)
    requires Matches(u, LiveOf(u, os), st, m, snaps)
    ensures Computes(x, u, os[fn], fn, m, s0)
  {
    hide UnitFrom, Translates, Ready, LiveOf, Held, Pos, TrackedAt, Lost;
    FrameOf(u, os, fn);
    var o := os[fn];
    if s0.At? {
      var b := s0.block;
      BlockFacts(o.c, o.lg, b);
      LiveIs(u, os);
      StacksEmpty(u, LiveOf(u, os), st, m.m, snaps);
      forall low: nat | Local(o.c, low) && TrackedAt(o.c, low, b, 0)
        ensures low < |SsaForm.Start(o.c, b)| && HoldsLocal(x, o, low, SsaForm.Start(o.c, b)[low], m.m.regs, s0.env)
      {
        if Kept(o, low, SsaForm.Start(o.c, b)[low]) {
          HeldAt(x, o, st.regs, s1.env, low, SsaForm.Start(o.c, b)[low]);
          StartIsCurrent(u, os, fn, b, low);
          CurrentIsReadable(u, os, fn, b, 0, o.reg(low, SsaForm.Start(o.c, b)[low]));
        }
      }
    }
  }

  lemma StacksEmpty<X, Y>(u: Unit, live: Live, st: FState<X, Y>, m: Machine<X, Y>, snaps: seq<Regs<X>>)
    requires LiveShape(u, live) && st.Active? && st.stack == [] && RelActive(u, live, st, m, snaps)
    ensures m.calls == [] && forall t :: m.stacks(t) == []
  {
  }

  lemma StartIsCurrent(u: Unit, os: seq<Origin>, fn: nat, b: nat, low: nat)
    requires UnitFrom(u, os) && fn < |os| && u.frames[fn].called && b < |u.frames[fn].nodes| && Local(os[fn].c, low)
    requires b < |os[fn].c.w.trace| && b < |os[fn].c.pre| && |os[fn].c.pre[b]| < |os[fn].c.w.trace[b]|
    ensures low < |SsaForm.Start(os[fn].c, b)| && InFrame(u, fn, b, 0)
    ensures ReadsOk(u, os, fn, b, 0, os[fn].reg(low, SsaForm.Start(os[fn].c, b)[low]))
  {
    hide UnitFrom, Converts, WellFormed, InstFrom, PhiPlaced, EdgeFrom, MadeFrom, BranchShape;
    FrameOf(u, os, fn);
    assert NodeFrom(u, os, fn, b);
    VersIs(u, os, fn, b, 0);
    assert Current(os[fn], b, 0, os[fn].reg(low, VersAt(os[fn], b, 0)[low]));
  }
}
