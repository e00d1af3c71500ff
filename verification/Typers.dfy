// src/compile.rs `to_bytecode`: lowering typed frames to instruction vectors, with back-patched jumps.
module Typers {
  import opened Ir
  import opened Bytecode
  import opened Frames
  import opened Layout
  import opened FrameRules

  datatype RegStatus = Local | Global | ReturnReg

  // Registers are handed out by type, in order.
  class RegStatuses {
    var regs: map<Ty, seq<RegStatus>>

    function Count(ty: Ty): nat
      reads this
    {
      if ty in regs then |regs[ty]| else 0
    }

    // A register nobody has been given before; Null values have no registers of their own.
    method NewReg(ty: Ty, status: RegStatus) returns (res: nat)
      modifies this
      ensures ty.Null? ==> res == NULL_REG && regs == old(regs)
      ensures !ty.Null? ==> res == old(Count(ty)) && Count(ty) == res + 1
      ensures forall t | t != ty :: Count(t) == old(Count(t))
    {
      if ty.Null? {
        return NULL_REG;
      }
      var v := if ty in regs then regs[ty] else [];
      res := |v|;
      regs := regs[ty := v + [status]];
    }
  }

  // ---- What can be lowered ----

  // A move at an iterator type is an error.
  predicate MovFine(dst: Reg, src: nat) {
    dst.ix == UNUSED || src == UNUSED || !dst.ty.IsIter()
  }

  ghost predicate InstFine(u: Unit, fn: nat, i: FInst) {
    match i
    case CallUdf(g, dst, _) => MovFine(dst, RetIx(u, g))
    case RetVal(r) => MovFine(Reg(r.ty, RetIx(u, fn)), r.ix)
    case _ => true
  }

  ghost predicate PhisFine(node: seq<FInst>, p: nat) {
    forall k | 0 <= k && LeadingPhi(node, k) && ArgReg(node[k].preds, p).Some? ::
      MovFine(node[k].dst, ArgReg(node[k].preds, p).value)
  }

  ghost predicate FrameFine(u: Unit, fn: nat)
    requires fn < |u.frames| && EdgesOk(u.frames[fn])
  {
    var f := u.frames[fn];
    && (forall r <- f.params :: !r.ty.IsIter())
    && (forall b, i | 0 <= b < |f.nodes| && 0 <= i < |f.nodes[b]| :: InstFine(u, fn, f.nodes[b][i]))
    && (forall e | 0 <= e < |f.edges| :: PhisFine(f.nodes[f.edges[e].dst], f.edges[e].src))
  }

  const ITER_TYPES: set<Ty> := {IterInt, IterStr}

  predicate RefusedMove(ty: Ty, dst: nat, src: nat) {
    ty in ITER_TYPES && dst != 0xFFFF_FFFF && src != 0xFFFF_FFFF
  }

  // An iterator as a parameter, as a result, returned to a caller, or brought by a leading phi.
  ghost predicate Refused(u: Unit, fn: nat)
    requires fn < |u.frames| == |u.rets|
  {
    var f := u.frames[fn];
    || (exists r <- f.params :: r.ty in ITER_TYPES)
    || (exists b: nat, i: nat :: b < |f.nodes| && i < |f.nodes[b]| && f.nodes[b][i].RetVal? &&
          RefusedMove(f.nodes[b][i].r.ty, u.rets[fn].ix, f.nodes[b][i].r.ix))
    || (exists b: nat, i: nat :: b < |f.nodes| && i < |f.nodes[b]| && f.nodes[b][i].CallUdf? &&
          RefusedMove(f.nodes[b][i].dst.ty, f.nodes[b][i].dst.ix, RetIx(u, f.nodes[b][i].func)))
    || (exists e: nat, k: nat :: e < |f.edges| && f.edges[e].dst < |f.nodes| &&
          LeadingPhi(f.nodes[f.edges[e].dst], k) && RefusedPhi(f.nodes[f.edges[e].dst][k], f.edges[e].src))
  }

  ghost predicate RefusedPhi(phi: FInst, p: nat)
    requires phi.PhiReg?
  {
    var src := ArgReg(phi.preds, p);
    src.Some? && RefusedMove(phi.dst.ty, phi.dst.ix, src.value)
  }

  lemma RefusedIs(u: Unit, fn: nat)
    requires fn < |u.frames| == |u.rets| && EdgesOk(u.frames[fn])
    ensures FrameFine(u, fn) <==> !Refused(u, fn)
  {
    var f := u.frames[fn];
    forall b, i | 0 <= b < |f.nodes| && 0 <= i < |f.nodes[b]|
      ensures InstFine(u, fn, f.nodes[b][i]) <==>
              && (f.nodes[b][i].RetVal? ==> !RefusedMove(f.nodes[b][i].r.ty, u.rets[fn].ix, f.nodes[b][i].r.ix))
              && (f.nodes[b][i].CallUdf? ==>
                    !RefusedMove(f.nodes[b][i].dst.ty, f.nodes[b][i].dst.ix, RetIx(u, f.nodes[b][i].func)))
    {
    }
    forall e | 0 <= e < |f.edges|
      ensures PhisFine(f.nodes[f.edges[e].dst], f.edges[e].src) <==>
              forall k: nat | LeadingPhi(f.nodes[f.edges[e].dst], k) ::
                !RefusedPhi(f.nodes[f.edges[e].dst][k], f.edges[e].src)
    {
    }
  }

  // What the frame builder guarantees: edges between nodes, no jumps or stack operations of its
  // own, no iterators among call arguments.
  predicate Lowerable(f: Frame) {
    && (forall e | 0 <= e < |f.edges| :: f.edges[e].src < |f.nodes| && f.edges[e].dst < |f.nodes|)
    && (forall b, i | 0 <= b < |f.nodes| && 0 <= i < |f.nodes[b]| && f.nodes[b][i].Left? :: f.nodes[b][i].ll.IsPlain())
    && (forall b, i | 0 <= b < |f.nodes| && 0 <= i < |f.nodes[b]| && f.nodes[b][i].CallUdf? ::
          forall r <- f.nodes[b][i].args :: !r.ty.IsIter())
  }

  lemma LowerableEdges(f: Frame)
    requires Lowerable(f)
    ensures EdgesOk(f)
  {
  }

  // ---- The instruction vector under construction ----

  class Assembler {
    var instrs: seq<LL>
    var jmps: seq<nat>
    var bbMap: seq<nat>
    ghost const nodes: nat

    // `jmps` lists exactly the jumps, and each goes to a node.
    ghost predicate Valid()
      reads this
    {
      && (forall k | 0 <= k < |instrs| :: k in jmps <==> instrs[k].Jmp? || instrs[k].JmpIf?)
      && (forall j <- jmps :: j < |instrs|)
      && (forall i, j | 0 <= i < j < |jmps| :: jmps[i] != jmps[j])
      && (forall k | 0 <= k < |instrs| && instrs[k].Jmp? :: instrs[k].lbl < nodes)
      && (forall k | 0 <= k < |instrs| && instrs[k].JmpIf? :: instrs[k].lbl < nodes)
    }

    constructor (ghost n: nat)
      ensures Valid() && instrs == [] && bbMap == [] && jmps == [] && nodes == n
    {
      instrs, jmps, bbMap, nodes := [], [], [], n;
    }

    method Emit(i: LL)
      requires Valid() && !i.Jmp? && !i.JmpIf?
      modifies this`instrs
      ensures Valid() && instrs == old(instrs) + [i]
    {
      instrs := instrs + [i];
    }

    method EmitJump(i: LL)
      requires Valid() && (i.Jmp? || i.JmpIf?) && i.lbl < nodes
      modifies this`instrs, this`jmps
      ensures Valid() && instrs == old(instrs) + [i]
    {
      assert forall k | 0 <= k < |jmps| :: jmps[k] in jmps;
      jmps := jmps + [|instrs|];
      instrs := instrs + [i];
      assert forall k | 0 <= k < |jmps| - 1 :: jmps[k] == old(jmps)[k] < |old(instrs)|;
    }

    method PopVar(r: Reg) returns (ok: bool)
      requires Valid()
      modifies this`instrs
      ensures Valid() && ok == (r.ty !in ITER_TYPES)
      ensures instrs == old(instrs) + (if r.ty in VALUE_TYPES then [Pop(r)] else [])
    {
      ok := !r.ty.IsIter();
      if r.ty.Stackable() {
        Emit(Pop(r));
      }
    }

    method PushVar(r: Reg) returns (ok: bool)
      requires Valid()
      modifies this`instrs
      ensures Valid() && ok == (r.ty !in ITER_TYPES)
      ensures instrs == old(instrs) + (if r.ty in VALUE_TYPES then [Push(r)] else [])
    {
      ok := !r.ty.IsIter();
      if r.ty.Stackable() {
        Emit(Push(r));
      }
    }

    method EmitMov(dst: Reg, src: nat) returns (ok: bool)
      requires Valid()
      modifies this`instrs
      ensures Valid() && ok == MovFine(dst, src) && instrs == old(instrs) + MovCode(dst, src)
      ensures ok <==> !RefusedMove(dst.ty, dst.ix, src)
      ensures instrs == old(instrs) +
                (if dst.ty in VALUE_TYPES && dst.ix != 0xFFFF_FFFF && src != 0xFFFF_FFFF then [Mov(dst, src)] else [])
    {
      ok := true;
      if dst.ix == UNUSED || src == UNUSED || dst.ty.Null? {
        return;
      }
      if dst.ty.IsIter() {
        return false;
      }
      Emit(Mov(dst, src));
    }

    method EmitAllocs(locals: seq<Reg>)
      requires Valid()
      modifies this`instrs
      ensures Valid() && instrs == old(instrs) + Allocs(locals)
    {
      var k := 0;
      while k < |locals|
        invariant 0 <= k <= |locals| && Valid()
        invariant instrs == old(instrs) + Allocs(locals[..k])
      {
        if locals[k].ty.IsArray() {
          Emit(AllocMap(locals[k]));
        }
        assert locals[..k + 1][..k] == locals[..k];
        k := k + 1;
      }
      assert locals[..|locals|] == locals;
    }

    // Locals are pushed in order, without iterators.
    method EmitPushes(rs: seq<Reg>)
      requires Valid()
      modifies this`instrs
      ensures Valid() && instrs == old(instrs) + Pushes(rs)
    {
      var k := 0;
      while k < |rs|
        invariant 0 <= k <= |rs| && Valid()
        invariant instrs == old(instrs) + Pushes(rs[..k])
      {
        if !rs[k].ty.IsIter() {
          var _ := PushVar(rs[k]);
        }
        assert rs[..k + 1][..k] == rs[..k];
        k := k + 1;
      }
      assert rs[..|rs|] == rs;
    }

    // ... and popped in reverse; an iterator is skipped among locals and refused among parameters.
    method EmitPops(rs: seq<Reg>) returns (ok: bool)
      requires Valid()
      modifies this`instrs
      ensures Valid() && instrs == old(instrs) + Pops(rs) && (ok <==> forall r <- rs :: !r.ty.IsIter())
    {
      ok := true;
      var k := |rs|;
      assert rs[..|rs|] == rs;
      while k > 0
        invariant 0 <= k <= |rs| && Valid()
        invariant old(instrs) + Pops(rs) == instrs + Pops(rs[..k])
        invariant ok <==> forall j | k <= j < |rs| :: !rs[j].ty.IsIter()
      {
        k := k - 1;
        var fine := PopVar(rs[k]);
        ok := ok && fine;
        assert rs[..k + 1][..k] == rs[..k];
      }
    }

    // The caller's locals are saved around the jump, and the result is fetched from the callee's register.
    method EmitCall(u: Unit, fn: nat, g: nat, dst: Reg, args: seq<Reg>) returns (ok: bool)
      requires Valid() && fn < |u.frames|
      modifies this`instrs
      ensures Valid() && instrs == old(instrs) + InstCode(u, fn, CallUdf(g, dst, args))
      ensures ok <==> InstFine(u, fn, CallUdf(g, dst, args))
    {
      hide Pushes, Pops, MovCode, MovFine;
      EmitPushes(u.frames[fn].locals);
      EmitPushes(args);
      Emit(LL.Call(g));
      var _ := EmitPops(u.frames[fn].locals);
      ok := EmitMov(dst, RetIx(u, g));
    }

    method EmitInst(u: Unit, fn: nat, i: FInst) returns (ok: bool)
      requires Valid() && fn < |u.frames| && (i.Left? ==> i.ll.IsPlain())
      modifies this`instrs
      ensures Valid() && instrs == old(instrs) + InstCode(u, fn, i) && (ok <==> InstFine(u, fn, i))
    {
      hide Pushes, Pops, MovCode, MovFine;
      ok := true;
      match i
      case Left(ll) => Emit(ll);
      case CallUdf(g, dst, args) => ok := EmitCall(u, fn, g, dst, args);
      case RetVal(r) =>
        ok := EmitMov(Reg(r.ty, RetIx(u, fn)), r.ix);
        Emit(LL.Ret);
      case PhiReg(_, _) =>
      case DropIter(_) =>
    }

    method EmitInsts(u: Unit, fn: nat, node: seq<FInst>) returns (ok: bool)
      requires Valid() && fn < |u.frames| && forall i | 0 <= i < |node| && node[i].Left? :: node[i].ll.IsPlain()
      modifies this`instrs
      ensures Valid() && instrs == old(instrs) + InstsCode(u, fn, node)
      ensures ok <==> forall i | 0 <= i < |node| :: InstFine(u, fn, node[i])
    {
      hide InstCode, InstFine;
      ok := true;
      var k := 0;
      while k < |node|
        invariant 0 <= k <= |node| && Valid()
        invariant instrs == old(instrs) + InstsCode(u, fn, node[..k])
        invariant ok <==> forall i | 0 <= i < k :: InstFine(u, fn, node[i])
      {
        var fine := EmitInst(u, fn, node[k]);
        ok := ok && fine;
        assert node[..k + 1][..k] == node[..k];
        k := k + 1;
      }
      assert node[..|node|] == node;
    }

    // Stops at the first instruction that is no phi; of each phi, the first argument listed for the
    // predecessor is moved.
    method EmitPhis(node: seq<FInst>, p: nat) returns (ok: bool)
      requires Valid()
      modifies this`instrs
      ensures Valid() && instrs == old(instrs) + PhiMoves(node, 0, p) && (ok <==> PhisFine(node, p))
    {
      hide ArgReg, MovFine;
      ok := true;
      var k := 0;
      while k < |node| && node[k].PhiReg?
        invariant 0 <= k <= |node| && Valid()
        invariant forall j | 0 <= j < k :: node[j].PhiReg?
        invariant instrs + PhiMoves(node, k, p) == old(instrs) + PhiMoves(node, 0, p)
        invariant ok <==> forall j | 0 <= j < k && ArgReg(node[j].preds, p).Some? ::
                    MovFine(node[j].dst, ArgReg(node[j].preds, p).value)
        decreases |node| - k
      {
        var src := FirstArg(node[k].preds, p);
        MovCodeOfPhi(node[k], p);
        if src.Some? {
          var fine := EmitMov(node[k].dst, src.value);
          ok := ok && fine;
        }
        k := k + 1;
      }
      assert forall j | 0 <= j < k :: LeadingPhi(node, j);
    }

    method EmitMoves(f: Frame, b: nat) returns (ok: bool)
      requires Valid() && EdgesOk(f)
      modifies this`instrs
      ensures Valid() && instrs == old(instrs) + AllMoves(f, b, OutOf(f.edges, b, |f.edges|))
      ensures ok <==> forall e | 0 <= e < |f.edges| && f.edges[e].src == b :: PhisFine(f.nodes[f.edges[e].dst], b)
    {
      ok := true;
      hide PhisFine, PhiMoves, OutOf, AllMoves;
      var es := OutOf(f.edges, b, |f.edges|);
      NoMovesLeft(f, b, es);
      var k := 0;
      while k < |es|
        invariant 0 <= k <= |es| && Valid()
        invariant instrs + AllMoves(f, b, es[k..]) == old(instrs) + AllMoves(f, b, es)
        invariant ok <==> forall j | 0 <= j < k :: es[j] < |f.edges| && PhisFine(f.nodes[f.edges[es[j]].dst], b)
      {
        assert es[k] in es;
        MovesNext(f, b, es, k);
        var fine := EmitPhis(f.nodes[f.edges[es[k]].dst], b);
        ok := ok && fine;
        k := k + 1;
      }
      assert forall e | 0 <= e < |f.edges| && f.edges[e].src == b :: e in es;
      assert forall j | 0 <= j < |es| :: es[j] in es;
    }

    // The walker lists the newest edge first, so the list is gone through backwards.
    method EmitJumps(f: Frame, b: nat)
      requires Valid() && EdgesOk(f) && nodes == |f.nodes|
      modifies this`instrs, this`jmps
      ensures Valid() && instrs == old(instrs) + Jumps(f, b, 0)
    {
      var e := 0;
      while e < |f.edges|
        invariant 0 <= e <= |f.edges| && Valid()
        invariant instrs + Jumps(f, b, e) == old(instrs) + Jumps(f, b, 0)
      {
        if f.edges[e].src == b {
          var dst := f.edges[e].dst;
          if f.edges[e].cond.Some? {
            EmitJump(JmpIf(f.edges[e].cond.value, dst));
          } else if dst != b + 1 {
            EmitJump(Jmp(dst));
          }
        }
        e := e + 1;
      }
    }

    // Jumps were emitted against node numbers; put in the offsets.
    method RewriteJumps(ghost u: Unit, ghost fn: nat)
      requires Valid() && fn < |u.frames| && EdgesOk(u.frames[fn])
      requires |bbMap| == nodes == |u.frames[fn].nodes| && forall j | 0 <= j < |bbMap| :: bbMap[j] == Start(u, fn, j)
      modifies this`instrs
      ensures instrs == ResolveAll(u, fn, old(instrs))
    {
      hide Start;
      var j := 0;
      while j < |jmps|
        invariant 0 <= j <= |jmps| && |instrs| == |old(instrs)|
        invariant forall k | 0 <= k < |instrs| ::
                    instrs[k] == if k in jmps[..j] then Resolve(u, fn, old(instrs)[k]) else old(instrs)[k]
      {
        var k := jmps[j];
        assert k in jmps && k !in jmps[..j];
        assert jmps[..j + 1] == jmps[..j] + [k];
        match instrs[k] {
          case Jmp(bb) => instrs := instrs[k := Jmp(bbMap[bb])];
          case JmpIf(c, bb) => instrs := instrs[k := JmpIf(c, bbMap[bb])];
          case _ =>
        }
        j := j + 1;
      }
      assert jmps[..|jmps|] == jmps;
    }

    // One node: its instructions, the moves for all its successors, and its branches.
    method EmitNode(u: Unit, fn: nat, b: nat) returns (ok: bool)
      requires Valid() && fn < |u.frames| && Lowerable(u.frames[fn]) && b < |u.frames[fn].nodes| == nodes
      requires EdgesOk(u.frames[fn])
      modifies this
      ensures Valid() && instrs == old(instrs) + NodeCode(u, fn, b) && bbMap == old(bbMap) + [|old(instrs)|]
      ensures ok <==> NodeFine(u, fn, b)
    {
      hide InstsCode, AllMoves, Jumps, OutOf, PhisFine, InstFine;
      var f := u.frames[fn];
      bbMap := bbMap + [|instrs|];
      ok := EmitInsts(u, fn, f.nodes[b]);
      var fine := EmitMoves(f, b);
      ok := ok && fine;
      EmitJumps(f, b);
    }
  }

  // The first argument listed for predecessor p.
  method FirstArg(preds: seq<(nat, nat)>, p: nat) returns (src: Option<nat>)
    ensures src == ArgReg(preds, p)
  {
    var j := 0;
    while j < |preds| && preds[j].0 != p
      invariant 0 <= j <= |preds|
      invariant ArgReg(preds, p) == ArgReg(preds[j..], p)
    {
      j := j + 1;
    }
    src := if j < |preds| then Some(preds[j].1) else None;
  }

  lemma MovCodeOfPhi(phi: FInst, p: nat)
    requires phi.PhiReg?
    ensures var src, m := ArgReg(phi.preds, p), PhiMove(phi, p);
            (if src.Some? then MovCode(phi.dst, src.value) else []) ==
            (if m.Some? then [Mov(m.value.0, m.value.1)] else [])
  {
  }

  lemma NoMovesLeft(f: Frame, b: nat, es: seq<nat>)
    ensures es[0..] == es && AllMoves(f, b, es[|es|..]) == []
  {
  }

  lemma MovesNext(f: Frame, b: nat, es: seq<nat>, k: nat)
    requires EdgesOk(f) && k < |es| && es[k] < |f.edges|
    ensures AllMoves(f, b, es[k..]) == PhiMoves(f.nodes[f.edges[es[k]].dst], 0, b) + AllMoves(f, b, es[k + 1..])
  {
    hide PhiMoves;
    assert es[k..][1..] == es[k + 1..];
  }

  ghost predicate NodeFine(u: Unit, fn: nat, b: nat)
    requires fn < |u.frames| && EdgesOk(u.frames[fn]) && b < |u.frames[fn].nodes|
  {
    var f := u.frames[fn];
    && (forall i | 0 <= i < |f.nodes[b]| :: InstFine(u, fn, f.nodes[b][i]))
    && (forall e | 0 <= e < |f.edges| && f.edges[e].src == b :: PhisFine(f.nodes[f.edges[e].dst], b))
  }

  lemma FrameFineIsNodes(u: Unit, fn: nat)
    requires fn < |u.frames| && EdgesOk(u.frames[fn])
    ensures FrameFine(u, fn) <==>
            (forall r <- u.frames[fn].params :: !r.ty.IsIter()) &&
            (forall b | 0 <= b < |u.frames[fn].nodes| :: NodeFine(u, fn, b))
  {
    hide PhisFine, InstFine;
    var f := u.frames[fn];
    if forall b | 0 <= b < |f.nodes| :: NodeFine(u, fn, b) {
      forall e | 0 <= e < |f.edges|
        ensures PhisFine(f.nodes[f.edges[e].dst], f.edges[e].src)
      {
        assert NodeFine(u, fn, f.edges[e].src);
      }
      forall b | 0 <= b < |f.nodes|
        ensures forall i | 0 <= i < |f.nodes[b]| :: InstFine(u, fn, f.nodes[b][i])
      {
        assert NodeFine(u, fn, b);
      }
    }
  }

  // ---- Whole frames ----

  class Typer {
    const stats: RegStatuses
    var frames: seq<Frame>
    var retTys: seq<Ty>

    constructor (fs: seq<Frame>, tys: seq<Ty>, s: RegStatuses)
      ensures frames == fs && retTys == tys && stats == s
    {
      frames, retTys, stats := fs, tys, s;
    }

    // Each function gets a return register of its own, which nothing else uses.
    method RetRegs() returns (rets: seq<Reg>)
      requires |retTys| == |frames|
      modifies stats
      ensures |rets| == |frames| && forall i | 0 <= i < |rets| :: rets[i].ty == retTys[i]
      ensures forall i | 0 <= i < |rets| && !rets[i].ty.Null? ::
                old(stats.Count(rets[i].ty)) <= rets[i].ix < stats.Count(rets[i].ty)
      ensures forall i | 0 <= i < |rets| && rets[i].ty.Null? :: rets[i].ix == NULL_REG
      ensures forall i, j | 0 <= i < j < |rets| && !rets[i].ty.Null? :: rets[i] != rets[j]
      ensures forall t :: stats.Count(t) >= old(stats.Count(t))
    {
      rets := [];
      while |rets| < |frames|
        invariant |rets| <= |frames| && forall i | 0 <= i < |rets| :: rets[i].ty == retTys[i]
        invariant forall i | 0 <= i < |rets| && !rets[i].ty.Null? ::
                    old(stats.Count(rets[i].ty)) <= rets[i].ix < stats.Count(rets[i].ty)
        invariant forall i | 0 <= i < |rets| && rets[i].ty.Null? :: rets[i].ix == NULL_REG
        invariant forall i, j | 0 <= i < j < |rets| && !rets[i].ty.Null? :: rets[i] != rets[j]
        invariant forall t :: stats.Count(t) >= old(stats.Count(t))
      {
        var ty := retTys[|rets|];
        var ix := stats.NewReg(ty, ReturnReg);
        rets := rets + [Reg(ty, ix)];
      }
    }

    method LowerFrame(u: Unit, fn: nat) returns (code: seq<LL>, ok: bool)
      requires fn < |u.frames| && Lowerable(u.frames[fn]) && EdgesOk(u.frames[fn])
      ensures code == FrameCode(u, fn) && (ok <==> FrameFine(u, fn))
    {
      hide NodeCode, Pops, Allocs, Lowerable, EdgesOk, FrameFine, NodeFine;
      var f := u.frames[fn];
      var asm := new Assembler(|f.nodes|);
      asm.EmitAllocs(f.locals);
      ok := asm.EmitPops(f.params);
      var j := 0;
      while j < |f.nodes|
        invariant 0 <= j <= |f.nodes| && asm.Valid() && asm.nodes == |f.nodes| && fresh(asm)
        invariant asm.instrs == CodeUpto(u, fn, j)
        invariant |asm.bbMap| == j && forall k | 0 <= k < j :: asm.bbMap[k] == Start(u, fn, k)
        invariant ok <==> (forall r <- f.params :: !r.ty.IsIter()) && forall b | 0 <= b < j :: NodeFine(u, fn, b)
        modifies asm
      {
        var fine := asm.EmitNode(u, fn, j);
        ok := ok && fine;
        j := j + 1;
      }
      FrameFineIsNodes(u, fn);
      asm.RewriteJumps(u, fn);
      code := asm.instrs;
    }

    // None when some frame asks for an iterator to be moved or passed.
    method ToBytecode() returns (u: Unit, res: Option<seq<seq<LL>>>)
      requires |retTys| == |frames| && forall f <- frames | f.called :: Lowerable(f)
      modifies stats
      ensures u.frames == frames && |u.rets| == |frames| && forall i | 0 <= i < |u.rets| :: u.rets[i].ty == retTys[i]
      ensures forall r: Reg :: r.ix < old(stats.Count(r.ty)) && !r.ty.Null? ==> r !in u.rets
      ensures res.Some? ==> IsCode(u, res.value)
      ensures res.None? <==> exists fn: nat :: fn < |frames| && frames[fn].called && Refused(u, fn)
    {
      hide EdgesOk, FrameCode, FrameFine, Lowerable, Refused;
      var rets := RetRegs();
      u := Unit(frames, rets);
      var codes: seq<seq<LL>> := [];
      var ok := true;
      while |codes| < |frames|
        invariant |codes| <= |frames|
        invariant forall fn | 0 <= fn < |codes| && frames[fn].called ::
                   EdgesOk(u.frames[fn]) && codes[fn] == FrameCode(u, fn)
        invariant ok <==> forall fn | 0 <= fn < |codes| && frames[fn].called :: !Refused(u, fn)
        modifies {}
      {
        var fn := |codes|;
        if frames[fn].called {
          LowerableEdges(frames[fn]);
          var code, fine := LowerFrame(u, fn);
          RefusedIs(u, fn);
          ok := ok && fine;
          codes := codes + [code];
        } else {
          codes := codes + [[]];
        }
      }
      res := if ok then Some(codes) else None;
    }
  }
}
