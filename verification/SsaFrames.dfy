// A frame translated from a renamed graph can be lowered: the order in which phi moves are made,
// and that they are made for every successor, does not matter.
module SsaFrames {
  import opened Ir
  import opened PhiPlacement
  import opened Renaming
  import opened Semantics
  import opened SsaForm
  import opened SsaMeaning
  import opened SsaStrict
  import opened Bytecode
  import opened Frames
  import opened Layout
  import opened FrameRules
  import opened Regrouping

  // Where a frame comes from. `reg` gives every version of a local its register, `cond` every branch
  // condition the register it is put into; instruction i of node b implements statement at[b][i] of
  // block b, or evaluates the branch conditions behind the last one. `lead` counts the slot
  // instructions that were put in front of a node: behind them, its phis no longer lead.
  datatype Origin = Origin(c: Conversion, lg: set<nat>, reg: (nat, nat) -> Reg, cond: nat -> nat,
                           at: seq<seq<nat>>, lead: seq<nat>)

  ghost function Grouping(o: Origin): seq<nat> {
    EdgesBySource(o.c.edges, |o.c.blocks|)
  }

  // The versions in front of the statement that instruction i of node b belongs to.
  ghost function VersAt(o: Origin, b: nat, i: nat): Vers {
    if b < |o.at| && i < |o.at[b]| && b < |o.c.pre| && b < |o.c.w.trace| && |o.c.pre[b]| + o.at[b][i] < |o.c.w.trace[b]|
    then o.c.w.trace[b][|o.c.pre[b]| + o.at[b][i]] else []
  }

  // r belongs to the current version of some local there.
  ghost predicate Current(o: Origin, b: nat, i: nat, r: Reg) {
    exists low: nat :: low < |VersAt(o, b, i)| && Local(o.c, low) && o.reg(low, VersAt(o, b, i)[low]) == r
  }

  ghost predicate Owns(o: Origin, low: nat, sub: nat, r: Reg) {
    Local(o.c, low) && o.reg(low, sub) == r && Real(r)
  }

  // Globals, literals, and temporaries: registers of no local.
  ghost predicate Loose(u: Unit, os: seq<Origin>, r: Reg) {
    && (Real(r) ==> r !in u.rets)
    && (forall fn, low: nat, sub: nat | 0 <= fn < |os| :: !Owns(os[fn], low, sub, r))
  }

  // Registers are never shared: not by two versions, not by two functions, not with results.
  ghost predicate RegsApart(u: Unit, os: seq<Origin>) {
    && (forall fn, low: nat, sub: nat, r | 0 <= fn < |os| && Owns(os[fn], low, sub, r) :: r !in u.rets)
    && (forall fn, low: nat, sub: nat, fn2, low2: nat, sub2: nat, r |
          0 <= fn < |os| && 0 <= fn2 < |os| && Owns(os[fn], low, sub, r) && Owns(os[fn2], low2, sub2, r) ::
          fn == fn2 && low == low2 && sub == sub2)
  }

  // What instruction i of node b may read: loose registers and current versions.
  ghost predicate ReadsOk(u: Unit, os: seq<Origin>, fn: nat, b: nat, i: nat, r: Reg)
    requires fn < |os|
  {
    Loose(u, os, r) || Current(os[fn], b, i, r)
  }

  ghost predicate InstFrom(u: Unit, os: seq<Origin>, fn: nat, b: nat, i: nat, inst: FInst)
    requires fn < |os|
  {
    match inst
    case Left(ll) => ll.IsPlain() && forall r <- Sources(ll) :: ReadsOk(u, os, fn, b, i, r)
    case CallUdf(g, dst, args) =>
      && g < |u.frames| && g < |u.rets| && u.frames[g].called && |args| == |u.frames[g].params|
      && (forall k | 0 <= k < |args| :: args[k].ty == u.frames[g].params[k].ty && !args[k].ty.IsIter())
      && (forall r <- args :: ReadsOk(u, os, fn, b, i, r))
      && dst.ty == u.rets[g].ty && (Real(dst) ==> u.rets[g].ix != UNUSED && ReturnsValue(u.frames[g]))
    case RetVal(r) => fn < |u.rets| && r.ty == u.rets[fn].ty && ReadsOk(u, os, fn, b, i, r)
    case PhiReg(_, _) => true
    case DropIter(_) => true
  }

  // A phi argument: the argument's own register, or a temporary it was converted into at the end
  // of the predecessor because its type differs from the phi's.
  ghost predicate ArgFrom(u: Unit, os: seq<Origin>, o: Origin, dst: Reg, arg: Ident, src: nat) {
    && (Real(dst) ==> src != UNUSED)
    && (if o.reg(arg.low, arg.sub).ty == dst.ty then src == o.reg(arg.low, arg.sub).ix
        else Loose(u, os, Reg(dst.ty, src)))
  }

  ghost predicate PhiFrom(u: Unit, os: seq<Origin>, o: Origin, b: nat, k: nat, inst: FInst)
    requires b < |o.c.w.blocks| && k < |o.c.w.blocks[b]| && o.c.w.blocks[b][k].IsPhi()
  {
    var phi := o.c.w.blocks[b][k];
    && inst.PhiReg? && inst.dst == o.reg(phi.id.low, phi.id.sub)
    && (forall p: nat | o.c.G().HasEdge(p, b) ::
          var arg, src := ArgFor(phi.e.preds, p), ArgReg(inst.preds, p);
          arg.Some? && src.Some? && ArgFrom(u, os, o, inst.dst, arg.value, src.value))
  }

  // Phi k of the block, behind the node's slot instructions.
  ghost predicate PhiPlaced(u: Unit, os: seq<Origin>, o: Origin, b: nat, k: nat, node: seq<FInst>)
    requires b < |o.c.w.blocks| && b < |o.lead| && o.lead[b] + k < |node|
  {
    && k < |o.c.w.blocks[b]| && o.c.w.blocks[b][k].IsPhi()
    && PhiFrom(u, os, o, b, k, node[o.lead[b] + k])
  }

  ghost predicate NodeFrom(u: Unit, os: seq<Origin>, fn: nat, b: nat)
    requires fn < |os| && fn < |u.frames| && b < |u.frames[fn].nodes|
  {
    var o, node := os[fn], u.frames[fn].nodes[b];
    && b < |o.c.w.blocks| && b < |o.c.pre| && b < |o.c.blocks| && b < |o.at| && b < |o.lead|
    && o.lead[b] + |o.c.pre[b]| <= |node| && |o.at[b]| == |node| + 1
    && (forall k {:trigger PhiPlaced(u, os, o, b, k, node)} | 0 <= k < |o.c.pre[b]| :: PhiPlaced(u, os, o, b, k, node))
    && (forall k | 0 <= k < o.lead[b] || o.lead[b] + |o.c.pre[b]| <= k < |node| :: !node[k].PhiReg?)
    && o.at[b][0] == 0 && o.at[b][|node|] == |o.c.blocks[b]|
    && (forall i, j | 0 <= i <= j <= |node| :: o.at[b][i] <= o.at[b][j])
    && (forall i | 0 <= i < |node| :: InstFrom(u, os, fn, b, i, node[i]))
    && BranchShape(u.frames[fn], b)
  }

  ghost predicate EdgeFrom(u: Unit, os: seq<Origin>, fn: nat, e: nat)
    requires fn < |os| && fn < |u.frames| && e < |u.frames[fn].edges| && EdgesOk(u.frames[fn])
  {
    var edge := u.frames[fn].edges[e];
    edge.cond.Some? ==> ReadsOk(u, os, fn, edge.src, |u.frames[fn].nodes[edge.src]|, Reg(Int, edge.cond.value))
  }

  // Frame fn was made from the renamed graph of its origin, its edges grouped by source.
  ghost predicate Translates(u: Unit, os: seq<Origin>, fn: nat)
    requires fn < |os| && fn < |u.frames|
  {
    var o, f := os[fn], u.frames[fn];
    && Converts(o.c) && WellFormed(o.c, o.lg) && o.c.entry == 0
    && |f.nodes| == |o.c.blocks| == |o.at| && EdgesOk(f)
    && MadeFrom(f.edges, o.c.edges, Grouping(o), o.cond)
    && DistinctRegs(f.locals) && DistinctRegs(f.params)
    && (forall r | IsPhiDst(f, r) :: r in f.locals)
    && (forall r <- f.locals | Real(r) :: r !in u.rets)
    && (forall b {:trigger NodeFrom(u, os, fn, b)} | 0 <= b < |f.nodes| :: NodeFrom(u, os, fn, b))
    && (forall e {:trigger EdgeFrom(u, os, fn, e)} | 0 <= e < |f.edges| :: EdgeFrom(u, os, fn, e))
  }

  ghost predicate UnitFrom(u: Unit, os: seq<Origin>) {
    && |os| == |u.frames| == |u.rets| && RegsApart(u, os)
    && (forall fn {:trigger Translates(u, os, fn)} | 0 <= fn < |os| :: u.frames[fn].called ==> Translates(u, os, fn))
  }

  // Needed: the phi destinations that are current.
  ghost function LiveAt(f: Frame, o: Origin, b: nat, i: nat): set<Reg> {
    set r | r in f.locals && IsPhiDst(f, r) && Current(o, b, i, r)
  }

  ghost function NodeLive(f: Frame, o: Origin, b: nat): seq<set<Reg>>
    requires b < |f.nodes|
  {
    seq(|f.nodes[b]| + 1, i requires 0 <= i => LiveAt(f, o, b, i))
  }

  ghost function FrameLive(f: Frame, o: Origin): seq<seq<set<Reg>>> {
    seq(|f.nodes|, b requires 0 <= b < |f.nodes| => NodeLive(f, o, b))
  }

  ghost function LiveOf(u: Unit, os: seq<Origin>): Live
    requires |os| == |u.frames|
  {
    seq(|os|, fn requires 0 <= fn < |os| => FrameLive(u.frames[fn], os[fn]))
  }

  lemma LiveIs(u: Unit, os: seq<Origin>)
    requires |os| == |u.frames|
    ensures LiveShape(u, LiveOf(u, os))
    ensures forall fn, b, i | 0 <= fn < |os| && 0 <= b < |u.frames[fn].nodes| && 0 <= i <= |u.frames[fn].nodes[b]| ::
              LiveOf(u, os)[fn][b][i] == LiveAt(u.frames[fn], os[fn], b, i)
  {
  }

  lemma Sizes(u: Unit, os: seq<Origin>)
    requires UnitFrom(u, os)
    ensures |os| == |u.frames| == |u.rets|
  {
  }

  // ---- Phi destinations ----

  // The k-th leading phi of a node was made from the k-th phi of its block.
  lemma PhiOfFrame(u: Unit, os: seq<Origin>, fn: nat, d: nat, k: nat)
    requires fn < |os| && fn < |u.frames| && Translates(u, os, fn)
    requires d < |u.frames[fn].nodes| && LeadingPhi(u.frames[fn].nodes[d], k)
    ensures var c := os[fn].c;
            && d < |c.pre| && k < |c.pre[d]| && d < |c.w.blocks| && k < |c.w.blocks[d]| && c.w.blocks[d][k].IsPhi()
            && PhiFrom(u, os, os[fn], d, k, u.frames[fn].nodes[d][k]) && d < |os[fn].lead| && os[fn].lead[d] == 0
  {
    hide PhiFrom, InstFrom, EdgeFrom, Converts, WellFormed, MadeFrom, BranchShape;
    assert NodeFrom(u, os, fn, d);
    assert u.frames[fn].nodes[d][0].PhiReg? && u.frames[fn].nodes[d][k].PhiReg?;
    assert os[fn].lead[d] == 0;
    assert PhiPlaced(u, os, os[fn], d, k, u.frames[fn].nodes[d]);
  }

  // A register some phi of the frame moves into belongs to a version that a phi of the graph defines.
  lemma PhiDstOrigin(u: Unit, os: seq<Origin>, fn: nat, r: Reg) returns (b: nat, k: nat)
    requires fn < |os| && fn < |u.frames| && Translates(u, os, fn) && IsPhiDst(u.frames[fn], r)
    ensures var o := os[fn];
            && b < |o.c.pre| && k < |o.c.pre[b]|
            && b < |o.c.w.blocks| && k < |o.c.w.blocks[b]| && o.c.w.blocks[b][k].IsPhi()
            && Owns(o, o.c.w.blocks[b][k].id.low, o.c.w.blocks[b][k].id.sub, r)
            && Shaped(o.c.w) && DefAt(o.c.w, b, k, o.c.w.blocks[b][k].id.low, o.c.w.blocks[b][k].id.sub)
            && b < |o.lead| && o.lead[b] == 0
  {
    hide Translates, NodeFrom, Ready, ArgFrom, DefAt;
    var f, o := u.frames[fn], os[fn];
    FrameReady(u, os, fn);
    ReadySizes(o.c, o.lg);
    b, k :| 0 <= b < |f.nodes| && 0 <= k && LeadingPhi(f.nodes[b], k) && f.nodes[b][k].dst == r && Real(r);
    PhiOfFrame(u, os, fn, b, k);
    PhiDefines(o.c, o.lg, b, k);
  }

  lemma FrameReady(u: Unit, os: seq<Origin>, fn: nat)
    requires fn < |os| && fn < |u.frames| && Translates(u, os, fn)
    ensures Ready(os[fn].c, os[fn].lg) && |u.frames[fn].nodes| == |os[fn].c.blocks|
  {
    ReadyIs(os[fn].c, os[fn].lg);
  }

  lemma ReadySizes(c: Conversion, lg: set<nat>)
    requires Ready(c, lg)
    ensures |c.blocks| == |c.pre| == |c.w.blocks|
  {
  }

  lemma PhiDefines(c: Conversion, lg: set<nat>, b: nat, k: nat)
    requires Ready(c, lg) && b < |c.blocks| && b < |c.pre| && k < |c.pre[b]| && b < |c.w.blocks| && k < |c.w.blocks[b]|
    ensures c.w.blocks[b][k].IsPhi() && Local(c, c.w.blocks[b][k].id.low)
    ensures Shaped(c.w) && DefAt(c.w, b, k, c.w.blocks[b][k].id.low, c.w.blocks[b][k].id.sub)
  {
    BlockFacts(c, lg, b);
    PhiAt(c, lg, b, k);
    var low := c.pre[b][k].id.low;
    assert c.pre[b][k].Defines(low);
    PhiForPromoted(c, lg, b, low);
  }

  // Nothing else has such a register.
  lemma LooseIsSound(u: Unit, os: seq<Origin>, r: Reg)
    requires UnitFrom(u, os) && Loose(u, os, r)
    ensures !Fragile(u, r)
  {
    forall fn | 0 <= fn < |u.frames| && u.frames[fn].called
      ensures !IsPhiDst(u.frames[fn], r)
    {
      assert Translates(u, os, fn);
      if IsPhiDst(u.frames[fn], r) {
        var b, k := PhiDstOrigin(u, os, fn, r);
      }
    }
  }

  // A current version may be read although phi moves for the others are made early.
  lemma CurrentIsReadable(u: Unit, os: seq<Origin>, fn: nat, b: nat, i: nat, r: Reg)
    requires UnitFrom(u, os) && fn < |os| && u.frames[fn].called && InFrame(u, fn, b, i)
    requires ReadsOk(u, os, fn, b, i, r)
    ensures LiveShape(u, LiveOf(u, os)) && Readable(u, LiveOf(u, os), fn, b, i, r)
  {
    hide Converts, WellFormed, EdgeFrom, NodeFrom, EdgesOk, DistinctRegs, LiveOf;
    Sizes(u, os);
    LiveIs(u, os);
    assert Translates(u, os, fn);
    if Loose(u, os, r) {
      LooseIsSound(u, os, r);
    } else if Fragile(u, r) {
      var low: nat :| low < |VersAt(os[fn], b, i)| && Local(os[fn].c, low) &&
                      os[fn].reg(low, VersAt(os[fn], b, i)[low]) == r;
      assert r.ty.Stackable() && Real(r) by {
        FragileIsReal(u, r);
      }
      assert Owns(os[fn], low, VersAt(os[fn], b, i)[low], r);
      var fn2 :| 0 <= fn2 < |u.frames| && u.frames[fn2].called && IsPhiDst(u.frames[fn2], r);
      assert Translates(u, os, fn2);
      var b2, k2 := PhiDstOrigin(u, os, fn2, r);
      assert fn2 == fn;
    }
  }

  lemma FragileIsReal(u: Unit, r: Reg)
    requires Fragile(u, r)
    ensures Real(r)
  {
  }

  // ---- Within a node ----

  // A version that some phi defines was not assigned by an ordinary statement on the way.
  lemma {:induction false} PhiVersionSteady(c: Conversion, lg: set<nat>, b: nat, k: nat, k2: nat, low: nat, b0: nat,
                                            k0: nat)
    requires Ready(c, lg) && b < |c.blocks| && k <= k2 <= |c.blocks[b]| && Local(c, low)
    requires |c.w.trace[b]| == |c.pre[b]| + |c.blocks[b]| + 1 && low < |c.w.trace[b][|c.pre[b]| + k2]|
    requires Shaped(c.w) && DefAt(c.w, b0, k0, low, c.w.trace[b][|c.pre[b]| + k2][low])
    requires b0 < |c.pre| && k0 < |c.pre[b0]|
    ensures low < |c.w.trace[b][|c.pre[b]| + k]|
    ensures c.w.trace[b][|c.pre[b]| + k][low] == c.w.trace[b][|c.pre[b]| + k2][low]
    decreases k2
  {
    if k < k2 {
      BlockFacts(c, lg, b);
      var j := |c.pre[b]| + k2 - 1;
      assert StepOk(c.w.globs, c.w.base[b][j], c.w.blocks[b][j], c.w.trace[b][j], c.w.trace[b][j + 1]);
      if c.w.base[b][j].Defines(low) {
        OneDefinition(c, lg, b, j, b0, k0, low, c.w.trace[b][j + 1][low]);
        assert false;
      }
      PhiVersionSteady(c, lg, b, k, k2 - 1, low, b0, k0);
    }
  }

  lemma VersIs(u: Unit, os: seq<Origin>, fn: nat, b: nat, i: nat)
    requires fn < |os| && fn < |u.frames| && Translates(u, os, fn) && InFrame(u, fn, b, i)
    ensures var o := os[fn];
            && b < |o.at| && i < |o.at[b]| && b < |o.c.pre| && b < |o.c.w.trace| && b < |o.c.blocks|
            && o.at[b][i] <= |o.c.blocks[b]| && |o.c.w.trace[b]| == |o.c.pre[b]| + |o.c.blocks[b]| + 1
            && VersAt(o, b, i) == o.c.w.trace[b][|o.c.pre[b]| + o.at[b][i]] && |VersAt(o, b, i)| == |o.c.w.globs|
  {
    var o := os[fn];
    assert NodeFrom(u, os, fn, b);
    ReadyIs(o.c, o.lg);
    BlockFacts(o.c, o.lg, b);
  }

  // From one instruction to the next, phi destinations only cease to be current.
  lemma LiveShrinks(u: Unit, os: seq<Origin>, fn: nat, b: nat, i: nat)
    requires UnitFrom(u, os) && fn < |os| && u.frames[fn].called && InFrame(u, fn, b, i + 1)
    ensures LiveAt(u.frames[fn], os[fn], b, i + 1) <= LiveAt(u.frames[fn], os[fn], b, i)
  {
    hide Converts, WellFormed, EdgeFrom, InstFrom, Loose, EdgesOk, BranchShape, DistinctRegs;
    var f, o := u.frames[fn], os[fn];
    assert Translates(u, os, fn);
    assert NodeFrom(u, os, fn, b);
    ReadyIs(o.c, o.lg);
    VersIs(u, os, fn, b, i);
    VersIs(u, os, fn, b, i + 1);
    forall r | r in LiveAt(f, o, b, i + 1)
      ensures r in LiveAt(f, o, b, i)
    {
      var low: nat :| low < |VersAt(o, b, i + 1)| && Local(o.c, low) && o.reg(low, VersAt(o, b, i + 1)[low]) == r;
      var b0, k0 := PhiDstOrigin(u, os, fn, r);
      assert Owns(o, low, VersAt(o, b, i + 1)[low], r);
      PhiVersionSteady(o.c, o.lg, b, o.at[b][i], o.at[b][i + 1], low, b0, k0);
    }
  }

  lemma InstFits(u: Unit, os: seq<Origin>, fn: nat, b: nat, i: nat)
    requires UnitFrom(u, os) && fn < |os| && u.frames[fn].called && InFrame(u, fn, b, i + 1)
    ensures LiveShape(u, LiveOf(u, os)) && InstOk(u, LiveOf(u, os), fn, b, i)
  {
    hide UnitFrom, Translates, LiveOf, LiveAt, Current, Loose, Fragile;
    Sizes(u, os);
    LiveIs(u, os);
    LiveShrinks(u, os, fn, b, i);
    var inst := u.frames[fn].nodes[b][i];
    assert InstFrom(u, os, fn, b, i, inst) by {
      InstIsFrom(u, os, fn, b, i);
    }
    forall r | ReadsOk(u, os, fn, b, i, r)
      ensures Readable(u, LiveOf(u, os), fn, b, i, r)
    {
      CurrentIsReadable(u, os, fn, b, i, r);
    }
  }

  lemma InstIsFrom(u: Unit, os: seq<Origin>, fn: nat, b: nat, i: nat)
    requires UnitFrom(u, os) && fn < |os| && u.frames[fn].called && InFrame(u, fn, b, i + 1)
    ensures InstFrom(u, os, fn, b, i, u.frames[fn].nodes[b][i])
  {
    assert Translates(u, os, fn);
    assert NodeFrom(u, os, fn, b);
  }

  // ---- The moves at the end of a node ----

  lemma {:induction false} PhiMoveOrigin(node: seq<FInst>, k: nat, p: nat, i: nat) returns (j: nat)
    requires k <= |node| && (forall l | 0 <= l < k :: node[l].PhiReg?) && i < |PhiMoves(node, k, p)|
    ensures LeadingPhi(node, j)
    ensures var m := PhiMoves(node, k, p)[i]; m.Mov? && PhiMove(node[j], p) == Some((m.dst, m.src))
    decreases |node| - k
  {
    var m := PhiMove(node[k], p);
    if m.Some? && i == 0 {
      j := k;
    } else {
      j := PhiMoveOrigin(node, k + 1, p, if m.Some? then i - 1 else i);
    }
  }

  // Every move carries out a phi of some successor.
  lemma {:induction false} MoveOrigin(f: Frame, b: nat, es: seq<nat>, i: nat) returns (e: nat, k: nat)
    requires EdgesOk(f) && i < |AllMoves(f, b, es)| && forall e <- es :: e < |f.edges|
    ensures e in es && e < |f.edges| && LeadingPhi(f.nodes[f.edges[e].dst], k)
    ensures var m := AllMoves(f, b, es)[i]; m.Mov? && PhiMove(f.nodes[f.edges[e].dst][k], b) == Some((m.dst, m.src))
  {
    assert es[0] in es;
    assert forall e <- es[1..] :: e in es;
    var head := PhiMoves(f.nodes[f.edges[es[0]].dst], 0, b);
    if i < |head| {
      e := es[0];
      k := PhiMoveOrigin(f.nodes[f.edges[e].dst], 0, b, i);
    } else {
      e, k := MoveOrigin(f, b, es[1..], i - |head|);
    }
  }

  // Move i of node b writes the version `sub` of `low` that phi k of the successor d defines, and
  // reads the version of `low` that is current at the end of b, or a temporary made from it. If
  // both are the same version, it moves the register into itself.
  ghost predicate MoveIs(u: Unit, os: seq<Origin>, fn: nat, b: nat, i: nat, d: nat, k: nat, low: nat, sub: nat)
    requires fn < |os| && fn < |u.frames| && b < |u.frames[fn].nodes| && i < |MovesOf(u.frames[fn], b)|
  {
    var f, o, m := u.frames[fn], os[fn], MovesOf(u.frames[fn], b)[i];
    var out := VersAt(o, b, |f.nodes[b]|);
    && m.Mov? && m.dst.ty.Stackable() && Owns(o, low, sub, m.dst) && low < |out|
    && d < |f.nodes| && LeadingPhi(f.nodes[d], k) && PhiMove(f.nodes[d][k], b) == Some((m.dst, m.src))
    && d < |o.c.pre| && k < |o.c.pre[d]| && Shaped(o.c.w) && DefAt(o.c.w, d, k, low, sub)
    && (Src(m) == o.reg(low, out[low]) || Loose(u, os, Src(m)))
    && (sub == out[low] ==> Src(m) == m.dst)
  }

  lemma MoveExplained(u: Unit, os: seq<Origin>, fn: nat, b: nat, i: nat) returns (d: nat, k: nat, low: nat, sub: nat)
    requires UnitFrom(u, os) && fn < |os| && u.frames[fn].called
    requires b < |u.frames[fn].nodes| && i < |MovesOf(u.frames[fn], b)|
    ensures MoveIs(u, os, fn, b, i, d, k, low, sub)
  {
    hide UnitFrom, Translates, NodeFrom, EdgeFrom, Converts, WellFormed, Ready, Loose, VersAt, MovesOf, AllMoves, OutOf;
    Sizes(u, os);
    var f, o := u.frames[fn], os[fn];
    FrameEdges(u, os, fn);
    var e: nat;
    e, k := MoveOfEdge(f, b, i);
    d := f.edges[e].dst;
    EdgeFacts(u, os, fn, e);
    PhiOfFrame(u, os, fn, d, k);
    PhiDefines(o.c, o.lg, d, k);
    PhiReads(o.c, o.lg, b, d, k);
    low, sub := o.c.w.blocks[d][k].id.low, o.c.w.blocks[d][k].id.sub;
    VersIs(u, os, fn, b, |f.nodes[b]|);
    EndVersions(u, os, fn, b);
  }

  lemma MoveOfEdge(f: Frame, b: nat, i: nat) returns (e: nat, k: nat)
    requires EdgesOk(f) && i < |MovesOf(f, b)|
    ensures e < |f.edges| && f.edges[e].src == b && LeadingPhi(f.nodes[f.edges[e].dst], k)
    ensures var m := MovesOf(f, b)[i]; m.Mov? && PhiMove(f.nodes[f.edges[e].dst][k], b) == Some((m.dst, m.src))
  {
    var es := OutOf(f.edges, b, |f.edges|);
    assert forall e <- es :: e < |f.edges|;
    e, k := MoveOrigin(f, b, es, i);
  }

  lemma FrameEdges(u: Unit, os: seq<Origin>, fn: nat)
    requires UnitFrom(u, os) && fn < |os| && u.frames[fn].called
    ensures Translates(u, os, fn) && EdgesOk(u.frames[fn])
  {
    assert Translates(u, os, fn);
  }

  // In front of the first instruction, the versions are those behind the block's phis.
  lemma StartVersions(u: Unit, os: seq<Origin>, fn: nat, b: nat)
    requires fn < |os| && fn < |u.frames| && Translates(u, os, fn) && b < |u.frames[fn].nodes|
    ensures b < |os[fn].c.w.trace| && b < |os[fn].c.pre| && |os[fn].c.pre[b]| < |os[fn].c.w.trace[b]|
    ensures VersAt(os[fn], b, 0) == SsaForm.Start(os[fn].c, b)
  {
    hide InstFrom, EdgeFrom, PhiPlaced, MadeFrom, BranchShape, Converts, WellFormed;
    assert NodeFrom(u, os, fn, b);
    VersIs(u, os, fn, b, 0);
  }

  // Behind the last instruction, the versions are the block's outgoing ones.
  lemma EndVersions(u: Unit, os: seq<Origin>, fn: nat, b: nat)
    requires fn < |os| && fn < |u.frames| && Translates(u, os, fn) && b < |u.frames[fn].nodes|
    ensures b < |os[fn].c.w.trace| && os[fn].c.w.trace[b] != []
    ensures VersAt(os[fn], b, |u.frames[fn].nodes[b]|) == Out(os[fn].c.w.trace[b])
  {
    assert NodeFrom(u, os, fn, b);
    VersIs(u, os, fn, b, |u.frames[fn].nodes[b]|);
  }

  lemma NodeMoves(u: Unit, os: seq<Origin>, fn: nat, b: nat)
    requires UnitFrom(u, os) && fn < |os| && u.frames[fn].called && b < |u.frames[fn].nodes|
    ensures MovesOrdered(MovesOf(u.frames[fn], b))
    ensures LiveShape(u, LiveOf(u, os))
    ensures forall i | 0 <= i < |MovesOf(u.frames[fn], b)| && MovesOf(u.frames[fn], b)[i].Mov? ::
              Readable(u, LiveOf(u, os), fn, b, |u.frames[fn].nodes[b]|, Src(MovesOf(u.frames[fn], b)[i]))
  {
    hide MovesOf, UnitFrom, Translates, LiveOf;
    Sizes(u, os);
    var f, o := u.frames[fn], os[fn];
    var ms := MovesOf(f, b);
    LiveIs(u, os);
    forall i | 0 <= i < |ms|
      ensures ms[i].Mov? && ms[i].dst.ty.Stackable()
      ensures Readable(u, LiveOf(u, os), fn, b, |f.nodes[b]|, Src(ms[i]))
    {
      var d, k, low, sub := MoveExplained(u, os, fn, b, i);
      CurrentIsReadable(u, os, fn, b, |f.nodes[b]|, Src(ms[i]));
    }
    forall i, j | 0 <= i < j < |ms| && ms[i].dst == Src(ms[j])
      ensures ms[i].dst == Src(ms[i])
    {
      MoveIntoCurrent(u, os, fn, b, i, Src(ms[j])) by {
        var d, k, low, sub := MoveExplained(u, os, fn, b, j);
      }
    }
    forall i, j | 0 <= i < |ms| && 0 <= j < |ms| && ms[i].dst == ms[j].dst
      ensures ms[i].src == ms[j].src
    {
      SameTarget(u, os, fn, b, i, j);
    }
  }

  // A move into a register that holds a current version, or none, moves it into itself.
  lemma MoveIntoCurrent(u: Unit, os: seq<Origin>, fn: nat, b: nat, i: nat, r: Reg)
    requires UnitFrom(u, os) && fn < |os| && u.frames[fn].called
    requires b < |u.frames[fn].nodes| && i < |MovesOf(u.frames[fn], b)|
    requires ReadsOk(u, os, fn, b, |u.frames[fn].nodes[b]|, r)
    ensures MovesOf(u.frames[fn], b)[i].Mov?
    ensures MovesOf(u.frames[fn], b)[i].dst == r ==> Src(MovesOf(u.frames[fn], b)[i]) == r
  {
    var f, o := u.frames[fn], os[fn];
    var d, k, low, sub := MoveExplained(u, os, fn, b, i);
    var out := VersAt(o, b, |f.nodes[b]|);
    var m := MovesOf(f, b)[i];
    if m.dst == r {
      assert !Loose(u, os, r);
      var low2: nat :| low2 < |out| && Local(o.c, low2) && o.reg(low2, out[low2]) == r;
      assert Owns(o, low2, out[low2], r) && Owns(o, low, sub, r);
    }
  }

  lemma SameTarget(u: Unit, os: seq<Origin>, fn: nat, b: nat, i: nat, j: nat)
    requires UnitFrom(u, os) && fn < |os| && u.frames[fn].called && b < |u.frames[fn].nodes|
    requires i < |MovesOf(u.frames[fn], b)| && j < |MovesOf(u.frames[fn], b)|
    requires MovesOf(u.frames[fn], b)[i].Mov? && MovesOf(u.frames[fn], b)[j].Mov?
    requires MovesOf(u.frames[fn], b)[i].dst == MovesOf(u.frames[fn], b)[j].dst
    ensures MovesOf(u.frames[fn], b)[i].src == MovesOf(u.frames[fn], b)[j].src
  {
    var o := os[fn];
    var d, k, low, sub := MoveExplained(u, os, fn, b, i);
    var d2, k2, low2, sub2 := MoveExplained(u, os, fn, b, j);
    assert low == low2 && sub == sub2;
    assert Translates(u, os, fn);
    ReadyIs(o.c, o.lg);
    OneDefinition(o.c, o.lg, d, k, d2, k2, low, sub);
  }

  // ---- Crossing an edge ----

  // A current version survives the moves of a node.
  lemma CurrentUnmoved(u: Unit, os: seq<Origin>, fn: nat, b: nat, r: Reg)
    requires UnitFrom(u, os) && fn < |os| && u.frames[fn].called && b < |u.frames[fn].nodes|
    requires ReadsOk(u, os, fn, b, |u.frames[fn].nodes[b]|, r)
    ensures Unmoved(MovesOf(u.frames[fn], b), r)
  {
    hide MovesOf, UnitFrom;
    Sizes(u, os);
    var ms := MovesOf(u.frames[fn], b);
    forall i | 0 <= i < |ms| && ms[i].Mov? && ms[i].dst == r
      ensures Src(ms[i]) == r
    {
      MoveIntoCurrent(u, os, fn, b, i, r);
    }
  }

  // A version current behind the phis of d is brought by one of them, or was current in front.
  lemma CurrentAcross(u: Unit, os: seq<Origin>, fn: nat, e: nat, r: Reg)
    requires UnitFrom(u, os) && fn < |os| && u.frames[fn].called && EdgesOk(u.frames[fn]) && e < |u.frames[fn].edges|
    requires var d := u.frames[fn].edges[e].dst; r in LiveAt(u.frames[fn], os[fn], d, 0)
    ensures var b, d := u.frames[fn].edges[e].src, u.frames[fn].edges[e].dst;
            PhiBrings(u.frames[fn], b, d, r) || r in LiveAt(u.frames[fn], os[fn], b, |u.frames[fn].nodes[b]|)
  {
    hide UnitFrom, Translates, NodeFrom, EdgeFrom, Loose, PhiBrings, PhiFrom, Converts, WellFormed, Ready;
    Sizes(u, os);
    var f, o := u.frames[fn], os[fn];
    var b, d := f.edges[e].src, f.edges[e].dst;
    EdgeFacts(u, os, fn, e);
    VersIs(u, os, fn, d, 0);
    var low: nat :| low < |VersAt(o, d, 0)| && Local(o.c, low) && o.reg(low, VersAt(o, d, 0)[low]) == r;
    if PhiFor(o.c, d, low) {
      CurrentFromPhi(u, os, fn, e, r, low);
    } else {
      CurrentPasses(u, os, fn, e, r, low);
    }
  }

  lemma EdgeFacts(u: Unit, os: seq<Origin>, fn: nat, e: nat)
    requires UnitFrom(u, os) && fn < |os| && u.frames[fn].called && EdgesOk(u.frames[fn]) && e < |u.frames[fn].edges|
    ensures var b, d := u.frames[fn].edges[e].src, u.frames[fn].edges[e].dst;
            && Translates(u, os, fn) && Ready(os[fn].c, os[fn].lg) && os[fn].c.G().HasEdge(b, d)
            && NodeFrom(u, os, fn, b) && NodeFrom(u, os, fn, d) && b < |os[fn].c.blocks| && d < |os[fn].c.blocks|
            && |os[fn].c.pre| == |os[fn].c.blocks|
  {
    assert Translates(u, os, fn);
    ReadyIs(os[fn].c, os[fn].lg);
    HasEdgeAt(|os[fn].c.blocks|, os[fn].c.edges, Grouping(os[fn])[e]);
  }

  lemma CurrentFromPhi(u: Unit, os: seq<Origin>, fn: nat, e: nat, r: Reg, low: nat)
    requires UnitFrom(u, os) && fn < |os| && u.frames[fn].called && EdgesOk(u.frames[fn]) && e < |u.frames[fn].edges|
    requires u.frames[fn].edges[e].dst < |os[fn].c.pre| && PhiFor(os[fn].c, u.frames[fn].edges[e].dst, low)
    requires var d := u.frames[fn].edges[e].dst;
             low < |VersAt(os[fn], d, 0)| && Local(os[fn].c, low) && os[fn].reg(low, VersAt(os[fn], d, 0)[low]) == r
    requires IsPhiDst(u.frames[fn], r)
    ensures PhiBrings(u.frames[fn], u.frames[fn].edges[e].src, u.frames[fn].edges[e].dst, r)
  {
    hide UnitFrom, Converts, WellFormed, Ready, Loose, PhiBrings, InstFrom, PhiPlaced, BranchShape, MadeFrom;
    Sizes(u, os);
    var f, o := u.frames[fn], os[fn];
    var b, d := f.edges[e].src, f.edges[e].dst;
    EdgeFacts(u, os, fn, e);
    VersIs(u, os, fn, d, 0);
    var j :| 0 <= j < |o.c.pre[d]| && o.c.pre[d][j].Defines(low);
    StartIsPhi(o.c, o.lg, d, j);
    assert o.c.w.blocks[d][j].id.low == low && o.c.w.blocks[d][j].id.sub == VersAt(o, d, 0)[low];
    assert Real(r);
    PhisLead(u, os, fn, d, j, r);
    LeadingPhiBrings(u, os, fn, b, d, j, r);
  }

  // A phi that leads its node has a move for every predecessor.
  lemma LeadingPhiBrings(u: Unit, os: seq<Origin>, fn: nat, b: nat, d: nat, j: nat, r: Reg)
    requires fn < |os| && fn < |u.frames| && d < |u.frames[fn].nodes| && NodeFrom(u, os, fn, d)
    requires os[fn].lead[d] == 0 && j < |os[fn].c.pre[d]| && os[fn].c.G().HasEdge(b, d) && Real(r)
    requires j < |os[fn].c.w.blocks[d]| && os[fn].c.w.blocks[d][j].IsPhi()
    requires os[fn].reg(os[fn].c.w.blocks[d][j].id.low, os[fn].c.w.blocks[d][j].id.sub) == r
    ensures PhiBrings(u.frames[fn], b, d, r)
  {
    hide InstFrom, BranchShape;
    var f, o := u.frames[fn], os[fn];
    forall l | 0 <= l <= j
      ensures f.nodes[d][l].PhiReg?
    {
      assert PhiPlaced(u, os, o, d, l, f.nodes[d]);
    }
    assert PhiPlaced(u, os, o, d, j, f.nodes[d]);
    assert LeadingPhi(f.nodes[d], j) && PhiMove(f.nodes[d][j], b).Some?;
  }

  // The phi that defines a phi destination is one that leads its node.
  lemma PhisLead(u: Unit, os: seq<Origin>, fn: nat, d: nat, j: nat, r: Reg)
    requires UnitFrom(u, os) && fn < |os| && u.frames[fn].called && IsPhiDst(u.frames[fn], r)
    requires Translates(u, os, fn) && Ready(os[fn].c, os[fn].lg) && d < |os[fn].c.blocks| && j < |os[fn].c.pre[d]|
    requires d < |os[fn].c.w.blocks| && j < |os[fn].c.w.blocks[d]| && os[fn].c.w.blocks[d][j].IsPhi()
    requires Owns(os[fn], os[fn].c.w.blocks[d][j].id.low, os[fn].c.w.blocks[d][j].id.sub, r)
    ensures d < |os[fn].lead| && os[fn].lead[d] == 0
  {
    hide UnitFrom, Translates, NodeFrom, Converts, WellFormed;
    Sizes(u, os);
    var o := os[fn];
    var b0, k0 := PhiDstOrigin(u, os, fn, r);
    PhiDefines(o.c, o.lg, d, j);
    OwnerUnique(u, os, fn, o.c.w.blocks[d][j].id.low, o.c.w.blocks[d][j].id.sub,
                o.c.w.blocks[b0][k0].id.low, o.c.w.blocks[b0][k0].id.sub, r);
    OneDefinition(o.c, o.lg, d, j, b0, k0, o.c.w.blocks[d][j].id.low, o.c.w.blocks[d][j].id.sub);
  }

  lemma CurrentPasses(u: Unit, os: seq<Origin>, fn: nat, e: nat, r: Reg, low: nat)
    requires UnitFrom(u, os) && fn < |os| && u.frames[fn].called && EdgesOk(u.frames[fn]) && e < |u.frames[fn].edges|
    requires u.frames[fn].edges[e].dst < |os[fn].c.pre| && !PhiFor(os[fn].c, u.frames[fn].edges[e].dst, low)
    requires var d := u.frames[fn].edges[e].dst;
             low < |VersAt(os[fn], d, 0)| && Local(os[fn].c, low) && os[fn].reg(low, VersAt(os[fn], d, 0)[low]) == r
    requires r in u.frames[fn].locals && IsPhiDst(u.frames[fn], r)
    ensures var b := u.frames[fn].edges[e].src;
            r in LiveAt(u.frames[fn], os[fn], b, |u.frames[fn].nodes[b]|)
  {
    hide UnitFrom, Translates, NodeFrom, Ready, Converts, WellFormed, Loose, PhiFor, IsPromoted, VersAt, DefAt;
    Sizes(u, os);
    var f, o := u.frames[fn], os[fn];
    var b, d := f.edges[e].src, f.edges[e].dst;
    EdgeFacts(u, os, fn, e);
    VersIs(u, os, fn, d, 0);
    VersIs(u, os, fn, b, |f.nodes[b]|);
    StartVersions(u, os, fn, d);
    EndVersions(u, os, fn, b);
    var b0, k0 := PhiDstOrigin(u, os, fn, r);
    assert Owns(o, low, VersAt(o, d, 0)[low], r);
    OwnerUnique(u, os, fn, low, VersAt(o, d, 0)[low], o.c.w.blocks[b0][k0].id.low, o.c.w.blocks[b0][k0].id.sub, r);
    PhiDstPromoted(o.c, o.lg, b0, k0);
    EdgeVersion(o.c, o.lg, b, d, low);
  }

  lemma OwnerUnique(u: Unit, os: seq<Origin>, fn: nat, low: nat, sub: nat, low2: nat, sub2: nat, r: Reg)
    requires UnitFrom(u, os) && fn < |os| && Owns(os[fn], low, sub, r) && Owns(os[fn], low2, sub2, r)
    ensures low == low2 && sub == sub2
  {
  }

  lemma PhiDstPromoted(c: Conversion, lg: set<nat>, b: nat, k: nat)
    requires Ready(c, lg) && b < |c.blocks| && b < |c.pre| && k < |c.pre[b]| && b < |c.w.blocks| && k < |c.w.blocks[b]|
    ensures c.w.blocks[b][k].IsPhi() && IsPromoted(c, c.w.blocks[b][k].id.low)
  {
    BlockFacts(c, lg, b);
    PhiAt(c, lg, b, k);
    assert c.pre[b][k].Defines(c.pre[b][k].id.low);
    PhiForPromoted(c, lg, b, c.pre[b][k].id.low);
  }

  lemma EdgeFits(u: Unit, os: seq<Origin>, fn: nat, e: nat)
    requires UnitFrom(u, os) && fn < |os| && u.frames[fn].called && EdgesOk(u.frames[fn]) && e < |u.frames[fn].edges|
    ensures LiveShape(u, LiveOf(u, os)) && EdgeOk(u, LiveOf(u, os), fn, e)
  {
    hide UnitFrom, MovesOf, LiveOf, LiveAt, PhiBrings, Unmoved, Fragile, Loose;
    Sizes(u, os);
    LiveIs(u, os);
    var f, o := u.frames[fn], os[fn];
    var b, d := f.edges[e].src, f.edges[e].dst;
    var last := |f.nodes[b]|;
    EdgeIsFrom(u, os, fn, e);
    if f.edges[e].cond.Some? {
      CurrentIsReadable(u, os, fn, b, last, Reg(Int, f.edges[e].cond.value));
      CurrentUnmoved(u, os, fn, b, Reg(Int, f.edges[e].cond.value));
    }
    forall r <- LiveAt(f, o, d, 0)
      ensures PhiBrings(f, b, d, r) || (r in LiveAt(f, o, b, last) && Unmoved(MovesOf(f, b), r))
    {
      CurrentAcross(u, os, fn, e, r);
      if r in LiveAt(f, o, b, last) {
        LiveIsCurrent(f, o, b, last, r);
        CurrentUnmoved(u, os, fn, b, r);
      }
    }
  }

  lemma EdgeIsFrom(u: Unit, os: seq<Origin>, fn: nat, e: nat)
    requires UnitFrom(u, os) && fn < |os| && u.frames[fn].called && EdgesOk(u.frames[fn]) && e < |u.frames[fn].edges|
    ensures EdgeFrom(u, os, fn, e)
  {
    assert Translates(u, os, fn);
  }

  lemma LiveIsCurrent(f: Frame, o: Origin, b: nat, i: nat, r: Reg)
    requires r in LiveAt(f, o, b, i)
    ensures Current(o, b, i, r) && IsPhiDst(f, r)
  {
  }

  // Nothing a phi defines is current at the entry.
  lemma EntryLive(u: Unit, os: seq<Origin>, fn: nat)
    requires UnitFrom(u, os) && fn < |os| && u.frames[fn].called && |u.frames[fn].nodes| > 0
    ensures LiveAt(u.frames[fn], os[fn], 0, 0) == {}
  {
    var f, o := u.frames[fn], os[fn];
    assert Translates(u, os, fn);
    assert NodeFrom(u, os, fn, 0);
    ReadyIs(o.c, o.lg);
    BlockFacts(o.c, o.lg, 0);
    EntryHasNoPhi(o.c, o.lg);
    VersIs(u, os, fn, 0, 0);
    forall r | r in f.locals && IsPhiDst(f, r)
      ensures !Current(o, 0, 0, r)
    {
      var b0, k0 := PhiDstOrigin(u, os, fn, r);
      var low0, sub0 := o.c.w.blocks[b0][k0].id.low, o.c.w.blocks[b0][k0].id.sub;
      OneDefinition(o.c, o.lg, b0, k0, b0, k0, low0, sub0);
      forall low: nat | low < |VersAt(o, 0, 0)| && Local(o.c, low)
        ensures o.reg(low, VersAt(o, 0, 0)[low]) != r
      {
        assert VersAt(o, 0, 0)[low] == 0;
        assert Owns(o, low0, sub0, r);
        assert !Owns(o, low, 0, r);
      }
    }
  }

  lemma EntryHasNoPhi(c: Conversion, lg: set<nat>)
    requires Ready(c, lg)
    ensures c.pre[c.entry] == []
  {
    var b := c.entry;
    BlockFacts(c, lg, b);
    if c.pre[b] != [] {
      assert HasPhi(c.pre[b], c.pre[b][0].id);
      PhiHasPredecessor(c, lg, b, c.pre[b][0].id);
      assert false;
    }
  }

  lemma FrameFits(u: Unit, os: seq<Origin>, fn: nat)
    requires UnitFrom(u, os) && fn < |os| && u.frames[fn].called
    ensures LiveShape(u, LiveOf(u, os)) && FrameOk(u, LiveOf(u, os), fn)
  {
    hide LiveOf, NodeFrom, EdgeFrom, EdgeOk, InstOk, MovesOf, MovesOrdered, Readable, Fragile, BranchShape, InFrame;
    hide Converts, WellFormed, RegsApart, IsPhiDst, DistinctRegs;
    Sizes(u, os);
    LiveIs(u, os);
    var f, live := u.frames[fn], LiveOf(u, os);
    assert Translates(u, os, fn);
    NonEmpty(os[fn]);
    EntryLive(u, os, fn);
    forall b, i, r | 0 <= b < |f.nodes| && 0 <= i <= |f.nodes[b]| && r in live[fn][b][i]
      ensures IsPhiDst(f, r)
    {
      LiveIsCurrent(f, os[fn], b, i, r);
    }
    forall b | 0 <= b < |f.nodes|
      ensures NodeOk(u, live, fn, b)
    {
      NodeFits(u, os, fn, b);
    }
    forall e | 0 <= e < |f.edges|
      ensures EdgeOk(u, live, fn, e)
    {
      EdgeFits(u, os, fn, e);
    }
  }

  lemma NonEmpty(o: Origin)
    requires Converts(o.c) && WellFormed(o.c, o.lg)
    ensures |o.c.blocks| > 0
  {
    ReadyIs(o.c, o.lg);
  }

  lemma NodeFits(u: Unit, os: seq<Origin>, fn: nat, b: nat)
    requires UnitFrom(u, os) && fn < |os| && u.frames[fn].called && b < |u.frames[fn].nodes|
    ensures LiveShape(u, LiveOf(u, os)) && NodeOk(u, LiveOf(u, os), fn, b)
  {
    hide LiveOf, EdgeFrom, InstOk, MovesOf, MovesOrdered, Readable, BranchShape;
    Sizes(u, os);
    LiveIs(u, os);
    var f := u.frames[fn];
    forall i | 0 <= i < |f.nodes[b]|
      ensures InstOk(u, LiveOf(u, os), fn, b, i)
    {
      InstFits(u, os, fn, b, i);
    }
    NodeMoves(u, os, fn, b);
    assert Translates(u, os, fn);
    assert NodeFrom(u, os, fn, b);
  }

  // Every set of frames that comes from renamed graphs can be lowered: all reads are of current
  // values, and no phi move disturbs a current one.
  lemma RenamedFramesLower(u: Unit, os: seq<Origin>)
    requires UnitFrom(u, os)
    ensures LiveShape(u, LiveOf(u, os)) && UnitOk(u, LiveOf(u, os))
  {
    hide LiveOf, FrameOk, Translates, RegsApart;
    Sizes(u, os);
    LiveIs(u, os);
    forall fn | 0 <= fn < |u.frames| && u.frames[fn].called
      ensures FrameOk(u, LiveOf(u, os), fn)
    {
      FrameFits(u, os, fn);
    }
  }
}
