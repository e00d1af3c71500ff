// What `get_global_refs` is for: a function, with everything it calls, touches no global that is not
// in its set. Stated on what frames compute, not on which registers instructions list.
module RefsSuffice {
  import opened Graphs
  import opened Ir
  import opened Bytecode
  import opened Frames
  import opened FrameRules
  import opened CallSim
  import opened Dataflow
  import opened Typers
  import opened GlobalRefs
  import Stages
  import Simulation

  // A register that is no global, or a global in the set.
  predicate Seen(status: Reg -> RegStatus, refs: set<Reg>, r: Reg) {
    status(r) != Global || r in refs
  }

  ghost predicate Agree<V>(status: Reg -> RegStatus, refs: set<Reg>, ra: Regs<V>, rb: Regs<V>) {
    forall r | Seen(status, refs, r) :: ra(r) == rb(r)
  }

  // Globals outside the set are as they were.
  ghost predicate Untouched<V>(status: Reg -> RegStatus, refs: set<Reg>, before: Regs<V>, after: Regs<V>) {
    forall r | !Seen(status, refs, r) :: after(r) == before(r)
  }

  ghost predicate SameStack<V>(status: Reg -> RegStatus, refs: set<Reg>, sa: seq<Suspended<V>>,
                               sb: seq<Suspended<V>>) {
    && |sa| == |sb|
    && (forall k | 0 <= k < |sa| ::
          && sa[k].fn == sb[k].fn && sa[k].b == sb[k].b && sa[k].i == sb[k].i
          && Agree(status, refs, sa[k].snap, sb[k].snap))
  }

  // The same place, the same world, and the same values but for globals outside the set.
  ghost predicate Alike<V, W>(status: Reg -> RegStatus, refs: set<Reg>, a: FState<V, W>, b: FState<V, W>) {
    match a
    case Done(w) => b == Done(w)
    case Wrong => b == Wrong
    case Active(fn, blk, i, regs, w, stack) =>
      && b.Active? && b.fn == fn && b.b == blk && b.i == i && b.world == w
      && Agree(status, refs, regs, b.regs) && SameStack(status, refs, stack, b.stack)
  }

  // ---- What the compiler's frames and call graph are like ----

  // Locals and parameters are no globals; a call is an edge of the call graph; a result has the type
  // its callers expect; and the placeholder for no register is no global.
  ghost predicate WellBuilt(cg: Graph, frames: seq<Frame>, status: Reg -> RegStatus) {
    && cg.Valid() && cg.n == |frames|
    && (forall r | status(r) == Global :: r.ix != UNUSED)
    && (forall f | 0 <= f < |frames| :: LocalsLocal(frames[f], status))
    && (forall f, b, i | 0 <= f < |frames| && 0 <= b < |frames[f].nodes| && 0 <= i < |frames[f].nodes[b]| ::
          frames[f].nodes[b][i].CallUdf? ==> CallBuilt(cg, frames, f, frames[f].nodes[b][i]))
  }

  ghost predicate LocalsLocal(f: Frame, status: Reg -> RegStatus) {
    (forall r <- f.locals :: status(r) != Global) && (forall r <- f.params :: status(r) != Global)
  }

  ghost predicate CallBuilt(cg: Graph, frames: seq<Frame>, f: nat, call: FInst)
    requires call.CallUdf?
  {
    && cg.HasEdge(f, call.func)
    && (call.func < |frames| ==>
          forall b, i | 0 <= b < |frames[call.func].nodes| && 0 <= i < |frames[call.func].nodes[b]| &&
                        frames[call.func].nodes[b][i].RetVal? :: frames[call.func].nodes[b][i].r.ty == call.dst.ty)
  }

  // Branch conditions and phi arguments, which `accum` does not list.
  ghost predicate TestsSeen(f: Frame, status: Reg -> RegStatus, refs: set<Reg>) {
    && (forall e | 0 <= e < |f.edges| && f.edges[e].cond.Some? :: Seen(status, refs, Reg(Int, f.edges[e].cond.value)))
    && (forall b, k, j | 0 <= b < |f.nodes| && 0 <= k < |f.nodes[b]| && f.nodes[b][k].PhiReg? &&
                         0 <= j < |f.nodes[b][k].preds| ::
          Seen(status, refs, Reg(f.nodes[b][k].dst.ty, f.nodes[b][k].preds[j].1)))
  }

  // `refs` is what GetGlobalRefs finds for function fn, and no function that fn reaches tests more.
  ghost predicate Suffices(cg: Graph, frames: seq<Frame>, status: Reg -> RegStatus, fn: nat, refs: set<Reg>) {
    && (forall r :: r in refs <==> UsedGlobal(cg, frames, status, fn, r))
    && (forall f: nat | f < |frames| && Reachable(cg, fn, f) :: TestsSeen(frames[f], status, refs))
  }

  // The current function and all that wait are called from fn, directly or not.
  ghost predicate Inside<V, W>(cg: Graph, frames: seq<Frame>, fn: nat, st: FState<V, W>) {
    st.Active? ==>
      && (st.fn < |frames| ==> Reachable(cg, fn, st.fn))
      && (forall k | 0 <= k < |st.stack| && st.stack[k].fn < |frames| :: Reachable(cg, fn, st.stack[k].fn))
      && (forall k | 0 <= k < |st.stack| :: WaitsFor(frames, st.stack[k], CalleeOf(st.stack, st.fn, k)))
  }

  lemma InsideSame<V, W>(cg: Graph, frames: seq<Frame>, fn: nat, a: FState<V, W>, a': FState<V, W>)
    requires a.Active? && Inside(cg, frames, fn, a)
    requires a'.Active? ==> a'.fn == a.fn && a'.stack == a.stack
    ensures Inside(cg, frames, fn, a')
  {
    hide WaitsFor, Reachable;
  }

  predicate WaitsFor<V>(frames: seq<Frame>, s: Suspended<V>, callee: nat) {
    WaitsAtCall(frames, s.fn, s.b, s.i) && frames[s.fn].nodes[s.b][s.i].func == callee
  }

  // ---- One instruction ----

  // Every register an instruction of a reachable function lists is seen.
  lemma ListedSeen(cg: Graph, frames: seq<Frame>, status: Reg -> RegStatus, fn: nat, refs: set<Reg>, f: nat, b: nat,
                   i: nat, r: Reg)
    requires WellBuilt(cg, frames, status) && Suffices(cg, frames, status, fn, refs)
    requires f < |frames| && Reachable(cg, fn, f) && b < |frames[f].nodes| && i < |frames[f].nodes[b]|
    requires r in Accum(frames[f].nodes[b][i])
    ensures Seen(status, refs, r)
  {
    if status(r) == Global {
      assert Mentions(frames[f], r);
      assert DirectGlobal(frames[f], status, r);
      assert UsedGlobal(cg, frames, status, fn, r);
    }
  }

  lemma {:induction false} WriteUntouched<V>(regs: Regs<V>, dsts: seq<Reg>, k: nat, f: nat -> V, r: Reg)
    requires k <= |dsts| && r !in dsts[k..]
    ensures WriteFrom(regs, dsts, k, f)(r) == regs(r)
    decreases |dsts| - k
  {
    if k < |dsts| {
      assert dsts[k..][0] == dsts[k] && dsts[k..][1..] == dsts[k + 1..];
      WriteUntouched(SetReg(regs, dsts[k], f(k)), dsts, k + 1, f, r);
    }
  }

  // An instruction that lists seen registers only does the same to both, and leaves the others alone.
  lemma PlainAlike<V, W>(sem: MSem<V, W>, status: Reg -> RegStatus, refs: set<Reg>, ll: LL, ra: Regs<V>, rb: Regs<V>,
                         w: W)
    requires ll.IsPlain() && Agree(status, refs, ra, rb) && forall r <- Accum(Left(ll)) :: Seen(status, refs, r)
    ensures Plain(sem, ll, ra, w).1 == Plain(sem, ll, rb, w).1
    ensures Agree(status, refs, Plain(sem, ll, ra, w).0, Plain(sem, ll, rb, w).0)
    ensures Untouched(status, refs, ra, Plain(sem, ll, ra, w).0)
  {
    assert forall r <- Sources(ll) :: r in Accum(Left(ll));
    assert forall r <- Targets(ll) :: r in Accum(Left(ll));
    assert Read(ra, Sources(ll)) == Read(rb, Sources(ll)) by {
      forall k | 0 <= k < |Sources(ll)|
        ensures Read(ra, Sources(ll))[k] == Read(rb, Sources(ll))[k]
      {
        assert Sources(ll)[k] in Sources(ll);
      }
    }
    forall r
      ensures Plain(sem, ll, ra, w).1 == Plain(sem, ll, rb, w).1
      ensures Seen(status, refs, r) ==> Plain(sem, ll, ra, w).0(r) == Plain(sem, ll, rb, w).0(r)
      ensures !Seen(status, refs, r) ==> Plain(sem, ll, ra, w).0(r) == ra(r)
    {
      PlainAgrees(sem, ll, ra, rb, w, r);
      if !Seen(status, refs, r) {
        PlainUntouched(sem, ll, ra, w, r);
      }
    }
    assert Plain(sem, ll, ra, w).1 == Plain(sem, ll, rb, w).1 by {
      PlainAgrees(sem, ll, ra, rb, w, Reg(Int, 0));
    }
  }

  lemma PlainUntouched<V, W>(sem: MSem<V, W>, ll: LL, regs: Regs<V>, w: W, r: Reg)
    requires ll.IsPlain() && r !in Targets(ll)
    ensures Plain(sem, ll, regs, w).0(r) == regs(r)
  {
    match ll
    case Op(op, dsts, srcs) =>
      var vs := Read(regs, srcs);
      assert dsts[0..] == dsts;
      WriteUntouched(regs, dsts, 0, (k: nat) => sem.opVal(op, vs, w, k), r);
    case AllocMap(_) =>
    case Mov(_, _) =>
  }

  // Under some interpretation an instruction changes r, or does something else when only r differs.
  ghost predicate Touches(ll: LL, r: Reg)
    requires ll.IsPlain()
  {
    exists sem: MSem<int, int>, ra: Regs<int>, v: int, w: int :: Shows(sem, ll, ra, v, w, r)
  }

  ghost predicate Shows(sem: MSem<int, int>, ll: LL, ra: Regs<int>, v: int, w: int, r: Reg)
    requires ll.IsPlain()
  {
    var (regs, wa) := Plain(sem, ll, ra, w);
    var (other, wb) := Plain(sem, ll, SetReg(ra, r, v), w);
    regs(r) != ra(r) || wa != wb || exists q :: q != r && regs(q) != other(q)
  }

  // Exactly the registers that an instruction can touch are listed, and that of a move to itself.
  lemma ListedIfTouched(ll: LL, r: Reg)
    requires ll.IsPlain()
    ensures Touches(ll, r) <==> r in Accum(Left(ll)) && ll != Mov(r, r.ix)
  {
    if r in Accum(Left(ll)) && ll != Mov(r, r.ix) {
      ListedTouches(ll, r);
    }
    if Touches(ll, r) {
      var sem: MSem<int, int>, ra: Regs<int>, v: int, w: int :| Shows(sem, ll, ra, v, w, r);
      TouchedListed(sem, ll, ra, v, w, r);
    }
  }

  lemma TouchedListed(sem: MSem<int, int>, ll: LL, ra: Regs<int>, v: int, w: int, r: Reg)
    requires ll.IsPlain() && Shows(sem, ll, ra, v, w, r)
    ensures r in Accum(Left(ll)) && ll != Mov(r, r.ix)
  {
    if r !in Accum(Left(ll)) {
      assert r !in Sources(ll) && r !in Targets(ll);
      var rb := SetReg(ra, r, v);
      assert Read(ra, Sources(ll)) == Read(rb, Sources(ll));
      PlainUntouched(sem, ll, ra, w, r);
      PlainAgrees(sem, ll, ra, rb, w, r);
      forall q | q != r ensures Plain(sem, ll, ra, w).0(q) == Plain(sem, ll, rb, w).0(q) {
        PlainAgrees(sem, ll, ra, rb, w, q);
      }
    }
  }

  lemma {:induction false} WriteSame<V>(regs: Regs<V>, dsts: seq<Reg>, k: nat, f: nat -> V, r: Reg, v: V)
    requires k <= |dsts| && (r in dsts[k..] || regs(r) == v) && forall j :: f(j) == v
    ensures WriteFrom(regs, dsts, k, f)(r) == v
    decreases |dsts| - k
  {
    if k < |dsts| {
      assert dsts[k..] == [dsts[k]] + dsts[k + 1..];
      WriteSame(SetReg(regs, dsts[k], f(k)), dsts, k + 1, f, r, v);
    }
  }

  lemma ReadTouches(op: nat, dsts: seq<Reg>, srcs: seq<Reg>, at: nat)
    requires at < |srcs|
    ensures Touches(LL.Op(op, dsts, srcs), srcs[at])
  {
    var r, ll := srcs[at], LL.Op(op, dsts, srcs);
    var nth := (_, vs, _) => if at < |vs| then vs[at] else 0;
    var sem: MSem<int, int> := MSem((_, _, _, _) => 0, nth, (_, _) => 0, (_, w) => w, v => v > 0);
    var zero: Regs<int> := _ => 0;
    assert Read(zero, srcs)[at] == 0 && Read(SetReg(zero, r, 1), srcs)[at] == 1;
    assert Plain(sem, ll, zero, 0).1 == 0 && Plain(sem, ll, SetReg(zero, r, 1), 0).1 == 1;
    assert Shows(sem, ll, zero, 1, 0, r);
  }

  lemma PlainWrites<V, W>(sem: MSem<V, W>, ll: LL, regs: Regs<V>, w: W, r: Reg, v: V)
    requires (ll.Op? && r in ll.dsts) || ll == AllocMap(r)
    requires (forall op, vs, w', k :: sem.opVal(op, vs, w', k) == v) && forall ty, w' :: sem.alloc(ty, w') == v
    ensures Plain(sem, ll, regs, w).0(r) == v
  {
    match ll
    case Op(op, dsts, srcs) =>
      var vs := Read(regs, srcs);
      assert dsts[0..] == dsts;
      WriteSame(regs, dsts, 0, (k: nat) => sem.opVal(op, vs, w, k), r, v);
    case AllocMap(_) =>
  }

  lemma WriteTouches(ll: LL, r: Reg)
    requires (ll.Op? && r in ll.dsts) || ll == AllocMap(r)
    ensures Touches(ll, r)
  {
    var sem: MSem<int, int> := MSem((_, _, _, _) => 1, (_, _, w) => w, (_, _) => 1, (_, w) => w, v => v > 0);
    var zero: Regs<int> := _ => 0;
    PlainWrites(sem, ll, zero, 0, r, 1);
    assert Shows(sem, ll, zero, 1, 0, r);
  }

  lemma MoveTouches(dst: Reg, src: nat, r: Reg)
    requires dst.ty.Stackable() && src != dst.ix && r in {dst, Reg(dst.ty, src)}
    ensures Touches(Mov(dst, src), r)
  {
    var sem: MSem<int, int> := MSem((_, _, _, _) => 0, (_, _, w) => w, (_, _) => 0, (_, w) => w, v => v > 0);
    var ra: Regs<int> := q => if q == dst then 0 else 1;
    assert Plain(sem, Mov(dst, src), ra, 0).0(dst) == 1;
    if r != dst {
      assert Plain(sem, Mov(dst, src), SetReg(ra, r, 2), 0).0(dst) == 2;
    }
    assert Shows(sem, Mov(dst, src), ra, 2, 0, r);
  }

  lemma ListedTouches(ll: LL, r: Reg)
    requires ll.IsPlain() && r in Accum(Left(ll)) && ll != Mov(r, r.ix)
    ensures Touches(ll, r)
  {
    hide Touches;
    match ll
    case Op(op, dsts, srcs) =>
      if r in dsts {
        WriteTouches(ll, r);
      } else {
        var at: nat :| at < |srcs| && srcs[at] == r;
        ReadTouches(op, dsts, srcs, at);
      }
    case AllocMap(_) => WriteTouches(ll, r);
    case Mov(dst, src) => MoveTouches(dst, src, r);
  }

  // ---- The end of a node ----

  lemma {:induction false} ChooseAlike<V, W>(sem: MSem<V, W>, status: Reg -> RegStatus, refs: set<Reg>,
                                             edges: seq<FEdge>, b: nat, e: nat, ra: Regs<V>, rb: Regs<V>)
    requires e <= |edges| && Agree(status, refs, ra, rb)
    requires forall k | 0 <= k < |edges| && edges[k].src == b && edges[k].cond.Some? ::
               Seen(status, refs, Reg(Int, edges[k].cond.value))
    ensures Choose(sem, edges, b, e, ra) == Choose(sem, edges, b, e, rb)
    decreases |edges| - e
  {
    if e < |edges| {
      ChooseAlike(sem, status, refs, edges, b, e + 1, ra, rb);
    }
  }

  lemma {:induction false} ArgListed(preds: seq<(nat, nat)>, p: nat)
    requires ArgReg(preds, p).Some?
    ensures exists j :: 0 <= j < |preds| && preds[j].1 == ArgReg(preds, p).value
  {
    if preds[0].0 != p {
      ArgListed(preds[1..], p);
      var j :| 0 <= j < |preds[1..]| && preds[1..][j].1 == ArgReg(preds[1..], p).value;
      assert preds[j + 1].1 == ArgReg(preds, p).value;
    }
  }

  // Phis whose destinations and arguments are seen.
  ghost predicate PhisSeen(node: seq<FInst>, status: Reg -> RegStatus, refs: set<Reg>) {
    forall k | 0 <= k < |node| && node[k].PhiReg? ::
      && Seen(status, refs, node[k].dst)
      && (forall j | 0 <= j < |node[k].preds| :: Seen(status, refs, Reg(node[k].dst.ty, node[k].preds[j].1)))
  }

  lemma {:induction false} EnterAlike<V>(status: Reg -> RegStatus, refs: set<Reg>, node: seq<FInst>, k: nat, p: nat,
                                         ra0: Regs<V>, rb0: Regs<V>, ra: Regs<V>, rb: Regs<V>)
    requires k <= |node| && PhisSeen(node, status, refs)
    requires Agree(status, refs, ra0, rb0) && Agree(status, refs, ra, rb)
    ensures Agree(status, refs, EnterNode(node, k, p, ra0, ra), EnterNode(node, k, p, rb0, rb))
    ensures Untouched(status, refs, ra, EnterNode(node, k, p, ra0, ra))
    decreases |node| - k
  {
    if k < |node| && node[k].PhiReg? {
      var m := PhiMove(node[k], p);
      if m.Some? {
        ArgListed(node[k].preds, p);
        var ra1 := SetReg(ra, m.value.0, ra0(Reg(m.value.0.ty, m.value.1)));
        var rb1 := SetReg(rb, m.value.0, rb0(Reg(m.value.0.ty, m.value.1)));
        EnterAlike(status, refs, node, k + 1, p, ra0, rb0, ra1, rb1);
      } else {
        EnterAlike(status, refs, node, k + 1, p, ra0, rb0, ra, rb);
      }
    }
  }

  // ---- Calls ----

  lemma {:induction false} AllocAlike<V, W>(sem: MSem<V, W>, status: Reg -> RegStatus, refs: set<Reg>,
                                            locals: seq<Reg>, ra: Regs<V>, rb: Regs<V>, w: W)
    requires Agree(status, refs, ra, rb) && forall r <- locals :: status(r) != Global
    ensures AllocAll(sem, locals, ra, w).1 == AllocAll(sem, locals, rb, w).1
    ensures Agree(status, refs, AllocAll(sem, locals, ra, w).0, AllocAll(sem, locals, rb, w).0)
    ensures Untouched(status, refs, ra, AllocAll(sem, locals, ra, w).0)
  {
    if locals != [] {
      AllocAlike(sem, status, refs, locals[..|locals| - 1], ra, rb, w);
      assert locals[|locals| - 1] in locals;
    }
  }

  lemma {:induction false} BindAlike<V>(status: Reg -> RegStatus, refs: set<Reg>, params: seq<Reg>, vs: seq<V>,
                                        ra: Regs<V>, rb: Regs<V>)
    requires |params| == |vs| && Agree(status, refs, ra, rb) && forall r <- params :: status(r) != Global
    ensures Agree(status, refs, Bind(params, vs, ra), Bind(params, vs, rb))
    ensures Untouched(status, refs, ra, Bind(params, vs, ra))
  {
    if params != [] {
      BindAlike(status, refs, params[..|params| - 1], vs[..|vs| - 1], ra, rb);
      assert params[|params| - 1] in params;
    }
  }

  lemma RestoreAlike<V>(status: Reg -> RegStatus, refs: set<Reg>, locals: seq<Reg>, dst: Reg, v: V, sa: Regs<V>,
                        sb: Regs<V>, ra: Regs<V>, rb: Regs<V>)
    requires Agree(status, refs, sa, sb) && Agree(status, refs, ra, rb) && Seen(status, refs, dst)
    requires forall r <- locals :: status(r) != Global
    ensures Agree(status, refs, Deliver(dst, v, Restore(locals, sa, ra)), Deliver(dst, v, Restore(locals, sb, rb)))
    ensures Untouched(status, refs, ra, Deliver(dst, v, Restore(locals, sa, ra)))
  {
  }

  // ---- Steps ----

  ghost predicate At(frames: seq<Frame>, f: nat, b: nat, i: nat) {
    f < |frames| && b < |frames[f].nodes| && i < |frames[f].nodes[b]|
  }

  // A step that behaves the same on both sides, stays inside, and leaves other globals alone.
  ghost predicate StepsAlike<V, W>(cg: Graph, frames: seq<Frame>, status: Reg -> RegStatus, fn: nat, refs: set<Reg>,
                                   a: FState<V, W>, a': FState<V, W>, b': FState<V, W>)
    requires a.Active?
  {
    Alike(status, refs, a', b') && Inside(cg, frames, fn, a') &&
    (a'.Active? ==> Untouched(status, refs, a.regs, a'.regs))
  }

  lemma PhisAreSeen(cg: Graph, frames: seq<Frame>, status: Reg -> RegStatus, fn: nat, refs: set<Reg>, f: nat, b: nat)
    requires WellBuilt(cg, frames, status) && Suffices(cg, frames, status, fn, refs)
    requires f < |frames| && Reachable(cg, fn, f) && b < |frames[f].nodes|
    ensures PhisSeen(frames[f].nodes[b], status, refs)
  {
    assert TestsSeen(frames[f], status, refs);
    forall k | 0 <= k < |frames[f].nodes[b]| && frames[f].nodes[b][k].PhiReg?
      ensures Seen(status, refs, frames[f].nodes[b][k].dst)
    {
      ListedSeen(cg, frames, status, fn, refs, f, b, k, frames[f].nodes[b][k].dst);
    }
  }

  lemma EndAlike<V, W>(sem: MSem<V, W>, cg: Graph, frames: seq<Frame>, status: Reg -> RegStatus, fn: nat,
                       refs: set<Reg>, a: FState<V, W>, b: FState<V, W>)
    requires WellBuilt(cg, frames, status) && Suffices(cg, frames, status, fn, refs)
    requires a.Active? && Alike(status, refs, a, b) && Inside(cg, frames, fn, a)
    requires a.fn < |frames| && a.b < |frames[a.fn].nodes| && a.i == |frames[a.fn].nodes[a.b]|
    ensures StepsAlike(cg, frames, status, fn, refs, a, FStep(sem, frames, a), FStep(sem, frames, b))
  {
    hide WellBuilt, Reachable, SameStack, Agree, EnterNode;
    var f := frames[a.fn];
    assert TestsSeen(f, status, refs);
    ChooseAlike(sem, status, refs, f.edges, a.b, 0, a.regs, b.regs);
    var e := Choose(sem, f.edges, a.b, 0, a.regs);
    if e.Some? && f.edges[e.value].dst < |f.nodes| {
      var d := f.edges[e.value].dst;
      PhisAreSeen(cg, frames, status, fn, refs, a.fn, d);
      EnterAlike(status, refs, f.nodes[d], 0, a.b, a.regs, b.regs, a.regs, b.regs);
    }
    InsideSame(cg, frames, fn, a, FStep(sem, frames, a));
  }

  lemma PlainStep<V, W>(sem: MSem<V, W>, cg: Graph, frames: seq<Frame>, status: Reg -> RegStatus, fn: nat,
                        refs: set<Reg>, a: FState<V, W>, b: FState<V, W>)
    requires WellBuilt(cg, frames, status) && Suffices(cg, frames, status, fn, refs)
    requires a.Active? && Alike(status, refs, a, b) && Inside(cg, frames, fn, a) && At(frames, a.fn, a.b, a.i)
    requires frames[a.fn].nodes[a.b][a.i].Left?
    ensures StepsAlike(cg, frames, status, fn, refs, a, FStep(sem, frames, a), FStep(sem, frames, b))
  {
    hide WellBuilt, Reachable, SameStack, Agree, Suffices, Plain, Untouched;
    var ll := frames[a.fn].nodes[a.b][a.i].ll;
    if ll.IsPlain() {
      forall r <- Accum(Left(ll))
        ensures Seen(status, refs, r)
      {
        ListedSeen(cg, frames, status, fn, refs, a.fn, a.b, a.i, r);
      }
      PlainAlike(sem, status, refs, ll, a.regs, b.regs, a.world);
    }
    InsideSame(cg, frames, fn, a, FStep(sem, frames, a));
  }

  lemma CallBuiltAt(cg: Graph, frames: seq<Frame>, status: Reg -> RegStatus, f: nat, b: nat, i: nat)
    requires WellBuilt(cg, frames, status) && At(frames, f, b, i) && frames[f].nodes[b][i].CallUdf?
    ensures CallBuilt(cg, frames, f, frames[f].nodes[b][i])
  {
  }

  lemma Reaches(cg: Graph, frames: seq<Frame>, status: Reg -> RegStatus, fn: nat, f: nat, g: nat)
    requires WellBuilt(cg, frames, status) && Reachable(cg, fn, f) && cg.HasEdge(f, g)
    ensures Reachable(cg, fn, g)
  {
    var p :| PathBetween(cg, p, fn, f);
    ExtendPath(cg, p, fn, f, g);
  }

  lemma StackMore<V>(status: Reg -> RegStatus, refs: set<Reg>, sa: seq<Suspended<V>>, sb: seq<Suspended<V>>,
                     a: Suspended<V>, b: Suspended<V>)
    requires SameStack(status, refs, sa, sb) && a.fn == b.fn && a.b == b.b && a.i == b.i
    requires Agree(status, refs, a.snap, b.snap)
    ensures SameStack(status, refs, sa + [a], sb + [b])
  {
    hide Agree;
  }

  lemma InsideMore<V, W>(cg: Graph, frames: seq<Frame>, fn: nat, a: FState<V, W>, a': FState<V, W>, s: Suspended<V>)
    requires a.Active? && Inside(cg, frames, fn, a) && a'.Active? && a'.stack == a.stack + [s] && s.fn == a.fn
    requires (a.fn < |frames| ==> Reachable(cg, fn, a.fn)) && (a'.fn < |frames| ==> Reachable(cg, fn, a'.fn))
    requires WaitsFor(frames, s, a'.fn)
    ensures Inside(cg, frames, fn, a')
  {
    hide Reachable, WaitsFor;
    forall k | 0 <= k < |a'.stack|
      ensures WaitsFor(frames, a'.stack[k], CalleeOf(a'.stack, a'.fn, k))
    {
      if k < |a.stack| {
        assert CalleeOf(a'.stack, a'.fn, k) == CalleeOf(a.stack, a.fn, k);
      }
    }
  }

  lemma CallStepAlike<V, W>(sem: MSem<V, W>, cg: Graph, frames: seq<Frame>, status: Reg -> RegStatus, fn: nat,
                            refs: set<Reg>, a: FState<V, W>, b: FState<V, W>)
    requires WellBuilt(cg, frames, status) && Suffices(cg, frames, status, fn, refs)
    requires a.Active? && Alike(status, refs, a, b) && Inside(cg, frames, fn, a) && At(frames, a.fn, a.b, a.i)
    requires frames[a.fn].nodes[a.b][a.i].CallUdf?
    ensures StepsAlike(cg, frames, status, fn, refs, a, FStep(sem, frames, a), FStep(sem, frames, b))
  {
    var call := frames[a.fn].nodes[a.b][a.i];
    CallBuiltAt(cg, frames, status, a.fn, a.b, a.i);
    if call.func < |frames| && |frames[call.func].params| == |call.args| {
      var g := frames[call.func];
      assert LocalsLocal(g, status);
      Reaches(cg, frames, status, fn, a.fn, call.func);
      ArgsAlike(cg, frames, status, fn, refs, a.fn, a.b, a.i, a.regs, b.regs);
      hide WellBuilt, Reachable, Suffices, AllocAll, Bind, Agree, SameStack, Inside, Untouched;
      AllocAlike(sem, status, refs, g.locals, a.regs, b.regs, a.world);
      var ra, rb := AllocAll(sem, g.locals, a.regs, a.world).0, AllocAll(sem, g.locals, b.regs, b.world).0;
      BindAlike(status, refs, g.params, Read(a.regs, call.args), ra, rb);
      UntouchedTrans(status, refs, a.regs, ra, Bind(g.params, Read(a.regs, call.args), ra));
      var s, t := Suspended(a.fn, a.b, a.i, a.regs), Suspended(b.fn, b.b, b.i, b.regs);
      StackMore(status, refs, a.stack, b.stack, s, t);
      InsideHere(cg, frames, fn, a);
      InsideMore(cg, frames, fn, a, FStep(sem, frames, a), s);
    }
  }

  lemma InsideHere<V, W>(cg: Graph, frames: seq<Frame>, fn: nat, a: FState<V, W>)
    requires a.Active? && Inside(cg, frames, fn, a)
    ensures a.fn < |frames| ==> Reachable(cg, fn, a.fn)
  {
  }

  lemma UntouchedTrans<V>(status: Reg -> RegStatus, refs: set<Reg>, a: Regs<V>, b: Regs<V>, c: Regs<V>)
    requires Untouched(status, refs, a, b) && Untouched(status, refs, b, c)
    ensures Untouched(status, refs, a, c)
  {
  }

  lemma ArgsAlike<V>(cg: Graph, frames: seq<Frame>, status: Reg -> RegStatus, fn: nat, refs: set<Reg>, f: nat, b: nat,
                     i: nat, ra: Regs<V>, rb: Regs<V>)
    requires WellBuilt(cg, frames, status) && Suffices(cg, frames, status, fn, refs) && At(frames, f, b, i)
    requires Reachable(cg, fn, f) && frames[f].nodes[b][i].CallUdf? && Agree(status, refs, ra, rb)
    ensures Read(ra, frames[f].nodes[b][i].args) == Read(rb, frames[f].nodes[b][i].args)
  {
    hide WellBuilt, Suffices, Reachable;
    var args := frames[f].nodes[b][i].args;
    forall k | 0 <= k < |args|
      ensures Read(ra, args)[k] == Read(rb, args)[k]
    {
      assert args[k] in Accum(frames[f].nodes[b][i]);
      ListedSeen(cg, frames, status, fn, refs, f, b, i, args[k]);
    }
  }

  // Coming back: the caller waits for this function, so the result has the type it expects.
  lemma BackInside<V, W>(cg: Graph, frames: seq<Frame>, status: Reg -> RegStatus, fn: nat, refs: set<Reg>,
                         a: FState<V, W>)
    requires WellBuilt(cg, frames, status) && Suffices(cg, frames, status, fn, refs)
    requires a.Active? && Inside(cg, frames, fn, a) && At(frames, a.fn, a.b, a.i) && a.stack != []
    requires frames[a.fn].nodes[a.b][a.i].RetVal?
    ensures var s := a.stack[|a.stack| - 1];
            && WaitsAtCall(frames, s.fn, s.b, s.i) && LocalsLocal(frames[s.fn], status)
            && var dst, r := frames[s.fn].nodes[s.b][s.i].dst, frames[a.fn].nodes[a.b][a.i].r;
               r.ty == dst.ty && Seen(status, refs, r) && Seen(status, refs, dst)
  {
    var k := |a.stack| - 1;
    var s := a.stack[k];
    assert WaitsFor(frames, s, CalleeOf(a.stack, a.fn, k));
    CallBuiltAt(cg, frames, status, s.fn, s.b, s.i);
    assert LocalsLocal(frames[s.fn], status);
    hide WellBuilt, Suffices, Reachable;
    ListedSeen(cg, frames, status, fn, refs, a.fn, a.b, a.i, frames[a.fn].nodes[a.b][a.i].r);
    ListedSeen(cg, frames, status, fn, refs, s.fn, s.b, s.i, frames[s.fn].nodes[s.b][s.i].dst);
  }

  lemma InsideLess<V, W>(cg: Graph, frames: seq<Frame>, fn: nat, a: FState<V, W>, a': FState<V, W>)
    requires a.Active? && Inside(cg, frames, fn, a) && a.stack != [] && a'.Active?
    requires a'.stack == a.stack[..|a.stack| - 1] && a'.fn == a.stack[|a.stack| - 1].fn
    ensures Inside(cg, frames, fn, a')
  {
    hide Reachable, WaitsFor;
    var n := |a.stack| - 1;
    forall k | 0 <= k < n
      ensures WaitsFor(frames, a'.stack[k], CalleeOf(a'.stack, a'.fn, k))
    {
      assert WaitsFor(frames, a.stack[k], CalleeOf(a.stack, a.fn, k));
    }
  }

  lemma StackLess<V>(status: Reg -> RegStatus, refs: set<Reg>, sa: seq<Suspended<V>>, sb: seq<Suspended<V>>)
    requires SameStack(status, refs, sa, sb) && sa != []
    ensures |sb| == |sa| && SameStack(status, refs, sa[..|sa| - 1], sb[..|sb| - 1])
    ensures var s, t := sa[|sa| - 1], sb[|sb| - 1];
            s.fn == t.fn && s.b == t.b && s.i == t.i && Agree(status, refs, s.snap, t.snap)
  {
    hide Agree;
  }

  lemma RetStepAlike<V, W>(sem: MSem<V, W>, cg: Graph, frames: seq<Frame>, status: Reg -> RegStatus, fn: nat,
                           refs: set<Reg>, a: FState<V, W>, b: FState<V, W>)
    requires WellBuilt(cg, frames, status) && Suffices(cg, frames, status, fn, refs)
    requires a.Active? && Alike(status, refs, a, b) && Inside(cg, frames, fn, a) && At(frames, a.fn, a.b, a.i)
    requires frames[a.fn].nodes[a.b][a.i].RetVal?
    ensures StepsAlike(cg, frames, status, fn, refs, a, FStep(sem, frames, a), FStep(sem, frames, b))
  {
    hide WellBuilt, Suffices, Inside, SameStack, Deliver, Restore, Untouched;
    if a.stack == [] {
      EmptyStacks(status, refs, a.stack, b.stack);
      NotInside(cg, frames, fn, FStep(sem, frames, a));
    } else {
      BackInside(cg, frames, status, fn, refs, a);
      StackLess(status, refs, a.stack, b.stack);
      var s, t := a.stack[|a.stack| - 1], b.stack[|b.stack| - 1];
      var dst, r := frames[s.fn].nodes[s.b][s.i].dst, frames[a.fn].nodes[a.b][a.i].r;
      assert a.regs(r) == b.regs(r);
      RestoreAlike(status, refs, frames[s.fn].locals, dst, a.regs(r), s.snap, t.snap, a.regs, b.regs);
      InsideLess(cg, frames, fn, a, FStep(sem, frames, a));
    }
  }

  lemma EmptyStacks<V>(status: Reg -> RegStatus, refs: set<Reg>, sa: seq<Suspended<V>>, sb: seq<Suspended<V>>)
    requires SameStack(status, refs, sa, sb)
    ensures |sa| == |sb|
  {
  }

  lemma NotInside<V, W>(cg: Graph, frames: seq<Frame>, fn: nat, a: FState<V, W>)
    requires !a.Active?
    ensures Inside(cg, frames, fn, a)
  {
  }

  lemma OneStep<V, W>(sem: MSem<V, W>, cg: Graph, frames: seq<Frame>, status: Reg -> RegStatus, fn: nat,
                      refs: set<Reg>, a: FState<V, W>, b: FState<V, W>)
    requires WellBuilt(cg, frames, status) && Suffices(cg, frames, status, fn, refs)
    requires a.Active? && Alike(status, refs, a, b) && Inside(cg, frames, fn, a)
    ensures StepsAlike(cg, frames, status, fn, refs, a, FStep(sem, frames, a), FStep(sem, frames, b))
  {
    hide WellBuilt, Suffices, Agree, SameStack, Reachable, WaitsFor, Untouched;
    if a.fn >= |frames| || a.b >= |frames[a.fn].nodes| || a.i > |frames[a.fn].nodes[a.b]| {
    } else if a.i == |frames[a.fn].nodes[a.b]| {
      EndAlike(sem, cg, frames, status, fn, refs, a, b);
    } else {
      match frames[a.fn].nodes[a.b][a.i]
      case Left(_) => PlainStep(sem, cg, frames, status, fn, refs, a, b);
      case CallUdf(_, _, _) => CallStepAlike(sem, cg, frames, status, fn, refs, a, b);
      case RetVal(_) => RetStepAlike(sem, cg, frames, status, fn, refs, a, b);
      case PhiReg(_, _) =>
        SkipsAlike(status, refs, a.regs);
        InsideSame(cg, frames, fn, a, FStep(sem, frames, a));
      case DropIter(_) =>
        SkipsAlike(status, refs, a.regs);
        InsideSame(cg, frames, fn, a, FStep(sem, frames, a));
    }
  }

  lemma SkipsAlike<V>(status: Reg -> RegStatus, refs: set<Reg>, regs: Regs<V>)
    ensures Untouched(status, refs, regs, regs)
  {
  }

  // ---- Whole runs ----

  lemma {:induction false} RunAlike<V, W>(sem: MSem<V, W>, cg: Graph, frames: seq<Frame>, status: Reg -> RegStatus,
                                          fn: nat, refs: set<Reg>, k: nat, a: FState<V, W>, b: FState<V, W>)
    requires WellBuilt(cg, frames, status) && Suffices(cg, frames, status, fn, refs)
    requires Alike(status, refs, a, b) && Inside(cg, frames, fn, a)
    ensures Alike(status, refs, FRun(sem, frames, k, a), FRun(sem, frames, k, b))
    ensures a.Active? && FRun(sem, frames, k, a).Active? ==>
              Untouched(status, refs, a.regs, FRun(sem, frames, k, a).regs)
  {
    hide WellBuilt, Suffices, Inside, FStep, Agree, SameStack;
    if k > 0 && a.Active? {
      OneStep(sem, cg, frames, status, fn, refs, a, b);
      var a', b' := FStep(sem, frames, a), FStep(sem, frames, b);
      RunAlike(sem, cg, frames, status, fn, refs, k - 1, a', b');
      if !a'.Active? {
        Simulation.Rests(sem, frames, k - 1, a');
      }
    } else if k > 0 {
      Simulation.Rests(sem, frames, k, a);
      Simulation.Rests(sem, frames, k, b);
    }
  }

  // Started in register files that agree on its globals and on all registers that are no globals, a
  // function does the same in the same worlds, calls included; at every moment they agree again, and
  // every other global is as it was.
  lemma RefsSuffice<V, W>(sem: MSem<V, W>, cg: Graph, frames: seq<Frame>, status: Reg -> RegStatus, fn: nat,
                          refs: set<Reg>, k: nat, ra: Regs<V>, rb: Regs<V>, w: W)
    requires WellBuilt(cg, frames, status) && Suffices(cg, frames, status, fn, refs) && fn < |frames|
    requires forall r | status(r) != Global || r in refs :: ra(r) == rb(r)
    ensures var (a, b) := (FRun(sem, frames, k, Active(fn, 0, 0, ra, w, [])),
                           FRun(sem, frames, k, Active(fn, 0, 0, rb, w, [])));
            && (a.Done? <==> b.Done?) && (a.Done? ==> a.world == b.world)
            && (a.Active? <==> b.Active?)
            && (a.Active? ==>
                  && a.fn == b.fn && a.b == b.b && a.i == b.i && a.world == b.world
                  && (forall r | status(r) != Global || r in refs :: a.regs(r) == b.regs(r))
                  && (forall r | status(r) == Global && r !in refs :: a.regs(r) == ra(r)))
  {
    ReachSelf(cg, fn);
    hide WellBuilt, Suffices, FRun;
    RunAlike(sem, cg, frames, status, fn, refs, k, Active(fn, 0, 0, ra, w, []), Active(fn, 0, 0, rb, w, []));
    var a := FRun(sem, frames, k, Active(fn, 0, 0, ra, w, []));
    if a.Active? {
      forall r | status(r) == Global && r !in refs
        ensures a.regs(r) == ra(r)
      {
        assert !Seen(status, refs, r);
      }
    }
  }

  // A worker that has what BEGIN stores for the main loop, and nothing else from BEGIN, agrees with BEGIN
  // on every global of the main loop: the others BEGIN has not touched.
  lemma SharingSuffices<V, W>(sem: MSem<V, W>, cg: Graph, frames: seq<Frame>, status: Reg -> RegStatus, begin: nat,
                              beginRefs: set<Reg>, loopRefs: set<Reg>, endRefs: set<Reg>, k: nat, r0: Regs<V>, w: W,
                              worker: Regs<V>)
    requires WellBuilt(cg, frames, status) && Suffices(cg, frames, status, begin, beginRefs) && begin < |frames|
    requires FRun(sem, frames, k, Active(begin, 0, 0, r0, w, [])).Active?
    requires forall r | status(r) == Global ::
               worker(r) == if r in Stages.ComputePar(beginRefs, loopRefs, endRefs).beginStores
                            then FRun(sem, frames, k, Active(begin, 0, 0, r0, w, [])).regs(r) else r0(r)
    ensures forall r | r in loopRefs && status(r) == Global ::
              worker(r) == FRun(sem, frames, k, Active(begin, 0, 0, r0, w, [])).regs(r)
  {
    hide WellBuilt, Suffices, FRun;
    RefsSuffice(sem, cg, frames, status, begin, beginRefs, k, r0, r0, w);
  }

  // ---- Branch conditions ----

  // A test that is made in some register file: no `else` comes before it.
  predicate Tested(edges: seq<FEdge>, b: nat, e: nat) {
    && e < |edges| && edges[e].src == b && edges[e].cond.Some?
    && forall k | 0 <= k < e && edges[k].src == b :: edges[k].cond.Some?
  }

  const TRUTH: MSem<bool, int> := MSem(
    (_: nat, _: seq<bool>, _: int, _: nat) => false,
    (_: nat, _: seq<bool>, w: int) => w,
    (_: Ty, _: int) => false,
    (_: Ty, w: int) => w,
    (v: bool) => v)

  // Register files that agree on what is seen leave node b along the same edge.
  ghost predicate BranchesAlike(edges: seq<FEdge>, b: nat, status: Reg -> RegStatus, refs: set<Reg>) {
    forall ra: Regs<bool>, rb: Regs<bool> | Agree(status, refs, ra, rb) ::
      Choose(TRUTH, edges, b, 0, ra) == Choose(TRUTH, edges, b, 0, rb)
  }

  // What a node does next depends on no other global if and only if its branches test no other global.
  lemma TestsExact(edges: seq<FEdge>, b: nat, status: Reg -> RegStatus, refs: set<Reg>)
    ensures BranchesAlike(edges, b, status, refs) <==>
            forall e: nat | Tested(edges, b, e) :: Seen(status, refs, Reg(Int, edges[e].cond.value))
  {
    if forall e: nat | Tested(edges, b, e) :: Seen(status, refs, Reg(Int, edges[e].cond.value)) {
      forall ra: Regs<bool>, rb: Regs<bool> | Agree(status, refs, ra, rb)
        ensures Choose(TRUTH, edges, b, 0, ra) == Choose(TRUTH, edges, b, 0, rb)
      {
        ChooseTested(edges, b, 0, status, refs, ra, rb);
      }
    } else {
      var e: nat :| Tested(edges, b, e) && !Seen(status, refs, Reg(Int, edges[e].cond.value));
      var c := Reg(Int, edges[e].cond.value);
      var rb: Regs<bool> := (r: Reg) => false;
      var ra: Regs<bool> := (r: Reg) => r == c;
      assert Agree(status, refs, ra, rb);
      FirstTrue(edges, b, 0, e, ra);
      NoneTrue(edges, b, 0, rb);
    }
  }

  lemma {:induction false} ChooseTested(edges: seq<FEdge>, b: nat, e: nat, status: Reg -> RegStatus, refs: set<Reg>,
                                        ra: Regs<bool>, rb: Regs<bool>)
    requires e <= |edges| && Agree(status, refs, ra, rb)
    requires forall k: nat | Tested(edges, b, k) :: Seen(status, refs, Reg(Int, edges[k].cond.value))
    requires forall k | 0 <= k < e && edges[k].src == b :: edges[k].cond.Some?
    ensures Choose(TRUTH, edges, b, e, ra) == Choose(TRUTH, edges, b, e, rb)
    decreases |edges| - e
  {
    if e < |edges| && (edges[e].src != b || edges[e].cond.Some?) {
      if edges[e].src == b {
        assert Tested(edges, b, e);
      }
      ChooseTested(edges, b, e + 1, status, refs, ra, rb);
    }
  }

  // With a test that is true, some test is the first one that is.
  lemma {:induction false} FirstTrue(edges: seq<FEdge>, b: nat, k: nat, e: nat, regs: Regs<bool>)
    requires k <= e && Tested(edges, b, e) && regs(Reg(Int, edges[e].cond.value))
    ensures Choose(TRUTH, edges, b, k, regs).Some? && edges[Choose(TRUTH, edges, b, k, regs).value].cond.Some?
    decreases e - k
  {
    if k < e {
      FirstTrue(edges, b, k + 1, e, regs);
    }
  }

  lemma {:induction false} NoneTrue(edges: seq<FEdge>, b: nat, k: nat, regs: Regs<bool>)
    requires k <= |edges| && forall r :: !regs(r)
    ensures var c := Choose(TRUTH, edges, b, k, regs); c.Some? ==> edges[c.value].cond.None?
    decreases |edges| - k
  {
    if k < |edges| {
      NoneTrue(edges, b, k + 1, regs);
    }
  }

  // `{ if (x) print }`: x is in Int register 3, operation 7 prints.
  const X := Reg(Int, 3)
  const NOTHING := Reg(Null, NULL_REG)
  const LOOP := Frame(true, [], [], [[], [Left(LL.Op(7, [], [])), RetVal(NOTHING)], [RetVal(NOTHING)]],
                      [FEdge(0, 1, Some(3)), FEdge(0, 2, None)])

  const COUNTING: MSem<int, int> := MSem(
    (_: nat, _: seq<int>, _: int, _: nat) => 0,
    (_: nat, _: seq<int>, w: int) => w + 1,
    (_: Ty, _: int) => 0,
    (_: Ty, w: int) => w,
    (v: int) => v != 0)

  function OnlyX(r: Reg): RegStatus {
    if r == X then Global else Local
  }

  function Holding(x: int): Regs<int> {
    (r: Reg) => if r == X then x else 0
  }

  // A global that is only tested is not found: nothing is shared with this loop, which prints or does
  // not print depending on what BEGIN left in x.
  lemma TestOverlooked()
    ensures WellBuilt(Graph(1, []), [LOOP], OnlyX)
    ensures forall r :: !UsedGlobal(Graph(1, []), [LOOP], OnlyX, 0, r)
    ensures !TestsSeen(LOOP, OnlyX, {})
    ensures FRun(COUNTING, [LOOP], 3, Active(0, 0, 0, Holding(1), 0, [])) == Done(1)
    ensures FRun(COUNTING, [LOOP], 2, Active(0, 0, 0, Holding(0), 0, [])) == Done(0)
  {
    forall r
      ensures !UsedGlobal(Graph(1, []), [LOOP], OnlyX, 0, r)
    {
      if Mentions(LOOP, r) {
        NothingListed(r);
      }
    }
    assert !Seen(OnlyX, {}, Reg(Int, LOOP.edges[0].cond.value));
    TestTaken();
    TestNotTaken();
  }

  lemma NothingListed(r: Reg)
    requires Mentions(LOOP, r)
    ensures r == NOTHING
  {
    forall b, i | 0 <= b < |LOOP.nodes| && 0 <= i < |LOOP.nodes[b]|
      ensures r in Accum(LOOP.nodes[b][i]) ==> r == NOTHING
    {
    }
  }

  lemma TestTaken()
    ensures FRun(COUNTING, [LOOP], 3, Active(0, 0, 0, Holding(1), 0, [])) == Done(1)
  {
    var s0: FState<int, int> := Active(0, 0, 0, Holding(1), 0, []);
    assert Choose(COUNTING, LOOP.edges, 0, 0, Holding(1)) == Some(0);
    var s1 := FStep(COUNTING, [LOOP], s0);
    assert s1 == Active(0, 1, 0, Holding(1), 0, []);
    var s2 := FStep(COUNTING, [LOOP], s1);
    assert s2.Active? && s2.b == 1 && s2.i == 1 && s2.world == 1 && s2.stack == [];
    assert FStep(COUNTING, [LOOP], s2) == Done(1);
    assert FRun(COUNTING, [LOOP], 1, s2) == FRun(COUNTING, [LOOP], 0, Done(1));
    assert FRun(COUNTING, [LOOP], 2, s1) == FRun(COUNTING, [LOOP], 1, s2);
  }

  lemma TestNotTaken()
    ensures FRun(COUNTING, [LOOP], 2, Active(0, 0, 0, Holding(0), 0, [])) == Done(0)
  {
    var s0: FState<int, int> := Active(0, 0, 0, Holding(0), 0, []);
    assert Choose(COUNTING, LOOP.edges, 0, 1, Holding(0)) == Some(1);
    assert Choose(COUNTING, LOOP.edges, 0, 0, Holding(0)) == Some(1);
    var s1 := FStep(COUNTING, [LOOP], s0);
    assert s1 == Active(0, 2, 0, Holding(0), 0, []);
    assert FStep(COUNTING, [LOOP], s1) == Done(0);
    assert FRun(COUNTING, [LOOP], 1, s1) == FRun(COUNTING, [LOOP], 0, Done(0));
  }
}
