// The bytecode simulates the frames: same branches, same operations on the same values, with
// phi moves made sequentially and locals saved on typed value stacks around every call.
module CallSim {
  import opened Bytecode
  import opened Frames
  import opened Layout
  import opened FrameRules

  // ---- Registers agree wherever a value may be read ----

  ghost predicate AgreeAt<V>(u: Unit, live: Live, fn: nat, b: nat, i: nat, ra: Regs<V>, rb: Regs<V>)
    requires LiveShape(u, live) && InFrame(u, fn, b, i)
  {
    forall r | Readable(u, live, fn, b, i, r) :: ra(r) == rb(r)
  }

  lemma SameReads<V>(u: Unit, live: Live, fn: nat, b: nat, i: nat, ra: Regs<V>, rb: Regs<V>, rs: seq<Reg>)
    requires LiveShape(u, live) && InFrame(u, fn, b, i) && AgreeAt(u, live, fn, b, i, ra, rb)
    requires forall r <- rs :: Readable(u, live, fn, b, i, r)
    ensures Read(ra, rs) == Read(rb, rs)
  {
  }

  // Writing the same results leaves the written registers equal and the others as they were.
  lemma {:induction false} WriteAgrees<V>(ra: Regs<V>, rb: Regs<V>, dsts: seq<Reg>, k: nat, f: nat -> V, g: nat -> V,
                                          r: Reg)
    requires k <= |dsts| && forall j: nat :: f(j) == g(j)
    requires ra(r) == rb(r) || r in dsts[k..]
    ensures WriteFrom(ra, dsts, k, f)(r) == WriteFrom(rb, dsts, k, g)(r)
    decreases |dsts| - k
  {
    if k < |dsts| {
      WriteAgrees(SetReg(ra, dsts[k], f(k)), SetReg(rb, dsts[k], g(k)), dsts, k + 1, f, g, r);
    }
  }

  lemma PlainAgrees<V, W>(sem: MSem<V, W>, ll: LL, ra: Regs<V>, rb: Regs<V>, w: W, r: Reg)
    requires ll.IsPlain() && Read(ra, Sources(ll)) == Read(rb, Sources(ll))
    ensures Plain(sem, ll, ra, w).1 == Plain(sem, ll, rb, w).1
    ensures ra(r) == rb(r) || r in Targets(ll) ==> Plain(sem, ll, ra, w).0(r) == Plain(sem, ll, rb, w).0(r)
  {
    match ll
    case Op(op, dsts, srcs) =>
      var va, vb := Read(ra, srcs), Read(rb, srcs);
      if ra(r) == rb(r) || r in Targets(ll) {
        WriteAgrees(ra, rb, dsts, 0, (k: nat) => sem.opVal(op, va, w, k), (k: nat) => sem.opVal(op, vb, w, k), r);
      }
    case AllocMap(_) =>
    case Mov(dst, src) =>
      assert Read(ra, Sources(ll))[0] == Read(rb, Sources(ll))[0];
  }

  // ---- The relation between a frame state and a machine ----

  ghost predicate SuspOk<V>(u: Unit, live: Live, s: Suspended<V>, snap: Regs<V>, ret: (nat, nat), callee: nat)
    requires LiveShape(u, live)
  {
    && WaitsAtCall(u.frames, s.fn, s.b, s.i) && u.frames[s.fn].called && EdgesOk(u.frames[s.fn])
    && AgreeAt(u, live, s.fn, s.b, s.i, s.snap, snap)
    && u.frames[s.fn].nodes[s.b][s.i].func == callee
    && ret == (s.fn, ResumeAt(u, s.fn, s.b, s.i))
  }

  // Right behind the Call instruction.
  function ResumeAt(u: Unit, fn: nat, b: nat, i: nat): nat
    requires WaitsAtCall(u.frames, fn, b, i) && EdgesOk(u.frames[fn])
  {
    Pos(u, fn, b, i) + |Pushes(u.frames[fn].locals)| + |Pushes(u.frames[fn].nodes[b][i].args)| + 1
  }

  // What the suspended activations have on the value stack of type t.
  ghost function Saved<V>(u: Unit, stack: seq<Suspended<V>>, snaps: seq<Regs<V>>, t: Ty): seq<V>
    requires |stack| == |snaps|
  {
    if stack == [] then []
    else
      var k := |stack| - 1;
      Saved(u, stack[..k], snaps[..k], t) +
      (if stack[k].fn < |u.frames| then
         Pushed(u.frames[stack[k].fn].locals, Read(snaps[k], u.frames[stack[k].fn].locals), t)
       else [])
  }

  function CalleeOf<V>(stack: seq<Suspended<V>>, fn: nat, k: nat): nat
    requires k < |stack|
  {
    if k + 1 < |stack| then stack[k + 1].fn else fn
  }

  ghost predicate StackOk<V>(u: Unit, live: Live, stack: seq<Suspended<V>>, snaps: seq<Regs<V>>, calls: seq<(nat,
                             nat)>, fn: nat)
    requires LiveShape(u, live)
  {
    && |stack| == |snaps| == |calls|
    && (forall k | 0 <= k < |stack| :: SuspOk(u, live, stack[k], snaps[k], calls[k], CalleeOf(stack, fn, k)))
  }

  ghost predicate Rel<V, W>(u: Unit, live: Live, st: FState<V, W>, o: Outcome<V, W>, snaps: seq<Regs<V>>)
    requires LiveShape(u, live)
  {
    match st
    case Done(w) => o == Finished(w)
    case Wrong => false
    case Active(fn, b, i, regs, w, stack) => o.Going? && RelActive(u, live, st, o.m, snaps)
  }

  ghost predicate RelActive<V, W>(u: Unit, live: Live, st: FState<V, W>, m: Machine<V, W>, snaps: seq<Regs<V>>)
    requires LiveShape(u, live) && st.Active?
  {
    && InFrame(u, st.fn, st.b, st.i) && u.frames[st.fn].called && EdgesOk(u.frames[st.fn])
    && m.fn == st.fn && m.pc == Pos(u, st.fn, st.b, st.i) && m.world == st.world
    && AgreeAt(u, live, st.fn, st.b, st.i, st.regs, m.regs)
    && StackOk(u, live, st.stack, snaps, m.calls, st.fn)
    && (forall t :: m.stacks(t) == Saved(u, st.stack, snaps, t))
  }

  // ---- Calls ----

  // The machine's step j from m allocates a map for register r, and gets v.
  ghost predicate AllocatedAt<V, W>(sem: MSem<V, W>, code: seq<seq<LL>>, m: Machine<V, W>, j: nat, r: Reg, v: V) {
    var o := MRun(sem, code, j, Going(m));
    && o.Going? && o.m.fn < |code| && o.m.pc < |code[o.m.fn]| && code[o.m.fn][o.m.pc] == AllocMap(r)
    && v == sem.alloc(r.ty, o.m.world)
  }

  ghost predicate Allocated<V, W>(sem: MSem<V, W>, code: seq<seq<LL>>, m: Machine<V, W>, n: nat, r: Reg, v: V) {
    exists j: nat :: j < n && AllocatedAt(sem, code, m, j, r, v)
  }

  // Each map local that is no parameter holds a map that was allocated in the n steps from m.
  ghost predicate FreshMaps<V, W>(sem: MSem<V, W>, code: seq<seq<LL>>, m: Machine<V, W>, n: nat, locals: seq<Reg>,
                                  params: seq<Reg>, regs: Regs<V>) {
    forall r <- locals | r.ty in MAP_TYPES && r !in params :: Allocated(sem, code, m, n, r, regs(r))
  }

  lemma NoFreshMaps<V, W>(sem: MSem<V, W>, code: seq<seq<LL>>, m: Machine<V, W>)
    ensures FreshMaps(sem, code, m, 0, [], [], m.regs)
  {
  }

  lemma FreshMapsOneMore<V, W>(sem: MSem<V, W>, code: seq<seq<LL>>, m: Machine<V, W>, n: nat, init: seq<Reg>, last: Reg,
                               m1: Machine<V, W>, regs: Regs<V>)
    requires FreshMaps(sem, code, m, n, init, [], m1.regs) && MRun(sem, code, n, Going(m)) == Going(m1)
    requires if last.ty in MAP_TYPES then
               && m1.fn < |code| && m1.pc < |code[m1.fn]| && code[m1.fn][m1.pc] == AllocMap(last)
               && regs == SetReg(m1.regs, last, sem.alloc(last.ty, m1.world))
             else regs == m1.regs
    ensures FreshMaps(sem, code, m, if last.ty in MAP_TYPES then n + 1 else n, init + [last], [], regs)
  {
    var n' := if last.ty in MAP_TYPES then n + 1 else n;
    forall r <- init + [last] | r.ty in MAP_TYPES
      ensures Allocated(sem, code, m, n', r, regs(r))
    {
      if r == last {
        assert AllocatedAt(sem, code, m, n, r, regs(r));
      } else {
        assert r in init;
        var j: nat :| j < n && AllocatedAt(sem, code, m, j, r, m1.regs(r));
        assert AllocatedAt(sem, code, m, j, r, regs(r));
      }
    }
  }

  // Parameters are popped over the fresh maps.
  lemma FreshMapsGiven<V, W>(sem: MSem<V, W>, code: seq<seq<LL>>, m: Machine<V, W>, n: nat, k: nat, locals: seq<Reg>,
                             params: seq<Reg>, vs: seq<V>, before: Regs<V>, after: Regs<V>)
    requires FreshMaps(sem, code, m, n, locals, [], before) && |params| == |vs| && Given(params, vs, before, after)
    ensures FreshMaps(sem, code, m, n + k, locals, params, after)
  {
    forall r <- locals | r.ty in MAP_TYPES && r !in params
      ensures Allocated(sem, code, m, n + k, r, after(r))
    {
      var j: nat :| j < n && AllocatedAt(sem, code, m, j, r, before(r));
      assert AllocatedAt(sem, code, m, j, r, after(r));
    }
  }

  // What happens from m1 on happens from m on, a steps earlier.
  lemma FreshMapsFrom<V, W>(sem: MSem<V, W>, code: seq<seq<LL>>, m: Machine<V, W>, a: nat, m1: Machine<V, W>, n: nat,
                            locals: seq<Reg>, params: seq<Reg>, regs: Regs<V>)
    requires MRun(sem, code, a, Going(m)) == Going(m1) && FreshMaps(sem, code, m1, n, locals, params, regs)
    ensures FreshMaps(sem, code, m, a + n, locals, params, regs)
  {
    forall r <- locals | r.ty in MAP_TYPES && r !in params
      ensures Allocated(sem, code, m, a + n, r, regs(r))
    {
      var j: nat :| j < n && AllocatedAt(sem, code, m1, j, r, regs(r));
      MRunAdd(sem, code, a, j, Going(m));
      assert AllocatedAt(sem, code, m, a + j, r, regs(r));
    }
  }

  lemma {:induction false} RunAllocs<V, W>(sem: MSem<V, W>, code: seq<seq<LL>>, m: Machine<V, W>, locals: seq<Reg>)
    returns (m': Machine<V, W>)
    requires m.fn < |code| && CodeAt(code[m.fn], m.pc, Allocs(locals))
    ensures MRun(sem, code, |Allocs(locals)|, Going(m)) == Going(m')
    ensures m' == m.(pc := m.pc + |Allocs(locals)|, regs := AllocAll(sem, locals, m.regs, m.world).0,
                     world := AllocAll(sem, locals, m.regs, m.world).1)
    ensures FreshMaps(sem, code, m, |Allocs(locals)|, locals, [], m'.regs)
  {
    hide FreshMaps, CodeAt;
    if locals == [] {
      m' := m;
      NoFreshMaps(sem, code, m);
    } else {
      var init, last := locals[..|locals| - 1], locals[|locals| - 1];
      SplitLast(locals);
      if last.ty.IsArray() {
        CodeAtSplit(code[m.fn], m.pc, Allocs(init), [AllocMap(last)]);
        var m1 := RunAllocs(sem, code, m, init);
        CodeAtIndex(code[m.fn], m.pc + |Allocs(init)|, [AllocMap(last)], 0);
        MRunAdd(sem, code, |Allocs(init)|, 1, Going(m));
        m' := MStep(sem, code, m1).m;
        assert MRun(sem, code, 1, Going(m1)) == Going(m');
        FreshMapsOneMore(sem, code, m, |Allocs(init)|, init, last, m1, m'.regs);
      } else {
        assert Allocs(locals) == Allocs(init);
        m' := RunAllocs(sem, code, m, init);
        FreshMapsOneMore(sem, code, m, |Allocs(init)|, init, last, m', m'.regs);
      }
    }
  }

  lemma {:induction false} AllocAgrees<V, W>(sem: MSem<V, W>, locals: seq<Reg>, ra: Regs<V>, rb: Regs<V>, w: W, r: Reg)
    ensures AllocAll(sem, locals, ra, w).1 == AllocAll(sem, locals, rb, w).1
    ensures ra(r) == rb(r) || (r in locals && r.ty in MAP_TYPES) ==>
              AllocAll(sem, locals, ra, w).0(r) == AllocAll(sem, locals, rb, w).0(r)
  {
    if locals != [] {
      SplitLast(locals);
      AllocAgrees(sem, locals[..|locals| - 1], ra, rb, w, r);
    }
  }

  // Parameters receive the argument values, by position.
  lemma {:induction false} BindGives<V>(params: seq<Reg>, vs: seq<V>, regs: Regs<V>)
    requires |params| == |vs| && DistinctRegs(params)
    ensures Given(params, vs, regs, Bind(params, vs, regs))
  {
    if params != [] {
      var init, last, us, v := params[..|params| - 1], params[|params| - 1], vs[..|vs| - 1], vs[|vs| - 1];
      assert params == init + [last] && vs == us + [v];
      BindGives(init, us, regs);
      if last.ty.Stackable() {
        assert last !in init;
      }
    }
  }

  // ---- One instruction ----

  lemma FrameFacts(u: Unit, live: Live, code: seq<seq<LL>>, fn: nat)
    requires UnitOk(u, live) && IsCode(u, code) && fn < |u.frames| && u.frames[fn].called
    ensures LiveShape(u, live) && |code| == |u.frames| == |u.rets| && FrameOk(u, live, fn) && EdgesOk(u.frames[fn])
    ensures |u.frames[fn].nodes| > 0
    ensures code[fn] == FrameCode(u, fn)
    ensures DistinctRegs(u.frames[fn].locals) && DistinctRegs(u.frames[fn].params)
    ensures forall r <- u.frames[fn].locals | Real(r) :: r !in u.rets
    ensures live[fn][0][0] == {}
  {
  }

  lemma InstFacts(u: Unit, live: Live, fn: nat, b: nat, i: nat)
    requires UnitOk(u, live) && InFrame(u, fn, b, i) && i < |u.frames[fn].nodes[b]| && u.frames[fn].called
    ensures InstOk(u, live, fn, b, i)
  {
    assert FrameOk(u, live, fn);
    assert NodeOk(u, live, fn, b);
  }

  // Steps that only move on in the code, on both sides.
  lemma SimSkip<V, W>(sem: MSem<V, W>, u: Unit, live: Live, code: seq<seq<LL>>, st: FState<V, W>, m: Machine<V, W>,
                      snaps: seq<Regs<V>>)
    requires UnitOk(u, live) && IsCode(u, code) && st.Active? && RelActive(u, live, st, m, snaps)
    requires st.i < |u.frames[st.fn].nodes[st.b]|
    requires var i := u.frames[st.fn].nodes[st.b][st.i]; i.PhiReg? || i.DropIter?
    ensures RelActive(u, live, st.(i := st.i + 1), m, snaps)
    ensures FStep(sem, u.frames, st) == st.(i := st.i + 1)
  {
    hide UnitOk, IsCode, StackOk, Saved, Fragile, LiveShape, FrameCode, Pos, EdgesOk, InstsCode;
    InstFacts(u, live, st.fn, st.b, st.i);
    assert InstCode(u, st.fn, u.frames[st.fn].nodes[st.b][st.i]) == [];
    InstAt(u, st.fn, st.b, st.i);
  }

  lemma SimLeft<V, W>(sem: MSem<V, W>, u: Unit, live: Live, code: seq<seq<LL>>, st: FState<V, W>, m: Machine<V, W>,
                      snaps: seq<Regs<V>>)
    requires UnitOk(u, live) && IsCode(u, code) && st.Active? && RelActive(u, live, st, m, snaps)
    requires st.i < |u.frames[st.fn].nodes[st.b]| && u.frames[st.fn].nodes[st.b][st.i].Left?
    ensures FStep(sem, u.frames, st).Active? && MStep(sem, code, m).Going?
    ensures RelActive(u, live, FStep(sem, u.frames, st), MStep(sem, code, m).m, snaps)
  {
    hide UnitOk, IsCode, StackOk, Saved, Fragile, LiveShape, FrameCode, Pos, EdgesOk, InstsCode, FrameOk;
    var fn, b, i := st.fn, st.b, st.i;
    FrameFacts(u, live, code, fn);
    InstFacts(u, live, fn, b, i);
    var ll := u.frames[fn].nodes[b][i].ll;
    assert InstCode(u, fn, u.frames[fn].nodes[b][i]) == [ll];
    InstAt(u, fn, b, i);
    CodeAtIndex(code[fn], m.pc, [ll], 0);
    SameReads(u, live, fn, b, i, st.regs, m.regs, Sources(ll));
    var ra, rb := Plain(sem, ll, st.regs, st.world).0, Plain(sem, ll, m.regs, m.world).0;
    PlainAgrees(sem, ll, st.regs, m.regs, st.world, Reg(Int, 0));
    forall r | Readable(u, live, fn, b, i + 1, r)
      ensures ra(r) == rb(r)
    {
      PlainAgrees(sem, ll, st.regs, m.regs, st.world, r);
    }
  }

  // The caller's half of a call: locals and arguments pushed, control transferred.
  lemma EnterCall<V, W>(sem: MSem<V, W>, u: Unit, code: seq<seq<LL>>, m: Machine<V, W>, locals: seq<Reg>,
                        args: seq<Reg>, g: nat, rest: seq<LL>)
    returns (m': Machine<V, W>)
    requires m.fn < |code| && CodeAt(code[m.fn], m.pc, Pushes(locals) + Pushes(args) + [Call(g)] + rest)
    ensures MRun(sem, code, |Pushes(locals)| + |Pushes(args)| + 1, Going(m)) == Going(m')
    ensures m'.fn == g && m'.pc == 0 && m'.regs == m.regs && m'.world == m.world
    ensures m'.calls == m.calls + [(m.fn, m.pc + |Pushes(locals)| + |Pushes(args)| + 1)]
    ensures forall t :: m'.stacks(t) ==
              m.stacks(t) + Pushed(locals, Read(m.regs, locals), t) + Pushed(args, Read(m.regs, args), t)
  {
    hide CodeAt, MStep, Pushes, Pushed;
    var a, c := |Pushes(locals)|, |Pushes(args)|;
    CodeAtSplit(code[m.fn], m.pc, Pushes(locals) + Pushes(args) + [Call(g)], rest);
    CodeAtSplit(code[m.fn], m.pc, Pushes(locals) + Pushes(args), [Call(g)]);
    CodeAtSplit(code[m.fn], m.pc, Pushes(locals), Pushes(args));
    CodeAtIndex(code[m.fn], m.pc + a + c, [Call(g)], 0);
    var m1 := PushAll(sem, code, m, locals);
    var m2 := PushAll(sem, code, m1, args);
    m' := m2.(fn := g, pc := 0, calls := m2.calls + [(m2.fn, m2.pc + 1)]);
    CallStep(sem, code, m2, g);
    MRunAdd(sem, code, a, c, Going(m));
    MRunAdd(sem, code, a + c, 1, Going(m));
  }

  lemma CallStep<V, W>(sem: MSem<V, W>, code: seq<seq<LL>>, m: Machine<V, W>, g: nat)
    requires m.fn < |code| && m.pc < |code[m.fn]| && code[m.fn][m.pc] == Call(g)
    ensures MRun(sem, code, 1, Going(m)) == Going(m.(fn := g, pc := 0, calls := m.calls + [(m.fn, m.pc + 1)]))
  {
    assert MRun(sem, code, 0, MStep(sem, code, m)) == MStep(sem, code, m);
  }

  // The callee's half: fresh maps, then the arguments popped into the parameters.
  lemma RunPrologue<V, W>(sem: MSem<V, W>, code: seq<seq<LL>>, m: Machine<V, W>, locals: seq<Reg>, params: seq<Reg>,
                          vs: seq<V>, base: Stacks<V>)
    returns (m': Machine<V, W>)
    requires |params| == |vs| && DistinctRegs(params)
    requires m.fn < |code| && CodeAt(code[m.fn], m.pc, Allocs(locals) + Pops(params))
    requires forall t :: m.stacks(t) == base(t) + Pushed(params, vs, t)
    ensures MRun(sem, code, |Allocs(locals) + Pops(params)|, Going(m)) == Going(m')
    ensures m'.fn == m.fn && m'.pc == m.pc + |Allocs(locals) + Pops(params)| && m'.calls == m.calls
    ensures m'.world == AllocAll(sem, locals, m.regs, m.world).1
    ensures Given(params, vs, AllocAll(sem, locals, m.regs, m.world).0, m'.regs)
    ensures forall t :: m'.stacks(t) == base(t)
    ensures FreshMaps(sem, code, m, |Allocs(locals) + Pops(params)|, locals, params, m'.regs)
  {
    hide CodeAt, FreshMaps;
    CodeAtSplit(code[m.fn], m.pc, Allocs(locals), Pops(params));
    var m1 := RunAllocs(sem, code, m, locals);
    m' := PopAll(sem, code, m1, params, vs, base);
    MRunAdd(sem, code, |Allocs(locals)|, |Pops(params)|, Going(m));
    FreshMapsGiven(sem, code, m, |Allocs(locals)|, |Pops(params)|, locals, params, vs, m1.regs, m'.regs);
  }

  lemma PrologueStraight(f: Frame)
    ensures NoJumps(Prologue(f))
  {
    AllocsStraight(f.locals);
    PopsStraight(f.params);
  }

  lemma AllocsStraight(rs: seq<Reg>)
    ensures NoJumps(Allocs(rs))
  {
    if rs != [] {
      AllocsStraight(rs[..|rs| - 1]);
    }
  }

  lemma PopsStraight(rs: seq<Reg>)
    ensures NoJumps(Pops(rs))
  {
    if rs != [] {
      PopsStraight(rs[..|rs| - 1]);
    }
  }

  lemma PushesStraight(rs: seq<Reg>)
    ensures NoJumps(Pushes(rs))
  {
    if rs != [] {
      PushesStraight(rs[..|rs| - 1]);
    }
  }

  lemma InstStraight(u: Unit, live: Live, fn: nat, b: nat, i: nat)
    requires LiveShape(u, live) && InFrame(u, fn, b, i) && i < |u.frames[fn].nodes[b]| && InstOk(u, live, fn, b, i)
    ensures NoJumps(InstCode(u, fn, u.frames[fn].nodes[b][i]))
  {
    var inst := u.frames[fn].nodes[b][i];
    if inst.CallUdf? {
      PushesStraight(u.frames[fn].locals);
      PushesStraight(inst.args);
      PopsStraight(u.frames[fn].locals);
    }
  }

  // One more suspended activation, saved as the machine's registers stand.
  lemma StackGrows<V>(u: Unit, live: Live, stack: seq<Suspended<V>>, snaps: seq<Regs<V>>, calls: seq<(nat, nat)>,
                      fn: nat, s: Suspended<V>, snap: Regs<V>, ret: (nat, nat), g: nat)
    requires LiveShape(u, live) && StackOk(u, live, stack, snaps, calls, fn)
    requires s.fn == fn && SuspOk(u, live, s, snap, ret, g)
    ensures StackOk(u, live, stack + [s], snaps + [snap], calls + [ret], g)
    ensures forall t :: Saved(u, stack + [s], snaps + [snap], t) ==
              Saved(u, stack, snaps, t) + Pushed(u.frames[fn].locals, Read(snap, u.frames[fn].locals), t)
  {
    hide SuspOk, LiveShape;
    var stack1 := stack + [s];
    forall k | 0 <= k < |stack1|
      ensures SuspOk(u, live, stack1[k], (snaps + [snap])[k], (calls + [ret])[k], CalleeOf(stack1, g, k))
    {
      if k < |stack| {
        assert CalleeOf(stack1, g, k) == CalleeOf(stack, fn, k);
      }
    }
    assert stack1[..|stack|] == stack && (snaps + [snap])[..|stack|] == snaps;
    SuspFrame(u, live, s, snap, ret, g);
  }

  lemma SuspFrame<V>(u: Unit, live: Live, s: Suspended<V>, snap: Regs<V>, ret: (nat, nat), g: nat)
    requires LiveShape(u, live) && SuspOk(u, live, s, snap, ret, g)
    ensures s.fn < |u.frames| && WaitsAtCall(u.frames, s.fn, s.b, s.i)
  {
  }

  // From a call to the first instruction of the callee.
  function CallLength(u: Unit, fn: nat, call: FInst): nat
    requires fn < |u.frames| && call.CallUdf? && call.func < |u.frames|
  {
    |Pushes(u.frames[fn].locals)| + |Pushes(call.args)| + 1 + |Prologue(u.frames[call.func])|
  }

  // The machine's side of a call, whatever its registers hold.
  lemma CallRuns<V, W>(sem: MSem<V, W>, u: Unit, live: Live, code: seq<seq<LL>>, m: Machine<V, W>, b: nat, i: nat)
    returns (m': Machine<V, W>)
    requires UnitOk(u, live) && IsCode(u, code) && WaitsAtCall(u.frames, m.fn, b, i) && u.frames[m.fn].called
    requires EdgesOk(u.frames[m.fn]) && m.pc == Pos(u, m.fn, b, i)
    ensures u.frames[m.fn].nodes[b][i].func < |u.frames|
    ensures var call := u.frames[m.fn].nodes[b][i];
            var f, g := u.frames[m.fn], u.frames[call.func];
            && g.called && EdgesOk(g) && |g.nodes| > 0 && |call.args| == |g.params|
            && MRun(sem, code, CallLength(u, m.fn, call), Going(m)) == Going(m')
            && m'.fn == call.func && m'.pc == Pos(u, call.func, 0, 0)
            && m'.calls == m.calls + [(m.fn, ResumeAt(u, m.fn, b, i))]
            && (forall t :: m'.stacks(t) == m.stacks(t) + Pushed(f.locals, Read(m.regs, f.locals), t))
            && m'.world == AllocAll(sem, g.locals, m.regs, m.world).1
            && Given(g.params, Read(m.regs, call.args), AllocAll(sem, g.locals, m.regs, m.world).0, m'.regs)
            && FreshMaps(sem, code, m, CallLength(u, m.fn, call), g.locals, g.params, m'.regs)
  {
    hide UnitOk, IsCode, LiveShape, FrameCode, Pos, EdgesOk, InstsCode, FrameOk, CodeAt, FreshMaps, AllocAll, Pushed,
         Pushes, Pops, Allocs, MStep, NoJumps, DistinctRegs, MovCode, Given;
    var fn := m.fn;
    FrameFacts(u, live, code, fn);
    InstFacts(u, live, fn, b, i);
    InstStraight(u, live, fn, b, i);
    InstAt(u, fn, b, i);
    var f := u.frames[fn];
    var inst := f.nodes[b][i];
    var g, args := inst.func, inst.args;
    FrameFacts(u, live, code, g);
    CallCode(u, fn, inst);
    var m1 := EnterCall(sem, u, code, m, f.locals, args, g, Pops(f.locals) + MovCode(inst.dst, RetIx(u, g)));
    var n1 := |Pushes(f.locals)| + |Pushes(args)| + 1;
    PrologueStraight(u.frames[g]);
    PrologueAt(u, g);
    var vs := Read(m.regs, args);
    forall t
      ensures Pushed(args, vs, t) == Pushed(u.frames[g].params, vs, t)
    {
      PushedSameTypes(args, u.frames[g].params, vs, t);
    }
    var base: Stacks<V> := (t: Ty) => m.stacks(t) + Pushed(f.locals, Read(m.regs, f.locals), t);
    m' := RunPrologue(sem, code, m1, u.frames[g].locals, u.frames[g].params, vs, base);
    MRunAdd(sem, code, n1, |Prologue(u.frames[g])|, Going(m));
    FreshMapsFrom(sem, code, m, n1, m1, |Prologue(u.frames[g])|, u.frames[g].locals, u.frames[g].params, m'.regs);
  }

  // Map locals that no parameter names come out the same, whatever two callers' registers held: in
  // particular, nothing that an earlier call left in them is seen.
  lemma MapsForget<V, W>(sem: MSem<V, W>, u: Unit, live: Live, code: seq<seq<LL>>, m: Machine<V, W>, other: Regs<V>,
                         b: nat, i: nat)
    returns (m1: Machine<V, W>, m2: Machine<V, W>)
    requires UnitOk(u, live) && IsCode(u, code) && WaitsAtCall(u.frames, m.fn, b, i) && u.frames[m.fn].called
    requires EdgesOk(u.frames[m.fn]) && m.pc == Pos(u, m.fn, b, i)
    ensures u.frames[m.fn].nodes[b][i].func < |u.frames|
    ensures var call := u.frames[m.fn].nodes[b][i];
            var g := u.frames[call.func];
            && MRun(sem, code, CallLength(u, m.fn, call), Going(m)) == Going(m1)
            && MRun(sem, code, CallLength(u, m.fn, call), Going(m.(regs := other))) == Going(m2)
            && m1.world == m2.world
            && (forall r <- g.locals | r.ty in MAP_TYPES && r !in g.params :: m1.regs(r) == m2.regs(r))
            && ((forall r <- call.args :: m.regs(r) == other(r)) &&
                (forall r | !(r in g.locals && r.ty in MAP_TYPES && r !in g.params) :: m.regs(r) == other(r)) ==>
                  forall r :: m1.regs(r) == m2.regs(r))
  {
    hide UnitOk, IsCode, LiveShape, Pos, EdgesOk, FreshMaps, AllocAll, Pushed, CallLength;
    m1 := CallRuns(sem, u, live, code, m, b, i);
    m2 := CallRuns(sem, u, live, code, m.(regs := other), b, i);
    var call := u.frames[m.fn].nodes[b][i];
    var g := u.frames[call.func];
    AllocAgrees(sem, g.locals, m.regs, other, m.world, Reg(Int, 0));
    forall r | (r in g.locals && r.ty in MAP_TYPES) || m.regs(r) == other(r)
      ensures AllocAll(sem, g.locals, m.regs, m.world).0(r) == AllocAll(sem, g.locals, other, m.world).0(r)
    {
      AllocAgrees(sem, g.locals, m.regs, other, m.world, r);
    }
    if forall r <- call.args :: m.regs(r) == other(r) {
      assert Read(m.regs, call.args) == Read(other, call.args);
    }
  }

  // A call: from the caller's Call to the first instruction of the callee.
  lemma SimCall<V, W>(sem: MSem<V, W>, u: Unit, live: Live, code: seq<seq<LL>>, st: FState<V, W>, m: Machine<V, W>,
                      snaps: seq<Regs<V>>)
    returns (n: nat, m': Machine<V, W>)
    requires UnitOk(u, live) && IsCode(u, code) && st.Active? && RelActive(u, live, st, m, snaps)
    requires st.i < |u.frames[st.fn].nodes[st.b]| && u.frames[st.fn].nodes[st.b][st.i].CallUdf?
    ensures FStep(sem, u.frames, st).Active? && MRun(sem, code, n, Going(m)) == Going(m') && n > 0
    ensures RelActive(u, live, FStep(sem, u.frames, st), m', snaps + [m.regs])
    ensures Bound(u, u.frames[st.fn].nodes[st.b][st.i], m.regs, m'.regs)
    ensures MapsAfresh(sem, u, code, u.frames[st.fn].nodes[st.b][st.i], m, n, m'.regs)
  {
    hide UnitOk, IsCode, StackOk, Saved, Fragile, LiveShape, FrameCode, Pos, EdgesOk, InstsCode, FrameOk, CodeAt,
         AllocAll, Bind, Pushed, Prologue, FreshMaps;
    hide MStep, DistinctRegs;
    var fn, b, i := st.fn, st.b, st.i;
    FrameFacts(u, live, code, fn);
    InstFacts(u, live, fn, b, i);
    var inst := u.frames[fn].nodes[b][i];
    m' := CallRuns(sem, u, live, code, m, b, i);
    n := CallLength(u, fn, inst);
    SameReads(u, live, fn, b, i, st.regs, m.regs, inst.args);
    var s := Suspended(fn, b, i, st.regs);
    StackGrows(u, live, st.stack, snaps, m.calls, fn, s, m.regs, (fn, ResumeAt(u, fn, b, i)), inst.func);
    CalleeAgrees(sem, u, live, inst.func, st.regs, m.regs, st.world, Read(m.regs, inst.args), m'.regs);
  }

  // The callee's map locals are new maps, unless an argument is bound to them.
  ghost predicate MapsAfresh<V, W>(sem: MSem<V, W>, u: Unit, code: seq<seq<LL>>, call: FInst, m: Machine<V, W>,
                                   n: nat, after: Regs<V>) {
    && call.CallUdf? && call.func < |u.frames|
    && FreshMaps(sem, code, m, n, u.frames[call.func].locals, u.frames[call.func].params, after)
  }

  // The callee's i-th parameter starts as the i-th argument.
  ghost predicate Bound<V>(u: Unit, call: FInst, before: Regs<V>, after: Regs<V>) {
    && call.CallUdf? && call.func < |u.frames| && |call.args| == |u.frames[call.func].params|
    && (forall i | 0 <= i < |call.args| && call.args[i].ty in VALUE_TYPES ::
          after(u.frames[call.func].params[i]) == before(call.args[i]))
  }

  lemma CallCode(u: Unit, fn: nat, inst: FInst)
    requires fn < |u.frames| && inst.CallUdf?
    ensures InstCode(u, fn, inst) ==
            Pushes(u.frames[fn].locals) + Pushes(inst.args) + [Call(inst.func)] +
            (Pops(u.frames[fn].locals) + MovCode(inst.dst, RetIx(u, inst.func)))
  {
  }

  // At a function's entry no phi has run, so the only registers that matter agree.
  lemma CalleeAgrees<V, W>(sem: MSem<V, W>, u: Unit, live: Live, g: nat, ra: Regs<V>, rb: Regs<V>, w: W, vs: seq<V>,
                           rb': Regs<V>)
    requires UnitOk(u, live) && g < |u.frames| && u.frames[g].called && |vs| == |u.frames[g].params|
    requires forall r | !Fragile(u, r) :: ra(r) == rb(r)
    requires Given(u.frames[g].params, vs, AllocAll(sem, u.frames[g].locals, rb, w).0, rb')
    ensures InFrame(u, g, 0, 0)
    ensures AllocAll(sem, u.frames[g].locals, ra, w).1 == AllocAll(sem, u.frames[g].locals, rb, w).1
    ensures AgreeAt(u, live, g, 0, 0, Bind(u.frames[g].params, vs, AllocAll(sem, u.frames[g].locals, ra, w).0), rb')
  {
    assert FrameOk(u, live, g);
    hide UnitOk, Fragile, AllocAll, Bind;
    var f := u.frames[g];
    var ra1 := AllocAll(sem, f.locals, ra, w).0;
    BindGives(f.params, vs, ra1);
    AllocAgrees(sem, f.locals, ra, rb, w, Reg(Int, 0));
    forall r | Readable(u, live, g, 0, 0, r)
      ensures Bind(f.params, vs, ra1)(r) == rb'(r)
    {
      AllocAgrees(sem, f.locals, ra, rb, w, r);
    }
  }

  // ---- Returns ----

  // What a callee leaves: its return register holds the result, the others are as they were.
  ghost predicate LeftBy<V>(before: Regs<V>, after: Regs<V>, r: Reg, ret: nat) {
    && (forall q | q != Reg(r.ty, ret) || !Real(q) :: after(q) == before(q))
    && (Real(Reg(r.ty, ret)) && r.ix != UNUSED ==> after(Reg(r.ty, ret)) == before(r))
  }

  // What a caller gets back: its locals have the values vs, the destination has the result.
  ghost predicate GivenBack<V>(before: Regs<V>, after: Regs<V>, locals: seq<Reg>, vs: seq<V>, dst: Reg, ret: nat)
    requires |locals| == |vs|
  {
    && (forall r | !(Real(dst) && ret != UNUSED && r == dst) ::
          if exists i :: 0 <= i < |locals| && locals[i] == r && r.ty.Stackable()
          then exists i :: 0 <= i < |locals| && locals[i] == r && after(r) == vs[i]
          else after(r) == before(r))
    && (Real(dst) && ret != UNUSED && Reg(dst.ty, ret) !in locals ==> after(dst) == before(Reg(dst.ty, ret)))
  }

  // Restoring the caller: its locals popped, then the result moved into place.
  lemma ResumeCaller<V, W>(sem: MSem<V, W>, code: seq<seq<LL>>, m: Machine<V, W>, locals: seq<Reg>, vs: seq<V>,
                           base: Stacks<V>, dst: Reg, ret: nat)
    returns (m': Machine<V, W>)
    requires |locals| == |vs| && DistinctRegs(locals)
    requires m.fn < |code| && CodeAt(code[m.fn], m.pc, Pops(locals) + MovCode(dst, ret))
    requires forall t :: m.stacks(t) == base(t) + Pushed(locals, vs, t)
    ensures MRun(sem, code, |Pops(locals) + MovCode(dst, ret)|, Going(m)) == Going(m')
    ensures m'.fn == m.fn && m'.pc == m.pc + |Pops(locals) + MovCode(dst, ret)| && m'.calls == m.calls
    ensures m'.world == m.world
    ensures forall t :: m'.stacks(t) == base(t)
    ensures GivenBack(m.regs, m'.regs, locals, vs, dst, ret)
  {
    hide CodeAt, MStep, Pops, Pushed;
    CodeAtSplit(code[m.fn], m.pc, Pops(locals), MovCode(dst, ret));
    var m1 := PopAll(sem, code, m, locals, vs, base);
    MRunAdd(sem, code, |Pops(locals)|, |MovCode(dst, ret)|, Going(m));
    if Real(dst) && ret != UNUSED {
      CodeAtIndex(code[m.fn], m1.pc, MovCode(dst, ret), 0);
      m' := MovStep(sem, code, m1, dst, ret);
    } else {
      m' := m1;
    }
  }

  lemma MovStep<V, W>(sem: MSem<V, W>, code: seq<seq<LL>>, m: Machine<V, W>, dst: Reg,
                      src: nat) returns (m': Machine<V, W>)
    requires m.fn < |code| && m.pc < |code[m.fn]| && code[m.fn][m.pc] == Mov(dst, src) && dst.ty.Stackable()
    ensures MRun(sem, code, 1, Going(m)) == Going(m')
    ensures m' == m.(pc := m.pc + 1, regs := SetReg(m.regs, dst, m.regs(Reg(dst.ty, src))))
  {
    m' := MStep(sem, code, m).m;
    assert MRun(sem, code, 0, MStep(sem, code, m)) == MStep(sem, code, m);
  }

  // The callee's half: the result moved into its return register, control back to the caller.
  lemma LeaveCallee<V, W>(sem: MSem<V, W>, code: seq<seq<LL>>, m: Machine<V, W>, r: Reg, ret: nat)
    returns (m': Machine<V, W>)
    requires m.fn < |code| && CodeAt(code[m.fn], m.pc, MovCode(Reg(r.ty, ret), r.ix) + [Ret]) && m.calls != []
    ensures MRun(sem, code, |MovCode(Reg(r.ty, ret), r.ix)| + 1, Going(m)) == Going(m')
    ensures var top := m.calls[|m.calls| - 1];
            && m'.fn == top.0 && m'.pc == top.1 && m'.calls == m.calls[..|m.calls| - 1] && m'.world == m.world
            && m'.stacks == m.stacks
    ensures LeftBy(m.regs, m'.regs, r, ret)
  {
    hide CodeAt, MStep;
    var mv := MovCode(Reg(r.ty, ret), r.ix);
    CodeAtSplit(code[m.fn], m.pc, mv, [Ret]);
    CodeAtIndex(code[m.fn], m.pc + |mv|, [Ret], 0);
    MRunAdd(sem, code, |mv|, 1, Going(m));
    var m1 := m;
    if mv != [] {
      CodeAtIndex(code[m.fn], m.pc, mv, 0);
      m1 := MovStep(sem, code, m, Reg(r.ty, ret), r.ix);
    }
    m' := RetStep(sem, code, m1);
  }

  lemma RetStep<V, W>(sem: MSem<V, W>, code: seq<seq<LL>>, m: Machine<V, W>) returns (m': Machine<V, W>)
    requires m.fn < |code| && m.pc < |code[m.fn]| && code[m.fn][m.pc] == LL.Ret && m.calls != []
    ensures MRun(sem, code, 1, Going(m)) == Going(m')
    ensures var top := m.calls[|m.calls| - 1];
            m' == m.(fn := top.0, pc := top.1, calls := m.calls[..|m.calls| - 1])
  {
    m' := MStep(sem, code, m).m;
    assert MRun(sem, code, 0, MStep(sem, code, m)) == MStep(sem, code, m);
  }

  // Both halves of a return.
  lemma ReturnRuns<V, W>(sem: MSem<V, W>, code: seq<seq<LL>>, m: Machine<V, W>, r: Reg, ret: nat, locals: seq<Reg>,
                         vs: seq<V>, base: Stacks<V>, dst: Reg)
    returns (n: nat, m1: Machine<V, W>, m': Machine<V, W>)
    requires m.fn < |code| && CodeAt(code[m.fn], m.pc, MovCode(Reg(r.ty, ret), r.ix) + [Ret]) && m.calls != []
    requires var top := m.calls[|m.calls| - 1];
             top.0 < |code| && CodeAt(code[top.0], top.1, Pops(locals) + MovCode(dst, ret))
    requires |locals| == |vs| && DistinctRegs(locals)
    requires forall t :: m.stacks(t) == base(t) + Pushed(locals, vs, t)
    ensures MRun(sem, code, n, Going(m)) == Going(m') && n > 0
    ensures var top := m.calls[|m.calls| - 1];
            && m'.fn == top.0 && m'.pc == top.1 + |Pops(locals) + MovCode(dst, ret)|
            && m'.calls == m.calls[..|m.calls| - 1] && m'.world == m.world
    ensures forall t :: m'.stacks(t) == base(t)
    ensures LeftBy(m.regs, m1.regs, r, ret) && GivenBack(m1.regs, m'.regs, locals, vs, dst, ret)
  {
    hide CodeAt, MRun, Pops, Pushed, DistinctRegs, MovCode, LeftBy, GivenBack;
    m1 := LeaveCallee(sem, code, m, r, ret);
    m' := ResumeCaller(sem, code, m1, locals, vs, base, dst, ret);
    var n1, n2 := |MovCode(Reg(r.ty, ret), r.ix)| + 1, |Pops(locals) + MovCode(dst, ret)|;
    n := n1 + n2;
    MRunAdd(sem, code, n1, n2, Going(m));
  }

  // Returning from the outermost function ends the run.
  lemma SimDone<V, W>(sem: MSem<V, W>, u: Unit, live: Live, code: seq<seq<LL>>, st: FState<V, W>, m: Machine<V, W>,
                      snaps: seq<Regs<V>>)
    returns (n: nat)
    requires UnitOk(u, live) && IsCode(u, code) && st.Active? && RelActive(u, live, st, m, snaps)
    requires st.i < |u.frames[st.fn].nodes[st.b]| && u.frames[st.fn].nodes[st.b][st.i].RetVal? && st.stack == []
    ensures FStep(sem, u.frames, st) == Done(st.world) && MRun(sem, code, n, Going(m)) == Finished(st.world) && n > 0
  {
    hide UnitOk, IsCode, Saved, Fragile, LiveShape, FrameCode, Pos, EdgesOk, InstsCode, FrameOk, CodeAt, MStep;
    var fn, b, i := st.fn, st.b, st.i;
    FrameFacts(u, live, code, fn);
    InstFacts(u, live, fn, b, i);
    InstStraight(u, live, fn, b, i);
    InstAt(u, fn, b, i);
    var r := u.frames[fn].nodes[b][i].r;
    var mv := MovCode(Reg(r.ty, RetIx(u, fn)), r.ix);
    CodeAtSplit(code[fn], m.pc, mv, [Ret]);
    CodeAtIndex(code[fn], m.pc + |mv|, [Ret], 0);
    MRunAdd(sem, code, |mv|, 1, Going(m));
    var m1 := m;
    if mv != [] {
      CodeAtIndex(code[fn], m.pc, mv, 0);
      m1 := MovStep(sem, code, m, Reg(r.ty, RetIx(u, fn)), r.ix);
    }
    FinishStep(sem, code, m1);
    n := |mv| + 1;
  }

  lemma FinishStep<V, W>(sem: MSem<V, W>, code: seq<seq<LL>>, m: Machine<V, W>)
    requires m.fn < |code| && m.pc < |code[m.fn]| && code[m.fn][m.pc] == LL.Ret && m.calls == []
    ensures MRun(sem, code, 1, Going(m)) == Finished(m.world)
  {
    assert MRun(sem, code, 0, MStep(sem, code, m)) == MStep(sem, code, m);
  }

  lemma StackShrinks<V>(u: Unit, live: Live, stack: seq<Suspended<V>>, snaps: seq<Regs<V>>, calls: seq<(nat, nat)>,
                        fn: nat)
    requires LiveShape(u, live) && StackOk(u, live, stack, snaps, calls, fn) && stack != []
    ensures var k := |stack| - 1;
            && SuspOk(u, live, stack[k], snaps[k], calls[k], fn)
            && WaitsAtCall(u.frames, stack[k].fn, stack[k].b, stack[k].i)
            && u.frames[stack[k].fn].called
            && StackOk(u, live, stack[..k], snaps[..k], calls[..k], stack[k].fn)
            && forall t :: Saved(u, stack, snaps, t) == Saved(u, stack[..k], snaps[..k], t) +
                 Pushed(u.frames[stack[k].fn].locals, Read(snaps[k], u.frames[stack[k].fn].locals), t)
  {
    hide LiveShape, SuspOk, Pushed;
    var k := |stack| - 1;
    assert CalleeOf(stack, fn, k) == fn;
    SuspWaits(u, live, stack[k], snaps[k], calls[k], fn);
    forall j | 0 <= j < k
      ensures SuspOk(u, live, stack[..k][j], snaps[..k][j], calls[..k][j], CalleeOf(stack[..k], stack[k].fn, j))
    {
      assert CalleeOf(stack[..k], stack[k].fn, j) == CalleeOf(stack, fn, j);
    }
  }

  lemma SuspWaits<V>(u: Unit, live: Live, s: Suspended<V>, snap: Regs<V>, call: (nat, nat), callee: nat)
    requires LiveShape(u, live) && SuspOk(u, live, s, snap, call, callee)
    ensures WaitsAtCall(u.frames, s.fn, s.b, s.i) && u.frames[s.fn].called
  {
  }

  // The code behind a Call: pops, then the move of the result.
  lemma ResumeCode(u: Unit, live: Live, code: seq<seq<LL>>, fn: nat, b: nat, i: nat)
    requires UnitOk(u, live) && IsCode(u, code) && WaitsAtCall(u.frames, fn, b, i) && u.frames[fn].called
    ensures EdgesOk(u.frames[fn]) && fn < |code|
    ensures var inst := u.frames[fn].nodes[b][i];
            var rest := Pops(u.frames[fn].locals) + MovCode(inst.dst, RetIx(u, inst.func));
            CodeAt(code[fn], ResumeAt(u, fn, b, i), rest) && Pos(u, fn, b, i + 1) == ResumeAt(u, fn, b, i) + |rest|
  {
    hide UnitOk, IsCode, CodeAt, FrameCode, InstsCode, LiveShape, FrameOk, Pops, Pushes;
    FrameFacts(u, live, code, fn);
    InstFacts(u, live, fn, b, i);
    InstStraight(u, live, fn, b, i);
    InstAt(u, fn, b, i);
    var inst := u.frames[fn].nodes[b][i];
    CallCode(u, fn, inst);
    CodeAtSplit(code[fn], Pos(u, fn, b, i), Pushes(u.frames[fn].locals) + Pushes(inst.args) + [Call(inst.func)],
                Pops(u.frames[fn].locals) + MovCode(inst.dst, RetIx(u, inst.func)));
  }

  lemma RetCodeAt(u: Unit, live: Live, code: seq<seq<LL>>, fn: nat, b: nat, i: nat)
    requires UnitOk(u, live) && IsCode(u, code) && InFrame(u, fn, b, i) && i < |u.frames[fn].nodes[b]|
    requires u.frames[fn].called
    requires u.frames[fn].nodes[b][i].RetVal?
    ensures EdgesOk(u.frames[fn]) && fn < |code|
    ensures var r := u.frames[fn].nodes[b][i].r;
            CodeAt(code[fn], Pos(u, fn, b, i), MovCode(Reg(r.ty, RetIx(u, fn)), r.ix) + [Ret])
  {
    hide UnitOk, IsCode, CodeAt, FrameCode, InstsCode, LiveShape, FrameOk;
    FrameFacts(u, live, code, fn);
    InstFacts(u, live, fn, b, i);
    InstStraight(u, live, fn, b, i);
    InstAt(u, fn, b, i);
  }

  // A return: the caller's stacks and locals are back, the destination holds the returned value.
  lemma SimRet<V, W>(sem: MSem<V, W>, u: Unit, live: Live, code: seq<seq<LL>>, st: FState<V, W>, m: Machine<V, W>,
                     snaps: seq<Regs<V>>)
    returns (n: nat, m': Machine<V, W>)
    requires UnitOk(u, live) && IsCode(u, code) && st.Active? && RelActive(u, live, st, m, snaps)
    requires st.i < |u.frames[st.fn].nodes[st.b]| && u.frames[st.fn].nodes[st.b][st.i].RetVal? && st.stack != []
    ensures FStep(sem, u.frames, st).Active? && MRun(sem, code, n, Going(m)) == Going(m') && n > 0
    ensures |snaps| == |st.stack| && RelActive(u, live, FStep(sem, u.frames, st), m', snaps[..|snaps| - 1])
    ensures Resumed(u, st, snaps[|snaps| - 1], m, m')
  {
    hide UnitOk, IsCode, StackOk, Saved, Fragile, LiveShape, FrameCode, Pos, EdgesOk, InstsCode, FrameOk, CodeAt,
         Pushed, Pops, Pushes, MStep, MRun, Deliver, Restore, CalleeOf, NoJumps, DistinctRegs, InstOk, Resumed,
         InstCode, LeftBy, GivenBack, MovCode, AgreeAt, Back, Fits;
    var fn, b, i := st.fn, st.b, st.i;
    FrameFacts(u, live, code, fn);
    RetCodeAt(u, live, code, fn, b, i);
    InstFacts(u, live, fn, b, i);
    StackShrinks(u, live, st.stack, snaps, m.calls, fn);
    StackSizes(u, live, st.stack, snaps, m.calls, fn);
    var k := |st.stack| - 1;
    var s, snap := st.stack[k], snaps[k];
    var call := u.frames[s.fn].nodes[s.b][s.i];
    var locals, r := u.frames[s.fn].locals, u.frames[fn].nodes[b][i].r;
    FrameFacts(u, live, code, s.fn);
    InstFacts(u, live, s.fn, s.b, s.i);
    ResumeCode(u, live, code, s.fn, s.b, s.i);
    var ret := RetIx(u, fn);
    var base: Stacks<V> := (t: Ty) => Saved(u, st.stack[..k], snaps[..k], t);
    var m1;
    n, m1, m' := ReturnRuns(sem, code, m, r, ret, locals, Read(snap, locals), base, call.dst);
    DestinationGets(u, live, st, s);
    ReturnGives(u, st, m, m1, m', s, snap);
    ReturnAgrees(u, live, st, m.regs, m'.regs, s, snap);
  }

  lemma StackSizes<V>(u: Unit, live: Live, stack: seq<Suspended<V>>, snaps: seq<Regs<V>>, calls: seq<(nat, nat)>,
                      fn: nat)
    requires LiveShape(u, live) && StackOk(u, live, stack, snaps, calls, fn)
    ensures |stack| == |snaps| == |calls|
  {
  }

  // What a return does to the machine's registers: every saved local of the caller is what it was
  // at the call, except that the destination holds the returned value.
  ghost predicate Resumed<V, W>(u: Unit, st: FState<V, W>, snap: Regs<V>, m: Machine<V, W>, m': Machine<V, W>)
    requires st.Active? && st.stack != []
  {
    var s := st.stack[|st.stack| - 1];
    && WaitsAtCall(u.frames, s.fn, s.b, s.i) && InFrame(u, st.fn, st.b, st.i)
    && st.i < |u.frames[st.fn].nodes[st.b]| && u.frames[st.fn].nodes[st.b][st.i].RetVal?
    && var dst := u.frames[s.fn].nodes[s.b][s.i].dst;
       && (forall q <- u.frames[s.fn].locals | q.ty in VALUE_TYPES && q != dst :: m'.regs(q) == snap(q))
       && (dst.ty in VALUE_TYPES && dst.ix != 0xFFFF_FFFF ==>
             m'.regs(dst) == m.regs(u.frames[st.fn].nodes[st.b][st.i].r))
  }

  // What a return does to the machine's registers, whatever the frames hold.
  lemma ReturnGives<V, W>(u: Unit, st: FState<V, W>, m: Machine<V, W>, m1: Machine<V, W>, m': Machine<V, W>,
                          s: Suspended<V>, snap: Regs<V>)
    requires st.Active? && st.stack != [] && s == st.stack[|st.stack| - 1]
    requires InFrame(u, st.fn, st.b, st.i) && st.i < |u.frames[st.fn].nodes[st.b]|
    requires u.frames[st.fn].nodes[st.b][st.i].RetVal? && WaitsAtCall(u.frames, s.fn, s.b, s.i) && st.fn < |u.rets|
    requires forall q <- u.frames[s.fn].locals | Real(q) :: q !in u.rets
    requires Fits(u, u.frames[s.fn].nodes[s.b][s.i].dst, u.frames[st.fn].nodes[st.b][st.i].r, st.fn)
    requires LeftBy(m.regs, m1.regs, u.frames[st.fn].nodes[st.b][st.i].r, RetIx(u, st.fn))
    requires GivenBack(m1.regs, m'.regs, u.frames[s.fn].locals, Read(snap, u.frames[s.fn].locals),
                       u.frames[s.fn].nodes[s.b][s.i].dst, RetIx(u, st.fn))
    ensures Resumed(u, st, snap, m, m')
    ensures var dst, r := u.frames[s.fn].nodes[s.b][s.i].dst, u.frames[st.fn].nodes[st.b][st.i].r;
            Back(u.frames[s.fn].locals, snap, m.regs, m'.regs, r, RetIx(u, st.fn), dst)
  {
    hide LeftBy, GivenBack;
    var dst, r := u.frames[s.fn].nodes[s.b][s.i].dst, u.frames[st.fn].nodes[st.b][st.i].r;
    assert u.rets[st.fn] in u.rets;
    BackInCaller(u.frames[s.fn].locals, snap, m.regs, m1.regs, m'.regs, r, RetIx(u, st.fn), dst);
  }

  // Registers behind a return: the destination, what was saved, and all others.
  ghost predicate Back<V>(locals: seq<Reg>, snap: Regs<V>, before: Regs<V>, after: Regs<V>, r: Reg, ret: nat,
                          dst: Reg) {
    && (Real(dst) ==> after(dst) == before(Reg(dst.ty, r.ix)))
    && (forall q | q in locals && q.ty.Stackable() && !(Real(dst) && q == dst) :: after(q) == snap(q))
    && (forall q | !(Real(dst) && q == dst) && (q !in locals || !q.ty.Stackable()) &&
                   (q != Reg(r.ty, ret) || !Real(q)) :: after(q) == before(q))
  }

  lemma ReturnAgrees<V, W>(u: Unit, live: Live, st: FState<V, W>, mr: Regs<V>, mr': Regs<V>, s: Suspended<V>,
                           snap: Regs<V>)
    requires UnitOk(u, live) && st.Active? && InFrame(u, st.fn, st.b, st.i) && st.i < |u.frames[st.fn].nodes[st.b]|
    requires u.frames[st.fn].nodes[st.b][st.i].RetVal? && InstOk(u, live, st.fn, st.b, st.i)
    requires AgreeAt(u, live, st.fn, st.b, st.i, st.regs, mr)
    requires WaitsAtCall(u.frames, s.fn, s.b, s.i) && u.frames[s.fn].called
    requires u.frames[s.fn].nodes[s.b][s.i].func == st.fn
    requires InstOk(u, live, s.fn, s.b, s.i) && AgreeAt(u, live, s.fn, s.b, s.i, s.snap, snap)
    requires var dst, r := u.frames[s.fn].nodes[s.b][s.i].dst, u.frames[st.fn].nodes[st.b][st.i].r;
             Back(u.frames[s.fn].locals, snap, mr, mr', r, RetIx(u, st.fn), dst)
    ensures var dst, r := u.frames[s.fn].nodes[s.b][s.i].dst, u.frames[st.fn].nodes[st.b][st.i].r;
            AgreeAt(u, live, s.fn, s.b, s.i + 1,
                    Deliver(dst, st.regs(Reg(dst.ty, r.ix)), Restore(u.frames[s.fn].locals, s.snap, st.regs)), mr')
  {
    var locals := u.frames[s.fn].locals;
    var dst, r, ret := u.frames[s.fn].nodes[s.b][s.i].dst, u.frames[st.fn].nodes[st.b][st.i].r, RetIx(u, st.fn);
    DestinationGets(u, live, st, s);
    forall q | Readable(u, live, s.fn, s.b, s.i + 1, q)
      ensures Deliver(dst, st.regs(Reg(dst.ty, r.ix)), Restore(locals, s.snap, st.regs))(q) == mr'(q)
    {
      if Real(dst) && q == dst {
      } else if q in locals && q.ty.Stackable() {
        assert Readable(u, live, s.fn, s.b, s.i, q);
      } else {
        NotSaved(u, live, s.fn, s.b, s.i, q);
        RetsFragile(u, st.fn, q);
        assert Readable(u, live, st.fn, st.b, st.i, q);
      }
    }
  }

  // A destination that takes a value has the type of the callee's result register.
  lemma DestinationGets<V, W>(u: Unit, live: Live, st: FState<V, W>, s: Suspended<V>)
    requires UnitOk(u, live) && st.Active? && InFrame(u, st.fn, st.b, st.i) && st.i < |u.frames[st.fn].nodes[st.b]|
    requires u.frames[st.fn].nodes[st.b][st.i].RetVal? && InstOk(u, live, st.fn, st.b, st.i)
    requires WaitsAtCall(u.frames, s.fn, s.b, s.i) && u.frames[s.fn].nodes[s.b][s.i].func == st.fn
    requires InstOk(u, live, s.fn, s.b, s.i)
    ensures var dst, r := u.frames[s.fn].nodes[s.b][s.i].dst, u.frames[st.fn].nodes[st.b][st.i].r;
            st.fn < |u.rets| && Fits(u, dst, r, st.fn)
  {
  }

  ghost predicate Fits(u: Unit, dst: Reg, r: Reg, fn: nat)
    requires fn < |u.rets|
  {
    && dst.ty == r.ty == u.rets[fn].ty
    && (Real(dst) ==> u.rets[fn] == Reg(r.ty, RetIx(u, fn)) && Real(u.rets[fn]) && r.ix != UNUSED)
  }

  lemma BackInCaller<V>(locals: seq<Reg>, snap: Regs<V>, before: Regs<V>, left: Regs<V>, after: Regs<V>, r: Reg,
                        ret: nat, dst: Reg)
    requires LeftBy(before, left, r, ret) && GivenBack(left, after, locals, Read(snap, locals), dst, ret)
    requires dst.ty == r.ty
    requires Real(dst) ==> Real(Reg(r.ty, ret)) && r.ix != UNUSED && Reg(r.ty, ret) !in locals
    ensures Back(locals, snap, before, after, r, ret, dst)
  {
    forall q | q in locals && q.ty.Stackable() && !(Real(dst) && q == dst)
      ensures after(q) == snap(q)
    {
      assert exists i :: 0 <= i < |locals| && locals[i] == q && q.ty.Stackable();
    }
  }

  lemma RetsFragile(u: Unit, fn: nat, q: Reg)
    requires fn < |u.rets| && !Fragile(u, q)
    ensures q != u.rets[fn] || !Real(q)
  {
  }

  // A register that is not saved around calls and may be read after one is not fragile.
  lemma NotSaved(u: Unit, live: Live, fn: nat, b: nat, i: nat, q: Reg)
    requires UnitOk(u, live) && InFrame(u, fn, b, i + 1) && u.frames[fn].called && Readable(u, live, fn, b, i + 1, q)
    requires q !in u.frames[fn].locals || !q.ty.Stackable()
    ensures !Fragile(u, q)
  {
    assert FrameOk(u, live, fn);
    assert !IsPhiDst(u.frames[fn], q);
  }

  // ---- The end of a node ----

  // The moves made one after another have the effect of all of them at once.
  lemma {:induction false} RunMoves<V, W>(sem: MSem<V, W>, code: seq<seq<LL>>, m: Machine<V, W>, ms: seq<LL>, k: nat,
                                          regs0: Regs<V>)
    returns (m': Machine<V, W>)
    requires MovesOrdered(ms) && k <= |ms|
    requires m.fn < |code| && CodeAt(code[m.fn], m.pc, ms[k..])
    requires MovedBy(ms, k, regs0, m.regs)
    ensures MRun(sem, code, |ms| - k, Going(m)) == Going(m')
    ensures m' == m.(pc := m.pc + (|ms| - k), regs := m'.regs)
    ensures MovedBy(ms, |ms|, regs0, m'.regs)
    decreases |ms| - k
  {
    hide MStep;
    if k == |ms| {
      m' := m;
    } else {
      assert ms[k..] == [ms[k]] + ms[k + 1..];
      CodeAtSplit(code[m.fn], m.pc, [ms[k]], ms[k + 1..]);
      CodeAtIndex(code[m.fn], m.pc, [ms[k]], 0);
      var m1 := MovStep(sem, code, m, ms[k].dst, ms[k].src);
      MoveOne(ms, k, regs0, m.regs, m1.regs);
      m' := RunMoves(sem, code, m1, ms, k + 1, regs0);
      MRunAdd(sem, code, 1, |ms| - k - 1, Going(m));
    }
  }

  // After the first k moves: their destinations hold the original contents of their sources.
  ghost predicate MovedBy<V>(ms: seq<LL>, k: nat, regs0: Regs<V>, regs: Regs<V>)
    requires k <= |ms|
  {
    && (forall i | 0 <= i < k && ms[i].Mov? :: regs(ms[i].dst) == regs0(Src(ms[i])))
    && (forall r | (forall i | 0 <= i < k && ms[i].Mov? :: ms[i].dst != r) :: regs(r) == regs0(r))
  }

  lemma MoveOne<V>(ms: seq<LL>, k: nat, regs0: Regs<V>, before: Regs<V>, after: Regs<V>)
    requires MovesOrdered(ms) && k < |ms| && MovedBy(ms, k, regs0, before)
    requires forall r :: after(r) == if r == ms[k].dst then before(Src(ms[k])) else before(r)
    ensures MovedBy(ms, k + 1, regs0, after)
  {
    var src := Src(ms[k]);
    if exists i :: 0 <= i < k && ms[i].dst == src {
      var i :| 0 <= i < k && ms[i].dst == src;
      assert ms[i].dst == Src(ms[i]);
      assert before(src) == regs0(src);
    } else {
      assert before(src) == regs0(src);
    }
    forall i | 0 <= i < k + 1 && ms[i].Mov?
      ensures after(ms[i].dst) == regs0(Src(ms[i]))
    {
    }
  }

  // Instruction j of a node, reached from instruction k through phis only, and itself one.
  predicate PhisTo(node: seq<FInst>, k: nat, j: nat) {
    k <= j < |node| && forall i | k <= i <= j :: node[i].PhiReg?
  }

  predicate Brings(node: seq<FInst>, j: nat, p: nat, r: Reg) {
    j < |node| && PhiMove(node[j], p).Some? && PhiMove(node[j], p).value.0 == r
  }

  // Phi j brings v, which the register it reads held before.
  predicate BringsValue<V(==)>(node: seq<FInst>, k: nat, j: nat, p: nat, r: Reg, regs0: Regs<V>, v: V) {
    PhisTo(node, k, j) && Brings(node, j, p, r) && v == regs0(Reg(r.ty, PhiMove(node[j], p).value.1))
  }

  lemma PhisFirst(node: seq<FInst>, k: nat)
    requires k < |node| && node[k].PhiReg?
    ensures forall j: nat :: PhisTo(node, k, j) <==> j == k || PhisTo(node, k + 1, j)
  {
    forall j: nat
      ensures PhisTo(node, k, j) <==> j == k || PhisTo(node, k + 1, j)
    {
    }
  }

  lemma NoPhis(node: seq<FInst>, k: nat)
    requires k < |node| ==> !node[k].PhiReg?
    ensures forall j: nat :: !PhisTo(node, k, j)
  {
    forall j: nat
      ensures !PhisTo(node, k, j)
    {
      assert k <= j < |node| ==> !node[k].PhiReg?;
    }
  }

  // What parallel entry into a node does to a register.
  lemma {:induction false} EnterNodeIs<V>(node: seq<FInst>, k: nat, p: nat, regs0: Regs<V>, regs: Regs<V>, r: Reg)
    requires k <= |node|
    ensures (forall j: nat | PhisTo(node, k, j) :: !Brings(node, j, p, r)) ==>
              EnterNode(node, k, p, regs0, regs)(r) == regs(r)
    ensures (exists j: nat :: PhisTo(node, k, j) && Brings(node, j, p, r)) ==>
              exists j: nat :: BringsValue(node, k, j, p, r, regs0, EnterNode(node, k, p, regs0, regs)(r))
    decreases |node| - k
  {
    hide PhiMove, PhisTo;
    if k < |node| && node[k].PhiReg? {
      PhisFirst(node, k);
      var mv := PhiMove(node[k], p);
      var regs1: Regs<V> := if mv.Some? then SetReg(regs, mv.value.0, regs0(Reg(mv.value.0.ty, mv.value.1))) else regs;
      EnterNodeIs(node, k + 1, p, regs0, regs1, r);
      var v := EnterNode(node, k + 1, p, regs0, regs1)(r);
      assert EnterNode(node, k, p, regs0, regs)(r) == v;
      if exists j: nat :: PhisTo(node, k + 1, j) && Brings(node, j, p, r) {
        var j: nat :| BringsValue(node, k + 1, j, p, r, regs0, v);
        assert BringsValue(node, k, j, p, r, regs0, v);
      } else if Brings(node, k, p, r) {
        assert v == regs1(r) == regs0(Reg(r.ty, mv.value.1));
        assert BringsValue(node, k, k, p, r, regs0, v);
      }
    } else {
      NoPhis(node, k);
    }
  }

  ghost predicate MoveIn(ms: seq<LL>, dst: Reg, src: nat) {
    exists i :: 0 <= i < |ms| && ms[i] == Mov(dst, src)
  }

  // Some phi from the k-th on moves into this register.
  ghost predicate IntoPhi(node: seq<FInst>, k: nat, m: LL) {
    m.Mov? && exists j: nat :: PhisTo(node, k, j) && node[j].PhiReg? && node[j].dst == m.dst && Real(m.dst)
  }

  ghost predicate HasMove(node: seq<FInst>, j: nat, p: nat, ms: seq<LL>) {
    j < |node| && PhiMove(node[j], p).Some? ==> MoveIn(ms, PhiMove(node[j], p).value.0, PhiMove(node[j], p).value.1)
  }

  // The moves of a node are those of its leading phis.
  lemma {:induction false} PhiMovesAre(node: seq<FInst>, k: nat, p: nat)
    requires k <= |node|
    ensures forall i | 0 <= i < |PhiMoves(node, k, p)| :: IntoPhi(node, k, PhiMoves(node, k, p)[i])
    ensures forall j: nat | PhisTo(node, k, j) :: HasMove(node, j, p, PhiMoves(node, k, p))
    decreases |node| - k
  {
    hide PhiMove, PhisTo, IntoPhi, HasMove;
    if k < |node| && node[k].PhiReg? {
      PhiMovesAre(node, k + 1, p);
      PhisFirst(node, k);
      var mv := PhiMove(node[k], p);
      var head := if mv.Some? then [Mov(mv.value.0, mv.value.1)] else [];
      var tail, ms := PhiMoves(node, k + 1, p), PhiMoves(node, k, p);
      assert ms == head + tail;
      forall i | 0 <= i < |ms|
        ensures IntoPhi(node, k, ms[i])
      {
        if i < |head| {
          HeadInto(node, k, p, ms[i]);
        } else {
          assert ms[i] == tail[i - |head|];
          StillInto(node, k, tail[i - |head|]);
        }
      }
      HeadHas(node, k, p, head);
      forall j: nat | PhisTo(node, k, j)
        ensures HasMove(node, j, p, ms)
      {
        StillHas(node, j, p, head, tail);
      }
    } else {
      NoPhis(node, k);
    }
  }

  lemma HeadInto(node: seq<FInst>, k: nat, p: nat, m: LL)
    requires k < |node| && node[k].PhiReg? && PhiMove(node[k], p).Some?
    requires m == Mov(PhiMove(node[k], p).value.0, PhiMove(node[k], p).value.1)
    ensures IntoPhi(node, k, m)
  {
    assert PhisTo(node, k, k);
  }

  lemma StillInto(node: seq<FInst>, k: nat, m: LL)
    requires k < |node| && node[k].PhiReg? && IntoPhi(node, k + 1, m)
    ensures IntoPhi(node, k, m)
  {
    PhisFirst(node, k);
    hide PhisTo;
    var j: nat :| PhisTo(node, k + 1, j) && node[j].PhiReg? && node[j].dst == m.dst && Real(m.dst);
    assert PhisTo(node, k, j);
  }

  lemma HeadHas(node: seq<FInst>, k: nat, p: nat, head: seq<LL>)
    requires k < |node|
    requires head == var mv := PhiMove(node[k], p); if mv.Some? then [Mov(mv.value.0, mv.value.1)] else []
    ensures HasMove(node, k, p, head)
  {
    hide PhiMove;
    assert head != [] ==> head[0] == Mov(PhiMove(node[k], p).value.0, PhiMove(node[k], p).value.1);
  }

  lemma StillHas(node: seq<FInst>, j: nat, p: nat, head: seq<LL>, tail: seq<LL>)
    requires HasMove(node, j, p, head) || HasMove(node, j, p, tail)
    ensures HasMove(node, j, p, head + tail)
  {
    hide PhiMove;
    forall dst, src
      ensures MoveIn(head, dst, src) || MoveIn(tail, dst, src) ==> MoveIn(head + tail, dst, src)
    {
      MoveInEither(head, tail, dst, src);
    }
  }

  lemma MoveInEither(head: seq<LL>, tail: seq<LL>, dst: Reg, src: nat)
    ensures MoveIn(head, dst, src) || MoveIn(tail, dst, src) ==> MoveIn(head + tail, dst, src)
  {
    if MoveIn(head, dst, src) {
      var i :| 0 <= i < |head| && head[i] == Mov(dst, src);
      assert (head + tail)[i] == Mov(dst, src);
    } else if MoveIn(tail, dst, src) {
      var i :| 0 <= i < |tail| && tail[i] == Mov(dst, src);
      assert (head + tail)[|head| + i] == Mov(dst, src);
    }
  }

  lemma LeadingIs(node: seq<FInst>)
    ensures forall j: nat :: LeadingPhi(node, j) <==> PhisTo(node, 0, j)
  {
  }

  // The phis at the end of edge e have their moves among these.
  ghost predicate EdgeHasMoves(f: Frame, b: nat, e: nat, ms: seq<LL>) {
    e < |f.edges| && f.edges[e].dst < |f.nodes| ==>
      forall k: nat | LeadingPhi(f.nodes[f.edges[e].dst], k) :: HasMove(f.nodes[f.edges[e].dst], k, b, ms)
  }

  lemma {:induction false} AllMovesAre(f: Frame, b: nat, es: seq<nat>)
    ensures forall i | 0 <= i < |AllMoves(f, b, es)| ::
               AllMoves(f, b, es)[i].Mov? && IsPhiDst(f, AllMoves(f, b, es)[i].dst)
    ensures forall e | e in es :: EdgeHasMoves(f, b, e, AllMoves(f, b, es))
  {
    hide PhiMoves, PhiMove, IsPhiDst, EdgeHasMoves;
    if es != [] {
      AllMovesAre(f, b, es[1..]);
      var head := if es[0] < |f.edges| && f.edges[es[0]].dst < |f.nodes|
                  then PhiMoves(f.nodes[f.edges[es[0]].dst], 0, b) else [];
      var tail, ms := AllMoves(f, b, es[1..]), AllMoves(f, b, es);
      assert ms == head + tail;
      HeadMoves(f, b, es[0], head);
      forall i | 0 <= i < |ms|
        ensures ms[i].Mov? && IsPhiDst(f, ms[i].dst)
      {
        assert ms[i] == if i < |head| then head[i] else tail[i - |head|];
      }
      forall e | e in es
        ensures EdgeHasMoves(f, b, e, ms)
      {
        assert e == es[0] || e in es[1..];
        MoreMoves(f, b, e, head, tail);
      }
    }
  }

  lemma HeadMoves(f: Frame, b: nat, e: nat, head: seq<LL>)
    requires head == if e < |f.edges| && f.edges[e].dst < |f.nodes| then PhiMoves(f.nodes[f.edges[e].dst], 0, b) else []
    ensures forall i | 0 <= i < |head| :: head[i].Mov? && IsPhiDst(f, head[i].dst)
    ensures EdgeHasMoves(f, b, e, head)
  {
    hide PhiMoves, PhiMove, HasMove, LeadingPhi;
    if e < |f.edges| && f.edges[e].dst < |f.nodes| {
      var node := f.nodes[f.edges[e].dst];
      PhiMovesAre(node, 0, b);
      LeadingIs(node);
      forall i | 0 <= i < |head|
        ensures head[i].Mov? && IsPhiDst(f, head[i].dst)
      {
        assert IntoPhi(node, 0, head[i]);
        var j: nat :| PhisTo(node, 0, j) && node[j].PhiReg? && node[j].dst == head[i].dst && Real(head[i].dst);
        assert LeadingPhi(f.nodes[f.edges[e].dst], j);
      }
    }
  }

  lemma MoreMoves(f: Frame, b: nat, e: nat, head: seq<LL>, tail: seq<LL>)
    requires EdgeHasMoves(f, b, e, head) || EdgeHasMoves(f, b, e, tail)
    ensures EdgeHasMoves(f, b, e, head + tail)
  {
    hide HasMove, LeadingPhi;
    if e < |f.edges| && f.edges[e].dst < |f.nodes| {
      forall k: nat | LeadingPhi(f.nodes[f.edges[e].dst], k)
        ensures HasMove(f.nodes[f.edges[e].dst], k, b, head + tail)
      {
        StillHas(f.nodes[f.edges[e].dst], k, b, head, tail);
      }
    }
  }

  lemma EndFacts(u: Unit, live: Live, fn: nat, b: nat)
    requires UnitOk(u, live) && fn < |u.frames| && b < |u.frames[fn].nodes| && u.frames[fn].called
    ensures EdgesOk(u.frames[fn]) && NodeOk(u, live, fn, b) && MovesOrdered(MovesOf(u.frames[fn], b))
    ensures forall e | 0 <= e < |u.frames[fn].edges| :: EdgeOk(u, live, fn, e)
    ensures NoJumps(MovesOf(u.frames[fn], b))
  {
    assert FrameOk(u, live, fn);
    assert NodeOk(u, live, fn, b);
  }

  // Whatever may be read in the target node agrees after the moves.
  lemma EntryAgrees<V>(u: Unit, live: Live, fn: nat, b: nat, e: nat, ra: Regs<V>, rb: Regs<V>, rb': Regs<V>)
    requires UnitOk(u, live) && fn < |u.frames| && b < |u.frames[fn].nodes| && u.frames[fn].called
    requires e < |u.frames[fn].edges| && u.frames[fn].edges[e].src == b && EdgesOk(u.frames[fn])
    requires AgreeAt(u, live, fn, b, |u.frames[fn].nodes[b]|, ra, rb)
    requires MovedBy(MovesOf(u.frames[fn], b), |MovesOf(u.frames[fn], b)|, rb, rb')
    ensures var d := u.frames[fn].edges[e].dst;
            InFrame(u, fn, d, 0) && AgreeAt(u, live, fn, d, 0, EnterNode(u.frames[fn].nodes[d], 0, b, ra, ra), rb')
  {
    EndFacts(u, live, fn, b);
    assert EdgeOk(u, live, fn, e);
    var f := u.frames[fn];
    var d, ms, last := f.edges[e].dst, MovesOf(f, b), |f.nodes[b]|;
    var es := OutOf(f.edges, b, |f.edges|);
    assert e in es;
    AllMovesAre(f, b, es);
    hide UnitOk, MovesOf, OutOf, EnterNode, LiveShape;
    forall r | Readable(u, live, fn, d, 0, r)
      ensures EnterNode(f.nodes[d], 0, b, ra, ra)(r) == rb'(r)
    {
      EntryOf(u, live, fn, b, e, ra, rb, rb', ms, r);
    }
  }

  lemma EntryOf<V>(u: Unit, live: Live, fn: nat, b: nat, e: nat, ra: Regs<V>, rb: Regs<V>, rb': Regs<V>, ms: seq<LL>,
                   r: Reg)
    requires LiveShape(u, live) && fn < |u.frames| && u.frames[fn].called && b < |u.frames[fn].nodes|
    requires EdgesOk(u.frames[fn])
    requires e < |u.frames[fn].edges| && u.frames[fn].edges[e].src == b && ms == MovesOf(u.frames[fn], b)
    requires EdgeOk(u, live, fn, e) && Readable(u, live, fn, u.frames[fn].edges[e].dst, 0, r)
    requires AgreeAt(u, live, fn, b, |u.frames[fn].nodes[b]|, ra, rb) && MovedBy(ms, |ms|, rb, rb')
    requires forall i | 0 <= i < |ms| :: ms[i].Mov? && IsPhiDst(u.frames[fn], ms[i].dst)
    requires forall i | 0 <= i < |ms| && ms[i].Mov? :: Readable(u, live, fn, b, |u.frames[fn].nodes[b]|, Src(ms[i]))
    requires EdgeHasMoves(u.frames[fn], b, e, ms)
    ensures EnterNode(u.frames[fn].nodes[u.frames[fn].edges[e].dst], 0, b, ra, ra)(r) == rb'(r)
  {
    var f := u.frames[fn];
    var d, last := f.edges[e].dst, |f.nodes[b]|;
    var node := f.nodes[d];
    EnterNodeIs(node, 0, b, ra, ra, r);
    LeadingIs(node);
    if PhiBrings(f, b, d, r) {
      PhiIsBrought(f, b, d, r);
      var j: nat :| BringsValue(node, 0, j, b, r, ra, EnterNode(node, 0, b, ra, ra)(r));
      var src := PhiMove(node[j], b).value.1;
      assert LeadingPhi(node, j) && HasMove(node, j, b, ms);
      var i :| 0 <= i < |ms| && ms[i] == Mov(r, src);
      assert Src(ms[i]) == Reg(r.ty, src);
    } else {
      NotBrought(f, b, d, r);
      StaysPut(u, live, fn, b, ms, rb, rb', r);
      assert Readable(u, live, fn, b, last, r);
    }
  }

  lemma PhiIsBrought(f: Frame, p: nat, d: nat, r: Reg)
    requires d < |f.nodes| && PhiBrings(f, p, d, r)
    ensures exists j: nat :: PhisTo(f.nodes[d], 0, j) && Brings(f.nodes[d], j, p, r)
  {
    hide PhiMove;
    LeadingIs(f.nodes[d]);
    var k: nat :| LeadingPhi(f.nodes[d], k) && PhiMove(f.nodes[d][k], p).Some? &&
                  PhiMove(f.nodes[d][k], p).value.0 == r;
    assert PhisTo(f.nodes[d], 0, k) && Brings(f.nodes[d], k, p, r);
  }

  lemma NotBrought(f: Frame, p: nat, d: nat, r: Reg)
    requires d < |f.nodes| && !PhiBrings(f, p, d, r)
    ensures forall j: nat | PhisTo(f.nodes[d], 0, j) :: !Brings(f.nodes[d], j, p, r)
  {
    hide PhiMove;
    LeadingIs(f.nodes[d]);
  }

  // A register that is not fragile, or that no move changes, keeps its contents.
  lemma StaysPut<V>(u: Unit, live: Live, fn: nat, b: nat, ms: seq<LL>, rb: Regs<V>, rb': Regs<V>, r: Reg)
    requires fn < |u.frames| && u.frames[fn].called && MovedBy(ms, |ms|, rb, rb')
    requires forall i | 0 <= i < |ms| :: ms[i].Mov? && IsPhiDst(u.frames[fn], ms[i].dst)
    requires !Fragile(u, r) || Unmoved(ms, r)
    ensures rb'(r) == rb(r)
  {
    if exists i :: 0 <= i < |ms| && ms[i].Mov? && ms[i].dst == r {
      var i :| 0 <= i < |ms| && ms[i].Mov? && ms[i].dst == r;
      assert IsPhiDst(u.frames[fn], r);
      assert Src(ms[i]) == r;
    }
  }

  // Every condition tested reads the same on both sides.
  ghost predicate CondsAgree<V>(f: Frame, b: nat, ra: Regs<V>, rb: Regs<V>) {
    forall e | 0 <= e < |f.edges| && f.edges[e].src == b && f.edges[e].cond.Some? ::
      ra(Reg(Int, f.edges[e].cond.value)) == rb(Reg(Int, f.edges[e].cond.value))
  }

  // Edge l is the `else` of node b, behind all its conditional edges.
  ghost predicate IsElse(f: Frame, b: nat, l: nat) {
    && l < |f.edges| && f.edges[l].src == b && f.edges[l].cond.None?
    && (forall k | 0 <= k < |f.edges| && f.edges[k].src == b && k != l :: k < l && f.edges[k].cond.Some?)
  }

  lemma ElseHead(u: Unit, code: seq<LL>, fn: nat, pc: nat, d: nat)
    requires fn < |u.frames| && EdgesOk(u.frames[fn]) && d < |u.frames[fn].nodes|
    requires CodeAt(code, pc, ResolveAll(u, fn, [Jmp(d)]))
    ensures pc < |code| && code[pc] == Jmp(Start(u, fn, d))
  {
    CodeAtIndex(code, pc, ResolveAll(u, fn, [Jmp(d)]), 0);
  }

  // The branches from edge e on lead to the node the frame chooses; the last one is an `else`.
  lemma {:induction false} RunJumps<V, W>(sem: MSem<V, W>, u: Unit, code: seq<seq<LL>>, m: Machine<V, W>, b: nat,
                                          e: nat, l: nat, ra: Regs<V>)
    returns (n: nat, m': Machine<V, W>)
    requires m.fn < |u.frames| && m.fn < |code| && EdgesOk(u.frames[m.fn]) && b < |u.frames[m.fn].nodes|
    requires e <= l && IsElse(u.frames[m.fn], b, l)
    requires CodeAt(code[m.fn], m.pc, ResolveAll(u, m.fn, Jumps(u.frames[m.fn], b, e)))
    requires m.pc + |Jumps(u.frames[m.fn], b, e)| == Start(u, m.fn, b + 1)
    requires CondsAgree(u.frames[m.fn], b, ra, m.regs)
    ensures l < |u.frames[m.fn].edges| && Choose(sem, u.frames[m.fn].edges, b, e, ra).Some?
    ensures var d := u.frames[m.fn].edges[Choose(sem, u.frames[m.fn].edges, b, e, ra).value].dst;
            d < |u.frames[m.fn].nodes| && MRun(sem, code, n, Going(m)) == Going(m') && m' == m.(pc := Start(u, m.fn, d))
    ensures n == 0 ==> u.frames[m.fn].edges[Choose(sem, u.frames[m.fn].edges, b, e, ra).value].dst == b + 1
    decreases l - e
  {
    hide MStep, CodeAt, EdgesOk, Start, IsElse, MRun, CondsAgree, Resolve;
    var f := u.frames[m.fn];
    ElseFacts(f, b, l, e);
    EdgeTarget(f, e);
    EdgeTarget(f, l);
    if f.edges[e].src != b {
      assert Jumps(f, b, e) == Jumps(f, b, e + 1);
      n, m' := RunJumps(sem, u, code, m, b, e + 1, l, ra);
    } else if e < l {
      var d, r := f.edges[e].dst, f.edges[e].cond.value;
      JumpHead(u, code[m.fn], m.fn, m.pc, b, e);
      var m1 := JumpIfStep(sem, code, m, r, Start(u, m.fn, d));
      CondHere(f, b, e, ra, m.regs);
      if sem.nonzero(ra(Reg(Int, r))) {
        n, m' := 1, m1;
      } else {
        var n1;
        n1, m' := RunJumps(sem, u, code, m1, b, e + 1, l, ra);
        n := 1 + n1;
        MRunAdd(sem, code, 1, n1, Going(m));
      }
    } else {
      ElseLast(f, b, l);
      var d := f.edges[l].dst;
      if d != b + 1 {
        ElseHead(u, code[m.fn], m.fn, m.pc, d);
        n := 1;
        m' := JumpStep(sem, code, m, Start(u, m.fn, d));
      } else {
        n, m' := 0, m;
        NoSteps(sem, code, m);
      }
    }
  }

  lemma NoSteps<V, W>(sem: MSem<V, W>, code: seq<seq<LL>>, m: Machine<V, W>)
    ensures MRun(sem, code, 0, Going(m)) == Going(m)
  {
  }

  lemma ElseFacts(f: Frame, b: nat, l: nat, e: nat)
    requires IsElse(f, b, l) && e <= l
    ensures e < |f.edges| && l < |f.edges| && f.edges[l].src == b
    ensures f.edges[e].src == b ==> (f.edges[e].cond.Some? <==> e != l)
  {
  }

  lemma CondHere<V>(f: Frame, b: nat, e: nat, ra: Regs<V>, rb: Regs<V>)
    requires CondsAgree(f, b, ra, rb) && e < |f.edges| && f.edges[e].src == b && f.edges[e].cond.Some?
    ensures ra(Reg(Int, f.edges[e].cond.value)) == rb(Reg(Int, f.edges[e].cond.value))
  {
  }

  // A conditional branch heads the rest of the branches.
  lemma JumpHead(u: Unit, code: seq<LL>, fn: nat, pc: nat, b: nat, e: nat)
    requires fn < |u.frames| && EdgesOk(u.frames[fn]) && e < |u.frames[fn].edges|
    requires u.frames[fn].edges[e].src == b && u.frames[fn].edges[e].cond.Some?
    requires CodeAt(code, pc, ResolveAll(u, fn, Jumps(u.frames[fn], b, e)))
    ensures pc < |code| && code[pc] == JmpIf(u.frames[fn].edges[e].cond.value, Start(u, fn, u.frames[fn].edges[e].dst))
    ensures CodeAt(code, pc + 1, ResolveAll(u, fn, Jumps(u.frames[fn], b, e + 1)))
    ensures |Jumps(u.frames[fn], b, e)| == 1 + |Jumps(u.frames[fn], b, e + 1)|
  {
    hide CodeAt, Start;
    var f := u.frames[fn];
    EdgeTarget(f, e);
    var head, tail := [JmpIf(f.edges[e].cond.value, f.edges[e].dst)], Jumps(f, b, e + 1);
    assert Jumps(f, b, e) == head + tail;
    ResolveCat(u, fn, head, tail);
    CodeAtSplit(code, pc, ResolveAll(u, fn, head), ResolveAll(u, fn, tail));
    CodeAtIndex(code, pc, ResolveAll(u, fn, head), 0);
  }

  lemma ResolveCat(u: Unit, fn: nat, a: seq<LL>, b: seq<LL>)
    requires fn < |u.frames| && EdgesOk(u.frames[fn])
    ensures ResolveAll(u, fn, a + b) == ResolveAll(u, fn, a) + ResolveAll(u, fn, b)
  {
    hide Start, EdgesOk;
  }

  // Behind the `else` there is nothing.
  lemma {:induction false} ElseLast(f: Frame, b: nat, l: nat)
    requires IsElse(f, b, l)
    ensures Jumps(f, b, l) == if f.edges[l].dst != b + 1 then [Jmp(f.edges[l].dst)] else []
  {
    NoMoreJumps(f, b, l + 1);
  }

  lemma {:induction false} NoMoreJumps(f: Frame, b: nat, e: nat)
    requires e <= |f.edges| && forall k | e <= k < |f.edges| :: f.edges[k].src != b
    ensures Jumps(f, b, e) == []
    decreases |f.edges| - e
  {
    if e < |f.edges| {
      NoMoreJumps(f, b, e + 1);
    }
  }

  lemma JumpIfStep<V, W>(sem: MSem<V, W>, code: seq<seq<LL>>, m: Machine<V, W>, r: nat,
                         lbl: nat) returns (m': Machine<V, W>)
    requires m.fn < |code| && m.pc < |code[m.fn]| && code[m.fn][m.pc] == JmpIf(r, lbl)
    ensures MRun(sem, code, 1, Going(m)) == Going(m')
    ensures m' == m.(pc := if sem.nonzero(m.regs(Reg(Int, r))) then lbl else m.pc + 1)
  {
    m' := MStep(sem, code, m).m;
    assert MRun(sem, code, 0, MStep(sem, code, m)) == MStep(sem, code, m);
  }

  lemma JumpStep<V, W>(sem: MSem<V, W>, code: seq<seq<LL>>, m: Machine<V, W>, lbl: nat) returns (m': Machine<V, W>)
    requires m.fn < |code| && m.pc < |code[m.fn]| && code[m.fn][m.pc] == Jmp(lbl)
    ensures MRun(sem, code, 1, Going(m)) == Going(m') && m' == m.(pc := lbl)
  {
    m' := MStep(sem, code, m).m;
    assert MRun(sem, code, 0, MStep(sem, code, m)) == MStep(sem, code, m);
  }

  // The end of a node: moves for every successor, then the branch.
  lemma SimEnd<V, W>(sem: MSem<V, W>, u: Unit, live: Live, code: seq<seq<LL>>, st: FState<V, W>, m: Machine<V, W>,
                     snaps: seq<Regs<V>>)
    returns (n: nat, m': Machine<V, W>)
    requires UnitOk(u, live) && IsCode(u, code) && st.Active? && RelActive(u, live, st, m, snaps)
    requires st.i == |u.frames[st.fn].nodes[st.b]|
    requires !EndsInRet(u.frames[st.fn], st.b)
    ensures FStep(sem, u.frames, st).Active? && MRun(sem, code, n, Going(m)) == Going(m')
    ensures RelActive(u, live, FStep(sem, u.frames, st), m', snaps)
    ensures n == 0 ==> FStep(sem, u.frames, st).b == st.b + 1
  {
    hide UnitOk, IsCode, StackOk, Saved, Fragile, LiveShape, FrameCode, InstsCode, FrameOk, CodeAt, MStep, EdgesOk,
         NodeOk, EdgeOk, MovesOrdered, MovedBy, AllMoves, Jumps, EnterNode, OutOf;
    var fn, b := st.fn, st.b;
    var f := u.frames[fn];
    FrameFacts(u, live, code, fn);
    EndFacts(u, live, fn, b);
    TailAt(u, fn, b);
    var ms := MovesOf(f, b);
    ResolveStraight(u, fn, ms);
    var l := LastEdge(u, live, fn, b);
    assert ms[0..] == ms;
    NothingMoved(ms, m.regs);
    var m1 := RunMoves(sem, code, m, ms, 0, m.regs);
    CondsStay(u, live, fn, b, st.regs, m.regs, m1.regs);
    var n1;
    n1, m' := RunJumps(sem, u, code, m1, b, 0, l, st.regs);
    n := |ms| + n1;
    MRunAdd(sem, code, |ms|, n1, Going(m));
    var e := Choose(sem, f.edges, b, 0, st.regs).value;
    EdgeTarget(f, e);
    EntryAgrees(u, live, fn, b, e, st.regs, m.regs, m'.regs);
    NodeStart(u, fn, f.edges[e].dst);
  }

  predicate EndsInRet(f: Frame, b: nat)
    requires b < |f.nodes|
  {
    |f.nodes[b]| > 0 && f.nodes[b][|f.nodes[b]| - 1].RetVal?
  }

  lemma EdgeTarget(f: Frame, e: nat)
    requires EdgesOk(f) && e < |f.edges|
    ensures f.edges[e].src < |f.nodes| && f.edges[e].dst < |f.nodes|
  {
  }

  lemma NothingMoved<V>(ms: seq<LL>, regs: Regs<V>)
    ensures MovedBy(ms, 0, regs, regs)
  {
  }

  lemma ResolveStraight(u: Unit, fn: nat, piece: seq<LL>)
    requires fn < |u.frames| && EdgesOk(u.frames[fn]) && NoJumps(piece)
    ensures ResolveAll(u, fn, piece) == piece
  {
  }

  lemma NodeStart(u: Unit, fn: nat, d: nat)
    requires fn < |u.frames| && EdgesOk(u.frames[fn]) && d < |u.frames[fn].nodes|
    ensures Pos(u, fn, d, 0) == Start(u, fn, d)
  {
    assert u.frames[fn].nodes[d][..0] == [];
  }

  lemma LastEdge(u: Unit, live: Live, fn: nat, b: nat) returns (l: nat)
    requires LiveShape(u, live) && fn < |u.frames| && b < |u.frames[fn].nodes| && NodeOk(u, live, fn, b)
    requires !EndsInRet(u.frames[fn], b)
    ensures IsElse(u.frames[fn], b, l)
  {
    var f := u.frames[fn];
    l :| 0 <= l < |f.edges| && f.edges[l].src == b && f.edges[l].cond.None? &&
      forall e | 0 <= e < |f.edges| && f.edges[e].src == b && e != l :: e < l && f.edges[e].cond.Some?;
  }

  lemma CondsStay<V>(u: Unit, live: Live, fn: nat, b: nat, ra: Regs<V>, rb: Regs<V>, rb': Regs<V>)
    requires UnitOk(u, live) && fn < |u.frames| && b < |u.frames[fn].nodes| && u.frames[fn].called
    requires AgreeAt(u, live, fn, b, |u.frames[fn].nodes[b]|, ra, rb)
    requires MovedBy(MovesOf(u.frames[fn], b), |MovesOf(u.frames[fn], b)|, rb, rb')
    ensures CondsAgree(u.frames[fn], b, ra, rb')
  {
    EndFacts(u, live, fn, b);
    var f := u.frames[fn];
    var ms := MovesOf(f, b);
    AllMovesAre(f, b, OutOf(f.edges, b, |f.edges|));
    forall e | 0 <= e < |f.edges| && f.edges[e].src == b && f.edges[e].cond.Some?
      ensures ra(Reg(Int, f.edges[e].cond.value)) == rb'(Reg(Int, f.edges[e].cond.value))
    {
      assert EdgeOk(u, live, fn, e);
      StaysPut(u, live, fn, b, ms, rb, rb', Reg(Int, f.edges[e].cond.value));
    }
  }
}
