// Whole runs of the bytecode against whole runs of the frames.
module Simulation {
  import opened Bytecode
  import opened Frames
  import opened Layout
  import opened FrameRules
  import opened CallSim

  // A frame state does not stand behind a return.
  ghost predicate NotPast<V, W>(u: Unit, st: FState<V, W>)
    requires st.Active? && InFrame(u, st.fn, st.b, st.i)
  {
    st.i == |u.frames[st.fn].nodes[st.b]| ==> !EndsInRet(u.frames[st.fn], st.b)
  }

  ghost predicate Matches<V, W>(u: Unit, live: Live, st: FState<V, W>, o: Outcome<V, W>, snaps: seq<Regs<V>>) {
    && LiveShape(u, live) && Rel(u, live, st, o, snaps)
    && (st.Active? ==> NotPast(u, st))
  }

  predicate AtCall<V, W>(u: Unit, st: FState<V, W>) {
    st.Active? && WaitsAtCall(u.frames, st.fn, st.b, st.i)
  }

  predicate AtRet<V, W>(u: Unit, st: FState<V, W>) {
    && st.Active? && InFrame(u, st.fn, st.b, st.i) && st.i < |u.frames[st.fn].nodes[st.b]|
    && u.frames[st.fn].nodes[st.b][st.i].RetVal?
  }

  // How the saved register files change with one step.
  ghost predicate SnapsStep<V, W>(u: Unit, st: FState<V, W>, st': FState<V, W>, m: Machine<V, W>, o: Outcome<V, W>,
                                  snaps: seq<Regs<V>>, snaps': seq<Regs<V>>)
    requires st.Active?
  {
    if AtCall(u, st) then
      snaps' == snaps + [m.regs] && o.Going? && Bound(u, u.frames[st.fn].nodes[st.b][st.i], m.regs, o.m.regs)
    else if AtRet(u, st) && st.stack != [] then
      |snaps| == |st.stack| && snaps' == snaps[..|snaps| - 1] && o.Going? && Resumed(u, st, snaps[|snaps| - 1], m, o.m)
    else snaps' == snaps
  }

  // One frame step, some machine steps.
  lemma SimStep<V, W>(sem: MSem<V, W>, u: Unit, live: Live, code: seq<seq<LL>>, st: FState<V, W>, m: Machine<V, W>,
                      snaps: seq<Regs<V>>)
    returns (n: nat, o: Outcome<V, W>, snaps': seq<Regs<V>>)
    requires UnitOk(u, live) && IsCode(u, code) && st.Active? && Matches(u, live, st, Going(m), snaps)
    ensures MRun(sem, code, n, Going(m)) == o && Matches(u, live, FStep(sem, u.frames, st), o, snaps')
    ensures SnapsStep(u, st, FStep(sem, u.frames, st), m, o, snaps, snaps')
    ensures n == 0 ==> FStep(sem, u.frames, st).Active? && Further(st, FStep(sem, u.frames, st))
    ensures AtCall(u, st) ==> o.Going? && MapsAfresh(sem, u, code, u.frames[st.fn].nodes[st.b][st.i], m, n, o.m.regs)
  {
    hide UnitOk, IsCode, StackOk, Saved, AgreeAt, LiveShape, MStep, MRun, Pos, EnterNode, MapsAfresh;
    var st' := FStep(sem, u.frames, st);
    snaps' := snaps;
    if st.i == |u.frames[st.fn].nodes[st.b]| {
      var m1;
      n, m1 := SimEnd(sem, u, live, code, st, m, snaps);
      o := Going(m1);
    } else {
      match u.frames[st.fn].nodes[st.b][st.i]
      case Left(_) =>
        SimLeft(sem, u, live, code, st, m, snaps);
        n, o := 1, MStep(sem, code, m);
        OneStep(sem, code, m);
      case PhiReg(_, _) =>
        SimSkip(sem, u, live, code, st, m, snaps);
        NoSteps(sem, code, m);
        n, o := 0, Going(m);
      case DropIter(_) =>
        SimSkip(sem, u, live, code, st, m, snaps);
        NoSteps(sem, code, m);
        n, o := 0, Going(m);
      case CallUdf(_, _, _) =>
        var m1;
        n, m1 := SimCall(sem, u, live, code, st, m, snaps);
        o, snaps' := Going(m1), snaps + [m.regs];
      case RetVal(_) =>
        if st.stack == [] {
          n := SimDone(sem, u, live, code, st, m, snaps);
          o := Finished(st.world);
        } else {
          var m1;
          n, m1 := SimRet(sem, u, live, code, st, m, snaps);
          o, snaps' := Going(m1), snaps[..|snaps| - 1];
        }
    }
  }

  lemma OneStep<V, W>(sem: MSem<V, W>, code: seq<seq<LL>>, m: Machine<V, W>)
    ensures MRun(sem, code, 1, Going(m)) == MStep(sem, code, m)
  {
    assert MRun(sem, code, 0, MStep(sem, code, m)) == MStep(sem, code, m);
  }

  // A step without machine steps only moves on in the same activation.
  predicate Further<V, W>(st: FState<V, W>, st': FState<V, W>)
    requires st.Active? && st'.Active?
  {
    st'.fn == st.fn && (st'.b > st.b || (st'.b == st.b && st'.i == st.i + 1))
  }

  // Any number of frame steps is matched by some number of machine steps.
  lemma {:induction false} RunMatches<V, W>(sem: MSem<V, W>, u: Unit, live: Live, code: seq<seq<LL>>, k: nat,
                                            st: FState<V, W>, o: Outcome<V, W>, snaps: seq<Regs<V>>)
    returns (n: nat, o': Outcome<V, W>, snaps': seq<Regs<V>>)
    requires UnitOk(u, live) && IsCode(u, code) && Matches(u, live, st, o, snaps)
    ensures MRun(sem, code, n, o) == o' && Matches(u, live, FRun(sem, u.frames, k, st), o', snaps')
  {
    hide UnitOk, IsCode, LiveShape, RelActive, FStep, MStep;
    if k == 0 {
      n, o', snaps' := 0, o, snaps;
    } else if st.Active? {
      var n1, o1, snaps1 := SimStep(sem, u, live, code, st, o.m, snaps);
      var n2;
      n2, o', snaps' := RunMatches(sem, u, live, code, k - 1, FStep(sem, u.frames, st), o1, snaps1);
      n := n1 + n2;
      MRunAdd(sem, code, n1, n2, o);
    } else {
      Rests(sem, u.frames, k, st);
      n, o', snaps' := 0, o, snaps;
    }
  }

  lemma {:induction false} Rests<V, W>(sem: MSem<V, W>, frames: seq<Frame>, k: nat, st: FState<V, W>)
    requires !st.Active?
    ensures FRun(sem, frames, k, st) == st
  {
    if k > 0 {
      Rests(sem, frames, k - 1, st);
    }
  }

  // ---- The machine never gets stuck ----

  // Some frame steps bring at least one machine step, or the end.
  lemma {:induction false} MovesOn<V, W>(sem: MSem<V, W>, u: Unit, live: Live, code: seq<seq<LL>>, st: FState<V, W>,
                                         m: Machine<V, W>, snaps: seq<Regs<V>>)
    returns (n: nat, st': FState<V, W>, o: Outcome<V, W>, snaps': seq<Regs<V>>)
    requires UnitOk(u, live) && IsCode(u, code) && st.Active? && Matches(u, live, st, Going(m), snaps)
    ensures MRun(sem, code, n, Going(m)) == o && n > 0 && Matches(u, live, st', o, snaps')
    decreases |u.frames[st.fn].nodes| - st.b, |u.frames[st.fn].nodes[st.b]| - st.i
  {
    hide UnitOk, IsCode, LiveShape, FStep, MStep, StackOk, Saved, AgreeAt, Pos;
    n, o, snaps' := SimStep(sem, u, live, code, st, m, snaps);
    st' := FStep(sem, u.frames, st);
    if n == 0 {
      NoSteps(sem, code, m);
      n, st', o, snaps' := MovesOn(sem, u, live, code, st', m, snaps');
    }
  }

  // From a matched state, N machine steps never end outside the code or on an empty stack.
  lemma {:induction false} NeverStuck<V, W>(sem: MSem<V, W>, u: Unit, live: Live, code: seq<seq<LL>>, N: nat,
                                            st: FState<V, W>, o: Outcome<V, W>, snaps: seq<Regs<V>>)
    requires UnitOk(u, live) && IsCode(u, code) && Matches(u, live, st, o, snaps)
    ensures MRun(sem, code, N, o) != Stuck
  {
    hide UnitOk, IsCode, LiveShape, RelActive, MStep;
    if N > 0 && o.Going? {
      var n, st1, o1, snaps1 := MovesOn(sem, u, live, code, st, o.m, snaps);
      if n <= N {
        NeverStuck(sem, u, live, code, N - n, st1, o1, snaps1);
        MRunAdd(sem, code, n, N - n, o);
      } else {
        MRunAdd(sem, code, N, n - N, o);
        StuckStays(sem, code, n - N);
      }
    }
  }

  lemma StuckStays<V, W>(sem: MSem<V, W>, code: seq<seq<LL>>, n: nat)
    ensures MRun<V, W>(sem, code, n, Stuck) == Stuck
  {
  }

  // ---- Call discipline ----

  // Steps inside a call: the suspended activations below, and what was saved for them, stay.
  lemma {:induction false} InsideCall<V, W>(sem: MSem<V, W>, u: Unit, live: Live, code: seq<seq<LL>>, k: nat,
                                            st: FState<V, W>, m: Machine<V, W>, snaps: seq<Regs<V>>,
                                            below: seq<Suspended<V>>, saved: seq<Regs<V>>)
    returns (n: nat, m': Machine<V, W>, snaps': seq<Regs<V>>, last: FState<V, W>, mlast: Machine<V, W>)
    requires UnitOk(u, live) && IsCode(u, code) && st.Active? && Matches(u, live, st, Going(m), snaps)
    requires |below| == |saved| > 0 && below <= st.stack && saved <= snaps && k > 0
    requires var e := FRun(sem, u.frames, k, st); e.Active? && |e.stack| == |below| - 1
    requires forall j | 0 <= j < k ::
               FRun(sem, u.frames, j, st).Active? && |FRun(sem, u.frames, j, st).stack| >= |below|
    ensures MRun(sem, code, n, Going(m)) == Going(m')
    ensures Matches(u, live, FRun(sem, u.frames, k, st), Going(m'), snaps') && snaps' == saved[..|saved| - 1]
    ensures FRun(sem, u.frames, k, st).stack == below[..|below| - 1]
    ensures last == FRun(sem, u.frames, k - 1, st) && last.Active? && last.stack == below
    ensures Resumed(u, last, saved[|saved| - 1], mlast, m')
    decreases k
  {
    hide UnitOk, IsCode, LiveShape, MStep, StackOk, Saved, AgreeAt, Pos, FStep, Resumed, Bound;
    var n1, o1, snaps1 := SimStep(sem, u, live, code, st, m, snaps);
    var st1 := FStep(sem, u.frames, st);
    assert FRun(sem, u.frames, k, st) == FRun(sem, u.frames, k - 1, st1);
    assert FRun(sem, u.frames, 1, st) == FRun(sem, u.frames, 0, st1) == st1;
    StackStep(sem, u, st);
    StackMatches(u, live, st, m, snaps);
    if k == 1 {
      n, m', snaps' := n1, o1.m, snaps1;
      last, mlast := st, m;
    } else {
      forall j | 0 <= j < k - 1
        ensures FRun(sem, u.frames, j, st1).Active? && |FRun(sem, u.frames, j, st1).stack| >= |below|
      {
        assert FRun(sem, u.frames, j + 1, st) == FRun(sem, u.frames, j, st1);
      }
      StackMatches(u, live, st1, o1.m, snaps1);
      var n2;
      n2, m', snaps', last, mlast := InsideCall(sem, u, live, code, k - 1, st1, o1.m, snaps1, below, saved);
      n := n1 + n2;
      MRunAdd(sem, code, n1, n2, Going(m));
      assert FRun(sem, u.frames, k - 1, st) == FRun(sem, u.frames, k - 2, st1);
    }
  }

  // The activation stack grows at calls, shrinks at returns, and is untouched otherwise.
  lemma StackStep<V, W>(sem: MSem<V, W>, u: Unit, st: FState<V, W>)
    requires st.Active? && FStep(sem, u.frames, st).Active?
    ensures var st' := FStep(sem, u.frames, st);
            if AtCall(u, st) then st'.stack == st.stack + [Suspended(st.fn, st.b, st.i, st.regs)]
            else if AtRet(u, st) then st.stack != [] && st'.stack == st.stack[..|st.stack| - 1]
            else st'.stack == st.stack
  {
  }

  lemma StackMatches<V, W>(u: Unit, live: Live, st: FState<V, W>, m: Machine<V, W>, snaps: seq<Regs<V>>)
    requires st.Active? && Matches(u, live, st, Going(m), snaps)
    ensures |st.stack| == |snaps| == |m.calls|
  {
  }

  // Between a call and its matching return, at any depth and whatever the callee does in between:
  // the callee starts with its i-th parameter holding the i-th argument, and with maps allocated during
  // this call in its map locals that are no parameters; when it is over, the return stack and all value
  // stacks are what they were, execution continues behind the call, every local of the caller that can be
  // saved has its old value, but for the destination, which holds the value the callee returned.
  lemma CallDiscipline<V, W>(sem: MSem<V, W>, u: Unit, live: Live, code: seq<seq<LL>>, k: nat,
                             st: FState<V, W>, m: Machine<V, W>, snaps: seq<Regs<V>>)
    returns (n0: nat, m0: Machine<V, W>, n: nat, m': Machine<V, W>, last: FState<V, W>, mlast: Machine<V, W>)
    requires UnitOk(u, live) && IsCode(u, code) && AtCall(u, st) && Matches(u, live, st, Going(m), snaps)
    requires var e := FRun(sem, u.frames, k, st); k > 1 && e.Active? && |e.stack| == |st.stack|
    requires forall j | 0 < j < k ::
               FRun(sem, u.frames, j, st).Active? && |FRun(sem, u.frames, j, st).stack| > |st.stack|
    ensures MRun(sem, code, n0, Going(m)) == Going(m0) && n0 <= n && MRun(sem, code, n - n0, Going(m0)) == Going(m')
    ensures Bound(u, u.frames[st.fn].nodes[st.b][st.i], m.regs, m0.regs)
    ensures MapsAfresh(sem, u, code, u.frames[st.fn].nodes[st.b][st.i], m, n0, m0.regs)
    ensures MRun(sem, code, n, Going(m)) == Going(m')
    ensures m'.calls == m.calls && forall t :: m'.stacks(t) == m.stacks(t)
    ensures m'.fn == m.fn && FRun(sem, u.frames, k, st).stack == st.stack
    ensures FRun(sem, u.frames, k, st).b == st.b && FRun(sem, u.frames, k, st).i == st.i + 1
    ensures var dst := u.frames[st.fn].nodes[st.b][st.i].dst;
            forall q <- u.frames[st.fn].locals | q.ty in VALUE_TYPES && q != dst :: m'.regs(q) == m.regs(q)
    ensures last == FRun(sem, u.frames, k - 1, st) && AtRet(u, last)
    ensures var dst := u.frames[st.fn].nodes[st.b][st.i].dst;
            dst.ty in VALUE_TYPES && dst.ix != 0xFFFF_FFFF ==>
              m'.regs(dst) == mlast.regs(u.frames[last.fn].nodes[last.b][last.i].r)
  {
    hide UnitOk, IsCode, LiveShape, MStep, AgreeAt, Pos, FStep, Bound, SuspOk, MapsAfresh, Resumed, Saved, StackOk;
    var o1, snaps1;
    n0, o1, snaps1 := SimStep(sem, u, live, code, st, m, snaps);
    m0 := o1.m;
    var st1 := FStep(sem, u.frames, st);
    assert FRun(sem, u.frames, 1, st) == FRun(sem, u.frames, 0, st1) == st1;
    StackStep(sem, u, st);
    StackMatches(u, live, st, m, snaps);
    assert FRun(sem, u.frames, k, st) == FRun(sem, u.frames, k - 1, st1);
    forall j | 0 <= j < k - 1
      ensures FRun(sem, u.frames, j, st1).Active? && |FRun(sem, u.frames, j, st1).stack| >= |st1.stack|
    {
      assert FRun(sem, u.frames, j + 1, st) == FRun(sem, u.frames, j, st1);
    }
    var n2, snaps2;
    n2, m', snaps2, last, mlast := InsideCall(sem, u, live, code, k - 1, st1, m0, snaps1, st1.stack, snaps1);
    n := n0 + n2;
    MRunAdd(sem, code, n0, n2, Going(m));
    assert FRun(sem, u.frames, k - 1, st) == FRun(sem, u.frames, k - 2, st1);
    assert snaps2 == snaps;
    RunSnoc(sem, u.frames, k - 1, st);
    ResumedIs(u, last, m.regs, mlast, m');
    ReturnsThere(sem, u, last);
    CallsDetermined(u, live, st, m, FRun(sem, u.frames, k, st), m', snaps);
  }

  lemma ResumedIs<V, W>(u: Unit, st: FState<V, W>, snap: Regs<V>, m: Machine<V, W>, m': Machine<V, W>)
    requires st.Active? && st.stack != [] && Resumed(u, st, snap, m, m')
    ensures AtRet(u, st)
    ensures var s := st.stack[|st.stack| - 1];
            && WaitsAtCall(u.frames, s.fn, s.b, s.i)
            && var dst := u.frames[s.fn].nodes[s.b][s.i].dst;
               && (forall q <- u.frames[s.fn].locals | q.ty in VALUE_TYPES && q != dst :: m'.regs(q) == snap(q))
               && (dst.ty in VALUE_TYPES && dst.ix != 0xFFFF_FFFF ==>
                     m'.regs(dst) == m.regs(u.frames[st.fn].nodes[st.b][st.i].r))
  {
  }

  lemma {:induction false} RunSnoc<V, W>(sem: MSem<V, W>, frames: seq<Frame>, k: nat, st: FState<V, W>)
    ensures FRun(sem, frames, k + 1, st) == FStep(sem, frames, FRun(sem, frames, k, st))
  {
    if k > 0 {
      RunSnoc(sem, frames, k - 1, FStep(sem, frames, st));
    } else {
      assert FRun(sem, frames, 0, FStep(sem, frames, st)) == FStep(sem, frames, st);
    }
  }

  lemma ReturnsThere<V, W>(sem: MSem<V, W>, u: Unit, st: FState<V, W>)
    requires AtRet(u, st) && st.stack != [] && FStep(sem, u.frames, st).Active?
    ensures var s, st' := st.stack[|st.stack| - 1], FStep(sem, u.frames, st);
            st'.fn == s.fn && st'.b == s.b && st'.i == s.i + 1
  {
  }

  // The machine's stacks are a function of the activation stack and what was saved for it.
  lemma CallsDetermined<V, W>(u: Unit, live: Live, st: FState<V, W>, m: Machine<V, W>, st': FState<V, W>,
                              m': Machine<V, W>, snaps: seq<Regs<V>>)
    requires st.Active? && st'.Active? && Matches(u, live, st, Going(m), snaps)
    requires Matches(u, live, st', Going(m'), snaps)
    requires st.stack == st'.stack && st.fn == st'.fn
    ensures m'.calls == m.calls && m'.fn == m.fn && forall t :: m'.stacks(t) == m.stacks(t)
  {
    hide LiveShape, AgreeAt, Pos, Saved;
    forall k | 0 <= k < |m.calls|
      ensures m.calls[k] == m'.calls[k]
    {
      assert SuspOk(u, live, st.stack[k], snaps[k], m.calls[k], CalleeOf(st.stack, st.fn, k));
      assert SuspOk(u, live, st'.stack[k], snaps[k], m'.calls[k], CalleeOf(st'.stack, st'.fn, k));
    }
  }

  // ---- The start of a program ----

  // A stage function without parameters, run on empty stacks.
  lemma StartMatches<V, W>(sem: MSem<V, W>, u: Unit, live: Live, code: seq<seq<LL>>, fn: nat, regs: Regs<V>, w: W)
    returns (n: nat, m': Machine<V, W>)
    requires UnitOk(u, live) && IsCode(u, code) && fn < |u.frames| && u.frames[fn].called && u.frames[fn].params == []
    ensures MRun(sem, code, n, Going(Machine(fn, 0, regs, (t: Ty) => [], [], w))) == Going(m')
    ensures var (regs0, w0) := AllocAll(sem, u.frames[fn].locals, regs, w);
            Matches(u, live, Active(fn, 0, 0, regs0, w0, []), Going(m'), [])
    ensures FreshMaps(sem, code, Machine(fn, 0, regs, (t: Ty) => [], [], w), n, u.frames[fn].locals, [], m'.regs)
  {
    hide FreshMaps;
    hide UnitOk, IsCode, Fragile, LiveShape, FrameCode, InstsCode, CodeAt, AllocAll, MStep, Allocs, Pos;
    FrameFacts(u, live, code, fn);
    var m: Machine<V, W> := Machine(fn, 0, regs, (t: Ty) => [], [], w);
    var f := u.frames[fn];
    PrologueStraight(f);
    PrologueAt(u, fn);
    var base: Stacks<V> := (t: Ty) => [];
    m' := RunPrologue(sem, code, m, f.locals, f.params, [], base);
    n := |Prologue(f)|;
    CalleeAgrees(sem, u, live, fn, regs, regs, w, [], m'.regs);
  }
}
