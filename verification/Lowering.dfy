// Everything below SSA form put together: frames made from renamed graphs, lowered to bytecode, and run.
module Lowering {
  import opened Bytecode
  import opened Frames
  import opened Layout
  import opened FrameRules
  import opened Simulation
  import opened SsaFrames

  function FreshMachine<V, W>(fn: nat, regs: Regs<V>, w: W): Outcome<V, W> {
    Going(Machine(fn, 0, regs, (t: Ty) => [], [], w))
  }

  // The state of a stage function behind its prologue.
  function FreshFrame<V, W>(sem: MSem<V, W>, u: Unit, fn: nat, regs: Regs<V>, w: W): FState<V, W>
    requires fn < |u.frames|
  {
    var (regs0, w0) := AllocAll(sem, u.frames[fn].locals, regs, w);
    Active(fn, 0, 0, regs0, w0, [])
  }

  // Started on empty stacks, the bytecode of frames that come from renamed graphs follows them
  // step for step: the same worlds, the same values in every register that is read, the same end.
  lemma BytecodeFollowsFrames<V, W>(sem: MSem<V, W>, u: Unit, os: seq<Origin>, code: seq<seq<LL>>, fn: nat,
                                    regs: Regs<V>, w: W, k: nat)
    returns (n: nat, o: Outcome<V, W>, snaps: seq<Regs<V>>)
    requires UnitFrom(u, os) && IsCode(u, code) && fn < |u.frames| && u.frames[fn].called && u.frames[fn].params == []
    ensures MRun(sem, code, n, FreshMachine(fn, regs, w)) == o
    ensures |os| == |u.frames|
    ensures Matches(u, LiveOf(u, os), FRun(sem, u.frames, k, FreshFrame(sem, u, fn, regs, w)), o, snaps)
  {
    hide UnitFrom, UnitOk, IsCode, LiveOf, Matches, MRun, FRun, AllocAll;
    Sizes(u, os);
    RenamedFramesLower(u, os);
    var n1, m1 := StartMatches(sem, u, LiveOf(u, os), code, fn, regs, w);
    var n2;
    n2, o, snaps := RunMatches(sem, u, LiveOf(u, os), code, k, FreshFrame(sem, u, fn, regs, w), Going(m1), []);
    n := n1 + n2;
    MRunAdd(sem, code, n1, n2, FreshMachine(fn, regs, w));
  }

  // It never leaves the instruction vector, pops an empty stack, or moves a value that has no register.
  lemma BytecodeNeverStuck<V, W>(sem: MSem<V, W>, u: Unit, os: seq<Origin>, code: seq<seq<LL>>, fn: nat,
                                 regs: Regs<V>, w: W, steps: nat)
    requires UnitFrom(u, os) && IsCode(u, code) && fn < |u.frames| && u.frames[fn].called && u.frames[fn].params == []
    ensures MRun(sem, code, steps, FreshMachine(fn, regs, w)) != Stuck
  {
    hide UnitFrom, UnitOk, IsCode, LiveOf, Matches, MRun, FRun, AllocAll;
    Sizes(u, os);
    RenamedFramesLower(u, os);
    var n1, m1 := StartMatches(sem, u, LiveOf(u, os), code, fn, regs, w);
    if steps >= n1 {
      NeverStuck(sem, u, LiveOf(u, os), code, steps - n1, FreshFrame(sem, u, fn, regs, w), Going(m1), []);
      MRunAdd(sem, code, n1, steps - n1, FreshMachine(fn, regs, w));
    } else {
      MRunAdd(sem, code, steps, n1 - steps, FreshMachine(fn, regs, w));
      StuckStays(sem, code, n1 - steps);
    }
  }
}
