// What the end-to-end theorem asks of the straight-line code of a block, asked statement by statement:
// the instructions of each statement do what the statement does, and those behind the last statement
// evaluate the branch conditions and convert phi arguments.
module StatementSoundness {
  import opened Semantics
  import opened SsaForm
  import opened SsaMeaning
  import opened Bytecode
  import opened Frames
  import opened Layout
  import opened CallSim
  import opened SsaFrames
  import opened EndToEnd

  // The first instruction of statement s or of a later one.
  function FirstOf(at: seq<nat>, s: nat): (i: nat)
    ensures i <= |at|
  {
    if at == [] || at[0] >= s then 0 else 1 + FirstOf(at[1..], s)
  }

  // In front of instruction i of node b, outside of all calls, with every version's value in its register.
  ghost predicate Stands<V, W, X, Y>(x: Setting<V, W, X, Y>, o: Origin, fn: nat, b: nat, i: nat, st: FState<X, Y>,
                                     env: Env<V>, w: W) {
    && st.Active? && st.fn == fn && st.b == b && st.i == i && st.stack == []
    && x.same(st.world, w) && Held(x, o, st.regs, env)
  }

  ghost predicate InBlock(o: Origin, b: nat, s: nat) {
    b < |o.at| && b < |o.c.pre| && b < |o.c.w.blocks| && |o.c.pre[b]| + s <= |o.c.w.blocks[b]|
  }

  // A return is the last statement of its block.
  predicate Returns(u: Unit, o: Origin, fn: nat, b: nat, s: nat) {
    && fn < |u.frames| && b < |u.frames[fn].nodes| && EndsInRet(u.frames[fn], b)
    && b < |o.c.blocks| && s + 1 == |o.c.blocks[b]|
  }

  ghost predicate StmtEnds<V, W, X, Y>(x: Setting<V, W, X, Y>, u: Unit, o: Origin, fn: nat, b: nat, s: nat, env: Env<V>,
                                       w: W, st: FState<X, Y>)
    requires InBlock(o, b, s + 1)
  {
    var (env1, w1) := RunStmt(x.sem, o.lg, o.c.w.blocks[b][|o.c.pre[b]| + s], env, w);
    if Returns(u, o, fn, b, s) then st.Done? && x.same(st.world, w1)
    else Stands(x, o, fn, b, FirstOf(o.at[b], s + 1), st, env1, w1)
  }

  // The instructions of statement s; calls count as part of it.
  ghost predicate StmtSound<V(!new), W(!new), X(!new), Y(!new)>(x: Setting<V, W, X, Y>, u: Unit, o: Origin, fn: nat,
                                                                b: nat, s: nat)
    requires InBlock(o, b, s + 1)
  {
    forall regs: Regs<X>, y: Y, env: Env<V>, w: W | Held(x, o, regs, env) && x.same(y, w) ::
      exists n: nat :: StmtEnds(x, u, o, fn, b, s, env, w,
                                FRun(x.msem, u.frames, n, Active(fn, b, FirstOf(o.at[b], s), regs, y, [])))
  }

  ghost predicate TailEnds<V, W, X, Y>(x: Setting<V, W, X, Y>, f: Frame, o: Origin, fn: nat, b: nat, env: Env<V>, w: W,
                                       st: FState<X, Y>)
    requires b < |f.nodes|
  {
    && Stands(x, o, fn, b, |f.nodes[b]|, st, env, w)
    && CondsHold(x, o, b, st.regs, env, w) && Converted(x, f, o, b, st.regs, env)
  }

  // What is evaluated behind the last statement.
  ghost predicate TailSound<V(!new), W(!new), X(!new), Y(!new)>(x: Setting<V, W, X, Y>, u: Unit, o: Origin, fn: nat,
                                                                b: nat)
    requires fn < |u.frames| && b < |u.frames[fn].nodes| && b < |o.at| && b < |o.c.blocks|
  {
    forall regs: Regs<X>, y: Y, env: Env<V>, w: W | Held(x, o, regs, env) && x.same(y, w) ::
      exists n: nat :: TailEnds(x, u.frames[fn], o, fn, b, env, w,
                                FRun(x.msem, u.frames, n,
                                     Active(fn, b, FirstOf(o.at[b], |o.c.blocks[b]|), regs, y, [])))
  }

  ghost predicate StmtsSound<V(!new), W(!new), X(!new), Y(!new)>(x: Setting<V, W, X, Y>, u: Unit, o: Origin, fn: nat,
                                                                 b: nat)
    requires fn < |u.frames| && b < |u.frames[fn].nodes|
  {
    && b < |o.c.blocks| && InBlock(o, b, |o.c.blocks[b]|)
    && (forall s {:trigger StmtSound(x, u, o, fn, b, s)} | 0 <= s < |o.c.blocks[b]| :: StmtSound(x, u, o, fn, b, s))
    && (if EndsInRet(u.frames[fn], b) then |o.c.blocks[b]| > 0 else TailSound(x, u, o, fn, b))
  }

  // Every statement of every block is translated soundly, and blocks that return have no successors.
  ghost predicate SoundByStatement<V(!new), W(!new), X(!new), Y(!new)>(x: Setting<V, W, X, Y>, u: Unit,
                                                                       os: seq<Origin>, fn: nat) {
    && fn < |os| && fn < |u.frames|
    && (forall b | 0 <= b < |u.frames[fn].nodes| :: StmtsSound(x, u, os[fn], fn, b))
    && (forall e | 0 <= e < |os[fn].c.edges| && os[fn].c.edges[e].src < |u.frames[fn].nodes| ::
          !EndsInRet(u.frames[fn], os[fn].c.edges[e].src))
  }

  // ---- From statements to the block ----

  lemma BlockIs(o: Origin, b: nat)
    requires Ready(o.c, o.lg) && b < |o.c.blocks|
    ensures b < |o.c.pre| && b < |o.c.w.blocks| && |o.c.w.blocks[b]| == |o.c.pre[b]| + |o.c.blocks[b]|
    ensures |o.c.pre| == |o.c.w.blocks| == |o.c.blocks|
  {
    hide Ready;
    BlockFacts(o.c, o.lg, b);
    ReadySizes(o.c, o.lg);
  }

  lemma StmtRuns<V(!new), W(!new), X(!new), Y(!new)>(
      x: Setting<V, W, X, Y>, u: Unit, o: Origin, fn: nat, b: nat, s: nat, st: FState<X, Y>, env: Env<V>, w: W)
    returns (n: nat)
    requires InBlock(o, b, s + 1) && StmtSound(x, u, o, fn, b, s)
    requires Stands(x, o, fn, b, FirstOf(o.at[b], s), st, env, w)
    ensures StmtEnds(x, u, o, fn, b, s, env, w, FRun(x.msem, u.frames, n, st))
  {
    hide Held, StmtEnds, FRun, FirstOf;
    assert st == Active(fn, b, FirstOf(o.at[b], s), st.regs, st.world, []);
    n :| StmtEnds(x, u, o, fn, b, s, env, w, FRun(x.msem, u.frames, n, st));
  }

  lemma TailRuns<V(!new), W(!new), X(!new), Y(!new)>(
      x: Setting<V, W, X, Y>, u: Unit, o: Origin, fn: nat, b: nat, st: FState<X, Y>, env: Env<V>, w: W)
    returns (n: nat)
    requires fn < |u.frames| && b < |u.frames[fn].nodes| && b < |o.at| && b < |o.c.blocks| && TailSound(x, u, o, fn, b)
    requires Stands(x, o, fn, b, FirstOf(o.at[b], |o.c.blocks[b]|), st, env, w)
    ensures TailEnds(x, u.frames[fn], o, fn, b, env, w, FRun(x.msem, u.frames, n, st))
  {
    hide Held, TailEnds, FRun, FirstOf;
    assert st == Active(fn, b, FirstOf(o.at[b], |o.c.blocks[b]|), st.regs, st.world, []);
    n :| TailEnds(x, u.frames[fn], o, fn, b, env, w, FRun(x.msem, u.frames, n, st));
  }

  // The first s statements, none of which returns.
  lemma {:induction false} RunsUpTo<V(!new), W(!new), X(!new), Y(!new)>(
      x: Setting<V, W, X, Y>, u: Unit, o: Origin, fn: nat, b: nat, s: nat, st: FState<X, Y>, env: Env<V>, w: W)
    returns (n: nat)
    requires Ready(o.c, o.lg) && b < |o.c.blocks| && fn < |u.frames| && b < |u.frames[fn].nodes|
    requires StmtsSound(x, u, o, fn, b) && InBlock(o, b, s) && s <= |o.c.blocks[b]|
    requires EndsInRet(u.frames[fn], b) ==> s < |o.c.blocks[b]|
    requires Stands(x, o, fn, b, 0, st, env, w)
    ensures var (env1, w1) := RunUpTo(x.sem, o.lg, o.c.w.blocks[b], |o.c.pre[b]| + s, env, w);
            Stands(x, o, fn, b, FirstOf(o.at[b], s), FRun(x.msem, u.frames, n, st), env1, w1)
  {
    hide Ready, Held, StmtSound, TailSound, FStep, RunStmt;
    BlockIs(o, b);
    if s == 0 {
      n := 0;
      PhisIdle(x.sem, o.lg, o.c, b, |o.c.pre[b]|, env, w);
    } else {
      var n1 := RunsUpTo(x, u, o, fn, b, s - 1, st, env, w);
      var mid := FRun(x.msem, u.frames, n1, st);
      var (env1, w1) := RunUpTo(x.sem, o.lg, o.c.w.blocks[b], |o.c.pre[b]| + s - 1, env, w);
      var n2 := StmtRuns(x, u, o, fn, b, s - 1, mid, env1, w1);
      FRunAdd(x.msem, u.frames, n1, n2, st);
      n := n1 + n2;
    }
  }

  // Statement by statement, then what is behind the last of them.
  lemma BlockRuns<V(!new), W(!new), X(!new), Y(!new)>(
      x: Setting<V, W, X, Y>, u: Unit, o: Origin, fn: nat, b: nat, st: FState<X, Y>, env: Env<V>, w: W)
    returns (n: nat)
    requires Ready(o.c, o.lg) && b < |o.c.blocks| && fn < |u.frames| && b < |u.frames[fn].nodes|
    requires StmtsSound(x, u, o, fn, b) && Stands(x, o, fn, b, 0, st, env, w)
    ensures b < |o.c.w.blocks| && BlockEnds(x, u, o, fn, b, env, w, FRun(x.msem, u.frames, n, st))
  {
    hide Ready, Held, CondsHold, Converted, StmtSound, TailSound, FStep, RunStmt, FirstOf, FRun;
    BlockIs(o, b);
    var stmts, own := o.c.w.blocks[b], |o.c.blocks[b]|;
    var s := if EndsInRet(u.frames[fn], b) then own - 1 else own;
    var n1 := RunsUpTo(x, u, o, fn, b, s, st, env, w);
    var mid := FRun(x.msem, u.frames, n1, st);
    var (env1, w1) := RunUpTo(x.sem, o.lg, stmts, |o.c.pre[b]| + s, env, w);
    var n2;
    if EndsInRet(u.frames[fn], b) {
      n2 := StmtRuns(x, u, o, fn, b, s, mid, env1, w1);
    } else {
      n2 := TailRuns(x, u, o, fn, b, mid, env1, w1);
    }
    FRunAdd(x.msem, u.frames, n1, n2, st);
    n := n1 + n2;
  }

  // Soundness of the single statements is enough for the end-to-end theorem.
  lemma StatementsSuffice<V(!new), W(!new), X(!new), Y(!new)>(x: Setting<V, W, X, Y>, u: Unit, os: seq<Origin>, fn: nat)
    requires UnitFrom(u, os) && fn < |os| && u.frames[fn].called && SoundByStatement(x, u, os, fn)
    ensures Sound(x, u, os, fn)
  {
    hide UnitFrom, Translates, Ready, StmtsSound, BlockEnds, Held;
    FrameOf(u, os, fn);
    var o := os[fn];
    forall b | 0 <= b < |u.frames[fn].nodes|
      ensures BlockSound(x, u, o, fn, b)
    {
      forall regs: Regs<X>, y: Y, env: Env<V>, w: W | Held(x, o, regs, env) && x.same(y, w)
        ensures exists n: nat ::
                  BlockEnds(x, u, o, fn, b, env, w, FRun(x.msem, u.frames, n, Active(fn, b, 0, regs, y, [])))
      {
        var n := BlockRuns(x, u, o, fn, b, Active(fn, b, 0, regs, y, []), env, w);
      }
    }
  }
}
