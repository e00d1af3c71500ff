// What a control-flow graph computes. Values, builtins, globals and everything else outside a
// function's own locals are left to an arbitrary interpretation; a world may record every call
// made and every value passed, so equal worlds for all interpretations mean equal behaviour.
module Semantics {
  import opened Ir

  datatype Sem<!V, !W> = Sem(
    lit: PrimVal -> V,
    unused: V,
    readGlobal: (nat, W) -> V,
    writeGlobal: (nat, V, W) -> W,
    eval: (ExprOp, seq<V>, W) -> (V, W),
    exec: (StmtOp, seq<V>, W) -> W,
    truthy: V -> bool)

  // Locals: a value for every name and version.
  type Env<!V> = (nat, nat) -> V

  function Set<V>(env: Env<V>, low: nat, sub: nat, v: V): Env<V> {
    (l: nat, s: nat) => if l == low && s == sub then v else env(l, s)
  }

  function Operand<V, W>(sem: Sem<V, W>, lg: set<nat>, env: Env<V>, w: W, v: PrimVal): V {
    match v
    case Var(id) =>
      if id.IsUnused() then sem.unused
      else if id.IsGlobal(lg) then sem.readGlobal(id.low, w)
      else env(id.low, id.sub)
    case _ => sem.lit(v)
  }

  function Operands<V, W>(sem: Sem<V, W>, lg: set<nat>, env: Env<V>, w: W, args: seq<PrimVal>): (r: seq<V>)
    ensures |r| == |args| && forall i | 0 <= i < |args| :: r[i] == Operand(sem, lg, env, w, args[i])
  {
    seq(|args|, i requires 0 <= i < |args| => Operand(sem, lg, env, w, args[i]))
  }

  function Assign<V, W>(sem: Sem<V, W>, lg: set<nat>, id: Ident, v: V, env: Env<V>, w: W): (Env<V>, W) {
    if id.IsUnused() then (env, w)
    else if id.IsGlobal(lg) then (env, sem.writeGlobal(id.low, v, w))
    else (Set(env, id.low, id.sub, v), w)
  }

  // Phis have taken effect on the way into the block.
  function RunStmt<V, W>(sem: Sem<V, W>, lg: set<nat>, s: PrimStmt, env: Env<V>, w: W): (Env<V>, W) {
    match s
    case AsgnVar(id, Op(op, args)) =>
      var (v, w') := sem.eval(op, Operands(sem, lg, env, w, args), w);
      Assign(sem, lg, id, v, env, w')
    case AsgnVar(_, Phi(_)) => (env, w)
    case Do(op, args) => (env, sem.exec(op, Operands(sem, lg, env, w, args), w))
  }

  // The first k statements of a block.
  function RunUpTo<V, W>(sem: Sem<V, W>, lg: set<nat>, stmts: seq<PrimStmt>, k: nat, env: Env<V>, w: W): (Env<V>, W)
    requires k <= |stmts|
  {
    if k == 0 then (env, w)
    else
      var (e, w') := RunUpTo(sem, lg, stmts, k - 1, env, w);
      RunStmt(sem, lg, stmts[k - 1], e, w')
  }

  // The first outgoing edge, in insertion order, that is an `else` or whose condition is true.
  function Branch<V, W>(sem: Sem<V, W>, lg: set<nat>, edges: seq<Edge>, src: nat, i: nat, env: Env<V>,
                        w: W): (r: Option<nat>)
    requires i <= |edges|
    ensures r.Some? ==> r.value < |edges| && edges[r.value].src == src
    decreases |edges| - i
  {
    if i == |edges| then None
    else if edges[i].src == src && (edges[i].cond.None? || sem.truthy(Operand(sem, lg, env, w, edges[i].cond.value)))
    then Some(i)
    else Branch(sem, lg, edges, src, i + 1, env, w)
  }

  function ArgFor(ps: seq<(nat, Ident)>, pred: nat): Option<Ident> {
    if ps == [] then None
    else if ps[0].0 == pred then Some(ps[0].1)
    else ArgFor(ps[1..], pred)
  }

  // The leading phis of a block, from the k-th on, all read from `env0`, the environment on the edge.
  function EnterFrom<V>(stmts: seq<PrimStmt>, k: nat, pred: nat, env0: Env<V>, env: Env<V>): Env<V>
    requires k <= |stmts|
    decreases |stmts| - k
  {
    if k < |stmts| && stmts[k].IsPhi() then
      var arg := ArgFor(stmts[k].e.preds, pred);
      var env1: Env<V> := if arg.None? then env
                          else Set(env, stmts[k].id.low, stmts[k].id.sub, env0(arg.value.low, arg.value.sub));
      EnterFrom(stmts, k + 1, pred, env0, env1)
    else env
  }

  datatype State<!V, W> = At(block: nat, env: Env<V>, world: W) | Halted(world: W)

  function Step<V, W>(sem: Sem<V, W>, lg: set<nat>, p: Program, st: State<V, W>): State<V, W> {
    match st
    case Halted(_) => st
    case At(b, env, w) =>
      if b >= |p.blocks| then Halted(w)
      else
        var (env1, w1) := RunUpTo(sem, lg, p.blocks[b], |p.blocks[b]|, env, w);
        match Branch(sem, lg, p.edges, b, 0, env1, w1)
        case None => Halted(w1)
        case Some(i) =>
          var d := p.edges[i].dst;
          if d >= |p.blocks| then Halted(w1)
          else At(d, EnterFrom(p.blocks[d], 0, b, env1, env1), w1)
  }

  function Run<V, W>(sem: Sem<V, W>, lg: set<nat>, p: Program, k: nat, st: State<V, W>): State<V, W> {
    if k == 0 then st else Step(sem, lg, p, Run(sem, lg, p, k - 1, st))
  }
}
