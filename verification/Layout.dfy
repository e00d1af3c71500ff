// The instruction sequence a frame lowers to, as a function of the frame.
module Layout {
  import opened Bytecode
  import opened Frames

  // The frames to lower, with the register each of them returns its result in.
  datatype Unit = Unit(frames: seq<Frame>, rets: seq<Reg>)

  function RetIx(u: Unit, fn: nat): nat {
    if fn < |u.rets| then u.rets[fn].ix else UNUSED
  }

  function MovCode(dst: Reg, src: nat): seq<LL> {
    if Real(dst) && src != UNUSED then [Mov(dst, src)] else []
  }

  function Allocs(locals: seq<Reg>): seq<LL> {
    if locals == [] then []
    else
      Allocs(locals[..|locals| - 1]) +
      (if locals[|locals| - 1].ty.IsArray() then [AllocMap(locals[|locals| - 1])] else [])
  }

  function InstCode(u: Unit, fn: nat, i: FInst): seq<LL>
    requires fn < |u.frames|
  {
    match i
    case Left(ll) => [ll]
    case CallUdf(g, dst, args) =>
      Pushes(u.frames[fn].locals) + Pushes(args) + [Call(g)] + Pops(u.frames[fn].locals) + MovCode(dst, RetIx(u, g))
    case RetVal(r) => MovCode(Reg(r.ty, RetIx(u, fn)), r.ix) + [Ret]
    case PhiReg(_, _) => []
    case DropIter(_) => []
  }

  function InstsCode(u: Unit, fn: nat, insts: seq<FInst>): seq<LL>
    requires fn < |u.frames|
  {
    if insts == [] then []
    else InstsCode(u, fn, insts[..|insts| - 1]) + InstCode(u, fn, insts[|insts| - 1])
  }

  // The moves for the leading phis of a node, from the k-th on, as its predecessor p makes them.
  function PhiMoves(node: seq<FInst>, k: nat, p: nat): seq<LL>
    requires k <= |node|
    decreases |node| - k
  {
    if k < |node| && node[k].PhiReg? then
      var m := PhiMove(node[k], p);
      (if m.Some? then [Mov(m.value.0, m.value.1)] else []) + PhiMoves(node, k + 1, p)
    else []
  }

  // Edges out of b among the first k, newest first.
  function OutOf(edges: seq<FEdge>, b: nat, k: nat): (r: seq<nat>)
    requires k <= |edges|
    ensures forall e :: e in r <==> 0 <= e < k && edges[e].src == b
  {
    if k == 0 then []
    else (if edges[k - 1].src == b then [k - 1] else []) + OutOf(edges, b, k - 1)
  }

  // Moves for the phis of all successors, whichever branch is taken later.
  function AllMoves(f: Frame, b: nat, es: seq<nat>): seq<LL>
  {
    if es == [] then []
    else
      (if es[0] < |f.edges| && f.edges[es[0]].dst < |f.nodes| then PhiMoves(f.nodes[f.edges[es[0]].dst], 0, b)
       else []) +
      AllMoves(f, b, es[1..])
  }

  function JumpCode(f: Frame, b: nat, e: nat): seq<LL>
    requires e < |f.edges|
  {
    match f.edges[e].cond
    case Some(reg) => [JmpIf(reg, f.edges[e].dst)]
    case None => if f.edges[e].dst != b + 1 then [Jmp(f.edges[e].dst)] else []
  }

  // Branches in insertion order; a jump to the next block in line is left out.
  function Jumps(f: Frame, b: nat, e: nat): seq<LL>
    requires e <= |f.edges|
    decreases |f.edges| - e
  {
    if e == |f.edges| then []
    else (if f.edges[e].src == b then JumpCode(f, b, e) else []) + Jumps(f, b, e + 1)
  }

  ghost predicate EdgesOk(f: Frame) {
    forall e | 0 <= e < |f.edges| :: f.edges[e].src < |f.nodes| && f.edges[e].dst < |f.nodes|
  }

  function NodeCode(u: Unit, fn: nat, b: nat): seq<LL>
    requires fn < |u.frames| && b < |u.frames[fn].nodes| && EdgesOk(u.frames[fn])
  {
    var f := u.frames[fn];
    InstsCode(u, fn, f.nodes[b]) + AllMoves(f, b, OutOf(f.edges, b, |f.edges|)) + Jumps(f, b, 0)
  }

  function Prologue(f: Frame): seq<LL> {
    Allocs(f.locals) + Pops(f.params)
  }

  function CodeUpto(u: Unit, fn: nat, j: nat): seq<LL>
    requires fn < |u.frames| && j <= |u.frames[fn].nodes| && EdgesOk(u.frames[fn])
  {
    if j == 0 then Prologue(u.frames[fn]) else CodeUpto(u, fn, j - 1) + NodeCode(u, fn, j - 1)
  }

  // Where node j starts.
  function Start(u: Unit, fn: nat, j: nat): nat
    requires fn < |u.frames| && j <= |u.frames[fn].nodes| && EdgesOk(u.frames[fn])
  {
    |CodeUpto(u, fn, j)|
  }

  // Where instruction i of node b starts.
  function Pos(u: Unit, fn: nat, b: nat, i: nat): nat
    requires fn < |u.frames| && b < |u.frames[fn].nodes| && i <= |u.frames[fn].nodes[b]| && EdgesOk(u.frames[fn])
  {
    Start(u, fn, b) + |InstsCode(u, fn, u.frames[fn].nodes[b][..i])|
  }

  // Jumps are emitted against block numbers and rewritten to instruction offsets at the end.
  function Resolve(u: Unit, fn: nat, ll: LL): LL
    requires fn < |u.frames| && EdgesOk(u.frames[fn])
  {
    match ll
    case Jmp(d) => if d < |u.frames[fn].nodes| then Jmp(Start(u, fn, d)) else ll
    case JmpIf(r, d) => if d < |u.frames[fn].nodes| then JmpIf(r, Start(u, fn, d)) else ll
    case _ => ll
  }

  function ResolveAll(u: Unit, fn: nat, code: seq<LL>): (r: seq<LL>)
    requires fn < |u.frames| && EdgesOk(u.frames[fn])
    ensures |r| == |code| && forall k | 0 <= k < |code| :: r[k] == Resolve(u, fn, code[k])
  {
    seq(|code|, k requires 0 <= k < |code| => Resolve(u, fn, code[k]))
  }

  function FrameCode(u: Unit, fn: nat): seq<LL>
    requires fn < |u.frames| && EdgesOk(u.frames[fn])
  {
    ResolveAll(u, fn, CodeUpto(u, fn, |u.frames[fn].nodes|))
  }

  ghost predicate NoJumps(code: seq<LL>) {
    forall k | 0 <= k < |code| :: !code[k].Jmp? && !code[k].JmpIf?
  }

  // ---- Finding a piece in the finished vector ----

  lemma ResolveSlice(u: Unit, fn: nat, code: seq<LL>, pc: nat, piece: seq<LL>)
    requires fn < |u.frames| && EdgesOk(u.frames[fn]) && CodeAt(code, pc, piece)
    ensures CodeAt(ResolveAll(u, fn, code), pc, ResolveAll(u, fn, piece))
    ensures NoJumps(piece) ==> ResolveAll(u, fn, piece) == piece
  {
    var r := ResolveAll(u, fn, code);
    forall k | 0 <= k < |piece|
      ensures r[pc..pc + |piece|][k] == ResolveAll(u, fn, piece)[k]
    {
      assert code[pc..pc + |piece|][k] == piece[k];
    }
    assert r[pc..pc + |piece|] == ResolveAll(u, fn, piece);
  }

  lemma {:induction false} UptoPrefix(u: Unit, fn: nat, i: nat, j: nat)
    requires fn < |u.frames| && EdgesOk(u.frames[fn]) && i <= j <= |u.frames[fn].nodes|
    ensures CodeUpto(u, fn, i) <= CodeUpto(u, fn, j)
    decreases j
  {
    hide NodeCode;
    if i < j {
      UptoPrefix(u, fn, i, j - 1);
    }
  }

  lemma {:induction false} InstsPrefix(u: Unit, fn: nat, insts: seq<FInst>, i: nat)
    requires fn < |u.frames| && i <= |insts|
    ensures InstsCode(u, fn, insts[..i]) <= InstsCode(u, fn, insts)
    decreases |insts|
  {
    if i == |insts| {
      assert insts[..i] == insts;
    } else {
      assert insts[..|insts| - 1][..i] == insts[..i];
      InstsPrefix(u, fn, insts[..|insts| - 1], i);
    }
  }

  // Instruction i of node b sits at its position, and the next one right behind it.
  lemma InstAt(u: Unit, fn: nat, b: nat, i: nat)
    requires fn < |u.frames| && EdgesOk(u.frames[fn]) && b < |u.frames[fn].nodes| && i < |u.frames[fn].nodes[b]|
    requires NoJumps(InstCode(u, fn, u.frames[fn].nodes[b][i]))
    ensures CodeAt(FrameCode(u, fn), Pos(u, fn, b, i), InstCode(u, fn, u.frames[fn].nodes[b][i]))
    ensures Pos(u, fn, b, i + 1) == Pos(u, fn, b, i) + |InstCode(u, fn, u.frames[fn].nodes[b][i])|
  {
    hide InstCode, AllMoves, Jumps, OutOf, CodeAt, ResolveAll, Prologue, NoJumps;
    var node := u.frames[fn].nodes[b];
    var piece := InstCode(u, fn, node[i]);
    assert node[..i + 1][..i] == node[..i];
    InstsPrefix(u, fn, node, i + 1);
    UptoPrefix(u, fn, b + 1, |u.frames[fn].nodes|);
    var whole := CodeUpto(u, fn, |u.frames[fn].nodes|);
    var head := CodeUpto(u, fn, b) + InstsCode(u, fn, node[..i + 1]);
    PrefixCat(CodeUpto(u, fn, b), InstsCode(u, fn, node[..i + 1]), NodeCode(u, fn, b));
    assert head <= CodeUpto(u, fn, b + 1);
    assert head == (CodeUpto(u, fn, b) + InstsCode(u, fn, node[..i])) + piece;
    PieceOf(whole, head, Pos(u, fn, b, i), piece);
    ResolveSlice(u, fn, whole, Pos(u, fn, b, i), piece);
  }

  lemma PrefixCat(a: seq<LL>, b: seq<LL>, c: seq<LL>)
    requires b <= c
    ensures a + b <= a + c
  {
  }

  lemma PieceOf(whole: seq<LL>, head: seq<LL>, pc: nat, piece: seq<LL>)
    requires head <= whole && pc + |piece| == |head| && head[pc..] == piece
    ensures CodeAt(whole, pc, piece)
  {
    assert whole[pc..pc + |piece|] == head[pc..];
  }

  // The moves and branches of node b sit behind its instructions; the next node follows them.
  lemma TailAt(u: Unit, fn: nat, b: nat)
    requires fn < |u.frames| && EdgesOk(u.frames[fn]) && b < |u.frames[fn].nodes|
    ensures var f := u.frames[fn];
            var moves := AllMoves(f, b, OutOf(f.edges, b, |f.edges|));
            var at := Pos(u, fn, b, |f.nodes[b]|);
            && CodeAt(FrameCode(u, fn), at, ResolveAll(u, fn, moves))
            && CodeAt(FrameCode(u, fn), at + |moves|, ResolveAll(u, fn, Jumps(f, b, 0)))
            && at + |moves| + |Jumps(f, b, 0)| == Start(u, fn, b + 1) <= |FrameCode(u, fn)|
  {
    hide AllMoves, Jumps, InstsCode, OutOf, CodeAt, ResolveAll, CodeUpto, NodeCode, Pos;
    var f := u.frames[fn];
    var moves, jumps := AllMoves(f, b, OutOf(f.edges, b, |f.edges|)), Jumps(f, b, 0);
    UptoPrefix(u, fn, b + 1, |f.nodes|);
    var whole, head, at := CodeUpto(u, fn, |f.nodes|), CodeUpto(u, fn, b + 1), Pos(u, fn, b, |f.nodes[b]|);
    HeadOfTail(u, fn, b);
    PieceOf(whole, head, at, moves + jumps);
    CodeAtSplit(whole, at, moves, jumps);
    ResolveSlice(u, fn, whole, at, moves);
    ResolveSlice(u, fn, whole, at + |moves|, jumps);
  }

  // Node b's code ends in its moves and branches.
  lemma HeadOfTail(u: Unit, fn: nat, b: nat)
    requires fn < |u.frames| && EdgesOk(u.frames[fn]) && b < |u.frames[fn].nodes|
    ensures var f := u.frames[fn];
            var head, at := CodeUpto(u, fn, b + 1), Pos(u, fn, b, |f.nodes[b]|);
            var tail := AllMoves(f, b, OutOf(f.edges, b, |f.edges|)) + Jumps(f, b, 0);
            at + |tail| == |head| && head[at..] == tail
  {
    hide AllMoves, Jumps, InstsCode, OutOf;
    var f := u.frames[fn];
    var node := f.nodes[b];
    assert node[..|node|] == node;
    Regroup(CodeUpto(u, fn, b), InstsCode(u, fn, node), AllMoves(f, b, OutOf(f.edges, b, |f.edges|)), Jumps(f, b, 0));
  }

  lemma Regroup(a: seq<LL>, b: seq<LL>, c: seq<LL>, d: seq<LL>)
    ensures a + (b + c + d) == (a + b) + (c + d)
    ensures (a + (b + c + d))[|a| + |b|..] == c + d
  {
  }

  // A called function begins with its prologue, followed by node 0.
  lemma PrologueAt(u: Unit, fn: nat)
    requires fn < |u.frames| && EdgesOk(u.frames[fn]) && |u.frames[fn].nodes| > 0
    requires NoJumps(Prologue(u.frames[fn]))
    ensures CodeAt(FrameCode(u, fn), 0, Prologue(u.frames[fn]))
    ensures Pos(u, fn, 0, 0) == |Prologue(u.frames[fn])|
  {
    UptoPrefix(u, fn, 0, |u.frames[fn].nodes|);
    var whole := CodeUpto(u, fn, |u.frames[fn].nodes|);
    PieceOf(whole, Prologue(u.frames[fn]), 0, Prologue(u.frames[fn]));
    ResolveSlice(u, fn, whole, 0, Prologue(u.frames[fn]));
    assert u.frames[fn].nodes[0][..0] == [];
  }
}
