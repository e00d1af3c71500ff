// The untyped intermediate representation of src/cfg.rs: identifiers with a version subscript,
// shallow expressions and statements, and guarded edges between basic blocks.
// Builtins, variables and functions are named by numbers; operand lists are flattened.
module Ir {
  import opened Graphs

  datatype Option<+T> = None | Some(value: T)

  datatype Ident = Ident(low: nat, sub: nat, global: bool) {
    // A global that only the main loop refers to is treated as a local.
    predicate IsGlobal(localGlobals: set<nat>) {
      global && low !in localGlobals
    }
    // The name assigned to when only a side effect matters.
    predicate IsUnused() {
      low == 0
    }
  }

  datatype PrimVal = Var(id: Ident) | ILit(i: int) | FLit(f: real) | StrLit(s: string)

  datatype ExprOp =
    | Val
    | CallBuiltin(f: nat)
    | Sprintf
    | CallUDF(f: nat)
    | Index
    | IterBegin
    | HasNext
    | Next
    | LoadBuiltin(v: nat)

  datatype PrimExpr = Phi(preds: seq<(nat, Ident)>) | Op(op: ExprOp, args: seq<PrimVal>)

  datatype StmtOp =
    | AsgnIndex(e: ExprOp)
    | SetBuiltin(v: nat, e: ExprOp)
    | Return
    | IterDrop
    | Printf(redirected: bool)
    | PrintAll(redirected: bool)

  datatype PrimStmt = AsgnVar(id: Ident, e: PrimExpr) | Do(op: StmtOp, args: seq<PrimVal>) {
    predicate IsPhi() {
      AsgnVar? && e.Phi?
    }
    predicate Defines(low: nat) {
      AsgnVar? && id.low == low
    }
    // The operands; a phi's arguments are not among them.
    function Uses(): seq<PrimVal> {
      match this
      case AsgnVar(_, Op(_, args)) => args
      case AsgnVar(_, Phi(_)) => []
      case Do(_, args) => args
    }
  }

  // None stands for `else`.
  datatype Edge = Edge(src: nat, dst: nat, cond: Option<PrimVal>)

  datatype Program = Program(entry: nat, blocks: seq<seq<PrimStmt>>, edges: seq<Edge>)

  function Endpoints(edges: seq<Edge>): (r: seq<(nat, nat)>)
    ensures |r| == |edges|
    ensures forall i | 0 <= i < |edges| :: r[i] == (edges[i].src, edges[i].dst)
  {
    seq(|edges|, i requires 0 <= i < |edges| => (edges[i].src, edges[i].dst))
  }

  function GraphOf(n: nat, edges: seq<Edge>): Graph {
    Graph(n, Endpoints(edges))
  }

  lemma EdgeOf(n: nat, edges: seq<Edge>, u: nat, v: nat) returns (i: nat)
    requires GraphOf(n, edges).HasEdge(u, v)
    ensures i < |edges| && edges[i].src == u && edges[i].dst == v
  {
    i :| 0 <= i < |edges| && Endpoints(edges)[i] == (u, v);
  }

  lemma HasEdgeAt(n: nat, edges: seq<Edge>, i: nat)
    requires i < |edges|
    ensures GraphOf(n, edges).HasEdge(edges[i].src, edges[i].dst)
  {
    assert Endpoints(edges)[i] == (edges[i].src, edges[i].dst);
  }

  ghost predicate DefinesIn(stmts: seq<PrimStmt>, low: nat) {
    exists i :: 0 <= i < |stmts| && stmts[i].Defines(low)
  }

  // Outgoing edges of a block, newest first.
  function OutEdges(edges: seq<Edge>, src: nat): (r: seq<nat>)
    ensures forall e :: e in r <==> 0 <= e < |edges| && edges[e].src == src
  {
    if edges == [] then []
    else
      var last := |edges| - 1;
      (if edges[last].src == src then [last] else []) + OutEdges(edges[..last], src)
  }
}
