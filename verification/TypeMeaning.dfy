// What inferred types mean for the program: after solving, the states of the operands of every
// statement fit together. Nothing here speaks of constraints or of how they are evaluated.
module TypeMeaning {
  import opened Ir
  import opened TypeStates
  import opened TypeNet
  import opened TypeSolution
  import opened TypeConstraints

  // Names that all functions share.
  predicate TrueGlobal(pl: Place, id: Ident) {
    id.global && id.low !in pl.localGlobals
  }

  function NameOf(pl: Place, id: Ident): VarKey {
    if TrueGlobal(pl, id) then VarKey(id, None, []) else VarKey(id, Some(pl.fid), pl.fargs)
  }

  // What has been found out about an operand.
  function StateOf(t: Tc, pl: Place, v: PrimVal): State {
    match v
    case ILit(_) => Some(Scalar(Some(Int)))
    case FLit(_) => Some(Scalar(Some(Float)))
    case StrLit(_) => Some(Scalar(Some(Str)))
    case Var(id) => if NameOf(pl, id) in t.env then StateAt(t.vals, t.env[NameOf(pl, id)]) else None
  }

  function StatesOf(t: Tc, pl: Place, args: seq<PrimVal>): (r: seq<State>)
    ensures |r| == |args| && forall k | 0 <= k < |args| :: r[k] == StateOf(t, pl, args[k])
  {
    seq(|args|, k requires 0 <= k < |args| => StateOf(t, pl, args[k]))
  }

  // A name that takes part whenever it is assigned to: any name if `all`, else one that is not shared.
  predicate Takes(pl: Place, v: PrimVal, all: bool) {
    v.Var? && (all || !TrueGlobal(pl, v.id))
  }

  predicate MapOrUnknown(s: State) {
    s == None || s.value.Map?
  }

  // A node for the key or the value of a map can take s.
  ghost predicate FitsKey(s: State, m: State) {
    s == None || (s.value.Scalar? && m.Some? && m.value.Map? && KeyLeq(s.value.t, m.value.key))
  }

  ghost predicate FitsVal(s: State, m: State) {
    s == None || (s.value.Scalar? && m.Some? && m.value.Map? && BaseLeq(s.value.t, m.value.val))
  }

  // A target in state u has room for what the constraint brings from a source in state s.
  ghost predicate Allows(con: Con, s: State, u: State) {
    match con
    case Flows => StateLeq(s, u)
    case Key => s.None? || (s.value.Map? && StateLeq(Some(Scalar(s.value.key)), u))
    case Val => s.None? || (s.value.Map? && StateLeq(Some(Scalar(s.value.val)), u))
    case KeyIn => IsMap(u) && FitsKey(s, u)
    case ValIn => IsMap(u) && FitsVal(s, u)
    case IterVal => s.None? || (s.value.Iter? && StateLeq(Some(Scalar(s.value.t)), u))
    case IterValIn =>
      && u.Some? && u.value.Iter?
      && (s.None? || (s.value.Scalar? && (s.value.t.None? || s.value.t == u.value.t)))
    case _ => false
  }

  // x is at or above what the operation gives for operands in these states.
  ghost predicate OpTyped(t: Tc, bt: Builtins, table: seq<FuncDef>, pl: Place, e: ExprOp, args: seq<PrimVal>, x: State,
                          all: bool) {
    match e
    case Val => |args| == 1 && StateLeq(StateOf(t, pl, args[0]), x)
    case CallBuiltin(f) =>
      bt.step(f, StatesOf(t, pl, args)).Some? && StateLeq(bt.step(f, StatesOf(t, pl, args)).value, x)
    case CallUDF(f) => exists key: FuncKey :: CallTyped(t, table, pl, f, args, key, x)
    case Sprintf => StateLeq(Some(Scalar(Some(Str))), x)
    case Index =>
      && |args| == 2 && MapOrUnknown(StateOf(t, pl, args[0]))
      && (StateOf(t, pl, args[0]).Some? ==> StateLeq(Some(Scalar(StateOf(t, pl, args[0]).value.val)), x))
    case IterBegin => |args| == 1 && IterTyped(StateOf(t, pl, args[0]), x, Takes(pl, args[0], all))
    case HasNext => StateLeq(Some(Scalar(Some(Int))), x)
    case Next =>
      && |args| == 1
      && (StateOf(t, pl, args[0]).Some? ==>
            StateOf(t, pl, args[0]).value.Iter? && StateLeq(Some(Scalar(StateOf(t, pl, args[0]).value.t)), x))
    case LoadBuiltin(v) => StateLeq(bt.varTy(v), x)
  }

  // The instance for these operands, missing ones unknown and extra ones dropped, has its result in x.
  ghost predicate CallTyped(t: Tc, table: seq<FuncDef>, pl: Place, f: nat, args: seq<PrimVal>, key: FuncKey, x: State) {
    && f < |table| && key in t.funcs && key.id == table[f].ident && |key.args| == |table[f].args|
    && (forall k | 0 <= k < |key.args| :: key.args[k] == if k < |args| then StateOf(t, pl, args[k]) else None)
    && StateLeq(StateAt(t.vals, t.funcs[key]), x)
  }

  // x iterates over the keys of m: over the very type of its keys, if m takes what flows into it.
  ghost predicate IterTyped(m: State, x: State, takes: bool) {
    && MapOrUnknown(m) && x.Some? && x.value.Iter?
    && (m.Some? ==> BaseLeq(m.value.key, x.value.t))
    && (takes ==> m.Some? && m.value.key == x.value.t)
  }

  // What an operation says about its operands.
  ghost predicate OperandsTyped(t: Tc, bt: Builtins, pl: Place, e: ExprOp, args: seq<PrimVal>, all: bool) {
    match e
    case CallBuiltin(f) => exists r :: HintsTyped(t, bt, pl, f, args, r, all)
    case Sprintf => ScalarsTyped(t, pl, args, all)
    case Index =>
      && |args| == 2 && (Takes(pl, args[0], all) ==> IsMap(StateOf(t, pl, args[0])))
      && (Takes(pl, args[1], all) && IsMap(StateOf(t, pl, args[0])) ==>
            StateLeq(Some(Scalar(StateOf(t, pl, args[0]).value.key)), StateOf(t, pl, args[1])))
    case _ => true
  }

  // A result in state r and the operands fit what the builtin says of them, unless some are missing.
  ghost predicate HintsTyped(t: Tc, bt: Builtins, pl: Place, f: nat, args: seq<PrimVal>, r: State, all: bool) {
    && bt.step(f, StatesOf(t, pl, args)).Some? && StateLeq(bt.step(f, StatesOf(t, pl, args)).value, r)
    && ((bt.arity(f).Some? ==> bt.arity(f).value <= |args|) ==>
          forall k | 0 <= k < |bt.hints(f)| :: HintTyped(t, pl, args, bt.hints(f)[k], r, all))
  }

  ghost predicate HintTyped(t: Tc, pl: Place, args: seq<PrimVal>, h: Hint, r: State, all: bool) {
    match h
    case FromConst(s, arg) =>
      arg < |args| && (Takes(pl, args[arg], all) ==> StateLeq(s, StateOf(t, pl, args[arg])))
    case Link(from, to, con) =>
      && (from.Some? ==> from.value < |args|) && (to.Some? ==> to.value < |args|)
      && var src := if from.Some? then StateOf(t, pl, args[from.value]) else r;
         if to.None? then Allows(con, src, r)
         else Takes(pl, args[to.value], all) ==> Allows(con, src, StateOf(t, pl, args[to.value]))
  }

  ghost predicate ScalarsTyped(t: Tc, pl: Place, args: seq<PrimVal>, all: bool) {
    forall k | 0 <= k < |args| && Takes(pl, args[k], all) :: StateLeq(Some(Scalar(None)), StateOf(t, pl, args[k]))
  }

  // `m[k] = v`: the map has such keys and such values.
  ghost predicate AssignTyped(m: State, k: State, v: State) {
    IsMap(m) && FitsKey(k, m) && FitsVal(v, m)
  }

  ghost predicate StmtTyped(t: Tc, bt: Builtins, table: seq<FuncDef>, pl: Place, s: PrimStmt, all: bool) {
    match s
    case AsgnVar(id, Phi(preds)) =>
      Takes(pl, PrimVal.Var(id), all) ==>
        forall k | 0 <= k < |preds| ::
          StateLeq(StateOf(t, pl, PrimVal.Var(preds[k].1)), StateOf(t, pl, PrimVal.Var(id)))
    case AsgnVar(id, Op(e, args)) =>
      && OperandsTyped(t, bt, pl, e, args, all)
      && (Takes(pl, PrimVal.Var(id), all) || e.CallUDF? ==>
            OpTyped(t, bt, table, pl, e, args, StateOf(t, pl, PrimVal.Var(id)), all))
    case Do(AsgnIndex(e), args) =>
      && |args| >= 2 && OperandsTyped(t, bt, pl, e, args[2..], all)
      && exists v :: OpTyped(t, bt, table, pl, e, args[2..], v, all) &&
           (Takes(pl, args[0], all) ==> AssignTyped(StateOf(t, pl, args[0]), StateOf(t, pl, args[1]), v))
    case Do(Return, args) =>
      && |args| == 1 && FuncKey(pl.fid, pl.fargs) in t.funcs
      && StateLeq(StateOf(t, pl, args[0]), StateAt(t.vals, t.funcs[FuncKey(pl.fid, pl.fargs)]))
    case Do(Printf(_), args) => ScalarsTyped(t, pl, args, all)
    case Do(PrintAll(_), args) => ScalarsTyped(t, pl, args, all)
    case _ => true
  }

  // An instance: its parameters are at or above the argument states it is for, and its statements fit.
  ghost predicate InstanceTyped(t: Tc, bt: Builtins, table: seq<FuncDef>, lg: set<nat>, def: FuncDef, key: FuncKey,
                                all: bool) {
    var pl := Place(lg, key.id, key.args);
    && (forall j | 0 <= j < |def.args| && j < |key.args| && Takes(pl, PrimVal.Var(def.args[j]), all) ::
          StateLeq(key.args[j], StateOf(t, pl, PrimVal.Var(def.args[j]))))
    && (forall b, i | 0 <= b < |def.blocks| && 0 <= i < |def.blocks[b]| ::
          StmtTyped(t, bt, table, pl, def.blocks[b][i], all))
  }

  // ---- From the constraints ----

  // Constraints that were in the network t0 still are in the solved network t. If `all`, they were
  // there when solving began.
  ghost predicate From(bt: Builtins, table: seq<FuncDef>, t0: Tc, t: Tc, start: seq<CEdge>, all: bool) {
    && TcOk(t, table) && BuiltinsOk(bt) && Extends(t0, t) && Solved(bt, table, t, start)
    && (all ==> forall e | e in t0.edges :: e in start)
  }

  // Flows into this node are sure to have been looked at.
  ghost predicate Sure(t: Tc, n: nat, all: bool) {
    IsVar(t, n) && (all || !t.GlobalNode(n))
  }

  lemma EdgeHolds(bt: Builtins, table: seq<FuncDef>, t0: Tc, t: Tc, start: seq<CEdge>, all: bool, e: CEdge)
    requires From(bt, table, t0, t, start, all) && e in t0.edges
    requires Sure(t, e.dst, all) || (e.con.CallUDF? && IsVar(t, e.dst))
    ensures Bounded(bt, table, t, e)
  {
    hide Bounded, TcOk;
    EdgeStays(t0, t, e);
    assert Counts(t, start, e);
  }

  // What each kind of constraint says of the states at its ends.
  lemma FlowHolds(bt: Builtins, table: seq<FuncDef>, t: Tc, a: nat, b: nat)
    requires Bounded(bt, table, t, CEdge(a, b, Flows))
    ensures StateLeq(StateAt(t.vals, a), StateAt(t.vals, b))
  {
  }

  lemma KeyHolds(bt: Builtins, table: seq<FuncDef>, t: Tc, m: nat, k: nat)
    requires Bounded(bt, table, t, CEdge(m, k, Key))
    ensures MapOrUnknown(StateAt(t.vals, m))
    ensures StateAt(t.vals, m).Some? ==> StateLeq(Some(Scalar(StateAt(t.vals, m).value.key)), StateAt(t.vals, k))
  {
  }

  lemma ValHolds(bt: Builtins, table: seq<FuncDef>, t: Tc, m: nat, x: nat)
    requires Bounded(bt, table, t, CEdge(m, x, Con.Val))
    ensures MapOrUnknown(StateAt(t.vals, m))
    ensures StateAt(t.vals, m).Some? ==> StateLeq(Some(Scalar(StateAt(t.vals, m).value.val)), StateAt(t.vals, x))
  {
  }

  lemma KeyInHolds(bt: Builtins, table: seq<FuncDef>, t: Tc, k: nat, m: nat)
    requires Bounded(bt, table, t, CEdge(k, m, KeyIn))
    ensures IsMap(StateAt(t.vals, m)) && FitsKey(StateAt(t.vals, k), StateAt(t.vals, m))
  {
  }

  lemma ValInHolds(bt: Builtins, table: seq<FuncDef>, t: Tc, v: nat, m: nat)
    requires Bounded(bt, table, t, CEdge(v, m, ValIn))
    ensures IsMap(StateAt(t.vals, m)) && FitsVal(StateAt(t.vals, v), StateAt(t.vals, m))
  {
  }

  lemma IterValHolds(bt: Builtins, table: seq<FuncDef>, t: Tc, i: nat, x: nat)
    requires Bounded(bt, table, t, CEdge(i, x, IterVal))
    ensures StateAt(t.vals, i).Some? ==>
              StateAt(t.vals, i).value.Iter? && StateLeq(Some(Scalar(StateAt(t.vals, i).value.t)), StateAt(t.vals, x))
  {
  }

  lemma IterValInHolds(bt: Builtins, table: seq<FuncDef>, t: Tc, k: nat, i: nat)
    requires Bounded(bt, table, t, CEdge(k, i, IterValIn))
    ensures var (s, x) := (StateAt(t.vals, k), StateAt(t.vals, i));
            && x.Some? && x.value.Iter? && (s.Some? ==> s.value.Scalar?)
            && (s.Some? && s.value.t.Some? ==> s.value.t == x.value.t)
  {
  }

  lemma ConHolds(bt: Builtins, table: seq<FuncDef>, t: Tc, a: nat, b: nat, con: Con)
    requires Bounded(bt, table, t, CEdge(a, b, con)) && !con.CallBuiltin? && !con.CallUDF?
    ensures Allows(con, StateAt(t.vals, a), StateAt(t.vals, b))
  {
    EvalIsLeast(con, StateAt(t.vals, a), StateAt(t.vals, b));
  }

  lemma NodeState(bt: Builtins, table: seq<FuncDef>, t0: Tc, t: Tc, start: seq<CEdge>, all: bool, pl: Place, v: PrimVal)
    requires From(bt, table, t0, t, start, all) && NodeOf(t0, pl, v).Some?
    ensures StateAt(t.vals, NodeOf(t0, pl, v).value) == StateOf(t, pl, v)
    ensures Takes(pl, v, all) ==> Sure(t, NodeOf(t0, pl, v).value, all)
    ensures v.Var? ==> IsVar(t, NodeOf(t0, pl, v).value)
  {
    hide EdgesFine, MapsKnown, ResultsTell, AllKeys, Bounded, Counts;
    NodeStays(t0, t, pl, v);
    hide Extends;
    if v.Var? && !all && !TrueGlobal(pl, v.id) {
      var n := t.env[KeyOf(pl, v.id)];
      forall k | k in t.env && k.func.None?
        ensures t.env[k] != n
      {
      }
    }
  }

  lemma ConstState(bt: Builtins, table: seq<FuncDef>, t0: Tc, t: Tc, start: seq<CEdge>, all: bool, s: State)
    requires From(bt, table, t0, t, start, all) && ConstNode(t0, s).Some?
    ensures StateAt(t.vals, ConstNode(t0, s).value) == s
  {
    hide EdgesFine, MapsKnown, ResultsTell, AllKeys, Bounded, Counts;
    ConstStays(t0, t, s);
  }

  // A known map.
  lemma MapNodeHolds(bt: Builtins, table: seq<FuncDef>, t0: Tc, t: Tc, start: seq<CEdge>, all: bool, n: nat)
    requires From(bt, table, t0, t, start, all) && IsMapNode(t0, Some(n)) && Sure(t, n, all)
    ensures IsMap(StateAt(t.vals, n))
  {
    hide From, Sure, Bounded;
    var c := t0.base[Some(Map(None, None))];
    ConstState(bt, table, t0, t, start, all, Some(Map(None, None)));
    EdgeHolds(bt, table, t0, t, start, all, CEdge(c, n, Flows));
    FlowHolds(bt, table, t, c, n);
  }

  lemma ConstFlows(bt: Builtins, table: seq<FuncDef>, t0: Tc, t: Tc, start: seq<CEdge>, all: bool, s: State, n: nat)
    requires From(bt, table, t0, t, start, all) && Linked(t0, ConstNode(t0, s), Some(n), Flows) && Sure(t, n, all)
    ensures StateLeq(s, StateAt(t.vals, n))
  {
    hide From, Sure, Bounded, ConstNode;
    var c := ConstNode(t0, s).value;
    ConstState(bt, table, t0, t, start, all, s);
    EdgeHolds(bt, table, t0, t, start, all, CEdge(c, n, Flows));
    FlowHolds(bt, table, t, c, n);
  }

  lemma ScalarsHold(bt: Builtins, table: seq<FuncDef>, t0: Tc, t: Tc, start: seq<CEdge>, all: bool, pl: Place,
                    args: seq<PrimVal>)
    requires From(bt, table, t0, t, start, all) && Scalars(t0, pl, args)
    ensures ScalarsTyped(t, pl, args, all)
  {
    hide From, Sure, Bounded, ConstNode, NodeOf, StateOf, Takes;
    forall k | 0 <= k < |args| && Takes(pl, args[k], all)
      ensures StateLeq(Some(Scalar(None)), StateOf(t, pl, args[k]))
    {
      assert Linked(t0, ConstNode(t0, Some(Scalar(None))), NodeOf(t0, pl, args[k]), Flows);
      NodeState(bt, table, t0, t, start, all, pl, args[k]);
      ConstFlows(bt, table, t0, t, start, all, Some(Scalar(None)), NodeOf(t0, pl, args[k]).value);
    }
  }

  lemma PrivateSure(t0: Tc, t: Tc, n: nat, all: bool)
    requires Extends(t0, t) && t0.Private(n)
    ensures Sure(t, n, all)
  {
    PrivateStays(t0, t, n);
  }

  lemma FromExtends(bt: Builtins, table: seq<FuncDef>, t0: Tc, t: Tc, start: seq<CEdge>, all: bool)
    requires From(bt, table, t0, t, start, all)
    ensures Extends(t0, t) && TcOk(t, table) && |t.rules| == |t.vals|
  {
  }

  lemma StatesAre(bt: Builtins, table: seq<FuncDef>, t0: Tc, t: Tc, start: seq<CEdge>, all: bool, pl: Place,
                  args: seq<PrimVal>, ixs: seq<nat>)
    requires From(bt, table, t0, t, start, all) && NodesAre(t0, pl, args, ixs)
    ensures forall k | 0 <= k < |args| :: StateAt(t.vals, ixs[k]) == StateOf(t, pl, args[k])
  {
    hide From, NodeOf, StateOf, Sure;
    forall k | 0 <= k < |args|
      ensures StateAt(t.vals, ixs[k]) == StateOf(t, pl, args[k])
    {
      NodeState(bt, table, t0, t, start, all, pl, args[k]);
    }
  }

  lemma BuiltinHolds(bt: Builtins, table: seq<FuncDef>, t0: Tc, t: Tc, start: seq<CEdge>, all: bool, pl: Place, f: nat,
                     args: seq<PrimVal>, ixs: seq<nat>, tmp: nat, to: nat)
    requires From(bt, table, t0, t, start, all) && NodesAre(t0, pl, args, ixs) && Sure(t, to, all)
    requires BuiltinCalled(t0, bt, f, ixs, tmp, to)
    ensures OpTyped(t, bt, table, pl, ExprOp.CallBuiltin(f), args, StateAt(t.vals, to), all)
  {
    hide From, Sure, NodesAre, StateOf;
    FromExtends(bt, table, t0, t, start, all);
    PrivateSure(t0, t, tmp, all);
    StatesAre(bt, table, t0, t, start, all, pl, args, ixs);
    var e := CEdge(0, tmp, Con.CallBuiltin(ixs, f));
    EdgeHolds(bt, table, t0, t, start, all, e);
    SameCount(t0, pl, args, ixs);
    assert StatesAt(t.vals, ixs) == StatesOf(t, pl, args);
    EdgeHolds(bt, table, t0, t, start, all, CEdge(tmp, to, Flows));
    FlowHolds(bt, table, t, tmp, to);
    LeqOrder(bt.step(f, StatesOf(t, pl, args)).value, StateAt(t.vals, tmp), StateAt(t.vals, to));
  }

  lemma HintsHold(bt: Builtins, table: seq<FuncDef>, t0: Tc, t: Tc, start: seq<CEdge>, all: bool, pl: Place, f: nat,
                  args: seq<PrimVal>, ixs: seq<nat>, tmp: nat, to: nat)
    requires From(bt, table, t0, t, start, all) && NodesAre(t0, pl, args, ixs)
    requires BuiltinCalled(t0, bt, f, ixs, tmp, to)
    ensures HintsTyped(t, bt, pl, f, args, StateAt(t.vals, tmp), all)
  {
    hide From, Sure, NodesAre, StateOf, HintTyped, Hinted, HintFine;
    FromExtends(bt, table, t0, t, start, all);
    PrivateSure(t0, t, tmp, all);
    StatesAre(bt, table, t0, t, start, all, pl, args, ixs);
    EdgeHolds(bt, table, t0, t, start, all, CEdge(0, tmp, Con.CallBuiltin(ixs, f)));
    SameCount(t0, pl, args, ixs);
    assert StatesAt(t.vals, ixs) == StatesOf(t, pl, args);
    if bt.arity(f).Some? ==> bt.arity(f).value <= |args| {
      forall k | 0 <= k < |bt.hints(f)|
        ensures HintTyped(t, pl, args, bt.hints(f)[k], StateAt(t.vals, tmp), all)
      {
        assert Hinted(t0, bt.hints(f)[k], ixs, tmp);
        HintHolds(bt, table, t0, t, start, all, pl, f, k, args, ixs, tmp);
      }
    }
  }

  lemma HintHolds(bt: Builtins, table: seq<FuncDef>, t0: Tc, t: Tc, start: seq<CEdge>, all: bool, pl: Place, f: nat,
                  k: nat, args: seq<PrimVal>, ixs: seq<nat>, tmp: nat)
    requires From(bt, table, t0, t, start, all) && NodesAre(t0, pl, args, ixs) && Sure(t, tmp, all)
    requires k < |bt.hints(f)| && Hinted(t0, bt.hints(f)[k], ixs, tmp)
    ensures HintTyped(t, pl, args, bt.hints(f)[k], StateAt(t.vals, tmp), all)
  {
    FineHint(bt, table, t0, t, start, all, f, k);
    SameCount(t0, pl, args, ixs);
    StatesAre(bt, table, t0, t, start, all, pl, args, ixs);
    hide From, Sure, StateOf, Bounded, ConstNode, Takes, NodeOf, Allows;
    match bt.hints(f)[k]
    case FromConst(s, arg) =>
      NodeState(bt, table, t0, t, start, all, pl, args[arg]);
      if Takes(pl, args[arg], all) {
        ConstFlows(bt, table, t0, t, start, all, s, ixs[arg]);
      }
    case Link(from, to, con) =>
      var a, b := if from.Some? then ixs[from.value] else tmp, if to.Some? then ixs[to.value] else tmp;
      if to.Some? {
        NodeState(bt, table, t0, t, start, all, pl, args[to.value]);
      }
      if to.None? || Takes(pl, args[to.value], all) {
        EdgeHolds(bt, table, t0, t, start, all, CEdge(a, b, con));
        ConHolds(bt, table, t, a, b, con);
      }
  }

  lemma FineHint(bt: Builtins, table: seq<FuncDef>, t0: Tc, t: Tc, start: seq<CEdge>, all: bool, f: nat, k: nat)
    requires From(bt, table, t0, t, start, all) && k < |bt.hints(f)|
    ensures bt.hints(f)[k].Link? ==> !bt.hints(f)[k].con.CallBuiltin? && !bt.hints(f)[k].con.CallUDF?
  {
    hide TcOk, Solved, Extends;
    assert HintFine(bt, f, bt.hints(f)[k]);
  }

  lemma SameCount(t: Tc, pl: Place, args: seq<PrimVal>, ixs: seq<nat>)
    requires NodesAre(t, pl, args, ixs)
    ensures |ixs| == |args|
  {
  }

  lemma CallHolds(bt: Builtins, table: seq<FuncDef>, t0: Tc, t: Tc, start: seq<CEdge>, all: bool, pl: Place, f: nat,
                  args: seq<PrimVal>, ixs: seq<nat>, notifier: nat, to: nat)
    requires From(bt, table, t0, t, start, all) && NodesAre(t0, pl, args, ixs) && IsVar(t, to)
    requires UdfCalled(t0, notifier, f, ixs, to)
    ensures OpTyped(t, bt, table, pl, ExprOp.CallUDF(f), args, StateAt(t.vals, to), all)
  {
    hide From, NodesAre, StateOf;
    StatesAre(bt, table, t0, t, start, all, pl, args, ixs);
    SameCount(t0, pl, args, ixs);
    EdgeHolds(bt, table, t0, t, start, all, CEdge(notifier, to, Con.CallUDF(notifier, ixs, f)));
    var key := CallKey(table, t.vals, f, ixs);
    assert CallTyped(t, table, pl, f, args, key, StateAt(t.vals, to));
  }

  lemma IterHolds(bt: Builtins, table: seq<FuncDef>, t0: Tc, t: Tc, start: seq<CEdge>, all: bool, arr: nat, key: nat,
                  to: nat)
    requires From(bt, table, t0, t, start, all) && Iterated(t0, arr, key, to) && Sure(t, to, all)
    ensures IterTyped(StateAt(t.vals, arr), StateAt(t.vals, to), Sure(t, arr, all))
  {
    hide From, Sure, Bounded;
    FromExtends(bt, table, t0, t, start, all);
    PrivateSure(t0, t, key, all);
    EdgeHolds(bt, table, t0, t, start, all, CEdge(arr, key, Key));
    KeyHolds(bt, table, t, arr, key);
    EdgeHolds(bt, table, t0, t, start, all, CEdge(key, to, IterValIn));
    IterValInHolds(bt, table, t, key, to);
    EdgeHolds(bt, table, t0, t, start, all, CEdge(to, key, IterVal));
    IterValHolds(bt, table, t, to, key);
    if Sure(t, arr, all) {
      EdgeHolds(bt, table, t0, t, start, all, CEdge(key, arr, KeyIn));
      KeyInHolds(bt, table, t, key, arr);
    }
  }

  // An operation's result.
  lemma OpHolds(bt: Builtins, table: seq<FuncDef>, t0: Tc, t: Tc, start: seq<CEdge>, all: bool, notifiers: seq<nat>,
                pl: Place, e: ExprOp, args: seq<PrimVal>, to: nat)
    requires From(bt, table, t0, t, start, all) && OpSays(t0, bt, notifiers, pl, e, args, to)
    requires Sure(t, to, all) || (e.CallUDF? && IsVar(t, to))
    ensures OpTyped(t, bt, table, pl, e, args, StateAt(t.vals, to), all)
  {
    hide From, Sure, NodesAre, StateOf, Bounded, NodeOf, ConstNode, IsMapNode, BuiltinCalled, UdfCalled, Iterated,
         Scalars, IterTyped, CallTyped, Takes;
    if Sure(t, to, all) {
      SureIsVar(t, to, all);
    }
    match e
    case Val =>
      NodeState(bt, table, t0, t, start, all, pl, args[0]);
      EdgeHolds(bt, table, t0, t, start, all, CEdge(NodeOf(t0, pl, args[0]).value, to, Flows));
      FlowHolds(bt, table, t, NodeOf(t0, pl, args[0]).value, to);
    case CallBuiltin(f) =>
      var ixs, tmp: nat :| NodesAre(t0, pl, args, ixs) && BuiltinCalled(t0, bt, f, ixs, tmp, to);
      BuiltinHolds(bt, table, t0, t, start, all, pl, f, args, ixs, tmp, to);
    case CallUDF(f) =>
      var ixs :| NodesAre(t0, pl, args, ixs) && UdfCalled(t0, notifiers[f], f, ixs, to);
      CallHolds(bt, table, t0, t, start, all, pl, f, args, ixs, notifiers[f], to);
    case Sprintf => ConstFlows(bt, table, t0, t, start, all, Some(Scalar(Some(Str))), to);
    case Index =>
      var arr := NodeOf(t0, pl, args[0]).value;
      NodeState(bt, table, t0, t, start, all, pl, args[0]);
      EdgeHolds(bt, table, t0, t, start, all, CEdge(arr, to, Con.Val));
      ValHolds(bt, table, t, arr, to);
    case IterBegin =>
      MapIsSome(t0, NodeOf(t0, pl, args[0]));
      var arr := NodeOf(t0, pl, args[0]).value;
      var key: nat :| Iterated(t0, arr, key, to);
      NodeState(bt, table, t0, t, start, all, pl, args[0]);
      IterHolds(bt, table, t0, t, start, all, arr, key, to);
      FewerTakes(StateAt(t.vals, arr), StateAt(t.vals, to), Sure(t, arr, all), Takes(pl, args[0], all));
    case HasNext => ConstFlows(bt, table, t0, t, start, all, Some(Scalar(Some(Int))), to);
    case Next =>
      NodeState(bt, table, t0, t, start, all, pl, args[0]);
      EdgeHolds(bt, table, t0, t, start, all, CEdge(NodeOf(t0, pl, args[0]).value, to, IterVal));
      IterValHolds(bt, table, t, NodeOf(t0, pl, args[0]).value, to);
    case LoadBuiltin(v) => ConstFlows(bt, table, t0, t, start, all, bt.varTy(v), to);
  }

  lemma SureIsVar(t: Tc, n: nat, all: bool)
    requires Sure(t, n, all)
    ensures IsVar(t, n)
  {
  }

  lemma FewerTakes(m: State, x: State, a: bool, b: bool)
    requires IterTyped(m, x, a) && (b ==> a)
    ensures IterTyped(m, x, b)
  {
  }

  // An operation's operands.
  lemma OperandsHold(bt: Builtins, table: seq<FuncDef>, t0: Tc, t: Tc, start: seq<CEdge>, all: bool,
                     notifiers: seq<nat>, pl: Place, e: ExprOp, args: seq<PrimVal>, to: nat)
    requires From(bt, table, t0, t, start, all) && OpSays(t0, bt, notifiers, pl, e, args, to)
    ensures OperandsTyped(t, bt, pl, e, args, all)
  {
    hide From, Sure, NodesAre, StateOf, Bounded, NodeOf, ConstNode, IsMapNode, BuiltinCalled, UdfCalled, Iterated,
         Scalars, Takes, HintsTyped;
    match e
    case CallBuiltin(f) =>
      var ixs, tmp: nat :| NodesAre(t0, pl, args, ixs) && BuiltinCalled(t0, bt, f, ixs, tmp, to);
      HintsHold(bt, table, t0, t, start, all, pl, f, args, ixs, tmp, to);
    case Sprintf => ScalarsHold(bt, table, t0, t, start, all, pl, args);
    case Index =>
      var arr, key := NodeOf(t0, pl, args[0]).value, NodeOf(t0, pl, args[1]).value;
      NodeState(bt, table, t0, t, start, all, pl, args[0]);
      NodeState(bt, table, t0, t, start, all, pl, args[1]);
      if Takes(pl, args[0], all) {
        MapNodeHolds(bt, table, t0, t, start, all, arr);
      }
      if Takes(pl, args[1], all) {
        EdgeHolds(bt, table, t0, t, start, all, CEdge(arr, key, Key));
        KeyHolds(bt, table, t, arr, key);
      }
    case _ =>
  }

  lemma AssignHolds(bt: Builtins, table: seq<FuncDef>, t0: Tc, t: Tc, start: seq<CEdge>, all: bool, notifiers: seq<nat>,
                    pl: Place, e: ExprOp, args: seq<PrimVal>, val: nat)
    requires From(bt, table, t0, t, start, all) && |args| >= 2
    requires IndexAssigned(t0, bt, notifiers, pl, e, args, val)
    ensures OpTyped(t, bt, table, pl, e, args[2..], StateAt(t.vals, val), all)
    ensures OperandsTyped(t, bt, pl, e, args[2..], all)
    ensures Takes(pl, args[0], all) ==>
              AssignTyped(StateOf(t, pl, args[0]), StateOf(t, pl, args[1]), StateAt(t.vals, val))
  {
    hide From, Sure, StateOf, Bounded, NodeOf, IsMapNode, Takes, OpSays, OpTyped, OperandsTyped, FitsKey, FitsVal;
    FromExtends(bt, table, t0, t, start, all);
    PrivateSure(t0, t, val, all);
    OpHolds(bt, table, t0, t, start, all, notifiers, pl, e, args[2..], val);
    OperandsHold(bt, table, t0, t, start, all, notifiers, pl, e, args[2..], val);
    NodeState(bt, table, t0, t, start, all, pl, args[0]);
    NodeState(bt, table, t0, t, start, all, pl, args[1]);
    if Takes(pl, args[0], all) {
      var arr, key := NodeOf(t0, pl, args[0]).value, NodeOf(t0, pl, args[1]).value;
      EdgeHolds(bt, table, t0, t, start, all, CEdge(key, arr, KeyIn));
      KeyInHolds(bt, table, t, key, arr);
      EdgeHolds(bt, table, t0, t, start, all, CEdge(val, arr, ValIn));
      ValInHolds(bt, table, t, val, arr);
    }
  }

  lemma ReturnHolds(bt: Builtins, table: seq<FuncDef>, t0: Tc, t: Tc, start: seq<CEdge>, all: bool, pl: Place,
                    v: PrimVal)
    requires From(bt, table, t0, t, start, all)
    requires Linked(t0, NodeOf(t0, pl, v), Lookup(t0.funcs, FuncKey(pl.fid, pl.fargs)), Flows)
    ensures FuncKey(pl.fid, pl.fargs) in t.funcs
    ensures StateLeq(StateOf(t, pl, v), StateAt(t.vals, t.funcs[FuncKey(pl.fid, pl.fargs)]))
  {
    hide From, StateOf, Bounded, NodeOf;
    var key := FuncKey(pl.fid, pl.fargs);
    FromExtends(bt, table, t0, t, start, all);
    FuncStays(t0, t, key);
    ResultPrivate(t, table, key, all);
    NodeState(bt, table, t0, t, start, all, pl, v);
    EdgeHolds(bt, table, t0, t, start, all, CEdge(NodeOf(t0, pl, v).value, t.funcs[key], Flows));
    FlowHolds(bt, table, t, NodeOf(t0, pl, v).value, t.funcs[key]);
  }

  lemma ResultPrivate(t: Tc, table: seq<FuncDef>, key: FuncKey, all: bool)
    requires TcOk(t, table) && key in t.funcs
    ensures Sure(t, t.funcs[key], all)
  {
    hide EdgesFine, MapsKnown, ResultsTell, AllKeys;
  }

  lemma PhiHolds(bt: Builtins, table: seq<FuncDef>, t0: Tc, t: Tc, start: seq<CEdge>, all: bool, pl: Place,
                 from: PrimVal, to: PrimVal)
    requires From(bt, table, t0, t, start, all) && Linked(t0, NodeOf(t0, pl, from), NodeOf(t0, pl, to), Flows)
    requires Takes(pl, to, all)
    ensures StateLeq(StateOf(t, pl, from), StateOf(t, pl, to))
  {
    hide From, Sure, StateOf, Bounded, NodeOf, Takes;
    NodeState(bt, table, t0, t, start, all, pl, from);
    NodeState(bt, table, t0, t, start, all, pl, to);
    EdgeHolds(bt, table, t0, t, start, all, CEdge(NodeOf(t0, pl, from).value, NodeOf(t0, pl, to).value, Flows));
    FlowHolds(bt, table, t, NodeOf(t0, pl, from).value, NodeOf(t0, pl, to).value);
  }

  lemma StmtHolds(bt: Builtins, table: seq<FuncDef>, t0: Tc, t: Tc, start: seq<CEdge>, all: bool, notifiers: seq<nat>,
                  pl: Place, s: PrimStmt)
    requires From(bt, table, t0, t, start, all) && StmtSays(t0, bt, notifiers, pl, s)
    ensures StmtTyped(t, bt, table, pl, s, all)
  {
    hide From, Sure, StateOf, NodeOf, Takes, OpSays, OpTyped, OperandsTyped, Scalars, ScalarsTyped, IndexAssigned,
         AssignTyped;
    match s
    case AsgnVar(id, Phi(preds)) =>
      if Takes(pl, PrimVal.Var(id), all) {
        forall k | 0 <= k < |preds|
          ensures StateLeq(StateOf(t, pl, PrimVal.Var(preds[k].1)), StateOf(t, pl, PrimVal.Var(id)))
        {
          PhiHolds(bt, table, t0, t, start, all, pl, PrimVal.Var(preds[k].1), PrimVal.Var(id));
        }
      }
    case AsgnVar(id, Op(e, args)) =>
      var to := NodeOf(t0, pl, PrimVal.Var(id)).value;
      OperandsHold(bt, table, t0, t, start, all, notifiers, pl, e, args, to);
      NodeState(bt, table, t0, t, start, all, pl, PrimVal.Var(id));
      if Takes(pl, PrimVal.Var(id), all) || e.CallUDF? {
        OpHolds(bt, table, t0, t, start, all, notifiers, pl, e, args, to);
      }
    case Do(AsgnIndex(e), args) =>
      var val: nat :| IndexAssigned(t0, bt, notifiers, pl, e, args, val);
      AssignHolds(bt, table, t0, t, start, all, notifiers, pl, e, args, val);
    case Do(Return, args) => ReturnHolds(bt, table, t0, t, start, all, pl, args[0]);
    case Do(Printf(_), args) => ScalarsHold(bt, table, t0, t, start, all, pl, args);
    case Do(PrintAll(_), args) => ScalarsHold(bt, table, t0, t, start, all, pl, args);
    case _ =>
  }

  lemma ArgHolds(bt: Builtins, table: seq<FuncDef>, t0: Tc, t: Tc, start: seq<CEdge>, all: bool, pl: Place, s: State,
                 arg: nat, param: PrimVal)
    requires From(bt, table, t0, t, start, all) && Linked(t0, Some(arg), NodeOf(t0, pl, param), Flows)
    requires Takes(pl, param, all) && StateLeq(s, StateAt(t.vals, arg))
    ensures StateLeq(s, StateOf(t, pl, param))
  {
    hide From, Sure, StateOf, Bounded, NodeOf, Takes;
    NodeState(bt, table, t0, t, start, all, pl, param);
    EdgeHolds(bt, table, t0, t, start, all, CEdge(arg, NodeOf(t0, pl, param).value, Flows));
    FlowHolds(bt, table, t, arg, NodeOf(t0, pl, param).value);
    LeqOrder(s, StateAt(t.vals, arg), StateOf(t, pl, param));
  }

  lemma InstanceHolds(bt: Builtins, table: seq<FuncDef>, t0: Tc, t: Tc, start: seq<CEdge>, all: bool, lg: set<nat>,
                      def: FuncDef, notifier: nat, key: FuncKey)
    requires From(bt, table, t0, t, start, all) && Higher(t0.vals, t.vals)
    requires InstanceBuilt(t0, bt, lg, def, notifier, key)
    ensures InstanceTyped(t, bt, table, lg, def, key, all)
  {
    hide From, Takes, StateOf, StmtTyped, StmtSays, NodeOf, Linked;
    var pl := Place(lg, key.id, key.args);
    var args :| ArgsGiven(t0.vals, key.args, args) &&
                Instantiated(t0, bt, t0.notifiers, pl, def, args, t0.funcs[key], notifier);
    forall j | 0 <= j < |def.args| && j < |key.args| && Takes(pl, PrimVal.Var(def.args[j]), all)
      ensures StateLeq(key.args[j], StateOf(t, pl, PrimVal.Var(def.args[j])))
    {
      LeqOrder(key.args[j], t0.vals[args[j]], t.vals[args[j]]);
      ArgHolds(bt, table, t0, t, start, all, pl, key.args[j], args[j], PrimVal.Var(def.args[j]));
    }
    forall b, i | 0 <= b < |def.blocks| && 0 <= i < |def.blocks[b]|
      ensures StmtTyped(t, bt, table, pl, def.blocks[b][i], all)
    {
      StmtHolds(bt, table, t0, t, start, all, t0.notifiers, pl, def.blocks[b][i]);
    }
  }

  // ---- What a single constraint means ----

  // Evaluation fails for a source of the wrong kind only; otherwise it gives the least such target.
  lemma EvalIsLeast(con: Con, s: State, u: State)
    requires !con.CallBuiltin? && !con.CallUDF?
    ensures EvalSimple(con, s).None? <==> WrongKind(con, s)
    ensures EvalSimple(con, s).Some? ==> (StateLeq(EvalSimple(con, s).value, u) <==> Allows(con, s, u))
  {
  }

  // ---- All instances ----

  lemma InstancesHold(bt: Builtins, table: seq<FuncDef>, t0: Tc, t: Tc, start: seq<CEdge>, all: bool, lg: set<nat>)
    requires From(bt, table, t0, t, start, all) && Higher(t0.vals, t.vals)
    requires InstancesBuilt(t0, bt, table, lg) && |t0.notifiers| == |table|
    ensures forall f, key | 0 <= f < |table| && key in t0.funcs && key.id == table[f].ident ::
              InstanceTyped(t, bt, table, lg, table[f], key, all)
  {
    hide From, InstanceBuilt, InstanceTyped, Higher;
    forall f, key | 0 <= f < |table| && key in t0.funcs && key.id == table[f].ident
      ensures InstanceTyped(t, bt, table, lg, table[f], key, all)
    {
      InstanceHolds(bt, table, t0, t, start, all, lg, table[f], t0.notifiers[f], key);
    }
  }
}
