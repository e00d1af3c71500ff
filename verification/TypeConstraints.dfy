// Which constraints the statements of a function put into the network of src/types.rs.
module TypeConstraints {
  import opened Ir
  import opened TypeStates
  import opened TypeNet

  // Where a statement is looked at: the names that count as local, and the instance of its function.
  datatype Place = Place(localGlobals: set<nat>, fid: nat, fargs: seq<State>)

  function KeyOf(pl: Place, id: Ident): VarKey {
    if id.IsGlobal(pl.localGlobals) then VarKey(id, None, []) else VarKey(id, Some(pl.fid), pl.fargs)
  }

  function Lookup<K, V>(m: map<K, V>, k: K): Option<V> {
    if k in m then Some(m[k]) else None
  }

  // The node of an operand, once it has one.
  function NodeOf(t: Tc, pl: Place, v: PrimVal): Option<nat> {
    match v
    case Var(id) => Lookup(t.env, KeyOf(pl, id))
    case ILit(_) => ConstNode(t, Some(Scalar(Some(Int))))
    case FLit(_) => ConstNode(t, Some(Scalar(Some(Float))))
    case StrLit(_) => ConstNode(t, Some(Scalar(Some(Str))))
  }

  function ConstNode(t: Tc, s: State): Option<nat> {
    Lookup(t.base, s)
  }

  ghost predicate Linked(t: Tc, from: Option<nat>, to: Option<nat>, con: Con) {
    from.Some? && to.Some? && CEdge(from.value, to.value, con) in t.edges
  }

  ghost predicate NodesAre(t: Tc, pl: Place, args: seq<PrimVal>, ixs: seq<nat>) {
    |ixs| == |args| && forall k | 0 <= k < |args| :: NodeOf(t, pl, args[k]) == Some(ixs[k])
  }

  // A map, and known to be one.
  ghost predicate IsMapNode(t: Tc, arr: Option<nat>) {
    arr.Some? && arr.value in t.maps && KnownMap(t, arr.value)
  }

  ghost predicate Scalars(t: Tc, pl: Place, args: seq<PrimVal>) {
    forall k | 0 <= k < |args| :: Linked(t, ConstNode(t, Some(Scalar(None))), NodeOf(t, pl, args[k]), Flows)
  }

  ghost predicate TellsChanges(t: Tc, args: seq<nat>, x: nat) {
    forall a | a in args :: a in t.callDeps && x in t.callDeps[a]
  }

  // A builtin's result goes to a node of its own, which is told of every argument's changes and
  // flows on; what the builtin knows about its arguments is linked to that node.
  ghost predicate BuiltinCalled(t: Tc, bt: Builtins, f: nat, args: seq<nat>, tmp: nat, to: nat) {
    && CEdge(0, tmp, Con.CallBuiltin(args, f)) in t.edges && CEdge(tmp, to, Flows) in t.edges
    && t.Private(tmp) && TellsChanges(t, args, tmp) && AllHinted(t, bt, f, args, tmp)
  }

  // Unless arguments are missing, everything the builtin says of them is there.
  ghost predicate AllHinted(t: Tc, bt: Builtins, f: nat, args: seq<nat>, res: nat) {
    (bt.arity(f).Some? ==> bt.arity(f).value <= |args|) ==>
      forall k | 0 <= k < |bt.hints(f)| :: Hinted(t, bt.hints(f)[k], args, res)
  }

  ghost predicate Hinted(t: Tc, h: Hint, args: seq<nat>, res: nat) {
    match h
    case FromConst(s, arg) => arg < |args| && Linked(t, ConstNode(t, s), Some(args[arg]), Flows)
    case Link(from, to, con) =>
      && (from.Some? ==> from.value < |args|) && (to.Some? ==> to.value < |args|)
      && CEdge(if from.Some? then args[from.value] else res, if to.Some? then args[to.value] else res, con) in t.edges
  }

  ghost predicate UdfCalled(t: Tc, notifier: nat, f: nat, args: seq<nat>, to: nat) {
    CEdge(notifier, to, Con.CallUDF(notifier, args, f)) in t.edges && TellsChanges(t, args, to)
  }

  // The array's keys and the iterator's values agree with a node between them.
  ghost predicate Iterated(t: Tc, arr: nat, key: nat, iter: nat) {
    && t.Private(key) && CEdge(key, arr, KeyIn) in t.edges && CEdge(arr, key, Key) in t.edges
    && CEdge(key, iter, IterValIn) in t.edges && CEdge(iter, key, IterVal) in t.edges
  }

  ghost predicate OpSays(t: Tc, bt: Builtins, notifiers: seq<nat>, pl: Place, e: ExprOp, args: seq<PrimVal>, to: nat) {
    match e
    case Val => |args| == 1 && Linked(t, NodeOf(t, pl, args[0]), Some(to), Flows)
    case CallBuiltin(f) => exists ixs, tmp: nat :: NodesAre(t, pl, args, ixs) && BuiltinCalled(t, bt, f, ixs, tmp, to)
    case CallUDF(f) =>
      f < |notifiers| && exists ixs :: NodesAre(t, pl, args, ixs) && UdfCalled(t, notifiers[f], f, ixs, to)
    case Sprintf => Scalars(t, pl, args) && Linked(t, ConstNode(t, Some(Scalar(Some(Str)))), Some(to), Flows)
    case Index =>
      && |args| == 2 && IsMapNode(t, NodeOf(t, pl, args[0]))
      && Linked(t, NodeOf(t, pl, args[0]), NodeOf(t, pl, args[1]), Key)
      && Linked(t, NodeOf(t, pl, args[0]), Some(to), Con.Val)
    case IterBegin =>
      && |args| == 1 && IsMapNode(t, NodeOf(t, pl, args[0]))
      && exists key: nat :: Iterated(t, NodeOf(t, pl, args[0]).value, key, to)
    case HasNext => Linked(t, ConstNode(t, Some(Scalar(Some(Int)))), Some(to), Flows)
    case Next => |args| == 1 && Linked(t, NodeOf(t, pl, args[0]), Some(to), IterVal)
    case LoadBuiltin(v) => Linked(t, ConstNode(t, bt.varTy(v)), Some(to), Flows)
  }

  // `arr[key] = e`: the key and the value of e flow into the array.
  ghost predicate IndexAssigned(t: Tc, bt: Builtins, notifiers: seq<nat>, pl: Place, e: ExprOp, args: seq<PrimVal>,
                                val: nat)
    requires |args| >= 2
  {
    && IsMapNode(t, NodeOf(t, pl, args[0]))
    && Linked(t, NodeOf(t, pl, args[1]), NodeOf(t, pl, args[0]), KeyIn)
    && Linked(t, Some(val), NodeOf(t, pl, args[0]), ValIn) && t.Private(val)
    && OpSays(t, bt, notifiers, pl, e, args[2..], val)
  }

  // The constraints of one statement.
  ghost predicate StmtSays(t: Tc, bt: Builtins, notifiers: seq<nat>, pl: Place, s: PrimStmt) {
    match s
    case AsgnVar(id, Phi(preds)) =>
      forall k | 0 <= k < |preds| ::
        Linked(t, NodeOf(t, pl, PrimVal.Var(preds[k].1)), NodeOf(t, pl, PrimVal.Var(id)), Flows)
    case AsgnVar(id, Op(e, args)) =>
      && NodeOf(t, pl, PrimVal.Var(id)).Some?
      && OpSays(t, bt, notifiers, pl, e, args, NodeOf(t, pl, PrimVal.Var(id)).value)
    case Do(AsgnIndex(e), args) => |args| >= 2 && exists val: nat :: IndexAssigned(t, bt, notifiers, pl, e, args, val)
    case Do(Return, args) =>
      |args| == 1 && Linked(t, NodeOf(t, pl, args[0]), Lookup(t.funcs, FuncKey(pl.fid, pl.fargs)), Flows)
    case Do(Printf(_), args) => Scalars(t, pl, args)
    case Do(PrintAll(_), args) => Scalars(t, pl, args)
    case _ => true
  }

  // ---- What the network says, it goes on saying ----

  lemma NodeStays(t: Tc, t': Tc, pl: Place, v: PrimVal)
    requires Extends(t, t') && NodeOf(t, pl, v).Some?
    ensures NodeOf(t', pl, v) == NodeOf(t, pl, v)
  {
  }

  lemma ConstStays(t: Tc, t': Tc, s: State)
    requires Extends(t, t') && ConstNode(t, s).Some?
    ensures ConstNode(t', s) == ConstNode(t, s)
  {
  }

  lemma EdgeStays(t: Tc, t': Tc, e: CEdge)
    requires Extends(t, t') && e in t.edges
    ensures e in t'.edges
  {
  }

  lemma TellsAll(t: Tc, args: seq<nat>, x: nat)
    requires forall a | a in args :: a in t.callDeps && x in t.callDeps[a]
    ensures TellsChanges(t, args, x)
  {
  }

  lemma TellsStays(t: Tc, t': Tc, args: seq<nat>, x: nat)
    requires Extends(t, t') && TellsChanges(t, args, x)
    ensures TellsChanges(t', args, x)
  {
    forall a | a in args
      ensures a in t'.callDeps && x in t'.callDeps[a]
    {
      assert x in t.callDeps[a];
    }
  }

  lemma NodesStay(t: Tc, t': Tc, pl: Place, args: seq<PrimVal>, ixs: seq<nat>)
    requires Extends(t, t') && NodesAre(t, pl, args, ixs)
    ensures NodesAre(t', pl, args, ixs)
  {
    hide Extends, NodeOf;
    forall k | 0 <= k < |args|
      ensures NodeOf(t', pl, args[k]) == Some(ixs[k])
    {
      NodeStays(t, t', pl, args[k]);
    }
  }

  lemma NoScalars(t: Tc, pl: Place)
    ensures Scalars(t, pl, [])
  {
  }

  lemma OneMoreScalar(t: Tc, pl: Place, args: seq<PrimVal>, k: nat)
    requires k < |args| && Scalars(t, pl, args[..k])
    requires Linked(t, ConstNode(t, Some(Scalar(None))), NodeOf(t, pl, args[k]), Flows)
    ensures Scalars(t, pl, args[..k + 1])
  {
    hide NodeOf, ConstNode;
    assert args[..k + 1] == args[..k] + [args[k]];
  }

  lemma ScalarsStay(t: Tc, t': Tc, pl: Place, args: seq<PrimVal>)
    requires Extends(t, t') && Scalars(t, pl, args)
    ensures Scalars(t', pl, args)
  {
    hide Extends, NodeOf, ConstNode;
    forall k | 0 <= k < |args|
      ensures Linked(t', ConstNode(t', Some(Scalar(None))), NodeOf(t', pl, args[k]), Flows)
    {
      assert Linked(t, ConstNode(t, Some(Scalar(None))), NodeOf(t, pl, args[k]), Flows);
      ConstStays(t, t', Some(Scalar(None)));
      NodeStays(t, t', pl, args[k]);
      EdgeStays(t, t', CEdge(ConstNode(t, Some(Scalar(None))).value, NodeOf(t, pl, args[k]).value, Flows));
    }
  }

  lemma MapNodeStays(t: Tc, t': Tc, arr: Option<nat>)
    requires Extends(t, t') && IsMapNode(t, arr)
    ensures IsMapNode(t', arr)
  {
  }

  lemma HintStays(t: Tc, t': Tc, h: Hint, args: seq<nat>, res: nat)
    requires Extends(t, t') && Hinted(t, h, args, res)
    ensures Hinted(t', h, args, res)
  {
  }

  lemma BuiltinStays(t: Tc, t': Tc, bt: Builtins, f: nat, args: seq<nat>, tmp: nat, to: nat)
    requires Extends(t, t') && BuiltinCalled(t, bt, f, args, tmp, to)
    ensures BuiltinCalled(t', bt, f, args, tmp, to)
  {
    hide Extends, Hinted, TellsChanges;
    EdgeStays(t, t', CEdge(0, tmp, Con.CallBuiltin(args, f)));
    EdgeStays(t, t', CEdge(tmp, to, Flows));
    TellsStays(t, t', args, tmp);
    PrivateStays(t, t', tmp);
    AllHintedStill(t, t', bt, f, args, tmp);
  }

  lemma AllHintedStill(t: Tc, t': Tc, bt: Builtins, f: nat, args: seq<nat>, res: nat)
    requires Extends(t, t') && AllHinted(t, bt, f, args, res)
    ensures AllHinted(t', bt, f, args, res)
  {
    hide Extends, Hinted;
    HintsStay(t, t', bt.hints(f), args, res, |bt.hints(f)|);
  }

  lemma LinkStays(t: Tc, t': Tc, pl: Place, from: PrimVal, to: nat, con: Con)
    requires Extends(t, t') && Linked(t, NodeOf(t, pl, from), Some(to), con)
    ensures Linked(t', NodeOf(t', pl, from), Some(to), con)
  {
    NodeStays(t, t', pl, from);
    EdgeStays(t, t', CEdge(NodeOf(t, pl, from).value, to, con));
  }

  lemma ConstLinkStays(t: Tc, t': Tc, s: State, to: nat)
    requires Extends(t, t') && Linked(t, ConstNode(t, s), Some(to), Flows)
    ensures Linked(t', ConstNode(t', s), Some(to), Flows)
  {
    ConstStays(t, t', s);
    EdgeStays(t, t', CEdge(ConstNode(t, s).value, to, Flows));
  }

  lemma OpSaysStill(t: Tc, t': Tc, bt: Builtins, notifiers: seq<nat>, pl: Place, e: ExprOp, args: seq<PrimVal>, to: nat)
    requires Extends(t, t') && OpSays(t, bt, notifiers, pl, e, args, to)
    ensures OpSays(t', bt, notifiers, pl, e, args, to)
  {
    hide Extends, NodeOf, ConstNode, NodesAre, BuiltinCalled, TellsChanges, Scalars, IsMapNode;
    match e
    case Val => LinkStays(t, t', pl, args[0], to, Flows);
    case CallBuiltin(f) =>
      var ixs, tmp: nat :| NodesAre(t, pl, args, ixs) && BuiltinCalled(t, bt, f, ixs, tmp, to);
      NodesStay(t, t', pl, args, ixs);
      BuiltinStays(t, t', bt, f, ixs, tmp, to);
    case CallUDF(f) =>
      var ixs :| NodesAre(t, pl, args, ixs) && UdfCalled(t, notifiers[f], f, ixs, to);
      NodesStay(t, t', pl, args, ixs);
      EdgeStays(t, t', CEdge(notifiers[f], to, Con.CallUDF(notifiers[f], ixs, f)));
      TellsStays(t, t', ixs, to);
    case Sprintf =>
      ScalarsStay(t, t', pl, args);
      ConstLinkStays(t, t', Some(Scalar(Some(Str))), to);
    case Index =>
      NodeStays(t, t', pl, args[0]);
      NodeStays(t, t', pl, args[1]);
      MapNodeStays(t, t', NodeOf(t, pl, args[0]));
      EdgeStays(t, t', CEdge(NodeOf(t, pl, args[0]).value, NodeOf(t, pl, args[1]).value, Key));
      EdgeStays(t, t', CEdge(NodeOf(t, pl, args[0]).value, to, Con.Val));
    case IterBegin =>
      MapIsSome(t, NodeOf(t, pl, args[0]));
      NodeStays(t, t', pl, args[0]);
      MapNodeStays(t, t', NodeOf(t, pl, args[0]));
      var arr := NodeOf(t, pl, args[0]).value;
      var key: nat :| Iterated(t, arr, key, to);
      PrivateStays(t, t', key);
      EdgeStays(t, t', CEdge(key, arr, KeyIn));
      EdgeStays(t, t', CEdge(arr, key, Key));
      EdgeStays(t, t', CEdge(key, to, IterValIn));
      EdgeStays(t, t', CEdge(to, key, IterVal));
      assert Iterated(t', arr, key, to);
    case HasNext => ConstLinkStays(t, t', Some(Scalar(Some(Int))), to);
    case Next => LinkStays(t, t', pl, args[0], to, IterVal);
    case LoadBuiltin(v) => ConstLinkStays(t, t', bt.varTy(v), to);
  }

  lemma MapIsSome(t: Tc, arr: Option<nat>)
    requires IsMapNode(t, arr)
    ensures arr.Some?
  {
  }

  lemma StmtSaysStill(t: Tc, t': Tc, bt: Builtins, notifiers: seq<nat>, pl: Place, s: PrimStmt)
    requires Extends(t, t') && StmtSays(t, bt, notifiers, pl, s)
    ensures StmtSays(t', bt, notifiers, pl, s)
  {
    hide Extends, NodeOf, ConstNode, OpSays, IsMapNode, Scalars;
    match s
    case AsgnVar(id, Phi(preds)) =>
      forall k | 0 <= k < |preds|
        ensures Linked(t', NodeOf(t', pl, PrimVal.Var(preds[k].1)), NodeOf(t', pl, PrimVal.Var(id)), Flows)
      {
        NodeStays(t, t', pl, PrimVal.Var(preds[k].1));
        NodeStays(t, t', pl, PrimVal.Var(id));
        var from, to := NodeOf(t, pl, PrimVal.Var(preds[k].1)).value, NodeOf(t, pl, PrimVal.Var(id)).value;
        EdgeStays(t, t', CEdge(from, to, Flows));
      }
    case AsgnVar(id, Op(e, args)) =>
      NodeStays(t, t', pl, PrimVal.Var(id));
      OpSaysStill(t, t', bt, notifiers, pl, e, args, NodeOf(t, pl, PrimVal.Var(id)).value);
    case Do(AsgnIndex(e), args) =>
      var val: nat :| IndexAssigned(t, bt, notifiers, pl, e, args, val);
      NodeStays(t, t', pl, args[0]);
      NodeStays(t, t', pl, args[1]);
      MapNodeStays(t, t', NodeOf(t, pl, args[0]));
      EdgeStays(t, t', CEdge(NodeOf(t, pl, args[1]).value, NodeOf(t, pl, args[0]).value, KeyIn));
      EdgeStays(t, t', CEdge(val, NodeOf(t, pl, args[0]).value, ValIn));
      PrivateStays(t, t', val);
      OpSaysStill(t, t', bt, notifiers, pl, e, args[2..], val);
      assert IndexAssigned(t', bt, notifiers, pl, e, args, val);
    case Do(Return, args) =>
      NodeStays(t, t', pl, args[0]);
      FuncStays(t, t', FuncKey(pl.fid, pl.fargs));
      EdgeStays(t, t', CEdge(NodeOf(t, pl, args[0]).value, t.funcs[FuncKey(pl.fid, pl.fargs)], Flows));
    case Do(Printf(_), args) => ScalarsStay(t, t', pl, args);
    case Do(PrintAll(_), args) => ScalarsStay(t, t', pl, args);
    case _ =>
  }

  lemma FuncStays(t: Tc, t': Tc, key: FuncKey)
    requires Extends(t, t') && key in t.funcs
    ensures key in t'.funcs && t'.funcs[key] == t.funcs[key]
  {
  }

  lemma HintsStay(t: Tc, t': Tc, hints: seq<Hint>, args: seq<nat>, res: nat, k: nat)
    requires Extends(t, t') && k <= |hints|
    ensures forall j | 0 <= j < k && Hinted(t, hints[j], args, res) :: Hinted(t', hints[j], args, res)
  {
    hide Extends, Hinted;
    forall j | 0 <= j < k && Hinted(t, hints[j], args, res)
      ensures Hinted(t', hints[j], args, res)
    {
      HintStays(t, t', hints[j], args, res);
    }
  }

  lemma ConstIs(t: Tc, s: State, n: nat)
    requires s in t.base && t.base[s] == n
    ensures ConstNode(t, s) == Some(n)
  {
  }

  lemma IterSays(t: Tc, bt: Builtins, notifiers: seq<nat>, pl: Place, arr: PrimVal, ix: nat, key: nat, to: nat)
    requires NodeOf(t, pl, arr) == Some(ix) && IsMapNode(t, Some(ix)) && Iterated(t, ix, key, to)
    ensures OpSays(t, bt, notifiers, pl, ExprOp.IterBegin, [arr], to)
  {
    hide NodeOf, IsMapNode;
  }

  lemma IndexSays(t: Tc, bt: Builtins, notifiers: seq<nat>, pl: Place, arr: PrimVal, key: PrimVal, ix: nat, kx: nat,
                  to: nat)
    requires NodeOf(t, pl, arr) == Some(ix) && NodeOf(t, pl, key) == Some(kx) && IsMapNode(t, Some(ix))
    requires CEdge(ix, kx, Key) in t.edges && CEdge(ix, to, Con.Val) in t.edges
    ensures OpSays(t, bt, notifiers, pl, Index, [arr, key], to)
  {
    hide NodeOf, IsMapNode;
  }

  lemma AssignSays(t: Tc, bt: Builtins, notifiers: seq<nat>, pl: Place, e: ExprOp, args: seq<PrimVal>, ix: nat,
                   kx: nat, val: nat)
    requires |args| >= 2 && NodeOf(t, pl, args[0]) == Some(ix) && NodeOf(t, pl, args[1]) == Some(kx)
    requires IsMapNode(t, Some(ix)) && CEdge(kx, ix, KeyIn) in t.edges && CEdge(val, ix, ValIn) in t.edges
    requires t.Private(val) && OpSays(t, bt, notifiers, pl, e, args[2..], val)
    ensures IndexAssigned(t, bt, notifiers, pl, e, args, val)
  {
    hide NodeOf, IsMapNode, OpSays;
  }

  lemma CallSays(t: Tc, bt: Builtins, f: nat, args: seq<nat>, tmp: nat, to: nat)
    requires CEdge(0, tmp, Con.CallBuiltin(args, f)) in t.edges && CEdge(tmp, to, Flows) in t.edges
    requires t.Private(tmp) && TellsChanges(t, args, tmp) && AllHinted(t, bt, f, args, tmp)
    ensures BuiltinCalled(t, bt, f, args, tmp, to)
  {
    hide TellsChanges, AllHinted;
  }

  lemma MapIsNode(t: Tc, table: seq<FuncDef>, m: nat)
    requires TcOk(t, table) && m in t.maps
    ensures IsMapNode(t, Some(m))
  {
    hide EdgeFine, AllKeys;
  }

  lemma MapFlows(t: Tc, m: nat, c: nat)
    requires Some(Map(None, None)) in t.base && t.base[Some(Map(None, None))] == c && CEdge(c, m, Flows) in t.edges
    ensures KnownMap(t, m)
  {
  }

  // The order in which operands are made scalars does not matter.
  lemma ScalarsRotated(t: Tc, pl: Place, args: seq<PrimVal>)
    requires args != [] && Scalars(t, pl, args[1..] + [args[0]])
    ensures Scalars(t, pl, args)
  {
    hide NodeOf, ConstNode;
    var turned := args[1..] + [args[0]];
    forall k | 0 <= k < |args|
      ensures Linked(t, ConstNode(t, Some(Scalar(None))), NodeOf(t, pl, args[k]), Flows)
    {
      assert turned[if k == 0 then |args| - 1 else k - 1] == args[k];
    }
  }

  // The statements in front of statement i of block b.
  ghost predicate SaysUpTo(t: Tc, bt: Builtins, notifiers: seq<nat>, pl: Place, blocks: seq<seq<PrimStmt>>, b: nat,
                           i: nat) {
    forall c, j | 0 <= c < |blocks| && 0 <= j < |blocks[c]| && (c < b || (c == b && j < i)) ::
      StmtSays(t, bt, notifiers, pl, blocks[c][j])
  }

  lemma SaysMore(t: Tc, t': Tc, bt: Builtins, notifiers: seq<nat>, pl: Place, blocks: seq<seq<PrimStmt>>, b: nat,
                 i: nat)
    requires Extends(t, t') && b < |blocks| && i < |blocks[b]| && SaysUpTo(t, bt, notifiers, pl, blocks, b, i)
    requires StmtSays(t', bt, notifiers, pl, blocks[b][i])
    ensures SaysUpTo(t', bt, notifiers, pl, blocks, b, i + 1)
  {
    hide Extends, StmtSays;
    forall c, j | 0 <= c < |blocks| && 0 <= j < |blocks[c]| && (c < b || (c == b && j < i))
      ensures StmtSays(t', bt, notifiers, pl, blocks[c][j])
    {
      StmtSaysStill(t, t', bt, notifiers, pl, blocks[c][j]);
    }
  }

  // ---- Instances ----

  ghost predicate ArgsFlow(t: Tc, pl: Place, params: seq<Ident>, args: seq<nat>, k: nat) {
    k <= |params| && k <= |args| &&
    forall j | 0 <= j < k :: Linked(t, Some(args[j]), NodeOf(t, pl, PrimVal.Var(params[j])), Flows)
  }

  ghost predicate BodySays(t: Tc, bt: Builtins, notifiers: seq<nat>, pl: Place, blocks: seq<seq<PrimStmt>>) {
    forall b, i | 0 <= b < |blocks| && 0 <= i < |blocks[b]| :: StmtSays(t, bt, notifiers, pl, blocks[b][i])
  }

  // A new instance: its arguments flow into its parameters, its result tells the callers, and all
  // statements of its body have their constraints.
  ghost predicate Instantiated(t: Tc, bt: Builtins, notifiers: seq<nat>, pl: Place, def: FuncDef, args: seq<nat>,
                               ix: nat, notifier: nat) {
    && ArgsFlow(t, pl, def.args, args, |def.args|) && CEdge(ix, notifier, Flows) in t.edges
    && BodySays(t, bt, notifiers, pl, def.blocks)
  }

  lemma ArgsFlowStill(t: Tc, t': Tc, pl: Place, params: seq<Ident>, args: seq<nat>, k: nat)
    requires Extends(t, t') && ArgsFlow(t, pl, params, args, k)
    ensures ArgsFlow(t', pl, params, args, k)
  {
    hide Extends, NodeOf;
    forall j | 0 <= j < k
      ensures Linked(t', Some(args[j]), NodeOf(t', pl, PrimVal.Var(params[j])), Flows)
    {
      assert Linked(t, Some(args[j]), NodeOf(t, pl, PrimVal.Var(params[j])), Flows);
      NodeStays(t, t', pl, PrimVal.Var(params[j]));
      EdgeStays(t, t', CEdge(args[j], NodeOf(t, pl, PrimVal.Var(params[j])).value, Flows));
    }
  }

  // The argument states an instance is for are at or below those of the nodes it was built with.
  ghost predicate ArgsGiven(vals: seq<State>, states: seq<State>, args: seq<nat>) {
    |args| == |states| && forall k | 0 <= k < |args| :: args[k] < |vals| && StateLeq(states[k], vals[args[k]])
  }

  ghost predicate InstanceBuilt(t: Tc, bt: Builtins, lg: set<nat>, def: FuncDef, notifier: nat, key: FuncKey) {
    && key in t.funcs
    && exists args :: ArgsGiven(t.vals, key.args, args) &&
         Instantiated(t, bt, t.notifiers, Place(lg, key.id, key.args), def, args, t.funcs[key], notifier)
  }

  // All instances there are have their arguments bound and their bodies constrained.
  ghost predicate InstancesBuilt(t: Tc, bt: Builtins, table: seq<FuncDef>, lg: set<nat>) {
    forall f, key | 0 <= f < |table| && f < |t.notifiers| && key in t.funcs && key.id == table[f].ident ::
      InstanceBuilt(t, bt, lg, table[f], t.notifiers[f], key)
  }

  lemma BuiltIs(t: Tc, bt: Builtins, lg: set<nat>, def: FuncDef, notifier: nat, key: FuncKey, args: seq<nat>)
    requires key in t.funcs && ArgsGiven(t.vals, key.args, args)
    requires ArgsFlow(t, Place(lg, key.id, key.args), def.args, args, |def.args|)
    requires CEdge(t.funcs[key], notifier, Flows) in t.edges
    requires BodySays(t, bt, t.notifiers, Place(lg, key.id, key.args), def.blocks)
    ensures InstanceBuilt(t, bt, lg, def, notifier, key)
  {
    hide ArgsFlow, BodySays, ArgsGiven;
    assert Instantiated(t, bt, t.notifiers, Place(lg, key.id, key.args), def, args, t.funcs[key], notifier);
  }

  lemma BodySaysStill(t: Tc, t': Tc, bt: Builtins, notifiers: seq<nat>, pl: Place, blocks: seq<seq<PrimStmt>>)
    requires Extends(t, t') && BodySays(t, bt, notifiers, pl, blocks)
    ensures BodySays(t', bt, notifiers, pl, blocks)
  {
    hide Extends, StmtSays;
    forall b, i | 0 <= b < |blocks| && 0 <= i < |blocks[b]|
      ensures StmtSays(t', bt, notifiers, pl, blocks[b][i])
    {
      StmtSaysStill(t, t', bt, notifiers, pl, blocks[b][i]);
    }
  }

  lemma InstanceStays(t: Tc, t': Tc, bt: Builtins, lg: set<nat>, def: FuncDef, notifier: nat, key: FuncKey)
    requires Extends(t, t') && |t.vals| <= |t'.vals| && InstanceBuilt(t, bt, lg, def, notifier, key)
    requires forall n | 0 <= n < |t.vals| :: StateLeq(t.vals[n], t'.vals[n])
    ensures InstanceBuilt(t', bt, lg, def, notifier, key)
  {
    hide ArgsFlow, BodySays;
    var pl := Place(lg, key.id, key.args);
    var args :| ArgsGiven(t.vals, key.args, args) &&
                Instantiated(t, bt, t.notifiers, pl, def, args, t.funcs[key], notifier);
    forall k | 0 <= k < |args|
      ensures StateLeq(key.args[k], t'.vals[args[k]])
    {
      LeqOrder(key.args[k], t.vals[args[k]], t'.vals[args[k]]);
    }
    ArgsFlowStill(t, t', pl, def.args, args, |def.args|);
    BodySaysStill(t, t', bt, t.notifiers, pl, def.blocks);
    EdgeStays(t, t', CEdge(t.funcs[key], notifier, Flows));
    FuncStays(t, t', key);
    BuiltIs(t', bt, lg, def, notifier, key, args);
  }
}
