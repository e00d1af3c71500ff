// src/types.rs: building the constraint network, function instances included, and solving it.
module TypeContexts {
  import opened Ir
  import opened WorkLists
  import opened TypeStates
  import opened TypeNet
  import opened TypeSolution
  import opened TypeConstraints
  import opened TypeMeaning

  // Operands as the source's statements have them.
  predicate ExprShape(e: ExprOp, args: seq<PrimVal>, funcs: nat) {
    match e
    case Val => |args| == 1
    case CallBuiltin(_) => true
    case Sprintf => |args| > 0
    case CallUDF(f) => f < funcs
    case Index => |args| == 2
    case IterBegin => |args| == 1
    case HasNext => |args| == 1
    case Next => |args| == 1
    case LoadBuiltin(_) => args == []
  }

  predicate StmtShape(s: PrimStmt, funcs: nat) {
    match s
    case AsgnVar(_, Phi(_)) => true
    case AsgnVar(_, Op(e, args)) => ExprShape(e, args, funcs)
    case Do(AsgnIndex(e), args) => |args| >= 2 && args[0].Var? && ExprShape(e, args[2..], funcs)
    case Do(Return, args) => |args| == 1
    case _ => true
  }

  // A function's identity is its place in the source's list of functions.
  ghost predicate TableOk(table: seq<FuncDef>) {
    && (forall f, b, i | 0 <= f < |table| && 0 <= b < |table[f].blocks| && 0 <= i < |table[f].blocks[b]| ::
          StmtShape(table[f].blocks[b][i], |table|))
    && (forall f, g | 0 <= f < |table| && 0 <= g < |table| && table[f].ident == table[g].ident :: f == g)
  }

  class TypeContext {
    const table: seq<FuncDef>
    const bt: Builtins
    const localGlobals: set<nat>
    const baseNode: nat
    const wl: WorkList<nat>
    var udfNodes: seq<nat>
    var rules: seq<Rule>
    var vals: seq<State>
    var edges: seq<CEdge>
    var callDeps: map<nat, seq<nat>>
    var base: map<State, nat>
    var env: map<VarKey, nat>
    var funcs: map<FuncKey, nat>
    var maps: set<nat>
    var iso: set<(nat, nat)>
    // how many nodes there were when the instance that was built last was begun
    ghost var born: nat

    ghost function Now(): Tc
      reads this, wl
    {
      Tc(rules, vals, edges, callDeps, base, env, funcs, wl.mem, maps, udfNodes, born)
    }

    ghost predicate Valid()
      reads this, wl
    {
      && wl.Valid() && baseNode == 0 && TableOk(table) && BuiltinsOk(bt) && TcOk(Now(), table)
      && 0 < |rules| && rules[baseNode] == Rule.Var
      && |udfNodes| == |table| && forall f | 0 <= f < |table| ::
            0 < udfNodes[f] < |rules| && rules[udfNodes[f]].AlwaysNotify?
    }

    // A base node and a notifier for every function.
    constructor (t: seq<FuncDef>, b: Builtins, lg: set<nat>)
      requires TableOk(t) && BuiltinsOk(b)
      ensures Valid() && fresh(wl) && table == t && bt == b && localGlobals == lg
      ensures edges == [] && funcs == map[] && iso == {} && callDeps == map[]
      ensures forall n | 0 <= n < |vals| :: vals[n] == None
      ensures forall n | 0 < n < |rules| :: n in wl.mem
    {
      table, bt, localGlobals, baseNode := t, b, lg, 0;
      wl := new WorkList();
      rules, vals, edges, callDeps := [Rule.Var], [None], [], map[];
      base, env, funcs, maps, iso, udfNodes, born := map[], map[], map[], {}, {}, [], 0;
      new;
      hide BuiltinsOk, TableOk, TcOk;
      FreshOk(Now(), table);
      AddNotifiers();
    }

    // The part of a network that has notifiers only.
    ghost predicate OnlyNotifiers()
      reads this, wl
    {
      && wl.Valid() && TcOk(Now(), table) && edges == [] && funcs == map[] && born == 0
      && |udfNodes| <= |table| && 0 < |rules| && rules[0] == Rule.Var
      && (forall f | 0 <= f < |udfNodes| :: 0 < udfNodes[f] < |rules| && rules[udfNodes[f]].AlwaysNotify?)
      && |vals| == |rules| && (forall n | 0 <= n < |vals| :: vals[n] == None)
      && (forall n | 0 < n < |rules| :: n in wl.mem)
    }

    // One for every function; they are told when its results change.
    method AddNotifiers()
      requires OnlyNotifiers()
      modifies this`rules, this`vals, this`udfNodes, wl
      ensures OnlyNotifiers() && |udfNodes| == |table|
    {
      hide OnlyNotifiers;
      NotMore();
      while |udfNodes| < |table|
        invariant |udfNodes| <= |table| && OnlyNotifiers()
      {
        AddNotifier();
      }
    }

    lemma NotMore()
      requires OnlyNotifiers()
      ensures |udfNodes| <= |table|
    {
    }

    method AddNotifier()
      requires OnlyNotifiers() && |udfNodes| < |table|
      modifies this`rules, this`vals, this`udfNodes, wl
      ensures OnlyNotifiers() && |udfNodes| == |old(udfNodes)| + 1
    {
      hide TcOk, Grows;
      ghost var t := Now();
      RuleAdded(t, table, AlwaysNotify);
      var ix := |rules|;
      rules := rules + [AlwaysNotify];
      vals := vals + [None];
      wl.Insert(ix);
      ghost var t1 := Now();
      assert t1 == WithRule(t, AlwaysNotify);
      udfNodes := udfNodes + [ix];
      NotifiersChanged(t1, Now(), table);
    }

    function At(fid: nat, fargs: seq<State>): Place {
      Place(localGlobals, fid, fargs)
    }

    // What every step of building the network does.
    twostate predicate Built()
      reads this, wl
    {
      && Valid() && Grows(old(Now()), Now()) && Extends(old(Now()), Now())
      && udfNodes == old(udfNodes) && iso == old(iso) && born == old(born) && funcs == old(funcs)
    }

    method AddRule(rule: Rule) returns (res: nat)
      requires Valid()
      modifies this, wl
      ensures Built() && Now() == WithRule(old(Now()), rule) && res == |old(rules)|
      ensures maps == old(maps) && (!rule.AlwaysNotify? ==> Now().Settable(res))
      ensures rule.Var? ==> Now().Private(res) && res !in env.Values
    {
      hide TcOk, Grows, Extends, Building, TableOk, BuiltinsOk;
      RuleAdded(Now(), table, rule);
      NewIsPrivate(Now(), table, rule);
      res := |rules|;
      rules := rules + [rule];
      vals := vals + [None];
      wl.Insert(res);
    }

    method AddDep(from: nat, to: nat, con: Con)
      requires Valid() && EdgeFine(Now(), table, CEdge(from, to, con)) && Now().Open(to)
      modifies this, wl
      ensures Built() && Now() == WithDep(old(Now()), from, to, con) && maps == old(maps)
    {
      hide TcOk, Grows, Extends, Building, TableOk, BuiltinsOk, EdgeFine;
      DepAdded(Now(), table, from, to, con);
      edges := edges + [CEdge(from, to, con)];
      wl.Insert(from);
    }

    method Constant(tv: State) returns (ix: nat)
      requires Valid()
      modifies this, wl
      ensures Built() && Now().Settable(ix) && maps == old(maps)
      ensures tv in base && base[tv] == ix && base.Keys == old(base).Keys + {tv}
      ensures tv in old(base) ==> Now() == old(Now())
      ensures edges == old(edges)
    {
      hide TcOk, Grows, Extends, Building, TableOk, BuiltinsOk;
      if tv in base {
        ConstantKnown(Now(), table, tv);
        return base[tv];
      }
      ghost var t := Now();
      ix := AddRule(Const(tv));
      ghost var t1 := Now();
      BaseAdded(t1, table, tv, ix);
      base := base[tv := ix];
      GrowsTrans(t, t1, Now());
    }

    method ConstrainAsMap(ix: nat)
      requires Valid() && Now().Settable(ix)
      modifies this, wl
      ensures Built() && IsMapNode(Now(), Some(ix))
    {
      hide TcOk, Grows, Extends, Building, TableOk, BuiltinsOk, IsMapNode, KnownMap;
      ghost var t := Now();
      GrowsSame(t);
      if ix in maps {
        MapIsNode(t, table, ix);
      } else {
        var isMap := Constant(Some(Map(None, None)));
        ghost var t1 := Now();
        GrowsSettable(t, t1, ix);
        AddDep(isMap, ix, Flows);
        ghost var t2 := Now();
        GrowsTrans(t, t1, t2);
        MapFlows(t2, ix, isMap);
        MapAdded(t2, table, ix);
        maps := maps + {ix};
        GrowsTrans(t, t2, Now());
        MapIsNode(Now(), table, ix);
      }
    }

    // The new node is made whether it is needed or not.
    method GetNode(key: VarKey) returns (ix: nat)
      requires Valid() && (key.func.Some? ==> Building(Now(), key.func.value, key.args))
      modifies this, wl
      ensures Built() && Now().Settable(ix) && key in env && env[key] == ix
    {
      hide TcOk, Grows, Extends, Building, TableOk, BuiltinsOk;
      ghost var t := Now();
      var spare := AddRule(Rule.Var);
      if key in env {
        NameKnown(t, Now(), table, key);
        ix := env[key];
      } else {
        LengthsOf(t, table);
        OwnerBuilt(t, table, key);
        NameAdded(t, table, key);
        NameGrows(t, key);
        env := env[key := spare];
        ix := spare;
      }
    }

    // `fid` and `fargs` say which instance of which function is being looked at.
    method IdentNode(id: Ident, fid: nat, fargs: seq<State>) returns (ix: nat)
      requires Valid() && Building(Now(), fid, fargs)
      modifies this, wl
      ensures Built() && Now().Settable(ix) && NodeOf(Now(), At(fid, fargs), PrimVal.Var(id)) == Some(ix)
    {
      var isGlobal := id.IsGlobal(localGlobals);
      ix := GetNode(VarKey(id, if isGlobal then None else Some(fid), if isGlobal then [] else fargs));
    }

    method ValNode(v: PrimVal, fid: nat, fargs: seq<State>) returns (ix: nat)
      requires Valid() && Building(Now(), fid, fargs)
      modifies this, wl
      ensures Built() && Now().Settable(ix) && NodeOf(Now(), At(fid, fargs), v) == Some(ix)
    {
      match v {
        case Var(id) => ix := IdentNode(id, fid, fargs);
        case ILit(_) => ix := Constant(Some(Scalar(Some(Int))));
        case FLit(_) => ix := Constant(Some(Scalar(Some(Float))));
        case StrLit(_) => ix := Constant(Some(Scalar(Some(Str))));
      }
    }

    method ValNodes(args: seq<PrimVal>, fid: nat, fargs: seq<State>) returns (ixs: seq<nat>)
      requires Valid() && Building(Now(), fid, fargs)
      modifies this, wl
      ensures Built() && NodesAre(Now(), At(fid, fargs), args, ixs) && AllSettable(Now(), ixs)
    {
      hide TcOk, Grows, Extends, Building, TableOk, BuiltinsOk, NodeOf;
      ghost var t := Now();
      GrowsSame(t);
      ixs := [];
      while |ixs| < |args|
        invariant |ixs| <= |args| && Valid() && Grows(t, Now()) && AllSettable(Now(), ixs)
        invariant NodesAre(Now(), At(fid, fargs), args[..|ixs|], ixs) && Building(Now(), fid, fargs)
        invariant Extends(t, Now()) && funcs == old(funcs) && udfNodes == old(udfNodes) && iso == old(iso)
        invariant born == old(born)
      {
        ghost var t1 := Now();
        var ix := ValNode(args[|ixs|], fid, fargs);
        GrowsTrans(t, t1, Now());
        BuildingStays(t1, Now(), fid, fargs);
        AllStaySettable(t1, Now(), ixs);
        NodesStay(t1, Now(), At(fid, fargs), args[..|ixs|], ixs);
        assert args[..|ixs| + 1] == args[..|ixs|] + [args[|ixs|]];
        ixs := ixs + [ix];
      }
      assert args[..|args|] == args;
    }

    // x is to be looked at again whenever one of the arguments changes.
    method AddCallDeps(args: seq<nat>, x: nat)
      requires Valid() && NodeIn(rules, x)
      modifies this
      ensures Built() && Now() == old(Now()).(callDeps := Now().callDeps)
      ensures forall a | a in args :: a in callDeps && x in callDeps[a]
    {
      hide TcOk, Grows, Extends, Building, TableOk, BuiltinsOk;
      ghost var t := Now();
      GrowsSame(t);
      var k := 0;
      while k < |args|
        invariant 0 <= k <= |args| && Valid() && Grows(t, Now()) && Now() == t.(callDeps := Now().callDeps)
        invariant forall j | 0 <= j < k :: args[j] in callDeps && x in callDeps[args[j]]
        invariant Extends(t, Now()) && funcs == old(funcs) && udfNodes == old(udfNodes) && iso == old(iso)
        invariant born == old(born)
        modifies this
      {
        ghost var t1 := Now();
        var a := args[k];
        CallDepAdded(t1, table, a, x);
        callDeps := callDeps[a := (if a in callDeps then callDeps[a] else []) + [x]];
        GrowsTrans(t, t1, Now());
        k := k + 1;
      }
    }

    method Insert(x: nat)
      requires Valid() && x < |rules|
      modifies this, wl
      ensures Built() && Now() == old(Now()).(wl := Queue(old(Now()).wl, x))
    {
      hide TcOk, Grows, Extends, Building, TableOk, BuiltinsOk;
      Queued(Now(), table, x);
      wl.Insert(x);
    }

    method ApplyHint(f: nat, h: Hint, args: seq<nat>, res: nat)
      requires Valid() && AllSettable(Now(), args) && Now().Settable(res) && HintFine(bt, f, h)
      requires bt.arity(f).Some? ==> bt.arity(f).value <= |args|
      modifies this, wl
      ensures Built() && Hinted(Now(), h, args, res)
    {
      hide TcOk, Grows, Extends, Building, TableOk, BuiltinsOk;
      ghost var t := Now();
      match h {
        case FromConst(s, arg) =>
          var c := Constant(s);
          ghost var t1 := Now();
          AllStaySettable(t, t1, args);
          AddDep(c, args[arg], Flows);
          GrowsTrans(t, t1, Now());
        case Link(from, to, con) =>
          var src, dst := if from.Some? then args[from.value] else res, if to.Some? then args[to.value] else res;
          assert Now().Settable(src) && Now().Settable(dst);
          AddDep(src, dst, con);
      }
    }

    // What a builtin's result or arguments say about its other arguments.
    method Feedback(f: nat, args: seq<nat>, res: nat)
      requires Valid() && AllSettable(Now(), args) && Now().Settable(res)
      modifies this, wl
      ensures Built()
      ensures AllHinted(Now(), bt, f, args, res)
    {
      hide TcOk, Grows, Extends, Building, TableOk, Hinted, HintFine;
      ghost var t := Now();
      GrowsSame(t);
      if bt.arity(f).Some? && |args| < bt.arity(f).value {
        return;
      }
      var hints := bt.hints(f);
      var k := 0;
      while k < |hints|
        invariant 0 <= k <= |hints| && Valid() && Grows(t, Now())
        invariant AllSettable(Now(), args) && Now().Settable(res)
        invariant Extends(t, Now()) && funcs == old(funcs) && udfNodes == old(udfNodes) && iso == old(iso)
        invariant born == old(born)
        invariant forall j | 0 <= j < k :: Hinted(Now(), hints[j], args, res)
      {
        ghost var t1 := Now();
        assert HintFine(bt, f, hints[k]);
        ApplyHint(f, hints[k], args, res);
        GrowsTrans(t, t1, Now());
        AllStaySettable(t1, Now(), args + [res]);
        HintsStay(t1, Now(), hints, args, res, k);
        k := k + 1;
      }
    }

    // A node for the call's result, linked by what the builtin says of its arguments and told of
    // their changes.
    method AddCallNode(f: nat, args: seq<nat>) returns (tmp: nat)
      requires Valid() && AllSettable(Now(), args)
      modifies this, wl
      ensures Built() && Now().Settable(tmp) && Now().Private(tmp) && tmp == |old(rules)| && AllSettable(Now(), args)
      ensures TellsChanges(Now(), args, tmp) && AllHinted(Now(), bt, f, args, tmp)
    {
      hide TcOk, Grows, Extends, Building, TableOk, BuiltinsOk, AllHinted, TellsChanges, AllSettable;
      ghost var t := Now();
      tmp := AddRule(Rule.Var);
      ghost var t1 := Now();
      AllStaySettable(t, t1, args);
      Feedback(f, args, tmp);
      ghost var t2 := Now();
      GrowsTrans(t, t1, t2);
      AllStaySettable(t1, t2, args);
      GrowsSettable(t1, t2, tmp);
      AddCallDeps(args, tmp);
      ghost var t3 := Now();
      TellsAll(t3, args, tmp);
      GrowsTrans(t, t2, t3);
      GrowsTrans(t1, t2, t3);
      AllStaySettable(t2, t3, args);
      GrowsSettable(t2, t3, tmp);
      PrivateStays(t1, t3, tmp);
      AllHintedStill(t2, t3, bt, f, args, tmp);
    }

    // The call computes its result, which flows on; both are to be looked at.
    method LinkCall(f: nat, args: seq<nat>, tmp: nat, to: nat)
      requires Valid() && AllSettable(Now(), args) && Now().Settable(tmp) && Now().Settable(to)
      requires TellsChanges(Now(), args, tmp)
      modifies this, wl
      ensures Built() && CEdge(0, tmp, Con.CallBuiltin(args, f)) in edges && CEdge(tmp, to, Flows) in edges
      ensures tmp in wl.mem && to in wl.mem
    {
      hide TcOk, Grows, Extends, Building, TableOk, BuiltinsOk, EdgeFine, AllSettable, TellsChanges;
      ghost var t := Now();
      BuiltinEdgeFine(t, table, args, f, tmp);
      AddDep(baseNode, tmp, Con.CallBuiltin(args, f));
      ghost var t1 := Now();
      GrowsSettable(t, t1, tmp);
      GrowsSettable(t, t1, to);
      SimpleEdgeFine(t1, table, tmp, to, Flows);
      AddDep(tmp, to, Flows);
      ghost var t2 := Now();
      GrowsTrans(t, t1, t2);
      Insert(tmp);
      ghost var t3 := Now();
      Insert(to);
      GrowsTrans(t, t2, t3);
      GrowsTrans(t, t3, Now());
    }

    method AddBuiltinCall(f: nat, args: seq<nat>, to: nat)
      requires Valid() && AllSettable(Now(), args) && Now().Settable(to)
      modifies this, wl
      ensures Built() && BuiltinCalled(Now(), bt, f, args, |old(rules)|, to)
      ensures |old(rules)| in wl.mem && to in wl.mem
    {
      hide TcOk, Grows, Extends, Building, TableOk, BuiltinsOk, AllHinted, TellsChanges, BuiltinCalled, AllSettable;
      ghost var t := Now();
      var tmp := AddCallNode(f, args);
      ghost var t1 := Now();
      GrowsSettable(t, t1, to);
      LinkCall(f, args, tmp, to);
      ghost var t2 := Now();
      GrowsTrans(t, t1, t2);
      TellsStays(t1, t2, args, tmp);
      PrivateStays(t1, t2, tmp);
      AllHintedStill(t1, t2, bt, f, args, tmp);
      CallSays(t2, bt, f, args, tmp, to);
    }

    method AddUdfCall(f: nat, args: seq<nat>, to: nat)
      requires Valid() && f < |table| && AllSettable(Now(), args) && Now().Settable(to)
      modifies this, wl
      ensures Built() && UdfCalled(Now(), udfNodes[f], f, args, to) && to in wl.mem
    {
      hide TcOk, Grows, Extends, Building, TableOk, BuiltinsOk, TellsChanges;
      ghost var t := Now();
      AddCallDeps(args, to);
      ghost var t1 := Now();
      TellsAll(t1, args, to);
      AllStaySettable(t, t1, args + [to]);
      var from := udfNodes[f];
      AddDep(from, to, Con.CallUDF(from, args, f));
      ghost var t2 := Now();
      GrowsTrans(t, t1, t2);
      Insert(to);
      GrowsTrans(t, t2, Now());
      GrowsTrans(t1, t2, Now());
      TellsStays(t1, Now(), args, to);
    }

    // One operand is a scalar.
    method ConstrainScalar(scalar: nat, v: PrimVal, fid: nat, fargs: seq<State>)
      requires Valid() && Building(Now(), fid, fargs) && Now().Settable(scalar)
      requires ConstNode(Now(), Some(Scalar(None))) == Some(scalar)
      modifies this, wl
      ensures Built() && Now().Settable(scalar) && ConstNode(Now(), Some(Scalar(None))) == Some(scalar)
      ensures Linked(Now(), Some(scalar), NodeOf(Now(), At(fid, fargs), v), Flows)
    {
      hide TcOk, Grows, Extends, Building, TableOk, BuiltinsOk, NodeOf, ConstNode;
      ghost var t := Now();
      var ix := ValNode(v, fid, fargs);
      ghost var t1 := Now();
      GrowsSettable(t, t1, scalar);
      AddDep(scalar, ix, Flows);
      GrowsTrans(t, t1, Now());
      GrowsSettable(t1, Now(), scalar);
      ConstStays(t, Now(), Some(Scalar(None)));
      NodeStays(t1, Now(), At(fid, fargs), v);
    }

    // Every operand is a scalar.
    method ConstrainScalars(args: seq<PrimVal>, fid: nat, fargs: seq<State>)
      requires Valid() && Building(Now(), fid, fargs)
      modifies this, wl
      ensures Built() && Scalars(Now(), At(fid, fargs), args)
    {
      hide TcOk, Grows, Extends, Building, TableOk, BuiltinsOk, NodeOf, ConstNode, Scalars;
      ghost var t := Now();
      var scalar := Constant(Some(Scalar(None)));
      ConstIs(Now(), Some(Scalar(None)), scalar);
      NoScalars(Now(), At(fid, fargs));
      BuildingStays(t, Now(), fid, fargs);
      var k := 0;
      while k < |args|
        invariant 0 <= k <= |args| && Valid() && Grows(t, Now()) && Now().Settable(scalar)
        invariant ConstNode(Now(), Some(Scalar(None))) == Some(scalar) && Scalars(Now(), At(fid, fargs), args[..k])
        invariant Building(Now(), fid, fargs)
        invariant Extends(t, Now()) && funcs == old(funcs) && udfNodes == old(udfNodes) && iso == old(iso)
        invariant born == old(born)
      {
        ghost var t1 := Now();
        ConstrainScalar(scalar, args[k], fid, fargs);
        GrowsTrans(t, t1, Now());
        BuildingStays(t1, Now(), fid, fargs);
        ScalarsStay(t1, Now(), At(fid, fargs), args[..k]);
        OneMoreScalar(Now(), At(fid, fargs), args, k);
        k := k + 1;
      }
      assert args[..|args|] == args;
    }

    // A constant state flows into a node.
    method FlowConst(tv: State, to: nat)
      requires Valid() && Now().Settable(to)
      modifies this, wl
      ensures Built() && Linked(Now(), ConstNode(Now(), tv), Some(to), Flows)
    {
      hide TcOk, Grows, Extends, Building, TableOk, BuiltinsOk;
      ghost var t := Now();
      var c := Constant(tv);
      ghost var t1 := Now();
      GrowsSettable(t, t1, to);
      AddDep(c, to, Flows);
      GrowsTrans(t, t1, Now());
    }

    // One operand's state, through a constraint.
    method FlowVal(v: PrimVal, con: Con, to: nat, fid: nat, fargs: seq<State>)
      requires Valid() && Building(Now(), fid, fargs) && Now().Settable(to) && !con.CallBuiltin? && !con.CallUDF?
      modifies this, wl
      ensures Built() && Linked(Now(), NodeOf(Now(), At(fid, fargs), v), Some(to), con)
    {
      hide TcOk, Grows, Extends, Building, TableOk, BuiltinsOk, NodeOf;
      ghost var t := Now();
      var ix := ValNode(v, fid, fargs);
      ghost var t1 := Now();
      GrowsSettable(t, t1, to);
      AddDep(ix, to, con);
      GrowsTrans(t, t1, Now());
      NodeStays(t1, Now(), At(fid, fargs), v);
    }

    // An array's node, known to be a map.
    method MapNode(v: PrimVal, fid: nat, fargs: seq<State>) returns (ix: nat)
      requires Valid() && Building(Now(), fid, fargs)
      modifies this, wl
      ensures Built() && Now().Settable(ix)
      ensures NodeOf(Now(), At(fid, fargs), v) == Some(ix) && IsMapNode(Now(), Some(ix))
    {
      hide TcOk, Grows, Extends, Building, TableOk, BuiltinsOk, NodeOf, IsMapNode;
      ghost var t := Now();
      ix := ValNode(v, fid, fargs);
      ghost var t1 := Now();
      ConstrainAsMap(ix);
      GrowsTrans(t, t1, Now());
      GrowsSettable(t1, Now(), ix);
      NodeStays(t1, Now(), At(fid, fargs), v);
    }

    method ConstrainIndex(arr: PrimVal, ix: PrimVal, to: nat, fid: nat, fargs: seq<State>)
      requires Valid() && Building(Now(), fid, fargs) && Now().Settable(to)
      modifies this, wl
      ensures Built() && OpSays(Now(), bt, udfNodes, At(fid, fargs), Index, [arr, ix], to)
    {
      hide TcOk, Grows, Extends, Building, TableOk, BuiltinsOk, NodeOf, IsMapNode, OpSays;
      ghost var t := Now();
      var arrIx := MapNode(arr, fid, fargs);
      ghost var t1 := Now();
      BuildingStays(t, t1, fid, fargs);
      var keyIx := ValNode(ix, fid, fargs);
      ghost var t2 := Now();
      GrowsTrans(t, t1, t2);
      AllStaySettable(t, t2, [to]);
      GrowsSettable(t, t2, to);
      GrowsSettable(t1, t2, arrIx);
      AddDep(arrIx, keyIx, Key);
      ghost var t3 := Now();
      GrowsSettable(t2, t3, arrIx);
      GrowsSettable(t2, t3, to);
      AddDep(arrIx, to, Con.Val);
      GrowsTrans(t, t2, t3);
      GrowsTrans(t, t3, Now());
      GrowsTrans(t2, t3, Now());
      GrowsTrans(t1, t2, Now());
      NodeStays(t1, Now(), At(fid, fargs), arr);
      NodeStays(t2, Now(), At(fid, fargs), ix);
      MapNodeStays(t1, Now(), Some(arrIx));
      EdgeStays(t3, Now(), CEdge(arrIx, keyIx, Key));
      IndexSays(Now(), bt, udfNodes, At(fid, fargs), arr, ix, arrIx, keyIx, to);
    }

    // Two nodes that each constrain the other.
    method LinkBoth(a: nat, b: nat, con: Con, back: Con)
      requires Valid() && Now().Settable(a) && Now().Settable(b)
      requires !con.CallBuiltin? && !con.CallUDF? && !back.CallBuiltin? && !back.CallUDF?
      modifies this, wl
      ensures Built() && CEdge(a, b, con) in edges && CEdge(b, a, back) in edges
    {
      hide TcOk, Grows, Extends, Building, TableOk, BuiltinsOk, EdgeFine;
      ghost var t := Now();
      SimpleEdgeFine(t, table, a, b, con);
      AddDep(a, b, con);
      ghost var t1 := Now();
      GrowsSettable(t, t1, a);
      GrowsSettable(t, t1, b);
      SimpleEdgeFine(t1, table, b, a, back);
      AddDep(b, a, back);
      GrowsTrans(t, t1, Now());
      EdgeStays(t1, Now(), CEdge(a, b, con));
    }

    // A node between the array's keys and the iterator's values keeps the two the same.
    method LinkIter(arr: nat, to: nat) returns (key: nat)
      requires Valid() && Now().Settable(arr) && Now().Settable(to)
      modifies this, wl
      ensures Built() && Iterated(Now(), arr, key, to)
    {
      hide TcOk, Grows, Extends, Building, TableOk, BuiltinsOk;
      ghost var t := Now();
      key := AddRule(Rule.Var);
      ghost var t1 := Now();
      GrowsSettable(t, t1, arr);
      GrowsSettable(t, t1, to);
      LinkBoth(key, arr, KeyIn, Key);
      ghost var t2 := Now();
      GrowsSettable(t1, t2, key);
      GrowsSettable(t1, t2, to);
      LinkBoth(key, to, IterValIn, IterVal);
      GrowsTrans(t, t1, t2);
      GrowsTrans(t, t2, Now());
      GrowsTrans(t1, t2, Now());
      PrivateStays(t1, Now(), key);
      EdgeStays(t2, Now(), CEdge(key, arr, KeyIn));
      EdgeStays(t2, Now(), CEdge(arr, key, Key));
    }

    method ConstrainIter(arr: PrimVal, to: nat, fid: nat, fargs: seq<State>)
      requires Valid() && Building(Now(), fid, fargs) && Now().Settable(to)
      modifies this, wl
      ensures Built() && OpSays(Now(), bt, udfNodes, At(fid, fargs), ExprOp.IterBegin, [arr], to)
    {
      hide TcOk, Grows, Extends, Building, TableOk, BuiltinsOk, NodeOf, IsMapNode, OpSays, Iterated;
      ghost var t := Now();
      var arrIx := MapNode(arr, fid, fargs);
      ghost var t1 := Now();
      GrowsSettable(t, t1, to);
      ghost var keyIx := LinkIter(arrIx, to);
      GrowsTrans(t, t1, Now());
      NodeStays(t1, Now(), At(fid, fargs), arr);
      MapNodeStays(t1, Now(), Some(arrIx));
      IterSays(Now(), bt, udfNodes, At(fid, fargs), arr, arrIx, keyIx, to);
    }

    method ConstrainBuiltin(f: nat, args: seq<PrimVal>, to: nat, fid: nat, fargs: seq<State>)
      requires Valid() && Building(Now(), fid, fargs) && Now().Settable(to)
      modifies this, wl
      ensures Built() && OpSays(Now(), bt, udfNodes, At(fid, fargs), ExprOp.CallBuiltin(f), args, to)
    {
      hide TcOk, Grows, Extends, Building, TableOk, BuiltinsOk, NodesAre, BuiltinCalled;
      ghost var t := Now();
      var ixs := ValNodes(args, fid, fargs);
      ghost var t1 := Now();
      GrowsSettable(t, t1, to);
      AddBuiltinCall(f, ixs, to);
      GrowsTrans(t, t1, Now());
      NodesStay(t1, Now(), At(fid, fargs), args, ixs);
    }

    method ConstrainUdf(f: nat, args: seq<PrimVal>, to: nat, fid: nat, fargs: seq<State>)
      requires Valid() && Building(Now(), fid, fargs) && Now().Settable(to) && f < |table|
      modifies this, wl
      ensures Built() && OpSays(Now(), bt, udfNodes, At(fid, fargs), ExprOp.CallUDF(f), args, to)
    {
      hide TcOk, Grows, Extends, Building, TableOk, BuiltinsOk, NodesAre, UdfCalled;
      ghost var t := Now();
      var ixs := ValNodes(args, fid, fargs);
      ghost var t1 := Now();
      GrowsSettable(t, t1, to);
      AddUdfCall(f, ixs, to);
      GrowsTrans(t, t1, Now());
      NodesStay(t1, Now(), At(fid, fargs), args, ixs);
    }

    // The operands and then the format are scalars, and the result is a string.
    method ConstrainSprintf(args: seq<PrimVal>, to: nat, fid: nat, fargs: seq<State>)
      requires Valid() && Building(Now(), fid, fargs) && Now().Settable(to) && |args| > 0
      modifies this, wl
      ensures Built() && OpSays(Now(), bt, udfNodes, At(fid, fargs), Sprintf, args, to)
    {
      hide TcOk, Grows, Extends, Building, TableOk, BuiltinsOk, NodeOf, ConstNode, Scalars;
      ghost var t := Now();
      var strNode := Constant(Some(Scalar(Some(Str))));
      ghost var t1 := Now();
      ConstIs(t1, Some(Scalar(Some(Str))), strNode);
      BuildingStays(t, t1, fid, fargs);
      ConstrainScalars(args[1..] + [args[0]], fid, fargs);
      ghost var t2 := Now();
      GrowsTrans(t, t1, t2);
      GrowsSettable(t, t2, to);
      GrowsSettable(t1, t2, strNode);
      AddDep(strNode, to, Flows);
      GrowsTrans(t, t2, Now());
      GrowsTrans(t1, t2, Now());
      ConstStays(t1, Now(), Some(Scalar(Some(Str))));
      ScalarsStay(t2, Now(), At(fid, fargs), args[1..] + [args[0]]);
      ScalarsRotated(Now(), At(fid, fargs), args);
    }

    method ConstrainOp(e: ExprOp, args: seq<PrimVal>, to: nat, fid: nat, fargs: seq<State>)
      requires Valid() && Building(Now(), fid, fargs) && Now().Settable(to) && ExprShape(e, args, |table|)
      modifies this, wl
      ensures Built() && OpSays(Now(), bt, udfNodes, At(fid, fargs), e, args, to)
    {
      hide TcOk, Grows, Extends, Building, TableOk, BuiltinsOk, NodeOf, ConstNode, NodesAre, BuiltinCalled, UdfCalled,
           Scalars;
      match e {
        case Val => FlowVal(args[0], Flows, to, fid, fargs);
        case CallBuiltin(f) => ConstrainBuiltin(f, args, to, fid, fargs);
        case CallUDF(f) => ConstrainUdf(f, args, to, fid, fargs);
        case Sprintf => ConstrainSprintf(args, to, fid, fargs);
        case Index =>
          ConstrainIndex(args[0], args[1], to, fid, fargs);
          assert args == [args[0], args[1]];
        case IterBegin =>
          ConstrainIter(args[0], to, fid, fargs);
          assert args == [args[0]];
        case HasNext => FlowConst(Some(Scalar(Some(Int))), to);
        case Next => FlowVal(args[0], IterVal, to, fid, fargs);
        case LoadBuiltin(v) => FlowConst(bt.varTy(v), to);
      }
    }

    method ConstrainPhi(preds: seq<(nat, Ident)>, to: nat, fid: nat, fargs: seq<State>)
      requires Valid() && Building(Now(), fid, fargs) && Now().Settable(to)
      modifies this, wl
      ensures Built()
      ensures forall k | 0 <= k < |preds| ::
                Linked(Now(), NodeOf(Now(), At(fid, fargs), PrimVal.Var(preds[k].1)), Some(to), Flows)
    {
      hide TcOk, Grows, Extends, Building, TableOk, BuiltinsOk, NodeOf;
      ghost var t := Now();
      GrowsSame(t);
      var k := 0;
      while k < |preds|
        invariant 0 <= k <= |preds| && Valid() && Grows(t, Now()) && Now().Settable(to) && Building(Now(), fid, fargs)
        invariant forall j | 0 <= j < k ::
                    Linked(Now(), NodeOf(Now(), At(fid, fargs), PrimVal.Var(preds[j].1)), Some(to), Flows)
        invariant Extends(t, Now()) && funcs == old(funcs) && udfNodes == old(udfNodes) && iso == old(iso)
        invariant born == old(born)
      {
        ghost var t1 := Now();
        FlowVal(PrimVal.Var(preds[k].1), Flows, to, fid, fargs);
        GrowsTrans(t, t1, Now());
        BuildingStays(t1, Now(), fid, fargs);
        GrowsSettable(t1, Now(), to);
        forall j | 0 <= j < k
          ensures Linked(Now(), NodeOf(Now(), At(fid, fargs), PrimVal.Var(preds[j].1)), Some(to), Flows)
        {
          LinkStays(t1, Now(), At(fid, fargs), PrimVal.Var(preds[j].1), to, Flows);
        }
        k := k + 1;
      }
    }

    // The array that is assigned to is a map with such a key.
    method AssignTarget(arr: PrimVal, ix: PrimVal, fid: nat, fargs: seq<State>) returns (arrIx: nat, ghost ixIx: nat)
      requires Valid() && Building(Now(), fid, fargs)
      modifies this, wl
      ensures Built() && Now().Settable(arrIx) && IsMapNode(Now(), Some(arrIx)) && CEdge(ixIx, arrIx, KeyIn) in edges
      ensures NodeOf(Now(), At(fid, fargs), arr) == Some(arrIx) && NodeOf(Now(), At(fid, fargs), ix) == Some(ixIx)
    {
      hide TcOk, Grows, Extends, Building, TableOk, BuiltinsOk, NodeOf, IsMapNode;
      ghost var t := Now();
      arrIx := ValNode(arr, fid, fargs);
      ghost var t1 := Now();
      BuildingStays(t, t1, fid, fargs);
      var i := ValNode(ix, fid, fargs);
      ixIx := i;
      ghost var t2 := Now();
      GrowsSettable(t1, t2, arrIx);
      ConstrainAsMap(arrIx);
      ghost var t3 := Now();
      GrowsSettable(t2, t3, arrIx);
      GrowsSettable(t2, t3, i);
      AddDep(i, arrIx, KeyIn);
      ghost var t4 := Now();
      GrowsSettable(t3, t4, arrIx);
      GrowsTrans(t2, t3, t4);
      GrowsTrans(t1, t2, t4);
      GrowsTrans(t, t1, t4);
      NodeStays(t1, t4, At(fid, fargs), arr);
      NodeStays(t2, t4, At(fid, fargs), ix);
      MapNodeStays(t3, t4, Some(arrIx));
    }

    method ConstrainAssignIndex(e: ExprOp, args: seq<PrimVal>, fid: nat, fargs: seq<State>)
      requires Valid() && Building(Now(), fid, fargs) && |args| >= 2 && ExprShape(e, args[2..], |table|)
      modifies this, wl
      ensures Built() && exists val: nat :: IndexAssigned(Now(), bt, udfNodes, At(fid, fargs), e, args, val)
    {
      hide TcOk, Grows, Extends, Building, TableOk, BuiltinsOk, NodeOf, IsMapNode, OpSays, IndexAssigned;
      ghost var t := Now();
      ghost var ixIx;
      var arrIx;
      arrIx, ixIx := AssignTarget(args[0], args[1], fid, fargs);
      ghost var t1 := Now();
      var valIx := AddRule(Rule.Var);
      ghost var t2 := Now();
      GrowsSettable(t1, t2, arrIx);
      AddDep(valIx, arrIx, ValIn);
      ghost var t3 := Now();
      GrowsSettable(t2, t3, valIx);
      GrowsTrans(t1, t2, t3);
      GrowsTrans(t, t1, t3);
      BuildingStays(t, t3, fid, fargs);
      ConstrainOp(e, args[2..], valIx, fid, fargs);
      ghost var t4 := Now();
      GrowsTrans(t2, t3, t4);
      GrowsTrans(t1, t2, t4);
      GrowsTrans(t, t1, t4);
      PrivateStays(t2, t4, valIx);
      NodeStays(t1, t4, At(fid, fargs), args[0]);
      NodeStays(t1, t4, At(fid, fargs), args[1]);
      MapNodeStays(t1, t4, Some(arrIx));
      EdgeStays(t1, t4, CEdge(ixIx, arrIx, KeyIn));
      EdgeStays(t3, t4, CEdge(valIx, arrIx, ValIn));
      AssignSays(t4, bt, udfNodes, At(fid, fargs), e, args, arrIx, ixIx, valIx);
    }

    method ConstrainStmt(s: PrimStmt, fid: nat, fargs: seq<State>)
      requires Valid() && StmtShape(s, |table|) && Building(Now(), fid, fargs)
      modifies this, wl
      ensures Built() && StmtSays(Now(), bt, udfNodes, At(fid, fargs), s)
    {
      hide TcOk, Grows, Extends, Building, TableOk, BuiltinsOk, NodeOf, OpSays, Scalars, IndexAssigned;
      ghost var t := Now();
      GrowsSame(t);
      match s {
        case AsgnVar(id, e) =>
          var ix := IdentNode(id, fid, fargs);
          ghost var t1 := Now();
          BuildingStays(t, t1, fid, fargs);
          match e {
            case Phi(preds) => ConstrainPhi(preds, ix, fid, fargs);
            case Op(op, args) => ConstrainOp(op, args, ix, fid, fargs);
          }
          GrowsTrans(t, t1, Now());
          NodeStays(t1, Now(), At(fid, fargs), PrimVal.Var(id));
        case Do(op, args) =>
          match op {
            case AsgnIndex(e) => ConstrainAssignIndex(e, args, fid, fargs);
            case Return =>
              ResultIsNew(t, table, fid, fargs);
              FlowVal(args[0], Flows, funcs[FuncKey(fid, fargs)], fid, fargs);
              FuncStays(t, Now(), FuncKey(fid, fargs));
            case Printf(_) => ConstrainScalars(args, fid, fargs);
            case PrintAll(_) => ConstrainScalars(args, fid, fargs);
            case SetBuiltin(_, _) =>
            case IterDrop =>
          }
      }
    }

    // Missing arguments are nulls, extra ones are dropped.
    method Normalize(f: nat, given: seq<nat>) returns (argNodes: seq<nat>)
      requires Valid() && f < |table| && AllNodes(Now(), given)
      modifies this, wl
      ensures Built() && AllNodes(Now(), argNodes) && |argNodes| == |table[f].args|
      ensures edges == old(edges) && (base.Keys == old(base).Keys ==> Now() == old(Now()))
      ensures forall k | 0 <= k < |argNodes| ::
                if k < |given| then argNodes[k] == given[k] else ConstNode(Now(), None) == Some(argNodes[k])
    {
      hide TcOk, Grows, Extends, TableOk, BuiltinsOk;
      ghost var t := Now();
      GrowsSame(t);
      BaseKept(t, t);
      argNodes := given;
      while |argNodes| < |table[f].args|
        invariant Valid() && Grows(t, Now()) && AllNodes(Now(), argNodes) && funcs == old(funcs) && edges == old(edges)
        invariant Extends(t, Now()) && funcs == old(funcs) && udfNodes == old(udfNodes) && iso == old(iso)
        invariant born == old(born)
        invariant t.base.Keys <= base.Keys && (base.Keys == t.base.Keys ==> Now() == t)
        invariant |given| <= |argNodes| && argNodes[..|given|] == given
        invariant forall k | |given| <= k < |argNodes| :: ConstNode(Now(), None) == Some(argNodes[k])
        decreases |table[f].args| - |argNodes|
      {
        ghost var t1 := Now();
        var c := Constant(None);
        GrowsTrans(t, t1, Now());
        if |given| < |argNodes| {
          assert ConstNode(t1, None) == Some(argNodes[|given|]);
          ConstStays(t1, Now(), None);
        }
        AllStayNodes(t1, Now(), argNodes);
        argNodes := argNodes + [c];
      }
      argNodes := argNodes[..|table[f].args|];
    }

    // The instance of f for these argument states, and the node of its result. An instance that
    // does not exist yet is built.
    method GetFunction(f: nat, given: seq<nat>, notifier: nat) returns (ix: nat, ghost key: FuncKey)
      requires Valid() && f < |table| && AllNodes(Now(), given) && notifier == udfNodes[f]
      modifies this, wl
      ensures Grew() && key in funcs && funcs[key] == ix
      ensures key.id == table[f].ident && |key.args| == |table[f].args|
      ensures forall k | 0 <= k < |key.args| ::
                key.args[k] == if k < |given| then StateAt(old(vals), given[k]) else None
      ensures key in old(funcs) || InstanceBuilt(Now(), bt, localGlobals, table[f], notifier, key)
      ensures Now() == old(Now()) || Potential(Now(), table) < Potential(old(Now()), table)
    {
      hide TcOk, Grows, Grown, Extends, TableOk, BuiltinsOk, Potential, InstancesBuilt, InstanceBuilt, Building;
      ghost var t := Now();
      var argNodes := Normalize(f, given);
      ghost var t1 := Now();
      NoNewEdges(t, t1);
      PotentialDrops(t, t1, table);
      InRange(t1, table, argNodes);
      RulesKept(t, t1);
      InstancesStay(t, t1, table, bt, localGlobals);
      var argStates := StatesAt(vals, argNodes);
      NormalStates(t, t1, table, given, argNodes, argStates);
      var found := FuncKey(table[f].ident, argStates);
      key := found;
      if found in funcs {
        return funcs[found], found;
      }
      ix := Instantiate(f, argNodes, argStates, notifier);
      GrownTrans(t, t1, Now());
    }

    // What building instances does, any number of them.
    twostate predicate Grew()
      reads this, wl
    {
      && Valid() && Grown(old(Now()), Now()) && udfNodes == old(udfNodes) && iso == old(iso)
      && (InstancesBuilt(old(Now()), bt, table, localGlobals) ==> InstancesBuilt(Now(), bt, table, localGlobals))
    }

    // A node for the result, which flows to the call's notifier, recorded for this instance.
    method NewInstance(f: nat, argStates: seq<State>, notifier: nat) returns (ix: nat)
      requires Valid() && f < |table| && notifier == udfNodes[f] && born == |rules|
      requires |argStates| == |table[f].args| && FuncKey(table[f].ident, argStates) !in funcs
      modifies this, wl
      ensures Valid() && Grows(old(Now()), Now()) && udfNodes == old(udfNodes) && iso == old(iso) && born == old(born)
      ensures funcs == old(funcs)[FuncKey(table[f].ident, argStates) := ix] && CEdge(ix, notifier, Flows) in edges
      ensures Building(Now(), table[f].ident, argStates) && Potential(Now(), table) < Potential(old(Now()), table)
    {
      hide TcOk, Grows, Extends, TableOk, BuiltinsOk, Potential, Building;
      ghost var t := Now();
      ix := AddRule(Rule.Var);
      ghost var t1 := Now();
      ToNotifier(t1, table, ix, notifier);
      AddDep(ix, notifier, Flows);
      ghost var t2 := Now();
      GrowsTrans(t, t1, t2);
      GrowsSettable(t1, t2, ix);
      OnlyPlace(table, f);
      FuncAdded(t2, table, f, argStates, ix);
      funcs := funcs[FuncKey(table[f].ident, argStates) := ix];
      ghost var t3 := Now();
      GrowsTrans(t, t2, t3);
      EdgeStays(t2, t3, CEdge(ix, notifier, Flows));
      PotentialDrops(t, t3, table);
      NothingNamed(t, t3, table, table[f].ident, argStates);
    }

    method Instantiate(f: nat, argNodes: seq<nat>, argStates: seq<State>, notifier: nat) returns (ix: nat)
      requires Valid() && f < |table| && AllNodes(Now(), argNodes) && notifier == udfNodes[f]
      requires |argNodes| == |argStates| == |table[f].args| && FuncKey(table[f].ident, argStates) !in funcs
      requires forall k | 0 <= k < |argNodes| :: argStates[k] == StateAt(vals, argNodes[k])
      modifies this, wl
      ensures Grew() && funcs == old(funcs)[FuncKey(table[f].ident, argStates) := ix]
      ensures InstanceBuilt(Now(), bt, localGlobals, table[f], notifier, FuncKey(table[f].ident, argStates))
      ensures Potential(Now(), table) < Potential(old(Now()), table)
    {
      hide TcOk, Grows, Grown, Extends, Building, TableOk, BuiltinsOk, Potential, ArgsFlow, BodySays, InstancesBuilt,
           InstanceBuilt, Higher;
      ghost var key := FuncKey(table[f].ident, argStates);
      ghost var before := Now();
      born := |rules|;
      ghost var t := Now();
      BornSet(before, t, table);
      ix := NewInstance(f, argStates, notifier);
      ghost var t1 := Now();
      FromGrows(t, t1);
      AllStayNodes(t, t1, argNodes);
      BindArgs(f, argNodes, argStates);
      ghost var t2 := Now();
      GrowsTrans(t, t1, t2);
      BuildingStays(t1, t2, table[f].ident, argStates);
      ConstrainBody(f, argStates);
      ghost var t3 := Now();
      GrowsTrans(t, t2, t3);
      GrowsTrans(t1, t2, t3);
      ArgsFlowStill(t2, t3, At(table[f].ident, argStates), table[f].args, argNodes, |argNodes|);
      EdgeStays(t1, t3, CEdge(ix, notifier, Flows));
      PotentialDrops(t1, t3, table);
      GrowsGrown(t, t3);
      BornGrown(before, t, t3);
      ArgsAreGiven(t, t3, argNodes, argStates);
      BuiltIs(t3, bt, localGlobals, table[f], notifier, key, argNodes);
      OneMoreInstance(before, t3, table, bt, localGlobals, f, key, ix);
    }

    method BindArgs(f: nat, argNodes: seq<nat>, fargs: seq<State>)
      requires Valid() && f < |table| && AllNodes(Now(), argNodes) && |argNodes| == |table[f].args|
      requires Building(Now(), table[f].ident, fargs)
      modifies this, wl
      ensures Built()
      ensures ArgsFlow(Now(), At(table[f].ident, fargs), table[f].args, argNodes, |argNodes|)
    {
      hide TcOk, Grows, Extends, Building, TableOk, BuiltinsOk, NodeOf;
      ghost var t := Now();
      GrowsSame(t);
      var k := 0;
      while k < |argNodes|
        invariant 0 <= k <= |argNodes| && Valid() && Grows(t, Now()) && AllNodes(Now(), argNodes)
        invariant ArgsFlow(Now(), At(table[f].ident, fargs), table[f].args, argNodes, k)
        invariant Building(Now(), table[f].ident, fargs)
        invariant Extends(t, Now()) && funcs == old(funcs) && udfNodes == old(udfNodes) && iso == old(iso)
        invariant born == old(born)
      {
        ghost var t1 := Now();
        var ix := IdentNode(table[f].args[k], table[f].ident, fargs);
        ghost var t2 := Now();
        AllStayNodes(t1, t2, argNodes);
        SimpleEdgeFine(t2, table, argNodes[k], ix, Flows);
        AddDep(argNodes[k], ix, Flows);
        GrowsTrans(t1, t2, Now());
        GrowsTrans(t, t1, Now());
        AllStayNodes(t2, Now(), argNodes);
        BuildingStays(t1, Now(), table[f].ident, fargs);
        ArgsFlowStill(t1, Now(), At(table[f].ident, fargs), table[f].args, argNodes, k);
        NodeStays(t2, Now(), At(table[f].ident, fargs), PrimVal.Var(table[f].args[k]));
        k := k + 1;
      }
    }

    method ConstrainBody(f: nat, fargs: seq<State>)
      requires Valid() && f < |table| && Building(Now(), table[f].ident, fargs)
      modifies this, wl
      ensures Built() && BodySays(Now(), bt, udfNodes, At(table[f].ident, fargs), table[f].blocks)
    {
      hide TcOk, BuiltinsOk, Grows, Extends, Building, StmtSays, StmtShape;
      ghost var t := Now();
      GrowsSame(t);
      var b := 0;
      while b < |table[f].blocks|
        invariant 0 <= b <= |table[f].blocks| && Valid() && Grows(t, Now())
        invariant SaysUpTo(Now(), bt, udfNodes, At(table[f].ident, fargs), table[f].blocks, b, 0)
        invariant Building(Now(), table[f].ident, fargs)
        invariant Extends(t, Now()) && funcs == old(funcs) && udfNodes == old(udfNodes) && iso == old(iso)
        invariant born == old(born)
      {
        var i := 0;
        while i < |table[f].blocks[b]|
          invariant 0 <= i <= |table[f].blocks[b]| && Valid() && Grows(t, Now())
          invariant SaysUpTo(Now(), bt, udfNodes, At(table[f].ident, fargs), table[f].blocks, b, i)
          invariant Building(Now(), table[f].ident, fargs)
          invariant Extends(t, Now()) && funcs == old(funcs) && udfNodes == old(udfNodes) && iso == old(iso)
          invariant born == old(born)
        {
          ghost var t1 := Now();
          ConstrainStmt(table[f].blocks[b][i], table[f].ident, fargs);
          GrowsTrans(t, t1, Now());
          BuildingStays(t1, Now(), table[f].ident, fargs);
          SaysMore(t1, Now(), bt, udfNodes, At(table[f].ident, fargs), table[f].blocks, b, i);
          i := i + 1;
        }
        b := b + 1;
      }
    }

    // ---- Solving ----

    // The value an edge brings; None is a type error. A call brings the result of its instance, which
    // may have to be built.
    method EvalEdge(e: CEdge) returns (r: Option<State>)
      requires Valid() && EdgeFine(Now(), table, e)
      modifies this, wl
      ensures Grew() && (Now() == old(Now()) || Potential(Now(), table) < Potential(old(Now()), table))
      ensures !e.con.CallUDF? ==> Now() == old(Now())
      ensures r == Brought(bt, table, Now(), e) && (r.None? <==> Fails(bt, Now(), e))
    {
      hide TcOk, Grown, TableOk, BuiltinsOk, Potential, InstancesBuilt, InstanceBuilt, Fails;
      GrownSame(Now());
      LengthsOf(Now(), table);
      match e.con {
        case CallBuiltin(args, f) =>
          assert InVals(vals, args) by {
            forall k | 0 <= k < |args|
              ensures args[k] < |vals|
            {
              assert args[k] in args;
            }
          }
          r := bt.step(f, StatesAt(vals, args));
          EvalFails(bt, Now(), table, e);
        case CallUDF(nix, args, f) =>
          ghost var t := Now();
          ghost var key;
          var ret;
          ret, key := GetFunction(f, args, nix);
          ResultInVals(Now(), table, key);
          r := Some(vals[ret]);
          CallKeyStays(t, Now(), table, f, args);
          assert key.args == ArgStates(t.vals, args, |table[f].args|);
          CallNeverFails(bt, Now(), e);
        case con =>
          r := EvalSimple(con, vals[e.src]);
          EvalFails(bt, Now(), table, e);
      }
    }

    // Evaluate the edges into ix that are there now, newest first.
    method EvalIncoming(ix: nat) returns (ok: bool, deps: seq<State>, flows: seq<nat>)
      requires Valid() && ix < |rules|
      modifies this, wl
      ensures Grew() && (Now() == old(Now()) || Potential(Now(), table) < Potential(old(Now()), table))
      ensures ok ==> Evaluated(bt, table, old(Now()), Now(), ix, deps) && AreBrought(bt, table, Now(), ix, deps)
      ensures ok ==> forall d: nat :: d in flows <==> HasFlow(old(Now()), d, ix)
      ensures !ok ==> TypeError(bt, table, Now(), ix)
    {
      hide TcOk, Grown, TableOk, BuiltinsOk, Potential, Brought, HasFlow, EvaluatedTo, FlowsUpTo, EdgeFine, Evaluated,
           InstancesBuilt, AreBrought, TypeError, Fails;
      ghost var t := Now();
      GrownSame(t);
      var ins := InEdges(edges, ix);
      deps, flows, ok := [], [], true;
      NothingEvaluated(bt, table, t, ins, ix);
      var k := 0;
      while k < |ins|
        invariant 0 <= k <= |ins| && Valid() && Grown(t, Now()) && ok
        invariant udfNodes == old(udfNodes) && iso == old(iso)
        invariant InstancesBuilt(t, bt, table, localGlobals) ==> InstancesBuilt(Now(), bt, table, localGlobals)
        invariant Now() == t || Potential(Now(), table) < Potential(t, table)
        invariant EvaluatedTo(bt, table, Now(), ins, k, deps) && AreBrought(bt, table, Now(), ix, deps)
        invariant FlowsUpTo(t, ins, k, ix, flows)
      {
        ghost var t1 := Now();
        assert ins[k] in ins;
        EdgeKept(t, t1, table, ins[k]);
        var r := EvalEdge(ins[k]);
        GrownTrans(t, t1, Now());
        EdgeKept(t, Now(), table, ins[k]);
        if r.None? {
          FailsHere(bt, table, Now(), ix, ins[k]);
          return false, deps, flows;
        }
        EvaluatedStill(bt, table, t1, Now(), ins, k, ix, deps);
        OneMoreEvaluated(bt, table, Now(), ins, k, ix, deps, r.value);
        OneMoreFlow(t, ins, k, ix, flows);
        deps := deps + [r.value];
        if ins[k].con.Flows? {
          flows := flows + [ins[k].src];
        }
        k := k + 1;
      }
      AllFlows(t, ins, ix, flows);
      AllEvaluated(bt, table, t, Now(), ins, ix, deps);
    }

    // Whatever flows into a map gets the same type: an edge back, unless the pair has one.
    method AddBackEdges(ix: nat, flows: seq<nat>)
      requires Valid() && ix < |rules| && !rules[ix].AlwaysNotify? && forall d | d in flows :: HasFlow(Now(), d, ix)
      modifies this
      ensures Valid() && Now() == old(Now()).(edges := edges) && udfNodes == old(udfNodes)
      ensures BackEdges(old(Now()), Now(), ix, flows, old(iso), iso)
      ensures forall d | d in flows :: Pair(ix, d) in iso
    {
      hide TcOk, TableOk, BuiltinsOk, BackEdges, HasFlow;
      ghost var t := Now();
      NoBackEdges(t, ix, flows, iso);
      var k := 0;
      while k < |flows|
        invariant 0 <= k <= |flows| && Valid() && Now() == t.(edges := edges) && udfNodes == old(udfNodes)
        invariant BackEdges(t, Now(), ix, flows, old(iso), iso)
        invariant forall j | 0 <= j < k :: Pair(ix, flows[j]) in iso
        modifies this
      {
        var d := flows[k];
        if Pair(ix, d) !in iso {
          ghost var t1, iso1 := Now(), iso;
          assert d in flows;
          BackEdgeAdded(t, t1, table, ix, flows, d, old(iso), iso1);
          edges := edges + [CEdge(ix, d, Flows)];
          iso := iso + {Pair(ix, d)};
        }
        k := k + 1;
      }
    }

    // All of them wait, once each.
    method QueueAll(all: seq<nat>)
      requires wl.Valid()
      modifies wl
      ensures wl.Valid() && (forall x :: x in wl.mem <==> x in old(wl.mem) || x in all)
      ensures (forall x | x in all :: x < |rules| && !rules[x].AlwaysNotify?) ==>
                Notifiers(rules, wl.mem) == Notifiers(rules, old(wl.mem))
    {
      var k := 0;
      while k < |all|
        invariant 0 <= k <= |all| && wl.Valid()
        invariant forall x :: x in wl.mem <==> x in old(wl.mem) || x in all[..k]
        invariant (forall x | x in all :: x < |rules| && !rules[x].AlwaysNotify?) ==>
                    Notifiers(rules, wl.mem) == Notifiers(rules, old(wl.mem))
        modifies wl
      {
        NotifiersAdd(rules, wl.mem, all[k]);
        wl.Insert(all[k]);
        assert all[..k + 1] == all[..k] + [all[k]];
        k := k + 1;
      }
      assert all[..k] == all;
    }

    // Tell everything that reads ix.
    method Notify(ix: nat)
      requires Valid() && ix < |rules|
      modifies wl
      ensures Valid() && Now() == old(Now()).(wl := wl.mem) && Told(Now(), ix, wl.mem)
      ensures forall x | x in old(wl.mem) :: x in wl.mem
      ensures rules[ix].AlwaysNotify? ==> Notifiers(rules, wl.mem) == Notifiers(rules, old(wl.mem))
    {
      hide TcOk, TableOk, BuiltinsOk, Told, Notifiers, OutNodes;
      ghost var t := Now();
      var outs := OutNodes(edges, ix);
      var more := if ix in callDeps then callDeps[ix] else [];
      var all := outs + more;
      TellSettable(t, table, ix);
      InWl(t, table);
      assert forall x | x in all :: x in outs || x in more;
      QueueAll(all);
      WlChanged(t, Now(), table);
      AllTold(Now(), ix, all);
    }

    // A node that becomes a map is linked to what flows into it.
    method LinkMaps(ix: nat, next: State, flows: seq<nat>, ghost deps: seq<State>)
      requires Valid() && ix < |rules| == |vals| && StepRule(rules[ix], vals[ix], deps) == Some((true, next))
      requires forall d | d in flows :: HasFlow(Now(), d, ix)
      modifies this
      ensures Valid() && Now() == old(Now()).(edges := edges) && udfNodes == old(udfNodes)
      ensures BackEdges(old(Now()), Now(), ix, flows, old(iso), iso)
      ensures IsMap(next) ==> forall d | d in flows :: Pair(ix, d) in iso
    {
      hide TcOk, TableOk, BuiltinsOk, StepRule, BackEdges, HasFlow;
      if next.Some? && next.value.Map? {
        NotifierKnowsNothing(rules[ix], vals[ix], deps);
        AddBackEdges(ix, flows);
      } else {
        NoBackEdges(Now(), ix, flows, iso);
      }
    }

    // A node that changed: link maps, take the new state, and tell the readers.
    method TakeState(ix: nat, next: State, flows: seq<nat>, ghost deps: seq<State>)
      requires Valid() && ix < |rules| == |vals| && StepRule(rules[ix], vals[ix], deps) == Some((true, next))
      requires forall d | d in flows :: HasFlow(Now(), d, ix)
      modifies this, wl
      ensures Valid() && Now() == old(Now()).(edges := edges, vals := old(vals)[ix := next], wl := wl.mem)
      ensures BackEdges(old(Now()), Now(), ix, flows, old(iso), iso) && Told(Now(), ix, wl.mem)
      ensures forall x | x in old(wl.mem) :: x in wl.mem
      ensures IsMap(next) ==> forall d | d in flows :: Pair(ix, d) in iso
      ensures Climbed(old(Now()), Now(), ix) && Higher(old(vals), vals) && udfNodes == old(udfNodes)
    {
      hide TcOk, TableOk, BuiltinsOk, StepRule, BackEdges, Told, Slack, Climb, Notifiers, Grows, HasFlow, EdgeFine,
           Climbed, Higher;
      ghost var t, iso0 := Now(), iso;
      LinkMaps(ix, next, flows, deps);
      ghost var t2 := Now();
      ValueSet(t2, table, ix, vals[ix], deps, next);
      vals := vals[ix := next];
      Notify(ix);
      BackEdgesSame(t, t2, Now(), ix, flows, iso0, iso);
      ClimbedIs(t, Now(), ix, next);
    }

    // One node: evaluate what flows in, and climb. False is a type error. Afterwards the node is at or
    // above everything that the edges to it have brought.
    method StepOne(ix: nat, ghost start: seq<CEdge>, ghost late: set<CEdge>) returns (ok: bool, ghost late': set<CEdge>)
      requires Valid() && ix < |rules| && Solving(bt, table, Now(), iso, late, [ix] + wl.mem)
      requires start <= edges && LateEdges(Now(), start, late)
      modifies this, wl
      ensures Valid() && Extends(old(Now()), Now()) && Higher(old(vals), vals) && udfNodes == old(udfNodes)
      ensures InstancesBuilt(old(Now()), bt, table, localGlobals) ==> InstancesBuilt(Now(), bt, table, localGlobals)
      ensures ok ==> Progress(old(Now()), Now(), table, ix)
      ensures ok ==> Solving(bt, table, Now(), iso, late', wl.mem) && LateEdges(Now(), start, late')
      ensures ix < |rules| == |vals| && rules[ix] == old(rules)[ix]
      ensures ok && rules[ix].Var? ==> forall e | e in old(edges) && e.dst == ix && e.con.CallUDF? ::
                CallTaken(old(Now()), funcs, table, e.con.f, e.con.args, vals[ix])
      ensures !ok ==> TypeError(bt, table, Now(), ix)
    {
      hide TcOk, Grown, Extends, TableOk, BuiltinsOk, Potential, Evaluated, AreBrought, StepRule, Solving, BackEdges,
           Told, Slack, Climb, Notifiers, Progress, LateEdges, LateAfter, LateNext, InstancesBuilt, Higher, TypeError;
      ghost var t, iso0 := Now(), iso;
      LengthsOf(t, table);
      var rule, curVal := rules[ix], vals[ix];
      var found, deps, flows := EvalIncoming(ix);
      ghost var t1 := Now();
      Evolved(t, t1, table, ix);
      if !found {
        return false, late;
      }
      late' := LateAfter(t, t1, late);
      SolvingGrown(bt, table, t, t1, iso, late, ix);
      LateGrown(t, t1, start, late);
      var step := StepRule(rule, curVal, deps);
      if step.None? {
        StepConflicts(bt, table, t1, ix, deps);
        return false, late;
      }
      var (changed, next) := step.value;
      ok := true;
      CallsTaken(bt, table, t, t1, ix, deps, next);
      if !changed {
        NoChange(rule, curVal, deps);
        UnchangedKeeps(bt, table, t, t1, ix, deps, iso, late);
        Unmoved(t, t1, table, ix);
        return;
      }
      FlowsStay(t, t1, ix, flows);
      TakeState(ix, next, flows, deps);
      Stepped(t, t1, Now(), table, bt, localGlobals, ix, flows, iso0, iso);
      ChangedKeeps(bt, table, t, t1, Now(), ix, deps, flows, iso0, iso, late);
      LateStepped(t, t1, Now(), ix, start, late', iso);
      Advanced(t, t1, Now(), table, ix);
      late' := LateNext(t, late', ix, iso);
    }

    // Solve the constraints. The loop ends although evaluating a call can add nodes and edges:
    // there are finitely many instances and constants, states only climb, and a notifier wakes
    // only nodes that are no notifiers.
    method Solve() returns (ok: bool)
      requires Valid() && Solving(bt, table, Now(), iso, {}, wl.mem)
      modifies this, wl
      ensures Valid() && Extends(old(Now()), Now()) && Higher(old(vals), vals) && (ok ==> wl.mem == [])
      ensures InstancesBuilt(old(Now()), bt, table, localGlobals) ==> InstancesBuilt(Now(), bt, table, localGlobals)
      ensures ok ==> Solved(bt, table, Now(), old(edges))
      ensures !ok ==> exists n: nat :: TypeError(bt, table, Now(), n)
    {
      hide TcOk, Grown, Extends, TableOk, BuiltinsOk, Potential, Solving, Slack, Notifiers, Solved, Progress, LateEdges,
           InstancesBuilt, Higher, TypeError;
      ghost var t0 := Now();
      ghost var late: set<CEdge> := {};
      NothingLate(t0, edges);
      SolveStarts(t0);
      var more := true;
      LengthsOf(t0, table);
      while more
        invariant Valid() && |rules| == |vals| && t0.edges <= edges && Extends(t0, Now()) && Higher(t0.vals, vals)
        invariant InstancesBuilt(t0, bt, table, localGlobals) ==> InstancesBuilt(Now(), bt, table, localGlobals)
        invariant Solving(bt, table, Now(), iso, late, wl.mem) && LateEdges(Now(), t0.edges, late)
        invariant !more ==> wl.mem == []
        decreases Potential(Now(), table), Slack(rules, vals), Notifiers(rules, wl.mem), |wl.mem|, more
      {
        ghost var t := Now();
        InWl(t, table);
        var next := wl.Pop();
        if next.None? {
          more := false;
        } else {
          WlChanged(t, Now(), table);
          Popped(t, Now(), table, bt, localGlobals, iso, late, t0.edges);
          ghost var t1 := Now();
          ok, late := StepOne(next.value, t0.edges, late);
          Onwards(t0, t, t1, Now());
          if !ok {
            return;
          }
          LengthsOf(Now(), table);
          Decreases(t, t1, Now(), table, next.value);
        }
      }
      ok := true;
      NothingWaits(bt, table, Now(), iso, late, t0.edges);
    }
  }

  lemma NotifiersChanged(t: Tc, t': Tc, table: seq<FuncDef>)
    requires TcOk(t, table) && t' == t.(notifiers := t'.notifiers) && t.edges == [] && t.funcs == map[]
    ensures TcOk(t', table)
  {
  }

  lemma NewIsPrivate(t: Tc, table: seq<FuncDef>, rule: Rule)
    requires TcOk(t, table)
    ensures rule.Var? ==> WithRule(t, rule).Private(|t.rules|) && |t.rules| !in t.env.Values
  {
  }

  lemma NameKnown(t: Tc, t': Tc, table: seq<FuncDef>, key: VarKey)
    requires TcOk(t', table) && key in t.env && Grows(t, t')
    requires key.func.Some? ==> Building(t, key.func.value, key.args)
    ensures key in t'.env && t'.Settable(t'.env[key])
  {
    if key.func.Some? {
      BuildingStays(t, t', key.func.value, key.args);
    } else {
      assert t'.GlobalNode(t'.env[key]);
    }
  }

  lemma OwnerBuilt(t: Tc, table: seq<FuncDef>, key: VarKey)
    requires TcOk(t, table) && (key.func.Some? ==> Building(t, key.func.value, key.args))
    ensures (key.func.Some? ==> FuncKey(key.func.value, key.args) in t.funcs) && t.born <= |t.rules|
  {
  }

  lemma ResultIsNew(t: Tc, table: seq<FuncDef>, fid: nat, fargs: seq<State>)
    requires TcOk(t, table) && Building(t, fid, fargs)
    ensures FuncKey(fid, fargs) in t.funcs && t.Settable(t.funcs[FuncKey(fid, fargs)])
  {
  }

  // What one step does to the measure of what is left.
  ghost predicate Progress(t: Tc, t': Tc, table: seq<FuncDef>, ix: nat) {
    || Potential(t', table) < Potential(t, table)
    || (Potential(t', table) == Potential(t, table) && t'.rules == t.rules && |t.rules| == |t.vals| == |t'.vals| &&
        (|| Slack(t'.rules, t'.vals) < Slack(t.rules, t.vals)
         || (Slack(t'.rules, t'.vals) == Slack(t.rules, t.vals) && ix < |t.rules| && t.rules[ix].AlwaysNotify? &&
             Notifiers(t'.rules, t'.wl) == Notifiers(t.rules, t.wl))
         || t' == t))
  }

  // States have climbed, or a notifier was told, which leaves as many notifiers waiting.
  ghost predicate Climbed(t: Tc, t': Tc, ix: nat) {
    && |t.rules| == |t.vals| == |t'.vals| && t'.rules == t.rules && ix < |t.rules|
    && if t.rules[ix].AlwaysNotify? then
         Slack(t'.rules, t'.vals) == Slack(t.rules, t.vals) && Notifiers(t'.rules, t'.wl) == Notifiers(t.rules, t.wl)
       else Slack(t'.rules, t'.vals) < Slack(t.rules, t.vals)
  }

  lemma ClimbedIs(t: Tc, t': Tc, ix: nat, next: State)
    requires |t.rules| == |t.vals| && ix < |t.rules| && t'.rules == t.rules && t'.vals == t.vals[ix := next]
    requires t.rules[ix].AlwaysNotify? ==> Notifiers(t'.rules, t'.wl) == Notifiers(t.rules, t.wl)
    requires var (before, after) := (Slack(t.rules, t.vals), Slack(t.rules, t.vals[ix := next]));
             if t.rules[ix].AlwaysNotify? then after == before else after < before
    ensures Climbed(t, t', ix)
  {
    hide Slack, Notifiers;
  }

  lemma FlowsStay(t: Tc, t1: Tc, ix: nat, flows: seq<nat>)
    requires Grown(t, t1) && forall d | d in flows :: HasFlow(t, d, ix)
    ensures forall d | d in flows :: HasFlow(t1, d, ix)
  {
    forall d | d in flows
      ensures HasFlow(t1, d, ix)
    {
      var k :| 0 <= k < |t.edges| && t.edges[k] == CEdge(d, ix, Flows);
      assert t1.edges[k] == t.edges[k];
    }
  }

  lemma NotifierKnowsNothing(rule: Rule, prev: State, deps: seq<State>)
    requires StepRule(rule, prev, deps).Some? && StepRule(rule, prev, deps).value.1.Some?
    ensures !rule.AlwaysNotify?
  {
  }

  lemma NoBackEdges(t: Tc, ix: nat, flows: seq<nat>, iso: set<(nat, nat)>)
    ensures BackEdges(t, t, ix, flows, iso, iso)
  {
  }

  lemma NoChange(rule: Rule, prev: State, deps: seq<State>)
    requires StepRule(rule, prev, deps).Some? && !StepRule(rule, prev, deps).value.0
    ensures StepRule(rule, prev, deps) == Some((false, prev))
  {
  }

  // What evaluation leaves as it was.
  lemma Evolved(t: Tc, t1: Tc, table: seq<FuncDef>, ix: nat)
    requires TcOk(t, table) && TcOk(t1, table) && Grown(t, t1) && ix < |t.rules|
    ensures Extends(t, t1) && Higher(t.vals, t1.vals) && t.edges <= t1.edges
    ensures ix < |t1.rules| == |t1.vals| && t1.rules[ix] == t.rules[ix] && t1.vals[ix] == t.vals[ix]
  {
    HigherSame(t.vals, t1.vals);
  }

  lemma Unmoved(t: Tc, t1: Tc, table: seq<FuncDef>, ix: nat)
    requires TcOk(t, table) && (t1 == t || Potential(t1, table) < Potential(t, table))
    ensures Progress(t, t1, table, ix)
  {
    hide Potential, Slack, Notifiers;
  }

  // A call brings s at least: the result, as it was in t, of the instance for the states of the
  // arguments in t.
  ghost predicate CallTaken(t: Tc, funcs: map<FuncKey, nat>, table: seq<FuncDef>, f: nat, args: seq<nat>, s: State) {
    && f < |table|
    && exists key :: key in funcs && key.id == table[f].ident && |key.args| == |table[f].args| &&
         (forall k | 0 <= k < |key.args| :: key.args[k] == if k < |args| then StateAt(t.vals, args[k]) else None) &&
         StateLeq(StateAt(t.vals, funcs[key]), s)
  }

  lemma CallsTaken(bt: Builtins, table: seq<FuncDef>, t: Tc, t1: Tc, ix: nat, deps: seq<State>, next: State)
    requires Grown(t, t1) && ix < |t.rules| && ix < |t1.rules| == |t1.vals|
    requires Evaluated(bt, table, t, t1, ix, deps)
    requires StepRule(t1.rules[ix], t1.vals[ix], deps).Some?
    requires StepRule(t1.rules[ix], t1.vals[ix], deps).value.1 == next
    ensures t1.rules[ix].Var? ==> forall e | e in t.edges && e.dst == ix && e.con.CallUDF? ::
              CallTaken(t, t1.funcs, table, e.con.f, e.con.args, next)
  {
    hide Grown, Evaluated, StepRule;
    if t1.rules[ix].Var? {
      StepClimbs(t1.vals[ix], deps);
      forall e | e in t.edges && e.dst == ix && e.con.CallUDF?
        ensures CallTaken(t, t1.funcs, table, e.con.f, e.con.args, next)
      {
        OwnBound(bt, table, t, t1, ix, deps, next, e);
        CallKeyStays(t, t1, table, e.con.f, e.con.args);
        var key := CallKey(table, t1.vals, e.con.f, e.con.args);
        StateStays(t, t1, t1.funcs[key]);
      }
    }
  }

  // From the network before evaluation to the one after the step.
  lemma Stepped(t: Tc, t1: Tc, t2: Tc, table: seq<FuncDef>, bt: Builtins, lg: set<nat>, ix: nat, flows: seq<nat>,
                iso: set<(nat, nat)>, iso': set<(nat, nat)>)
    requires TcOk(t1, table) && Grown(t, t1) && Extends(t, t1) && Higher(t.vals, t1.vals)
    requires ix < |t1.rules| == |t1.vals|
    requires ix < |t2.vals| && t2 == t1.(edges := t2.edges, vals := t1.vals[ix := t2.vals[ix]], wl := t2.wl)
    requires BackEdges(t1, t2, ix, flows, iso, iso') && Higher(t1.vals, t2.vals)
    ensures StateSet(t1, t2, ix) && Extends(t, t2) && Higher(t.vals, t2.vals) && t.edges <= t2.edges
    ensures InstancesBuilt(t1, bt, table, lg) ==> InstancesBuilt(t2, bt, table, lg)
  {
    hide InstanceBuilt, Grown, TcOk, Higher;
    HigherTrans(t.vals, t1.vals, t2.vals);
    assert Extends(t1, t2);
    ExtendsTrans(t, t1, t2);
    hide Extends;
    InstancesStay(t1, t2, table, bt, lg);
  }

  lemma SameEdgesFine(t: Tc, t': Tc, table: seq<FuncDef>)
    requires EdgesFine(t, table) && t'.edges == t.edges && t'.rules == t.rules && t'.callDeps == t.callDeps
    requires t'.notifiers == t.notifiers
    ensures EdgesFine(t', table)
  {
    forall k | 0 <= k < |t'.edges|
      ensures EdgeFine(t', table, t'.edges[k])
    {
      assert EdgeFine(t, table, t.edges[k]);
    }
  }

  lemma SameMapsKnown(t: Tc, t': Tc)
    requires MapsKnown(t) && t'.maps == t.maps && t'.edges == t.edges && t'.base == t.base
    ensures MapsKnown(t')
  {
  }

  lemma ValueSet(t: Tc, table: seq<FuncDef>, ix: nat, prev: State, deps: seq<State>, next: State)
    requires TcOk(t, table) && ix < |t.rules| && t.vals[ix] == prev
    requires StepRule(t.rules[ix], prev, deps) == Some((true, next))
    ensures TcOk(t.(vals := t.vals[ix := next]), table)
    ensures var (before, after) := (Slack(t.rules, t.vals), Slack(t.rules, t.vals[ix := next]));
            if t.rules[ix].AlwaysNotify? then after == before else after < before
    ensures Higher(t.vals, t.vals[ix := next])
  {
    StepHigher(t, ix, deps, next);
    hide AllKeys, EdgeFine, DepsFine, BaseFine, EnvFine, FuncsFine, MapsKnown, Slack, ResultsTell, EnvOwned, Higher;
    var t' := t.(vals := t.vals[ix := next]);
    SameEdgesFine(t, t', table);
    SameMapsKnown(t, t');
    SlackAt(t.rules, t.vals, ix, next);
    if t.rules[ix] == Rule.Var {
      StepClimbs(prev, deps);
    }
  }

  lemma Advanced(t: Tc, t1: Tc, t2: Tc, table: seq<FuncDef>, ix: nat)
    requires TcOk(t, table) && Grown(t, t1) && ix < |t.rules| && (t1 == t || Potential(t1, table) < Potential(t, table))
    requires t2.funcs == t1.funcs && t2.base == t1.base && Climbed(t1, t2, ix)
    ensures Progress(t, t2, table, ix)
  {
    hide Slack, Notifiers, Potential;
    SamePotential(t1, t2, table);
  }

  lemma SamePotential(t: Tc, t': Tc, table: seq<FuncDef>)
    requires t'.funcs == t.funcs && t'.base == t.base
    ensures Potential(t', table) == Potential(t, table)
  {
  }

  lemma BackEdgesSame(t: Tc, t2: Tc, t4: Tc, ix: nat, flows: seq<nat>, iso: set<(nat, nat)>, iso': set<(nat, nat)>)
    requires BackEdges(t, t2, ix, flows, iso, iso') && t4.edges == t2.edges
    ensures BackEdges(t, t4, ix, flows, iso, iso')
  {
    forall p | p in iso' && p !in iso
      ensures exists d: nat :: d in flows && p == Pair(ix, d) && HasFlow(t4, ix, d)
    {
      var d: nat :| d in flows && p == Pair(ix, d) && HasFlow(t2, ix, d);
      assert HasFlow(t4, ix, d);
    }
  }

  lemma InWl(t: Tc, table: seq<FuncDef>)
    requires TcOk(t, table)
    ensures forall x | x in t.wl :: x < |t.rules|
    ensures t.wl != [] ==> t.wl[0] < |t.rules| && forall x | x in t.wl[1..] :: x < |t.rules|
  {
    if t.wl != [] {
      assert t.wl[0] in t.wl;
      assert forall x | x in t.wl[1..] :: x in t.wl;
    }
  }

  // A node is taken from the worklist: it still counts as waiting.
  lemma Popped(t: Tc, t1: Tc, table: seq<FuncDef>, bt: Builtins, lg: set<nat>, iso: set<(nat, nat)>, late: set<CEdge>,
               start: seq<CEdge>)
    requires t.wl != [] && t1 == t.(wl := t.wl[1..])
    requires Solving(bt, table, t, iso, late, t.wl) && LateEdges(t, start, late)
    ensures Solving(bt, table, t1, iso, late, [t.wl[0]] + t1.wl) && LateEdges(t1, start, late)
    ensures InstancesBuilt(t, bt, table, lg) ==> InstancesBuilt(t1, bt, table, lg)
    ensures Potential(t1, table) == Potential(t, table)
    ensures Notifiers(t.rules, t.wl) ==
            (if t.wl[0] < |t.rules| && t.rules[t.wl[0]].AlwaysNotify? then 1 else 0) + Notifiers(t1.rules, t1.wl)
  {
    hide AllKeys, STATES, InstancesBuilt, EdgesHeld, MapsLinked;
    assert [t.wl[0]] + t1.wl == t.wl;
    StillHeld(t, t1, table, bt, late);
    StillLinked(t, t1, iso, late);
    SameInstances(t, t1, table, bt, lg);
  }

  lemma StillHeld(t: Tc, t1: Tc, table: seq<FuncDef>, bt: Builtins, late: set<CEdge>)
    requires t.wl != [] && t1 == t.(wl := t.wl[1..]) && EdgesHeld(bt, table, t, late, t.wl)
    ensures EdgesHeld(bt, table, t1, late, [t.wl[0]] + t1.wl)
  {
    hide Brought;
    assert [t.wl[0]] + t1.wl == t.wl;
    forall e | e in t1.edges && e !in late && IsVar(t1, e.dst)
      ensures EdgeHeld(bt, table, t1, e, [t.wl[0]] + t1.wl)
    {
      assert EdgeHeld(bt, table, t, e, t.wl);
      SameBringing(bt, table, t, t1, e);
    }
  }

  lemma StillLinked(t: Tc, t1: Tc, iso: set<(nat, nat)>, late: set<CEdge>)
    requires t1 == t.(wl := t1.wl) && MapsLinked(t, iso, late)
    ensures MapsLinked(t1, iso, late)
  {
    assert forall a: nat, b: nat :: HasFlow(t1, a, b) <==> HasFlow(t, a, b);
  }

  lemma SameBringing(bt: Builtins, table: seq<FuncDef>, t: Tc, t1: Tc, e: CEdge)
    requires t1 == t.(wl := t1.wl)
    ensures Brought(bt, table, t1, e) == Brought(bt, table, t, e)
  {
    hide EvalCon, CallKey;
  }

  lemma SameInstances(t: Tc, t1: Tc, table: seq<FuncDef>, bt: Builtins, lg: set<nat>)
    requires t1 == t.(wl := t1.wl)
    ensures InstancesBuilt(t, bt, table, lg) ==> InstancesBuilt(t1, bt, table, lg)
  {
    HigherSame(t.vals, t.vals);
    assert Extends(t, t1);
    hide Extends, Higher, InstanceBuilt;
    InstancesStay(t, t1, table, bt, lg);
  }

  lemma NothingLate(t: Tc, start: seq<CEdge>)
    ensures LateEdges(t, start, {})
  {
  }

  lemma SolveStarts(t: Tc)
    ensures Extends(t, t) && Higher(t.vals, t.vals)
  {
    HigherSame(t.vals, t.vals);
  }

  lemma Onwards(t0: Tc, t: Tc, t1: Tc, t2: Tc)
    requires Extends(t0, t) && Higher(t0.vals, t.vals) && t1 == t.(wl := t1.wl)
    requires Extends(t1, t2) && Higher(t1.vals, t2.vals)
    ensures Extends(t0, t2) && Higher(t0.vals, t2.vals) && t0.edges <= t2.edges
  {
    hide Higher;
    HigherTrans(t0.vals, t1.vals, t2.vals);
    assert Extends(t0, t1);
    ExtendsTrans(t0, t1, t2);
  }

  // From before the pop (t) to after the step (t2), the measure drops.
  lemma Decreases(t: Tc, t1: Tc, t2: Tc, table: seq<FuncDef>, ix: nat)
    requires t.wl != [] && ix == t.wl[0] < |t.rules| && t1 == t.(wl := t.wl[1..]) && Progress(t1, t2, table, ix)
    requires Potential(t1, table) == Potential(t, table) && |t.rules| == |t.vals| && |t2.rules| == |t2.vals|
    requires Notifiers(t.rules, t.wl) == (if t.rules[ix].AlwaysNotify? then 1 else 0) + Notifiers(t1.rules, t1.wl)
    ensures || Potential(t2, table) < Potential(t, table)
            || (Potential(t2, table) == Potential(t, table) &&
                (|| Slack(t2.rules, t2.vals) < Slack(t.rules, t.vals)
                 || (Slack(t2.rules, t2.vals) == Slack(t.rules, t.vals) &&
                     (|| Notifiers(t2.rules, t2.wl) < Notifiers(t.rules, t.wl)
                      || (Notifiers(t2.rules, t2.wl) == Notifiers(t.rules, t.wl) && |t2.wl| < |t.wl|)))))
  {
    hide Potential, Slack, Notifiers;
  }

  function InEdges(edges: seq<CEdge>, ix: nat): (r: seq<CEdge>)
    ensures forall e :: e in r <==> e in edges && e.dst == ix
  {
    if edges == [] then []
    else
      var last := edges[|edges| - 1];
      (if last.dst == ix then [last] else []) + InEdges(edges[..|edges| - 1], ix)
  }

  // The first k edges have been evaluated.
  ghost predicate EvaluatedTo(bt: Builtins, table: seq<FuncDef>, t: Tc, ins: seq<CEdge>, k: nat, deps: seq<State>)
    requires k <= |ins|
  {
    forall j | 0 <= j < k :: Brought(bt, table, t, ins[j]).Some? && Brought(bt, table, t, ins[j]).value in deps
  }

  // What flows into ix along the first k edges.
  ghost predicate FlowsUpTo(t: Tc, ins: seq<CEdge>, k: nat, ix: nat, flows: seq<nat>)
    requires k <= |ins|
  {
    && (forall d | d in flows :: HasFlow(t, d, ix))
    && (forall j | 0 <= j < k && ins[j].con.Flows? :: ins[j].src in flows)
  }

  lemma NothingEvaluated(bt: Builtins, table: seq<FuncDef>, t: Tc, ins: seq<CEdge>, ix: nat)
    ensures EvaluatedTo(bt, table, t, ins, 0, []) && FlowsUpTo(t, ins, 0, ix, []) && AreBrought(bt, table, t, ix, [])
  {
  }

  lemma FailsHere(bt: Builtins, table: seq<FuncDef>, t: Tc, ix: nat, e: CEdge)
    requires e in t.edges && e.dst == ix && Fails(bt, t, e)
    ensures TypeError(bt, table, t, ix)
  {
  }

  lemma CallNeverFails(bt: Builtins, t: Tc, e: CEdge)
    requires e.con.CallUDF?
    ensures !Fails(bt, t, e)
  {
  }

  lemma ResultInVals(t: Tc, table: seq<FuncDef>, key: FuncKey)
    requires TcOk(t, table) && key in t.funcs
    ensures t.funcs[key] < |t.vals|
  {
  }

  // What edges have brought they go on bringing while the network grows.
  lemma EvaluatedStill(bt: Builtins, table: seq<FuncDef>, t: Tc, t1: Tc, ins: seq<CEdge>, k: nat, ix: nat,
                       deps: seq<State>)
    requires k <= |ins| && Grown(t, t1) && EvaluatedTo(bt, table, t, ins, k, deps) && AreBrought(bt, table, t, ix, deps)
    ensures EvaluatedTo(bt, table, t1, ins, k, deps) && AreBrought(bt, table, t1, ix, deps)
  {
    hide Brought;
    forall j | 0 <= j < k
      ensures Brought(bt, table, t1, ins[j]).Some? && Brought(bt, table, t1, ins[j]).value in deps
    {
      BroughtStays(bt, table, t, t1, ins[j]);
    }
    forall d | d in deps
      ensures exists e :: e in t1.edges && e.dst == ix && Brought(bt, table, t1, e) == Some(d)
    {
      var e :| e in t.edges && e.dst == ix && Brought(bt, table, t, e) == Some(d);
      BroughtStays(bt, table, t, t1, e);
    }
  }

  lemma OneMoreEvaluated(bt: Builtins, table: seq<FuncDef>, t: Tc, ins: seq<CEdge>, k: nat, ix: nat, deps: seq<State>,
                         s: State)
    requires k < |ins| && EvaluatedTo(bt, table, t, ins, k, deps) && Brought(bt, table, t, ins[k]) == Some(s)
    requires AreBrought(bt, table, t, ix, deps) && ins[k] in t.edges && ins[k].dst == ix
    ensures EvaluatedTo(bt, table, t, ins, k + 1, deps + [s]) && AreBrought(bt, table, t, ix, deps + [s])
  {
    hide Brought;
    assert (deps + [s])[|deps|] == s;
    forall d | d in deps + [s]
      ensures exists e :: e in t.edges && e.dst == ix && Brought(bt, table, t, e) == Some(d)
    {
      if d == s {
        assert Brought(bt, table, t, ins[k]) == Some(d);
      } else {
        assert d in deps;
      }
    }
  }

  lemma OneMoreFlow(t: Tc, ins: seq<CEdge>, k: nat, ix: nat, flows: seq<nat>)
    requires k < |ins| && FlowsUpTo(t, ins, k, ix, flows) && ins[k] in t.edges && ins[k].dst == ix
    ensures FlowsUpTo(t, ins, k + 1, ix, if ins[k].con.Flows? then flows + [ins[k].src] else flows)
  {
  }

  lemma AllFlows(t: Tc, ins: seq<CEdge>, ix: nat, flows: seq<nat>)
    requires FlowsUpTo(t, ins, |ins|, ix, flows) && forall e | e in t.edges && e.dst == ix :: e in ins
    ensures forall d: nat :: d in flows <==> HasFlow(t, d, ix)
  {
    forall d: nat | HasFlow(t, d, ix)
      ensures d in flows
    {
      assert Flow(d, ix) in ins;
    }
  }

  lemma AllEvaluated(bt: Builtins, table: seq<FuncDef>, t: Tc, t1: Tc, ins: seq<CEdge>, ix: nat, deps: seq<State>)
    requires EvaluatedTo(bt, table, t1, ins, |ins|, deps) && forall e | e in t.edges && e.dst == ix :: e in ins
    ensures Evaluated(bt, table, t, t1, ix, deps)
  {
    hide Brought;
    forall e | e in t.edges && e.dst == ix
      ensures Brought(bt, table, t1, e).Some? && Brought(bt, table, t1, e).value in deps
    {
      assert e in ins;
    }
  }

  function OutNodes(edges: seq<CEdge>, ix: nat): (r: seq<nat>)
    ensures forall n :: n in r <==> exists k :: 0 <= k < |edges| && edges[k].src == ix && edges[k].dst == n
  {
    if edges == [] then []
    else
      var last := edges[|edges| - 1];
      (if last.src == ix then [last.dst] else []) + OutNodes(edges[..|edges| - 1], ix)
  }

  lemma EdgeKept(t: Tc, t': Tc, table: seq<FuncDef>, e: CEdge)
    requires TcOk(t, table) && Grown(t, t') && e in t.edges
    ensures EdgeFine(t', table, e) && e in t'.edges
  {
    EdgeStaysFine(t, t', table, e);
  }

  lemma BackEdgeAdded(t: Tc, t1: Tc, table: seq<FuncDef>, ix: nat, flows: seq<nat>, d: nat, iso: set<(nat, nat)>,
                      iso1: set<(nat, nat)>)
    requires TcOk(t, table) && TcOk(t1, table) && t1 == t.(edges := t1.edges) && ix < |t.rules|
    requires !t.rules[ix].AlwaysNotify?
    requires d in flows && HasFlow(t, d, ix) && BackEdges(t, t1, ix, flows, iso, iso1)
    ensures var t' := t1.(edges := t1.edges + [Flow(ix, d)]);
            TcOk(t', table) && BackEdges(t, t', ix, flows, iso, iso1 + {Pair(ix, d)})
  {
    var t' := t1.(edges := t1.edges + [Flow(ix, d)]);
    BackEdgeFits(t, t1, table, ix, d);
    BackEdgeFollows(t, t1, t', ix, flows, d, iso, iso1);
  }

  lemma BackEdgeFits(t: Tc, t1: Tc, table: seq<FuncDef>, ix: nat, d: nat)
    requires TcOk(t, table) && TcOk(t1, table) && t1 == t.(edges := t1.edges) && ix < |t.rules|
    requires !t.rules[ix].AlwaysNotify? && HasFlow(t, d, ix)
    ensures TcOk(t1.(edges := t1.edges + [Flow(ix, d)]), table)
  {
    hide AllKeys;
    var t' := t1.(edges := t1.edges + [Flow(ix, d)]);
    assert EdgeFine(t, table, Flow(d, ix));
    forall k | 0 <= k < |t'.edges|
      ensures EdgeFine(t', table, t'.edges[k])
    {
      if k < |t1.edges| {
        assert t'.edges[k] == t1.edges[k] && EdgeFine(t1, table, t1.edges[k]);
      }
    }
    MapsStay(t1, t');
  }

  lemma BackEdgeFollows(t: Tc, t1: Tc, t': Tc, ix: nat, flows: seq<nat>, d: nat, iso: set<(nat, nat)>,
                        iso1: set<(nat, nat)>)
    requires d in flows && BackEdges(t, t1, ix, flows, iso, iso1) && t'.edges == t1.edges + [Flow(ix, d)]
    ensures BackEdges(t, t', ix, flows, iso, iso1 + {Pair(ix, d)})
  {
    var iso' := iso1 + {Pair(ix, d)};
    assert t'.edges[|t1.edges|] == Flow(ix, d);
    forall k | |t.edges| <= k < |t'.edges|
      ensures t'.edges[k].src == ix && t'.edges[k].con == Flows && t'.edges[k].dst in flows
      ensures Pair(ix, t'.edges[k].dst) in iso'
    {
      if k < |t1.edges| {
        assert t'.edges[k] == t1.edges[k];
      }
    }
    forall p | p in iso' && p !in iso
      ensures exists x: nat :: x in flows && p == Pair(ix, x) && HasFlow(t', ix, x)
    {
      if p in iso1 {
        var x: nat :| x in flows && p == Pair(ix, x) && HasFlow(t1, ix, x);
        assert HasFlow(t', ix, x);
      } else {
        assert HasFlow(t', ix, d);
      }
    }
  }

  lemma TellSettable(t: Tc, table: seq<FuncDef>, ix: nat)
    requires TcOk(t, table) && ix < |t.rules|
    ensures forall n | n in OutNodes(t.edges, ix) ::
               n < |t.rules| && (t.rules[ix].AlwaysNotify? ==> !t.rules[n].AlwaysNotify?)
    ensures ix in t.callDeps ==> forall n | n in t.callDeps[ix] :: n < |t.rules| && !t.rules[n].AlwaysNotify?
  {
    forall n | n in OutNodes(t.edges, ix)
      ensures n < |t.rules| && (t.rules[ix].AlwaysNotify? ==> !t.rules[n].AlwaysNotify?)
    {
      var k :| 0 <= k < |t.edges| && t.edges[k].src == ix && t.edges[k].dst == n;
      assert EdgeFine(t, table, t.edges[k]);
    }
    if ix in t.callDeps {
      forall n | n in t.callDeps[ix]
        ensures n < |t.rules| && !t.rules[n].AlwaysNotify?
      {
        assert NodeIn(t.rules, n);
      }
    }
  }

  lemma AllTold(t: Tc, ix: nat, all: seq<nat>)
    requires all == OutNodes(t.edges, ix) + (if ix in t.callDeps then t.callDeps[ix] else [])
    requires forall j | 0 <= j < |all| :: all[j] in t.wl
    ensures Told(t, ix, t.wl)
  {
    forall n | n in all
      ensures n in t.wl
    {
    }
    forall e | e in t.edges && e.src == ix
      ensures e.dst in t.wl
    {
      var j :| 0 <= j < |t.edges| && t.edges[j] == e;
      assert e.dst in OutNodes(t.edges, ix) && e.dst in all;
    }
    if ix in t.callDeps {
      forall x | x in t.callDeps[ix]
        ensures x in t.wl
      {
        assert x in all;
      }
    }
  }

  lemma WlChanged(t: Tc, t': Tc, table: seq<FuncDef>)
    requires TcOk(t, table) && t' == t.(wl := t'.wl) && forall x | x in t'.wl :: x < |t.rules|
    ensures TcOk(t', table)
  {
    forall k | 0 <= k < |t'.edges|
      ensures EdgeFine(t', table, t'.edges[k])
    {
      assert EdgeFine(t, table, t.edges[k]);
    }
  }

  lemma RulesKept(t: Tc, t': Tc)
    requires Extends(t, t')
    ensures |t.rules| <= |t'.rules|
  {
  }

  lemma BaseKept(t: Tc, t': Tc)
    requires Extends(t, t')
    ensures t.base.Keys <= t'.base.Keys
  {
  }

  // Nodes whose states can be arguments.
  ghost predicate AllNodes(t: Tc, ixs: seq<nat>) {
    forall x | x in ixs :: NodeIn(t.rules, x)
  }

  lemma AllStayNodes(t: Tc, t': Tc, ixs: seq<nat>)
    requires Extends(t, t') && AllNodes(t, ixs)
    ensures AllNodes(t', ixs)
  {
    forall x | x in ixs
      ensures NodeIn(t'.rules, x)
    {
      assert t'.rules[x] == t.rules[x];
    }
  }

  lemma InRange(t: Tc, table: seq<FuncDef>, ixs: seq<nat>)
    requires TcOk(t, table) && AllNodes(t, ixs)
    ensures forall k | 0 <= k < |ixs| :: ixs[k] < |t.vals|
  {
    forall k | 0 <= k < |ixs|
      ensures ixs[k] < |t.vals|
    {
      assert NodeIn(t.rules, ixs[k]);
    }
  }

  lemma FreshOk(t: Tc, table: seq<FuncDef>)
    requires t == Tc([Rule.Var], [None], [], map[], map[], map[], map[], [], {}, [], 0)
    ensures TcOk(t, table)
  {
  }

  ghost predicate AllSettable(t: Tc, ixs: seq<nat>) {
    forall x | x in ixs :: t.Settable(x)
  }

  lemma AllStaySettable(t: Tc, t': Tc, ixs: seq<nat>)
    requires Grows(t, t') && AllSettable(t, ixs)
    ensures AllSettable(t', ixs) && forall k | 0 <= k < |ixs| :: t'.Settable(ixs[k])
    ensures forall s | s <= ixs :: AllSettable(t', s)
  {
    forall x | x in ixs
      ensures t'.Settable(x)
    {
      GrowsSettable(t, t', x);
    }
  }

  lemma ConstantKnown(t: Tc, table: seq<FuncDef>, tv: State)
    requires TcOk(t, table) && tv in t.base
    ensures t.Settable(t.base[tv]) && Grows(t, t) && Extends(t, t)
  {
  }

  // ---- Instances ----

  lemma NoNewEdges(t: Tc, t': Tc)
    requires Grows(t, t') && t'.edges == t.edges
    ensures Grown(t, t') && Higher(t.vals, t'.vals)
  {
    HigherSame(t.vals, t'.vals);
  }

  lemma FromGrows(t: Tc, t': Tc)
    requires Grows(t, t')
    ensures Extends(t, t') && Higher(t.vals, t'.vals)
  {
    HigherSame(t.vals, t'.vals);
  }

  lemma BuiltinEdgeFine(t: Tc, table: seq<FuncDef>, args: seq<nat>, f: nat, tmp: nat)
    requires AllSettable(t, args) && t.Settable(tmp) && TellsChanges(t, args, tmp) && 0 < |t.rules| && t.rules[0].Var?
    ensures EdgeFine(t, table, CEdge(0, tmp, Con.CallBuiltin(args, f)))
  {
    forall a | a in args
      ensures a < |t.rules|
    {
      assert t.Settable(a);
    }
  }

  lemma ToNotifier(t: Tc, table: seq<FuncDef>, ix: nat, notifier: nat)
    requires NodeIn(t.rules, ix) && 0 < notifier < |t.rules| && t.rules[notifier].AlwaysNotify?
    ensures EdgeFine(t, table, CEdge(ix, notifier, Flows)) && t.Open(notifier)
  {
  }

  lemma OnlyPlace(table: seq<FuncDef>, f: nat)
    requires TableOk(table) && f < |table|
    ensures forall g | 0 <= g < |table| && table[g].ident == table[f].ident :: g == f
  {
  }

  // A new instance has no names yet.
  lemma NothingNamed(t: Tc, t': Tc, table: seq<FuncDef>, fid: nat, fargs: seq<State>)
    requires TcOk(t, table) && TcOk(t', table) && Extends(t, t') && t'.born == t.born == |t.rules|
    requires FuncKey(fid, fargs) !in t.funcs && FuncKey(fid, fargs) in t'.funcs
    requires t'.funcs[FuncKey(fid, fargs)] >= |t.rules|
    ensures Building(t', fid, fargs)
  {
    hide EdgesFine, AllKeys, MapsKnown, ResultsTell;
    forall k | k in t'.env && k.func == Some(fid) && k.args == fargs
      ensures t.born <= t'.env[k]
    {
      assert k !in t.env;
    }
  }

  lemma BornSet(t: Tc, t': Tc, table: seq<FuncDef>)
    requires TcOk(t, table) && t' == t.(born := |t.rules|)
    ensures TcOk(t', table) && Potential(t', table) == Potential(t, table)
  {
    SameEdgesFine(t, t', table);
    SameMapsKnown(t, t');
  }

  lemma BornGrown(t: Tc, t1: Tc, t2: Tc)
    requires t1 == t.(born := t1.born) && Grown(t1, t2)
    ensures Grown(t, t2)
  {
  }

  lemma InstancesStay(t: Tc, t': Tc, table: seq<FuncDef>, bt: Builtins, lg: set<nat>)
    requires Extends(t, t') && Higher(t.vals, t'.vals) && t'.funcs == t.funcs
    ensures InstancesBuilt(t, bt, table, lg) ==> InstancesBuilt(t', bt, table, lg)
  {
    hide InstanceBuilt, Higher;
    SameNotifiers(t, t');
    hide Extends;
    if InstancesBuilt(t, bt, table, lg) {
      forall f, key | 0 <= f < |table| && f < |t'.notifiers| && key in t'.funcs && key.id == table[f].ident
        ensures InstanceBuilt(t', bt, lg, table[f], t'.notifiers[f], key)
      {
        InstanceKept(t, t', bt, lg, table[f], t.notifiers[f], key);
      }
    }
  }

  lemma SameNotifiers(t: Tc, t': Tc)
    requires Extends(t, t')
    ensures t'.notifiers == t.notifiers
  {
  }

  lemma OneMoreInstance(t: Tc, t': Tc, table: seq<FuncDef>, bt: Builtins, lg: set<nat>, f: nat, key: FuncKey, ix: nat)
    requires Grown(t, t') && t'.funcs == t.funcs[key := ix] && f < |table| && f < |t.notifiers|
    requires TableOk(table) && key.id == table[f].ident
    requires InstanceBuilt(t', bt, lg, table[f], t.notifiers[f], key)
    ensures InstancesBuilt(t, bt, table, lg) ==> InstancesBuilt(t', bt, table, lg)
  {
    hide InstanceBuilt, Higher;
    OnlyPlace(table, f);
    hide TableOk;
    HigherSame(t.vals, t'.vals);
    SameNotifiers(t, t');
    hide Grown, Extends;
    if InstancesBuilt(t, bt, table, lg) {
      forall g, other | 0 <= g < |table| && g < |t'.notifiers| && other in t'.funcs && other.id == table[g].ident
        ensures InstanceBuilt(t', bt, lg, table[g], t'.notifiers[g], other)
      {
        if other != key {
          InstanceKept(t, t', bt, lg, table[g], t.notifiers[g], other);
        }
      }
    }
  }

  lemma InstanceKept(t: Tc, t': Tc, bt: Builtins, lg: set<nat>, def: FuncDef, notifier: nat, key: FuncKey)
    requires Extends(t, t') && Higher(t.vals, t'.vals) && InstanceBuilt(t, bt, lg, def, notifier, key)
    ensures InstanceBuilt(t', bt, lg, def, notifier, key)
  {
    hide InstanceBuilt, Extends;
    InstanceStays(t, t', bt, lg, def, notifier, key);
  }

  lemma ArgsAreGiven(t: Tc, t': Tc, args: seq<nat>, states: seq<State>)
    requires Grows(t, t') && |args| == |states| && AllNodes(t, args) && |t.rules| == |t.vals|
    requires forall k | 0 <= k < |args| :: states[k] == StateAt(t.vals, args[k])
    ensures ArgsGiven(t'.vals, states, args)
  {
    forall k | 0 <= k < |args|
      ensures args[k] < |t'.vals| && StateLeq(states[k], t'.vals[args[k]])
    {
      assert NodeIn(t.rules, args[k]);
      assert t'.vals[args[k]] == t.vals[args[k]];
      LeqOrder(states[k], states[k], None);
    }
  }

  // The instance of a stage's function: it has no arguments.
  function MainKey(def: FuncDef): FuncKey {
    FuncKey(def.ident, seq(|def.args|, _ => None))
  }

  // The function of one stage.
  method AddMain(tc: TypeContext, m: nat, ghost t: Tc)
    requires tc.Valid() && m < |tc.table| && Grown(t, tc.Now())
    modifies tc, tc.wl
    ensures tc.Valid() && Grown(t, tc.Now()) && tc.iso == old(tc.iso)
    ensures InstancesBuilt(old(tc.Now()), tc.bt, tc.table, tc.localGlobals) ==>
              InstancesBuilt(tc.Now(), tc.bt, tc.table, tc.localGlobals)
    ensures MainKey(tc.table[m]) in tc.funcs && forall key | key in old(tc.funcs) :: key in tc.funcs
  {
    hide TcOk, Grown, TableOk, BuiltinsOk, Potential, InstancesBuilt, InstanceBuilt;
    ghost var t1 := tc.Now();
    NoNodes(t1);
    ghost var key;
    var _, found := tc.GetFunction(m, [], tc.udfNodes[m]);
    key := found;
    assert key.args == MainKey(tc.table[m]).args;
    FuncsStay(t1, tc.Now());
    GrownTrans(t, t1, tc.Now());
  }

  // Build the stages' functions without arguments, then solve; `begun` is the network when solving begins.
  method SolveProg(table: seq<FuncDef>, bt: Builtins, localGlobals: set<nat>, mains: seq<nat>)
    returns (ok: bool, tc: TypeContext, ghost begun: Tc)
    requires TableOk(table) && BuiltinsOk(bt) && forall m | m in mains :: m < |table|
    ensures fresh(tc) && tc.Valid() && tc.table == table && tc.bt == bt && tc.localGlobals == localGlobals
    ensures Extends(begun, tc.Now()) && Higher(begun.vals, tc.vals)
    ensures forall m | m in mains :: MainKey(table[m]) in begun.funcs
    ensures InstancesBuilt(begun, bt, table, localGlobals) && InstancesBuilt(tc.Now(), bt, table, localGlobals)
    ensures ok ==> tc.wl.mem == [] && Solved(bt, table, tc.Now(), begun.edges)
    ensures !ok ==> exists n: nat :: TypeError(bt, table, tc.Now(), n)
  {
    hide TcOk, Grown, Extends, TableOk, BuiltinsOk, Potential, Solving, Solved, InstancesBuilt, InstanceBuilt,
         TypeError, Higher;
    tc := new TypeContext(table, bt, localGlobals);
    ghost var t := tc.Now();
    GrownSame(t);
    LengthsOf(t, table);
    NoInstances(t, bt, table, localGlobals);
    var k := 0;
    while k < |mains|
      invariant 0 <= k <= |mains| && tc.Valid() && fresh(tc) && fresh(tc.wl) && Grown(t, tc.Now()) && tc.iso == {}
      invariant InstancesBuilt(tc.Now(), bt, table, localGlobals)
      invariant forall j | 0 <= j < k :: mains[j] < |table| && MainKey(table[mains[j]]) in tc.funcs
      modifies tc, tc.wl
    {
      assert mains[k] in mains;
      AddMain(tc, mains[k], t);
      k := k + 1;
    }
    begun := tc.Now();
    LengthsOf(begun, table);
    StillUnknown(t, begun);
    NothingKnown(bt, table, begun);
    ok := tc.Solve();
  }

  lemma InstanceNotifiers(t: Tc, t': Tc)
    requires Extends(t, t')
    ensures t'.notifiers == t.notifiers && Extends(t', t')
  {
  }

  lemma FuncsStill(t: Tc, t': Tc)
    requires Extends(t, t')
    ensures forall key | key in t.funcs :: key in t'.funcs
  {
  }

  lemma FromBegun(bt: Builtins, table: seq<FuncDef>, t0: Tc, t: Tc)
    requires TcOk(t, table) && BuiltinsOk(bt) && Extends(t0, t) && Solved(bt, table, t, t0.edges)
    ensures From(bt, table, t0, t, t0.edges, true) && From(bt, table, t, t, t0.edges, false)
  {
    hide TcOk, Solved, BuiltinsOk;
  }

  // Type inference for a whole program. `ok` is false on a type error. Otherwise the types of every
  // statement of every instance fit; flows into global names count for the stages' functions only, which
  // were there before solving began.
  method FromProg(table: seq<FuncDef>, bt: Builtins, localGlobals: set<nat>, mains: seq<nat>)
    returns (ok: bool, tc: TypeContext)
    requires TableOk(table) && BuiltinsOk(bt) && forall m | m in mains :: m < |table|
    ensures fresh(tc) && tc.Valid() && tc.table == table && tc.bt == bt && tc.localGlobals == localGlobals
    ensures InstancesBuilt(tc.Now(), bt, table, localGlobals)
    ensures forall m | m in mains :: MainKey(table[m]) in tc.funcs
    ensures ok ==> forall f, key | 0 <= f < |table| && key in tc.funcs && key.id == table[f].ident ::
              InstanceTyped(tc.Now(), bt, table, localGlobals, table[f], key, false)
    ensures ok ==> forall m | m in mains ::
              InstanceTyped(tc.Now(), bt, table, localGlobals, table[m], MainKey(table[m]), true)
    ensures !ok ==> exists n: nat :: TypeError(bt, table, tc.Now(), n)
  {
    hide TcOk, Grown, Extends, TableOk, BuiltinsOk, Solved, InstancesBuilt, InstanceTyped, TypeError;
    ghost var begun;
    ok, tc, begun := SolveProg(table, bt, localGlobals, mains);
    InstanceNotifiers(begun, tc.Now());
    FuncsStill(begun, tc.Now());
    if ok {
      ghost var now := tc.Now();
      FromBegun(bt, table, begun, now);
      InstancesHold(bt, table, begun, now, begun.edges, true, localGlobals);
      HigherSame(now.vals, now.vals);
      InstancesHold(bt, table, now, now, begun.edges, false, localGlobals);
    }
  }

  lemma NoNodes(t: Tc)
    ensures AllNodes(t, [])
  {
  }

  lemma NoInstances(t: Tc, bt: Builtins, table: seq<FuncDef>, lg: set<nat>)
    requires t.funcs == map[]
    ensures InstancesBuilt(t, bt, table, lg)
  {
  }

  lemma FuncsStay(t: Tc, t': Tc)
    requires Grown(t, t')
    ensures forall key | key in t.funcs :: key in t'.funcs
  {
  }

  lemma StillUnknown(t: Tc, t1: Tc)
    requires Grown(t, t1) && |t.rules| == |t.vals| && |t1.rules| == |t1.vals|
    requires (forall n | 0 <= n < |t.vals| :: t.vals[n] == None) && forall n | 0 < n < |t.rules| :: n in t.wl
    ensures (forall n | 0 <= n < |t1.vals| :: t1.vals[n] == None) && forall n | 0 < n < |t1.rules| :: n in t1.wl
  {
    forall n | 0 <= n < |t1.vals|
      ensures t1.vals[n] == None
    {
      if n < |t.vals| {
        assert t1.vals[n] == t.vals[n];
      }
    }
  }

  // The states of an instance's arguments: those of the given nodes, and nothing known of missing ones.
  lemma NormalStates(t: Tc, t': Tc, table: seq<FuncDef>, given: seq<nat>, nodes: seq<nat>, states: seq<State>)
    requires TcOk(t, table) && TcOk(t', table) && Grows(t, t') && AllNodes(t, given) && |states| == |nodes|
    requires forall k | 0 <= k < |nodes| :: nodes[k] < |t'.vals| && states[k] == t'.vals[nodes[k]]
    requires forall k | 0 <= k < |nodes| ::
               if k < |given| then nodes[k] == given[k] else ConstNode(t', None) == Some(nodes[k])
    ensures forall k | 0 <= k < |states| :: states[k] == if k < |given| then StateAt(t.vals, given[k]) else None
  {
    hide EdgeFine, AllKeys, MapsKnown;
    forall k | 0 <= k < |states|
      ensures states[k] == if k < |given| then StateAt(t.vals, given[k]) else None
    {
      if k < |given| {
        assert NodeIn(t.rules, given[k]);
        assert t'.vals[given[k]] == t.vals[given[k]];
      } else {
        assert t'.rules[nodes[k]] == Const(None);
      }
    }
  }
}
