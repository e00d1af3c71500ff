// The constraint network of src/types.rs as a value: what adding to it keeps, and how far it can grow.
module TypeNet {
  import opened Ir
  import opened TypeStates

  datatype Con =
    | KeyIn | Key | ValIn | Val | IterVal | IterValIn | Flows
    | CallBuiltin(args: seq<nat>, f: nat)
    | CallUDF(nix: nat, args: seq<nat>, f: nat)

  datatype CEdge = CEdge(src: nat, dst: nat, con: Con)

  // What a constraint makes of its source's state; None is an error.
  function EvalSimple(con: Con, s: State): Option<State>
    requires !con.CallBuiltin? && !con.CallUDF?
  {
    match con
    case KeyIn =>
      if s.None? then Some(Some(Map(None, None)))
      else if s.value.Scalar? then Some(Some(Map(s.value.t, None)))
      else None
    case Key => if s.None? then Some(None) else if s.value.Map? then Some(Some(Scalar(s.value.key))) else None
    case ValIn =>
      if s.None? then Some(Some(Map(None, None)))
      else if s.value.Scalar? then Some(Some(Map(None, s.value.t)))
      else None
    case Val => if s.None? then Some(None) else if s.value.Map? then Some(Some(Scalar(s.value.val))) else None
    case IterValIn =>
      if s.None? then Some(Some(Iter(None))) else if s.value.Scalar? then Some(Some(Iter(s.value.t))) else None
    case IterVal => if s.None? then Some(None) else if s.value.Iter? then Some(Some(Scalar(s.value.t))) else None
    case Flows => Some(s)
  }

  // ---- Functions and builtins ----

  datatype FuncDef = FuncDef(ident: nat, args: seq<Ident>, blocks: seq<seq<PrimStmt>>)

  // Edges a builtin adds between its arguments and its result; None is the result.
  datatype Hint = FromConst(s: State, arg: nat) | Link(from: Option<nat>, to: Option<nat>, con: Con)

  datatype Builtins = Builtins(step: (nat, seq<State>) -> Option<State>, arity: nat -> Option<nat>,
                               hints: nat -> seq<Hint>, varTy: nat -> State)

  ghost predicate BuiltinsOk(bt: Builtins) {
    forall f: nat, k | 0 <= k < |bt.hints(f)| :: HintFine(bt, f, bt.hints(f)[k])
  }

  // Hints speak of arguments that the builtin has.
  predicate HintFine(bt: Builtins, f: nat, h: Hint) {
    match h
    case FromConst(_, to) => bt.arity(f).Some? && to < bt.arity(f).value
    case Link(from, to, con) =>
      && !con.CallBuiltin? && !con.CallUDF?
      && (from.Some? ==> bt.arity(f).Some? && from.value < bt.arity(f).value)
      && (to.Some? ==> bt.arity(f).Some? && to.value < bt.arity(f).value)
  }

  // Variables are per function and argument types, unless they are global.
  datatype VarKey = VarKey(id: Ident, func: Option<nat>, args: seq<State>)
  datatype FuncKey = FuncKey(id: nat, args: seq<State>)

  function KeysFor(f: FuncDef): set<FuncKey> {
    set t | t in Tuples(|f.args|) :: FuncKey(f.ident, t)
  }

  // All instances there can be.
  function AllKeys(table: seq<FuncDef>): set<FuncKey> {
    if table == [] then {} else AllKeys(table[..|table| - 1]) + KeysFor(table[|table| - 1])
  }

  lemma {:induction false} InAllKeys(table: seq<FuncDef>, f: nat, args: seq<State>)
    requires f < |table| && |args| == |table[f].args|
    ensures FuncKey(table[f].ident, args) in AllKeys(table)
  {
    if f == |table| - 1 {
      InTuples(args);
    } else {
      InAllKeys(table[..|table| - 1], f, args);
    }
  }

  // ---- The network ----

  // A node whose state can be inferred: anything but the base node and the functions' notifiers.
  predicate NodeIn(rules: seq<Rule>, n: nat) {
    0 < n < |rules| && !rules[n].AlwaysNotify?
  }

  // notifiers[f] is told when a result of function f changes; nodes from `born` on are those of the
  // instance that was built last.
  datatype Tc = Tc(rules: seq<Rule>, vals: seq<State>, edges: seq<CEdge>, callDeps: map<nat, seq<nat>>,
                   base: map<State, nat>, env: map<VarKey, nat>, funcs: map<FuncKey, nat>, wl: seq<nat>, maps: set<nat>,
                   notifiers: seq<nat>, born: nat)
  {
    // The node of a name that all functions share.
    ghost predicate GlobalNode(n: nat) {
      exists k :: k in env && k.func.None? && env[k] == n
    }
    // Nodes that instances of different functions have in common.
    ghost predicate Shared(n: nat) {
      n < |rules| && (rules[n].Const? || rules[n].AlwaysNotify? || GlobalNode(n))
    }
    ghost predicate Open(n: nat) {
      born <= n || Shared(n)
    }
    // A variable of one instance.
    ghost predicate Private(n: nat) {
      n < |rules| && rules[n] == Rule.Var && !GlobalNode(n)
    }
    // What new constraints may lead to.
    ghost predicate Settable(n: nat) {
      NodeIn(rules, n) && Open(n)
    }
  }

  ghost predicate EdgeFine(t: Tc, table: seq<FuncDef>, e: CEdge) {
    && e.src < |t.rules| && 0 < e.dst < |t.rules| && (e.con.Flows? ==> e.src != 0)
    && (t.rules[e.src].AlwaysNotify? ==> !t.rules[e.dst].AlwaysNotify?)
    && match e.con
       case CallBuiltin(args, _) => forall a | a in args :: a < |t.rules| && a in t.callDeps && e.dst in t.callDeps[a]
       case CallUDF(nix, args, f) =>
         && f < |table| && f < |t.notifiers| && nix == e.src == t.notifiers[f] && t.rules[nix].AlwaysNotify?
         && (forall a | a in args :: NodeIn(t.rules, a) && a in t.callDeps && e.dst in t.callDeps[a])
       case _ => true
  }

  ghost predicate TcOk(t: Tc, table: seq<FuncDef>) {
    && |t.rules| == |t.vals| > 0 && t.rules[0] == Rule.Var && t.born <= |t.rules|
    && EdgesFine(t, table) && DepsFine(t.callDeps, t.rules) && BaseFine(t.base, t.rules) && EnvFine(t.env, t.rules)
    && FuncsFine(t.funcs, t.rules) && t.funcs.Keys <= AllKeys(table)
    && ConstsFine(t.rules, t.vals)
    && (forall x | x in t.wl :: x < |t.rules|)
    && MapsKnown(t)
    && ResultsTell(t.funcs, t.edges, t.notifiers, table) && EnvOwned(t.env, t.funcs)
  }

  // An instance's result flows to its function's notifier.
  ghost predicate ResultsTell(funcs: map<FuncKey, nat>, edges: seq<CEdge>, notifiers: seq<nat>, table: seq<FuncDef>) {
    forall f, key | 0 <= f < |table| && f < |notifiers| && key in funcs && key.id == table[f].ident ::
      CEdge(funcs[key], notifiers[f], Flows) in edges
  }

  // Names that are not global are those of instances, and a result has no name.
  ghost predicate EnvOwned(env: map<VarKey, nat>, funcs: map<FuncKey, nat>) {
    && (forall k | k in env && k.func.Some? :: FuncKey(k.func.value, k.args) in funcs)
    && (forall k, key | k in env && key in funcs :: env[k] != funcs[key])
  }

  ghost predicate EdgesFine(t: Tc, table: seq<FuncDef>) {
    forall k | 0 <= k < |t.edges| :: EdgeFine(t, table, t.edges[k])
  }

  ghost predicate DepsFine(deps: map<nat, seq<nat>>, rules: seq<Rule>) {
    forall a | a in deps :: forall x | x in deps[a] :: NodeIn(rules, x)
  }

  ghost predicate BaseFine(base: map<State, nat>, rules: seq<Rule>) {
    forall s | s in base :: base[s] < |rules| && rules[base[s]] == Const(s)
  }

  // Each name has a variable of its own.
  ghost predicate EnvFine(env: map<VarKey, nat>, rules: seq<Rule>) {
    && (forall k | k in env :: 0 < env[k] < |rules| && rules[env[k]] == Rule.Var)
    && (forall k, l | k in env && l in env && env[k] == env[l] :: k == l)
  }

  ghost predicate FuncsFine(funcs: map<FuncKey, nat>, rules: seq<Rule>) {
    forall k | k in funcs :: 0 < funcs[k] < |rules| && rules[funcs[k]] == Rule.Var
  }

  // A constant's node knows nothing yet or just that constant; a notifier knows nothing.
  ghost predicate ConstsFine(rules: seq<Rule>, vals: seq<State>)
    requires |rules| == |vals|
  {
    && (forall n | 0 <= n < |rules| && rules[n].Const? :: vals[n] == None || vals[n] == rules[n].s)
    && (forall n | 0 <= n < |rules| && rules[n].AlwaysNotify? :: vals[n] == None)
  }

  ghost predicate MapsKnown(t: Tc) {
    forall m | m in t.maps :: KnownMap(t, m)
  }

  // The state of a map flows into this node.
  ghost predicate KnownMap(t: Tc, m: nat) {
    Some(Map(None, None)) in t.base && CEdge(t.base[Some(Map(None, None))], m, Flows) in t.edges
  }

  ghost predicate Keeps<K(!new), V>(a: map<K, V>, b: map<K, V>) {
    forall k | k in a :: k in b && b[k] == a[k]
  }

  // t' has everything that t has, but for states and what waits.
  ghost predicate Extends(t: Tc, t': Tc) {
    && t.rules <= t'.rules && t.edges <= t'.edges && t.notifiers == t'.notifiers
    && (forall a | a in t.callDeps :: a in t'.callDeps && t.callDeps[a] <= t'.callDeps[a])
    && t.base.Keys <= t'.base.Keys && t.funcs.Keys <= t'.funcs.Keys && t.maps <= t'.maps
    && Keeps(t.base, t'.base) && Keeps(t.env, t'.env) && Keeps(t.funcs, t'.funcs)
    && (forall k | k in t'.env && k !in t.env :: t'.env[k] >= |t.rules|)
  }

  // t' is t with more in it, and nothing known of it yet: new nodes wait to be looked at, new edges lead
  // into the instance being built or to shared nodes, and the notifier of a new call waits.
  ghost predicate Grows(t: Tc, t': Tc) {
    && Extends(t, t') && t.vals <= t'.vals && t'.born == t.born
    && (forall n | |t.vals| <= n < |t'.vals| :: t'.vals[n] == None)
    && (forall n | |t.rules| <= n < |t'.rules| :: n in t'.wl)
    && (forall x | x in t.wl :: x in t'.wl)
    && NewEdgesOpen(t, t')
  }

  ghost predicate NewEdgesOpen(t: Tc, t': Tc) {
    forall k | |t.edges| <= k < |t'.edges| ::
      t'.Open(t'.edges[k].dst) && (t'.edges[k].con.CallUDF? ==> t'.edges[k].src in t'.wl)
  }

  lemma OpenStays(t: Tc, t': Tc, n: nat)
    requires Extends(t, t') && t'.born == t.born
    ensures t.Shared(n) ==> t'.Shared(n)
    ensures t.Open(n) ==> t'.Open(n)
  {
    SharedStays(t, t', n);
  }

  lemma PrivateStays(t: Tc, t': Tc, n: nat)
    requires Extends(t, t') && t.Private(n)
    ensures t'.Private(n)
  {
    assert t'.rules[n] == t.rules[n];
    forall k | k in t'.env && k.func.None?
      ensures t'.env[k] != n
    {
      if k in t.env {
        assert t.env[k] != n;
      }
    }
  }

  lemma GrowsTrans(a: Tc, b: Tc, c: Tc)
    requires Grows(a, b) && Grows(b, c)
    ensures Grows(a, c) && Extends(a, c)
  {
    OpensTrans(a, b, c);
    ExtendsTrans(a, b, c);
    hide NewEdgesOpen, Extends;
    assert a.rules <= b.rules <= c.rules by {
      RulesExtend(a, b);
      RulesExtend(b, c);
    }
    forall n | |a.vals| <= n < |c.vals|
      ensures c.vals[n] == None
    {
      if n < |b.vals| {
        assert c.vals[n] == b.vals[n];
      }
    }
  }

  lemma RulesExtend(a: Tc, b: Tc)
    requires Extends(a, b)
    ensures a.rules <= b.rules
  {
  }

  lemma ExtendsTrans(a: Tc, b: Tc, c: Tc)
    requires Extends(a, b) && Extends(b, c)
    ensures Extends(a, c)
  {
  }

  lemma OpensTrans(a: Tc, b: Tc, c: Tc)
    requires Grows(a, b) && Grows(b, c)
    ensures NewEdgesOpen(a, c)
  {
    forall k | |a.edges| <= k < |c.edges|
      ensures c.Open(c.edges[k].dst) && (c.edges[k].con.CallUDF? ==> c.edges[k].src in c.wl)
    {
      if k < |b.edges| {
        assert c.edges[k] == b.edges[k];
        OpenStays(b, c, b.edges[k].dst);
      }
    }
  }

  // ... the same when any number of instances were built in between.
  ghost predicate Grown(t: Tc, t': Tc) {
    && Extends(t, t') && t.vals <= t'.vals
    && (forall n | |t.vals| <= n < |t'.vals| :: t'.vals[n] == None)
    && (forall n | |t.rules| <= n < |t'.rules| :: n in t'.wl)
    && (forall x | x in t.wl :: x in t'.wl)
    && NewEdgesApart(t, t')
  }

  ghost predicate NewEdgesApart(t: Tc, t': Tc) {
    forall k | |t.edges| <= k < |t'.edges| ::
      && (t'.edges[k].dst >= |t.rules| || t'.Shared(t'.edges[k].dst))
      && (t'.edges[k].con.CallUDF? ==> t'.edges[k].src in t'.wl)
  }

  lemma GrowsGrown(t: Tc, t': Tc)
    requires Grows(t, t') && t.born == |t.rules|
    ensures Grown(t, t')
  {
  }

  lemma GrownSame(t: Tc)
    ensures Grown(t, t)
  {
  }

  lemma GrownTrans(a: Tc, b: Tc, c: Tc)
    requires Grown(a, b) && Grown(b, c)
    ensures Grown(a, c)
  {
    ApartTrans(a, b, c);
    ExtendsTrans(a, b, c);
    hide NewEdgesApart, Extends;
    assert a.rules <= b.rules <= c.rules by {
      RulesExtend(a, b);
      RulesExtend(b, c);
    }
    forall n | |a.vals| <= n < |c.vals|
      ensures c.vals[n] == None
    {
      if n < |b.vals| {
        assert c.vals[n] == b.vals[n];
      }
    }
  }

  lemma ApartTrans(a: Tc, b: Tc, c: Tc)
    requires Grown(a, b) && Grown(b, c)
    ensures NewEdgesApart(a, c)
  {
    forall k | |a.edges| <= k < |c.edges|
      ensures c.edges[k].dst >= |a.rules| || c.Shared(c.edges[k].dst)
      ensures c.edges[k].con.CallUDF? ==> c.edges[k].src in c.wl
    {
      if k < |b.edges| {
        assert c.edges[k] == b.edges[k];
        SharedStays(b, c, b.edges[k].dst);
      }
    }
  }

  lemma SharedStays(t: Tc, t': Tc, n: nat)
    requires Extends(t, t')
    ensures t.Shared(n) ==> t'.Shared(n)
  {
    if t.GlobalNode(n) {
      var k :| k in t.env && k.func.None? && t.env[k] == n;
      assert k in t'.env && t'.env[k] == n;
    }
    if n < |t.rules| {
      assert t'.rules[n] == t.rules[n];
    }
  }

  lemma GrowsSame(t: Tc)
    ensures Grows(t, t) && Extends(t, t)
  {
  }

  lemma GrowsSettable(t: Tc, t': Tc, n: nat)
    requires Grows(t, t') && t.Settable(n)
    ensures t'.Settable(n)
  {
    OpenStays(t, t', n);
    assert t'.rules[n] == t.rules[n];
  }

  // ---- An instance under construction ----

  // Its result and its names are new.
  ghost predicate Building(t: Tc, fid: nat, fargs: seq<State>) {
    && FuncKey(fid, fargs) in t.funcs && t.born <= t.funcs[FuncKey(fid, fargs)] && t.born <= |t.rules|
    && (forall k | k in t.env && k.func == Some(fid) && k.args == fargs :: t.born <= t.env[k])
  }

  lemma BuildingStays(t: Tc, t': Tc, fid: nat, fargs: seq<State>)
    requires Grows(t, t') && Building(t, fid, fargs)
    ensures Building(t', fid, fargs)
  {
  }

  // ---- The ways it is added to ----

  function Queue(wl: seq<nat>, x: nat): seq<nat> {
    if x in wl then wl else wl + [x]
  }

  function WithRule(t: Tc, rule: Rule): Tc {
    t.(rules := t.rules + [rule], vals := t.vals + [None], wl := Queue(t.wl, |t.rules|))
  }

  function WithDep(t: Tc, from: nat, to: nat, con: Con): Tc {
    t.(edges := t.edges + [CEdge(from, to, con)], wl := Queue(t.wl, from))
  }

  function WithCallDep(t: Tc, a: nat, x: nat): Tc {
    t.(callDeps := t.callDeps[a := (if a in t.callDeps then t.callDeps[a] else []) + [x]])
  }

  lemma SimpleEdgeFine(t: Tc, table: seq<FuncDef>, a: nat, b: nat, con: Con)
    requires NodeIn(t.rules, a) && NodeIn(t.rules, b) && !con.CallBuiltin? && !con.CallUDF?
    ensures EdgeFine(t, table, CEdge(a, b, con))
  {
  }

  lemma EdgeStaysFine(t: Tc, t': Tc, table: seq<FuncDef>, e: CEdge)
    requires EdgeFine(t, table, e) && Extends(t, t')
    ensures EdgeFine(t', table, e)
  {
    assert t'.rules[e.src] == t.rules[e.src] && t'.rules[e.dst] == t.rules[e.dst];
    match e.con
    case CallBuiltin(args, _) =>
      forall a | a in args
        ensures a < |t'.rules| && a in t'.callDeps && e.dst in t'.callDeps[a]
      {
        assert e.dst in t.callDeps[a];
      }
    case CallUDF(nix, args, f) =>
      forall a | a in args
        ensures NodeIn(t'.rules, a) && a in t'.callDeps && e.dst in t'.callDeps[a]
      {
        assert e.dst in t.callDeps[a] && t'.rules[a] == t.rules[a];
      }
    case _ =>
  }

  lemma EdgesStillFine(t: Tc, t': Tc, table: seq<FuncDef>)
    requires EdgesFine(t, table) && Extends(t, t') && t.edges <= t'.edges
    requires forall k | |t.edges| <= k < |t'.edges| :: EdgeFine(t', table, t'.edges[k])
    ensures EdgesFine(t', table)
  {
    hide EdgeFine, Extends;
    forall k | 0 <= k < |t'.edges|
      ensures EdgeFine(t', table, t'.edges[k])
    {
      if k < |t.edges| {
        EdgeStaysFine(t, t', table, t.edges[k]);
      }
    }
  }

  // Nodes are only ever added.
  lemma NodesStillFine(t: Tc, rules: seq<Rule>)
    requires DepsFine(t.callDeps, t.rules) && BaseFine(t.base, t.rules) && EnvFine(t.env, t.rules)
    requires FuncsFine(t.funcs, t.rules) && t.rules <= rules
    ensures DepsFine(t.callDeps, rules) && BaseFine(t.base, rules) && EnvFine(t.env, rules) && FuncsFine(t.funcs, rules)
  {
  }

  lemma MapsStay(t: Tc, t': Tc)
    requires MapsKnown(t) && t'.maps == t.maps && t.edges <= t'.edges && Keeps(t.base, t'.base)
    ensures MapsKnown(t')
  {
    forall m | m in t'.maps
      ensures KnownMap(t', m)
    {
      assert KnownMap(t, m);
    }
  }

  lemma RuleAdded(t: Tc, table: seq<FuncDef>, rule: Rule)
    requires TcOk(t, table)
    ensures TcOk(WithRule(t, rule), table) && Grows(t, WithRule(t, rule))
    ensures Extends(t, WithRule(t, rule))
    ensures |t.rules| !in t.wl
    ensures !rule.AlwaysNotify? ==> WithRule(t, rule).Settable(|t.rules|)
  {
    hide EdgeFine, EdgesFine, DepsFine, BaseFine, EnvFine, FuncsFine, AllKeys, MapsKnown;
    var t' := WithRule(t, rule);
    NodesStillFine(t, t'.rules);
    MapsStay(t, t');
    EdgesStillFine(t, t', table);
  }

  lemma DepAdded(t: Tc, table: seq<FuncDef>, from: nat, to: nat, con: Con)
    requires TcOk(t, table) && EdgeFine(t, table, CEdge(from, to, con)) && t.Open(to)
    ensures TcOk(WithDep(t, from, to, con), table) && Grows(t, WithDep(t, from, to, con))
    ensures Extends(t, WithDep(t, from, to, con))
  {
    hide EdgeFine, EdgesFine, DepsFine, BaseFine, EnvFine, FuncsFine, ConstsFine, AllKeys, MapsKnown;
    var t' := WithDep(t, from, to, con);
    MapsStay(t, t');
    EdgeStaysFine(t, t', table, CEdge(from, to, con));
    EdgesStillFine(t, t', table);
  }

  lemma CallDepAdded(t: Tc, table: seq<FuncDef>, a: nat, x: nat)
    requires TcOk(t, table) && NodeIn(t.rules, x)
    ensures TcOk(WithCallDep(t, a, x), table) && Grows(t, WithCallDep(t, a, x))
    ensures Extends(t, WithCallDep(t, a, x))
    ensures a in WithCallDep(t, a, x).callDeps && x in WithCallDep(t, a, x).callDeps[a]
  {
    hide EdgeFine, EdgesFine, BaseFine, EnvFine, FuncsFine, ConstsFine, AllKeys, MapsKnown;
    var t' := WithCallDep(t, a, x);
    MapsStay(t, t');
    EdgesStillFine(t, t', table);
  }

  lemma BaseAdded(t: Tc, table: seq<FuncDef>, s: State, n: nat)
    requires TcOk(t, table) && n < |t.rules| && t.rules[n] == Const(s) && s !in t.base
    ensures TcOk(t.(base := t.base[s := n]), table) && Grows(t, t.(base := t.base[s := n]))
    ensures Extends(t, t.(base := t.base[s := n]))
  {
    hide EdgeFine, EdgesFine, DepsFine, EnvFine, FuncsFine, ConstsFine, AllKeys, MapsKnown;
    var t' := t.(base := t.base[s := n]);
    MapsStay(t, t');
    EdgesStillFine(t, t', table);
  }

  // A new name, at a new variable.
  function WithName(t: Tc, key: VarKey): Tc {
    WithRule(t, Rule.Var).(env := t.env[key := |t.rules|])
  }

  lemma NameAdded(t: Tc, table: seq<FuncDef>, key: VarKey)
    requires TcOk(t, table) && key !in t.env && (key.func.Some? ==> FuncKey(key.func.value, key.args) in t.funcs)
    ensures TcOk(WithName(t, key), table) && Grows(t, WithName(t, key))
    ensures Extends(t, WithName(t, key)) && WithName(t, key).Settable(|t.rules|)
  {
    hide EdgeFine, EdgesFine, DepsFine, BaseFine, EnvFine, FuncsFine, ConstsFine, AllKeys, MapsKnown, ResultsTell,
         EnvOwned, Grows;
    RuleAdded(t, table, Rule.Var);
    var t' := WithName(t, key);
    MapsStay(WithRule(t, Rule.Var), t');
    NameFits(t.env, t.rules, t'.rules, t.funcs, key);
    NameGrows(t, key);
    EdgesStillFine(t, t', table);
  }

  lemma NameFits(env: map<VarKey, nat>, rules: seq<Rule>, rules': seq<Rule>, funcs: map<FuncKey, nat>, key: VarKey)
    requires EnvFine(env, rules) && EnvOwned(env, funcs) && FuncsFine(funcs, rules) && 0 < |rules|
    requires rules' == rules + [Rule.Var] && (key.func.Some? ==> FuncKey(key.func.value, key.args) in funcs)
    ensures EnvFine(env[key := |rules|], rules') && EnvOwned(env[key := |rules|], funcs)
  {
  }

  lemma NameGrows(t: Tc, key: VarKey)
    requires key !in t.env && |t.rules| == |t.vals| > 0 && t.born <= |t.rules|
    ensures Grows(t, WithName(t, key)) && Extends(t, WithName(t, key)) && WithName(t, key).Settable(|t.rules|)
  {
  }

  lemma FuncAdded(t: Tc, table: seq<FuncDef>, f: nat, args: seq<State>, n: nat)
    requires TcOk(t, table) && t.Settable(n) && f < |table| && |args| == |table[f].args| && f < |t.notifiers|
    requires CEdge(n, t.notifiers[f], Flows) in t.edges && t.rules[n] == Rule.Var && n !in t.env.Values
    requires forall g | 0 <= g < |table| && table[g].ident == table[f].ident :: g == f
    requires FuncKey(table[f].ident, args) !in t.funcs
    ensures var t' := t.(funcs := t.funcs[FuncKey(table[f].ident, args) := n]); TcOk(t', table) && Grows(t, t')
  {
    hide EdgeFine, EdgesFine, DepsFine, BaseFine, EnvFine, ConstsFine, AllKeys, MapsKnown;
    var t' := t.(funcs := t.funcs[FuncKey(table[f].ident, args) := n]);
    MapsStay(t, t');
    InAllKeys(table, f, args);
    EdgesStillFine(t, t', table);
  }

  lemma MapAdded(t: Tc, table: seq<FuncDef>, m: nat)
    requires TcOk(t, table) && KnownMap(t, m)
    ensures TcOk(t.(maps := t.maps + {m}), table) && Grows(t, t.(maps := t.maps + {m}))
    ensures Extends(t, t.(maps := t.maps + {m}))
  {
    hide EdgeFine, EdgesFine, DepsFine, BaseFine, EnvFine, FuncsFine, ConstsFine, AllKeys;
    var t' := t.(maps := t.maps + {m});
    EdgesStillFine(t, t', table);
  }

  lemma Queued(t: Tc, table: seq<FuncDef>, x: nat)
    requires TcOk(t, table) && x < |t.rules|
    ensures TcOk(t.(wl := Queue(t.wl, x)), table) && Grows(t, t.(wl := Queue(t.wl, x)))
    ensures Extends(t, t.(wl := Queue(t.wl, x)))
  {
    hide EdgeFine, EdgesFine, DepsFine, BaseFine, EnvFine, FuncsFine, ConstsFine, AllKeys, MapsKnown;
    var t' := t.(wl := Queue(t.wl, x));
    MapsStay(t, t');
    EdgesStillFine(t, t', table);
  }

  // ---- How much is left to do ----

  // Instances and constants that do not exist yet.
  function Potential(t: Tc, table: seq<FuncDef>): nat {
    |AllKeys(table) - t.funcs.Keys| + |STATES - t.base.Keys|
  }

  lemma PotentialDrops(t: Tc, t': Tc, table: seq<FuncDef>)
    requires TcOk(t', table) && Extends(t, t')
    ensures Potential(t', table) <= Potential(t, table)
    ensures t'.funcs.Keys != t.funcs.Keys || t'.base.Keys != t.base.Keys ==> Potential(t', table) < Potential(t, table)
  {
    hide AllKeys, STATES;
    Fewer(AllKeys(table), t.funcs.Keys, t'.funcs.Keys);
    forall s | s in t'.base.Keys
      ensures s in STATES
    {
      AllStates(s);
    }
    Fewer(STATES, t.base.Keys, t'.base.Keys);
  }

  lemma Fewer<T>(all: set<T>, a: set<T>, b: set<T>)
    requires a <= b <= all
    ensures |all - b| <= |all - a| && (a != b ==> |all - b| < |all - a|)
  {
    assert all - a == (all - b) + (b - a) && (all - b) !! (b - a);
    if a != b {
      var x :| x in b - a;
      assert |b - a| > 0;
    }
  }

  // How far the states can still climb.
  function Climb(rule: Rule, s: State): nat {
    match rule
    case Var => TOP_RANK - StateRank(s)
    case Const(tv) => if s == tv then 0 else 1
    case AlwaysNotify => 0
  }

  function Slack(rules: seq<Rule>, vals: seq<State>): nat
    requires |rules| == |vals|
  {
    if rules == [] then 0
    else Slack(rules[..|rules| - 1], vals[..|vals| - 1]) + Climb(rules[|rules| - 1], vals[|vals| - 1])
  }

  lemma {:induction false} SlackAt(rules: seq<Rule>, vals: seq<State>, n: nat, s: State)
    requires |rules| == |vals| && n < |rules|
    ensures Slack(rules, vals[n := s]) + Climb(rules[n], vals[n]) == Slack(rules, vals) + Climb(rules[n], s)
  {
    var last := |rules| - 1;
    if n == last {
      assert vals[n := s][..last] == vals[..last];
    } else {
      assert vals[n := s][..last] == vals[..last][n := s];
      SlackAt(rules[..last], vals[..last], n, s);
    }
  }

  // Notifiers that wait.
  function Notifiers(rules: seq<Rule>, wl: seq<nat>): nat {
    if wl == [] then 0
    else (if wl[0] < |rules| && rules[wl[0]].AlwaysNotify? then 1 else 0) + Notifiers(rules, wl[1..])
  }

  lemma {:induction false} NotifiersAdd(rules: seq<Rule>, wl: seq<nat>, x: nat)
    ensures Notifiers(rules, wl + [x]) ==
            Notifiers(rules, wl) + (if x < |rules| && rules[x].AlwaysNotify? then 1 else 0)
  {
    if wl == [] {
      assert wl + [x] == [x];
    } else {
      assert (wl + [x])[1..] == wl[1..] + [x];
      NotifiersAdd(rules, wl[1..], x);
    }
  }
}
