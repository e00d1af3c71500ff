// What solving a constraint network keeps, while it grows: an edge whose target does not wait brings
// nothing that its target is not above.
module TypeSolution {
  import opened Ir
  import opened TypeStates
  import opened TypeNet

  function StatesAt(vals: seq<State>, ixs: seq<nat>): (r: seq<State>)
    requires forall k | 0 <= k < |ixs| :: ixs[k] < |vals|
    ensures |r| == |ixs| && forall k | 0 <= k < |ixs| :: r[k] == vals[ixs[k]]
  {
    seq(|ixs|, k requires 0 <= k < |ixs| => vals[ixs[k]])
  }

  predicate InVals(vals: seq<State>, ixs: seq<nat>) {
    forall k | 0 <= k < |ixs| :: ixs[k] < |vals|
  }

  function StateAt(vals: seq<State>, n: nat): State {
    if n < |vals| then vals[n] else None
  }

  // The argument states of a call: missing ones are unknown, extra ones are dropped.
  function ArgStates(vals: seq<State>, args: seq<nat>, arity: nat): (r: seq<State>)
    ensures |r| == arity
    ensures forall k | 0 <= k < arity :: r[k] == if k < |args| then StateAt(vals, args[k]) else None
  {
    seq(arity, k requires 0 <= k < arity => if k < |args| then StateAt(vals, args[k]) else None)
  }

  // The instance that a call is about.
  function CallKey(table: seq<FuncDef>, vals: seq<State>, f: nat, args: seq<nat>): FuncKey
    requires f < |table|
  {
    FuncKey(table[f].ident, ArgStates(vals, args, |table[f].args|))
  }

  // What an edge brings, if it is no call of a function; None is a type error.
  function EvalCon(bt: Builtins, vals: seq<State>, e: CEdge): Option<State> {
    match e.con
    case CallBuiltin(args, f) => if InVals(vals, args) then bt.step(f, StatesAt(vals, args)) else None
    case CallUDF(_, _, _) => None
    case con => if e.src < |vals| then EvalSimple(con, vals[e.src]) else None
  }

  // A call brings the result of its instance, once that is there.
  function Brought(bt: Builtins, table: seq<FuncDef>, t: Tc, e: CEdge): Option<State> {
    match e.con
    case CallUDF(_, args, f) =>
      if f < |table| && CallKey(table, t.vals, f, args) in t.funcs
      then Some(StateAt(t.vals, t.funcs[CallKey(table, t.vals, f, args)])) else None
    case _ => EvalCon(bt, t.vals, e)
  }

  ghost predicate IsMap(s: State) {
    s.Some? && s.value.Map?
  }

  predicate IsVar(t: Tc, n: nat) {
    n < |t.rules| && t.rules[n] == Rule.Var
  }

  // The target is at or above what the edge brings.
  ghost predicate Bounded(bt: Builtins, table: seq<FuncDef>, t: Tc, e: CEdge) {
    Brought(bt, table, t, e).Some? && StateLeq(Brought(bt, table, t, e).value, StateAt(t.vals, e.dst))
  }

  // ... or will be looked at: it waits, or it is a call's and the notifier waits.
  ghost predicate EdgeHeld(bt: Builtins, table: seq<FuncDef>, t: Tc, e: CEdge, wl: seq<nat>) {
    e.dst in wl || (e.con.CallUDF? && e.src in wl) || Bounded(bt, table, t, e)
  }

  function Pair(a: nat, b: nat): (nat, nat) {
    if a <= b then (a, b) else (b, a)
  }

  function Flow(a: nat, b: nat): CEdge {
    CEdge(a, b, Flows)
  }

  ghost predicate HasFlow(t: Tc, a: nat, b: nat) {
    Flow(a, b) in t.edges
  }

  ghost predicate EdgesHeld(bt: Builtins, table: seq<FuncDef>, t: Tc, late: set<CEdge>, wl: seq<nat>) {
    forall e | e in t.edges && e !in late && IsVar(t, e.dst) :: EdgeHeld(bt, table, t, e, wl)
  }

  ghost predicate ConstsHeld(rules: seq<Rule>, vals: seq<State>, wl: seq<nat>)
    requires |rules| == |vals|
  {
    forall n: nat | n < |rules| && rules[n].Const? && n !in wl :: vals[n] == rules[n].s
  }

  // Recorded pairs flow into each other, and not late.
  ghost predicate PairsFlow(t: Tc, iso: set<(nat, nat)>, late: set<CEdge>) {
    forall a: nat, b: nat | Pair(a, b) in iso ::
      HasFlow(t, a, b) && HasFlow(t, b, a) && Flow(a, b) !in late && Flow(b, a) !in late
  }

  // Whatever flows into a map, and not late, is recorded with it.
  ghost predicate FlowsPaired(t: Tc, iso: set<(nat, nat)>, late: set<CEdge>) {
    forall a: nat, b: nat | HasFlow(t, a, b) && Flow(a, b) !in late && IsVar(t, b) && IsMap(StateAt(t.vals, b)) ::
      Pair(a, b) in iso
  }

  ghost predicate MapsLinked(t: Tc, iso: set<(nat, nat)>, late: set<CEdge>) {
    PairsFlow(t, iso, late) && FlowsPaired(t, iso, late)
  }

  // The invariant of solving, for the edges that were not added too late.
  ghost predicate Solving(bt: Builtins, table: seq<FuncDef>, t: Tc, iso: set<(nat, nat)>, late: set<CEdge>,
                          wl: seq<nat>) {
    && |t.rules| == |t.vals|
    && EdgesHeld(bt, table, t, late, wl) && ConstsHeld(t.rules, t.vals, wl) && MapsLinked(t, iso, late)
  }

  // Late edges are no calls, were not there at the start, and lead to shared nodes.
  ghost predicate LateEdges(t: Tc, start: seq<CEdge>, late: set<CEdge>) {
    forall e | e in late :: !e.con.CallUDF? && e !in start && t.Shared(e.dst)
  }

  // An edge that solving is sure to have looked at: it was there from the start, or is a call, or leads
  // to a variable that is not global.
  ghost predicate Counts(t: Tc, start: seq<CEdge>, e: CEdge) {
    e in t.edges && IsVar(t, e.dst) && (e in start || e.con.CallUDF? || !t.GlobalNode(e.dst))
  }

  // Solved: every variable is at or above what those edges bring, constants have their state, and
  // variables joined by a flow into a map have one and the same state.
  ghost predicate Solved(bt: Builtins, table: seq<FuncDef>, t: Tc, start: seq<CEdge>) {
    && |t.rules| == |t.vals|
    && (forall e | Counts(t, start, e) :: Bounded(bt, table, t, e))
    && (forall n: nat | n < |t.rules| && t.rules[n].Const? :: t.vals[n] == t.rules[n].s)
    && (forall a: nat, b: nat | Counts(t, start, Flow(a, b)) && IsVar(t, a) && IsMap(StateAt(t.vals, b)) ::
          StateAt(t.vals, a) == StateAt(t.vals, b))
  }

  lemma NotLate(t: Tc, start: seq<CEdge>, late: set<CEdge>, e: CEdge)
    requires LateEdges(t, start, late) && Counts(t, start, e)
    ensures e !in late
  {
  }

  lemma NothingWaits(bt: Builtins, table: seq<FuncDef>, t: Tc, iso: set<(nat, nat)>, late: set<CEdge>,
                     start: seq<CEdge>)
    requires Solving(bt, table, t, iso, late, []) && LateEdges(t, start, late)
    ensures Solved(bt, table, t, start)
  {
    hide Bounded, LateEdges, Counts;
    forall e | Counts(t, start, e)
      ensures Bounded(bt, table, t, e)
    {
      NotLate(t, start, late, e);
      CountsIs(t, start, e);
      assert EdgeHeld(bt, table, t, e, []);
    }
    forall a: nat, b: nat | Counts(t, start, Flow(a, b)) && IsVar(t, a) && IsMap(StateAt(t.vals, b))
      ensures StateAt(t.vals, a) == StateAt(t.vals, b)
    {
      NotLate(t, start, late, Flow(a, b));
      CountsIs(t, start, Flow(a, b));
      assert Pair(a, b) in iso;
      assert EdgeHeld(bt, table, t, Flow(a, b), []) && EdgeHeld(bt, table, t, Flow(b, a), []);
      FlowBound(bt, table, t, a, b);
      FlowBound(bt, table, t, b, a);
      LeqOrder(t.vals[a], t.vals[b], None);
    }
  }

  lemma CountsIs(t: Tc, start: seq<CEdge>, e: CEdge)
    requires Counts(t, start, e)
    ensures e in t.edges && IsVar(t, e.dst)
  {
  }

  lemma FlowBound(bt: Builtins, table: seq<FuncDef>, t: Tc, a: nat, b: nat)
    requires a < |t.vals| && b < |t.vals| && Bounded(bt, table, t, Flow(a, b))
    ensures StateLeq(t.vals[a], t.vals[b])
  {
  }

  // Before anything is known, with every node waiting.
  lemma NothingKnown(bt: Builtins, table: seq<FuncDef>, t: Tc)
    requires TcOk(t, table) && (forall n | 0 <= n < |t.vals| :: t.vals[n] == None)
    requires forall n | 0 < n < |t.rules| :: n in t.wl
    ensures Solving(bt, table, t, {}, {}, t.wl) && LateEdges(t, t.edges, {})
  {
    forall e | e in t.edges
      ensures e.dst != 0 && e.dst < |t.rules|
    {
      assert EdgeFine(t, table, e);
    }
  }

  // ---- The network grows ----

  // New edges into shared nodes come too late to be sure of.
  ghost function LateAfter(t: Tc, t': Tc, late: set<CEdge>): set<CEdge> {
    late + set e | e in t'.edges && e !in t.edges && !e.con.CallUDF? && t'.Shared(e.dst)
  }

  lemma StateStays(t: Tc, t': Tc, n: nat)
    requires Grown(t, t')
    ensures StateAt(t'.vals, n) == StateAt(t.vals, n)
  {
    if n < |t.vals| {
      assert t'.vals[n] == t.vals[n];
    }
  }

  lemma CallKeyStays(t: Tc, t': Tc, table: seq<FuncDef>, f: nat, args: seq<nat>)
    requires Grown(t, t') && f < |table|
    ensures CallKey(table, t'.vals, f, args) == CallKey(table, t.vals, f, args)
  {
    hide Grown;
    forall k | 0 <= k < |args|
      ensures StateAt(t'.vals, args[k]) == StateAt(t.vals, args[k])
    {
      StateStays(t, t', args[k]);
    }
    assert ArgStates(t'.vals, args, |table[f].args|) == ArgStates(t.vals, args, |table[f].args|);
  }

  lemma EvalStays(bt: Builtins, t: Tc, t': Tc, e: CEdge)
    requires Grown(t, t') && EvalCon(bt, t.vals, e).Some?
    ensures EvalCon(bt, t'.vals, e) == EvalCon(bt, t.vals, e)
  {
    hide NewEdgesApart, Extends;
    if e.con.CallBuiltin? {
      forall k | 0 <= k < |e.con.args|
        ensures e.con.args[k] < |t'.vals| && t'.vals[e.con.args[k]] == t.vals[e.con.args[k]]
      {
      }
      assert StatesAt(t'.vals, e.con.args) == StatesAt(t.vals, e.con.args);
    }
  }

  lemma BroughtStays(bt: Builtins, table: seq<FuncDef>, t: Tc, t': Tc, e: CEdge)
    requires Grown(t, t') && Brought(bt, table, t, e).Some?
    ensures Brought(bt, table, t', e) == Brought(bt, table, t, e)
  {
    hide EvalCon;
    match e.con
    case CallUDF(_, args, f) =>
      CallKeyStays(t, t', table, f, args);
      StateStays(t, t', t.funcs[CallKey(table, t.vals, f, args)]);
    case _ => EvalStays(bt, t, t', e);
  }

  lemma WlStays(t: Tc, t': Tc, x: nat)
    requires Grown(t, t') && x in t.wl
    ensures x in t'.wl
  {
  }

  lemma VarStays(t: Tc, t': Tc, table: seq<FuncDef>, e: CEdge)
    requires Grown(t, t') && TcOk(t, table) && e in t.edges
    ensures e in t'.edges && (IsVar(t', e.dst) ==> IsVar(t, e.dst))
  {
    assert EdgeFine(t, table, e);
    assert t'.rules[e.dst] == t.rules[e.dst];
  }

  lemma NewEdge(t: Tc, t': Tc, e: CEdge)
    requires Grown(t, t') && e in t'.edges && e !in t.edges
    ensures e.dst >= |t.rules| || t'.Shared(e.dst)
    ensures e.con.CallUDF? ==> e.src in t'.wl
  {
    var k :| 0 <= k < |t'.edges| && t'.edges[k] == e;
    assert forall j | 0 <= j < |t.edges| :: t'.edges[j] in t.edges;
  }

  lemma EdgesHeldGrown(bt: Builtins, table: seq<FuncDef>, t: Tc, t': Tc, late: set<CEdge>, ix: nat)
    requires TcOk(t, table) && Grown(t, t') && EdgesHeld(bt, table, t, late, [ix] + t.wl)
    ensures EdgesHeld(bt, table, t', LateAfter(t, t', late), [ix] + t'.wl)
  {
    hide Brought, TcOk, Grown;
    forall e | e in t'.edges && e !in LateAfter(t, t', late) && IsVar(t', e.dst)
      ensures EdgeHeld(bt, table, t', e, [ix] + t'.wl)
    {
      if e in t.edges {
        VarStays(t, t', table, e);
        assert EdgeHeld(bt, table, t, e, [ix] + t.wl);
        if e.dst in t.wl {
          WlStays(t, t', e.dst);
        } else if e.src in t.wl {
          WlStays(t, t', e.src);
        }
        if Bounded(bt, table, t, e) {
          BroughtStays(bt, table, t, t', e);
          StateStays(t, t', e.dst);
        }
      } else {
        NewEdge(t, t', e);
        if !t'.Shared(e.dst) {
          NewWaits(t, t', e.dst);
        }
      }
    }
  }

  lemma NewWaits(t: Tc, t': Tc, n: nat)
    requires Grown(t, t') && |t.rules| <= n < |t'.rules|
    ensures n in t'.wl
  {
  }

  lemma ConstsHeldGrown(t: Tc, t': Tc, ix: nat)
    requires Grown(t, t') && |t.rules| == |t.vals| && |t'.rules| == |t'.vals|
    requires ConstsHeld(t.rules, t.vals, [ix] + t.wl)
    ensures ConstsHeld(t'.rules, t'.vals, [ix] + t'.wl)
  {
  }

  lemma MapsLinkedGrown(t: Tc, t': Tc, table: seq<FuncDef>, iso: set<(nat, nat)>, late: set<CEdge>)
    requires TcOk(t, table) && TcOk(t', table) && Grown(t, t') && MapsLinked(t, iso, late)
    ensures MapsLinked(t', iso, LateAfter(t, t', late))
  {
    hide TcOk, Grown;
    var late' := LateAfter(t, t', late);
    forall a: nat, b: nat | Pair(a, b) in iso
      ensures HasFlow(t', a, b) && HasFlow(t', b, a) && Flow(a, b) !in late' && Flow(b, a) !in late'
    {
      VarStays(t, t', table, Flow(a, b));
      VarStays(t, t', table, Flow(b, a));
    }
    forall a: nat, b: nat | HasFlow(t', a, b) && Flow(a, b) !in late' && IsVar(t', b) && IsMap(StateAt(t'.vals, b))
      ensures Pair(a, b) in iso
    {
      StateStays(t, t', b);
      if Flow(a, b) in t.edges {
        VarStays(t, t', table, Flow(a, b));
      } else {
        NewEdge(t, t', Flow(a, b));
        NoStateYet(t, table, b);
      }
    }
  }

  lemma NoStateYet(t: Tc, table: seq<FuncDef>, n: nat)
    requires TcOk(t, table) && |t.rules| <= n
    ensures StateAt(t.vals, n) == None
  {
  }

  lemma LateGrown(t: Tc, t': Tc, start: seq<CEdge>, late: set<CEdge>)
    requires Grown(t, t') && LateEdges(t, start, late) && start <= t.edges
    ensures LateEdges(t', start, LateAfter(t, t', late))
  {
    forall e | e in LateAfter(t, t', late)
      ensures !e.con.CallUDF? && e !in start && t'.Shared(e.dst)
    {
      assert forall k | 0 <= k < |start| :: start[k] in t.edges;
      if e in late {
        SharedStays(t, t', e.dst);
      }
    }
  }

  lemma SolvingGrown(bt: Builtins, table: seq<FuncDef>, t: Tc, t': Tc, iso: set<(nat, nat)>, late: set<CEdge>, ix: nat)
    requires TcOk(t, table) && TcOk(t', table) && Grown(t, t') && Solving(bt, table, t, iso, late, [ix] + t.wl)
    ensures Solving(bt, table, t', iso, LateAfter(t, t', late), [ix] + t'.wl)
  {
    hide TcOk, Grown, EdgesHeld, ConstsHeld, MapsLinked;
    assert |t'.rules| == |t'.vals| by {
      LengthsOf(t', table);
    }
    EdgesHeldGrown(bt, table, t, t', late, ix);
    ConstsHeldGrown(t, t', ix);
    MapsLinkedGrown(t, t', table, iso, late);
  }

  lemma LengthsOf(t: Tc, table: seq<FuncDef>)
    requires TcOk(t, table)
    ensures |t.rules| == |t.vals| > 0
  {
  }

  // ---- One node brought up to date ----

  // Everything that reads n is told when n changes.
  ghost predicate Told(t: Tc, n: nat, wl: seq<nat>) {
    && (forall e | e in t.edges && e.src == n :: e.dst in wl)
    && (n in t.callDeps ==> forall x | x in t.callDeps[n] :: x in wl)
  }

  // t' is t with another state for n, and possibly more edges.
  ghost predicate StateSet(t: Tc, t': Tc, n: nat) {
    && n < |t.rules| == |t.vals| == |t'.vals| && t'.rules == t.rules && t'.vals == t.vals[n := t'.vals[n]]
    && t.edges <= t'.edges && t'.callDeps == t.callDeps && t'.funcs == t.funcs && t'.notifiers == t.notifiers
  }

  lemma OlderEdge(t: Tc, t': Tc, e: CEdge)
    requires t.edges <= t'.edges && e in t.edges
    ensures e in t'.edges
  {
  }

  // What an edge that need not be looked at brings has not changed.
  lemma SameEval(bt: Builtins, t: Tc, t': Tc, table: seq<FuncDef>, e: CEdge, n: nat)
    requires TcOk(t, table) && e in t.edges && StateSet(t, t', n) && Told(t', n, t'.wl)
    requires e.dst !in t'.wl && !e.con.CallUDF?
    ensures EvalCon(bt, t'.vals, e) == EvalCon(bt, t.vals, e)
  {
    assert EdgeFine(t, table, e);
    hide TcOk;
    OlderEdge(t, t', e);
    if e.con.CallBuiltin? {
      forall k | 0 <= k < |e.con.args|
        ensures e.con.args[k] < |t.vals| && t'.vals[e.con.args[k]] == t.vals[e.con.args[k]]
      {
        assert e.con.args[k] in e.con.args;
      }
      assert StatesAt(t'.vals, e.con.args) == StatesAt(t.vals, e.con.args);
    }
  }

  lemma SameCall(table: seq<FuncDef>, t: Tc, t': Tc, e: CEdge, n: nat)
    requires TcOk(t, table) && e in t.edges && StateSet(t, t', n) && Told(t', n, t'.wl)
    requires e.con.CallUDF? && e.dst !in t'.wl && e.src !in t'.wl
    ensures e.con.f < |table|
    ensures CallKey(table, t'.vals, e.con.f, e.con.args) == CallKey(table, t.vals, e.con.f, e.con.args)
    ensures var key := CallKey(table, t.vals, e.con.f, e.con.args);
            key in t.funcs ==> StateAt(t'.vals, t.funcs[key]) == StateAt(t.vals, t.funcs[key])
  {
    assert EdgeFine(t, table, e);
    var f, args := e.con.f, e.con.args;
    var key := CallKey(table, t.vals, f, args);
    if key in t.funcs {
      ResultTold(table, t, t', f, key, n);
    }
    hide TcOk;
    forall k | 0 <= k < |args|
      ensures StateAt(t'.vals, args[k]) == StateAt(t.vals, args[k])
    {
      assert args[k] in args;
    }
    assert ArgStates(t'.vals, args, |table[f].args|) == ArgStates(t.vals, args, |table[f].args|);
  }

  // If an instance's result has changed, its function's notifier waits.
  lemma ResultTold(table: seq<FuncDef>, t: Tc, t': Tc, f: nat, key: FuncKey, n: nat)
    requires TcOk(t, table) && StateSet(t, t', n) && Told(t', n, t'.wl)
    requires f < |table| && f < |t.notifiers| && key in t.funcs && key.id == table[f].ident
    ensures t.funcs[key] == n ==> t.notifiers[f] in t'.wl
  {
    assert CEdge(t.funcs[key], t.notifiers[f], Flows) in t.edges;
    OlderEdge(t, t', CEdge(t.funcs[key], t.notifiers[f], Flows));
  }

  lemma SameBrought(bt: Builtins, table: seq<FuncDef>, t: Tc, t': Tc, e: CEdge, n: nat)
    requires TcOk(t, table) && e in t.edges && StateSet(t, t', n) && Told(t', n, t'.wl)
    requires e.dst !in t'.wl && (e.con.CallUDF? ==> e.src !in t'.wl)
    ensures Brought(bt, table, t', e) == Brought(bt, table, t, e)
  {
    hide TcOk, Told, EvalCon;
    if e.con.CallUDF? {
      SameCall(table, t, t', e, n);
      hide StateSet;
    } else {
      SameEval(bt, t, t', table, e, n);
    }
  }

  // What evaluating the edges that led to n found.
  ghost predicate Evaluated(bt: Builtins, table: seq<FuncDef>, t: Tc, t': Tc, n: nat, deps: seq<State>) {
    forall e | e in t.edges && e.dst == n ::
      Brought(bt, table, t', e).Some? && Brought(bt, table, t', e).value in deps
  }

  lemma OwnBound(bt: Builtins, table: seq<FuncDef>, t: Tc, t': Tc, n: nat, deps: seq<State>, next: State, e: CEdge)
    requires Evaluated(bt, table, t, t', n, deps) && e in t.edges && e.dst == n
    requires forall j | 0 <= j < |deps| :: StateLeq(deps[j], next)
    ensures Brought(bt, table, t', e).Some? && StateLeq(Brought(bt, table, t', e).value, next)
  {
    var j :| 0 <= j < |deps| && deps[j] == Brought(bt, table, t', e).value;
  }

  // A node that did not change was already above what it was found to depend on.
  lemma UnchangedHeld(bt: Builtins, table: seq<FuncDef>, t: Tc, t': Tc, n: nat, deps: seq<State>, late: set<CEdge>)
    requires TcOk(t', table) && Grown(t, t') && n < |t.rules|
    requires EdgesHeld(bt, table, t', LateAfter(t, t', late), [n] + t'.wl) && Evaluated(bt, table, t, t', n, deps)
    requires StepRule(t'.rules[n], StateAt(t'.vals, n), deps) == Some((false, StateAt(t'.vals, n)))
    ensures EdgesHeld(bt, table, t', LateAfter(t, t', late), t'.wl)
  {
    hide TcOk, Grown, Brought, StepRule, Evaluated;
    forall e | e in t'.edges && e !in LateAfter(t, t', late) && IsVar(t', e.dst)
      ensures EdgeHeld(bt, table, t', e, t'.wl)
    {
      assert EdgeHeld(bt, table, t', e, [n] + t'.wl);
      if e.dst == n {
        if e in t.edges {
          StepClimbs(StateAt(t'.vals, n), deps);
          OwnBound(bt, table, t, t', n, deps, StateAt(t'.vals, n), e);
        } else {
          NewEdge(t, t', e);
        }
      } else if e.con.CallUDF? && e.src == n {
        CallFromNotifier(t', table, e);
        NotifierChanges(StateAt(t'.vals, n), deps);
      }
    }
  }

  lemma CallFromNotifier(t: Tc, table: seq<FuncDef>, e: CEdge)
    requires TcOk(t, table) && e in t.edges && e.con.CallUDF?
    ensures e.src < |t.rules| && t.rules[e.src] == AlwaysNotify
  {
    assert EdgeFine(t, table, e);
  }

  lemma NotifierChanges(prev: State, deps: seq<State>)
    ensures StepRule(AlwaysNotify, prev, deps) == Some((true, None))
  {
  }

  lemma ConstSettled(t: Tc, n: nat, deps: seq<State>, vals: seq<State>, wl: seq<nat>)
    requires n < |t.rules| == |t.vals| && StepRule(t.rules[n], t.vals[n], deps).Some?
    requires ConstsHeld(t.rules, t.vals, [n] + t.wl) && (forall x | x in t.wl :: x in wl)
    requires vals == t.vals[n := StepRule(t.rules[n], t.vals[n], deps).value.1]
    ensures ConstsHeld(t.rules, vals, wl)
  {
  }

  lemma UnchangedKeeps(bt: Builtins, table: seq<FuncDef>, t: Tc, t': Tc, n: nat, deps: seq<State>,
                       iso: set<(nat, nat)>, late: set<CEdge>)
    requires TcOk(t', table) && Grown(t, t') && n < |t.rules| && n < |t'.rules| == |t'.vals|
    requires Solving(bt, table, t', iso, LateAfter(t, t', late), [n] + t'.wl) && Evaluated(bt, table, t, t', n, deps)
    requires StepRule(t'.rules[n], t'.vals[n], deps) == Some((false, t'.vals[n]))
    ensures Solving(bt, table, t', iso, LateAfter(t, t', late), t'.wl)
  {
    hide TcOk, Grown, StepRule, Evaluated, EdgesHeld, ConstsHeld, MapsLinked;
    UnchangedHeld(bt, table, t, t', n, deps, late);
    ConstSettled(t', n, deps, t'.vals, t'.wl);
  }

  // Back edges from n to what flows into it, one per pair.
  ghost predicate BackEdges(t: Tc, t': Tc, n: nat, flows: seq<nat>, iso: set<(nat, nat)>, iso': set<(nat, nat)>) {
    && t.edges <= t'.edges && iso <= iso'
    && (forall k | |t.edges| <= k < |t'.edges| ::
          && t'.edges[k].src == n && t'.edges[k].con == Flows && t'.edges[k].dst in flows
          && Pair(n, t'.edges[k].dst) in iso')
    && (forall p | p in iso' && p !in iso :: exists d: nat :: d in flows && p == Pair(n, d) && HasFlow(t', n, d))
  }

  // Edges that have just been looked at, and back edges, are late no more.
  ghost function LateNext(t: Tc, late: set<CEdge>, n: nat, iso: set<(nat, nat)>): set<CEdge> {
    set e | e in late && !(e.dst == n && e in t.edges) && !(e.con.Flows? && e.src == n && Pair(n, e.dst) in iso)
  }

  lemma BackEdge(t: Tc, t': Tc, n: nat, flows: seq<nat>, iso: set<(nat, nat)>, iso': set<(nat, nat)>, e: CEdge)
    requires BackEdges(t, t', n, flows, iso, iso') && e in t'.edges && e !in t.edges
    ensures e.src == n && e.con == Flows && e.dst in flows && Pair(n, e.dst) in iso'
  {
    var k :| 0 <= k < |t'.edges| && t'.edges[k] == e;
    assert forall j | 0 <= j < |t.edges| :: t'.edges[j] in t.edges;
  }

  // t is the network before evaluation, t1 after it, t2 after the step.
  lemma ChangedHeld(bt: Builtins, table: seq<FuncDef>, t: Tc, t1: Tc, t2: Tc, n: nat, deps: seq<State>, flows: seq<nat>,
                    iso: set<(nat, nat)>, iso': set<(nat, nat)>, late: set<CEdge>)
    requires TcOk(t1, table) && Grown(t, t1) && n < |t.rules| && StateSet(t1, t2, n) && Told(t2, n, t2.wl)
    requires EdgesHeld(bt, table, t1, LateAfter(t, t1, late), [n] + t1.wl) && Evaluated(bt, table, t, t1, n, deps)
    requires StepRule(t1.rules[n], t1.vals[n], deps) == Some((true, t2.vals[n])) && forall x | x in t1.wl :: x in t2.wl
    requires BackEdges(t1, t2, n, flows, iso, iso')
    ensures EdgesHeld(bt, table, t2, LateNext(t, LateAfter(t, t1, late), n, iso'), t2.wl)
  {
    hide TcOk, Grown, Brought, StepRule, Evaluated, BackEdges;
    var late' := LateNext(t, LateAfter(t, t1, late), n, iso');
    forall e | e in t2.edges && e !in late' && IsVar(t2, e.dst)
      ensures EdgeHeld(bt, table, t2, e, t2.wl)
    {
      if e.src == n {
      } else if e in t1.edges {
        OldEdgeHeld(bt, table, t, t1, t2, n, deps, iso', late, e);
      } else {
        BackEdge(t1, t2, n, flows, iso, iso', e);
      }
    }
  }

  lemma OldEdgeHeld(bt: Builtins, table: seq<FuncDef>, t: Tc, t1: Tc, t2: Tc, n: nat, deps: seq<State>,
                    iso: set<(nat, nat)>, late: set<CEdge>, e: CEdge)
    requires TcOk(t1, table) && Grown(t, t1) && n < |t.rules| && StateSet(t1, t2, n) && Told(t2, n, t2.wl)
    requires EdgesHeld(bt, table, t1, LateAfter(t, t1, late), [n] + t1.wl) && Evaluated(bt, table, t, t1, n, deps)
    requires StepRule(t1.rules[n], t1.vals[n], deps) == Some((true, t2.vals[n])) && forall x | x in t1.wl :: x in t2.wl
    requires e in t1.edges && e.src != n && e !in LateNext(t, LateAfter(t, t1, late), n, iso) && IsVar(t1, e.dst)
    ensures EdgeHeld(bt, table, t2, e, t2.wl)
  {
    hide TcOk, Grown, Brought, StepRule, Evaluated, Told;
    if e.dst in t2.wl || (e.con.CallUDF? && e.src in t2.wl) {
    } else if e.dst == n && e in t.edges {
      SameBrought(bt, table, t1, t2, e, n);
      StepClimbs(t1.vals[n], deps);
      OwnBound(bt, table, t, t1, n, deps, t2.vals[n], e);
    } else if e.dst == n {
      NewEdge(t, t1, e);
    } else {
      SameBrought(bt, table, t1, t2, e, n);
      assert EdgeHeld(bt, table, t1, e, [n] + t1.wl);
    }
  }

  lemma PairsKept(t: Tc, t1: Tc, t2: Tc, table: seq<FuncDef>, n: nat, flows: seq<nat>, iso: set<(nat, nat)>,
                  iso': set<(nat, nat)>, late: set<CEdge>)
    requires TcOk(t, table) && Grown(t, t1) && StateSet(t1, t2, n)
    requires PairsFlow(t1, iso, LateAfter(t, t1, late)) && BackEdges(t1, t2, n, flows, iso, iso')
    requires forall d: nat :: d in flows <==> HasFlow(t, d, n)
    ensures PairsFlow(t2, iso', LateNext(t, LateAfter(t, t1, late), n, iso'))
  {
    hide TcOk, Grown, LateAfter;
    var late' := LateNext(t, LateAfter(t, t1, late), n, iso');
    forall a: nat, b: nat | Pair(a, b) in iso'
      ensures HasFlow(t2, a, b) && HasFlow(t2, b, a) && Flow(a, b) !in late' && Flow(b, a) !in late'
    {
      if Pair(a, b) !in iso {
        var d: nat :| d in flows && Pair(a, b) == Pair(n, d) && HasFlow(t2, n, d);
        VarStays(t, t1, table, Flow(d, n));
        OlderEdge(t1, t2, Flow(d, n));
      } else {
        OlderEdge(t1, t2, Flow(a, b));
        OlderEdge(t1, t2, Flow(b, a));
      }
    }
  }

  lemma FlowsStillPaired(t: Tc, t1: Tc, t2: Tc, n: nat, flows: seq<nat>, iso: set<(nat, nat)>, iso': set<(nat, nat)>,
                         late: set<CEdge>)
    requires Grown(t, t1) && n < |t.rules| && StateSet(t1, t2, n)
    requires FlowsPaired(t1, iso, LateAfter(t, t1, late)) && BackEdges(t1, t2, n, flows, iso, iso')
    requires forall d: nat :: d in flows <==> HasFlow(t, d, n)
    requires IsVar(t1, n) && IsMap(t2.vals[n]) ==> forall d | d in flows :: Pair(n, d) in iso'
    ensures FlowsPaired(t2, iso', LateNext(t, LateAfter(t, t1, late), n, iso'))
  {
    hide Grown;
    var late1 := LateAfter(t, t1, late);
    var late' := LateNext(t, late1, n, iso');
    forall a: nat, b: nat | HasFlow(t2, a, b) && Flow(a, b) !in late' && IsVar(t2, b) && IsMap(StateAt(t2.vals, b))
      ensures Pair(a, b) in iso'
    {
      if Flow(a, b) !in t1.edges {
        BackEdge(t1, t2, n, flows, iso, iso', Flow(a, b));
      } else if b == n && Flow(a, b) !in t.edges {
        NewEdge(t, t1, Flow(a, b));
        assert Flow(a, b) in late1;
      } else if b == n {
        assert HasFlow(t, a, n);
      } else if Flow(a, b) !in late1 {
        assert HasFlow(t1, a, b) && StateAt(t2.vals, b) == StateAt(t1.vals, b);
      }
    }
  }

  lemma ChangedKeeps(bt: Builtins, table: seq<FuncDef>, t: Tc, t1: Tc, t2: Tc, n: nat, deps: seq<State>,
                     flows: seq<nat>, iso: set<(nat, nat)>, iso': set<(nat, nat)>, late: set<CEdge>)
    requires TcOk(t, table) && TcOk(t1, table) && Grown(t, t1) && n < |t.rules| && StateSet(t1, t2, n)
    requires Solving(bt, table, t1, iso, LateAfter(t, t1, late), [n] + t1.wl) && Evaluated(bt, table, t, t1, n, deps)
    requires StepRule(t1.rules[n], t1.vals[n], deps) == Some((true, t2.vals[n]))
    requires BackEdges(t1, t2, n, flows, iso, iso') && (forall x | x in t1.wl :: x in t2.wl) && Told(t2, n, t2.wl)
    requires forall d: nat :: d in flows <==> HasFlow(t, d, n)
    requires IsMap(t2.vals[n]) ==> forall d | d in flows :: Pair(n, d) in iso'
    ensures Solving(bt, table, t2, iso', LateNext(t, LateAfter(t, t1, late), n, iso'), t2.wl)
  {
    hide TcOk, Grown, StepRule, Evaluated, EdgesHeld, ConstsHeld, PairsFlow, FlowsPaired, BackEdges, Told;
    ChangedHeld(bt, table, t, t1, t2, n, deps, flows, iso, iso', late);
    ConstSettled(t1, n, deps, t2.vals, t2.wl);
    PairsKept(t, t1, t2, table, n, flows, iso, iso', late);
    FlowsStillPaired(t, t1, t2, n, flows, iso, iso', late);
  }

  lemma LateStepped(t: Tc, t1: Tc, t2: Tc, n: nat, start: seq<CEdge>, late: set<CEdge>, iso: set<(nat, nat)>)
    requires LateEdges(t1, start, late) && t2.rules == t1.rules && t2.env == t1.env
    ensures LateEdges(t2, start, LateNext(t, late, n, iso))
  {
  }

  // Adding an edge wakes its source only. If that is a settled constant, nothing changes and nobody is
  // told: the network is at rest again, and the new flow counts if and only if its target was already at
  // or above the constant.
  lemma LateFlow(bt: Builtins, table: seq<FuncDef>, t: Tc, c: nat, g: nat, s: State, deps: seq<State>)
    requires t.wl == [] && c < |t.rules| == |t.vals| && t.rules[c] == Const(s) && t.vals[c] == s
    ensures var t' := WithDep(t, c, g, Flows);
            && t'.wl == [c] && StepRule(t'.rules[c], t'.vals[c], deps) == Some((false, s))
            && (Bounded(bt, table, t', Flow(c, g)) <==> StateLeq(s, StateAt(t.vals, g)))
  {
  }

  // ---- States only climb ----

  ghost predicate Higher(vals: seq<State>, vals': seq<State>) {
    |vals| <= |vals'| && forall n | 0 <= n < |vals| :: StateLeq(vals[n], vals'[n])
  }

  lemma HigherSame(a: seq<State>, b: seq<State>)
    requires a <= b
    ensures Higher(a, b)
  {
    forall n | 0 <= n < |a|
      ensures StateLeq(a[n], b[n])
    {
      LeqOrder(a[n], b[n], None);
    }
  }

  lemma HigherTrans(a: seq<State>, b: seq<State>, c: seq<State>)
    requires Higher(a, b) && Higher(b, c)
    ensures Higher(a, c)
  {
    forall n | 0 <= n < |a|
      ensures StateLeq(a[n], c[n])
    {
      LeqOrder(a[n], b[n], c[n]);
    }
  }

  lemma StepHigher(t: Tc, n: nat, deps: seq<State>, next: State)
    requires n < |t.rules| == |t.vals| && ConstsFine(t.rules, t.vals)
    requires StepRule(t.rules[n], t.vals[n], deps).Some? && StepRule(t.rules[n], t.vals[n], deps).value.1 == next
    ensures Higher(t.vals, t.vals[n := next])
  {
    HigherSame(t.vals, t.vals);
    match t.rules[n]
    case Var => StepClimbs(t.vals[n], deps);
    case Const(s) => LeqOrder(s, s, s);
    case AlwaysNotify =>
  }

  // ---- Type errors ----

  // Keys, values and iterations exist of the right kind of type only.
  predicate WrongKind(con: Con, s: State) {
    && s.Some?
    && match con
       case KeyIn => !s.value.Scalar?
       case ValIn => !s.value.Scalar?
       case IterValIn => !s.value.Scalar?
       case Key => !s.value.Map?
       case Val => !s.value.Map?
       case IterVal => !s.value.Iter?
       case _ => false
  }

  ghost predicate Fails(bt: Builtins, t: Tc, e: CEdge) {
    match e.con
    case CallBuiltin(args, f) => InVals(t.vals, args) && bt.step(f, StatesAt(t.vals, args)).None?
    case CallUDF(_, _, _) => false
    case con => WrongKind(con, StateAt(t.vals, e.src))
  }

  // No state is above what n has and what some edges into it bring.
  ghost predicate Conflict(bt: Builtins, table: seq<FuncDef>, t: Tc, n: nat) {
    exists deps: seq<State> ::
      && AreBrought(bt, table, t, n, deps)
      && (forall u :: StateLeq(StateAt(t.vals, n), u) ==> exists d :: d in deps && !StateLeq(d, u))
  }

  ghost predicate AreBrought(bt: Builtins, table: seq<FuncDef>, t: Tc, n: nat, deps: seq<State>) {
    forall d | d in deps :: exists e :: e in t.edges && e.dst == n && Brought(bt, table, t, e) == Some(d)
  }

  ghost predicate TypeError(bt: Builtins, table: seq<FuncDef>, t: Tc, n: nat) {
    (exists e :: e in t.edges && e.dst == n && Fails(bt, t, e)) || Conflict(bt, table, t, n)
  }

  lemma EvalFails(bt: Builtins, t: Tc, table: seq<FuncDef>, e: CEdge)
    requires TcOk(t, table) && EdgeFine(t, table, e) && !e.con.CallUDF?
    ensures EvalCon(bt, t.vals, e).None? <==> Fails(bt, t, e)
  {
    if e.con.CallBuiltin? {
      forall k | 0 <= k < |e.con.args|
        ensures e.con.args[k] < |t.vals|
      {
        assert e.con.args[k] in e.con.args;
      }
    }
  }

  lemma StepConflicts(bt: Builtins, table: seq<FuncDef>, t: Tc, n: nat, deps: seq<State>)
    requires n < |t.rules| == |t.vals| && AreBrought(bt, table, t, n, deps)
    requires StepRule(t.rules[n], t.vals[n], deps).None?
    ensures TypeError(bt, table, t, n)
  {
    forall u | StateLeq(t.vals[n], u)
      ensures exists d :: d in deps && !StateLeq(d, u)
    {
      if forall j | 0 <= j < |deps| :: StateLeq(deps[j], u) {
        StepLeast(t.vals[n], deps, u);
      } else {
        var j :| 0 <= j < |deps| && !StateLeq(deps[j], u);
        assert deps[j] in deps;
      }
    }
  }
}
