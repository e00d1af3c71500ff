// src/types.rs: what is known about a type while types are inferred, and how facts combine.
module TypeStates {
  import opened Ir

  datatype BaseTy = Null | Int | Float | Str

  datatype TVar = Iter(t: Option<BaseTy>) | Scalar(t: Option<BaseTy>) | Map(key: Option<BaseTy>, val: Option<BaseTy>)

  // None: nothing known.
  type State = Option<TVar>

  function ValueRule(b1: BaseTy, b2: BaseTy): BaseTy {
    match (b1, b2)
    case (Null, x) => x
    case (x, Null) => x
    case (Str, _) => Str
    case (_, Str) => Str
    case (Float, _) => Float
    case (_, Float) => Float
    case (Int, Int) => Int
  }

  function JoinKey(b1: BaseTy, b2: BaseTy): BaseTy {
    if b1.Float? || b2.Float? || b1.Str? || b2.Str? || b1.Null? || b2.Null? then Str else Int
  }

  function Lift(f: (BaseTy, BaseTy) -> BaseTy, o1: Option<BaseTy>, o2: Option<BaseTy>): Option<BaseTy> {
    match (o1, o2)
    case (Some(x), Some(y)) => Some(f(x, y))
    case (Some(x), None) => Some(x)
    case (None, Some(x)) => Some(x)
    case (None, None) => None
  }

  // One dependency joined in; None is a type error.
  function Join1(cur: State, d: State): Option<State> {
    match (cur, d)
    case (None, x) => Some(x)
    case (x, None) => Some(x)
    case (Some(Iter(x)), Some(Iter(y))) =>
      if y.None? then Some(cur) else if x.None? then Some(d) else if x == y then Some(cur) else None
    case (Some(Scalar(x)), Some(Scalar(y))) =>
      if y.None? then Some(cur) else if x.None? then Some(d) else Some(Some(Scalar(Some(ValueRule(x.value, y.value)))))
    case (Some(Map(k1, v1)), Some(Map(k2, v2))) => Some(Some(Map(Lift(JoinKey, k1, k2), Lift(ValueRule, v1, v2))))
    case _ => None
  }

  datatype Rule = Var | Const(s: State) | AlwaysNotify

  // The dependencies in order, from the k-th on.
  function JoinFrom(cur: State, deps: seq<State>, k: nat): Option<State>
    requires k <= |deps|
    decreases |deps| - k
  {
    if k == |deps| then Some(cur)
    else
      match Join1(cur, deps[k])
      case None => None
      case Some(next) => JoinFrom(next, deps, k + 1)
  }

  // Whether to notify, and the new state; None is an error.
  function StepRule(rule: Rule, prev: State, deps: seq<State>): Option<(bool, State)> {
    match rule
    case Const(tv) => Some((tv != prev, tv))
    case AlwaysNotify => Some((true, None))
    case Var =>
      match JoinFrom(prev, deps, 0)
      case None => None
      case Some(cur) => Some((prev != cur, cur))
  }

  // ---- The order in which states climb ----

  function BaseRank(b: BaseTy): nat {
    match b
    case Null => 0
    case Int => 1
    case Float => 2
    case Str => 3
  }

  ghost predicate BaseLeq(a: Option<BaseTy>, b: Option<BaseTy>) {
    a.None? || (b.Some? && BaseRank(a.value) <= BaseRank(b.value))
  }

  // Distinct key types other than Str are not ordered.
  ghost predicate KeyLeq(a: Option<BaseTy>, b: Option<BaseTy>) {
    a.None? || (b.Some? && (a == b || b.value.Str?))
  }

  ghost predicate StateLeq(a: State, b: State) {
    || a.None?
    || (b.Some? &&
        match (a.value, b.value)
        case (Iter(x), Iter(y)) => x.None? || x == y
        case (Scalar(x), Scalar(y)) => BaseLeq(x, y)
        case (Map(k1, v1), Map(k2, v2)) => KeyLeq(k1, k2) && BaseLeq(v1, v2)
        case _ => false)
  }

  function OptRank(o: Option<BaseTy>): nat {
    if o.None? then 0 else 1 + BaseRank(o.value)
  }

  function KeyRank(o: Option<BaseTy>): nat {
    if o.None? then 0 else if o.value.Str? then 2 else 1
  }

  const TOP_RANK := 7

  function StateRank(s: State): (r: nat)
    ensures r <= TOP_RANK
  {
    match s
    case None => 0
    case Some(Iter(t)) => if t.None? then 1 else 2
    case Some(Scalar(t)) => 1 + OptRank(t)
    case Some(Map(k, v)) => 1 + KeyRank(k) + OptRank(v)
  }

  lemma LeqOrder(a: State, b: State, c: State)
    ensures StateLeq(a, a)
    ensures StateLeq(a, b) && StateLeq(b, c) ==> StateLeq(a, c)
    ensures StateLeq(a, b) && StateLeq(b, a) ==> a == b
    ensures StateLeq(a, b) && a != b ==> StateRank(a) < StateRank(b)
  {
  }

  lemma Join1Above(cur: State, d: State)
    requires Join1(cur, d).Some?
    ensures StateLeq(cur, Join1(cur, d).value) && StateLeq(d, Join1(cur, d).value)
  {
  }

  lemma {:induction false} JoinAbove(cur: State, deps: seq<State>, k: nat)
    requires k <= |deps| && JoinFrom(cur, deps, k).Some?
    ensures StateLeq(cur, JoinFrom(cur, deps, k).value)
    ensures forall j | k <= j < |deps| :: StateLeq(deps[j], JoinFrom(cur, deps, k).value)
    decreases |deps| - k
  {
    var r := JoinFrom(cur, deps, k).value;
    if k == |deps| {
      LeqOrder(cur, cur, cur);
    } else {
      var next := Join1(cur, deps[k]).value;
      Join1Above(cur, deps[k]);
      JoinAbove(next, deps, k + 1);
      LeqOrder(cur, next, r);
      LeqOrder(deps[k], next, r);
    }
  }

  // A variable's new state is above its old one and above everything that flows in.
  lemma StepClimbs(prev: State, deps: seq<State>)
    requires StepRule(Rule.Var, prev, deps).Some?
    ensures var (changed, next) := StepRule(Rule.Var, prev, deps).value;
            && StateLeq(prev, next) && (forall j | 0 <= j < |deps| :: StateLeq(deps[j], next))
            && (changed ==> StateRank(prev) < StateRank(next))
  {
    JoinAbove(prev, deps, 0);
    LeqOrder(prev, JoinFrom(prev, deps, 0).value, None);
  }

  // ---- When joining again changes something ----

  // A key type that does not survive being joined with a key.
  predicate DriftKey(s: State) {
    s.Some? && s.value.Map? && s.value.key.Some? && (s.value.key.value.Float? || s.value.key.value.Null?)
  }

  predicate Keyed(s: State) {
    s.Some? && s.value.Map? && s.value.key.Some?
  }

  function StrKeyed(s: State): State
    requires DriftKey(s)
  {
    Some(Map(Some(Str), s.value.val))
  }

  // Joining is idempotent on everything but maps keyed by Float or Null; those become keyed by Str, for good.
  lemma FloatKeysDrift(s: State)
    ensures Join1(s, s) == Some(s) <==> !DriftKey(s)
    ensures DriftKey(s) ==> Join1(s, s) == Some(StrKeyed(s)) && Join1(StrKeyed(s), s) == Some(StrKeyed(s))
  {
    LeqOrder(s, s, s);
    JoinBelow(s, s);
  }

  lemma JoinBelow(cur: State, d: State)
    requires StateLeq(d, cur)
    ensures Join1(cur, d) == Some(if DriftKey(cur) && Keyed(d) then StrKeyed(cur) else cur)
    ensures DriftKey(cur) ==> StateLeq(cur, StrKeyed(cur)) && !DriftKey(StrKeyed(cur))
  {
  }

  lemma {:induction false} JoinAllBelow(cur: State, deps: seq<State>, k: nat)
    requires k <= |deps| && forall j | k <= j < |deps| :: StateLeq(deps[j], cur)
    ensures JoinFrom(cur, deps, k) ==
            Some(if DriftKey(cur) && (exists j :: k <= j < |deps| && Keyed(deps[j])) then StrKeyed(cur) else cur)
    decreases |deps| - k
  {
    if k < |deps| {
      JoinBelow(cur, deps[k]);
      if DriftKey(cur) && Keyed(deps[k]) {
        forall j | k < j < |deps|
          ensures StateLeq(deps[j], StrKeyed(cur))
        {
          LeqOrder(deps[j], cur, StrKeyed(cur));
        }
        JoinAllBelow(StrKeyed(cur), deps, k + 1);
      } else {
        JoinAllBelow(cur, deps, k + 1);
      }
    }
  }

  // A variable evaluated again with the same dependencies keeps its state, unless that state is a
  // map keyed by Float or Null and some dependency has a key; a third evaluation changes nothing.
  lemma StepSettles(prev: State, deps: seq<State>)
    requires StepRule(Rule.Var, prev, deps).Some?
    ensures var cur := StepRule(Rule.Var, prev, deps).value.1;
            var drifts := DriftKey(cur) && exists j :: 0 <= j < |deps| && Keyed(deps[j]);
            var next := if drifts then StrKeyed(cur) else cur;
            && StepRule(Rule.Var, cur, deps) == Some((drifts, next))
            && StepRule(Rule.Var, next, deps) == Some((false, next))
  {
    var cur := JoinFrom(prev, deps, 0).value;
    JoinAbove(prev, deps, 0);
    JoinAllBelow(cur, deps, 0);
    if DriftKey(cur) {
      forall j | 0 <= j < |deps|
        ensures StateLeq(deps[j], StrKeyed(cur))
      {
        JoinBelow(cur, deps[j]);
        LeqOrder(deps[j], cur, StrKeyed(cur));
      }
      JoinAllBelow(StrKeyed(cur), deps, 0);
    }
  }

  // ---- Joining is as low as it can be ----

  // Strings win over everything, floats over integers, and nulls over nothing; keys of different
  // types, and keys that are not integers, are strings.
  lemma BasesJoin(a: BaseTy, b: BaseTy)
    ensures ValueRule(a, b).Str? <==> a.Str? || b.Str?
    ensures ValueRule(a, b).Float? <==> (a.Float? || b.Float?) && !a.Str? && !b.Str?
    ensures ValueRule(a, b).Null? <==> a.Null? && b.Null?
    ensures JoinKey(a, b) == if a.Int? && b.Int? then Int else Str
  {
  }

  // Above s, but for a map whose key type drifts to Str.
  ghost predicate UpTo(s: State, u: State) {
    StateLeq(s, u) || (DriftKey(u) && StateLeq(s, StrKeyed(u)))
  }

  // Two states join if and only if some state is above both, and then to the least such state; a key
  // type that does not survive joining is Str instead.
  lemma Join1Least(cur: State, d: State, u: State)
    ensures Join1(cur, d).None? ==> !(StateLeq(cur, u) && StateLeq(d, u))
    ensures Join1(cur, d).Some? && UpTo(cur, u) && StateLeq(d, u) ==> UpTo(Join1(cur, d).value, u)
    ensures Join1(cur, d).None? && UpTo(cur, u) ==> !StateLeq(d, u)
  {
  }

  lemma {:induction false} JoinLeast(cur: State, deps: seq<State>, k: nat, u: State)
    requires k <= |deps| && UpTo(cur, u) && forall j | k <= j < |deps| :: StateLeq(deps[j], u)
    ensures JoinFrom(cur, deps, k).Some? && UpTo(JoinFrom(cur, deps, k).value, u)
    decreases |deps| - k
  {
    if k < |deps| {
      Join1Least(cur, deps[k], u);
      JoinLeast(Join1(cur, deps[k]).value, deps, k + 1, u);
    }
  }

  // A variable's step fails only if no state is above its old one and all that flows in; otherwise the
  // new state is below every such state, one keyed by Float or Null counting as keyed by Str.
  lemma StepLeast(prev: State, deps: seq<State>, u: State)
    requires StateLeq(prev, u) && forall j | 0 <= j < |deps| :: StateLeq(deps[j], u)
    ensures StepRule(Rule.Var, prev, deps).Some?
    ensures var next := StepRule(Rule.Var, prev, deps).value.1;
            StateLeq(next, u) || (DriftKey(u) && StateLeq(next, StrKeyed(u)))
  {
    JoinLeast(prev, deps, 0, u);
  }

  // ---- There are finitely many states ----

  const BASES: set<Option<BaseTy>> := {None, Some(Null), Some(Int), Some(Float), Some(Str)}

  const STATES: set<State> :=
    {None} + (set b | b in BASES :: Some(Iter(b))) + (set b | b in BASES :: Some(Scalar(b))) +
    (set k, v | k in BASES && v in BASES :: Some(Map(k, v)))

  lemma AllBases(o: Option<BaseTy>)
    ensures o in BASES
  {
    if o.Some? {
      match o.value {
        case Null =>
        case Int =>
        case Float =>
        case Str =>
      }
    }
  }

  lemma AllStates(s: State)
    ensures s in STATES
  {
    match s
    case None =>
    case Some(Iter(t)) => AllBases(t);
    case Some(Scalar(t)) => AllBases(t);
    case Some(Map(k, v)) =>
      AllBases(k);
      AllBases(v);
  }

  // The tuples of n states.
  function Tuples(n: nat): set<seq<State>> {
    if n == 0 then {[]} else set t, s | t in Tuples(n - 1) && s in STATES :: t + [s]
  }

  lemma {:induction false} InTuples(t: seq<State>)
    ensures t in Tuples(|t|)
  {
    if t != [] {
      var init := t[..|t| - 1];
      InTuples(init);
      AllStates(t[|t| - 1]);
      assert t == init + [t[|t| - 1]];
    }
  }
}
