// The used-field analysis has no false negatives.
module FieldSoundness {
  import opened Graphs
  import opened Ir
  import opened Words
  import opened FieldSets
  import opened Lattices
  import opened Dataflow
  import opened UsedFields
  import opened P = FieldPrograms
  import FieldPrecision

  // ---- What visiting a program leaves in the net ----

  ghost predicate InstIn(i: Inst, t: FieldNet, joins: seq<(Key, Key)>) {
    && (forall k :: Or(t.WeightOf(k), Contribution(i, k)) == t.WeightOf(k))
    && (IsTracked(i) ==> forall a, b | (a, Some(b)) in Deps(i) :: t.HasDep(a, b))
    && (forall k | k in Asked(i) :: t.IsQuery(k))
    && (i.JoinColumns? ==> (IntReg(i.start), IntReg(i.end)) in joins)
  }

  lemma VisitedIn(i: Inst, t: FieldNet, t': FieldNet, joins: seq<(Key, Key)>, joins': seq<(Key, Key)>)
    requires Visited(i, t, t', joins, joins')
    ensures InstIn(i, t', joins')
  {
    hide Or, Contribution, Deps;
    forall k
      ensures Or(t'.WeightOf(k), Contribution(i, k)) == t'.WeightOf(k)
    {
      var c, w := Contribution(i, k), t.WeightOf(k);
      OrComm(c, w);
      OrAssoc(w, c, c);
      OrSame(c);
    }
  }

  lemma VisitedKeeps(i: Inst, o: Inst, t: FieldNet, t': FieldNet, joins: seq<(Key, Key)>, joins': seq<(Key, Key)>)
    requires Visited(i, t, t', joins, joins') && InstIn(o, t, joins)
    ensures InstIn(o, t', joins')
  {
    hide Or, Contribution, Deps;
    forall k
      ensures Or(t'.WeightOf(k), Contribution(o, k)) == t'.WeightOf(k)
    {
      OrAssoc(Contribution(i, k), t.WeightOf(k), Contribution(o, k));
    }
  }

  // The visited net and its solution. `loose`: for what can be said of all runs, registers that are
  // read without having been written, or after a test wrote them, included.
  datatype Analyzed = Analyzed(t: FieldNet, sol: FieldNet, joins: seq<(Key, Key)>, res: Word, loose: bool)

  ghost predicate AnalyzedOk(prog: Script, z: Analyzed) {
    && NetOk(z.t) && NetOk(z.sol) && z.t.lat == FIELDS && SolvedFrom(z.t, z.sol) && Answer(z.sol, z.joins, z.res)
    && (forall b, i | 0 <= b < |prog.nodes| && 0 <= i < |prog.nodes[b]| :: InstIn(prog.nodes[b][i], z.t, z.joins))
  }

  // ---- What the solution covers ----

  // Only the full set covers a negative number.
  ghost predicate Covers(w: Word, v: int) {
    if v < 0 then w == ALL else Get(w, v)
  }

  // Unwritten registers hold 0, tests write 0 or 1.
  predicate Slack(z: Analyzed, v: int) {
    z.loose && (v == 0 || v == 1)
  }

  // If some column depends on k, the solution at k covers v.
  ghost predicate Holds(z: Analyzed, k: Key, v: int) {
    Slack(z, v) || (Matters(z.sol, k) ==> Covers(z.sol.WeightOf(k), v))
  }

  predicate MayRead(z: Analyzed, s: State, r: nat) {
    r in s.tracked || z.loose
  }

  ghost predicate SameSolution(z: Analyzed, a: Key, b: Key) {
    && (Matters(z.sol, a) <==> Matters(z.sol, b))
    && (Matters(z.sol, a) ==> z.sol.WeightOf(a) == z.sol.WeightOf(b))
  }

  lemma CoversMono(x: Word, y: Word, v: int)
    requires Or(y, x) == y && Covers(x, v)
    ensures Covers(y, v)
  {
    if v < 0 {
      OrAll(y);
    } else {
      GetMono(x, y, v);
    }
  }

  // A value flows along a dependency.
  lemma HoldsAlong(prog: Script, z: Analyzed, a: Key, b: Key, v: int)
    requires AnalyzedOk(prog, z) && z.t.HasDep(a, b) && Holds(z, b, v)
    ensures Holds(z, a, v)
  {
    hide Lawful, Or, Get, NetOk, Answer, InstIn;
    if Matters(z.sol, a) && !Slack(z, v) {
      SolutionHolds(z.t, z.sol, a);
      LeqIsOr(z.sol.WeightOf(b), z.sol.WeightOf(a));
      CoversMono(z.sol.WeightOf(b), z.sol.WeightOf(a), v);
    }
  }

  lemma LeqIsOr(x: Word, y: Word)
    ensures Leq(FIELDS, x, y) <==> Or(y, x) == y
  {
  }

  lemma HoldsBySource(prog: Script, z: Analyzed, b: nat, i: nat, k: Key, v: int)
    requires AnalyzedOk(prog, z) && b < |prog.nodes| && i < |prog.nodes[b]|
    requires Covers(Contribution(prog.nodes[b][i], k), v)
    ensures Holds(z, k, v)
  {
    hide Lawful, Or, Get, NetOk, Answer, Contribution, Deps;
    var c := Contribution(prog.nodes[b][i], k);
    if Matters(z.sol, k) {
      SolutionHolds(z.t, z.sol, k);
      LeqIsOr(z.t.WeightOf(k), z.sol.WeightOf(k));
      assert InstIn(prog.nodes[b][i], z.t, z.joins);
      assert Or(z.t.WeightOf(k), c) == z.t.WeightOf(k);
      CoversMono(c, z.t.WeightOf(k), v);
      CoversMono(z.t.WeightOf(k), z.sol.WeightOf(k), v);
    }
  }

  // Mutual dependencies make two keys agree.
  lemma HoldsBoth(prog: Script, z: Analyzed, a: Key, b: Key)
    requires AnalyzedOk(prog, z) && z.t.HasDep(a, b) && z.t.HasDep(b, a)
    ensures SameSolution(z, a, b)
  {
    hide Get, Answer, InstIn;
    SolutionHolds(z.t, z.sol, a);
    SolutionHolds(z.t, z.sol, b);
    if Matters(z.sol, a) {
      LeqAntisym(z.t.lat, z.sol.WeightOf(a), z.sol.WeightOf(b));
    }
  }

  // ---- The invariant of a run ----

  ghost predicate MapHolds(z: Analyzed, s: State, m: nat) {
    forall k | k in s.heap(s.maps(m)) :: Holds(z, KeysOf(m), k) && Holds(z, ValsOf(m), s.heap(s.maps(m))[k])
  }

  // Registers that share a map share what is known about it.
  ghost predicate SharedAgree(z: Analyzed, s: State, m: nat, q: nat) {
    s.maps(m) == s.maps(q) ==> SameSolution(z, KeysOf(m), KeysOf(q)) && SameSolution(z, ValsOf(m), ValsOf(q))
  }

  ghost predicate Inv(z: Analyzed, s: State) {
    && (forall r: nat | MayRead(z, s, r) :: Holds(z, IntReg(r), s.regs(r)))
    && (forall m: nat {:trigger MapHolds(z, s, m)} :: MapHolds(z, s, m))
    && (forall m: nat, q: nat {:trigger SharedAgree(z, s, m, q)} :: SharedAgree(z, s, m, q))
    && (forall r, k | k in s.iters(r) :: Holds(z, IterReg(r), k))
  }

  lemma InvInitial(z: Analyzed, s: State)
    requires Initial(s)
    ensures Inv(z, s)
  {
    forall m: nat, q: nat
      ensures SharedAgree(z, s, m, q)
    {
    }
  }

  lemma InvSetReg(z: Analyzed, s: State, r: nat, v: int)
    requires Inv(z, s) && Holds(z, IntReg(r), v)
    ensures Inv(z, WriteReg(s, r, v))
  {
    SameMaps(z, s, WriteReg(s, r, v));
  }

  // Maps are untouched by a change of registers.
  lemma SameMaps(z: Analyzed, s: State, t: State)
    requires Inv(z, s) && t.maps == s.maps && t.heap == s.heap
    ensures forall m: nat {:trigger MapHolds(z, t, m)} :: MapHolds(z, t, m)
    ensures forall m: nat, q: nat {:trigger SharedAgree(z, t, m, q)} :: SharedAgree(z, t, m, q)
  {
    forall m: nat
      ensures MapHolds(z, t, m)
    {
      assert MapHolds(z, s, m);
    }
    forall m: nat, q: nat
      ensures SharedAgree(z, t, m, q)
    {
      assert SharedAgree(z, s, m, q);
    }
  }

  // Putting a key and a value into the map of m is known to everyone who shares it.
  lemma InvSetMap(z: Analyzed, s: State, m: nat, k: int, v: int)
    requires Inv(z, s) && Holds(z, KeysOf(m), k) && Holds(z, ValsOf(m), v)
    ensures Inv(z, WriteMap(s, m, k, v))
  {
    var t := WriteMap(s, m, k, v);
    forall q: nat
      ensures MapHolds(z, t, q)
    {
      assert MapHolds(z, s, q) && SharedAgree(z, s, m, q);
    }
    forall q: nat, q2: nat
      ensures SharedAgree(z, t, q, q2)
    {
      assert SharedAgree(z, s, q, q2);
    }
  }

  lemma InvMovMap(prog: Script, z: Analyzed, s: State, b: nat, i: nat, dst: nat, src: nat)
    requires AnalyzedOk(prog, z) && b < |prog.nodes| && i < |prog.nodes[b]| && prog.nodes[b][i] == MovMap(dst, src)
    requires Inv(z, s)
    ensures Inv(z, s.(maps := Update(s.maps, dst, s.maps(src))))
  {
    hide AnalyzedOk, Holds, SameSolution;
    var t := s.(maps := Update(s.maps, dst, s.maps(src)));
    MovMapSame(prog, z, b, i, dst, src);
    forall m: nat
      ensures MapHolds(z, t, m)
    {
      var m0 := if m == dst then src else m;
      assert MapHolds(z, s, m0);
      SolutionLinks(z, KeysOf(m), KeysOf(m0), KeysOf(m0), KeysOf(m0));
      SolutionLinks(z, ValsOf(m), ValsOf(m0), ValsOf(m0), ValsOf(m0));
    }
    forall m: nat, q: nat
      ensures SharedAgree(z, t, m, q)
    {
      var m0, q0 := if m == dst then src else m, if q == dst then src else q;
      assert SharedAgree(z, s, m0, q0);
      SolutionLinks(z, KeysOf(m), KeysOf(m0), KeysOf(q0), KeysOf(q));
      SolutionLinks(z, ValsOf(m), ValsOf(m0), ValsOf(q0), ValsOf(q));
    }
  }

  lemma MovMapSame(prog: Script, z: Analyzed, b: nat, i: nat, dst: nat, src: nat)
    requires AnalyzedOk(prog, z) && b < |prog.nodes| && i < |prog.nodes[b]| && prog.nodes[b][i] == MovMap(dst, src)
    ensures SameSolution(z, KeysOf(dst), KeysOf(src)) && SameSolution(z, ValsOf(dst), ValsOf(src))
  {
    var deps := Deps(prog.nodes[b][i]);
    assert InstIn(prog.nodes[b][i], z.t, z.joins);
    assert deps[0] in deps && deps[1] in deps && deps[2] in deps && deps[3] in deps;
    HoldsBoth(prog, z, KeysOf(dst), KeysOf(src));
    HoldsBoth(prog, z, ValsOf(dst), ValsOf(src));
  }

  lemma SolutionLinks(z: Analyzed, a: Key, b: Key, c: Key, d: Key)
    ensures SameSolution(z, a, a)
    ensures (SameSolution(z, a, b) || a == b) && SameSolution(z, b, c) && (SameSolution(z, d, c) || d == c) ==>
              SameSolution(z, a, d)
    ensures SameSolution(z, a, b) ==> forall v :: Holds(z, b, v) ==> Holds(z, a, v)
  {
    hide Matters, Slack, Covers;
  }

  // ---- Steps ----

  // The k-th reported dependency of a visited instruction carries values.
  lemma DepHolds(prog: Script, z: Analyzed, b: nat, i: nat, k: nat, v: int)
    requires AnalyzedOk(prog, z) && b < |prog.nodes| && i < |prog.nodes[b]| && IsTracked(prog.nodes[b][i])
    requires k < |Deps(prog.nodes[b][i])| && Deps(prog.nodes[b][i])[k].1.Some?
    requires Holds(z, Deps(prog.nodes[b][i])[k].1.value, v)
    ensures Holds(z, Deps(prog.nodes[b][i])[k].0, v)
  {
    hide Holds, Deps, SolvedFrom, NetOk, Answer;
    var dep := Deps(prog.nodes[b][i])[k];
    assert InstIn(prog.nodes[b][i], z.t, z.joins);
    assert (dep.0, Some(dep.1.value)) in Deps(prog.nodes[b][i]);
    HoldsAlong(prog, z, dep.0, dep.1.value, v);
  }

  lemma AllCovers(v: int)
    ensures Covers(ALL, v)
  {
    AllGets();
  }

  lemma InvLookup(prog: Script, z: Analyzed, s: State, b: nat, i: nat, dst: nat, m: nat, key: nat, t: State)
    requires AnalyzedOk(prog, z) && b < |prog.nodes| && i < |prog.nodes[b]| && prog.nodes[b][i] == Lookup(dst, m, key)
    requires Inv(z, s) && MayRead(z, s, key) && Effect(prog.nodes[b][i], s, t)
    ensures Inv(z, t)
  {
    hide AnalyzedOk, Holds;
    var k, found := s.regs(key), s.heap(s.maps(m));
    assert MapHolds(z, s, m);
    if k in found {
      DepHolds(prog, z, b, i, 2, found[k]);
      InvSetReg(z, s, dst, found[k]);
    } else {
      DepHolds(prog, z, b, i, 0, k);
      ZeroHolds(prog, z, b, i, m);
      InvSetMap(z, s, m, k, 0);
      DepHolds(prog, z, b, i, 2, 0);
      InvSetReg(z, WriteMap(s, m, k, 0), dst, 0);
    }
  }

  lemma ZeroHolds(prog: Script, z: Analyzed, b: nat, i: nat, m: nat)
    requires AnalyzedOk(prog, z) && b < |prog.nodes| && i < |prog.nodes[b]| && prog.nodes[b][i].Lookup?
    requires prog.nodes[b][i].m == m
    ensures Holds(z, ValsOf(m), 0)
  {
    hide AnalyzedOk, Holds;
    SingletonGets(0);
    HoldsBySource(prog, z, b, i, ValsOf(m), 0);
  }

  lemma InvForget(z: Analyzed, s: State, r: nat, v: int)
    requires Inv(z, s) && (z.loose ==> Holds(z, IntReg(r), v))
    ensures Inv(z, s.(regs := Update(s.regs, r, v), tracked := s.tracked - {r}))
  {
    hide Holds;
    SameMaps(z, s, s.(regs := Update(s.regs, r, v), tracked := s.tracked - {r}));
  }

  lemma InvTest(z: Analyzed, s: State, r: nat, v: int)
    requires Inv(z, s) && (v == 0 || v == 1)
    ensures Inv(z, s.(regs := Update(s.regs, r, v), tracked := s.tracked - {r}))
  {
    InvForget(z, s, r, v);
  }

  lemma InvAlloc(z: Analyzed, s: State, m: nat, o: nat)
    requires Inv(z, s) && forall r :: s.maps(r) != o
    ensures Inv(z, s.(maps := Update(s.maps, m, o), heap := Update(s.heap, o, map[])))
  {
    hide Holds, SameSolution;
    var t := s.(maps := Update(s.maps, m, o), heap := Update(s.heap, o, map[]));
    forall q: nat
      ensures MapHolds(z, t, q)
    {
      assert MapHolds(z, s, q);
    }
    forall q: nat, q2: nat
      ensures SharedAgree(z, t, q, q2)
    {
      assert SharedAgree(z, s, q, q2);
      SolutionLinks(z, KeysOf(q), KeysOf(q), KeysOf(q), KeysOf(q));
      SolutionLinks(z, ValsOf(q), ValsOf(q), ValsOf(q), ValsOf(q));
    }
  }

  lemma InvDelete(z: Analyzed, s: State, m: nat, k: int)
    requires Inv(z, s)
    ensures Inv(z, s.(heap := Update(s.heap, s.maps(m), s.heap(s.maps(m)) - {k})))
  {
    hide Holds, SameSolution;
    var t := s.(heap := Update(s.heap, s.maps(m), s.heap(s.maps(m)) - {k}));
    forall q: nat
      ensures MapHolds(z, t, q)
    {
      assert MapHolds(z, s, q);
    }
    forall q: nat, q2: nat
      ensures SharedAgree(z, t, q, q2)
    {
      assert SharedAgree(z, s, q, q2);
    }
  }

  lemma InvIterBegin(prog: Script, z: Analyzed, s: State, b: nat, i: nat, dst: nat, m: nat, keys: seq<int>)
    requires AnalyzedOk(prog, z) && b < |prog.nodes| && i < |prog.nodes[b]|
    requires prog.nodes[b][i] == Inst.IterBegin(dst, m)
    requires Inv(z, s) && ListsKeys(keys, s.heap(s.maps(m)))
    ensures Inv(z, s.(iters := Update(s.iters, dst, keys)))
  {
    hide AnalyzedOk, Holds, SameSolution;
    assert MapHolds(z, s, m);
    forall k | k in keys
      ensures Holds(z, IterReg(dst), k)
    {
      DepHolds(prog, z, b, i, 0, k);
    }
    SameMaps(z, s, s.(iters := Update(s.iters, dst, keys)));
  }

  lemma InvGetNext(prog: Script, z: Analyzed, s: State, b: nat, i: nat, dst: nat, iter: nat)
    requires AnalyzedOk(prog, z) && b < |prog.nodes| && i < |prog.nodes[b]|
    requires prog.nodes[b][i] == IterGetNext(dst, iter)
    requires Inv(z, s) && s.iters(iter) != []
    ensures Inv(z, WriteReg(s, dst, s.iters(iter)[0]).(iters := Update(s.iters, iter, s.iters(iter)[1..])))
  {
    hide AnalyzedOk, Holds, SameSolution;
    var k := s.iters(iter)[0];
    assert k in s.iters(iter);
    DepHolds(prog, z, b, i, 0, k);
    InvSetReg(z, s, dst, k);
    assert forall x | x in s.iters(iter)[1..] :: x in s.iters(iter);
    SameMaps(z, WriteReg(s, dst, k), WriteReg(s, dst, k).(iters := Update(s.iters, iter, s.iters(iter)[1..])));
  }

  // Numbers written by constants and computations.
  lemma InvProduce(prog: Script, z: Analyzed, s: State, b: nat, i: nat, v: int)
    requires AnalyzedOk(prog, z) && b < |prog.nodes| && i < |prog.nodes[b]| && Inv(z, s)
    requires var inst := prog.nodes[b][i]; inst.Compute? || (inst.StoreConstInt? && v == inst.i)
    ensures Inv(z, WriteReg(s, prog.nodes[b][i].dst, v))
  {
    hide AnalyzedOk, Holds, MapHolds, SharedAgree;
    var inst := prog.nodes[b][i];
    if inst.Compute? {
      AllCovers(v);
    } else {
      ConstCovers(inst);
    }
    HoldsBySource(prog, z, b, i, IntReg(inst.dst), v);
    InvSetReg(z, s, inst.dst, v);
  }

  lemma InvMovInt(prog: Script, z: Analyzed, s: State, b: nat, i: nat, dst: nat, src: nat)
    requires AnalyzedOk(prog, z) && b < |prog.nodes| && i < |prog.nodes[b]| && prog.nodes[b][i] == MovInt(dst, src)
    requires Inv(z, s) && MayRead(z, s, src)
    ensures Inv(z, WriteReg(s, dst, s.regs(src)))
  {
    hide AnalyzedOk, Holds, MapHolds, SharedAgree;
    DepHolds(prog, z, b, i, 0, s.regs(src));
    InvSetReg(z, s, dst, s.regs(src));
  }

  lemma InvStore(prog: Script, z: Analyzed, s: State, b: nat, i: nat, m: nat, key: nat, val: nat)
    requires AnalyzedOk(prog, z) && b < |prog.nodes| && i < |prog.nodes[b]| && prog.nodes[b][i] == Store(m, key, val)
    requires Inv(z, s) && MayRead(z, s, key) && MayRead(z, s, val)
    ensures Inv(z, WriteMap(s, m, s.regs(key), s.regs(val)))
  {
    hide AnalyzedOk, Holds, MapHolds, SharedAgree;
    DepHolds(prog, z, b, i, 0, s.regs(key));
    DepHolds(prog, z, b, i, 1, s.regs(val));
    InvSetMap(z, s, m, s.regs(key), s.regs(val));
  }

  // Every instruction keeps the invariant, when the numbers it reads were written or 0 and 1 do not count.
  lemma EffectKeeps(prog: Script, z: Analyzed, s: State, b: nat, i: nat, t: State)
    requires AnalyzedOk(prog, z) && b < |prog.nodes| && i < |prog.nodes[b]|
    requires Inv(z, s) && (Operands(prog.nodes[b][i]) <= s.tracked || z.loose) && Effect(prog.nodes[b][i], s, t)
    ensures Inv(z, t)
  {
    hide AnalyzedOk, Inv, Effect;
    if OnMaps(prog.nodes[b][i]) {
      MapsKeep(prog, z, s, b, i, t);
    } else {
      RegsKeep(prog, z, s, b, i, t);
    }
  }

  // Instructions that change maps or start on one.
  predicate OnMaps(i: Inst) {
    i.AllocMap? || i.MovMap? || i.Store? || i.Delete? || i.IterBegin?
  }

  lemma MapsKeep(prog: Script, z: Analyzed, s: State, b: nat, i: nat, t: State)
    requires AnalyzedOk(prog, z) && b < |prog.nodes| && i < |prog.nodes[b]| && OnMaps(prog.nodes[b][i])
    requires Inv(z, s) && (Operands(prog.nodes[b][i]) <= s.tracked || z.loose) && Effect(prog.nodes[b][i], s, t)
    ensures Inv(z, t)
  {
    hide AnalyzedOk, Inv;
    match prog.nodes[b][i]
    case AllocMap(m) =>
      var o: nat :| (forall r :: s.maps(r) != o) &&
                    t == s.(maps := Update(s.maps, m, o), heap := Update(s.heap, o, map[]));
      InvAlloc(z, s, m, o);
    case MovMap(dst, src) => InvMovMap(prog, z, s, b, i, dst, src);
    case Store(m, key, val) => InvStore(prog, z, s, b, i, m, key, val);
    case Delete(m, key) => InvDelete(z, s, m, s.regs(key));
    case IterBegin(dst, m) =>
      var keys :| ListsKeys(keys, s.heap(s.maps(m))) && t == s.(iters := Update(s.iters, dst, keys));
      InvIterBegin(prog, z, s, b, i, dst, m, keys);
  }

  lemma RegsKeep(prog: Script, z: Analyzed, s: State, b: nat, i: nat, t: State)
    requires AnalyzedOk(prog, z) && b < |prog.nodes| && i < |prog.nodes[b]| && !OnMaps(prog.nodes[b][i])
    requires Inv(z, s) && (Operands(prog.nodes[b][i]) <= s.tracked || z.loose) && Effect(prog.nodes[b][i], s, t)
    ensures Inv(z, t)
  {
    hide AnalyzedOk, Inv;
    match prog.nodes[b][i]
    case StoreConstInt(dst, k) => InvProduce(prog, z, s, b, i, k);
    case Compute(dst, _) =>
      var v :| t == WriteReg(s, dst, v);
      InvProduce(prog, z, s, b, i, v);
    case MovInt(dst, src) => InvMovInt(prog, z, s, b, i, dst, src);
    case Lookup(dst, m, key) => InvLookup(prog, z, s, b, i, dst, m, key, t);
    case Contains(dst, m, key) => InvTest(z, s, dst, if s.regs(key) in s.heap(s.maps(m)) then 1 else 0);
    case IterHasNext(dst, iter) => InvTest(z, s, dst, if s.iters(iter) != [] then 1 else 0);
    case IterGetNext(dst, iter) => InvGetNext(prog, z, s, b, i, dst, iter);
    case _ =>
  }

  lemma ConstCovers(i: Inst)
    requires i.StoreConstInt?
    ensures Covers(Contribution(i, IntReg(i.dst)), i.i)
  {
    if i.i >= 0 {
      SingletonGets(i.i);
    } else {
      AllCovers(i.i);
    }
  }

  // Phis write what their argument on the edge covers.
  lemma {:induction false} EnterKeeps(prog: Script, z: Analyzed, b: nat, k: nat, p: nat, s0: State, s: State)
    requires AnalyzedOk(prog, z) && b < |prog.nodes| && k <= |prog.nodes[b]| && Inv(z, s0) && Inv(z, s)
    ensures Inv(z, Enter(prog.nodes[b], k, p, s0, s))
    decreases |prog.nodes[b]| - k
  {
    hide AnalyzedOk, Holds, MapHolds, SharedAgree, Inv;
    var node := prog.nodes[b];
    if k < |node| && node[k].Phi? {
      var src := Frames.ArgReg(node[k].preds, p);
      if src.Some? {
        var v := s0.regs(src.value);
        if MayRead(z, s0, src.value) {
          PhiHolds(prog, z, s0, b, k, p);
        }
        if src.value in s0.tracked {
          InvSetReg(z, s, node[k].dst, v);
          EnterKeeps(prog, z, b, k + 1, p, s0, WriteReg(s, node[k].dst, v));
        } else {
          InvForget(z, s, node[k].dst, v);
          EnterKeeps(prog, z, b, k + 1, p, s0, WriteReg(s, node[k].dst, v).(tracked := s.tracked - {node[k].dst}));
        }
      } else {
        EnterKeeps(prog, z, b, k + 1, p, s0, s);
      }
    }
  }

  lemma PhiHolds(prog: Script, z: Analyzed, s: State, b: nat, k: nat, p: nat)
    requires AnalyzedOk(prog, z) && b < |prog.nodes| && k < |prog.nodes[b]| && prog.nodes[b][k].Phi? && Inv(z, s)
    requires var src := Frames.ArgReg(prog.nodes[b][k].preds, p); src.Some? && MayRead(z, s, src.value)
    ensures Holds(z, IntReg(prog.nodes[b][k].dst), s.regs(Frames.ArgReg(prog.nodes[b][k].preds, p).value))
  {
    hide AnalyzedOk, Holds, MapHolds, SharedAgree;
    var j := ArgAt(prog.nodes[b][k].preds, p);
    DepHolds(prog, z, b, k, j, s.regs(prog.nodes[b][k].preds[j].1));
  }

  lemma {:induction false} ArgAt(preds: seq<(nat, nat)>, p: nat) returns (j: nat)
    requires Frames.ArgReg(preds, p).Some?
    ensures j < |preds| && preds[j] == (p, Frames.ArgReg(preds, p).value)
  {
    if preds[0].0 == p {
      j := 0;
    } else {
      j := ArgAt(preds[1..], p);
      j := j + 1;
    }
  }

  lemma StepKeeps(prog: Script, z: Analyzed, s: State, t: State)
    requires AnalyzedOk(prog, z) && Inv(z, s) && Step(prog, s, t) && (ReadsWritten(prog, s) || z.loose)
    ensures Inv(z, t)
  {
    hide AnalyzedOk, Effect, Enter, Inv;
    if s.i < |prog.nodes[s.b]| {
      var e :| Effect(prog.nodes[s.b][s.i], s, e) && t == e.(i := s.i + 1);
      EffectKeeps(prog, z, s, s.b, s.i, e);
      InvMoves(z, e, t);
    } else {
      EnterKeeps(prog, z, t.b, 0, s.b, s, s);
      InvMoves(z, Enter(prog.nodes[t.b], 0, s.b, s, s), t);
    }
  }

  lemma InvMoves(z: Analyzed, s: State, t: State)
    requires Inv(z, s) && t == s.(b := t.b, i := t.i)
    ensures Inv(z, t)
  {
    hide Holds;
    SameMaps(z, s, t);
  }

  // ---- No false negatives ----

  // A read of column 0 or 1, or by a join that starts at column 1.
  ghost predicate LowRead(prog: Script, s: State, c: int) {
    && s.b < |prog.nodes| && s.i < |prog.nodes[s.b]|
    && if prog.nodes[s.b][s.i].JoinColumns? then s.regs(prog.nodes[s.b][s.i].start) <= 1 else c <= 1
  }

  // A column that an instruction reads is in the answer.
  lemma ReadsAreIn(prog: Script, z: Analyzed, s: State, c: int)
    requires AnalyzedOk(prog, z) && Inv(z, s) && ReadsColumn(prog, s, c)
    requires if z.loose then !LowRead(prog, s, c) else ReadsWritten(prog, s)
    ensures c >= 0 && Get(z.res, c)
  {
    hide Lawful, NetOk, SolvedFrom, Get, InSpan, Or, MapHolds, SharedAgree;
    var i := prog.nodes[s.b][s.i];
    assert InstIn(i, z.t, z.joins);
    match i
    case GetColumn(_, col) =>
      QueryHolds(prog, z, IntReg(col), c);
    case JoinColumns(_, start, end, _) =>
      assert IntReg(start) in Asked(i) && IntReg(end) in Asked(i);
      QueryHolds(prog, z, IntReg(start), s.regs(start));
      QueryHolds(prog, z, IntReg(end), s.regs(end));
      var j :| 0 <= j < |z.joins| && z.joins[j] == (IntReg(start), IntReg(end));
      assert InSpan(z.sol.WeightOf(IntReg(start)), z.sol.WeightOf(IntReg(end)), c) by {
        SpanBy(z.sol.WeightOf(IntReg(start)), z.sol.WeightOf(IntReg(end)), s.regs(start), c, s.regs(end));
      }
      assert JoinGives(z.sol, z.joins[j], c);
    case _ =>
  }

  lemma SpanBy(x: Word, y: Word, a: nat, c: nat, b: nat)
    requires a <= c <= b && Get(x, a) && Get(y, b)
    ensures InSpan(x, y, c)
  {
  }

  lemma QueryHolds(prog: Script, z: Analyzed, k: Key, c: int)
    requires AnalyzedOk(prog, z) && z.t.IsQuery(k) && Holds(z, k, c) && c >= 0 && !Slack(z, c)
    ensures Get(z.sol.WeightOf(k), c) && Get(z.res, c)
  {
    hide Lawful, Get, InSpan, Or, InstIn;
    SolutionHolds(z.t, z.sol, k);
    LeqIsOr(z.sol.WeightOf(k), z.sol.weights[0]);
    GetMono(z.sol.WeightOf(k), z.sol.weights[0], c);
  }

  lemma {:induction false} RunKeeps(prog: Script, z: Analyzed, run: seq<State>, j: nat)
    requires AnalyzedOk(prog, z) && IsRun(prog, run) && j < |run|
    requires (forall k | 0 <= k < j :: ReadsWritten(prog, run[k])) || z.loose
    ensures Inv(z, run[j])
  {
    hide AnalyzedOk, Step, Inv, Initial, ReadsWritten;
    if j == 0 {
      InvInitial(z, run[0]);
    } else {
      RunKeeps(prog, z, run, j - 1);
      assert Step(prog, run[j - 1], run[j - 1 + 1]);
      StepKeeps(prog, z, run[j - 1], run[j]);
    }
  }

  // State j of a run reads column c, and every number used up to there had been written.
  ghost predicate ReachesRead(prog: Script, run: seq<State>, j: nat, c: int) {
    && IsRun(prog, run) && j < |run|
    && (forall k | 0 <= k <= j :: ReadsWritten(prog, run[k]))
    && ReadsColumn(prog, run[j], c)
  }

  // Whatever column a run reads, the analysis has it.
  lemma NoFalseNegatives(prog: Script, z: Analyzed, run: seq<State>, j: nat, c: int)
    requires AnalyzedOk(prog, z) && ReachesRead(prog, run, j, c)
    ensures c >= 0 && Get(z.res, c)
  {
    hide AnalyzedOk, Inv, IsRun, ReadsWritten, ReadsColumn;
    var strict := z.(loose := false);
    SameAnalysis(prog, z, strict);
    RunKeeps(prog, strict, run, j);
    ReadsAreIn(prog, strict, run[j], c);
  }

  lemma SameAnalysis(prog: Script, z: Analyzed, z': Analyzed)
    requires AnalyzedOk(prog, z) && z' == z.(loose := z'.loose)
    ensures AnalyzedOk(prog, z')
  {
  }

  // With no condition at all: only columns 0 and 1, and joins that start at column 1, can be missed.
  lemma OnlyLowMissed(prog: Script, z: Analyzed, run: seq<State>, j: nat, c: int)
    requires AnalyzedOk(prog, z) && IsRun(prog, run) && j < |run| && ReadsColumn(prog, run[j], c)
    requires !LowRead(prog, run[j], c)
    ensures c >= 0 && Get(z.res, c)
  {
    hide AnalyzedOk, Inv, IsRun, LowRead, Reads;
    var loose := z.(loose := true);
    SameAnalysis(prog, z, loose);
    RunKeeps(prog, loose, run, j);
    ReadsAreIn(prog, loose, run[j], c);
  }

  // Nothing that numbers written before lead to is missed.
  ghost predicate MissesNothing(prog: Script, res: Word) {
    forall run: seq<State>, j: nat, c: int :: ReachesRead(prog, run, j, c) ==> c >= 0 && Get(res, c)
  }

  ghost predicate Found(prog: Script, res: Word, run: seq<State>, j: nat, c: int)
    requires j < |run|
  {
    ReadsColumn(prog, run[j], c) ==> c >= 0 && Get(res, c)
  }

  // Every column that any run reads.
  ghost predicate FindsAll(prog: Script, res: Word) {
    forall run: seq<State>, j: nat, c: int | IsRun(prog, run) && j < |run| :: Found(prog, res, run, j, c)
  }

  // ... of those from column 2 on.
  ghost predicate FindsHigh(prog: Script, res: Word) {
    forall run: seq<State>, j: nat, c: int {:trigger Found(prog, res, run, j, c)} | IsRun(prog, run) && j < |run| ::
      ReadsColumn(prog, run[j], c) && !LowRead(prog, run[j], c) ==> Found(prog, res, run, j, c)
  }

  lemma NeverMisses(prog: Script, z: Analyzed)
    requires AnalyzedOk(prog, z)
    ensures MissesNothing(prog, z.res) && FindsHigh(prog, z.res)
    ensures WrittenFirst(prog) ==> FindsAll(prog, z.res)
  {
    hide AnalyzedOk, ReachesRead, Get, IsRun, WrittenFirst, ReadsColumn, LowRead;
    forall run: seq<State>, j: nat, c: int | ReachesRead(prog, run, j, c)
      ensures c >= 0 && Get(z.res, c)
    {
      NoFalseNegatives(prog, z, run, j, c);
    }
    forall run: seq<State>, j: nat, c: int | IsRun(prog, run) && j < |run|
      ensures WrittenFirst(prog) ==> Found(prog, z.res, run, j, c)
      ensures ReadsColumn(prog, run[j], c) && !LowRead(prog, run[j], c) ==> Found(prog, z.res, run, j, c)
    {
      if ReadsColumn(prog, run[j], c) {
        if WrittenFirst(prog) {
          WrittenReaches(prog, run, j, c);
          NoFalseNegatives(prog, z, run, j, c);
        }
        if !LowRead(prog, run[j], c) {
          OnlyLowMissed(prog, z, run, j, c);
        }
      }
    }
  }

  lemma WrittenReaches(prog: Script, run: seq<State>, j: nat, c: int)
    requires WrittenFirst(prog) && IsRun(prog, run) && j < |run| && ReadsColumn(prog, run[j], c)
    ensures ReachesRead(prog, run, j, c)
  {
    hide WrittenFirst, IsRun, ReadsWritten, ReadsColumn;
    forall k | 0 <= k <= j
      ensures ReadsWritten(prog, run[k])
    {
      WrittenFirstReads(prog, run, k);
    }
  }

  // Visit every instruction of a function, then solve: the answer has exactly the columns that arrive
  // somewhere they are read, and with them all columns that a run reads.
  method RunAnalyses(prog: Script) returns (res: Word)
    ensures WrittenFirst(prog) ==> FindsAll(prog, res)
    ensures MissesNothing(prog, res) && FindsHigh(prog, res)
    ensures forall c: nat | c <= 62 :: Get(res, c) <==> FieldPrecision.Wanted(prog, c)
  {
    hide Lawful, NetOk, FIELDS, InstIn, SolvedFrom, Answer, MissesNothing, FindsAll, FindsHigh, WrittenFirst, Or, Get,
         FieldPrecision.NetIs, FieldPrecision.Wanted, FieldPrecision.Finished, Visited;
    var ufa := new UsedFieldAnalysis();
    FieldPrecision.NothingVisited(prog, ufa.dfa.Now());
    var b := 0;
    while b < |prog.nodes|
      invariant 0 <= b <= |prog.nodes| && ufa.Valid() && fresh(ufa) && fresh(ufa.dfa)
      invariant forall x, i | 0 <= x < b && 0 <= i < |prog.nodes[x]| ::
                  InstIn(prog.nodes[x][i], ufa.dfa.Now(), ufa.joins)
      invariant JoinsAsked(ufa.dfa.Now(), ufa.joins)
      invariant FieldPrecision.NetIs(prog, b, 0, ufa.dfa.Now(), ufa.joins)
      modifies ufa, ufa.dfa
    {
      var i := 0;
      while i < |prog.nodes[b]|
        invariant 0 <= i <= |prog.nodes[b]| && ufa.Valid() && fresh(ufa) && fresh(ufa.dfa)
        invariant forall x, k | 0 <= x < |prog.nodes| && 0 <= k < |prog.nodes[x]| && (x < b || (x == b && k < i)) ::
                    InstIn(prog.nodes[x][k], ufa.dfa.Now(), ufa.joins)
        invariant JoinsAsked(ufa.dfa.Now(), ufa.joins)
        invariant FieldPrecision.NetIs(prog, b, i, ufa.dfa.Now(), ufa.joins)
        modifies ufa, ufa.dfa
      {
        ghost var t, joins := ufa.dfa.Now(), ufa.joins;
        if prog.nodes[b][i].Phi? {
          ufa.VisitHl(prog.nodes[b][i]);
        } else {
          ufa.VisitLl(prog.nodes[b][i]);
        }
        VisitedAll(prog, b, i, t, ufa.dfa.Now(), joins, ufa.joins);
        FieldPrecision.VisitedExactly(prog, b, i, t, ufa.dfa.Now(), joins, ufa.joins);
        i := i + 1;
      }
      FieldPrecision.NodeVisited(prog, b, ufa.dfa.Now(), ufa.joins);
      b := b + 1;
    }
    ghost var t := ufa.dfa.Now();
    assert NetOk(t) && t.lat == FIELDS;
    res := ufa.Solve();
    ghost var z := Analyzed(t, ufa.dfa.Now(), ufa.joins, res, false);
    assert AnalyzedOk(prog, z);
    NeverMisses(prog, z);
    FieldsAre();
    IsFinished(prog, t, z.sol, z.joins);
    forall c: nat | c <= 62
      ensures Get(res, c) <==> FieldPrecision.Wanted(prog, c)
    {
      FieldPrecision.AnswerExact(prog, t, z.sol, z.joins, res, c);
    }
  }

  lemma IsFinished(prog: Script, t: FieldNet, sol: FieldNet, joins: seq<(Key, Key)>)
    requires NetOk(t) && t.lat == FIELDS && t.weights[0] == 0 && SolvedFrom(t, sol)
    requires FieldPrecision.NetIs(prog, |prog.nodes|, 0, t, joins)
    ensures FieldPrecision.Finished(prog, t, sol, joins)
  {
  }

  ghost predicate JoinsAsked(t: FieldNet, joins: seq<(Key, Key)>) {
    forall j | 0 <= j < |joins| :: t.IsQuery(joins[j].0) && t.IsQuery(joins[j].1)
  }

  lemma VisitedAll(prog: Script, b: nat, i: nat, t: FieldNet, t': FieldNet, joins: seq<(Key, Key)>, joins': seq<(Key,
                   Key)>)
    requires b < |prog.nodes| && i < |prog.nodes[b]| && Visited(prog.nodes[b][i], t, t', joins, joins')
    requires JoinsAsked(t, joins)
    requires forall x, k | 0 <= x < |prog.nodes| && 0 <= k < |prog.nodes[x]| && (x < b || (x == b && k < i)) ::
               InstIn(prog.nodes[x][k], t, joins)
    ensures JoinsAsked(t', joins')
    ensures forall x, k | 0 <= x < |prog.nodes| && 0 <= k < |prog.nodes[x]| && (x < b || (x == b && k < i + 1)) ::
              InstIn(prog.nodes[x][k], t', joins')
  {
    hide InstIn, Or, Contribution, Deps;
    VisitedIn(prog.nodes[b][i], t, t', joins, joins');
    forall x, k | 0 <= x < |prog.nodes| && 0 <= k < |prog.nodes[x]| && (x < b || (x == b && k < i))
      ensures InstIn(prog.nodes[x][k], t', joins')
    {
      VisitedKeeps(prog.nodes[b][i], prog.nodes[x][k], t, t', joins, joins');
    }
  }

  // ---- The condition is needed ----

  // `{ print $x } END { x = 1 }`: the main loop runs first, any number of times, and x is never
  // written there.
  const OTHER_STAGE := Script([[GetColumn(0, 0)], [StoreConstInt(0, 1)]], [(0, 0), (0, 1)])

  // `{ print $(7 in m) }`: the column number is written by a test.
  const TESTED := Script([[StoreConstInt(1, 7), Contains(2, 0, 1), GetColumn(0, 2)]], [])

  lemma UnwrittenReadsColumnZero(s: State)
    requires Initial(s)
    ensures IsRun(OTHER_STAGE, [s]) && ReadsColumn(OTHER_STAGE, s, 0) && !ReadsWritten(OTHER_STAGE, s)
    ensures !WrittenFirst(OTHER_STAGE)
  {
    if WrittenFirst(OTHER_STAGE) {
      WrittenFirstReads(OTHER_STAGE, [s], 0);
      assert false;
    }
  }

  // A run of the tested program, to its read of column 0; and a table for it does not exist.
  lemma TestedReadsColumnZero(s: State) returns (run: seq<State>)
    requires Initial(s)
    ensures IsRun(TESTED, run) && |run| == 3 && run[0] == s && ReadsColumn(TESTED, run[2], 0)
    ensures !WrittenFirst(TESTED)
  {
    var s1 := WriteReg(s, 1, 7);
    var s2 := s1.(regs := Update(s1.regs, 2, 0), tracked := s1.tracked - {2});
    run := [s, s1.(i := 1), s2.(i := 2)];
    assert Effect(TESTED.nodes[0][0], run[0], s1);
    assert Effect(TESTED.nodes[0][1], run[1], s2.(i := 1));
    assert Step(TESTED, run[0], run[1]) && Step(TESTED, run[1], run[2]);
    if WrittenFirst(TESTED) {
      WrittenFirstReads(TESTED, run, 2);
      assert false;
    }
  }

  // The answer where there is one query, k, and nothing flows into it: no more than what k starts with.
  method SolveOne(ufa: UsedFieldAnalysis, k: Key, ghost w: nat) returns (res: Word, ghost root: Word)
    requires ufa.Valid() && ufa.joins == [] && Knows(ufa.dfa.Now(), k, w, {k})
    modifies ufa.dfa
    ensures Or(w, root) == w && (Get(res, 0) <==> Get(root, 0))
  {
    hide Lawful, NetOk, Or, SolvedFrom, FIELDS, Get, Knows;
    ghost var t := ufa.dfa.Now();
    KnowsOne(t, k, w);
    res := ufa.Solve();
    root := RootOf(ufa.dfa.Now());
    FieldsAre();
    OneQuery(t, ufa.dfa.Now(), k);
  }

  // Nothing tells the analysis that column 0 is read: it only knows of END's assignment.
  method UnwrittenIsMissed() returns (res: Word)
    ensures !Get(res, 0) && !FindsAll(OTHER_STAGE, res)
  {
    hide Lawful, NetOk, Or, SolvedFrom, FIELDS, Get, IsRun, ReadsColumn, Initial, FindsAll, Visited, Knows,
         Contribution;
    var ufa := new UsedFieldAnalysis();
    ghost var t0 := ufa.dfa.Now();
    KnowsNothing(t0, IntReg(0));
    OtherStageWeight();
    ufa.VisitLl(GetColumn(0, 0));
    ghost var t1 := ufa.dfa.Now();
    VisitOne(GetColumn(0, 0), t0, t1, ufa.joins, IntReg(0), 0, {});
    ufa.VisitLl(StoreConstInt(0, 1));
    ghost var t2 := ufa.dfa.Now();
    VisitOne(StoreConstInt(0, 1), t1, t2, ufa.joins, IntReg(0), 0, {IntReg(0)});
    ghost var root;
    res, root := SolveOne(ufa, IntReg(0), SmallSet(1));
    SmallSetOnly(1, root, 0);
    OtherStageMissed(res);
  }

  // ... and of nothing at all here.
  method TestedIsMissed() returns (res: Word)
    ensures !Get(res, 0) && !FindsAll(TESTED, res)
  {
    hide Lawful, NetOk, Or, SolvedFrom, FIELDS, Get, IsRun, ReadsColumn, Initial, FindsAll, Visited, Knows,
         Contribution;
    var ufa := new UsedFieldAnalysis();
    ghost var t0 := ufa.dfa.Now();
    KnowsNothing(t0, IntReg(2));
    TestedWeights();
    ufa.VisitLl(StoreConstInt(1, 7));
    ghost var t1 := ufa.dfa.Now();
    VisitOne(StoreConstInt(1, 7), t0, t1, ufa.joins, IntReg(2), 0, {});
    ufa.VisitLl(Inst.Contains(2, 0, 1));
    ghost var t2 := ufa.dfa.Now();
    VisitOne(Inst.Contains(2, 0, 1), t1, t2, ufa.joins, IntReg(2), 0, {});
    ufa.VisitLl(GetColumn(0, 2));
    ghost var t3 := ufa.dfa.Now();
    VisitOne(GetColumn(0, 2), t2, t3, ufa.joins, IntReg(2), 0, {});
    ghost var root;
    res, root := SolveOne(ufa, IntReg(2), 0);
    OrZeroLeft(root);
    NothingGets(0);
    TestedMissed(res);
  }

  // No dependencies yet; w comes into k; these keys are asked for.
  ghost predicate Knows(t: FieldNet, k: Key, w: nat, asked: set<Key>) {
    t.edges == [] && t.WeightOf(k) == w && forall a :: t.IsQuery(a) <==> a in asked
  }

  lemma KnowsNothing(t: FieldNet, k: Key)
    requires t.edges == [] && t.WeightOf(k) == 0 && forall a :: !t.IsQuery(a)
    ensures Knows(t, k, 0, {})
  {
  }

  lemma KnowsOne(t: FieldNet, k: Key, w: nat)
    requires Knows(t, k, w, {k})
    ensures t.edges == [] && t.WeightOf(k) == w && forall a :: t.IsQuery(a) <==> a == k
  {
  }

  lemma VisitOne(i: Inst, t: FieldNet, t': FieldNet, joins: seq<(Key, Key)>, k: Key, w: nat, asked: set<Key>)
    requires Visited(i, t, t', [], joins) && !IsTracked(i) && !i.JoinColumns? && Knows(t, k, w, asked)
    ensures joins == [] && Knows(t', k, Or(Contribution(i, k), w), asked + Asked(i))
  {
    hide Or, Contribution;
  }

  lemma OtherStageWeight()
    ensures Or(Contribution(GetColumn(0, 0), IntReg(0)), 0) == 0
    ensures Or(Contribution(StoreConstInt(0, 1), IntReg(0)), 0) == SmallSet(1)
    ensures {} + Asked(GetColumn(0, 0)) == {IntReg(0)} && {IntReg(0)} + Asked(StoreConstInt(0, 1)) == {IntReg(0)}
  {
    hide Or;
    OrSame(0);
    OrSame(SmallSet(1));
  }

  lemma TestedWeights()
    ensures Or(Contribution(StoreConstInt(1, 7), IntReg(2)), 0) == 0
    ensures Or(Contribution(Inst.Contains(2, 0, 1), IntReg(2)), 0) == 0
    ensures Or(Contribution(GetColumn(0, 2), IntReg(2)), 0) == 0
    ensures {} + Asked(StoreConstInt(1, 7)) == {} && {} + Asked(Inst.Contains(2, 0, 1)) == {}
    ensures {} + Asked(GetColumn(0, 2)) == {IntReg(2)}
  {
    hide Or;
    OrSame(0);
  }

  lemma Misses(prog: Script, res: Word, run: seq<State>, j: nat, c: nat)
    requires IsRun(prog, run) && j < |run| && ReadsColumn(prog, run[j], c) && !Get(res, c)
    ensures !FindsAll(prog, res)
  {
    assert !Found(prog, res, run, j, c);
  }

  lemma OtherStageMissed(res: Word)
    requires !Get(res, 0)
    ensures !FindsAll(OTHER_STAGE, res)
  {
    hide Get, FindsAll;
    var s := SomeInitial();
    UnwrittenReadsColumnZero(s);
    Misses(OTHER_STAGE, res, [s], 0, 0);
  }

  lemma TestedMissed(res: Word)
    requires !Get(res, 0)
    ensures !FindsAll(TESTED, res)
  {
    hide Get, FindsAll, Initial, IsRun, ReadsColumn;
    var s := SomeInitial();
    var run := TestedReadsColumnZero(s);
    Misses(TESTED, res, run, 2, 0);
  }

  lemma NothingGets(c: nat)
    ensures !Get(0, c)
  {
    BitZero(if c < MAX_INDEX then c else MAX_INDEX);
  }

  lemma SmallSetOnly(i: nat, x: Word, c: nat)
    requires i <= MAX_INDEX && c != i && Or(SmallSet(i), x) == SmallSet(i)
    ensures !Get(x, c)
  {
    SingletonGets(i);
    if Get(x, c) {
      GetMono(x, SmallSet(i), c);
    }
  }

  lemma SomeInitial() returns (s: State)
    ensures Initial(s)
  {
    s := State(0, 0, (r: nat) => 0, {}, (r: nat) => r, (o: nat) => map[], (r: nat) => []);
  }

  // One query, of a key that nothing flows into: the root is no more than the key's own start value.
  lemma OneQuery(t: FieldNet, t': FieldNet, k: Key)
    requires NetOk(t) && NetOk(t') && t.lat == FIELDS && SolvedFrom(t, t') && t.edges == [] && t.weights[0] == 0
    requires forall a :: t.IsQuery(a) <==> a == k
    ensures Or(t.WeightOf(k), RootOf(t')) == t.WeightOf(k)
  {
    var g, w := t'.G(), t.WeightOf(k);
    ReachSelf(g, 0);
    forall m: nat | m < g.n && Reachable(g, 0, m)
      ensures Leq(FIELDS, t.weights[m], w)
    {
      var p :| PathBetween(g, p, 0, m);
      if |p| > 1 {
        assert g.HasEdge(p[|p| - 2], p[|p| - 1]);
        assert m in t.nodes.Values;
        var a :| a in t.nodes && t.nodes[a] == m;
        assert t.IsQuery(a);
        OrSame(w);
      } else {
        OrSame(w);
      }
    }
    assert Bounds(FIELDS, g, t.weights, 0, w);
    LeqIsOr(RootOf(t'), w);
  }
}
