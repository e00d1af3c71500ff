// The used-field analysis finds exactly what its rules say of a program: no column is in the answer
// without a place in the program that it comes from and a trail from there to a column read.
module FieldPrecision {
  import opened Graphs
  import opened Ir
  import opened Bytecode
  import opened Words
  import opened FieldSets
  import opened Lattices
  import opened Dataflow
  import opened UsedFields
  import opened P = FieldPrograms

  // ---- Where columns come from, in terms of the program ----

  // Any number at all may be written to this place.
  predicate BringsAll(i: Inst, a: Key) {
    match i
    case StoreConstInt(dst, k) => a == InReg(dst, Int) && (k < 0 || k > 62)
    case Compute(dst, _) => a == InReg(dst, Int)
    case GetColumn(dst, _) => a == InReg(dst, Str)
    case JoinColumns(dst, _, _, _) => a == InReg(dst, Str)
    case _ => false
  }

  // The number c is written to this place.
  predicate Brings(i: Inst, a: Key, c: nat) {
    || BringsAll(i, a)
    || (i.StoreConstInt? && a == InReg(i.dst, Int) && i.i == c)
    || (i.Lookup? && a == MapVal(i.m, MapIntInt) && c == 0)
  }

  // What place a holds can get to place b.
  ghost predicate Feeds(i: Inst, a: Key, b: Key) {
    match i
    case MovInt(dst, src) => a == InReg(src, Int) && b == InReg(dst, Int)
    case Phi(dst, preds) => b == InReg(dst, Int) && exists k :: 0 <= k < |preds| && a == InReg(preds[k].1, Int)
    case MovMap(dst, src) =>
      || (a == MapKey(src, MapIntInt) && b == MapKey(dst, MapIntInt))
      || (a == MapKey(dst, MapIntInt) && b == MapKey(src, MapIntInt))
      || (a == MapVal(src, MapIntInt) && b == MapVal(dst, MapIntInt))
      || (a == MapVal(dst, MapIntInt) && b == MapVal(src, MapIntInt))
    case Store(m, key, val) =>
      || (a == InReg(key, Int) && b == MapKey(m, MapIntInt))
      || (a == InReg(val, Int) && b == MapVal(m, MapIntInt))
    case Lookup(dst, m, key) =>
      || (a == InReg(key, Int) && b == MapKey(m, MapIntInt))
      || (a == MapVal(m, MapIntInt) && b == InReg(dst, Int))
    case IterBegin(dst, m) => a == MapKey(m, MapIntInt) && b == InReg(dst, IterInt)
    case IterGetNext(dst, iter) => a == InReg(iter, IterInt) && b == InReg(dst, Int)
    case _ => false
  }

  predicate Asks(i: Inst, q: Key) {
    || (i.GetColumn? && q == InReg(i.col, Int))
    || (i.JoinColumns? && (q == InReg(i.start, Int) || q == InReg(i.end, Int)))
  }

  // An instruction in front of instruction i of node b.
  predicate Before(prog: Script, b: nat, i: nat, x: nat, j: nat) {
    x < |prog.nodes| && j < |prog.nodes[x]| && (x < b || (x == b && j < i))
  }

  predicate Within(prog: Script, x: nat, j: nat) {
    x < |prog.nodes| && j < |prog.nodes[x]|
  }

  ghost predicate BroughtIn(prog: Script, a: Key, c: nat) {
    exists x: nat, j: nat :: Within(prog, x, j) && Brings(prog.nodes[x][j], a, c)
  }

  ghost predicate AllBroughtIn(prog: Script, a: Key) {
    exists x: nat, j: nat :: Within(prog, x, j) && BringsAll(prog.nodes[x][j], a)
  }

  ghost predicate FedIn(prog: Script, a: Key, b: Key) {
    exists x: nat, j: nat :: Within(prog, x, j) && Feeds(prog.nodes[x][j], a, b)
  }

  ghost predicate AskedIn(prog: Script, q: Key) {
    exists x: nat, j: nat :: Within(prog, x, j) && Asks(prog.nodes[x][j], q)
  }

  // A trail from q back to where something comes from.
  ghost predicate Trail(prog: Script, trail: seq<Key>, q: Key) {
    && |trail| > 0 && trail[0] == q
    && (forall k | 0 <= k < |trail| - 1 :: FedIn(prog, trail[k + 1], trail[k]))
  }

  ghost predicate Arrives(prog: Script, q: Key, c: nat) {
    exists trail :: Trail(prog, trail, q) && BroughtIn(prog, trail[|trail| - 1], c)
  }

  ghost predicate AllArrive(prog: Script, q: Key) {
    exists trail :: Trail(prog, trail, q) && AllBroughtIn(prog, trail[|trail| - 1])
  }

  // A join of columns covers c: its end may be anything, or c lies between numbers that arrive.
  ghost predicate Spanned(prog: Script, start: Key, end: Key, c: nat) {
    || AllArrive(prog, end)
    || exists a: nat, b: nat :: a <= c <= b <= 62 && Arrives(prog, start, a) && Arrives(prog, end, b)
  }

  ghost predicate JoinAt(prog: Script, x: nat, j: nat, start: Key, end: Key) {
    && Within(prog, x, j) && prog.nodes[x][j].JoinColumns?
    && start == InReg(prog.nodes[x][j].start, Int) && end == InReg(prog.nodes[x][j].end, Int)
  }

  // c arrives at a number that columns are read by, or between the ends of a join.
  ghost predicate Wanted(prog: Script, c: nat) {
    || (exists q :: AskedIn(prog, q) && Arrives(prog, q, c))
    || (exists x: nat, j: nat, start: Key, end: Key :: JoinAt(prog, x, j, start, end) && Spanned(prog, start, end, c))
  }

  // ---- What visiting leaves in the net, exactly ----

  // Bit 63 stands for the full set.
  predicate Gives(i: Inst, a: Key, c: nat) {
    if c <= 62 then Brings(i, a, c) else BringsAll(i, a)
  }

  lemma ContributionBits(i: Inst, a: Key, c: nat)
    requires c < 64
    ensures Bit(Contribution(i, a), c) <==> Gives(i, a, c)
  {
    hide Bit, Pow2;
    BitZero(c);
    Words.BitMask(64, c);
    if i.StoreConstInt? && 0 <= i.i <= 62 {
      BitPow2(i.i, c);
    } else if i.Lookup? {
      BitPow2(0, c);
    }
  }

  lemma DepsAre(i: Inst, a: Key, b: Key)
    ensures IsTracked(i) && (b, Some(a)) in Deps(i) <==> Feeds(i, a, b)
  {
    match i
    case Phi(dst, preds) =>
      if k :| 0 <= k < |preds| && a == InReg(preds[k].1, Int) {
        assert Deps(i)[k] == (IntReg(dst), Some(a));
      }
    case MovMap(dst, src) => MapDeps(dst, src, a, b);
    case Lookup(dst, m, key) => LookupDeps(dst, m, key, a, b);
    case Store(m, key, val) =>
      assert Deps(i)[0] == (KeysOf(m), Some(IntReg(key))) && Deps(i)[1] == (ValsOf(m), Some(IntReg(val)));
    case MovInt(dst, src) => assert Deps(i)[0] == (IntReg(dst), Some(IntReg(src)));
    case IterBegin(dst, m) => assert Deps(i)[0] == (IterReg(dst), Some(KeysOf(m)));
    case IterGetNext(dst, iter) => assert Deps(i)[0] == (IntReg(dst), Some(IterReg(iter)));
    case _ =>
  }

  lemma MapDeps(dst: nat, src: nat, a: Key, b: Key)
    ensures (b, Some(a)) in Deps(Inst.MovMap(dst, src)) <==> Feeds(Inst.MovMap(dst, src), a, b)
  {
    var ds := Deps(Inst.MovMap(dst, src));
    assert ds[0] == (KeysOf(dst), Some(KeysOf(src))) && ds[1] == (ValsOf(dst), Some(ValsOf(src)));
    assert ds[2] == (KeysOf(src), Some(KeysOf(dst))) && ds[3] == (ValsOf(src), Some(ValsOf(dst)));
  }

  lemma LookupDeps(dst: nat, m: nat, key: nat, a: Key, b: Key)
    ensures (b, Some(a)) in Deps(Inst.Lookup(dst, m, key)) <==> Feeds(Inst.Lookup(dst, m, key), a, b)
  {
    var ds := Deps(Inst.Lookup(dst, m, key));
    assert ds[0] == (KeysOf(m), Some(IntReg(key))) && ds[1] == (ValsOf(m), None);
    assert ds[2] == (IntReg(dst), Some(ValsOf(m)));
  }

  // Keys no instruction of these programs feeds or asks for.
  predicate Outside(k: Key) {
    k == Rng || k.VarKey? || k.VarVal?
  }

  ghost predicate WeightsAre(prog: Script, b: nat, i: nat, t: FieldNet) {
    forall k, c: nat | c < 64 && !Outside(k) ::
      Bit(t.WeightOf(k), c) <==> exists x: nat, j: nat :: Before(prog, b, i, x, j) && Gives(prog.nodes[x][j], k, c)
  }

  ghost predicate DepsAreFeeds(prog: Script, b: nat, i: nat, t: FieldNet) {
    forall a, k :: t.HasDep(k, a) <==>
      exists x: nat, j: nat :: Before(prog, b, i, x, j) && Feeds(prog.nodes[x][j], a, k)
  }

  ghost predicate QueriesAre(prog: Script, b: nat, i: nat, t: FieldNet) {
    forall k :: t.IsQuery(k) <==> exists x: nat, j: nat :: Before(prog, b, i, x, j) && Asks(prog.nodes[x][j], k)
  }

  ghost predicate JoinsAre(prog: Script, b: nat, i: nat, joins: seq<(Key, Key)>) {
    forall s, e :: (s, e) in joins <==>
      exists x: nat, j: nat :: Before(prog, b, i, x, j) && JoinAt(prog, x, j, s, e)
  }

  // The net and the joins say exactly what the instructions in front of (b, i) say.
  ghost predicate NetIs(prog: Script, b: nat, i: nat, t: FieldNet, joins: seq<(Key, Key)>) {
    && WeightsAre(prog, b, i, t) && DepsAreFeeds(prog, b, i, t) && QueriesAre(prog, b, i, t)
    && JoinsAre(prog, b, i, joins) && KeyEdges(t)
  }

  lemma BeforeMore(prog: Script, b: nat, i: nat, x: nat, j: nat)
    requires b < |prog.nodes| && i < |prog.nodes[b]|
    ensures Before(prog, b, i + 1, x, j) <==> Before(prog, b, i, x, j) || (x == b && j == i)
  {
  }

  lemma WeightsMore(prog: Script, b: nat, i: nat, t: FieldNet, t': FieldNet, k: Key, c: nat)
    requires b < |prog.nodes| && i < |prog.nodes[b]| && c < 64 && !Outside(k)
    requires t'.WeightOf(k) == Or(Contribution(prog.nodes[b][i], k), t.WeightOf(k)) && WeightsAre(prog, b, i, t)
    ensures Bit(t'.WeightOf(k), c) <==>
            exists x: nat, j: nat :: Before(prog, b, i + 1, x, j) && Gives(prog.nodes[x][j], k, c)
  {
    hide Bit, Or, Contribution, Gives, Before;
    BitOr(Contribution(prog.nodes[b][i], k), t.WeightOf(k), c);
    ContributionBits(prog.nodes[b][i], k, c);
    forall x: nat, j: nat
      ensures Before(prog, b, i + 1, x, j) <==> Before(prog, b, i, x, j) || (x == b && j == i)
    {
      BeforeMore(prog, b, i, x, j);
    }
    BeforeIn(prog, b, i + 1);
    BeforeIn(prog, b, i);
    if Gives(prog.nodes[b][i], k, c) {
      BeforeMore(prog, b, i, b, i);
      assert Before(prog, b, i + 1, b, i);
    }
  }

  lemma BeforeIn(prog: Script, b: nat, i: nat)
    ensures forall x: nat, j: nat | Before(prog, b, i, x, j) :: Within(prog, x, j)
  {
  }

  lemma VisitedExactly(prog: Script, b: nat, i: nat, t: FieldNet, t': FieldNet, joins: seq<(Key, Key)>,
                       joins': seq<(Key, Key)>)
    requires b < |prog.nodes| && i < |prog.nodes[b]| && Visited(prog.nodes[b][i], t, t', joins, joins')
    requires NetIs(prog, b, i, t, joins)
    ensures NetIs(prog, b, i + 1, t', joins')
  {
    hide Bit, Or, Contribution, Gives, Before, Deps, Feeds, Asks, Asked;
    var inst := prog.nodes[b][i];
    forall x: nat, j: nat
      ensures Before(prog, b, i + 1, x, j) <==> Before(prog, b, i, x, j) || (x == b && j == i)
    {
      BeforeMore(prog, b, i, x, j);
    }
    BeforeIn(prog, b, i + 1);
    BeforeIn(prog, b, i);
    BeforeMore(prog, b, i, b, i);
    assert Before(prog, b, i + 1, b, i);
    forall k, c: nat | c < 64 && !Outside(k)
      ensures Bit(t'.WeightOf(k), c) <==>
              exists x: nat, j: nat :: Before(prog, b, i + 1, x, j) && Gives(prog.nodes[x][j], k, c)
    {
      WeightsMore(prog, b, i, t, t', k, c);
    }
    forall a, k
      ensures t'.HasDep(k, a) <==>
              exists x: nat, j: nat :: Before(prog, b, i + 1, x, j) && Feeds(prog.nodes[x][j], a, k)
    {
      DepsAre(inst, a, k);
    }
    forall k
      ensures t'.IsQuery(k) <==> exists x: nat, j: nat :: Before(prog, b, i + 1, x, j) && Asks(prog.nodes[x][j], k)
    {
      AsksIs(inst, k);
    }
    JoinsMore(prog, b, i, joins, joins');
  }

  lemma AsksIs(i: Inst, k: Key)
    ensures k in Asked(i) <==> Asks(i, k)
  {
  }

  lemma JoinsMore(prog: Script, b: nat, i: nat, joins: seq<(Key, Key)>, joins': seq<(Key, Key)>)
    requires b < |prog.nodes| && i < |prog.nodes[b]| && JoinsAre(prog, b, i, joins)
    requires var inst := prog.nodes[b][i];
             joins' == if inst.JoinColumns? then joins + [(IntReg(inst.start), IntReg(inst.end))] else joins
    ensures JoinsAre(prog, b, i + 1, joins')
  {
    forall s, e
      ensures (s, e) in joins' <==>
              exists x: nat, j: nat :: Before(prog, b, i + 1, x, j) && JoinAt(prog, x, j, s, e)
    {
      if (s, e) in joins {
        var x: nat, j: nat :| Before(prog, b, i, x, j) && JoinAt(prog, x, j, s, e);
        assert Before(prog, b, i + 1, x, j) && JoinAt(prog, x, j, s, e);
      } else if (s, e) in joins' {
        assert Before(prog, b, i + 1, b, i) && JoinAt(prog, b, i, s, e);
      }
    }
  }

  lemma NothingVisited(prog: Script, t: FieldNet)
    requires (forall k | !Outside(k) :: t.WeightOf(k) == 0) && (forall a, b :: !t.HasDep(a, b)) && t.edges == []
    requires forall k :: !t.IsQuery(k)
    ensures NetIs(prog, 0, 0, t, [])
  {
    hide Bit;
    forall c: nat
      ensures !Bit(0, c)
    {
      BitZero(c);
    }
  }

  lemma NodeVisited(prog: Script, b: nat, t: FieldNet, joins: seq<(Key, Key)>)
    requires b < |prog.nodes| && NetIs(prog, b, |prog.nodes[b]|, t, joins)
    ensures NetIs(prog, b + 1, 0, t, joins)
  {
    hide Bit, Gives, Feeds, Asks, JoinAt;
    assert forall x: nat, j: nat :: Before(prog, b + 1, 0, x, j) <==> Before(prog, b, |prog.nodes[b]|, x, j);
    hide Before;
  }

  // ---- Bits of the solution ----

  // All columns but c.
  function Without(c: nat): (w: Word)
    requires c < 64
  {
    PowMono(c, 64);
    SizeBound(ALL, Pow2(c), 64);
    Xor(ALL, Pow2(c))
  }

  lemma WithoutBits(c: nat, i: nat)
    requires c < 64
    ensures Bit(Without(c), i) <==> i < 64 && i != c
  {
    hide Bit, Xor, Pow2;
    BitXor(ALL, Pow2(c), i);
    Words.BitMask(64, i);
    BitPow2(c, i);
  }

  lemma BelowWithout(c: nat, x: Word)
    requires c < 64 && !Bit(x, c)
    ensures Leq(FIELDS, x, Without(c))
  {
    hide Bit, Or, Without;
    var u := Without(c);
    SizeBound(u, x, 64);
    forall i | 0 <= i < 64
      ensures Bit(Or(u, x), i) <==> Bit(u, i)
    {
      BitOr(u, x, i);
      WithoutBits(c, i);
    }
    SameBits(Or(u, x), u, 64);
    OrIsLeq(x, u);
  }

  lemma OrIsLeq(x: Word, y: Word)
    ensures Leq(FIELDS, x, y) <==> Or(y, x) == y
  {
  }

  lemma LeqBits(x: Word, y: Word, c: nat)
    requires Leq(FIELDS, x, y) && Bit(x, c)
    ensures Bit(y, c)
  {
    hide Bit, Or;
    OrIsLeq(x, y);
    BitOr(y, x, c);
  }

  // A bit of the solution comes from somewhere, and whatever is reached brings its bits.
  lemma SolutionBits(t: FieldNet, sol: FieldNet, n: nat, c: nat)
    requires NetOk(t) && t.lat == FIELDS && SolvedFrom(t, sol) && n < |t.weights| && c < 64
    requires Reachable(sol.G(), 0, n)
    ensures Bit(sol.weights[n], c) <==>
            exists m: nat :: m < |t.weights| && Reachable(sol.G(), n, m) && Bit(t.weights[m], c)
  {
    hide Bit, Reachable, NetOk, Without, FIELDS;
    var g := sol.G();
    assert JoinOfReached(t.lat, g, t.weights, n, sol.weights[n]);
    if m: nat :| m < |t.weights| && Reachable(g, n, m) && Bit(t.weights[m], c) {
      LeqBits(t.weights[m], sol.weights[n], c);
    }
    if forall m: nat | m < |t.weights| && Reachable(g, n, m) :: !Bit(t.weights[m], c) {
      forall m: nat | m < g.n && Reachable(g, n, m)
        ensures Leq(t.lat, t.weights[m], Without(c))
      {
        BelowWithout(c, t.weights[m]);
      }
      assert Bounds(t.lat, g, t.weights, n, Without(c));
      if Bit(sol.weights[n], c) {
        LeqBits(sol.weights[n], Without(c), c);
        WithoutBits(c, c);
        assert false;
      }
    }
  }

  // ---- Trails are paths ----

  // The visited net of a whole program and its solution.
  ghost predicate Finished(prog: Script, t: FieldNet, sol: FieldNet, joins: seq<(Key, Key)>) {
    && NetOk(t) && t.lat == FIELDS && t.weights[0] == 0 && SolvedFrom(t, sol)
    && NetIs(prog, |prog.nodes|, 0, t, joins)
  }

  lemma WholeProgram(prog: Script)
    ensures forall x: nat, j: nat :: Before(prog, |prog.nodes|, 0, x, j) <==> Within(prog, x, j)
  {
  }

  lemma DepIsFed(prog: Script, t: FieldNet, sol: FieldNet, joins: seq<(Key, Key)>, a: Key, k: Key)
    requires Finished(prog, t, sol, joins)
    ensures t.HasDep(k, a) <==> FedIn(prog, a, k)
  {
    hide Feeds, Before, NetOk, SolvedFrom;
    WholeProgram(prog);
  }

  lemma AskedIsQuery(prog: Script, t: FieldNet, sol: FieldNet, joins: seq<(Key, Key)>, q: Key)
    requires Finished(prog, t, sol, joins)
    ensures t.IsQuery(q) <==> AskedIn(prog, q)
  {
    hide Asks, Before, NetOk, SolvedFrom;
    WholeProgram(prog);
  }

  lemma FedIsInside(prog: Script, a: Key, b: Key)
    requires FedIn(prog, a, b)
    ensures !Outside(a) && !Outside(b)
  {
  }

  lemma AskedIsInside(prog: Script, q: Key)
    requires AskedIn(prog, q)
    ensures !Outside(q)
  {
  }

  lemma {:induction false} PathTrail(prog: Script, t: FieldNet, sol: FieldNet, joins: seq<(Key, Key)>, p: seq<nat>,
                                     k: Key, m: nat)
    returns (trail: seq<Key>)
    requires Finished(prog, t, sol, joins) && k in t.nodes && PathBetween(sol.G(), p, t.nodes[k], m) && !Outside(k)
    ensures Trail(prog, trail, k) && !Outside(trail[|trail| - 1])
    ensures trail[|trail| - 1] in t.nodes && t.nodes[trail[|trail| - 1]] == m
    decreases |p|
  {
    hide FedIn;
    if |p| == 1 {
      trail := [k];
    } else {
      assert sol.G().HasEdge(p[0], p[1]);
      assert (p[0], p[1]) in t.edges && p[1] in t.nodes.Values;
      var next :| next in t.nodes && t.nodes[next] == p[1];
      DepIsFed(prog, t, sol, joins, next, k);
      FedIsInside(prog, next, k);
      assert PathBetween(sol.G(), p[1..], p[1], m);
      var rest := PathTrail(prog, t, sol, joins, p[1..], next, m);
      trail := [k] + rest;
      TrailMore(prog, k, next, rest);
    }
  }

  lemma TrailMore(prog: Script, k: Key, next: Key, rest: seq<Key>)
    requires Trail(prog, rest, next) && FedIn(prog, next, k)
    ensures Trail(prog, [k] + rest, k)
  {
    hide FedIn;
  }

  lemma {:induction false} TrailPath(prog: Script, t: FieldNet, sol: FieldNet, joins: seq<(Key, Key)>, trail: seq<Key>,
                                     k: Key)
    requires Finished(prog, t, sol, joins) && k in t.nodes && Trail(prog, trail, k) && !Outside(k)
    ensures trail[|trail| - 1] in t.nodes && !Outside(trail[|trail| - 1]) && sol.G().Valid()
    ensures Reachable(sol.G(), t.nodes[k], t.nodes[trail[|trail| - 1]])
    decreases |trail|
  {
    hide FedIn, Reachable;
    GraphValid(t, sol);
    if |trail| == 1 {
      ReachSelf(sol.G(), t.nodes[k]);
    } else {
      var next := trail[1];
      DepIsFed(prog, t, sol, joins, next, k);
      FedIsInside(prog, next, k);
      assert Trail(prog, trail[1..], next);
      TrailPath(prog, t, sol, joins, trail[1..], next);
      assert sol.G().HasEdge(t.nodes[k], t.nodes[next]);
      ReachStep(sol.G(), t.nodes[k], t.nodes[next], t.nodes[trail[|trail| - 1]]);
    }
  }

  lemma GraphValid(t: FieldNet, sol: FieldNet)
    requires NetOk(t) && SolvedFrom(t, sol)
    ensures sol.G().Valid() && |sol.weights| == |t.weights| > 0
  {
    hide Lawful, JoinOfReached;
    forall e | e in sol.edges
      ensures e.0 < |sol.weights| && e.1 < |sol.weights|
    {
      assert (e.0, e.1) == e;
    }
  }

  // Something given to the end of a trail from q.
  ghost predicate GivenTo(prog: Script, q: Key, c: nat) {
    exists trail :: Trail(prog, trail, q) && GivenIn(prog, trail[|trail| - 1], c)
  }

  ghost predicate GivenIn(prog: Script, a: Key, c: nat) {
    exists x: nat, j: nat :: Within(prog, x, j) && Gives(prog.nodes[x][j], a, c)
  }

  lemma GivenIsArrived(prog: Script, q: Key, c: nat)
    ensures c <= 62 ==> (GivenTo(prog, q, c) <==> Arrives(prog, q, c))
    ensures c == 63 ==> (GivenTo(prog, q, c) <==> AllArrive(prog, q))
  {
    hide Trail, Brings, BringsAll;
    assert c <= 62 ==> forall a :: GivenIn(prog, a, c) <==> BroughtIn(prog, a, c);
    assert c == 63 ==> forall a :: GivenIn(prog, a, c) <==> AllBroughtIn(prog, a);
    hide GivenIn, BroughtIn, AllBroughtIn;
  }

  lemma WeightIsGiven(prog: Script, t: FieldNet, sol: FieldNet, joins: seq<(Key, Key)>, a: Key, c: nat)
    requires Finished(prog, t, sol, joins) && !Outside(a) && c < 64
    ensures Bit(t.WeightOf(a), c) <==> GivenIn(prog, a, c)
  {
    hide Gives, Before, Bit, NetOk, SolvedFrom;
    WholeProgram(prog);
  }

  lemma APath(g: Graph, a: nat, b: nat) returns (p: seq<nat>)
    requires Reachable(g, a, b)
    ensures PathBetween(g, p, a, b)
  {
    p :| PathBetween(g, p, a, b);
  }

  // The solution at a place that some column read depends on has exactly what arrives there.
  lemma KeyBits(prog: Script, t: FieldNet, sol: FieldNet, joins: seq<(Key, Key)>, q: Key, c: nat)
    requires Finished(prog, t, sol, joins) && q in t.nodes && t.nodes[q] < |sol.weights| && !Outside(q) && c < 64
    requires Reachable(sol.G(), 0, t.nodes[q])
    ensures Bit(sol.WeightOf(q), c) <==> GivenTo(prog, q, c)
  {
    hide Bit, Reachable, FedIn, GivenIn, Finished;
    FinishedIs(prog, t, sol, joins);
    var n := t.nodes[q];
    SolutionBits(t, sol, n, c);
    if Bit(sol.weights[n], c) {
      var m: nat :| m < |t.weights| && Reachable(sol.G(), n, m) && Bit(t.weights[m], c);
      var p := APath(sol.G(), n, m);
      var trail := PathTrail(prog, t, sol, joins, p, q, m);
      WeightIsGiven(prog, t, sol, joins, trail[|trail| - 1], c);
    }
    if GivenTo(prog, q, c) {
      var trail :| Trail(prog, trail, q) && GivenIn(prog, trail[|trail| - 1], c);
      TrailPath(prog, t, sol, joins, trail, q);
      WeightIsGiven(prog, t, sol, joins, trail[|trail| - 1], c);
    }
  }

  lemma FinishedIs(prog: Script, t: FieldNet, sol: FieldNet, joins: seq<(Key, Key)>)
    requires Finished(prog, t, sol, joins)
    ensures NetOk(t) && t.lat == FIELDS && t.weights[0] == 0 && SolvedFrom(t, sol) && sol.nodes == t.nodes
    ensures |sol.weights| == |t.weights| > 0 && sol.G().Valid() && sol.lat == t.lat
  {
    GraphValid(t, sol);
  }

  // ---- The answer ----

  lemma QueryReached(prog: Script, t: FieldNet, sol: FieldNet, joins: seq<(Key, Key)>, q: Key)
    requires Finished(prog, t, sol, joins) && AskedIn(prog, q)
    ensures q in t.nodes && t.nodes[q] < |sol.weights| && sol.G().Valid() && sol.G().HasEdge(0, t.nodes[q])
    ensures Reachable(sol.G(), 0, t.nodes[q]) && !Outside(q)
  {
    hide AskedIn, NetIs, Lawful, JoinOfReached;
    AskedIsQuery(prog, t, sol, joins, q);
    AskedIsInside(prog, q);
    GraphValid(t, sol);
    ReachSelf(sol.G(), 0);
    ReachOn(sol.G(), 0, 0, t.nodes[q]);
  }

  // What the sentinel reaches, some number that columns are read by reaches.
  lemma ReachedByQuery(prog: Script, t: FieldNet, sol: FieldNet, joins: seq<(Key, Key)>, m: nat) returns (q: Key)
    requires Finished(prog, t, sol, joins) && 0 < m < |sol.weights| && Reachable(sol.G(), 0, m)
    ensures AskedIn(prog, q) && q in t.nodes && Reachable(sol.G(), t.nodes[q], m)
  {
    hide AskedIn, Lawful, JoinOfReached;
    var p := APath(sol.G(), 0, m);
    assert sol.G().HasEdge(p[0], p[1]);
    assert (p[0], p[1]) in sol.edges && p[1] in t.queries;
    assert p[1] in t.nodes.Values;
    q :| q in t.nodes && t.nodes[q] == p[1];
    AskedIsQuery(prog, t, sol, joins, q);
    SplitPath(sol.G(), p, 1);
  }

  // `root` has what arrives at some number that columns are read by.
  lemma RootBits(prog: Script, t: FieldNet, sol: FieldNet, joins: seq<(Key, Key)>, c: nat)
    requires Finished(prog, t, sol, joins) && c < 64
    ensures |sol.weights| > 0
    ensures Bit(sol.weights[0], c) <==> exists q :: AskedIn(prog, q) && GivenTo(prog, q, c)
  {
    hide Bit, Reachable, GivenTo, AskedIn, Finished;
    FinishedIs(prog, t, sol, joins);
    ReachSelf(sol.G(), 0);
    SolutionBits(t, sol, 0, c);
    if Bit(sol.weights[0], c) {
      var m: nat :| m < |t.weights| && Reachable(sol.G(), 0, m) && Bit(t.weights[m], c);
      BitZero(c);
      var q := ReachedByQuery(prog, t, sol, joins, m);
      QueryReached(prog, t, sol, joins, q);
      SolutionBits(t, sol, t.nodes[q], c);
      KeyBits(prog, t, sol, joins, q, c);
    }
    if q :| AskedIn(prog, q) && GivenTo(prog, q, c) {
      QueryReached(prog, t, sol, joins, q);
      KeyBits(prog, t, sol, joins, q, c);
      SolutionBits(t, sol, t.nodes[q], c);
      var m: nat :| m < |t.weights| && Reachable(sol.G(), t.nodes[q], m) && Bit(t.weights[m], c);
      ReachStep(sol.G(), 0, t.nodes[q], m);
    }
  }

  // A set that has bit 63 is the full set: only writes of any number bring it.
  lemma FullSet(prog: Script, t: FieldNet, sol: FieldNet, joins: seq<(Key, Key)>, q: Key)
    requires Finished(prog, t, sol, joins) && AskedIn(prog, q)
    ensures sol.WeightOf(q) == ALL <==> AllArrive(prog, q)
  {
    hide Bit, Reachable, GivenTo, AskedIn, Finished, Pow2, AllArrive;
    QueryReached(prog, t, sol, joins, q);
    GivenIsArrived(prog, q, 63);
    KeyBits(prog, t, sol, joins, q, 63);
    Words.BitMask(64, 63);
    if AllArrive(prog, q) {
      forall c | 0 <= c < 64
        ensures Bit(sol.WeightOf(q), c) <==> Bit(ALL, c)
      {
        Words.BitMask(64, c);
        KeyBits(prog, t, sol, joins, q, c);
        AllIsEach(prog, q, c);
      }
      SameBits(sol.WeightOf(q), ALL, 64);
    }
  }

  lemma AllIsEach(prog: Script, q: Key, c: nat)
    requires AllArrive(prog, q)
    ensures GivenTo(prog, q, c)
  {
    hide FedIn;
    var trail :| Trail(prog, trail, q) && AllBroughtIn(prog, trail[|trail| - 1]);
    assert GivenIn(prog, trail[|trail| - 1], c);
  }

  lemma GetIsBit(w: Word, c: nat)
    requires c <= 62
    ensures Get(w, c) <==> Bit(w, c)
  {
  }

  // What a join of columns adds.
  lemma JoinBits(prog: Script, t: FieldNet, sol: FieldNet, joins: seq<(Key, Key)>, start: Key, end: Key, c: nat)
    requires Finished(prog, t, sol, joins) && AskedIn(prog, start) && AskedIn(prog, end) && c <= 62
    ensures JoinGives(sol, (start, end), c) || sol.WeightOf(end) == ALL <==>
            Arrives(prog, start, c) || Spanned(prog, start, end, c)
  {
    hide Bit, Reachable, AskedIn, Finished, Arrives, AllArrive, Get, GivenTo;
    FullSet(prog, t, sol, joins, end);
    EndBits(prog, t, sol, joins, start);
    EndBits(prog, t, sol, joins, end);
    var x, y := sol.WeightOf(start), sol.WeightOf(end);
    if y != ALL {
      if InSpan(x, y, c) {
        var a, b :| 0 <= a <= c <= b && Get(x, a) && Get(y, b);
        HighIsFull(y, b);
      }
      if Spanned(prog, start, end, c) {
        var a: nat, b: nat :| a <= c <= b <= 62 && Arrives(prog, start, a) && Arrives(prog, end, b);
        assert Get(x, a) && Get(y, b);
      }
    }
  }

  lemma HighIsFull(w: Word, c: nat)
    requires Get(w, c) && w != ALL
    ensures c <= 62
  {
  }

  lemma EndBits(prog: Script, t: FieldNet, sol: FieldNet, joins: seq<(Key, Key)>, q: Key)
    requires Finished(prog, t, sol, joins) && AskedIn(prog, q)
    ensures forall c: nat | c <= 62 :: Get(sol.WeightOf(q), c) <==> Arrives(prog, q, c)
  {
    hide Bit, Reachable, AskedIn, Finished, Arrives, Get, GivenTo;
    QueryReached(prog, t, sol, joins, q);
    forall c: nat | c <= 62
      ensures Get(sol.WeightOf(q), c) <==> Arrives(prog, q, c)
    {
      GetIsBit(sol.WeightOf(q), c);
      KeyBits(prog, t, sol, joins, q, c);
      GivenIsArrived(prog, q, c);
    }
  }

  lemma JoinIsAsked(prog: Script, x: nat, j: nat, start: Key, end: Key)
    requires JoinAt(prog, x, j, start, end)
    ensures AskedIn(prog, start) && AskedIn(prog, end)
  {
    assert Asks(prog.nodes[x][j], start) && Asks(prog.nodes[x][j], end);
  }

  lemma JoinInProgram(prog: Script, t: FieldNet, sol: FieldNet, joins: seq<(Key, Key)>, start: Key, end: Key)
    requires Finished(prog, t, sol, joins)
    ensures (start, end) in joins <==> exists x: nat, j: nat :: JoinAt(prog, x, j, start, end)
  {
    hide NetOk, SolvedFrom;
    WholeProgram(prog);
    hide Before;
  }

  // The answer has exactly the columns that the program's writes bring to column reads.
  lemma AnswerExact(prog: Script, t: FieldNet, sol: FieldNet, joins: seq<(Key, Key)>, res: Word, c: nat)
    requires Finished(prog, t, sol, joins) && Answer(sol, joins, res) && c <= 62
    ensures Get(res, c) <==> Wanted(prog, c)
  {
    hide Bit, AskedIn, Finished, Arrives, Spanned, Get, GivenTo, JoinGives, JoinAt;
    RootBits(prog, t, sol, joins, c);
    assert |sol.weights| > 0;
    GetIsBit(RootOf(sol), c);
    forall q
      ensures GivenTo(prog, q, c) <==> Arrives(prog, q, c)
    {
      GivenIsArrived(prog, q, c);
    }
    if Get(res, c) {
      AnswerWanted(prog, t, sol, joins, res, c);
    }
    if Wanted(prog, c) && !Get(RootOf(sol), c) {
      var x: nat, j: nat, start: Key, end: Key :| JoinAt(prog, x, j, start, end) && Spanned(prog, start, end, c);
      JoinIsAsked(prog, x, j, start, end);
      JoinBits(prog, t, sol, joins, start, end, c);
      JoinInProgram(prog, t, sol, joins, start, end);
      var k :| 0 <= k < |joins| && joins[k] == (start, end);
      assert JoinGives(sol, joins[k], c) || sol.WeightOf(joins[k].1) == ALL;
    }
  }

  lemma AnswerWanted(prog: Script, t: FieldNet, sol: FieldNet, joins: seq<(Key, Key)>, res: Word, c: nat)
    requires Finished(prog, t, sol, joins) && Answer(sol, joins, res) && c <= 62 && Get(res, c)
    requires Get(RootOf(sol), c) ==> exists q :: AskedIn(prog, q) && Arrives(prog, q, c)
    ensures Wanted(prog, c)
  {
    hide AskedIn, Finished, Arrives, Spanned, Get, JoinGives, JoinAt;
    if !Get(RootOf(sol), c) {
      var k :| 0 <= k < |joins| && (JoinGives(sol, joins[k], c) || sol.WeightOf(joins[k].1) == ALL);
      var start, end := joins[k].0, joins[k].1;
      assert (start, end) in joins;
      JoinInProgram(prog, t, sol, joins, start, end);
      var x: nat, j: nat :| JoinAt(prog, x, j, start, end);
      JoinIsAsked(prog, x, j, start, end);
      JoinBits(prog, t, sol, joins, start, end, c);
    }
  }
}
