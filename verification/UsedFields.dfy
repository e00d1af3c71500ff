// src/pushdown.rs: which columns a program can read.
module UsedFields {
  import opened Ir
  import opened Bytecode
  import opened Words
  import opened FieldSets
  import opened Lattices
  import opened Dataflow
  import P = FieldPrograms

  // `MapKey` and `MapVal` stand for all keys and all values of a map.
  datatype Key = InReg(r: nat, ty: Ty) | MapKey(r: nat, ty: Ty) | MapVal(r: nat,
                       ty: Ty) | Rng | VarKey(v: nat) | VarVal(v: nat)

  const FI_VARIABLE := 0

  type FieldNet = Net<Word, Key>

  function IntReg(r: nat): Key {
    InReg(r, Int)
  }

  function IterReg(r: nat): Key {
    InReg(r, IterInt)
  }

  function KeysOf(m: nat): Key {
    MapKey(m, MapIntInt)
  }

  function ValsOf(m: nat): Key {
    MapVal(m, MapIntInt)
  }

  // What an instruction writes and what that depends on, as src/dataflow.rs reports it; None is a
  // write that depends on nothing in particular.
  function Deps(i: P.Inst): seq<(Key, Option<Key>)> {
    match i
    case StoreConstInt(dst, _) => [(IntReg(dst), None)]
    case Compute(dst, _) => [(IntReg(dst), None)]
    case MovInt(dst, src) => [(IntReg(dst), Some(IntReg(src)))]
    case MovMap(dst, src) => [
      (KeysOf(dst), Some(KeysOf(src))), (ValsOf(dst), Some(ValsOf(src))),
      (KeysOf(src), Some(KeysOf(dst))), (ValsOf(src), Some(ValsOf(dst)))]
    case Store(m, key, val) => [(KeysOf(m), Some(IntReg(key))), (ValsOf(m), Some(IntReg(val)))]
    case Lookup(dst, m, key) => [(KeysOf(m), Some(IntReg(key))), (ValsOf(m), None), (IntReg(dst), Some(ValsOf(m)))]
    case IterBegin(dst, m) => [(IterReg(dst), Some(KeysOf(m)))]
    case IterGetNext(dst, iter) => [(IntReg(dst), Some(IterReg(iter)))]
    case Phi(dst, preds) => seq(|preds|, k requires 0 <= k < |preds| => (IntReg(dst), Some(IntReg(preds[k].1))))
    case _ => []
  }

  // Instructions whose reported dependencies are followed; others may produce any number.
  predicate IsTracked(i: P.Inst) {
    i.Store? || i.Lookup? || i.IterBegin? || i.IterGetNext? || i.MovInt? || i.MovMap? || i.Phi?
  }

  // What an instruction puts into a key by itself.
  function Contribution(i: P.Inst, k: Key): Word {
    match i
    case StoreConstInt(dst, c) => if k == IntReg(dst) then (if c >= 0 then SmallSet(c) else ALL) else 0
    case Compute(dst, _) => if k == IntReg(dst) then ALL else 0
    case Lookup(_, m, _) => if k == ValsOf(m) then SmallSet(0) else 0
    case GetColumn(dst, _) => if k == InReg(dst, Str) then ALL else 0
    case JoinColumns(dst, _, _, _) => if k == InReg(dst, Str) then ALL else 0
    case _ => 0
  }

  // The registers whose values an instruction uses as columns.
  function Asked(i: P.Inst): set<Key> {
    match i
    case GetColumn(_, col) => {IntReg(col)}
    case JoinColumns(_, start, end, _) => {IntReg(start), IntReg(end)}
    case _ => {}
  }

  function FiSet(): Word {
    FiIsNoColumn(0);
    JUST_FI
  }

  function SmallSet(c: nat): Word {
    SingletonGets(c);
    Singleton(c)
  }

  // The net and the joins after visiting one more instruction.
  ghost predicate Visited(i: P.Inst, t: FieldNet, t': FieldNet, joins: seq<(Key, Key)>, joins': seq<(Key, Key)>) {
    && t'.lat == t.lat
    && (forall k :: t'.WeightOf(k) == Or(Contribution(i, k), t.WeightOf(k)))
    && (forall a, b :: t'.HasDep(a, b) <==> t.HasDep(a, b) || (IsTracked(i) && (a, Some(b)) in Deps(i)))
    && (forall k :: t'.IsQuery(k) <==> t.IsQuery(k) || k in Asked(i))
    && (!IsTracked(i) ==> t'.edges == t.edges) && (KeyEdges(t) ==> KeyEdges(t'))
    && joins' == if i.JoinColumns? then joins + [(IntReg(i.start), IntReg(i.end))] else joins
  }

  class UsedFieldAnalysis {
    const dfa: Analysis<Word, Key>
    var joins: seq<(Key, Key)>

    ghost predicate Valid()
      reads this, dfa
    {
      dfa.Valid() && dfa.lat == FIELDS && !dfa.solved
    }

    constructor ()
      ensures Valid() && fresh(dfa) && joins == [] && dfa.Now().edges == []
      ensures forall k :: dfa.Now().WeightOf(k) ==
                if k == Rng || k == VarKey(FI_VARIABLE) then ALL else if k == VarVal(FI_VARIABLE) then FiSet() else 0
      ensures forall a, b :: !dfa.Now().HasDep(a, b)
      ensures forall k :: !dfa.Now().IsQuery(k)
    {
      hide Lawful, NetOk, Or, Pow2, FIELDS;
      FieldsLawful();
      FieldsAre();
      dfa := new Analysis(FIELDS);
      joins := [];
      new;
      OrSame(ALL);
      OrSame(FiSet());
      dfa.AddSrc(Rng, ALL);
      dfa.AddSrc(VarVal(FI_VARIABLE), FiSet());
      dfa.AddSrc(VarKey(FI_VARIABLE), ALL);
    }

    method VisitHl(i: P.Inst)
      requires Valid() && i.Phi?
      modifies this, dfa
      ensures Valid() && Visited(i, old(dfa.Now()), dfa.Now(), old(joins), joins)
    {
      VisitDeps(i);
    }

    // Follow every reported dependency; a write without one may leave a null in a map.
    method VisitDeps(i: P.Inst)
      requires Valid() && IsTracked(i)
      modifies dfa
      ensures Valid() && Visited(i, old(dfa.Now()), dfa.Now(), joins, joins)
    {
      hide Lawful, NetOk, Or, Pow2, FIELDS, Deps, SmallSet, Contribution;
      FieldsAre();
      var deps := Deps(i);
      ghost var t := dfa.Now();
      ghost var nulls: seq<Key> := [];
      PutNothing(t);
      var k := 0;
      while k < |deps|
        invariant 0 <= k <= |deps| && Valid() && dfa.Now().lat == t.lat
        invariant forall a, b :: dfa.Now().HasDep(a, b) <==> t.HasDep(a, b) || (a, Some(b)) in deps[..k]
        invariant forall a :: dfa.Now().WeightOf(a) == Or(Put(nulls, a, SmallSet(0)), t.WeightOf(a))
        invariant forall a :: a in nulls <==> (a, None) in deps[..k]
        invariant forall a :: dfa.Now().IsQuery(a) <==> t.IsQuery(a)
        invariant KeyEdges(t) ==> KeyEdges(dfa.Now())
        modifies dfa
      {
        assert deps[..k + 1] == deps[..k] + [deps[k]];
        match deps[k].1 {
          case Some(src) => dfa.AddDep(deps[k].0, src);
          case None =>
            dfa.AddSrc(deps[k].0, SmallSet(0));
            PutMore(nulls, deps[k].0, SmallSet(0), t);
            nulls := nulls + [deps[k].0];
        }
        k := k + 1;
      }
      assert deps[..|deps|] == deps;
      NullsAre(i, nulls);
    }

    // Anything else that is written may hold any number.
    method VisitOther(i: P.Inst)
      requires Valid() && !IsTracked(i) && !i.GetColumn? && !i.JoinColumns? && !(i.StoreConstInt? && i.i >= 0)
      modifies dfa
      ensures Valid() && Visited(i, old(dfa.Now()), dfa.Now(), joins, joins)
    {
      hide Lawful, NetOk, Or, Pow2, FIELDS, Deps, SmallSet, Contribution;
      FieldsAre();
      var deps := Deps(i);
      ghost var t := dfa.Now();
      ghost var alls: seq<Key> := [];
      PutNothing(t);
      var k := 0;
      while k < |deps|
        invariant 0 <= k <= |deps| && Valid() && dfa.Now().lat == t.lat
        invariant forall a, b :: dfa.Now().HasDep(a, b) <==> t.HasDep(a, b)
        invariant dfa.Now().edges == t.edges
        invariant forall a :: dfa.Now().WeightOf(a) == Or(Put(alls, a, ALL), t.WeightOf(a))
        invariant |alls| == k && forall j | 0 <= j < k :: alls[j] == deps[j].0
        invariant forall a :: dfa.Now().IsQuery(a) <==> t.IsQuery(a)
        modifies dfa
      {
        dfa.AddSrc(deps[k].0, ALL);
        PutMore(alls, deps[k].0, ALL, t);
        alls := alls + [deps[k].0];
        k := k + 1;
      }
      AllsAre(i, alls);
    }

    // The ends of the range are asked for, and the range is kept for later.
    method VisitJoin(i: P.Inst)
      requires Valid() && i.JoinColumns?
      modifies this, dfa
      ensures Valid() && Visited(i, old(dfa.Now()), dfa.Now(), old(joins), joins)
    {
      hide Lawful, NetOk, Or, Pow2, FIELDS, SmallSet, Deps, Contribution, Visited;
      FieldsAre();
      ghost var t := dfa.Now();
      dfa.AddQuery(IntReg(i.start));
      dfa.AddQuery(IntReg(i.end));
      dfa.AddSrc(InReg(i.dst, Str), ALL);
      joins := joins + [(IntReg(i.start), IntReg(i.end))];
      ColumnsVisited(i, InReg(i.dst, Str), t, dfa.Now(), old(joins), joins);
    }

    method VisitLl(i: P.Inst)
      requires Valid() && !i.Phi?
      modifies this, dfa
      ensures Valid() && Visited(i, old(dfa.Now()), dfa.Now(), old(joins), joins)
    {
      hide Lawful, NetOk, Or, Pow2, FIELDS, SmallSet, Deps, Contribution, Visited;
      FieldsAre();
      ghost var t := dfa.Now();
      if i.StoreConstInt? && i.i >= 0 {
        dfa.AddSrc(IntReg(i.dst), SmallSet(i.i));
        ConstVisited(i, t, dfa.Now(), joins);
      } else if IsTracked(i) {
        VisitDeps(i);
      } else if i.GetColumn? {
        dfa.AddQuery(IntReg(i.col));
        dfa.AddSrc(InReg(i.dst, Str), ALL);
        ColumnsVisited(i, InReg(i.dst, Str), t, dfa.Now(), joins, joins);
      } else if i.JoinColumns? {
        VisitJoin(i);
      } else {
        VisitOther(i);
      }
    }

    // The set of all columns mentioned by column reads; joins add the ranges between their ends.
    method Solve() returns (word: Word)
      requires Valid() && forall j | 0 <= j < |joins| :: dfa.Now().IsQuery(joins[j].0) && dfa.Now().IsQuery(joins[j].1)
      modifies dfa
      ensures dfa.Valid() && SolvedFrom(old(dfa.Now()), dfa.Now()) && Answer(dfa.Now(), joins, word)
    {
      hide Lawful, NetOk, SolvedFrom, FIELDS, Pow2, Or, InSpan, Bit, Get;
      ghost var t := dfa.Now();
      var root := dfa.Root();
      ghost var t' := dfa.Now();
      SolvedQueries(t, t');
      dfa.Sizes();
      var res := new FieldSet(root);
      var k := 0;
      while k < |joins|
        invariant 0 <= k <= |joins| && dfa.Valid() && dfa.solved && dfa.Now() == t' && fresh(res)
        invariant Answer(t', joins[..k], res.word)
        modifies dfa, res
      {
        var l := dfa.Query(joins[k].0);
        var lFlds := new FieldSet(l);
        var r := dfa.Query(joins[k].1);
        lFlds.Fill(r);
        ghost var before := res.word;
        res.Union(lFlds.word);
        AnswerMore(t', joins[..k], joins[k], before, lFlds.word, res.word);
        assert joins[..k + 1] == joins[..k] + [joins[k]];
        k := k + 1;
      }
      assert joins[..|joins|] == joins;
      word := res.word;
    }
  }

  // What one join adds: its first end, and everything up to the second.
  ghost predicate JoinGives(t': FieldNet, j: (Key, Key), c: nat) {
    Get(t'.WeightOf(j.0), c) || InSpan(t'.WeightOf(j.0), t'.WeightOf(j.1), c)
  }

  ghost predicate Answer(t': FieldNet, joins: seq<(Key, Key)>, res: Word)
  {
    && (forall c | 0 <= c <= MAX_INDEX :: Get(res, c) <==>
          || Get(RootOf(t'), c)
          || (exists j :: 0 <= j < |joins| && (JoinGives(t', joins[j], c) || t'.WeightOf(joins[j].1) == ALL)))
    && (forall c: nat | Get(RootOf(t'), c) || exists j :: 0 <= j < |joins| && JoinGives(t', joins[j], c) :: Get(res, c))
  }

  function RootOf(t': FieldNet): Word {
    if t'.weights == [] then 0 else t'.weights[0]
  }

  lemma SolvedQueries(t: FieldNet, t': FieldNet)
    requires SolvedFrom(t, t')
    ensures forall k :: t'.IsQuery(k) <==> t.IsQuery(k)
  {
  }

  lemma AnswerMore(t': FieldNet, joins: seq<(Key, Key)>, j: (Key, Key), before: Word, filled: Word, res: Word)
    requires Answer(t', joins, before)
    requires forall c | 0 <= c <= MAX_INDEX :: Get(filled, c) <==> JoinGives(t', j, c) || t'.WeightOf(j.1) == ALL
    requires forall c: nat | JoinGives(t', j, c) :: Get(filled, c)
    requires forall c | 0 <= c < 64 :: Bit(res, c) <==> Bit(before, c) || Bit(filled, c)
    requires forall c: nat | Get(before, c) || Get(filled, c) :: Get(res, c)
    ensures Answer(t', joins + [j], res)
  {
    var more := joins + [j];
    assert forall k | 0 <= k < |joins| :: more[k] == joins[k];
    assert more[|joins|] == j;
    forall c: nat | c <= MAX_INDEX
      ensures Get(res, c) <==> Get(before, c) || Get(filled, c)
    {
    }
    forall c: nat | c <= MAX_INDEX && Get(res, c)
      ensures Get(RootOf(t'), c) || exists k ::
                 0 <= k < |more| && (JoinGives(t', more[k], c) || t'.WeightOf(more[k].1) == ALL)
    {
      if Get(filled, c) {
        assert JoinGives(t', more[|joins|], c) || t'.WeightOf(more[|joins|].1) == ALL;
      } else if !Get(RootOf(t'), c) {
        var k :| 0 <= k < |joins| && (JoinGives(t', joins[k], c) || t'.WeightOf(joins[k].1) == ALL);
        assert JoinGives(t', more[k], c) || t'.WeightOf(more[k].1) == ALL;
      }
    }
  }

  lemma ConstVisited(i: P.Inst, t: FieldNet, t': FieldNet, joins: seq<(Key, Key)>)
    requires i.StoreConstInt? && i.i >= 0 && t'.lat == t.lat && t'.edges == t.edges
    requires forall a :: t'.WeightOf(a) ==
                         if a == IntReg(i.dst) then Or(SmallSet(i.i), t.WeightOf(a)) else t.WeightOf(a)
    requires forall a, b :: t'.HasDep(a, b) <==> t.HasDep(a, b)
    requires forall a :: t'.IsQuery(a) <==> t.IsQuery(a)
    ensures Visited(i, t, t', joins, joins)
  {
    hide Or, SmallSet, Deps;
    PutNothing(t);
  }

  lemma ColumnsVisited(i: P.Inst, dst: Key, t: FieldNet, t': FieldNet, joins: seq<(Key, Key)>, joins': seq<(Key, Key)>)
    requires (i.GetColumn? || i.JoinColumns?) && dst == InReg(i.dst, Str) && t'.lat == t.lat && t'.edges == t.edges
    requires forall a :: t'.WeightOf(a) == if a == dst then Or(ALL, t.WeightOf(a)) else t.WeightOf(a)
    requires forall a, b :: t'.HasDep(a, b) <==> t.HasDep(a, b)
    requires forall a :: t'.IsQuery(a) <==> t.IsQuery(a) || a in Asked(i)
    requires joins' == if i.JoinColumns? then joins + [(IntReg(i.start), IntReg(i.end))] else joins
    ensures Visited(i, t, t', joins, joins')
  {
    hide Or, SmallSet, Deps;
    PutNothing(t);
  }

  function Put(ks: seq<Key>, a: Key, v: Word): Word {
    if a in ks then v else 0
  }

  lemma OrZeroLeft(x: nat)
    ensures Or(0, x) == x
  {
    OrComm(0, x);
    OrSame(x);
  }

  lemma PutNothing(t: FieldNet)
    ensures forall a :: Or(Put([], a, 0), t.WeightOf(a)) == t.WeightOf(a)
    ensures forall v: Word, a :: Or(Put([], a, v), t.WeightOf(a)) == t.WeightOf(a)
  {
    forall a
      ensures Or(0, t.WeightOf(a)) == t.WeightOf(a)
    {
      OrZeroLeft(t.WeightOf(a));
    }
  }

  lemma PutMore(ks: seq<Key>, k: Key, v: Word, t: FieldNet)
    ensures forall a :: Or(Put(ks + [k], a, v), t.WeightOf(a)) ==
              if a == k then Or(v, Or(Put(ks, a, v), t.WeightOf(a))) else Or(Put(ks, a, v), t.WeightOf(a))
  {
    var w := t.WeightOf(k);
    OrZeroLeft(w);
    OrAssoc(v, v, w);
    OrSame(v);
  }

  lemma NullsAre(i: P.Inst, nulls: seq<Key>)
    requires IsTracked(i) && forall a :: a in nulls <==> (a, None) in Deps(i)
    ensures forall a :: Put(nulls, a, SmallSet(0)) == Contribution(i, a)
  {
    hide SmallSet;
    forall a
      ensures Put(nulls, a, SmallSet(0)) == Contribution(i, a)
    {
      if i.Lookup? {
        assert Deps(i)[1] == (ValsOf(i.m), None);
        assert (a, None) in Deps(i) <==> a == ValsOf(i.m);
      } else {
        assert (a, None) !in Deps(i);
      }
    }
  }

  lemma AllsAre(i: P.Inst, alls: seq<Key>)
    requires !IsTracked(i) && !i.GetColumn? && !i.JoinColumns? && !(i.StoreConstInt? && i.i >= 0)
    requires |alls| == |Deps(i)| && forall j | 0 <= j < |alls| :: alls[j] == Deps(i)[j].0
    ensures forall a :: Put(alls, a, ALL) == Contribution(i, a)
  {
    if i.StoreConstInt? || i.Compute? {
      assert alls == [IntReg(i.dst)];
    }
  }
}
