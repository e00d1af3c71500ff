// What combining the workers' results comes to: numbers are summed, per slot and per key; of strings
// the last nonempty one stays. When the order of arrival shows, and when it does not.
module ArrivalOrder {
  import opened Bytecode
  import opened Aggregation

  // ---- Parts of a value ----

  // A scalar as a whole, or a map's value at a key; a missing key counts as zero.
  datatype Part = Whole | IntKey(k: int) | StrKey(s: string)

  function PartOf(ty: Ty, p: Part, v: Value): Scalar {
    match (p, v)
    case (Whole, One(x)) => x
    case (IntKey(k), IntMap(m)) => if k in m then m[k] else ZeroOf(ElemTy(ty))
    case (StrKey(s), StrMap(m)) => if s in m then m[s] else ZeroOf(ElemTy(ty))
    case _ => ZeroOf(ElemTy(ty))
  }

  predicate Has(p: Part, v: Value) {
    match (p, v)
    case (Whole, One(_)) => true
    case (IntKey(k), IntMap(m)) => k in m
    case (StrKey(s), StrMap(m)) => s in m
    case _ => false
  }

  lemma PartAgg(ty: Ty, p: Part, a: Value, b: Value)
    requires ty.Stackable() && Typed(ty, a) && Typed(ty, b)
    ensures PartOf(ty, p, Agg(ty, a, b)) == AggScalar(PartOf(ty, p, a), PartOf(ty, p, b))
    ensures Has(p, Agg(ty, a, b)) <==> Has(p, a) || Has(p, b)
    ensures IsA(ElemTy(ty), PartOf(ty, p, a))
  {
    hide AggScalar;
    var z := ZeroOf(ElemTy(ty));
    ZeroIsUnit(ElemTy(ty), z);
    if !ty.IsArray() {
      if p.Whole? {
      }
    } else if IntKeyed(ty) {
      if p.IntKey? {
        MergeAt(ElemTy(ty), a.im, b.im, p.k);
      }
    } else {
      if p.StrKey? {
        MergeAt(ElemTy(ty), a.sm, b.sm, p.s);
      }
    }
  }

  lemma ZeroIsUnit(e: Ty, x: Scalar)
    requires IsA(e, x)
    ensures AggScalar(x, ZeroOf(e)) == x && AggScalar(ZeroOf(e), x) == x
  {
  }

  lemma MergeAt<K(!new)>(e: Ty, a: map<K, Scalar>, b: map<K, Scalar>, k: K)
    requires (k in a ==> IsA(e, a[k])) && (k in b ==> IsA(e, b[k])) && IsA(e, ZeroOf(e))
    ensures var z, m := ZeroOf(e), Merge(ZeroOf(e), a, b);
            && (k in m <==> k in a || k in b)
            && (if k in m then m[k] else z) == AggScalar(if k in a then a[k] else z, if k in b then b[k] else z)
  {
    hide AggScalar, ZeroOf, IsA;
    ZeroIsUnit(e, ZeroOf(e));
    if k in a {
      ZeroIsUnit(e, a[k]);
    }
    if k in b {
      ZeroIsUnit(e, b[k]);
    }
  }

  lemma SameParts(ty: Ty, a: Value, b: Value)
    requires ty.Stackable() && Typed(ty, a) && Typed(ty, b)
    requires forall p :: PartOf(ty, p, a) == PartOf(ty, p, b) && (Has(p, a) <==> Has(p, b))
    ensures a == b
  {
    if a.One? {
      assert PartOf(ty, Whole, a) == PartOf(ty, Whole, b);
    } else if a.IntMap? {
      forall k
        ensures k in a.im <==> k in b.im
        ensures k in a.im ==> a.im[k] == b.im[k]
      {
        assert Has(IntKey(k), a) <==> Has(IntKey(k), b);
        assert PartOf(ty, IntKey(k), a) == PartOf(ty, IntKey(k), b);
      }
    } else {
      forall s
        ensures s in a.sm <==> s in b.sm
        ensures s in a.sm ==> a.sm[s] == b.sm[s]
      {
        assert Has(StrKey(s), a) <==> Has(StrKey(s), b);
        assert PartOf(ty, StrKey(s), a) == PartOf(ty, StrKey(s), b);
      }
    }
  }

  // Where to look: the part p of slot i of type t.
  datatype Item = Item(t: Ty, i: nat, p: Part)

  function ValueOf(m: Item, x: StageResult): Scalar {
    PartOf(m.t, m.p, At(m.t, x.slots(m.t), m.i))
  }

  function FoldPart(m: Item, a: StageResult, rs: seq<StageResult>): Scalar {
    if rs == [] then ValueOf(m, a) else AggScalar(FoldPart(m, a, rs[..|rs| - 1]), ValueOf(m, rs[|rs| - 1]))
  }

  ghost predicate SomeHas(m: Item, rs: seq<StageResult>) {
    exists j :: 0 <= j < |rs| && Has(m.p, At(m.t, rs[j].slots(m.t), m.i))
  }

  ghost predicate AllTyped(rs: seq<StageResult>) {
    forall j | 0 <= j < |rs| :: TypedSlots(rs[j].slots)
  }

  lemma TypedAt(t: Ty, i: nat, x: StageResult)
    requires t.Stackable() && TypedSlots(x.slots)
    ensures Typed(t, At(t, x.slots(t), i))
  {
    assert TypedVec(t, x.slots(t));
  }

  // Aggregating slots aggregates each of their parts.
  lemma {:induction false} PartsFold(m: Item, a: StageResult, rs: seq<StageResult>)
    requires m.t.Stackable() && TypedSlots(a.slots) && AllTyped(rs)
    ensures Typed(m.t, FoldSlot(m.t, m.i, a, rs))
    ensures PartOf(m.t, m.p, FoldSlot(m.t, m.i, a, rs)) == FoldPart(m, a, rs)
    ensures Has(m.p, FoldSlot(m.t, m.i, a, rs)) <==> Has(m.p, At(m.t, a.slots(m.t), m.i)) || SomeHas(m, rs)
    ensures IsA(ElemTy(m.t), FoldPart(m, a, rs)) && IsA(ElemTy(m.t), ValueOf(m, a))
  {
    hide Typed, TypedSlots, Agg, PartOf, Has, At, IsA;
    TypedAt(m.t, m.i, a);
    PartAgg(m.t, m.p, At(m.t, a.slots(m.t), m.i), At(m.t, a.slots(m.t), m.i));
    if rs != [] {
      var init, last := rs[..|rs| - 1], rs[|rs| - 1];
      PartsFold(m, a, init);
      TypedAt(m.t, m.i, last);
      AggTyped(m.t, FoldSlot(m.t, m.i, a, init), At(m.t, last.slots(m.t), m.i));
      PartAgg(m.t, m.p, FoldSlot(m.t, m.i, a, init), At(m.t, last.slots(m.t), m.i));
      PartAgg(m.t, m.p, FoldSlot(m.t, m.i, a, rs), At(m.t, last.slots(m.t), m.i));
      SomeHasMore(m, init, last);
      assert init + [last] == rs;
    }
  }

  lemma SomeHasMore(m: Item, rs: seq<StageResult>, x: StageResult)
    ensures SomeHas(m, rs + [x]) <==> SomeHas(m, rs) || Has(m.p, At(m.t, x.slots(m.t), m.i))
  {
    var more := rs + [x];
    assert forall j | 0 <= j < |rs| :: more[j] == rs[j];
    assert more[|rs|] == x;
  }

  // ---- Numbers are summed ----

  function Num(v: Scalar): real {
    match v
    case IntV(i) => i as real
    case FloatV(f) => f
    case StrV(_) => 0.0
  }

  function SumOf(m: Item, rs: seq<StageResult>): real {
    if rs == [] then 0.0 else SumOf(m, rs[..|rs| - 1]) + Num(ValueOf(m, rs[|rs| - 1]))
  }

  // Per slot and per key, the sum over the start value and all workers.
  lemma {:induction false} NumbersAdd(m: Item, a: StageResult, rs: seq<StageResult>)
    requires m.t.Stackable() && !ElemTy(m.t).Str? && TypedSlots(a.slots) && AllTyped(rs)
    ensures Num(FoldPart(m, a, rs)) == Num(ValueOf(m, a)) + SumOf(m, rs)
  {
    hide PartOf, TypedSlots, At;
    if rs != [] {
      var init, last := rs[..|rs| - 1], rs[|rs| - 1];
      NumbersAdd(m, a, init);
      PartsFold(m, a, init);
      PartsFold(m, last, []);
    }
  }

  lemma NumInjective(ty: Ty, a: Scalar, b: Scalar)
    requires !ty.Str? && IsA(ty, a) && IsA(ty, b) && Num(a) == Num(b)
    ensures a == b
  {
  }

  lemma {:induction false} SumSplit(m: Item, rs: seq<StageResult>, i: nat)
    requires i < |rs|
    ensures SumOf(m, rs) == SumOf(m, rs[..i] + rs[i + 1..]) + Num(ValueOf(m, rs[i]))
  {
    hide ValueOf;
    var last := |rs| - 1;
    if i == last {
      assert rs[..i] + rs[i + 1..] == rs[..last];
    } else {
      SumSplit(m, rs[..last], i);
      var rest := rs[..i] + rs[i + 1..];
      assert rest[..|rest| - 1] == rs[..last][..i] + rs[..last][i + 1..];
      assert rest[|rest| - 1] == rs[last];
    }
  }

  lemma WithoutOne<T>(s: seq<T>, i: nat)
    requires i < |s|
    ensures multiset(s[..i] + s[i + 1..]) == multiset(s) - multiset{s[i]}
    ensures multiset(s[..i] + s[i + 1..] + [s[i]]) == multiset(s)
  {
    assert s == s[..i] + [s[i]] + s[i + 1..];
  }

  lemma {:induction false} SumPermutes(m: Item, rs: seq<StageResult>, qs: seq<StageResult>)
    requires multiset(rs) == multiset(qs)
    ensures SumOf(m, rs) == SumOf(m, qs)
    decreases |rs|
  {
    hide ValueOf;
    if rs == [] {
      assert |multiset(qs)| == 0;
    } else {
      var last := |rs| - 1;
      var i := FoundAgain(rs, qs, last);
      var init, rest := rs[..last], qs[..i] + qs[i + 1..];
      WithoutOne(rs, last);
      WithoutOne(qs, i);
      assert rs[..last] + rs[last + 1..] == init;
      SumPermutes(m, init, rest);
      SumSplit(m, qs, i);
    }
  }

  // ---- Of strings, the last nonempty one stays ----

  function Text(v: Scalar): string {
    if v.StrV? then v.s else ""
  }

  ghost predicate AllEmpty(m: Item, rs: seq<StageResult>) {
    forall j | 0 <= j < |rs| :: Text(ValueOf(m, rs[j])) == ""
  }

  lemma {:induction false} LastStays(m: Item, a: StageResult, rs: seq<StageResult>) returns (j: nat)
    requires m.t.Stackable() && ElemTy(m.t).Str? && TypedSlots(a.slots) && AllTyped(rs)
    ensures AllEmpty(m, rs) ==> FoldPart(m, a, rs) == ValueOf(m, a)
    ensures !AllEmpty(m, rs) ==>
              && j < |rs| && Text(ValueOf(m, rs[j])) != "" && FoldPart(m, a, rs) == ValueOf(m, rs[j])
              && (forall l | j < l < |rs| :: Text(ValueOf(m, rs[l])) == "")
  {
    hide ValueOf, TypedSlots, Typed, FoldSlot, PartOf, SomeHas, Has, At;
    j := 0;
    if rs != [] {
      var init, last := rs[..|rs| - 1], rs[|rs| - 1];
      j := LastStays(m, a, init);
      PartsFold(m, a, init);
      PartsFold(m, last, []);
      if Text(ValueOf(m, last)) != "" {
        j := |rs| - 1;
      } else {
        assert forall l | 0 <= l < |init| :: init[l] == rs[l];
      }
    }
  }

  // All nonempty strings among these are one and the same.
  ghost predicate OneText(m: Item, rs: seq<StageResult>) {
    forall i, j | 0 <= i < |rs| && 0 <= j < |rs| && Text(ValueOf(m, rs[i])) != "" && Text(ValueOf(m, rs[j])) != "" ::
      Text(ValueOf(m, rs[i])) == Text(ValueOf(m, rs[j]))
  }

  // ---- When the order of arrival shows ----

  // No string slot, and no key of a map of strings, has two workers that disagree.
  ghost predicate OrderFree(rs: seq<StageResult>) {
    forall m: Item {:trigger OneText(m, rs)} | m.t.Stackable() && ElemTy(m.t).Str? :: OneText(m, rs)
  }

  lemma PermutedTyped(rs: seq<StageResult>, qs: seq<StageResult>)
    requires multiset(rs) == multiset(qs) && AllTyped(rs)
    ensures AllTyped(qs)
  {
    forall j | 0 <= j < |qs|
      ensures TypedSlots(qs[j].slots)
    {
      var i := FoundAgain(qs, rs, j);
    }
  }

  lemma FoundAgain<T>(qs: seq<T>, rs: seq<T>, j: nat) returns (i: nat)
    requires multiset(rs) == multiset(qs) && j < |qs|
    ensures i < |rs| && rs[i] == qs[j]
  {
    assert qs[j] in multiset(qs);
    i :| 0 <= i < |rs| && rs[i] == qs[j];
  }

  lemma PermutedHas(m: Item, rs: seq<StageResult>, qs: seq<StageResult>)
    requires multiset(rs) == multiset(qs) && SomeHas(m, rs)
    ensures SomeHas(m, qs)
  {
    var j :| 0 <= j < |rs| && Has(m.p, At(m.t, rs[j].slots(m.t), m.i));
    var i := FoundAgain(rs, qs, j);
  }

  lemma PartPermutes(m: Item, a: StageResult, rs: seq<StageResult>, qs: seq<StageResult>)
    requires multiset(rs) == multiset(qs) && m.t.Stackable() && TypedSlots(a.slots) && AllTyped(rs)
    requires ElemTy(m.t).Str? ==> OneText(m, rs)
    ensures FoldPart(m, a, rs) == FoldPart(m, a, qs)
  {
    hide ValueOf, TypedSlots;
    PermutedTyped(rs, qs);
    PartsFold(m, a, rs);
    PartsFold(m, a, qs);
    if ElemTy(m.t).Str? {
      var i := LastStays(m, a, rs);
      var j := LastStays(m, a, qs);
      if !AllEmpty(m, rs) {
        var k := FoundAgain(rs, qs, i);
        assert !AllEmpty(m, qs);
      }
      if !AllEmpty(m, qs) {
        var k := FoundAgain(qs, rs, j);
        assert Text(ValueOf(m, rs[k])) != "";
        PartsFold(m, rs[i], []);
        PartsFold(m, rs[k], []);
      }
    } else {
      SumPermutes(m, rs, qs);
      NumbersAdd(m, a, rs);
      NumbersAdd(m, a, qs);
      NumInjective(ElemTy(m.t), FoldPart(m, a, rs), FoldPart(m, a, qs));
    }
  }

  lemma SlotPermutes(t: Ty, i: nat, a: StageResult, rs: seq<StageResult>, qs: seq<StageResult>)
    requires multiset(rs) == multiset(qs) && t.Stackable() && TypedSlots(a.slots) && AllTyped(rs)
    requires ElemTy(t).Str? ==> forall p :: OneText(Item(t, i, p), rs)
    ensures FoldSlot(t, i, a, rs) == FoldSlot(t, i, a, qs)
  {
    hide FoldPart, TypedSlots, Typed, OneText, SomeHas;
    PermutedTyped(rs, qs);
    var x, y := FoldSlot(t, i, a, rs), FoldSlot(t, i, a, qs);
    forall p
      ensures PartOf(t, p, x) == PartOf(t, p, y) && (Has(p, x) <==> Has(p, y))
    {
      var m := Item(t, i, p);
      PartPermutes(m, a, rs, qs);
      PartsFold(m, a, rs);
      PartsFold(m, a, qs);
      if SomeHas(m, rs) {
        PermutedHas(m, rs, qs);
      }
      if SomeHas(m, qs) {
        PermutedHas(m, qs, rs);
      }
    }
    PartsFold(Item(t, i, Whole), a, rs);
    PartsFold(Item(t, i, Whole), a, qs);
    SameParts(t, x, y);
  }

  // Moved to the end, a nonempty string is what stays.
  lemma MovedToEnd(m: Item, a: StageResult, rs: seq<StageResult>, j: nat) returns (qs: seq<StageResult>)
    requires m.t.Stackable() && ElemTy(m.t).Str? && TypedSlots(a.slots) && AllTyped(rs)
    requires j < |rs| && Text(ValueOf(m, rs[j])) != ""
    ensures multiset(qs) == multiset(rs) && FoldPart(m, a, qs) == ValueOf(m, rs[j])
  {
    hide ValueOf, TypedSlots;
    qs := rs[..j] + rs[j + 1..] + [rs[j]];
    WithoutOne(rs, j);
    PermutedTyped(rs, qs);
    assert qs[|qs| - 1] == rs[j];
    var l := LastStays(m, a, qs);
  }

  // Every order of the same results, from the same start, leaves the same in every slot.
  ghost predicate SameInAnyOrder(a: StageResult, rs: seq<StageResult>) {
    forall qs, t: Ty, i: nat {:trigger FoldSlot(t, i, a, qs)} | multiset(qs) == multiset(rs) && t.Stackable() ::
      FoldSlot(t, i, a, qs) == FoldSlot(t, i, a, rs)
  }

  // The exact condition, which can be read off the results: strings that meet in a slot, or at a key,
  // agree. Numbers never show the order.
  lemma StringsDependOnOrder(a: StageResult, rs: seq<StageResult>)
    requires TypedSlots(a.slots) && AllTyped(rs)
    ensures SameInAnyOrder(a, rs) <==> OrderFree(rs)
  {
    if OrderFree(rs) {
      forall qs, t: Ty, i: nat | multiset(qs) == multiset(rs) && t.Stackable()
        ensures FoldSlot(t, i, a, qs) == FoldSlot(t, i, a, rs)
      {
        assert ElemTy(t).Str? ==> forall p :: OneText(Item(t, i, p), rs);
        SlotPermutes(t, i, a, rs, qs);
      }
    }
    if SameInAnyOrder(a, rs) {
      forall m: Item | m.t.Stackable() && ElemTy(m.t).Str?
        ensures OneText(m, rs)
      {
        forall i, j | 0 <= i < |rs| && 0 <= j < |rs| && Text(ValueOf(m, rs[i])) != "" && Text(ValueOf(m, rs[j])) != ""
          ensures Text(ValueOf(m, rs[i])) == Text(ValueOf(m, rs[j]))
        {
          EndsAgree(m, a, rs, i, j);
        }
      }
    }
  }

  lemma EndsAgree(m: Item, a: StageResult, rs: seq<StageResult>, i: nat, j: nat)
    requires m.t.Stackable() && ElemTy(m.t).Str? && TypedSlots(a.slots) && AllTyped(rs) && SameInAnyOrder(a, rs)
    requires i < |rs| && j < |rs| && Text(ValueOf(m, rs[i])) != "" && Text(ValueOf(m, rs[j])) != ""
    ensures ValueOf(m, rs[i]) == ValueOf(m, rs[j])
  {
    hide ValueOf, TypedSlots, FoldPart, PartOf, FoldSlot;
    var qi := MovedToEnd(m, a, rs, i);
    var qj := MovedToEnd(m, a, rs, j);
    PermutedTyped(rs, qi);
    PermutedTyped(rs, qj);
    PartsFold(m, a, qi);
    PartsFold(m, a, qj);
    assert FoldSlot(m.t, m.i, a, qi) == FoldSlot(m.t, m.i, a, rs) == FoldSlot(m.t, m.i, a, qj);
  }

  lemma {:induction false} NrSplit(rs: seq<StageResult>, i: nat)
    requires i < |rs|
    ensures SumNr(rs) == SumNr(rs[..i] + rs[i + 1..]) + rs[i].nr
  {
    var last := |rs| - 1;
    if i == last {
      assert rs[..i] + rs[i + 1..] == rs[..last];
    } else {
      NrSplit(rs[..last], i);
      var rest := rs[..i] + rs[i + 1..];
      assert rest[..|rest| - 1] == rs[..last][..i] + rs[..last][i + 1..];
      assert rest[|rest| - 1] == rs[last];
    }
  }

  lemma {:induction false} NrPermutes(rs: seq<StageResult>, qs: seq<StageResult>)
    requires multiset(rs) == multiset(qs)
    ensures SumNr(rs) == SumNr(qs)
    decreases |rs|
  {
    if rs == [] {
      assert |multiset(qs)| == 0;
    } else {
      var last := |rs| - 1;
      var i := FoundAgain(rs, qs, last);
      var init, rest := rs[..last], qs[..i] + qs[i + 1..];
      WithoutOne(rs, last);
      WithoutOne(qs, i);
      assert rs[..last] + rs[last + 1..] == init;
      NrPermutes(init, rest);
      NrSplit(qs, i);
    }
  }

  // Results that arrive in any order leave the same record count, the same slots of numbers and of
  // maps to numbers, and, if strings that meet agree, the same slots altogether.
  lemma ArrivalOrderIrrelevant(a: StageResult, rs: seq<StageResult>, qs: seq<StageResult>, x: StageResult,
                               y: StageResult)
    requires multiset(rs) == multiset(qs) && TypedSlots(a.slots) && AllTyped(rs)
    requires Combined(a, rs, x) && Combined(a, qs, y)
    ensures x.nr == y.nr
    ensures forall t: Ty | t.Stackable() && (ElemTy(t).Str? ==> OrderFree(rs)) :: x.slots(t) == y.slots(t)
  {
    hide FoldSlot, TypedSlots, OneText;
    NrPermutes(rs, qs);
    forall t: Ty | t.Stackable() && (ElemTy(t).Str? ==> OrderFree(rs))
      ensures x.slots(t) == y.slots(t)
    {
      forall i: nat
        ensures At(t, x.slots(t), i) == At(t, y.slots(t), i)
        ensures i < |x.slots(t)| <==> i < |y.slots(t)|
      {
        assert ElemTy(t).Str? ==> forall p :: OneText(Item(t, i, p), rs);
        SlotPermutes(t, i, a, rs, qs);
        assert At(t, x.slots(t), i) == FoldSlot(t, i, a, rs) && At(t, y.slots(t), i) == FoldSlot(t, i, a, qs);
        PermutedLonger(rs, qs, t, i);
        PermutedLonger(qs, rs, t, i);
      }
      SameVec(t, x.slots(t), y.slots(t));
    }
  }

  lemma PermutedLonger(rs: seq<StageResult>, qs: seq<StageResult>, t: Ty, i: nat)
    requires multiset(rs) == multiset(qs)
    ensures SomeLonger(rs, t, i) ==> SomeLonger(qs, t, i)
  {
    if SomeLonger(rs, t, i) {
      var j :| 0 <= j < |rs| && i < |rs[j].slots(t)|;
      var k := FoundAgain(rs, qs, j);
    }
  }

  lemma SameVec(t: Ty, a: seq<Value>, b: seq<Value>)
    requires forall i: nat :: At(t, a, i) == At(t, b, i) && (i < |a| <==> i < |b|)
    ensures a == b
  {
    assert At(t, a, |a|) == At(t, b, |a|) && At(t, a, |b|) == At(t, b, |b|);
    forall i | 0 <= i < |a|
      ensures a[i] == b[i]
    {
      assert At(t, a, i) == At(t, b, i);
    }
  }

  // Two strings in either order.
  lemma TwoStrings(a: string, x: string, y: string)
    ensures AggStr(AggStr(a, x), y) == AggStr(AggStr(a, y), x) <==> x == "" || y == "" || x == y
  {
  }
}
