// src/interp.rs: what parallel workers send back is combined slot by slot, in the order of arrival.
// Integers do not overflow here, and floats are real numbers.
module Aggregation {
  import opened Bytecode
  import opened Stages

  // ---- Values, and how two of them are aggregated ----

  datatype Scalar = IntV(i: int) | FloatV(f: real) | StrV(s: string)

  datatype Value = One(v: Scalar) | IntMap(im: map<int, Scalar>) | StrMap(sm: map<string, Scalar>)

  // The type of a map's values.
  function ElemTy(ty: Ty): Ty {
    match ty
    case MapIntInt => Int
    case MapStrInt => Int
    case MapIntFloat => Float
    case MapStrFloat => Float
    case MapIntStr => Str
    case MapStrStr => Str
    case _ => ty
  }

  predicate IntKeyed(ty: Ty) {
    ty.MapIntInt? || ty.MapIntFloat? || ty.MapIntStr?
  }

  predicate IsA(ty: Ty, v: Scalar) {
    match ty
    case Int => v.IntV?
    case Float => v.FloatV?
    case Str => v.StrV?
    case _ => false
  }

  predicate Typed(ty: Ty, v: Value) {
    if !ty.IsArray() then v.One? && IsA(ty, v.v)
    else if IntKeyed(ty) then v.IntMap? && forall k | k in v.im :: IsA(ElemTy(ty), v.im[k])
    else v.StrMap? && forall k | k in v.sm :: IsA(ElemTy(ty), v.sm[k])
  }

  function ZeroOf(ty: Ty): Scalar {
    match ty
    case Int => IntV(0)
    case Float => FloatV(0.0)
    case _ => StrV("")
  }

  function Zero(ty: Ty): Value {
    if !ty.IsArray() then One(ZeroOf(ty)) else if IntKeyed(ty) then IntMap(map[]) else StrMap(map[])
  }

  // Strings are not summed: the later one wins, unless it is empty.
  function AggStr(a: string, b: string): string {
    if b == "" then a else b
  }

  function AggScalar(a: Scalar, b: Scalar): Scalar {
    match (a, b)
    case (IntV(x), IntV(y)) => IntV(x + y)
    case (FloatV(x), FloatV(y)) => FloatV(x + y)
    case (StrV(x), StrV(y)) => StrV(AggStr(x, y))
    case _ => a
  }

  // Keys of both; a key that is missing counts as zero.
  function Merge<K>(z: Scalar, a: map<K, Scalar>, b: map<K, Scalar>): map<K, Scalar> {
    map k | k in a.Keys + b.Keys :: if k in b then AggScalar(if k in a then a[k] else z, b[k]) else a[k]
  }

  function Agg(ty: Ty, a: Value, b: Value): Value {
    match (a, b)
    case (One(x), One(y)) => One(AggScalar(x, y))
    case (IntMap(x), IntMap(y)) => IntMap(Merge(ZeroOf(ElemTy(ty)), x, y))
    case (StrMap(x), StrMap(y)) => StrMap(Merge(ZeroOf(ElemTy(ty)), x, y))
    case _ => a
  }

  // The entries of the other map arrive in some order.
  method AggMap<K(==)>(z: Scalar, a: map<K, Scalar>, b: map<K, Scalar>) returns (r: map<K, Scalar>)
    ensures r == Merge(z, a, b)
  {
    r := a;
    var rest := b.Keys;
    while rest != {}
      invariant rest <= b.Keys && r.Keys == a.Keys + (b.Keys - rest)
      invariant forall k | k in r :: r[k] ==
                  if k in b && k !in rest then AggScalar(if k in a then a[k] else z, b[k]) else a[k]
    {
      var k :| k in rest;
      var entry := if k in r then r[k] else z;
      r := r[k := AggScalar(entry, b[k])];
      rest := rest - {k};
    }
  }

  method AggValue(ty: Ty, a: Value, b: Value) returns (r: Value)
    ensures r == Agg(ty, a, b)
  {
    match (a, b) {
      case (One(x), One(y)) => r := One(AggScalar(x, y));
      case (IntMap(x), IntMap(y)) =>
        var m := AggMap(ZeroOf(ElemTy(ty)), x, y);
        r := IntMap(m);
      case (StrMap(x), StrMap(y)) =>
        var m := AggMap(ZeroOf(ElemTy(ty)), x, y);
        r := StrMap(m);
      case _ => r := a;
    }
  }

  // ---- Slots ----

  type Slots = SlotVals<Value>

  // What a worker sends back.
  datatype StageResult = StageResult(slots: Slots, nr: int)

  function At(ty: Ty, vec: seq<Value>, i: nat): Value {
    if i < |vec| then vec[i] else Zero(ty)
  }

  ghost predicate TypedVec(ty: Ty, vec: seq<Value>) {
    forall i | 0 <= i < |vec| :: Typed(ty, vec[i])
  }

  ghost predicate TypedSlots(slots: Slots) {
    forall t: Ty | t.Stackable() :: TypedVec(t, slots(t))
  }

  function Max(a: nat, b: nat): nat {
    if a >= b then a else b
  }

  ghost predicate IsSum(ty: Ty, a: seq<Value>, b: seq<Value>, r: seq<Value>) {
    && |r| == Max(|a|, |b|)
    && (forall i: nat :: At(ty, r, i) == Agg(ty, At(ty, a, i), At(ty, b, i)))
  }

  lemma AggTyped(ty: Ty, a: Value, b: Value)
    requires ty.Stackable() && Typed(ty, a) && Typed(ty, b)
    ensures Typed(ty, Agg(ty, a, b)) && Agg(ty, a, Zero(ty)) == a && Typed(ty, Zero(ty))
  {
    if a.IntMap? {
      assert Merge(ZeroOf(ElemTy(ty)), a.im, map[]) == a.im;
    } else if a.StrMap? {
      assert Merge(ZeroOf(ElemTy(ty)), a.sm, map[]) == a.sm;
    }
  }

  lemma ZeroTyped(ty: Ty)
    requires ty.Stackable()
    ensures Typed(ty, Zero(ty))
  {
  }

  // Slots are filled up to the longer of the two and aggregated in place.
  method CombineVec(ty: Ty, a: seq<Value>, b: seq<Value>) returns (r: seq<Value>)
    requires ty.Stackable() && TypedVec(ty, a) && TypedVec(ty, b)
    ensures IsSum(ty, a, b, r) && TypedVec(ty, r)
  {
    hide Typed, Agg, Zero;
    ZeroTyped(ty);
    r := a + seq(Max(|a|, |b|) - |a|, _ => Zero(ty));
    var i := 0;
    while i < |b|
      invariant 0 <= i <= |b| <= |r| == Max(|a|, |b|)
      invariant forall k | 0 <= k < |r| :: r[k] == if k < i then Agg(ty, At(ty, a, k), b[k]) else At(ty, a, k)
    {
      var v := AggValue(ty, r[i], b[i]);
      r := r[i := v];
      i := i + 1;
    }
    forall k: nat
      ensures At(ty, r, k) == Agg(ty, At(ty, a, k), At(ty, b, k)) && Typed(ty, At(ty, r, k))
    {
      AggTyped(ty, At(ty, a, k), At(ty, b, k));
      AggTyped(ty, At(ty, a, k), Zero(ty));
    }
    forall k | 0 <= k < |r|
      ensures Typed(ty, r[k])
    {
      assert At(ty, r, k) == r[k];
    }
  }

  const SLOT_TYPES: seq<Ty> :=
    [Int, Float, Str, MapIntInt, MapIntFloat, MapIntStr, MapStrInt, MapStrFloat, MapStrStr]

  lemma AllSlotTypes(t: Ty)
    ensures t.Stackable() <==> t in SLOT_TYPES
  {
    match t
    case Int => assert SLOT_TYPES[0] == t;
    case Float => assert SLOT_TYPES[1] == t;
    case Str => assert SLOT_TYPES[2] == t;
    case MapIntInt => assert SLOT_TYPES[3] == t;
    case MapIntFloat => assert SLOT_TYPES[4] == t;
    case MapIntStr => assert SLOT_TYPES[5] == t;
    case MapStrInt => assert SLOT_TYPES[6] == t;
    case MapStrFloat => assert SLOT_TYPES[7] == t;
    case MapStrStr => assert SLOT_TYPES[8] == t;
    case _ =>
  }

  class Core {
    var slots: Slots
    var nr: int

    constructor (start: StageResult)
      ensures Now() == start
    {
      slots, nr := start.slots, start.nr;
    }

    function Now(): StageResult
      reads this
    {
      StageResult(slots, nr)
    }

    method Combine(other: StageResult)
      requires TypedSlots(slots) && TypedSlots(other.slots)
      modifies this
      ensures Added(old(Now()), other, Now()) && TypedSlots(slots)
    {
      hide IsSum, TypedVec, CombinedUpTo, SLOT_TYPES;
      ghost var before := slots;
      NoneCombined(before, other.slots);
      var k := 0;
      while k < |SLOT_TYPES|
        invariant 0 <= k <= |SLOT_TYPES| && nr == old(nr) && CombinedUpTo(before, other.slots, slots, k)
      {
        var t := SLOT_TYPES[k];
        assert t in SLOT_TYPES;
        AllSlotTypes(t);
        NotYetCombined(before, other.slots, slots, k);
        var vec := CombineVec(t, slots(t), other.slots(t));
        OneMoreCombined(before, other.slots, slots, k, vec);
        slots := PutVec(slots, t, vec);
        k := k + 1;
      }
      nr := nr + other.nr;
      AllCombined(before, other.slots, slots);
    }

    // Results are received one after another.
    method CombineAll(arrivals: seq<StageResult>)
      requires TypedSlots(slots) && forall j | 0 <= j < |arrivals| :: TypedSlots(arrivals[j].slots)
      modifies this
      ensures Combined(old(Now()), arrivals, Now()) && TypedSlots(slots)
    {
      hide Added, TypedSlots, Combined;
      var i := 0;
      CombinedNone(Now());
      assert arrivals[..0] == [];
      while i < |arrivals|
        invariant 0 <= i <= |arrivals| && Combined(old(Now()), arrivals[..i], Now()) && TypedSlots(slots)
      {
        ghost var before := Now();
        Combine(arrivals[i]);
        CombinedMore(old(Now()), arrivals[..i], arrivals[i], before, Now());
        assert arrivals[..i + 1] == arrivals[..i] + [arrivals[i]];
        i := i + 1;
      }
      assert arrivals[..|arrivals|] == arrivals;
    }
  }

  lemma SlotTypesDiffer(k: nat)
    requires k < |SLOT_TYPES|
    ensures SLOT_TYPES[k] !in SLOT_TYPES[..k]
  {
  }

  // The slots of the first k types have been combined.
  ghost predicate CombinedUpTo(a: Slots, b: Slots, r: Slots, k: nat)
    requires k <= |SLOT_TYPES|
  {
    && (forall t | t in SLOT_TYPES[..k] :: IsSum(t, a(t), b(t), r(t)) && TypedVec(t, r(t)))
    && (forall t | t !in SLOT_TYPES[..k] :: r(t) == a(t))
  }

  lemma NoneCombined(a: Slots, b: Slots)
    ensures CombinedUpTo(a, b, a, 0)
  {
  }

  lemma NotYetCombined(a: Slots, b: Slots, r: Slots, k: nat)
    requires k < |SLOT_TYPES| && CombinedUpTo(a, b, r, k)
    ensures r(SLOT_TYPES[k]) == a(SLOT_TYPES[k])
  {
    SlotTypesDiffer(k);
  }

  lemma OneMoreCombined(a: Slots, b: Slots, r: Slots, k: nat, vec: seq<Value>)
    requires k < |SLOT_TYPES| && CombinedUpTo(a, b, r, k)
    requires var t := SLOT_TYPES[k]; IsSum(t, a(t), b(t), vec) && TypedVec(t, vec)
    ensures CombinedUpTo(a, b, PutVec(r, SLOT_TYPES[k], vec), k + 1)
  {
    hide IsSum, TypedVec;
    SlotTypesDiffer(k);
    assert SLOT_TYPES[..k + 1] == SLOT_TYPES[..k] + [SLOT_TYPES[k]];
  }

  lemma AllCombined(a: Slots, b: Slots, r: Slots)
    requires CombinedUpTo(a, b, r, |SLOT_TYPES|)
    ensures forall t: Ty | t.Stackable() :: IsSum(t, a(t), b(t), r(t)) && TypedVec(t, r(t))
  {
    hide IsSum, TypedVec;
    assert SLOT_TYPES[..|SLOT_TYPES|] == SLOT_TYPES;
    forall t: Ty | t.Stackable()
      ensures t in SLOT_TYPES
    {
      AllSlotTypes(t);
    }
  }

  // r is a with b added, slot by slot.
  ghost predicate Added(a: StageResult, b: StageResult, r: StageResult) {
    && r.nr == a.nr + b.nr
    && (forall t: Ty | t.Stackable() :: IsSum(t, a.slots(t), b.slots(t), r.slots(t)))
  }

  // One slot, over the start value and all arrivals.
  function FoldSlot(t: Ty, i: nat, a: StageResult, rs: seq<StageResult>): Value {
    if rs == [] then At(t, a.slots(t), i)
    else Agg(t, FoldSlot(t, i, a, rs[..|rs| - 1]), At(t, rs[|rs| - 1].slots(t), i))
  }

  function SumNr(rs: seq<StageResult>): int {
    if rs == [] then 0 else SumNr(rs[..|rs| - 1]) + rs[|rs| - 1].nr
  }

  ghost predicate SomeLonger(rs: seq<StageResult>, t: Ty, i: nat) {
    exists j :: 0 <= j < |rs| && i < |rs[j].slots(t)|
  }

  // Every slot holds the aggregate of what all parties have in it, and there are as many slots as the longest has.
  ghost predicate Combined(a: StageResult, rs: seq<StageResult>, r: StageResult) {
    && r.nr == a.nr + SumNr(rs)
    && (forall t: Ty, i: nat {:trigger FoldSlot(t, i, a, rs)} {:trigger At(t, r.slots(t), i)} | t.Stackable() ::
          && At(t, r.slots(t), i) == FoldSlot(t, i, a, rs)
          && (i < |r.slots(t)| <==> i < |a.slots(t)| || SomeLonger(rs, t, i)))
  }

  lemma CombinedNone(a: StageResult)
    ensures Combined(a, [], a)
  {
    forall t: Ty, i: nat | t.Stackable()
      ensures FoldSlot(t, i, a, []) == At(t, a.slots(t), i) && !SomeLonger([], t, i)
    {
    }
  }

  lemma CombinedMore(a: StageResult, rs: seq<StageResult>, x: StageResult, mid: StageResult, r: StageResult)
    requires Combined(a, rs, mid) && Added(mid, x, r)
    ensures Combined(a, rs + [x], r)
  {
    var more := rs + [x];
    assert more[..|more| - 1] == rs;
    forall t: Ty, i: nat | t.Stackable()
      ensures At(t, r.slots(t), i) == FoldSlot(t, i, a, more)
      ensures i < |r.slots(t)| <==> i < |a.slots(t)| || SomeLonger(more, t, i)
    {
      assert IsSum(t, mid.slots(t), x.slots(t), r.slots(t));
      assert At(t, mid.slots(t), i) == FoldSlot(t, i, a, rs);
      LongerMore(rs, x, t, i);
    }
  }

  lemma LongerMore(rs: seq<StageResult>, x: StageResult, t: Ty, i: nat)
    ensures SomeLonger(rs + [x], t, i) <==> SomeLonger(rs, t, i) || i < |x.slots(t)|
  {
    var more := rs + [x];
    assert forall j | 0 <= j < |rs| :: more[j] == rs[j];
    assert more[|rs|] == x;
  }
}
