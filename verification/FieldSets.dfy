// src/pushdown.rs: sets of columns in one 64-bit word. Bits 0 to 62 stand for columns, bit 63 is
// reserved for FI, and the full word says yes to every column.
module FieldSets {
  import opened Words
  import opened Lattices

  const ALL: Word := Pow2(64) - 1
  const MAX_INDEX := 62
  const FI_INDEX := 63
  const FI_MASK: nat := Pow2(63) - 1

  predicate Get(x: nat, index: nat) {
    if index > MAX_INDEX then x == ALL else Bit(x, index)
  }

  function Singleton(index: nat): nat {
    if index > MAX_INDEX then ALL else Pow2(index)
  }

  const JUST_FI: nat := Pow2(FI_INDEX)

  predicate HasFi(x: nat) {
    x != ALL && Bit(x, FI_INDEX)
  }

  function Union(x: nat, y: nat): nat {
    Or(x, y)
  }

  // The position of the lowest set bit, from i on; 64 if there is none.
  function LowestFrom(x: nat, i: nat): nat
    decreases 64 - i
  {
    if i >= 64 || Bit(x, i) then i else LowestFrom(x, i + 1)
  }

  // One more than the position of the highest set bit below i; 0 if there is none.
  function HighestBelow(x: nat, i: nat): nat {
    if i == 0 || Bit(x, i - 1) then i else HighestBelow(x, i - 1)
  }

  function TrailingZeros(x: nat): nat {
    LowestFrom(x, 0)
  }

  function LeadingZeros(x: nat): int {
    64 - HighestBelow(x, 64)
  }

  function MinBit(x: nat): nat {
    TrailingZeros(And(FI_MASK, x))
  }

  function MaxBit(x: nat): int {
    64 - LeadingZeros(And(FI_MASK, x))
  }

  lemma {:induction false} LowestIs(x: nat, i: nat)
    requires i <= 64
    ensures i <= LowestFrom(x, i) <= 64 && (LowestFrom(x, i) < 64 ==> Bit(x, LowestFrom(x, i)))
    ensures forall j | i <= j < LowestFrom(x, i) :: !Bit(x, j)
    decreases 64 - i
  {
    if i < 64 && !Bit(x, i) {
      LowestIs(x, i + 1);
    }
  }

  lemma {:induction false} HighestIs(x: nat, i: nat)
    ensures HighestBelow(x, i) <= i && (HighestBelow(x, i) > 0 ==> Bit(x, HighestBelow(x, i) - 1))
    ensures forall j | HighestBelow(x, i) <= j < i :: !Bit(x, j)
  {
    if i > 0 && !Bit(x, i - 1) {
      HighestIs(x, i - 1);
    }
  }

  // The lowest and the highest column of a set, FI left aside.
  lemma Extremes(x: nat)
    ensures 0 <= MinBit(x) <= 64 && 0 <= MaxBit(x) <= 63
    ensures MinBit(x) < 64 ==> MinBit(x) <= MAX_INDEX && Bit(x, MinBit(x))
    ensures MaxBit(x) > 0 ==> Bit(x, MaxBit(x) - 1)
    ensures forall i | 0 <= i <= MAX_INDEX && Bit(x, i) :: MinBit(x) <= i < MaxBit(x)
  {
    hide Bit, And, Pow2;
    var y := And(FI_MASK, x);
    LowestIs(y, 0);
    HighestIs(y, 64);
    forall i: nat
      ensures Bit(y, i) <==> i < 63 && Bit(x, i)
    {
      BitAnd(FI_MASK, x, i);
      Words.BitMask(63, i);
    }
  }

  // c lies between a column of x and a column of rhs.
  ghost predicate InSpan(x: nat, rhs: nat, c: nat) {
    exists a, b :: 0 <= a <= c <= b && Get(x, a) && Get(rhs, b)
  }

  // The words whose bits are those from `left` up to, but not including, `right`.
  lemma RangeBits(left: nat, right: nat, i: nat)
    requires left <= right <= 64
    ensures Bit(Xor(Pow2(right) - 1, Pow2(left) - 1), i) <==> left <= i < right
    ensures Xor(Pow2(right) - 1, Pow2(left) - 1) < Pow2(64)
  {
    hide Bit, Pow2, Xor;
    BitXor(Pow2(right) - 1, Pow2(left) - 1, i);
    Words.BitMask(right, i);
    Words.BitMask(left, i);
    if right < 64 {
      PowMono(right, 64);
    }
    if left < 64 {
      PowMono(left, 64);
    }
    SizeBound(Pow2(right) - 1, Pow2(left) - 1, 64);
  }

  // Between the extremes is in the span, and the other way around.
  lemma SpanIs(x: Word, rhs: Word, c: nat)
    requires rhs != ALL && c <= MAX_INDEX
    ensures InSpan(x, rhs, c) <==> MinBit(x) <= c < MaxBit(rhs)
  {
    Extremes(x);
    Extremes(rhs);
    if InSpan(x, rhs, c) {
      var a, b :| 0 <= a <= c <= b && Get(x, a) && Get(rhs, b);
      assert Bit(x, a) && Bit(rhs, b);
    } else if MinBit(x) <= c < MaxBit(rhs) {
      assert Get(x, MinBit(x)) && Get(rhs, MaxBit(rhs) - 1);
    }
  }

  lemma SpanSmall(x: nat, rhs: nat, c: nat)
    requires rhs != ALL && InSpan(x, rhs, c)
    ensures c <= MAX_INDEX
  {
  }

  // A larger set says yes to at least as much, the full set included.
  lemma GetMono(x: Word, y: Word, c: nat)
    requires Or(y, x) == y && Get(x, c)
    ensures Get(y, c)
  {
    if c > MAX_INDEX {
      OrAll(y);
    } else {
      BitOr(y, x, c);
    }
  }

  lemma OrAll(y: Word)
    ensures Or(y, ALL) == ALL
  {
    hide Or, Bit;
    forall i | 0 <= i < 64
      ensures Bit(Or(y, ALL), i) && Bit(ALL, i)
    {
      BitOr(y, ALL, i);
      Words.BitMask(64, i);
    }
    SizeBound(y, ALL, 64);
    SameBits(Or(y, ALL), ALL, 64);
  }

  lemma SingletonGets(i: nat)
    ensures Get(Singleton(i), i) && Singleton(i) < Pow2(64)
    ensures i <= MAX_INDEX ==> forall c :: Get(Singleton(i), c) ==> c == i
  {
    BitPow2(i, i);
    if i <= MAX_INDEX {
      PowMono(i, 64);
      forall c | Get(Singleton(i), c)
        ensures c == i
      {
        BitPow2(i, c);
        NotAll(i);
      }
    }
  }

  lemma NotAll(i: nat)
    requires i <= MAX_INDEX
    ensures Pow2(i) != ALL
  {
    BitPow2(i, 63);
    Words.BitMask(64, 63);
  }

  // The reserved bit is not a column.
  lemma FiIsNoColumn(c: nat)
    ensures JUST_FI < Pow2(64) && HasFi(JUST_FI) && !Get(JUST_FI, c)
  {
    PowMono(63, 64);
    BitPow2(63, c);
    BitPow2(63, 63);
    BitPow2(63, 0);
    Words.BitMask(64, 0);
  }

  class FieldSet {
    var word: Word

    constructor (w: Word)
      ensures word == w
    {
      word := w;
    }

    method Union(other: Word)
      modifies this
      ensures forall i | 0 <= i < 64 :: Bit(word, i) <==> old(Bit(word, i)) || Bit(other, i)
      ensures forall c | old(Get(word, c)) || Get(other, c) :: Get(word, c)
    {
      ghost var before := word;
      SizeBound(word, other, 64);
      word := Or(word, other);
      forall i | 0 <= i < 64
        ensures Bit(word, i) <==> Bit(before, i) || Bit(other, i)
      {
        BitOr(before, other, i);
      }
      UnionGets(before, other);
    }

    // Everything from the lowest column of this set to the highest of the other is added, and
    // nothing else.
    method Fill(rhs: Word)
      modifies this
      ensures forall c | 0 <= c <= MAX_INDEX ::
                 Get(word, c) <==> old(Get(word, c)) || rhs == ALL || InSpan(old(word), rhs, c)
      ensures forall c | InSpan(old(word), rhs, c) || old(Get(word, c)) :: Get(word, c)
    {
      hide Bit, Or, Xor, Pow2, InSpan, MinBit, MaxBit;
      ghost var before := word;
      if rhs == ALL {
        word := ALL;
        AllGets();
        return;
      }
      var left, right := MinBit(word), MaxBit(rhs);
      Extremes(word);
      Extremes(rhs);
      forall c: nat | c <= MAX_INDEX
        ensures InSpan(word, rhs, c) <==> left <= c < right
      {
        SpanIs(word, rhs, c);
      }
      forall c: nat | InSpan(word, rhs, c)
        ensures 0 <= c <= MAX_INDEX
      {
        SpanSmall(word, rhs, c);
      }
      if left >= right {
        return;
      }
      var rest := if right == 64 then ALL else Pow2(right) - 1;
      var mask := if left == 64 then ALL else Pow2(left) - 1;
      RangeBits(left, right, 0);
      SizeBound(word, Xor(rest, mask), 64);
      word := Or(word, Xor(rest, mask));
      forall c: nat | c < 64
        ensures Bit(word, c) <==> Bit(before, c) || left <= c < right
      {
        BitOr(before, Xor(rest, mask), c);
        RangeBits(left, right, c);
      }
      UnionGets(before, Xor(rest, mask));
    }

    method Set(index: nat)
      modifies this
      ensures Get(word, index) && forall c | old(Get(word, c)) :: Get(word, c)
      ensures index <= MAX_INDEX ==> forall c | 0 <= c <= MAX_INDEX :: Get(word, c) <==> old(Get(word, c)) || c == index
    {
      ghost var before := word;
      SingletonGets(index);
      if index <= MAX_INDEX {
        SizeBound(word, Pow2(index), 64);
        word := Or(word, Pow2(index));
        UnionGets(before, Pow2(index));
        forall c: nat | c <= MAX_INDEX
          ensures Bit(word, c) <==> Bit(before, c) || c == index
        {
          BitOr(before, Pow2(index), c);
          BitPow2(index, c);
        }
      } else {
        word := ALL;
        AllGets();
      }
    }
  }

  lemma AllGets()
    ensures forall c: nat :: Get(ALL, c)
  {
    forall c: nat
      ensures Get(ALL, c)
    {
      Words.BitMask(64, c);
    }
  }

  lemma UnionGets(x: Word, y: Word)
    ensures forall c: nat | Get(x, c) || Get(y, c) :: Get(Or(x, y), c)
  {
    forall c: nat | Get(x, c) || Get(y, c)
      ensures Get(Or(x, y), c)
    {
      if c > MAX_INDEX {
        OrAll(x);
        OrAll(y);
        OrComm(x, y);
      } else {
        BitOr(x, y, c);
      }
    }
  }

  // ---- Column sets are a lattice of height 64 ----

  lemma {:induction false} OrComm(x: nat, y: nat)
    ensures Or(x, y) == Or(y, x)
  {
    if x != 0 || y != 0 {
      OrComm(x / 2, y / 2);
    }
  }

  lemma OrAssoc(x: Word, y: Word, z: Word)
    ensures Or(Or(x, y), z) == Or(x, Or(y, z))
  {
    SizeBound(x, y, 64);
    SizeBound(y, z, 64);
    SizeBound(Or(x, y), z, 64);
    SizeBound(x, Or(y, z), 64);
    forall i | 0 <= i < 64
      ensures Bit(Or(Or(x, y), z), i) <==> Bit(Or(x, Or(y, z)), i)
    {
      BitOr(x, y, i);
      BitOr(y, z, i);
      BitOr(Or(x, y), z, i);
      BitOr(x, Or(y, z), i);
    }
    SameBits(Or(Or(x, y), z), Or(x, Or(y, z)), 64);
  }

  lemma {:induction false} OrSame(x: nat)
    ensures Or(x, x) == x && Or(x, 0) == x
  {
    if x != 0 {
      OrSame(x / 2);
    }
  }

  function CountOnes(x: nat, n: nat): (r: nat)
    ensures r <= n
  {
    if n == 0 then 0 else CountOnes(x, n - 1) + (if Bit(x, n - 1) then 1 else 0)
  }

  lemma {:induction false} MoreOnes(x: nat, y: nat, n: nat)
    requires forall i | 0 <= i < n :: Bit(x, i) ==> Bit(y, i)
    ensures CountOnes(x, n) <= CountOnes(y, n)
    ensures (exists i :: 0 <= i < n && Bit(y, i) && !Bit(x, i)) ==> CountOnes(x, n) < CountOnes(y, n)
  {
    if n > 0 {
      MoreOnes(x, y, n - 1);
    }
  }

  const FIELDS: Lattice<Word> := Lattice(0, (x: Word, y: Word) => Joined(x, y), (x: Word) => CountOnes(x, 64), 64)

  function Joined(x: Word, y: Word): Word {
    SizeBound(x, y, 64);
    Or(x, y)
  }

  // A join that changes the set has more bits.
  lemma JoinRaises(x: Word, y: Word)
    ensures Joined(x, y) != x ==> CountOnes(x, 64) < CountOnes(Joined(x, y), 64)
  {
    hide Or, Bit, CountOnes;
    var j := Joined(x, y);
    forall i | 0 <= i < 64
      ensures Bit(x, i) ==> Bit(j, i)
    {
      BitOr(x, y, i);
    }
    MoreOnes(x, j, 64);
    if forall i | 0 <= i < 64 :: Bit(j, i) ==> Bit(x, i) {
      SameBits(x, j, 64);
    }
  }

  lemma FieldsLawful()
    ensures Lawful(FIELDS)
  {
    hide Or, CountOnes;
    forall x: Word, y: Word
      ensures FIELDS.join(x, y) == FIELDS.join(y, x)
      ensures FIELDS.join(x, y) != x ==> FIELDS.rank(x) < FIELDS.rank(FIELDS.join(x, y))
    {
      OrComm(x, y);
      JoinRaises(x, y);
    }
    forall x: Word, y: Word, z: Word
      ensures FIELDS.join(FIELDS.join(x, y), z) == FIELDS.join(x, FIELDS.join(y, z))
    {
      OrAssoc(x, y, z);
    }
    forall x: Word
      ensures FIELDS.join(x, x) == x && FIELDS.join(x, FIELDS.bottom) == x
    {
      OrSame(x);
    }
  }

  lemma FieldsAre()
    ensures FIELDS.bottom == 0 && forall x: Word, y: Word :: FIELDS.join(x, y) == Or(x, y)
  {
  }
}
