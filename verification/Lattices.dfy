// Join semilattices of finite height, as src/dataflow.rs uses them.
module Lattices {

  // `rank` counts the steps up to an element; it exists for the finite lattices in use.
  datatype Lattice<!J> = Lattice(bottom: J, join: (J, J) -> J, rank: J -> nat, height: nat)

  ghost predicate Lawful<J(!new)>(l: Lattice<J>) {
    && (forall a, b :: l.join(a, b) == l.join(b, a))
    && (forall a, b, c :: l.join(l.join(a, b), c) == l.join(a, l.join(b, c)))
    && (forall a :: l.join(a, a) == a)
    && (forall a :: l.join(a, l.bottom) == a)
    && (forall a :: l.rank(a) <= l.height)
    && (forall a, b :: l.join(a, b) != a ==> l.rank(a) < l.rank(l.join(a, b)))
  }

  ghost predicate Leq<J>(l: Lattice<J>, a: J, b: J) {
    l.join(b, a) == b
  }

  lemma LeqRefl<J(!new)>(l: Lattice<J>, a: J)
    requires Lawful(l)
    ensures Leq(l, a, a) && Leq(l, l.bottom, a)
  {
  }

  lemma LeqTrans<J(!new)>(l: Lattice<J>, a: J, b: J, c: J)
    requires Lawful(l) && Leq(l, a, b) && Leq(l, b, c)
    ensures Leq(l, a, c)
  {
    assert l.join(l.join(c, b), a) == l.join(c, l.join(b, a));
  }

  lemma LeqAntisym<J(!new)>(l: Lattice<J>, a: J, b: J)
    requires Lawful(l) && Leq(l, a, b) && Leq(l, b, a)
    ensures a == b
  {
    assert l.join(a, b) == l.join(b, a);
  }

  // The join is the least upper bound.
  lemma JoinIsLub<J(!new)>(l: Lattice<J>, a: J, b: J, c: J)
    requires Lawful(l)
    ensures Leq(l, a, l.join(a, b)) && Leq(l, b, l.join(a, b))
    ensures Leq(l, l.join(a, b), c) <==> Leq(l, a, c) && Leq(l, b, c)
  {
    var j := l.join(a, b);
    assert l.join(l.join(b, a), a) == l.join(b, l.join(a, a));
    assert l.join(l.join(a, b), b) == l.join(a, l.join(b, b));
    assert l.join(l.join(c, a), b) == l.join(c, j);
    if Leq(l, j, c) {
      LeqTrans(l, a, j, c);
      LeqTrans(l, b, j, c);
    }
  }
}
