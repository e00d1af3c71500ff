// src/common.rs: a first-in first-out worklist in which each element waits at most once.
module WorkLists {
  import opened Ir

  class WorkList<T(==)> {
    var members: set<T>
    var mem: seq<T>

    // The set and the queue hold the same elements, the queue each of them once.
    ghost predicate Valid()
      reads this
    {
      && members == (set x | x in mem)
      && (forall i, j | 0 <= i < j < |mem| :: mem[i] != mem[j])
    }

    constructor ()
      ensures Valid() && mem == []
    {
      members, mem := {}, [];
    }

    method Insert(t: T)
      requires Valid()
      modifies this
      ensures Valid()
      ensures mem == if t in old(mem) then old(mem) else old(mem) + [t]
    {
      if t !in members {
        members := members + {t};
        mem := mem + [t];
      }
    }

    // The elements of an unordered set arrive in some order.
    method Extend(ts: set<T>)
      requires Valid()
      modifies this
      ensures Valid() && old(mem) <= mem
      ensures forall x :: x in mem <==> x in old(mem) || x in ts
    {
      var rest := ts;
      while rest != {}
        invariant Valid() && old(mem) <= mem && rest <= ts
        invariant forall x :: x in mem <==> x in old(mem) || (x in ts && x !in rest)
        decreases rest
      {
        var t :| t in rest;
        Insert(t);
        rest := rest - {t};
      }
    }

    method Pop() returns (next: Option<T>)
      requires Valid()
      modifies this
      ensures Valid()
      ensures old(mem) == [] ==> next == None && mem == []
      ensures old(mem) != [] ==>
                next == Some(old(mem)[0]) && mem == old(mem)[1..] && old(mem)[0] !in mem
    {
      if mem == [] {
        return None;
      }
      var t := mem[0];
      next := Some(t);
      members := members - {t};
      mem := mem[1..];
    }
  }
}
