// The version stacks of src/cfg.rs `rename`.
module VersionStacks {
  import opened Ir
  import opened Renaming

  datatype RenameStack = RenameStack(global: bool, count: nat, stack: seq<nat>) {
    predicate Valid() {
      global || |stack| > 0
    }
    // The version a use of the name refers to; globals are not renamed.
    function Latest(): nat
      requires Valid()
    {
      if global then 0 else stack[|stack| - 1]
    }
    function Pushed(): RenameStack {
      if global then this else RenameStack(global, count + 1, stack + [count + 1])
    }
    function Popped(): RenameStack
      requires Valid()
    {
      if global then this else RenameStack(global, count, stack[..|stack| - 1])
    }
  }

  ghost predicate AllValid(stacks: seq<RenameStack>) {
    forall l | 0 <= l < |stacks| :: stacks[l].Valid()
  }

  function VersOf(stacks: seq<RenameStack>): (v: Vers)
    requires AllValid(stacks)
    ensures |v| == |stacks| && forall l | 0 <= l < |stacks| :: v[l] == stacks[l].Latest()
  {
    seq(|stacks|, l requires 0 <= l < |stacks| => stacks[l].Latest())
  }

  function GlobsOf(stacks: seq<RenameStack>): (g: seq<bool>)
    ensures |g| == |stacks| && forall l | 0 <= l < |stacks| :: g[l] == stacks[l].global
  {
    seq(|stacks|, l requires 0 <= l < |stacks| => stacks[l].global)
  }

  function CountsOf(stacks: seq<RenameStack>): (c: seq<nat>)
    ensures |c| == |stacks| && forall l | 0 <= l < |stacks| :: c[l] == stacks[l].count
  {
    seq(|stacks|, l requires 0 <= l < |stacks| => stacks[l].count)
  }

  // s1 is s0 with m[l] more versions on the stack of each local l.
  ghost predicate Extends(s0: seq<RenameStack>, s1: seq<RenameStack>, m: multiset<nat>) {
    && |s0| == |s1|
    && (forall l | 0 <= l < |s0| ::
          && s1[l].global == s0[l].global && s0[l].count <= s1[l].count
          && s0[l].stack <= s1[l].stack
          && (s0[l].global ==> s1[l] == s0[l])
          && (!s0[l].global ==> |s1[l].stack| == |s0[l].stack| + m[l]))
  }

  // Every stack is back to its contents; only the counters may have moved on.
  ghost predicate Restored(s0: seq<RenameStack>, s1: seq<RenameStack>) {
    Extends(s0, s1, multiset{})
  }

  lemma RestoredVers(s0: seq<RenameStack>, s1: seq<RenameStack>)
    requires Restored(s0, s1) && AllValid(s0)
    ensures AllValid(s1) && VersOf(s1) == VersOf(s0) && GlobsOf(s1) == GlobsOf(s0)
    ensures NoLess(CountsOf(s0), CountsOf(s1))
  {
    forall l | 0 <= l < |s0|
      ensures s1[l].stack == s0[l].stack
    {
    }
  }

  lemma StartExtends(s: seq<RenameStack>)
    ensures Extends(s, s, multiset([])) && Restored(s, s)
  {
  }

  lemma ExtendsValid(s0: seq<RenameStack>, s1: seq<RenameStack>, m: multiset<nat>)
    requires Extends(s0, s1, m) && AllValid(s0)
    ensures AllValid(s1) && |s1| == |s0| && GlobsOf(s1) == GlobsOf(s0)
  {
  }

  lemma ExtendsTrans(s0: seq<RenameStack>, s1: seq<RenameStack>, s2: seq<RenameStack>, m: multiset<nat>)
    requires Extends(s0, s1, m) && Restored(s1, s2)
    ensures Extends(s0, s2, m)
  {
  }

  lemma PushExtends(s0: seq<RenameStack>, s1: seq<RenameStack>, defs: seq<nat>, low: nat)
    requires Extends(s0, s1, multiset(defs)) && low < |s0|
    ensures Extends(s0, s1[low := s1[low].Pushed()], multiset(defs + [low]))
  {
    assert multiset(defs + [low]) == multiset(defs) + multiset{low};
  }

  // One statement pushes the version it defines, if it defines one.
  lemma PushesExtend(s0: seq<RenameStack>, s1: seq<RenameStack>, s2: seq<RenameStack>, defs: seq<nat>, ds: seq<nat>)
    requires Extends(s0, s1, multiset(defs)) && |ds| <= 1
    requires ds == [] ==> s2 == s1
    requires ds != [] ==> ds[0] < |s1| && s2 == s1[ds[0] := s1[ds[0]].Pushed()]
    ensures Extends(s0, s2, multiset(defs + ds))
  {
    if ds == [] {
      assert defs + ds == defs;
    } else {
      PushExtends(s0, s1, defs, ds[0]);
      assert ds == [ds[0]];
    }
  }

  lemma PopExtends(s0: seq<RenameStack>, s1: seq<RenameStack>, defs: seq<nat>)
    requires Extends(s0, s1, multiset(defs)) && defs != [] && defs[0] < |s0| && AllValid(s0)
    ensures AllValid(s1)
    ensures Extends(s0, s1[defs[0] := s1[defs[0]].Popped()], multiset(defs[1..]))
  {
    assert defs == [defs[0]] + defs[1..];
    assert multiset(defs) == multiset{defs[0]} + multiset(defs[1..]);
  }

  // One statement rewritten: its uses first, then, for an assignment, a fresh version.
  lemma RewriteOk(s: PrimStmt, t: PrimStmt, before: seq<RenameStack>, after: seq<RenameStack>, r: PrimStmt)
    requires UntouchedStmt(s, t) && AllValid(before) && AllValid(after)
    requires t.AsgnVar? ==> t.id.low < |before| && after == before[t.id.low := before[t.id.low].Pushed()]
    requires t.Do? ==> after == before
    requires r == var u := RenameUses(t, VersOf(before));
                  if u.AsgnVar? then u.(id := u.id.(sub := after[u.id.low].Latest())) else u
    ensures StepOk(GlobsOf(before), s, r, VersOf(before), VersOf(after))
    ensures GlobsOf(after) == GlobsOf(before)
  {
    if t.AsgnVar? {
      var low := t.id.low;
      if before[low].global {
        assert after == before;
      } else {
        assert VersOf(after) == VersOf(before)[low := before[low].count + 1];
      }
    }
  }

  class RenameState {
    var stacks: seq<RenameStack>

    ghost predicate Valid()
      reads this
    {
      AllValid(stacks)
    }

    // One stack per name, holding version 0.
    constructor (max: nat)
      ensures Valid() && |stacks| == max
      ensures forall l | 0 <= l < max :: stacks[l] == RenameStack(false, 0, [0])
    {
      stacks := seq(max, _ => RenameStack(false, 0, [0]));
    }

    // Globals get no versions.
    method MarkGlobal(low: nat)
      requires Valid() && low < |stacks|
      modifies this
      ensures Valid() && stacks == old(stacks)[low := old(stacks)[low].(global := true)]
    {
      stacks := stacks[low := stacks[low].(global := true)];
    }

    method GetNext(low: nat) returns (next: nat)
      requires Valid() && low < |stacks|
      modifies this
      ensures Valid() && stacks == old(stacks)[low := old(stacks)[low].Pushed()]
      ensures next == if stacks[low].global then 0 else old(stacks)[low].count + 1
      ensures next == stacks[low].Latest()
    {
      stacks := stacks[low := stacks[low].Pushed()];
      next := stacks[low].Latest();
    }

    method Pop(low: nat)
      requires Valid() && low < |stacks|
      modifies this
      ensures stacks == old(stacks)[low := old(stacks)[low].Popped()]
    {
      stacks := stacks[low := stacks[low].Popped()];
    }
  }
}
