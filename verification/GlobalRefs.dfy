// src/compile.rs `get_global_refs`: the globals a function refers to, itself or through calls.
module GlobalRefs {
  import opened Graphs
  import opened WorkLists
  import opened Bytecode
  import opened Frames
  import opened Dataflow
  import opened Typers

  // The registers an instruction mentions; a phi mentions its arguments in the predecessors.
  function Accum(i: FInst): seq<Reg> {
    match i
    case Left(ll) => LLRegs(ll)
    case CallUdf(_, dst, args) => [dst] + args
    case RetVal(r) => [r]
    case PhiReg(dst, _) => [dst]
    case DropIter(r) => [r]
  }

  function LLRegs(ll: LL): seq<Reg> {
    match ll
    case Op(_, dsts, srcs) => dsts + srcs
    case AllocMap(reg) => [reg]
    case Mov(dst, src) => [dst, Reg(dst.ty, src)]
    case JmpIf(cond, _) => [Reg(Int, cond)]
    case Jmp(_) => []
    case Push(r) => [r]
    case Pop(r) => [r]
    case Call(_) => []
    case Ret => []
  }

  ghost predicate Mentions(f: Frame, r: Reg) {
    exists b, i :: 0 <= b < |f.nodes| && 0 <= i < |f.nodes[b]| && r in Accum(f.nodes[b][i])
  }

  ghost predicate DirectGlobal(f: Frame, status: Reg -> RegStatus, r: Reg) {
    Mentions(f, r) && r.ix != UNUSED && status(r) == Global
  }

  // The closure: what some function that i reaches in the call graph mentions.
  ghost predicate UsedGlobal(cg: Graph, frames: seq<Frame>, status: Reg -> RegStatus, i: nat, r: Reg) {
    exists j: nat :: j < |frames| && Reachable(cg, i, j) && DirectGlobal(frames[j], status, r)
  }

  // Functions are called along edges from caller to callee.
  class CallGraph {
    const frames: seq<Frame>
    const status: Reg -> RegStatus
    const cg: Graph
    var weights: seq<set<Reg>>

    ghost predicate Valid()
      reads this
    {
      cg.Valid() && cg.n == |frames| == |weights|
    }

    constructor (fs: seq<Frame>, st: Reg -> RegStatus, g: Graph)
      requires g.Valid() && g.n == |fs|
      ensures Valid() && frames == fs && status == st && cg == g && forall i | 0 <= i < |weights| :: weights[i] == {}
    {
      frames, status, cg := fs, st, g;
      weights := seq(|fs|, _ => {});
    }

    // Everything found so far is really used.
    ghost predicate Sound()
      requires Valid()
      reads this
    {
      forall i, r | 0 <= i < |weights| && r in weights[i] :: UsedGlobal(cg, frames, status, i, r)
    }

    // First, what each function mentions itself.
    method AccumDirect()
      requires Valid() && forall i | 0 <= i < |weights| :: weights[i] == {}
      modifies this
      ensures Valid() && forall i | 0 <= i < |weights| :: forall r ::
                 r in weights[i] <==> DirectGlobal(frames[i], status, r)
    {
      var i := 0;
      while i < |frames|
        invariant 0 <= i <= |frames| && Valid()
        invariant forall j | 0 <= j < i :: forall r :: r in weights[j] <==> DirectGlobal(frames[j], status, r)
        invariant forall j | i <= j < |weights| :: weights[j] == {}
      {
        AccumFrame(i);
        i := i + 1;
      }
    }

    method AccumFrame(i: nat)
      requires Valid() && i < |frames| && weights[i] == {}
      modifies this
      ensures Valid() && (forall j | 0 <= j < |weights| && j != i :: weights[j] == old(weights)[j])
      ensures forall r :: r in weights[i] <==> DirectGlobal(frames[i], status, r)
    {
      hide Accum, MentionedUpTo, Mentions;
      var f := frames[i];
      NothingMentioned(f);
      var b := 0;
      while b < |f.nodes|
        invariant 0 <= b <= |f.nodes| && Valid() && (forall j | 0 <= j < |weights| && j != i ::
                   weights[j] == old(weights)[j])
        invariant forall r :: r in weights[i] <==> r.ix != UNUSED && status(r) == Global && MentionedUpTo(f, b, 0, r)
      {
        var k := 0;
        while k < |f.nodes[b]|
          invariant 0 <= k <= |f.nodes[b]| && Valid() && (forall j | 0 <= j < |weights| && j != i ::
                     weights[j] == old(weights)[j])
          invariant forall r :: r in weights[i] <==> r.ix != UNUSED && status(r) == Global && MentionedUpTo(f, b, k, r)
        {
          var rs := Accum(f.nodes[b][k]);
          MentionedMore(f, b, k);
          weights := weights[i := weights[i] + (set r | r in rs && r.ix != UNUSED && status(r) == Global)];
          k := k + 1;
        }
        MentionedNode(f, b);
        b := b + 1;
      }
      MentionedAll(f);
    }

    // ... and what each function mentions itself has been found.
    ghost predicate HasDirect()
      requires Valid()
      reads this
    {
      forall i, r | 0 <= i < |weights| && DirectGlobal(frames[i], status, r) :: r in weights[i]
    }

    // Callers have what a function that is not waiting has.
    ghost predicate Inherited(waiting: seq<nat>)
      requires Valid()
      reads this
    {
      forall c: nat, f: nat | cg.HasEdge(c, f) && f !in waiting && c != f :: weights[f] <= weights[c]
    }

    ghost predicate Fine(wl: WorkList<nat>, frame: nat, all: set<Reg>)
      reads this, wl
    {
      && Valid() && Sound() && HasDirect() && Within(weights, all)
      && wl.Valid() && (forall x | x in wl.mem :: x < |weights|) && Inherited(wl.mem + [frame])
    }

    // A caller inherits the globals of a callee; if it gains some, it has to wait again.
    method Give(caller: nat, frame: nat, wl: WorkList<nat>, ghost all: set<Reg>)
      requires Fine(wl, frame, all) && frame < |weights| && caller < |weights| && caller != frame
      requires cg.HasEdge(caller, frame)
      modifies this, wl
      ensures Fine(wl, frame, all) && |weights| == |old(weights)|
      ensures weights == old(weights)[caller := old(weights)[caller] + old(weights)[frame]]
      ensures forall x | x in old(wl.mem) :: x in wl.mem
      ensures Missing(weights, all) < Missing(old(weights), all) || (weights == old(weights) && wl.mem == old(wl.mem))
    {
      hide UsedGlobal, DirectGlobal, Missing;
      var added := !(weights[frame] <= weights[caller]);
      weights := weights[caller := weights[caller] + weights[frame]];
      SoundStep(old(weights), caller, frame);
      if added {
        MissingDrops(old(weights), caller, weights[caller], all);
        wl.Insert(caller);
      } else {
        assert old(weights)[caller] + old(weights)[frame] == old(weights)[caller];
        assert weights == old(weights);
      }
    }

    method Inherit(frame: nat, wl: WorkList<nat>, ghost all: set<Reg>)
      requires Fine(wl, frame, all) && frame < |weights|
      modifies this, wl
      ensures Fine(wl, frame, all) && Inherited(wl.mem) && |weights| == |old(weights)|
      ensures Missing(weights, all) < Missing(old(weights), all) || (weights == old(weights) && wl.mem == old(wl.mem))
    {
      hide Sound, HasDirect, Missing, Within;
      var callers := cg.Preds(frame);
      var k := 0;
      while k < |callers|
        invariant 0 <= k <= |callers| && Fine(wl, frame, all) && |weights| == |old(weights)|
        invariant forall j | 0 <= j < k && callers[j] != frame ::
                    callers[j] < |weights| && weights[frame] <= weights[callers[j]]
        invariant Missing(weights, all) < Missing(old(weights), all) ||
                  (weights == old(weights) && wl.mem == old(wl.mem))
      {
        var caller := callers[k];
        assert caller in callers && cg.HasEdge(caller, frame);
        if caller != frame {
          Give(caller, frame, wl, all);
        }
        k := k + 1;
      }
      assert forall c: nat | cg.HasEdge(c, frame) :: c in callers;
    }

    lemma SoundStep(before: seq<set<Reg>>, caller: nat, frame: nat)
      requires Valid() && |before| == |weights| && caller < |weights| && frame < |weights| && cg.HasEdge(caller, frame)
      requires forall i, r | 0 <= i < |before| && r in before[i] :: UsedGlobal(cg, frames, status, i, r)
      requires weights == before[caller := before[caller] + before[frame]]
      ensures Sound()
    {
      forall r | r in before[frame]
        ensures UsedGlobal(cg, frames, status, caller, r)
      {
        var j: nat :| j < |frames| && Reachable(cg, frame, j) && DirectGlobal(frames[j], status, r);
        ReachStep(cg, caller, frame, j);
      }
    }

    // The least fixpoint: exactly the globals of all functions reached.
    method GetGlobalRefs() returns (globals: seq<set<Reg>>)
      requires Valid() && forall i | 0 <= i < |weights| :: weights[i] == {}
      modifies this
      ensures Valid() && globals == weights
      ensures forall i: nat, r | i < |globals| :: r in globals[i] <==> UsedGlobal(cg, frames, status, i, r)
    {
      hide Sound, HasDirect, UsedGlobal, DirectGlobal, Within, Union, Missing;
      AccumDirect();
      DirectIsUsed();
      ghost var all := Union(weights);
      UnionIs(weights);
      var wl := new WorkList<nat>();
      var i := 0;
      while i < |frames|
        invariant 0 <= i <= |frames| && wl.Valid() && fresh(wl)
        invariant forall x: nat :: x in wl.mem <==> x < i
        modifies wl
      {
        wl.Insert(i);
        i := i + 1;
      }
      var more := true;
      while more
        invariant Valid() && Sound() && HasDirect() && Within(weights, all)
        invariant wl.Valid() && fresh(wl) && (forall x | x in wl.mem :: x < |weights|) && Inherited(wl.mem)
        invariant !more ==> wl.mem == []
        decreases Missing(weights, all), |wl.mem|, more
      {
        ghost var waiting := wl.mem;
        var next := wl.Pop();
        if next.None? {
          more := false;
        } else {
          assert waiting == [next.value] + wl.mem;
          assert next.value in waiting && forall x | x in wl.mem :: x in waiting;
          StillInherited(waiting, wl.mem + [next.value]);
          Inherit(next.value, wl, all);
        }
      }
      Closed();
      globals := weights;
    }

    lemma StillInherited(waiting: seq<nat>, more: seq<nat>)
      requires Valid() && Inherited(waiting) && forall x | x in waiting :: x in more
      ensures Inherited(more)
    {
    }

    lemma DirectIsUsed()
      requires Valid() && forall i | 0 <= i < |weights| :: forall r ::
                 r in weights[i] <==> DirectGlobal(frames[i], status, r)
      ensures Sound() && HasDirect()
    {
      forall i: nat | i < |weights|
        ensures Reachable(cg, i, i)
      {
        ReachSelf(cg, i);
      }
    }

    lemma Closed()
      requires Valid() && Sound() && HasDirect() && Inherited([])
      ensures forall i: nat, r | i < |weights| :: r in weights[i] <==> UsedGlobal(cg, frames, status, i, r)
    {
      forall i: nat, r | i < |weights| && UsedGlobal(cg, frames, status, i, r)
        ensures r in weights[i]
      {
        var j: nat :| j < |frames| && Reachable(cg, i, j) && DirectGlobal(frames[j], status, r);
        var p :| PathBetween(cg, p, i, j);
        AlongPath(p, i, j);
      }
    }

    lemma {:induction false} AlongPath(p: seq<nat>, i: nat, j: nat)
      requires Valid() && Inherited([]) && PathBetween(cg, p, i, j)
      ensures weights[j] <= weights[i]
      decreases |p|
    {
      if |p| > 1 {
        assert cg.HasEdge(p[0], p[1]);
        assert PathBetween(cg, p[1..], p[1], j);
        AlongPath(p[1..], p[1], j);
      }
    }
  }

  // ---- Termination: sets only grow within what is mentioned at all ----

  function Union(ws: seq<set<Reg>>): set<Reg> {
    if ws == [] then {} else Union(ws[..|ws| - 1]) + ws[|ws| - 1]
  }

  lemma {:induction false} UnionIs(ws: seq<set<Reg>>)
    ensures Within(ws, Union(ws))
  {
    if ws != [] {
      UnionIs(ws[..|ws| - 1]);
      forall i | 0 <= i < |ws|
        ensures ws[i] <= Union(ws)
      {
        assert i < |ws| - 1 ==> ws[..|ws| - 1][i] == ws[i];
      }
    }
  }

  ghost predicate Within(ws: seq<set<Reg>>, all: set<Reg>) {
    forall i | 0 <= i < |ws| :: ws[i] <= all
  }

  ghost function Missing(ws: seq<set<Reg>>, all: set<Reg>): nat {
    if ws == [] then 0 else Missing(ws[..|ws| - 1], all) + |all - ws[|ws| - 1]|
  }

  lemma {:induction false} MissingDrops(ws: seq<set<Reg>>, i: nat, s: set<Reg>, all: set<Reg>)
    requires i < |ws| && ws[i] < s <= all
    ensures Missing(ws[i := s], all) < Missing(ws, all)
  {
    var last := |ws| - 1;
    if i == last {
      assert ws[i := s][..last] == ws[..last];
      FewerMissing(ws[i], s, all);
    } else {
      assert ws[i := s][..last] == ws[..last][i := s] && ws[i := s][last] == ws[last];
      MissingDrops(ws[..last], i, s, all);
    }
  }

  lemma FewerMissing(a: set<Reg>, b: set<Reg>, all: set<Reg>)
    requires a < b <= all
    ensures |all - b| < |all - a|
  {
    var x :| x in b && x !in a;
    assert x in all - a && x !in all - b;
    SubsetLess(all - b, all - a);
  }

  lemma SubsetLess<T>(a: set<T>, b: set<T>)
    requires a < b
    ensures |a| < |b|
  {
    assert b == a + (b - a) && |b - a| > 0;
  }

  // Mentioned before instruction k of node b.
  ghost predicate MentionedUpTo(f: Frame, b: nat, k: nat, r: Reg) {
    exists x, i :: 0 <= x < |f.nodes| && 0 <= i < |f.nodes[x]| && (x < b || (x == b && i < k)) &&
                   r in Accum(f.nodes[x][i])
  }

  lemma NothingMentioned(f: Frame)
    ensures forall r :: !MentionedUpTo(f, 0, 0, r)
  {
  }

  lemma MentionedMore(f: Frame, b: nat, k: nat)
    requires b < |f.nodes| && k < |f.nodes[b]|
    ensures forall r :: MentionedUpTo(f, b, k + 1, r) <==> MentionedUpTo(f, b, k, r) || r in Accum(f.nodes[b][k])
  {
    hide Accum;
  }

  lemma MentionedNode(f: Frame, b: nat)
    requires b < |f.nodes|
    ensures forall r :: MentionedUpTo(f, b + 1, 0, r) <==> MentionedUpTo(f, b, |f.nodes[b]|, r)
  {
    hide Accum;
  }

  lemma MentionedAll(f: Frame)
    ensures forall r :: MentionedUpTo(f, |f.nodes|, 0, r) <==> Mentions(f, r)
  {
    hide Accum;
  }
}
