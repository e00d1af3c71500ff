// src/cfg.rs: the conversion of one function's control-flow graph to SSA form.
module Cfg {
  import opened Graphs
  import opened Ir
  import opened PhiPlacement
  import opened Renaming
  import opened VersionStacks
  import opened WorkLists
  import opened Dominance
  import opened DomTables
  import DomInfos = Dom
  import LinkedForest
  import opened SsaForm

  ghost predicate EdgesInRange(n: nat, edges: seq<Edge>) {
    forall e | 0 <= e < |edges| :: edges[e].src < n && edges[e].dst < n
  }

  lemma GraphEdges(g: Graph, r: nat, n: nat, edges: seq<Edge>)
    requires g == GraphOf(n, edges) && FlowGraph(g, r)
    ensures g.n == n && EdgesInRange(n, edges)
  {
    forall e | 0 <= e < |edges|
      ensures edges[e].src < n && edges[e].dst < n
    {
      HasEdgeAt(n, edges, e);
    }
  }

  lemma FrontierRange(g: Graph, r: nat, df: seq<set<nat>>)
    requires FrontsUpTo(g, r, df, g.n)
    ensures |df| == g.n && forall x | 0 <= x < |df| :: forall b <- df[x] :: b < g.n
  {
  }

  // Nothing but block c has changed.
  ghost predicate OnlyBlock(a: seq<seq<PrimStmt>>, b: seq<seq<PrimStmt>>, c: nat) {
    c < |a| == |b| && b == a[c := b[c]]
  }

  // From statement i on.
  ghost predicate StillOld(was: seq<PrimStmt>, now: seq<PrimStmt>, i: nat) {
    i <= |was| == |now| && now[i..] == was[i..]
  }

  lemma NothingPut(a: seq<seq<PrimStmt>>, c: nat)
    requires c < |a|
    ensures OnlyBlock(a, a, c) && StillOld(a[c], a[c], 0)
  {
  }

  lemma NextIsOld(was: seq<PrimStmt>, now: seq<PrimStmt>, i: nat)
    requires StillOld(was, now, i) && i < |was|
    ensures i < |now| && now[i] == was[i]
  {
    assert now[i..][0] == was[i..][0];
  }

  lemma StmtPut(a: seq<seq<PrimStmt>>, b: seq<seq<PrimStmt>>, c: nat, was: seq<PrimStmt>, i: nat, s: PrimStmt)
    requires OnlyBlock(a, b, c) && c < |b| && StillOld(was, b[c], i) && i < |b[c]|
    ensures var b' := b[c := b[c][i := s]];
            OnlyBlock(a, b', c) && b'[c] == b[c][i := s] && StillOld(was, b'[c], i + 1)
  {
    var now := b[c][i := s];
    assert now[i + 1..] == b[c][i..][1..] && was[i + 1..] == was[i..][1..];
  }

  lemma OnlyBlockIs(a: seq<seq<PrimStmt>>, b: seq<seq<PrimStmt>>, c: nat)
    requires OnlyBlock(a, b, c)
    ensures |b| == |a| && b == a[c := b[c]]
  {
  }

  // Phis mention promoted names only.
  lemma PhiLows(g: Graph, phis: map<Ident, set<nat>>, pre: seq<seq<PrimStmt>>, blocks: seq<seq<PrimStmt>>,
                base: seq<seq<PrimStmt>>, edges: seq<Edge>, max: nat, promoted: seq<Ident>)
    requires Placed(g, phis, pre, blocks, base) && LowsBelow(blocks, edges, max)
    requires forall id <- promoted :: id.low < max
    requires forall id | id !in promoted :: PlacedFor(phis, id) == {}
    ensures LowsBelow(base, edges, max)
  {
    forall b, i | 0 <= b < |base| && 0 <= i < |base[b]| && base[b][i].AsgnVar?
      ensures base[b][i].id.low < max
      ensures base[b][i].IsPhi() ==>
                forall k | 0 <= k < |base[b][i].e.preds| :: base[b][i].e.preds[k].1.low < max
    {
      assert BlockHolds(phis, b, pre[b], g.Preds(b), blocks[b], base[b]);
      if i < |pre[b]| {
        assert base[b][i] == pre[b][i] == FreshPhi(pre[b][i].id, g.Preds(b));
        assert HasPhi(pre[b], pre[b][i].id);
      } else {
        assert base[b][i] == blocks[b][i - |pre[b]|];
      }
    }
  }

  // The first i statements of a block are renamed along the trace, the others are as they were.
  ghost predicate RenamedUpTo(globs: seq<bool>, base: seq<PrimStmt>, was: seq<PrimStmt>, now: seq<PrimStmt>, i: nat,
                              tr: seq<Vers>) {
    && |base| == |was| == |now| && i <= |now| && |tr| == i + 1 && now[i..] == was[i..]
    && (forall j | 0 <= j < i :: StepOk(globs, base[j], now[j], tr[j], tr[j + 1]))
    && (forall j | 0 <= j < i && now[j].IsPhi() :: was[j].IsPhi() && now[j].e == was[j].e)
  }

  lemma NoneRenamed(globs: seq<bool>, base: seq<PrimStmt>, was: seq<PrimStmt>, tr: seq<Vers>)
    requires |base| == |was| && |tr| == 1
    ensures RenamedUpTo(globs, base, was, was, 0, tr)
  {
  }

  lemma RenamedOneMore(globs: seq<bool>, base: seq<PrimStmt>, was: seq<PrimStmt>, now: seq<PrimStmt>, i: nat,
                       tr: seq<Vers>, t: PrimStmt, vers: Vers)
    requires i < |now| && RenamedUpTo(globs, base, was, now, i, tr) && StepOk(globs, base[i], t, tr[i], vers)
    requires t.IsPhi() ==> was[i].IsPhi() && t.e == was[i].e
    ensures RenamedUpTo(globs, base, was, now[i := t], i + 1, tr + [vers])
  {
    hide StepOk;
    var now1, tr1 := now[i := t], tr + [vers];
    assert now1[i + 1..] == was[i + 1..] by {
      assert now1[i + 1..] == now[i..][1..] && was[i + 1..] == was[i..][1..];
    }
    forall j | 0 <= j < i + 1
      ensures StepOk(globs, base[j], now1[j], tr1[j], tr1[j + 1])
    {
      assert tr1[j] == tr[j];
    }
  }

  lemma RenamedAll(globs: seq<bool>, base: seq<PrimStmt>, was: seq<PrimStmt>, now: seq<PrimStmt>, tr: seq<Vers>)
    requires RenamedUpTo(globs, base, was, now, |now|, tr) && |tr[0]| == |globs|
    ensures BlockOk(globs, base, now, tr) && |now| == |was|
    ensures forall i | 0 <= i < |now| && now[i].IsPhi() :: was[i].IsPhi() && now[i].e == was[i].e
  {
    hide StepOk;
    forall i | 0 <= i < |now|
      ensures StepOk(globs, base[i], now[i], tr[i], tr[i + 1])
    {
    }
  }

  // What has been sent: everything sent before, and the first k of these edges.
  ghost predicate SentThrough(before: set<nat>, sent: set<nat>, outs: seq<nat>, k: nat)
    requires k <= |outs|
  {
    forall e: nat :: e in sent <==> e in before || e in outs[..k]
  }

  lemma NoneSent(before: set<nat>, outs: seq<nat>)
    ensures SentThrough(before, before, outs, 0)
  {
  }

  lemma SendsNext(before: set<nat>, sent: set<nat>, outs: seq<nat>, k: nat)
    requires k < |outs| && SentThrough(before, sent, outs, k)
    ensures SentThrough(before, sent + {outs[k]}, outs, k + 1)
  {
    assert outs[..k + 1] == outs[..k] + [outs[k]];
  }

  lemma AllSent(before: set<nat>, sent: set<nat>, outs: seq<nat>)
    requires SentThrough(before, sent, outs, |outs|)
    ensures forall e: nat :: e in sent <==> e in before || e in outs
  {
    assert outs[..|outs|] == outs;
  }

  // x lies below one of these nodes in the dominator tree.
  ghost predicate BelowOneOf(g: Graph, r: nat, cs: seq<nat>, x: nat) {
    exists j :: 0 <= j < |cs| && Dom(g, r, cs[j], x)
  }

  lemma NextChildFresh(g: Graph, r: nat, idom: seq<nat>, cs: seq<nat>, cur: nat, k: nat)
    requires FlowGraph(g, r) && IsIdomTable(g, r, idom) && cur < g.n && k < |cs|
    requires forall i, j | 0 <= i < j < |cs| :: cs[i] != cs[j]
    requires forall c | c in cs :: c < g.n && c != r && idom[c] == cur
    ensures forall x: nat | x < g.n && Dom(g, r, cs[k], x) ::
               Dom(g, r, cur, x) && x != cur && !BelowOneOf(g, r, cs[..k], x)
    ensures forall x: nat :: BelowOneOf(g, r, cs[..k + 1], x) <==> BelowOneOf(g, r, cs[..k], x) || Dom(g, r, cs[k], x)
  {
    var c := cs[k];
    assert c in cs;
    ChildBelow(g, r, idom, cur, c);
    forall x: nat | x < g.n && Dom(g, r, c, x)
      ensures Dom(g, r, cur, x) && x != cur && !BelowOneOf(g, r, cs[..k], x)
    {
      DomTrans(g, r, cur, c, x);
      forall j | 0 <= j < k
        ensures !Dom(g, r, cs[..k][j], x)
      {
        assert cs[j] in cs;
        ChildrenApart(g, r, idom, cur, c, cs[j], x);
      }
    }
    forall x: nat
      ensures BelowOneOf(g, r, cs[..k + 1], x) <==> BelowOneOf(g, r, cs[..k], x) || Dom(g, r, c, x)
    {
      if BelowOneOf(g, r, cs[..k + 1], x) {
        var j :| 0 <= j < k + 1 && Dom(g, r, cs[..k + 1][j], x);
        if j < k {
          assert cs[..k][j] == cs[j];
        }
      }
      if BelowOneOf(g, r, cs[..k], x) {
        var j :| 0 <= j < k && Dom(g, r, cs[..k][j], x);
        assert cs[..k + 1][j] == cs[j];
      }
      assert cs[..k + 1][k] == c;
    }
  }

  // The node and what lies below its children make up its subtree.
  lemma SubtreeIs(g: Graph, r: nat, idom: seq<nat>, cs: seq<nat>, cur: nat, x: nat)
    requires FlowGraph(g, r) && IsIdomTable(g, r, idom) && cur < g.n && x < g.n
    requires forall c | c in cs :: c < g.n && c != r && idom[c] == cur
    requires forall c: nat | c < g.n && c != r && idom[c] == cur :: c in cs
    ensures Dom(g, r, cur, x) <==> x == cur || BelowOneOf(g, r, cs, x)
  {
    DomRefl(g, r, cur);
    if Dom(g, r, cur, x) && x != cur {
      var c := ChildToward(g, r, idom, cur, x);
      var j :| 0 <= j < |cs| && cs[j] == c;
    }
    if BelowOneOf(g, r, cs, x) {
      var j :| 0 <= j < |cs| && Dom(g, r, cs[j], x);
      assert cs[j] in cs;
      ChildBelow(g, r, idom, cur, cs[j]);
      DomTrans(g, r, cur, cs[j], x);
    }
  }

  class View {
    const entry: nat
    // the function's control-flow graph
    var blocks: seq<seq<PrimStmt>>
    var edges: seq<Edge>
    // dominator tree and dominance frontiers
    var dt: seq<seq<nat>>
    var df: seq<set<nat>>
    // which blocks assign to which identifier
    var defsites: map<Ident, set<nat>>
    // shared between functions
    var hm: seq<Ident>
    var mayRename: seq<Ident>
    var localGlobals: set<nat>
    var max: nat
    // renaming: the graph before it, and the version maps in front of each statement
    ghost var work: Work
    ghost var idom: seq<nat>

    function G(): Graph
      reads this
    {
      GraphOf(|blocks|, edges)
    }

    // The identifiers that get phis.
    predicate Promoted(id: Ident)
      reads this
    {
      id in mayRename && !id.IsGlobal(localGlobals) && id in defsites
    }

    // Phi insertion: every promoted identifier gets phis in exactly its iterated dominance frontier.
    method InsertPhis() returns (phis: map<Ident, set<nat>>, ghost pre: seq<seq<PrimStmt>>)
      requires FrontiersInRange(|blocks|, df, defsites)
      modifies this`blocks
      ensures |blocks| == |old(blocks)| && Placed(G(), phis, pre, old(blocks), blocks)
      ensures forall id | id in mayRename && id in defsites && (!id.global || id.low in localGlobals) ::
                IsIteratedFrontier(df, defsites[id], PlacedFor(phis, id))
      ensures forall id | id !in mayRename || id !in defsites || (id.global && id.low !in localGlobals) ::
                PlacedFor(phis, id) == {}
    {
      hide Placed, FrontiersInRange, Closed;
      phis := map[];
      pre := seq(|blocks|, _ => []);
      NothingPlaced(G(), pre, blocks);
      var k := 0;
      while k < |mayRename|
        invariant 0 <= k <= |mayRename|
        invariant |blocks| == |old(blocks)|
        invariant FrontiersInRange(|blocks|, df, defsites) && Placed(G(), phis, pre, old(blocks), blocks)
        invariant forall id | Promoted(id) && id in mayRename[..k] ::
                    IsIteratedFrontier(df, defsites[id], PlacedFor(phis, id))
        invariant forall id | !Promoted(id) || id !in mayRename[..k] :: PlacedFor(phis, id) == {}
      {
        var id := mayRename[k];
        if !id.IsGlobal(localGlobals) && id in defsites {
          StartPoint(df, defsites[id], PlacedFor(phis, id));
          phis, pre := PlacePhis(id, phis, pre, old(blocks));
        }
        k := k + 1;
      }
    }

    // Phis for `id` at the dominance frontier of one node; new sites join the worklist.
    method PlaceFrontier(id: Ident, node: nat, phis0: map<Ident, set<nat>>, ghost pre0: seq<seq<PrimStmt>>,
                         ghost base: seq<seq<PrimStmt>>, worklist: WorkList<nat>)
      returns (phis: map<Ident, set<nat>>, ghost pre: seq<seq<PrimStmt>>)
      requires FrontiersInRange(|blocks|, df, defsites) && Promoted(id) && Placed(G(), phis0, pre0, base, blocks)
      requires worklist.Valid() && node < |df| && (node in defsites[id] || node in PlacedFor(phis0, id))
      requires forall x <- df[node] :: x < |blocks|
      requires Queued(|blocks|, defsites[id], PlacedFor(phis0, id), worklist.mem)
      requires Pending(df, defsites[id], PlacedFor(phis0, id), worklist.mem + [node])
      requires Frugal(df, defsites[id], PlacedFor(phis0, id)) && PlacedFor(phis0, id) <= Below(|blocks|)
      modifies this`blocks, worklist
      ensures Placed(G(), phis, pre, base, blocks) && |blocks| == |old(blocks)| && worklist.Valid()
      ensures df[node] <= PlacedFor(phis, id) && PlacedFor(phis0, id) <= PlacedFor(phis, id) <= Below(|blocks|)
      ensures Queued(|blocks|, defsites[id], PlacedFor(phis, id), worklist.mem)
      ensures Pending(df, defsites[id], PlacedFor(phis, id), worklist.mem + [node])
      ensures Frugal(df, defsites[id], PlacedFor(phis, id))
      ensures forall other | other != id :: PlacedFor(phis, other) == PlacedFor(phis0, other)
      ensures PlacedFor(phis0, id) == PlacedFor(phis, id) ==> worklist.mem == old(worklist.mem)
    {
      hide Placed, FrontiersInRange, Frugal, Pending, Queued, PlacedFor;
      phis, pre := phis0, pre0;
      var sites := defsites[id];
      var rest := df[node];
      while rest != {}
        invariant Placed(G(), phis, pre, base, blocks) && |blocks| == |old(blocks)| && worklist.Valid()
        invariant node in sites || node in PlacedFor(phis, id)
        invariant rest <= df[node] && df[node] - rest <= PlacedFor(phis, id)
        invariant Queued(|blocks|, sites, PlacedFor(phis, id), worklist.mem)
        invariant Pending(df, sites, PlacedFor(phis, id), worklist.mem + [node])
        invariant Frugal(df, sites, PlacedFor(phis, id))
        invariant forall other | other != id :: PlacedFor(phis, other) == PlacedFor(phis0, other)
        invariant PlacedFor(phis0, id) <= PlacedFor(phis, id) <= Below(|blocks|)
        invariant PlacedFor(phis0, id) == PlacedFor(phis, id) ==> worklist.mem == old(worklist.mem)
        decreases rest
      {
        var d :| d in rest;
        rest := rest - {d};
        if d !in PlacedFor(phis, id) {
          ghost var placed := PlacedFor(phis, id);
          FrugalStep(df, sites, placed, node, d);
          PlaceAt(G(), phis, pre, base, blocks, d, id);
          blocks := blocks[d := [FreshPhi(id, G().Preds(d))] + blocks[d]];
          pre := pre[d := [FreshPhi(id, G().Preds(d))] + pre[d]];
          PlacedAdd(phis, id, d);
          phis := phis[id := PlacedFor(phis, id) + {d}];
          ghost var queue1 := worklist.mem;
          if d !in sites {
            worklist.Insert(d);
          }
          PendingStep(|blocks|, df, sites, placed, queue1, worklist.mem, node, d);
        }
      }
    }

    // Drains the worklist of blocks that assign to `id`, by statement or by phi.
    method PlacePhis(id: Ident, phis0: map<Ident, set<nat>>, ghost pre0: seq<seq<PrimStmt>>,
                     ghost base: seq<seq<PrimStmt>>)
      returns (phis: map<Ident, set<nat>>, ghost pre: seq<seq<PrimStmt>>)
      requires FrontiersInRange(|blocks|, df, defsites) && Promoted(id) && Placed(G(), phis0, pre0, base, blocks)
      requires Frugal(df, defsites[id], PlacedFor(phis0, id))
      requires SelfClosed(df, PlacedFor(phis0, id))
      modifies this`blocks
      ensures Placed(G(), phis, pre, base, blocks) && |blocks| == |old(blocks)|
      ensures IsIteratedFrontier(df, defsites[id], PlacedFor(phis, id))
      ensures forall other | other != id :: PlacedFor(phis, other) == PlacedFor(phis0, other)
    {
      hide Placed, FrontiersInRange, Frugal, Pending, Queued, PlacedFor;
      phis, pre := phis0, pre0;
      var sites := defsites[id];
      var worklist := new WorkList<nat>();
      worklist.Extend(sites);
      RangeOfSites(|blocks|, df, defsites, id);
      BoundOf(G(), phis, pre, base, blocks, id);
      PendingStart(|blocks|, df, sites, PlacedFor(phis, id), worklist.mem);
      while worklist.mem != []
        invariant FrontiersInRange(|blocks|, df, defsites) && Placed(G(), phis, pre, base, blocks)
        invariant |blocks| == |old(blocks)|
        invariant worklist.Valid() && fresh(worklist)
        invariant Queued(|blocks|, sites, PlacedFor(phis, id), worklist.mem)
        invariant Pending(df, sites, PlacedFor(phis, id), worklist.mem)
        invariant Frugal(df, sites, PlacedFor(phis, id))
        invariant forall other | other != id :: PlacedFor(phis, other) == PlacedFor(phis0, other)
        invariant PlacedFor(phis, id) <= Below(|blocks|)
        decreases Below(|blocks|) - PlacedFor(phis, id), |worklist.mem|
      {
        ghost var before := PlacedFor(phis, id);
        ghost var queue0 := worklist.mem;
        var next := worklist.Pop();
        var node: nat := next.value;
        ghost var queue := worklist.mem;
        assert queue0 == [node] + queue;
        PendingPop(|blocks|, df, sites, PlacedFor(phis, id), node, queue);
        RangeOfFrontier(|blocks|, df, defsites, node);
        phis, pre := PlaceFrontier(id, node, phis, pre, base, worklist);
        PendingDone(df, sites, PlacedFor(phis, id), worklist.mem, node);
      }
      Drained(df, sites, PlacedFor(phis, id));
    }

    // ---- Renaming ----

    // `work` mirrors the graph; everything in it agrees with the version stacks.
    ghost predicate Renames(state: RenameState)
      reads this, state
    {
      && work.blocks == blocks && work.edges == edges
      && Shaped(work) && WorkOk(work) && FlowsDown(entry, idom, work.trace) && SentByRenamed(work)
      && state.Valid() && work.globs == GlobsOf(state.stacks) && FreshOk(work, CountsOf(state.stacks))
    }

    // One statement: its uses take the latest versions, its definition a fresh one.
    method RenameStmt(ghost base: PrimStmt, t: PrimStmt, state: RenameState) returns (r: PrimStmt, ds: seq<nat>)
      requires state.Valid() && UntouchedStmt(base, t) && (t.AsgnVar? ==> t.id.low < |state.stacks|)
      modifies state
      ensures state.Valid() && GlobsOf(state.stacks) == GlobsOf(old(state.stacks))
      ensures StepOk(GlobsOf(state.stacks), base, r, VersOf(old(state.stacks)), VersOf(state.stacks))
      ensures ds == if t.AsgnVar? then [t.id.low] else []
      ensures state.stacks == if t.AsgnVar? then old(state.stacks)[t.id.low := old(state.stacks)[t.id.low].Pushed()]
                              else old(state.stacks)
      ensures r.IsPhi() ==> t.IsPhi() && r.e == t.e
      ensures NoLess(CountsOf(old(state.stacks)), CountsOf(state.stacks))
      ensures r.AsgnVar? ==> r.id.low < |state.stacks|
      ensures r.AsgnVar? && !GlobsOf(state.stacks)[r.id.low] ==>
                r.id.sub == CountsOf(old(state.stacks))[r.id.low] + 1 == CountsOf(state.stacks)[r.id.low]
    {
      hide StepOk;
      r, ds := RenameUses(t, VersOf(state.stacks)), [];
      if r.AsgnVar? {
        var low := r.id.low;
        var sub := state.GetNext(low);
        r := r.(id := r.id.(sub := sub));
        ds := [low];
      }
      RewriteOk(base, t, old(state.stacks), state.stacks, r);
    }

    // One block from top to bottom: each statement reads the versions on top of the stacks, then pushes its own.
    method RenameStmts(cur: nat, state: RenameState) returns (defs: seq<nat>, ghost tr: seq<Vers>)
      requires cur < |blocks| && |work.base| == |blocks| && Untouched(work.base[cur], blocks[cur])
      requires state.Valid() && work.globs == GlobsOf(state.stacks)
      requires forall i | 0 <= i < |blocks[cur]| && blocks[cur][i].AsgnVar? :: blocks[cur][i].id.low < |state.stacks|
      modifies this`blocks, state
      ensures |blocks| == |old(blocks)| && blocks == old(blocks)[cur := blocks[cur]]
      ensures BlockOk(work.globs, work.base[cur], blocks[cur], tr)
      ensures |blocks[cur]| == |old(blocks)[cur]|
      ensures forall i | 0 <= i < |blocks[cur]| && blocks[cur][i].IsPhi() ::
                old(blocks)[cur][i].IsPhi() && blocks[cur][i].e == old(blocks)[cur][i].e
      ensures state.Valid() && Extends(old(state.stacks), state.stacks, multiset(defs))
      ensures forall d <- defs :: d < |state.stacks|
      ensures tr != [] && tr[0] == VersOf(old(state.stacks)) && Out(tr) == VersOf(state.stacks)
      ensures FreshBlock(work.globs, blocks[cur], |blocks[cur]|, CountsOf(old(state.stacks)), CountsOf(state.stacks))
    {
      hide StepOk, Extends, FreshBlock, VersOf, CountsOf, GlobsOf, RenamedUpTo, OnlyBlock, StillOld;
      ghost var was, stacks0 := blocks[cur], state.stacks;
      NothingFresh(work.globs, was, CountsOf(stacks0));
      StartExtends(stacks0);
      defs, tr := [], [VersOf(stacks0)];
      NoneRenamed(work.globs, work.base[cur], was, tr);
      NothingPut(blocks, cur);
      var i := 0;
      while i < |blocks[cur]|
        invariant |blocks| == |old(blocks)| && OnlyBlock(old(blocks), blocks, cur)
        invariant 0 <= i <= |blocks[cur]| == |was| && StillOld(was, blocks[cur], i)
        invariant RenamedUpTo(work.globs, work.base[cur], was, blocks[cur], i, tr)
        invariant state.Valid() && |state.stacks| == |stacks0| && work.globs == GlobsOf(state.stacks)
        invariant |tr| == i + 1 && tr[0] == VersOf(stacks0) && tr[i] == VersOf(state.stacks)
        invariant Extends(stacks0, state.stacks, multiset(defs))
        invariant forall d <- defs :: d < |state.stacks|
        invariant FreshBlock(work.globs, blocks[cur], i, CountsOf(stacks0), CountsOf(state.stacks))
        decreases |blocks[cur]| - i
      {
        ghost var stacks := state.stacks;
        NextIsOld(was, blocks[cur], i);
        var stmt, ds := RenameStmt(work.base[cur][i], blocks[cur][i], state);
        PushesExtend(stacks0, stacks, state.stacks, defs, ds);
        FreshBlockStep(work.globs, blocks[cur], i, CountsOf(stacks0), CountsOf(stacks), stmt, CountsOf(state.stacks));
        RenamedOneMore(work.globs, work.base[cur], was, blocks[cur], i, tr, stmt, VersOf(state.stacks));
        StmtPut(old(blocks), blocks, cur, was, i, stmt);
        defs := defs + ds;
        blocks := blocks[cur := blocks[cur][i := stmt]];
        tr := tr + [VersOf(state.stacks)];
        i := i + 1;
      }
      OnlyBlockIs(old(blocks), blocks, cur);
      RenamedAll(work.globs, work.base[cur], was, blocks[cur], tr);
    }

    // Point the phi arguments of successor `neigh` back at the versions current at the end of `cur`.
    method PatchPhis(cur: nat, neigh: nat, state: RenameState)
      requires neigh < |blocks| && state.Valid()
      requires forall i | 0 <= i < |blocks[neigh]| && blocks[neigh][i].IsPhi() ::
                 forall k | 0 <= k < |blocks[neigh][i].e.preds| :: blocks[neigh][i].e.preds[k].1.low < |state.stacks|
      modifies this`blocks
      ensures blocks == old(blocks)[neigh := PatchBlock(old(blocks)[neigh], cur, VersOf(state.stacks))]
    {
      ghost var vers := VersOf(state.stacks);
      ghost var stmts := blocks[neigh];
      var i := 0;
      while i < |blocks[neigh]|
        invariant |blocks| == |old(blocks)| && blocks == old(blocks)[neigh := blocks[neigh]]
        invariant 0 <= i <= |blocks[neigh]| == |stmts|
        invariant forall j | 0 <= j < |stmts| ::
                    blocks[neigh][j] == if j < i then PatchStmt(stmts[j], cur, vers) else stmts[j]
        decreases |blocks[neigh]| - i
      {
        var stmt := blocks[neigh][i];
        if stmt.IsPhi() {
          var ps := stmt.e.preds;
          var k := 0;
          while k < |ps| && ps[k].0 != cur
            invariant 0 <= k <= |ps|
            invariant forall j | 0 <= j < k :: ps[j].0 != cur
          {
            k := k + 1;
          }
          PatchArgsFound(ps, cur, vers, k);
          if k < |ps| {
            var id := ps[k].1;
            ps := ps[k := (ps[k].0, id.(sub := state.stacks[id.low].Latest()))];
          }
          blocks := blocks[neigh := blocks[neigh][i := AsgnVar(stmt.id, Phi(ps))]];
        }
        i := i + 1;
      }
      assert blocks[neigh] == PatchBlock(stmts, cur, vers);
    }

    method RenameCond(e: nat, state: RenameState)
      requires e < |edges| && state.Valid()
      requires edges[e].cond.Some? && edges[e].cond.value.Var? ==> edges[e].cond.value.id.low < |state.stacks|
      modifies this`edges
      ensures edges == old(edges)[e := RenameEdge(old(edges)[e], VersOf(state.stacks))]
    {
      var cond := edges[e].cond;
      if cond.Some? && cond.value.Var? {
        var id := cond.value.id;
        edges := edges[e := edges[e].(cond := Some(Var(id.(sub := state.stacks[id.low].Latest()))))];
      }
    }

    // One outgoing edge: its condition, and the phi arguments at its end.
    method RenameOut(cur: nat, e: nat, state: RenameState)
      requires cur < |blocks| && work.blocks == blocks && work.edges == edges && WorkOk(work)
      requires Shaped(work) && e < |edges| && work.baseEdges[e].src == cur
      requires work.trace[cur] != [] && state.Valid() && Out(work.trace[cur]) == VersOf(state.stacks)
      requires LowsBelow(work.base, work.baseEdges, |state.stacks|)
      requires FreshOk(work, CountsOf(state.stacks))
      modifies this`blocks, this`edges, this`work
      ensures work.blocks == blocks && work.edges == edges && WorkOk(work) && Shaped(work)
      ensures work == old(work).(blocks := work.blocks, edges := work.edges, sent := old(work).sent + {e})
      ensures FreshOk(work, CountsOf(state.stacks))
    {
      hide WorkOk, FreshOk, LowsBelow, PatchBlock, VersOf, CountsOf, Out;
      EdgeShape(work, e, |state.stacks|);
      var neigh := edges[e].dst;
      RenameCond(e, state);
      LowsKept(work, |state.stacks|, neigh);
      PatchPhis(cur, neigh, state);
      SentEdgeOk(work, cur, e);
      SentEdgeFresh(work, CountsOf(state.stacks), cur, e);
      work := SendEdge(work, cur, e);
    }

    // Hand the versions current at the end of `cur` to its branch conditions and successors.
    method RenameOutgoing(cur: nat, state: RenameState)
      requires cur < |blocks| && work.blocks == blocks && work.edges == edges && WorkOk(work)
      requires work.trace[cur] != [] && state.Valid() && Out(work.trace[cur]) == VersOf(state.stacks)
      requires LowsBelow(work.base, work.baseEdges, |state.stacks|)
      requires FreshOk(work, CountsOf(state.stacks))
      requires forall e | 0 <= e < |edges| && work.baseEdges[e].src == cur :: e !in work.sent
      modifies this`blocks, this`edges, this`work
      ensures work.blocks == blocks && work.edges == edges && WorkOk(work)
      ensures work == old(work).(blocks := work.blocks, edges := work.edges, sent := work.sent)
      ensures forall e: nat :: e in work.sent <==>
                e in old(work.sent) || (e < |work.baseEdges| && work.baseEdges[e].src == cur)
      ensures FreshOk(work, CountsOf(state.stacks))
    {
      hide WorkOk, FreshOk, LowsBelow, PatchBlock, VersOf, CountsOf, Out, SentThrough;
      ShapeOf(work);
      var outs := OutEdges(edges, cur);
      assert forall e <- outs :: e < |edges| && work.baseEdges[e].src == cur;
      ghost var before := work.sent;
      NoneSent(before, outs);
      var k := 0;
      while k < |outs|
        invariant 0 <= k <= |outs|
        invariant work.blocks == blocks && work.edges == edges && WorkOk(work) && Shaped(work)
        invariant work == old(work).(blocks := work.blocks, edges := work.edges, sent := work.sent)
        invariant |work.baseEdges| == |edges| && forall e <- outs :: 0 <= e < |edges| && work.baseEdges[e].src == cur
        invariant SentThrough(before, work.sent, outs, k)
        invariant FreshOk(work, CountsOf(state.stacks))
      {
        var e := outs[k];
        assert e in outs;
        SendsNext(before, work.sent, outs, k);
        RenameOut(cur, e, state);
        k := k + 1;
      }
      AllSent(before, work.sent, outs);
    }

    // Statements of `cur`, with the bookkeeping of the whole graph.
    method RenameBlock(cur: nat, state: RenameState) returns (defs: seq<nat>, ghost tr: seq<Vers>)
      requires Renames(state) && cur < |blocks| && work.trace[cur] == [] && Arrives(cur, state)
      requires LowsBelow(work.base, work.baseEdges, |state.stacks|) && cur < |idom|
      modifies this`blocks, this`work, state
      ensures tr != [] && work == old(work).(blocks := work.blocks, trace := old(work.trace)[cur := tr])
      ensures work.blocks == blocks && WorkOk(work) && FlowsDown(entry, idom, work.trace)
      ensures state.Valid() && work.globs == GlobsOf(state.stacks) && FreshOk(work, CountsOf(state.stacks))
      ensures Out(tr) == VersOf(state.stacks)
      ensures Extends(old(state.stacks), state.stacks, multiset(defs))
      ensures forall d <- defs :: d < |state.stacks|
    {
      hide WorkOk, FreshOk, FlowsDown, BlockOk, FreshBlock, LowsBelow;
      ShapeOf(work);
      UntouchedAt(work, cur);
      LowsKept(work, |state.stacks|, cur);
      defs, tr := RenameStmts(cur, state);
      RenamedBlockOk(work, cur, blocks[cur], tr);
      RenamedBlockFresh(work, cur, blocks[cur], tr, CountsOf(old(state.stacks)), CountsOf(state.stacks));
      FlowsDownExtend(entry, idom, work.trace, cur, tr);
      work := work.(blocks := work.blocks[cur := blocks[cur]], trace := work.trace[cur := tr]);
    }

    // The versions current when `cur` is reached are those its dominator tree parent ends with.
    ghost predicate Arrives(cur: nat, state: RenameState)
      requires Shaped(work) && state.Valid()
      reads this, state
    {
      if cur == entry then forall l | 0 <= l < |state.stacks| :: VersOf(state.stacks)[l] == 0
      else
        && cur < |idom| && idom[cur] < |work.trace| && work.trace[idom[cur]] != []
        && VersOf(state.stacks) == Out(work.trace[idom[cur]])
    }

    // Renames `cur` and everything it dominates; the stacks end as they began.
    method RenameRecursive(cur: nat, state: RenameState, ghost g: Graph)
      requires FlowGraph(g, entry) && IsIdomTable(g, entry, idom) && IsDomTree(g, entry, dt)
      requires cur < g.n == |work.base| && Renames(state) && Arrives(cur, state)
      requires LowsBelow(work.base, work.baseEdges, |state.stacks|)
      requires forall x: nat | x < g.n && Dom(g, entry, cur, x) :: work.trace[x] == []
      modifies this`blocks, this`edges, this`work, state
      ensures Renames(state) && Restored(old(state.stacks), state.stacks)
      ensures work.base == old(work.base) && work.baseEdges == old(work.baseEdges)
      ensures forall x: nat | x < g.n ::
                work.trace[x] != [] <==> old(work.trace[x]) != [] || Dom(g, entry, cur, x)
      ensures forall x: nat | x < g.n && old(work.trace[x]) != [] :: work.trace[x] == old(work.trace[x])
      decreases g.n - Depth(g, entry, cur)
    {
      hide FlowGraph, IsIdomTable, IsDomTree, Dom, WorkOk, FreshOk, FlowsDown, LowsBelow, BlockOk, Depth, Extends;
      ShapeOf(work);
      DomRefl(g, entry, cur);
      TableShape(g, entry, idom);
      var defs, tr := RenameBlock(cur, state);
      ShapeOf(work);
      RenameOutgoing(cur, state);
      ShapeOf(work);
      assert Renames(state);
      ChildList(g, entry, idom, dt, cur);
      ghost var stacks0, stacks1 := old(state.stacks), state.stacks;
      StartExtends(stacks1);
      var k := 0;
      while k < |dt[cur]|
        invariant 0 <= k <= |dt[cur]| && Renames(state)
        invariant Restored(stacks1, state.stacks)
        invariant work.base == old(work.base) && work.baseEdges == old(work.baseEdges)
        invariant work.trace[cur] == tr
        invariant forall x: nat | x < g.n :: work.trace[x] != [] <==>
                    old(work.trace[x]) != [] || x == cur || BelowOneOf(g, entry, dt[cur][..k], x)
        invariant forall x: nat | x < g.n && old(work.trace[x]) != [] :: work.trace[x] == old(work.trace[x])
        decreases |dt[cur]| - k
      {
        var child := dt[cur][k];
        assert child in dt[cur];
        ChildBelow(g, entry, idom, cur, child);
        DepthBound(g, entry, child);
        RestoredVers(stacks1, state.stacks);
        ghost var stacks2 := state.stacks;
        NextChildFresh(g, entry, idom, dt[cur], cur, k);
        RenameRecursive(child, state, g);
        ExtendsTrans(stacks1, stacks2, state.stacks, multiset{});
        k := k + 1;
      }
      assert dt[cur][..|dt[cur]|] == dt[cur];
      forall x: nat | x < g.n
        ensures Dom(g, entry, cur, x) <==> x == cur || BelowOneOf(g, entry, dt[cur], x)
      {
        SubtreeIs(g, entry, idom, dt[cur], cur, x);
      }
      ExtendsTrans(stacks0, stacks1, state.stacks, multiset(defs));
      RestoredVers(stacks1, state.stacks);
      PopAll(defs, state, stacks0);
    }

    // Take back the versions introduced in this frame.
    method PopAll(defs: seq<nat>, state: RenameState, ghost stacks0: seq<RenameStack>)
      requires AllValid(stacks0) && Extends(stacks0, state.stacks, multiset(defs))
      requires forall d <- defs :: d < |state.stacks|
      modifies state
      ensures state.Valid() && Restored(stacks0, state.stacks)
      ensures CountsOf(state.stacks) == CountsOf(old(state.stacks))
      ensures GlobsOf(state.stacks) == GlobsOf(old(state.stacks))
    {
      hide Extends;
      ExtendsValid(stacks0, state.stacks, multiset(defs));
      var k := 0;
      while k < |defs|
        invariant 0 <= k <= |defs| && state.Valid()
        invariant |state.stacks| == |stacks0|
        invariant Extends(stacks0, state.stacks, multiset(defs[k..]))
        invariant CountsOf(state.stacks) == CountsOf(old(state.stacks))
      {
        assert defs[k..][0] in defs;
        PopExtends(stacks0, state.stacks, defs[k..]);
        state.Pop(defs[k]);
        ExtendsValid(stacks0, state.stacks, multiset(defs[k..][1..]));
        assert defs[k..][1..] == defs[k + 1..];
        k := k + 1;
      }
      assert defs[|defs|..] == [];
      ExtendsValid(stacks0, state.stacks, multiset([]));
    }

    // A name is global for renaming when some identifier of the program says so.
    ghost predicate MarkedGlobal(upto: nat, low: nat)
      requires upto <= |hm|
      reads this
    {
      exists k :: 0 <= k < upto && hm[k].low == low && hm[k].IsGlobal(localGlobals)
    }

    method Rename(ghost g: Graph)
      requires FlowGraph(g, entry) && IsIdomTable(g, entry, idom) && IsDomTree(g, entry, dt)
      requires g.n == |blocks| == |idom| && EdgesInRange(|blocks|, edges)
      requires LowsBelow(blocks, edges, max) && forall id <- hm :: id.low < max
      modifies this`blocks, this`edges, this`work
      ensures IsRenamed(entry, idom, work) && work.blocks == blocks && work.edges == edges
      ensures work.base == old(blocks) && work.baseEdges == old(edges)
      ensures |work.globs| == max && forall l | 0 <= l < max ::
                work.globs[l] <==> exists id :: id in hm && id.low == l && id.global && l !in localGlobals
    {
      hide FlowGraph, IsIdomTable, IsDomTree, LowsBelow, WorkOk, FlowsDown, FreshOk, IsRenamed;
      TableShape(g, entry, idom);
      var state := new RenameState(max);
      var k := 0;
      while k < |hm|
        invariant 0 <= k <= |hm| && state.Valid() && |state.stacks| == max && fresh(state)
        invariant forall l | 0 <= l < max :: state.stacks[l] == RenameStack(MarkedGlobal(k, l), 0, [0])
        modifies state
      {
        var id := hm[k];
        assert id in hm;
        if id.IsGlobal(localGlobals) {
          state.MarkGlobal(id.low);
        }
        MarkedNext(k);
        k := k + 1;
      }
      MarkedByHm();
      NothingRenamed(entry, idom, blocks, edges, GlobsOf(state.stacks), CountsOf(state.stacks));
      work := Work(GlobsOf(state.stacks), blocks, edges, blocks, edges, seq(|blocks|, _ => []), {});
      ShapeOf(work);
      ghost var globs := work.globs;
      RenameRecursive(entry, state, g);
      ShapeOf(work);
      forall x: nat | x < g.n
        ensures work.trace[x] != []
      {
        EntryDom(g, entry, x);
      }
      AllRenamed(entry, idom, work, CountsOf(state.stacks));
    }

    lemma MarkedNext(k: nat)
      requires k < |hm|
      ensures forall l :: MarkedGlobal(k + 1, l) <==>
                MarkedGlobal(k, l) || (hm[k].low == l && hm[k].IsGlobal(localGlobals))
    {
      forall l | MarkedGlobal(k, l) || (hm[k].low == l && hm[k].IsGlobal(localGlobals))
        ensures MarkedGlobal(k + 1, l)
      {
        if MarkedGlobal(k, l) {
          var j :| 0 <= j < k && hm[j].low == l && hm[j].IsGlobal(localGlobals);
          assert 0 <= j < k + 1;
        } else {
          assert 0 <= k < k + 1 && hm[k].low == l;
        }
      }
    }

    lemma MarkedByHm()
      ensures forall l :: MarkedGlobal(|hm|, l) <==>
                exists id :: id in hm && id.low == l && id.global && l !in localGlobals
    {
      forall l
        ensures MarkedGlobal(|hm|, l) <==> exists id :: id in hm && id.low == l && id.global && l !in localGlobals
      {
        if id :| id in hm && id.low == l && id.global && l !in localGlobals {
          var k :| 0 <= k < |hm| && hm[k] == id;
          assert hm[k].low == l;
        }
      }
    }

    // The dominator tree, the frontiers and the table that both are read from.
    method Dominators()
      requires FlowGraph(G(), entry) && |blocks| <= UNINIT && G().Preds(entry) == []
      modifies this`dt, this`df, this`idom
      ensures IsIdomTable(G(), entry, idom) && IsDomTree(G(), entry, dt) && FrontierExact(G(), entry, df)
      ensures |df| == |blocks| && forall x | 0 <= x < |df| :: forall b <- df[x] :: b < |blocks|
    {
      hide FlowGraph, IsIdomTable, IsDomTree, FrontierExact, FrontsUpTo;
      var di := new DomInfos.DomInfo(G(), entry);
      dt := di.DomTree();
      df := di.DomFrontier();
      idom := LinkedForest.IdomsOf(di.info);
      FrontierRange(G(), entry, df);
    }

    // The SSA part of `fill`: dominators, phis, renaming.
    method ToSsa() returns (ghost c: Conversion)
      requires FlowGraph(G(), entry) && |blocks| <= UNINIT && G().Preds(entry) == []
      requires LowsBelow(blocks, edges, max)
      requires (forall id <- hm :: id.low < max) && (forall id <- mayRename :: id.low < max)
      requires forall id | id in defsites :: forall b <- defsites[id] :: b < |blocks|
      modifies this`blocks, this`edges, this`work, this`dt, this`df, this`idom
      ensures Converts(c)
      ensures c.Before() == Program(entry, old(blocks), old(edges)) && c.After() == Program(entry, blocks, edges)
      ensures c.sites == map id | id in defsites && id in mayRename && (!id.global || id.low in localGlobals) ::
                defsites[id]
      ensures |c.w.globs| == max && forall l | 0 <= l < max ::
                c.w.globs[l] <==> exists id :: id in hm && id.low == l && id.global && l !in localGlobals
      ensures forall id: Ident | id.global && id.low !in localGlobals :: PlacedFor(c.phis, id) == {}
      ensures forall id | id in hm && id.global && id.low !in localGlobals ::
                Unversioned(Program(entry, blocks, edges), id.low)
    {
      hide FlowGraph, IsIdomTable, IsDomTree, LowsBelow, IsRenamed, FrontierExact, IsIteratedFrontier, Placed,
           PlacedFor, Converts;
      var g := G();
      GraphEdges(g, entry, |blocks|, edges);
      Dominators();
      TableShape(g, entry, idom);
      ghost var blocks0, edges0 := blocks, edges;
      ghost var phis, pre;
      phis, pre := InsertPhis();
      ghost var base := blocks;
      PhiLows(g, phis, pre, blocks0, base, edges, max, mayRename);
      Rename(g);
      ghost var sites := map id | id in defsites && Promoted(id) :: defsites[id];
      c := Conversion(entry, blocks0, edges0, idom, df, sites, phis, pre, work);
      ConvertsIs(c);
      forall id | id in hm && id.global && id.low !in localGlobals
        ensures Unversioned(Program(entry, blocks, edges), id.low)
      {
        GlobalsUnversioned(c, id.low);
      }
    }
  }
}
