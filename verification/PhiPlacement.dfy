// Where phi functions go: the iterated dominance frontier of a variable's definition sites.
module PhiPlacement {
  import opened Graphs
  import opened Ir

  // Every node in the frontier of a definition site or of a placed phi has a phi.
  ghost predicate Closed(df: seq<set<nat>>, defs: set<nat>, placed: set<nat>) {
    forall x: nat | (x in defs || x in placed) && x < |df| :: df[x] <= placed
  }

  // The least such set.
  ghost predicate IsIteratedFrontier(df: seq<set<nat>>, defs: set<nat>, placed: set<nat>) {
    && Closed(df, defs, placed)
    && (forall other | Closed(df, defs, other) :: placed <= other)
  }

  lemma IteratedFrontierUnique(df: seq<set<nat>>, defs: set<nat>, s1: set<nat>, s2: set<nat>)
    requires IsIteratedFrontier(df, defs, s1) && IsIteratedFrontier(df, defs, s2)
    ensures s1 == s2
  {
    assert s1 <= s2 && s2 <= s1;
  }

  // The phi for `id` in a block with these predecessors, before renaming.
  function FreshPhi(id: Ident, preds: seq<nat>): PrimStmt {
    AsgnVar(id, Phi(seq(|preds|, i requires 0 <= i < |preds| => (preds[i], id))))
  }

  ghost predicate HasPhi(pre: seq<PrimStmt>, id: Ident) {
    exists i :: 0 <= i < |pre| && pre[i].AsgnVar? && pre[i].id == id
  }

  // A run of phis, one per variable.
  ghost predicate IsPhiRun(pre: seq<PrimStmt>, preds: seq<nat>) {
    && (forall i | 0 <= i < |pre| :: pre[i].AsgnVar? && pre[i] == FreshPhi(pre[i].id, preds))
    && (forall i, j | 0 <= i < j < |pre| :: pre[i].id != pre[j].id)
  }

  function PlacedFor(phis: map<Ident, set<nat>>, id: Ident): set<nat> {
    if id in phis then phis[id] else {}
  }

  // Block b holds exactly the phis recorded for it, ahead of its own statements.
  ghost predicate BlockHolds(phis: map<Ident, set<nat>>, b: nat, pre: seq<PrimStmt>, preds: seq<nat>,
                             own: seq<PrimStmt>, block: seq<PrimStmt>) {
    && block == pre + own && IsPhiRun(pre, preds)
    && (forall id :: HasPhi(pre, id) <==> b in PlacedFor(phis, id))
  }

  // One more phi, pushed to the front of block b.
  lemma PushPhi(phis: map<Ident, set<nat>>, b: nat, pre: seq<PrimStmt>, preds: seq<nat>,
                own: seq<PrimStmt>, block: seq<PrimStmt>, id: Ident)
    requires BlockHolds(phis, b, pre, preds, own, block) && b !in PlacedFor(phis, id)
    ensures BlockHolds(phis[id := PlacedFor(phis, id) + {b}], b, [FreshPhi(id, preds)] + pre, preds, own,
                       [FreshPhi(id, preds)] + block)
  {
    var pre1 := [FreshPhi(id, preds)] + pre;
    var phis1 := phis[id := PlacedFor(phis, id) + {b}];
    assert !HasPhi(pre, id);
    forall i, j | 0 <= i < j < |pre1|
      ensures pre1[i].id != pre1[j].id
    {
      assert pre1[j] == pre[j - 1];
    }
    forall other
      ensures HasPhi(pre1, other) <==> b in PlacedFor(phis1, other)
    {
      if other == id {
        assert pre1[0].id == id;
      } else {
        if HasPhi(pre, other) {
          var i :| 0 <= i < |pre| && pre[i].AsgnVar? && pre[i].id == other;
          assert pre1[i + 1] == pre[i];
        }
        if HasPhi(pre1, other) {
          var i :| 0 <= i < |pre1| && pre1[i].AsgnVar? && pre1[i].id == other;
          assert pre1[i] == pre[i - 1];
        }
      }
    }
    assert pre1 + own == [FreshPhi(id, preds)] + block;
  }

  // A phi placed elsewhere does not concern block b.
  lemma OtherBlock(phis: map<Ident, set<nat>>, d: nat, id: Ident, b: nat, pre: seq<PrimStmt>, preds: seq<nat>,
                   own: seq<PrimStmt>, block: seq<PrimStmt>)
    requires BlockHolds(phis, b, pre, preds, own, block) && d != b
    ensures BlockHolds(phis[id := PlacedFor(phis, id) + {d}], b, pre, preds, own, block)
  {
    var phis1 := phis[id := PlacedFor(phis, id) + {d}];
    forall other
      ensures b in PlacedFor(phis1, other) <==> b in PlacedFor(phis, other)
    {
    }
  }

  // The whole graph: block b is pre[b] + base[b].
  ghost predicate Placed(g: Graph, phis: map<Ident, set<nat>>, pre: seq<seq<PrimStmt>>, base: seq<seq<PrimStmt>>,
                         blocks: seq<seq<PrimStmt>>) {
    && g.n == |blocks| == |pre| == |base|
    && (forall b | 0 <= b < |blocks| :: BlockHolds(phis, b, pre[b], g.Preds(b), base[b], blocks[b]))
    && (forall id {:trigger PlacedFor(phis, id)} :: forall d <- PlacedFor(phis, id) :: d < |blocks|)
  }

  lemma NothingPlaced(g: Graph, pre: seq<seq<PrimStmt>>, base: seq<seq<PrimStmt>>)
    requires g.n == |pre| == |base| && forall b | 0 <= b < |pre| :: pre[b] == []
    ensures Placed(g, map[], pre, base, base)
  {
  }

  lemma PlaceAt(g: Graph, phis: map<Ident, set<nat>>, pre: seq<seq<PrimStmt>>, base: seq<seq<PrimStmt>>,
                blocks: seq<seq<PrimStmt>>, d: nat, id: Ident)
    requires Placed(g, phis, pre, base, blocks) && d < |blocks| && d !in PlacedFor(phis, id)
    ensures |pre| == |blocks|
    ensures var phi := FreshPhi(id, g.Preds(d));
            Placed(g, phis[id := PlacedFor(phis, id) + {d}], pre[d := [phi] + pre[d]], base,
                   blocks[d := [phi] + blocks[d]])
  {
    hide BlockHolds;
    var phi, phis1 := FreshPhi(id, g.Preds(d)), phis[id := PlacedFor(phis, id) + {d}];
    forall b | 0 <= b < |blocks|
      ensures BlockHolds(phis1, b, pre[d := [phi] + pre[d]][b], g.Preds(b), base[b], blocks[d := [phi] + blocks[d]][b])
    {
      if b == d {
        PushPhi(phis, d, pre[d], g.Preds(d), base[d], blocks[d], id);
      } else {
        OtherBlock(phis, d, id, b, pre[b], g.Preds(b), base[b], blocks[b]);
      }
    }
    forall other
      ensures forall x <- PlacedFor(phis1, other) :: x < |blocks|
    {
      assert forall x <- PlacedFor(phis, other) :: x < |blocks|;
    }
  }

  lemma BoundOf(g: Graph, phis: map<Ident, set<nat>>, pre: seq<seq<PrimStmt>>, base: seq<seq<PrimStmt>>,
                blocks: seq<seq<PrimStmt>>, id: Ident)
    requires Placed(g, phis, pre, base, blocks)
    ensures |pre| == |blocks| && PlacedFor(phis, id) <= Below(|blocks|)
  {
    assert forall d <- PlacedFor(phis, id) :: d < |blocks|;
  }

  ghost predicate FrontiersInRange(n: nat, df: seq<set<nat>>, defsites: map<Ident, set<nat>>) {
    && |df| == n
    && (forall x | 0 <= x < |df| :: forall b <- df[x] :: b < n)
    && (forall id | id in defsites :: forall b <- defsites[id] :: b < n)
  }

  lemma RangeOfSites(n: nat, df: seq<set<nat>>, defsites: map<Ident, set<nat>>, id: Ident)
    requires FrontiersInRange(n, df, defsites) && id in defsites
    ensures |df| == n && forall b <- defsites[id] :: b < n
  {
  }

  lemma RangeOfFrontier(n: nat, df: seq<set<nat>>, defsites: map<Ident, set<nat>>, x: nat)
    requires FrontiersInRange(n, df, defsites) && x < n
    ensures |df| == n && forall b <- df[x] :: b < n
  {
  }

  // ---- The worklist argument ----

  // Nothing is placed that a closed set could do without.
  ghost predicate Frugal(df: seq<set<nat>>, defs: set<nat>, placed: set<nat>) {
    forall other | Closed(df, defs, other) :: placed <= other
  }

  ghost predicate SelfClosed(df: seq<set<nat>>, placed: set<nat>) {
    forall x: nat | x in placed && x < |df| :: df[x] <= placed
  }

  // Whoever still lacks a phi in its frontier is waiting in the queue.
  ghost predicate Pending(df: seq<set<nat>>, defs: set<nat>, placed: set<nat>, queue: seq<nat>) {
    forall x: nat | (x in defs || x in placed) && x < |df| && x !in queue :: df[x] <= placed
  }

  // Starting from nothing, or from a finished set when an identifier comes up twice.
  lemma StartPoint(df: seq<set<nat>>, defs: set<nat>, placed: set<nat>)
    requires placed == {} || IsIteratedFrontier(df, defs, placed)
    ensures Frugal(df, defs, placed) && SelfClosed(df, placed)
  {
  }

  lemma FrugalStep(df: seq<set<nat>>, defs: set<nat>, placed: set<nat>, node: nat, d: nat)
    requires Frugal(df, defs, placed) && node < |df| && d in df[node] && (node in defs || node in placed)
    ensures Frugal(df, defs, placed + {d})
  {
  }

  // What waits is a definition site or a placed phi.
  ghost predicate Queued(n: nat, defs: set<nat>, placed: set<nat>, queue: seq<nat>) {
    forall x: nat | x in queue :: x < n && (x in defs || x in placed)
  }

  lemma PendingStart(n: nat, df: seq<set<nat>>, defs: set<nat>, placed: set<nat>, queue: seq<nat>)
    requires SelfClosed(df, placed) && forall x :: x in queue <==> x in defs
    requires forall x <- defs :: x < n
    ensures Pending(df, defs, placed, queue) && Queued(n, defs, placed, queue)
  {
  }

  lemma PendingPop(n: nat, df: seq<set<nat>>, defs: set<nat>, placed: set<nat>, node: nat, rest: seq<nat>)
    requires Pending(df, defs, placed, [node] + rest) && Queued(n, defs, placed, [node] + rest)
    ensures Pending(df, defs, placed, rest + [node]) && Queued(n, defs, placed, rest)
    ensures node < n && (node in defs || node in placed)
  {
    assert ([node] + rest)[0] == node;
    assert node in [node] + rest;
    forall x: nat | x in rest
      ensures x in [node] + rest
    {
    }
  }

  lemma PlacedAdd(phis: map<Ident, set<nat>>, id: Ident, d: nat)
    ensures PlacedFor(phis[id := PlacedFor(phis, id) + {d}], id) == PlacedFor(phis, id) + {d}
    ensures forall other | other != id ::
              PlacedFor(phis[id := PlacedFor(phis, id) + {d}], other) == PlacedFor(phis, other)
  {
  }

  lemma PendingStep(n: nat, df: seq<set<nat>>, defs: set<nat>, placed: set<nat>, q0: seq<nat>, q1: seq<nat>,
                    node: nat, d: nat)
    requires Pending(df, defs, placed, q0 + [node]) && Queued(n, defs, placed, q0) && d < n
    requires q1 == if d in defs || d in q0 then q0 else q0 + [d]
    ensures Pending(df, defs, placed + {d}, q1 + [node]) && Queued(n, defs, placed + {d}, q1)
  {
    forall x: nat | (x in defs || x in placed + {d}) && x < |df| && x !in q1 + [node]
      ensures df[x] <= placed + {d}
    {
      assert x !in q0 + [node];
    }
  }

  lemma PendingDone(df: seq<set<nat>>, defs: set<nat>, placed: set<nat>, queue: seq<nat>, node: nat)
    requires Pending(df, defs, placed, queue + [node]) && node < |df| && df[node] <= placed
    ensures Pending(df, defs, placed, queue)
  {
    forall x: nat | (x in defs || x in placed) && x < |df| && x !in queue
      ensures df[x] <= placed
    {
      assert x != node ==> x !in queue + [node];
    }
  }

  lemma Drained(df: seq<set<nat>>, defs: set<nat>, placed: set<nat>)
    requires Pending(df, defs, placed, []) && Frugal(df, defs, placed)
    ensures IsIteratedFrontier(df, defs, placed)
  {
  }
}
