// Version numbering: what renaming one function must produce, independent of how it is computed.
module Renaming {
  import opened Ir

  // The current version of every name, indexed by `low`.
  type Vers = seq<nat>

  function RenameIdent(id: Ident, vers: Vers): Ident {
    id.(sub := if id.low < |vers| then vers[id.low] else 0)
  }

  function RenameVal(v: PrimVal, vers: Vers): PrimVal {
    if v.Var? then Var(RenameIdent(v.id, vers)) else v
  }

  function RenameArgs(args: seq<PrimVal>, vers: Vers): (r: seq<PrimVal>)
    ensures |r| == |args| && forall i | 0 <= i < |args| :: r[i] == RenameVal(args[i], vers)
  {
    seq(|args|, i requires 0 <= i < |args| => RenameVal(args[i], vers))
  }

  // `PrimStmt::replace`: it does not hit assigned identifiers, and it skips phis.
  function RenameUses(s: PrimStmt, vers: Vers): PrimStmt {
    match s
    case AsgnVar(id, Op(op, args)) => AsgnVar(id, Op(op, RenameArgs(args, vers)))
    case AsgnVar(_, Phi(_)) => s
    case Do(op, args) => Do(op, RenameArgs(args, vers))
  }

  function RenameEdge(e: Edge, vers: Vers): Edge {
    if e.cond.Some? then e.(cond := Some(RenameVal(e.cond.value, vers))) else e
  }

  // Phi argument lists that differ in versions only.
  ghost predicate SamePhi(ps: seq<(nat, Ident)>, qs: seq<(nat, Ident)>) {
    && |ps| == |qs|
    && (forall i | 0 <= i < |ps| :: qs[i] == (ps[i].0, ps[i].1.(sub := qs[i].1.sub)))
  }

  // A block not renamed yet: only arguments of its phis may have been filled in.
  ghost predicate Untouched(olds: seq<PrimStmt>, news: seq<PrimStmt>) {
    && |olds| == |news|
    && (forall i | 0 <= i < |olds| :: UntouchedStmt(olds[i], news[i]))
  }

  ghost predicate UntouchedStmt(s: PrimStmt, t: PrimStmt) {
    if s.IsPhi() then t.IsPhi() && t.id == s.id && SamePhi(s.e.preds, t.e.preds) else t == s
  }

  // One statement renamed: uses take the versions before it, its own definition the version after it.
  ghost predicate StepOk(globs: seq<bool>, s: PrimStmt, t: PrimStmt, before: Vers, after: Vers) {
    && |before| == |after| == |globs|
    && match s
       case Do(op, args) => t == Do(op, RenameArgs(args, before)) && after == before
       case AsgnVar(id, e) =>
         && id.low < |globs| && t.AsgnVar? && t.id == id.(sub := t.id.sub)
         && (if globs[id.low] then t.id.sub == 0 && after == before
             else t.id.sub > 0 && after == before[id.low := t.id.sub])
         && (if e.Phi? then t.e.Phi? && SamePhi(e.preds, t.e.preds) else t == RenameUses(s, before).(id := t.id))
  }

  // tr[i] is the version map in front of statement i.
  ghost predicate BlockOk(globs: seq<bool>, olds: seq<PrimStmt>, news: seq<PrimStmt>, tr: seq<Vers>) {
    && |news| == |olds| && |tr| == |olds| + 1
    && |tr[0]| == |globs|
    && (forall i | 0 <= i < |olds| :: StepOk(globs, olds[i], news[i], tr[i], tr[i + 1]))
  }

  ghost function Out(tr: seq<Vers>): Vers
    requires tr != []
  {
    tr[|tr| - 1]
  }

  // The first argument for predecessor p carries p's outgoing version.
  ghost predicate ArgOk(ps: seq<(nat, Ident)>, p: nat, vers: Vers) {
    forall k | 0 <= k < |ps| && ps[k].0 == p && (forall j | 0 <= j < k :: ps[j].0 != p) ::
      ps[k].1 == RenameIdent(ps[k].1, vers)
  }

  ghost predicate PhiArgsOk(stmts: seq<PrimStmt>, p: nat, vers: Vers) {
    forall i | 0 <= i < |stmts| && stmts[i].IsPhi() :: ArgOk(stmts[i].e.preds, p, vers)
  }

  // ---- Filling in phi arguments ----

  function PatchArgs(ps: seq<(nat, Ident)>, p: nat, vers: Vers): (qs: seq<(nat, Ident)>)
    ensures SamePhi(ps, qs)
  {
    if ps == [] then []
    else if ps[0].0 == p then [(p, RenameIdent(ps[0].1, vers))] + ps[1..]
    else [ps[0]] + PatchArgs(ps[1..], p, vers)
  }

  lemma TakeSplit<T>(s: seq<T>, k: nat, t: seq<T>)
    requires 0 < k <= |s|
    ensures s[1..][k - 1..] == s[k..] && [s[0]] + (s[1..][..k - 1] + t) == s[..k] + t
  {
    assert [s[0]] + s[1..][..k - 1] == s[..k];
  }

  lemma UpdateSplit<T>(s: seq<T>, k: nat, x: T)
    requires k < |s|
    ensures s[k..][0] == s[k] && s[k..][1..] == s[k + 1..] && s[..k] + ([x] + s[k + 1..]) == s[k := x]
  {
  }

  // Entries ahead of the first argument for p are left alone.
  lemma {:induction false} PatchArgsSplit(ps: seq<(nat, Ident)>, p: nat, vers: Vers, k: nat)
    requires k <= |ps| && forall j | 0 <= j < k :: ps[j].0 != p
    ensures PatchArgs(ps, p, vers) == ps[..k] + PatchArgs(ps[k..], p, vers)
  {
    hide RenameIdent, SamePhi;
    if k > 0 {
      PatchArgsSplit(ps[1..], p, vers, k - 1);
      TakeSplit(ps, k, PatchArgs(ps[k..], p, vers));
    } else {
      assert ps[0..] == ps;
    }
  }

  // What the scan for predecessor p, stopped at k, writes back.
  lemma PatchArgsFound(ps: seq<(nat, Ident)>, p: nat, vers: Vers, k: nat)
    requires k <= |ps| && (forall j | 0 <= j < k :: ps[j].0 != p) && (k < |ps| ==> ps[k].0 == p)
    ensures PatchArgs(ps, p, vers) ==
            if k < |ps| then ps[k := (ps[k].0, RenameIdent(ps[k].1, vers))] else ps
  {
    hide RenameIdent, SamePhi;
    PatchArgsSplit(ps, p, vers, k);
    if k < |ps| {
      UpdateSplit(ps, k, (p, RenameIdent(ps[k].1, vers)));
    }
  }

  function PatchStmt(s: PrimStmt, p: nat, vers: Vers): PrimStmt {
    if s.IsPhi() then AsgnVar(s.id, Phi(PatchArgs(s.e.preds, p, vers))) else s
  }

  function PatchBlock(stmts: seq<PrimStmt>, p: nat, vers: Vers): (r: seq<PrimStmt>)
    ensures |r| == |stmts| && forall i | 0 <= i < |stmts| :: r[i] == PatchStmt(stmts[i], p, vers)
  {
    seq(|stmts|, i requires 0 <= i < |stmts| => PatchStmt(stmts[i], p, vers))
  }

  // At position k the patched list has changed exactly when k is the first argument for p.
  lemma {:induction false} PatchArgsAt(ps: seq<(nat, Ident)>, p: nat, vers: Vers, k: nat)
    requires k < |ps|
    ensures PatchArgs(ps, p, vers)[k] ==
            if ps[k].0 == p && forall j | 0 <= j < k :: ps[j].0 != p
            then (p, RenameIdent(ps[k].1, vers)) else ps[k]
  {
    hide RenameIdent, SamePhi;
    if ps[0].0 != p && k > 0 {
      PatchArgsAt(ps[1..], p, vers, k - 1);
      if forall j | 0 <= j < k - 1 :: ps[1..][j].0 != p {
        forall j | 0 <= j < k
          ensures ps[j].0 != p
        {
          assert j > 0 ==> ps[j] == ps[1..][j - 1];
        }
      } else {
        var j :| 0 <= j < k - 1 && ps[1..][j].0 == p;
        assert ps[j + 1].0 == p;
      }
    }
  }

  lemma PatchArgsOk(ps: seq<(nat, Ident)>, p: nat, vers: Vers, q: nat, other: Vers)
    requires q == p ==> other == vers
    requires q != p ==> ArgOk(ps, q, other)
    ensures ArgOk(PatchArgs(ps, p, vers), q, other)
  {
    var qs := PatchArgs(ps, p, vers);
    forall k | 0 <= k < |qs| && qs[k].0 == q && (forall j | 0 <= j < k :: qs[j].0 != q)
      ensures qs[k].1 == RenameIdent(qs[k].1, other)
    {
      forall j | 0 <= j < k
        ensures ps[j].0 != q
      {
        assert qs[j].0 == ps[j].0;
      }
      PatchArgsAt(ps, p, vers, k);
    }
  }

  lemma PatchPhisOk(stmts: seq<PrimStmt>, p: nat, vers: Vers, q: nat, other: Vers)
    requires q == p ==> other == vers
    requires q != p ==> PhiArgsOk(stmts, q, other)
    ensures PhiArgsOk(PatchBlock(stmts, p, vers), q, other)
  {
    var news := PatchBlock(stmts, p, vers);
    forall i | 0 <= i < |news| && news[i].IsPhi()
      ensures ArgOk(news[i].e.preds, q, other)
    {
      PatchArgsOk(stmts[i].e.preds, p, vers, q, other);
    }
  }

  lemma SamePhiTrans(ps: seq<(nat, Ident)>, qs: seq<(nat, Ident)>, rs: seq<(nat, Ident)>)
    requires SamePhi(ps, qs) && SamePhi(qs, rs)
    ensures SamePhi(ps, rs)
  {
    forall i | 0 <= i < |ps|
      ensures rs[i] == (ps[i].0, ps[i].1.(sub := rs[i].1.sub))
    {
      assert qs[i] == (ps[i].0, ps[i].1.(sub := qs[i].1.sub));
    }
  }

  lemma PatchKeepsUntouched(olds: seq<PrimStmt>, news: seq<PrimStmt>, p: nat, vers: Vers)
    requires Untouched(olds, news)
    ensures Untouched(olds, PatchBlock(news, p, vers))
  {
    forall i | 0 <= i < |olds|
      ensures UntouchedStmt(olds[i], PatchBlock(news, p, vers)[i])
    {
      assert UntouchedStmt(olds[i], news[i]);
      if olds[i].IsPhi() {
        SamePhiTrans(olds[i].e.preds, news[i].e.preds, PatchArgs(news[i].e.preds, p, vers));
      }
    }
  }

  lemma PatchKeepsBlockOk(globs: seq<bool>, olds: seq<PrimStmt>, news: seq<PrimStmt>, tr: seq<Vers>, p: nat, vers: Vers)
    requires BlockOk(globs, olds, news, tr)
    ensures BlockOk(globs, olds, PatchBlock(news, p, vers), tr)
  {
    forall i | 0 <= i < |olds|
      ensures StepOk(globs, olds[i], PatchBlock(news, p, vers)[i], tr[i], tr[i + 1])
    {
      assert StepOk(globs, olds[i], news[i], tr[i], tr[i + 1]);
      if news[i].IsPhi() {
        SamePhiTrans(olds[i].e.preds, news[i].e.preds, PatchArgs(news[i].e.preds, p, vers));
      }
    }
  }

  lemma TraceSizes(globs: seq<bool>, olds: seq<PrimStmt>, news: seq<PrimStmt>, tr: seq<Vers>, i: nat)
    requires BlockOk(globs, olds, news, tr) && i < |tr|
    ensures |tr[i]| == |globs|
  {
    if i > 0 {
      assert StepOk(globs, olds[i - 1], news[i - 1], tr[i - 1], tr[i - 1 + 1]);
    }
  }

  // ---- The state of renaming part-way: blocks with a trace are renamed, edges in `sent` are done ----

  datatype Work = Work(globs: seq<bool>, base: seq<seq<PrimStmt>>, baseEdges: seq<Edge>,
                       blocks: seq<seq<PrimStmt>>, edges: seq<Edge>, trace: seq<seq<Vers>>, sent: set<nat>)

  ghost predicate Shaped(w: Work) {
    && |w.base| == |w.blocks| == |w.trace|
    && |w.baseEdges| == |w.edges|
    && (forall e | 0 <= e < |w.baseEdges| :: w.baseEdges[e].src < |w.base| && w.baseEdges[e].dst < |w.base|)
  }

  ghost predicate BlockState(w: Work, b: nat)
    requires Shaped(w) && b < |w.base|
  {
    if w.trace[b] == [] then Untouched(w.base[b], w.blocks[b])
    else BlockOk(w.globs, w.base[b], w.blocks[b], w.trace[b])
  }

  ghost predicate EdgeState(w: Work, e: nat)
    requires Shaped(w) && e < |w.baseEdges|
  {
    var be := w.baseEdges[e];
    if e in w.sent then
      && w.trace[be.src] != []
      && w.edges[e] == RenameEdge(be, Out(w.trace[be.src]))
      && PhiArgsOk(w.blocks[be.dst], be.src, Out(w.trace[be.src]))
    else w.edges[e] == be
  }

  ghost predicate WorkOk(w: Work) {
    && Shaped(w)
    && (forall b {:trigger BlockState(w, b)} | 0 <= b < |w.base| :: BlockState(w, b))
    && (forall e {:trigger EdgeState(w, e)} | 0 <= e < |w.baseEdges| :: EdgeState(w, e))
  }

  // Renaming the statements of block c.
  lemma RenamedBlockOk(w: Work, c: nat, news: seq<PrimStmt>, tr: seq<Vers>)
    requires WorkOk(w) && c < |w.base| && w.trace[c] == []
    requires BlockOk(w.globs, w.base[c], news, tr)
    requires |news| == |w.blocks[c]| && forall i | 0 <= i < |news| && news[i].IsPhi() ::
               w.blocks[c][i].IsPhi() && news[i].e == w.blocks[c][i].e
    ensures WorkOk(w.(blocks := w.blocks[c := news], trace := w.trace[c := tr]))
  {
    var w1 := w.(blocks := w.blocks[c := news], trace := w.trace[c := tr]);
    forall b | 0 <= b < |w.base|
      ensures BlockState(w1, b)
    {
      assert BlockState(w, b);
    }
    forall e | 0 <= e < |w.baseEdges|
      ensures EdgeState(w1, e)
    {
      assert EdgeState(w, e);
      var be := w.baseEdges[e];
      if e in w.sent && be.dst == c {
        forall i | 0 <= i < |news| && news[i].IsPhi()
          ensures ArgOk(news[i].e.preds, be.src, Out(w.trace[be.src]))
        {
        }
      }
    }
  }

  // Sending the outgoing versions of c along edge e.
  ghost function SendEdge(w: Work, c: nat, e: nat): Work
    requires Shaped(w) && e < |w.baseEdges| && c < |w.trace| && w.trace[c] != []
  {
    var out := Out(w.trace[c]);
    var d := w.baseEdges[e].dst;
    w.(blocks := w.blocks[d := PatchBlock(w.blocks[d], c, out)],
       edges := w.edges[e := RenameEdge(w.baseEdges[e], out)], sent := w.sent + {e})
  }

  lemma SentEdgeOk(w: Work, c: nat, e: nat)
    requires WorkOk(w) && e < |w.baseEdges| && w.baseEdges[e].src == c && w.trace[c] != []
    ensures WorkOk(SendEdge(w, c, e)) && Shaped(SendEdge(w, c, e))
  {
    var out := Out(w.trace[c]);
    var d := w.baseEdges[e].dst;
    var w1 := SendEdge(w, c, e);
    forall b | 0 <= b < |w.base|
      ensures BlockState(w1, b)
    {
      assert BlockState(w, b);
      if b == d {
        if w.trace[b] == [] {
          PatchKeepsUntouched(w.base[b], w.blocks[b], c, out);
        } else {
          PatchKeepsBlockOk(w.globs, w.base[b], w.blocks[b], w.trace[b], c, out);
        }
      }
    }
    forall f | 0 <= f < |w.baseEdges|
      ensures EdgeState(w1, f)
    {
      assert EdgeState(w, f);
      var bf := w.baseEdges[f];
      if f in w1.sent && bf.dst == d {
        PatchPhisOk(w.blocks[d], c, out, bf.src, Out(w.trace[bf.src]));
      }
    }
  }

  // ---- Fresh versions ----

  // Statement i of renamed block b assigns version sub of the local `low`.
  ghost predicate DefAt(w: Work, b: nat, i: nat, low: nat, sub: nat)
    requires Shaped(w)
  {
    && b < |w.blocks| && w.trace[b] != [] && i < |w.blocks[b]|
    && w.blocks[b][i].AsgnVar? && w.blocks[b][i].id.low == low && w.blocks[b][i].id.sub == sub
    && low < |w.globs| && !w.globs[low]
  }

  ghost predicate FreshOk(w: Work, counts: seq<nat>) {
    && Shaped(w) && |counts| == |w.globs|
    && (forall b: nat, i: nat, low: nat, sub: nat | DefAt(w, b, i, low, sub) :: 0 < sub <= counts[low])
    && (forall b: nat, i: nat, c: nat, j: nat, low: nat, sub: nat |
          DefAt(w, b, i, low, sub) && DefAt(w, c, j, low, sub) :: b == c && i == j)
  }

  ghost predicate NoLess(s: seq<nat>, t: seq<nat>) {
    |s| == |t| && forall l | 0 <= l < |s| :: s[l] <= t[l]
  }

  // The definitions of one block got numbers above lo, up to hi, each a different one.
  ghost predicate FreshBlock(globs: seq<bool>, news: seq<PrimStmt>, upto: nat, lo: seq<nat>, hi: seq<nat>) {
    && NoLess(lo, hi) && |lo| == |globs| && upto <= |news|
    && (forall i | 0 <= i < upto && news[i].AsgnVar? ::
          news[i].id.low < |globs| && (!globs[news[i].id.low] ==>
            lo[news[i].id.low] < news[i].id.sub <= hi[news[i].id.low]))
    && (forall i, j | 0 <= i < j < upto && news[i].AsgnVar? && news[j].AsgnVar? &&
                      news[i].id.low == news[j].id.low && !globs[news[i].id.low] ::
          news[i].id.sub < news[j].id.sub)
  }

  lemma NothingFresh(globs: seq<bool>, news: seq<PrimStmt>, counts: seq<nat>)
    requires |counts| == |globs|
    ensures FreshBlock(globs, news, 0, counts, counts)
  {
  }

  lemma FreshBlockStep(globs: seq<bool>, olds: seq<PrimStmt>, i: nat, lo: seq<nat>, hi: seq<nat>, t: PrimStmt,
                       hi1: seq<nat>)
    requires FreshBlock(globs, olds, i, lo, hi) && i < |olds| && NoLess(hi, hi1)
    requires t.AsgnVar? ==> t.id.low < |globs|
    requires t.AsgnVar? && !globs[t.id.low] ==> t.id.sub == hi[t.id.low] + 1 == hi1[t.id.low]
    ensures FreshBlock(globs, olds[i := t], i + 1, lo, hi1)
  {
  }

  lemma RenamedBlockFresh(w: Work, c: nat, news: seq<PrimStmt>, tr: seq<Vers>, lo: seq<nat>, hi: seq<nat>)
    requires FreshOk(w, lo) && c < |w.base| && w.trace[c] == [] && tr != []
    requires FreshBlock(w.globs, news, |news|, lo, hi)
    ensures FreshOk(w.(blocks := w.blocks[c := news], trace := w.trace[c := tr]), hi)
  {
    var w1 := w.(blocks := w.blocks[c := news], trace := w.trace[c := tr]);
    forall b: nat, i: nat, low: nat, sub: nat | DefAt(w1, b, i, low, sub)
      ensures 0 < sub <= hi[low]
      ensures if b == c then lo[low] < sub else DefAt(w, b, i, low, sub) && sub <= lo[low]
    {
      if b != c {
        assert DefAt(w, b, i, low, sub);
      }
    }
    forall b: nat, i: nat, d: nat, j: nat, low: nat, sub: nat | DefAt(w1, b, i, low, sub) && DefAt(w1, d, j, low, sub)
      ensures b == d && i == j
    {
    }
  }

  // Filling in phi arguments does not touch definitions.
  lemma SentEdgeFresh(w: Work, counts: seq<nat>, c: nat, e: nat)
    requires FreshOk(w, counts) && e < |w.baseEdges| && c < |w.trace| && w.trace[c] != []
    ensures FreshOk(SendEdge(w, c, e), counts)
  {
    var w1 := SendEdge(w, c, e);
    forall b: nat, i: nat, low: nat, sub: nat | DefAt(w1, b, i, low, sub)
      ensures DefAt(w, b, i, low, sub)
    {
    }
  }

  // ---- The tree order of version maps ----

  // A block starts with the versions its immediate dominator ends with; the entry with zeros.
  ghost predicate FlowsDown(entry: nat, idom: seq<nat>, trace: seq<seq<Vers>>) {
    && |idom| == |trace|
    && (forall c {:trigger FlowsInto(entry, idom, trace, c)} | 0 <= c < |trace| && trace[c] != [] ::
          FlowsInto(entry, idom, trace, c))
  }

  ghost predicate FlowsInto(entry: nat, idom: seq<nat>, trace: seq<seq<Vers>>, c: nat)
    requires |idom| == |trace| && c < |trace| && trace[c] != []
  {
    if c == entry then forall l | 0 <= l < |trace[c][0]| :: trace[c][0][l] == 0
    else idom[c] < |trace| && trace[idom[c]] != [] && trace[c][0] == Out(trace[idom[c]])
  }

  lemma FlowsDownExtend(entry: nat, idom: seq<nat>, trace: seq<seq<Vers>>, c: nat, tr: seq<Vers>)
    requires FlowsDown(entry, idom, trace) && c < |trace| && trace[c] == [] && tr != []
    requires FlowsInto(entry, idom, trace[c := tr], c)
    ensures FlowsDown(entry, idom, trace[c := tr])
  {
    var trace1 := trace[c := tr];
    forall b | 0 <= b < |trace1| && trace1[b] != []
      ensures FlowsInto(entry, idom, trace1, b)
    {
      if b != c {
        assert FlowsInto(entry, idom, trace, b);
      }
    }
  }

  // Edges are sent exactly when their source is renamed.
  ghost predicate SentByRenamed(w: Work)
    requires Shaped(w)
  {
    forall e | 0 <= e < |w.baseEdges| :: e in w.sent <==> w.trace[w.baseEdges[e].src] != []
  }

  // Every name is below `max`, so it has a version stack.
  ghost predicate LowsBelow(base: seq<seq<PrimStmt>>, edges: seq<Edge>, max: nat) {
    && (forall b, i | 0 <= b < |base| && 0 <= i < |base[b]| && base[b][i].AsgnVar? :: base[b][i].id.low < max)
    && (forall b, i | 0 <= b < |base| && 0 <= i < |base[b]| && base[b][i].IsPhi() ::
          forall k | 0 <= k < |base[b][i].e.preds| :: base[b][i].e.preds[k].1.low < max)
    && (forall e | 0 <= e < |edges| && edges[e].cond.Some? && edges[e].cond.value.Var? ::
          edges[e].cond.value.id.low < max)
  }

  // Renaming changes versions, never names.
  lemma LowsKept(w: Work, max: nat, b: nat)
    requires WorkOk(w) && LowsBelow(w.base, w.baseEdges, max) && b < |w.base|
    ensures forall i | 0 <= i < |w.blocks[b]| && w.blocks[b][i].AsgnVar? :: w.blocks[b][i].id.low < max
    ensures forall i | 0 <= i < |w.blocks[b]| && w.blocks[b][i].IsPhi() ::
              forall k | 0 <= k < |w.blocks[b][i].e.preds| :: w.blocks[b][i].e.preds[k].1.low < max
  {
    assert BlockState(w, b);
    forall i | 0 <= i < |w.blocks[b]| && w.blocks[b][i].AsgnVar?
      ensures w.base[b][i].AsgnVar? && w.blocks[b][i].id.low == w.base[b][i].id.low
      ensures w.blocks[b][i].IsPhi() ==>
                w.base[b][i].IsPhi() && SamePhi(w.base[b][i].e.preds, w.blocks[b][i].e.preds)
    {
      if w.trace[b] == [] {
        assert UntouchedStmt(w.base[b][i], w.blocks[b][i]);
      } else {
        assert StepOk(w.globs, w.base[b][i], w.blocks[b][i], w.trace[b][i], w.trace[b][i + 1]);
      }
    }
    forall i | 0 <= i < |w.blocks[b]| && w.blocks[b][i].IsPhi()
      ensures forall k | 0 <= k < |w.blocks[b][i].e.preds| :: w.blocks[b][i].e.preds[k].1.low < max
    {
      var ps, qs := w.base[b][i].e.preds, w.blocks[b][i].e.preds;
      forall k | 0 <= k < |qs|
        ensures qs[k].1.low < max
      {
        assert qs[k] == (ps[k].0, ps[k].1.(sub := qs[k].1.sub));
      }
    }
  }

  lemma ShapeOf(w: Work)
    requires WorkOk(w)
    ensures Shaped(w)
    ensures forall e | 0 <= e < |w.edges| ::
              w.edges[e].src == w.baseEdges[e].src && w.edges[e].dst == w.baseEdges[e].dst
  {
    forall e | 0 <= e < |w.edges|
      ensures w.edges[e].src == w.baseEdges[e].src && w.edges[e].dst == w.baseEdges[e].dst
    {
      assert EdgeState(w, e);
    }
  }

  lemma UntouchedAt(w: Work, b: nat)
    requires WorkOk(w) && b < |w.base| && w.trace[b] == []
    ensures Untouched(w.base[b], w.blocks[b])
  {
    assert BlockState(w, b);
  }

  // An edge is as it was, or renamed by its source's outgoing versions.
  lemma EdgeShape(w: Work, e: nat, max: nat)
    requires WorkOk(w) && e < |w.edges| && LowsBelow(w.base, w.baseEdges, max)
    ensures e < |w.baseEdges| && w.baseEdges[e].dst < |w.base|
    ensures w.edges[e].src == w.baseEdges[e].src && w.edges[e].dst == w.baseEdges[e].dst
    ensures w.edges[e].cond.Some? && w.edges[e].cond.value.Var? ==> w.edges[e].cond.value.id.low < max
    ensures w.edges[e] == w.baseEdges[e] ||
            (w.trace[w.baseEdges[e].src] != [] &&
             w.edges[e] == RenameEdge(w.baseEdges[e], Out(w.trace[w.baseEdges[e].src])))
  {
    assert EdgeState(w, e);
  }

  // Before anything is renamed.
  lemma NothingRenamed(entry: nat, idom: seq<nat>, base: seq<seq<PrimStmt>>, edges: seq<Edge>, globs: seq<bool>,
                       counts: seq<nat>)
    requires |idom| == |base| && |counts| == |globs|
    requires forall e | 0 <= e < |edges| :: edges[e].src < |base| && edges[e].dst < |base|
    ensures var w := Work(globs, base, edges, base, edges, seq(|base|, _ => []), {});
            WorkOk(w) && FlowsDown(entry, idom, w.trace) && SentByRenamed(w) && FreshOk(w, counts)
  {
    var w := Work(globs, base, edges, base, edges, seq(|base|, _ => []), {});
    forall b | 0 <= b < |base|
      ensures BlockState(w, b)
    {
    }
    forall e | 0 <= e < |edges|
      ensures EdgeState(w, e)
    {
    }
  }

  lemma AllRenamed(entry: nat, idom: seq<nat>, w: Work, counts: seq<nat>)
    requires WorkOk(w) && FlowsDown(entry, idom, w.trace) && SentByRenamed(w) && FreshOk(w, counts)
    requires forall b | 0 <= b < |w.base| :: w.trace[b] != []
    ensures IsRenamed(entry, idom, w)
  {
  }

  // ---- What the finished renaming satisfies ----

  ghost predicate IsRenamed(entry: nat, idom: seq<nat>, w: Work) {
    && WorkOk(w) && FlowsDown(entry, idom, w.trace)
    && (forall b | 0 <= b < |w.base| :: w.trace[b] != [])
    && (forall e | 0 <= e < |w.baseEdges| :: e in w.sent)
    && (exists counts :: FreshOk(w, counts))
  }
}
