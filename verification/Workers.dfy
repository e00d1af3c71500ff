// src/interp.rs, `run_parallel`: the main loop runs in several threads, each on its own copy of the
// slots that BEGIN left; their results are combined in the order of arrival, and END starts from that.
module Workers {
  import opened Ir
  import opened Bytecode
  import opened Aggregation
  import opened ArrivalOrder
  import opened Stages

  // One thread of the main loop: its registers before the loads and before the stores, its record count.
  datatype Thread = Thread(start: Regs<Value>, out: Regs<Value>, nr: int)

  // The main thread's loop comes first, then the workers' results in the order in which they arrive. A
  // serial run has no workers.
  datatype Parties = Parties(beginOut: Regs<Value>, main: Thread, workers: seq<Thread>, endIn: Regs<Value>)

  function NoSlots(): Slots {
    (t: Ty) => []
  }

  function SlotsAfterBegin(p: StageSlots, x: Parties): Slots {
    RunStores(p.beginExit, x.beginOut, NoSlots(), Zero)
  }

  function LoopStart(p: StageSlots, x: Parties, th: Thread): Option<(Regs<Value>, Slots)> {
    RunLoads(p.loopEntry, th.start, SlotsAfterBegin(p, x), Zero)
  }

  function Result(p: StageSlots, x: Parties, th: Thread): StageResult {
    var slots := if LoopStart(p, x, th).Some? then LoopStart(p, x, th).value.1 else NoSlots();
    StageResult(RunStores(p.loopExit, th.out, slots, Zero), th.nr)
  }

  function Results(p: StageSlots, x: Parties, ws: seq<Thread>): (r: seq<StageResult>)
    ensures |r| == |ws| && forall j | 0 <= j < |ws| :: r[j] == Result(p, x, ws[j])
  {
    seq(|ws|, j requires 0 <= j < |ws| => Result(p, x, ws[j]))
  }

  function EndStart(p: StageSlots, x: Parties, slots: Slots): Option<(Regs<Value>, Slots)> {
    RunLoads(p.endEntry, x.endIn, slots, Zero)
  }

  ghost predicate TypedRegs(regs: Regs<Value>) {
    forall q: Reg | q.ty.Stackable() :: Typed(q.ty, regs(q))
  }

  ghost predicate TypedParties(x: Parties) {
    && TypedRegs(x.beginOut) && TypedRegs(x.main.out)
    && (forall j | 0 <= j < |x.workers| :: TypedRegs(x.workers[j].out))
  }

  lemma {:induction false} StoresTyped(insts: seq<SlotInst>, regs: Regs<Value>, vals: Slots)
    requires TypedRegs(regs) && TypedSlots(vals)
    ensures TypedSlots(RunStores(insts, regs, vals, Zero))
    decreases |insts|
  {
    if insts != [] {
      var i := insts[0];
      var vec := SetSlot(vals(i.r.ty), i.slot, regs(i.r), Zero(i.r.ty));
      if i.r.ty.Stackable() {
        assert TypedVec(i.r.ty, vals(i.r.ty)) && Typed(i.r.ty, regs(i.r)) && Typed(i.r.ty, Zero(i.r.ty));
        assert TypedVec(i.r.ty, vec);
      }
      assert TypedSlots(PutVec(vals, i.r.ty, vec));
      StoresTyped(insts[1..], regs, PutVec(vals, i.r.ty, vec));
    }
  }

  lemma {:induction false} LoadsTyped(insts: seq<SlotInst>, regs: Regs<Value>, vals: Slots)
    requires TypedSlots(vals) && RunLoads(insts, regs, vals, Zero).Some?
    ensures TypedSlots(RunLoads(insts, regs, vals, Zero).value.1)
    decreases |insts|
  {
    if insts != [] {
      var i := insts[0];
      var vec := vals(i.r.ty);
      var after := if Copied(i.r.ty) then vec else vec[i.slot := Zero(i.r.ty)];
      if i.r.ty.Stackable() {
        assert TypedVec(i.r.ty, vec) && Typed(i.r.ty, Zero(i.r.ty));
        assert TypedVec(i.r.ty, after);
      }
      assert TypedSlots(PutVec(vals, i.r.ty, after));
      LoadsTyped(insts[1..], SetReg(regs, i.r, vec[i.slot]), PutVec(vals, i.r.ty, after));
    }
  }

  lemma ResultTyped(p: StageSlots, x: Parties, th: Thread)
    requires TypedRegs(x.beginOut) && TypedRegs(th.out)
    ensures TypedSlots(Result(p, x, th).slots)
  {
    hide TypedRegs, RunStores, RunLoads;
    NothingTyped();
    StoresTyped(p.beginExit, x.beginOut, NoSlots());
    if LoopStart(p, x, th).Some? {
      LoadsTyped(p.loopEntry, th.start, SlotsAfterBegin(p, x));
    }
    StoresTyped(p.loopExit, th.out, if LoopStart(p, x, th).Some? then LoopStart(p, x, th).value.1 else NoSlots());
  }

  lemma NothingTyped()
    ensures TypedSlots(NoSlots())
  {
  }

  // The main thread keeps its own result and combines what it receives.
  method Gather(p: StageSlots, x: Parties) returns (r: StageResult)
    requires TypedParties(x)
    ensures Combined(Result(p, x, x.main), Results(p, x, x.workers), r) && TypedSlots(r.slots)
  {
    hide TypedRegs, TypedSlots, Combined, Result;
    ResultTyped(p, x, x.main);
    forall j | 0 <= j < |x.workers|
      ensures TypedSlots(Result(p, x, x.workers[j]).slots)
    {
      ResultTyped(p, x, x.workers[j]);
    }
    var core := new Core(Result(p, x, x.main));
    core.CombineAll(Results(p, x, x.workers));
    r := core.Now();
  }

  // ---- What END receives ----

  // The aggregate of what all threads left in a register.
  function Gathered(q: Reg, main: Thread, ws: seq<Thread>): Value {
    if ws == [] then main.out(q) else Agg(q.ty, Gathered(q, main, ws[..|ws| - 1]), ws[|ws| - 1].out(q))
  }

  // After its stores, a thread's slots hold what its registers held.
  lemma ThreadHolds(p: StageSlots, x: Parties, th: Thread, stored: set<Reg>, slots: map<Reg, nat>, q: Reg)
    requires OwnSlots(slots) && Covers(p.loopExit, false, stored, slots) && q in stored && q.ty.Stackable()
    ensures Holds(Result(p, x, th).slots, slots, q, th.out(q))
    ensures slots[q] < |Result(p, x, th).slots(q.ty)| && At(q.ty, Result(p, x, th).slots(q.ty), slots[q]) == th.out(q)
  {
    var vals := if LoopStart(p, x, th).Some? then LoopStart(p, x, th).value.1 else NoSlots();
    StoresHold(p.loopExit, slots, th.out, vals, Zero);
    var j :| 0 <= j < |p.loopExit| && p.loopExit[j].r == q;
  }

  lemma {:induction false} GatheredIs(p: StageSlots, x: Parties, ws: seq<Thread>, stored: set<Reg>,
                                      slots: map<Reg, nat>, q: Reg)
    requires OwnSlots(slots) && Covers(p.loopExit, false, stored, slots) && q in stored && q.ty.Stackable()
    ensures q in slots && FoldSlot(q.ty, slots[q], Result(p, x, x.main), Results(p, x, ws)) == Gathered(q, x.main, ws)
  {
    hide OwnSlots, Covers, Result, Agg;
    ThreadHolds(p, x, x.main, stored, slots, q);
    if ws != [] {
      var last := |ws| - 1;
      GatheredIs(p, x, ws[..last], stored, slots, q);
      ThreadHolds(p, x, ws[last], stored, slots, q);
      assert Results(p, x, ws)[..last] == Results(p, x, ws[..last]);
    }
  }

  lemma CombinedHolds(p: StageSlots, x: Parties, r: StageResult, stored: set<Reg>, slots: map<Reg, nat>, q: Reg)
    requires OwnSlots(slots) && Covers(p.loopExit, false, stored, slots) && q in stored && q.ty.Stackable()
    requires Combined(Result(p, x, x.main), Results(p, x, x.workers), r)
    ensures Holds(r.slots, slots, q, Gathered(q, x.main, x.workers))
  {
    hide OwnSlots, Covers, Result;
    GatheredIs(p, x, x.workers, stored, slots, q);
    ThreadHolds(p, x, x.main, stored, slots, q);
    assert At(q.ty, r.slots(q.ty), slots[q]) ==
           FoldSlot(q.ty, slots[q], Result(p, x, x.main), Results(p, x, x.workers));
  }

  // What the slots are when END starts.
  ghost predicate BeforeEnd(mainLoop: Option<nat>, p: StageSlots, x: Parties, r: StageResult) {
    if mainLoop.Some? then Combined(Result(p, x, x.main), Results(p, x, x.workers), r)
    else r.slots == SlotsAfterBegin(p, x)
  }

  ghost predicate IsThread(x: Parties, th: Thread) {
    th == x.main || th in x.workers
  }

  // Every slot that is loaded was stored by an earlier stage. What BEGIN shares with a later stage
  // arrives in every thread of the main loop; what END shares with an earlier stage is the aggregate
  // of what all threads left, or what BEGIN left if there is no main loop.
  lemma StagesCommunicate(begin: Option<nat>, mainLoop: Option<nat>, end: Option<nat>, globalRefs: seq<set<Reg>>,
                          slots: map<Reg, nat>, p: StageSlots, x: Parties, r: StageResult)
    requires IsPlan(begin, mainLoop, end, ComputeSlots(begin, mainLoop, end, globalRefs), slots, p)
    requires BeforeEnd(mainLoop, p, x, r)
    ensures forall th | IsThread(x, th) :: LoopStart(p, x, th).Some?
    ensures begin.Some? && mainLoop.Some? ==>
              forall th, q: Reg | IsThread(x, th) && q.ty.Stackable() && q in RefsOf(begin, globalRefs) &&
                             (q in RefsOf(mainLoop, globalRefs) || q in RefsOf(end, globalRefs)) ::
                LoopStart(p, x, th).value.0(q) == x.beginOut(q)
    ensures EndStart(p, x, r.slots).Some?
    ensures end.Some? ==>
              forall q: Reg | q.ty.Stackable() && q in RefsOf(end, globalRefs) &&
                         (q in RefsOf(begin, globalRefs) || q in RefsOf(mainLoop, globalRefs)) ::
                EndStart(p, x, r.slots).value.0(q) ==
                if mainLoop.Some? then Gathered(q, x.main, x.workers) else x.beginOut(q)
  {
    hide RunLoads, RunStores, Covers, OwnSlots, Combined, Gathered;
    var ops := ComputeSlots(begin, mainLoop, end, globalRefs);
    StageCovers(begin, mainLoop, end, globalRefs, slots, p);
    NoInsts(x.beginOut, NoSlots(), Zero);
    var out := if begin.Some? then ops.beginStores else {};
    forall th | IsThread(x, th)
      ensures LoopStart(p, x, th).Some?
      ensures begin.Some? && mainLoop.Some? ==>
                forall q: Reg | q in ops.beginStores && q.ty.Stackable() ::
                  LoopStart(p, x, th).value.0(q) == x.beginOut(q)
    {
      NoInsts(th.start, SlotsAfterBegin(p, x), Zero);
      Handover(p.beginExit, p.loopEntry, out, if mainLoop.Some? then ops.beginStores else {}, slots, x.beginOut,
               th.start, NoSlots(), Zero);
    }
    if mainLoop.Some? {
      if end.Some? {
        LoadGathered(p, x, r, ops.loopStores, slots);
      } else {
        NoInsts(x.endIn, r.slots, Zero);
      }
    } else {
      Handover(p.beginExit, p.endEntry, out, if end.Some? then ops.loopStores else {}, slots, x.beginOut, x.endIn,
               NoSlots(), Zero);
    }
  }

  lemma LoadGathered(p: StageSlots, x: Parties, r: StageResult, regs: set<Reg>, slots: map<Reg, nat>)
    requires OwnSlots(slots) && Covers(p.loopExit, false, regs, slots) && Covers(p.endEntry, true, regs, slots)
    requires Combined(Result(p, x, x.main), Results(p, x, x.workers), r)
    ensures EndStart(p, x, r.slots).Some?
    ensures forall q: Reg | q in regs && q.ty.Stackable() ::
              EndStart(p, x, r.slots).value.0(q) == Gathered(q, x.main, x.workers)
  {
    hide Combined, Result, RunLoads;
    var want: Regs<Value> := (q: Reg) => Gathered(q, x.main, x.workers);
    forall k | 0 <= k < |p.endEntry|
      ensures Holds(r.slots, slots, p.endEntry[k].r, want(p.endEntry[k].r))
    {
      CombinedHolds(p, x, r, regs, slots, p.endEntry[k].r);
    }
    LoadsBring(p.endEntry, slots, x.endIn, r.slots, Zero, want);
    forall q: Reg | q in regs && q.ty.Stackable()
      ensures EndStart(p, x, r.slots).value.0(q) == Gathered(q, x.main, x.workers)
    {
      var k :| 0 <= k < |p.endEntry| && p.endEntry[k].r == q;
    }
  }

  // ---- When a value arrives unchanged ----

  ghost predicate ThreadsTyped(q: Reg, main: Thread, ws: seq<Thread>) {
    q.ty.Stackable() && Typed(q.ty, main.out(q)) && forall j | 0 <= j < |ws| :: Typed(q.ty, ws[j].out(q))
  }

  function SumOut(q: Reg, p: Part, ws: seq<Thread>): real {
    if ws == [] then 0.0 else SumOut(q, p, ws[..|ws| - 1]) + Num(PartOf(q.ty, p, ws[|ws| - 1].out(q)))
  }

  function LastText(q: Reg, p: Part, ws: seq<Thread>): string {
    if ws == [] then "" else AggStr(LastText(q, p, ws[..|ws| - 1]), Text(PartOf(q.ty, p, ws[|ws| - 1].out(q))))
  }

  ghost predicate SomeOut(q: Reg, p: Part, ws: seq<Thread>) {
    exists j :: 0 <= j < |ws| && Has(p, ws[j].out(q))
  }

  // Numbers arrive summed over all threads, part by part; of strings the last nonempty one arrives.
  lemma {:induction false} GatheredParts(q: Reg, p: Part, main: Thread, ws: seq<Thread>)
    requires ThreadsTyped(q, main, ws)
    ensures Typed(q.ty, Gathered(q, main, ws))
    ensures var a, r := PartOf(q.ty, p, main.out(q)), PartOf(q.ty, p, Gathered(q, main, ws));
            && IsA(ElemTy(q.ty), a) && IsA(ElemTy(q.ty), r)
            && Num(r) == Num(a) + SumOut(q, p, ws) && Text(r) == AggStr(Text(a), LastText(q, p, ws))
    ensures Has(p, Gathered(q, main, ws)) <==> Has(p, main.out(q)) || SomeOut(q, p, ws)
  {
    hide Typed, PartOf, Has, Agg;
    PartAgg(q.ty, p, main.out(q), main.out(q));
    if ws != [] {
      var init, last := ws[..|ws| - 1], ws[|ws| - 1];
      GatheredParts(q, p, main, init);
      var b, c := Gathered(q, main, init), last.out(q);
      AggTyped(q.ty, b, c);
      PartAgg(q.ty, p, b, c);
      PartAgg(q.ty, p, c, c);
      PartAgg(q.ty, p, Gathered(q, main, ws), c);
      AggAdds(ElemTy(q.ty), PartOf(q.ty, p, b), PartOf(q.ty, p, c));
      SomeOutMore(q, p, ws);
    }
  }

  lemma AggAdds(e: Ty, x: Scalar, y: Scalar)
    requires IsA(e, x) && IsA(e, y)
    ensures Num(AggScalar(x, y)) == Num(x) + Num(y) && Text(AggScalar(x, y)) == AggStr(Text(x), Text(y))
  {
  }

  lemma SomeOutMore(q: Reg, p: Part, ws: seq<Thread>)
    requires ws != []
    ensures SomeOut(q, p, ws) <==> SomeOut(q, p, ws[..|ws| - 1]) || Has(p, ws[|ws| - 1].out(q))
  {
    hide Has;
    assert forall j | 0 <= j < |ws| - 1 :: ws[..|ws| - 1][j] == ws[j];
  }

  // The other threads add nothing: their numbers sum to zero, their last nonempty string is the main
  // thread's, and they have no keys that it has not.
  ghost predicate OthersIdle(q: Reg, main: Thread, ws: seq<Thread>) {
    forall p: Part {:trigger PartOf(q.ty, p, main.out(q))} ::
      && SumOut(q, p, ws) == 0.0
      && AggStr(Text(PartOf(q.ty, p, main.out(q))), LastText(q, p, ws)) == Text(PartOf(q.ty, p, main.out(q)))
      && (SomeOut(q, p, ws) ==> Has(p, main.out(q)))
  }

  // The main thread's value reaches END unchanged exactly if the other threads add nothing.
  lemma ArrivesUnchanged(q: Reg, main: Thread, ws: seq<Thread>)
    requires ThreadsTyped(q, main, ws)
    ensures Gathered(q, main, ws) == main.out(q) <==> OthersIdle(q, main, ws)
  {
    hide Typed, Gathered, PartOf, Has;
    var v, r := main.out(q), Gathered(q, main, ws);
    forall p: Part
      ensures (PartOf(q.ty, p, r) == PartOf(q.ty, p, v) && (Has(p, r) <==> Has(p, v))) <==>
              (SumOut(q, p, ws) == 0.0 && (SomeOut(q, p, ws) ==> Has(p, v)) &&
               AggStr(Text(PartOf(q.ty, p, v)), LastText(q, p, ws)) == Text(PartOf(q.ty, p, v)))
    {
      GatheredParts(q, p, main, ws);
      SameScalar(ElemTy(q.ty), PartOf(q.ty, p, r), PartOf(q.ty, p, v));
    }
    GatheredParts(q, Whole, main, ws);
    if OthersIdle(q, main, ws) {
      SameParts(q.ty, r, v);
    }
  }

  lemma SameScalar(e: Ty, x: Scalar, y: Scalar)
    requires IsA(e, x) && IsA(e, y)
    ensures x == y <==> Num(x) == Num(y) && Text(x) == Text(y)
  {
  }

  // Every number in it is zero; strings always count as idle.
  ghost predicate AllZero(ty: Ty, v: Value) {
    forall p: Part :: Num(PartOf(ty, p, v)) == 0.0
  }

  lemma {:induction false} Copies(q: Reg, p: Part, v: Value, ws: seq<Thread>)
    requires forall j | 0 <= j < |ws| :: ws[j].out(q) == v
    ensures SumOut(q, p, ws) == |ws| as real * Num(PartOf(q.ty, p, v))
    ensures LastText(q, p, ws) == if ws == [] then "" else Text(PartOf(q.ty, p, v))
    ensures SomeOut(q, p, ws) ==> Has(p, v)
  {
    hide PartOf, Num;
    if ws != [] {
      Copies(q, p, v, ws[..|ws| - 1]);
      assert SumOut(q, p, ws) == (|ws| - 1) as real * Num(PartOf(q.ty, p, v)) + Num(PartOf(q.ty, p, v));
    }
  }

  // A value that only BEGIN and END mention passes through every thread of the main loop, so END
  // gets one copy per thread. It arrives unchanged exactly if there is one thread, or every number
  // in it is zero.
  lemma BeginValueArrives(q: Reg, v: Value, main: Thread, ws: seq<Thread>)
    requires ThreadsTyped(q, main, ws) && main.out(q) == v && forall j | 0 <= j < |ws| :: ws[j].out(q) == v
    ensures Gathered(q, main, ws) == v <==> ws == [] || AllZero(q.ty, v)
  {
    hide Typed, Gathered, PartOf, Has, SumOut, LastText, SomeOut, Num, ThreadsTyped;
    ArrivesUnchanged(q, main, ws);
    forall p: Part
      ensures SumOut(q, p, ws) == 0.0 <==> ws == [] || Num(PartOf(q.ty, p, v)) == 0.0
      ensures AggStr(Text(PartOf(q.ty, p, v)), LastText(q, p, ws)) == Text(PartOf(q.ty, p, v))
      ensures SomeOut(q, p, ws) ==> Has(p, v)
    {
      Copies(q, p, v, ws);
      var n, x := |ws| as real, Num(PartOf(q.ty, p, v));
      ProductZero(n, x);
    }
  }

  lemma ProductZero(x: real, y: real)
    ensures x * y == 0.0 <==> x == 0.0 || y == 0.0
  {
  }

  // An integer arrives once for every thread.
  lemma OncePerThread(q: Reg, n: int, main: Thread, ws: seq<Thread>)
    requires q.ty.Int? && main.out(q) == One(IntV(n)) && forall j | 0 <= j < |ws| :: ws[j].out(q) == One(IntV(n))
    ensures Gathered(q, main, ws) == One(IntV((|ws| + 1) * n))
  {
    if ws != [] {
      OncePerThread(q, n, main, ws[..|ws| - 1]);
      assert (|ws| - 1 + 1) * n + n == (|ws| + 1) * n;
    }
  }

  // `BEGIN { x = 5 } { print } END { print x }`: no thread of the main loop touches x, and with one
  // worker beside the main thread END prints 10.
  lemma OnlyBeginAndEnd(begin: Option<nat>, mainLoop: Option<nat>, end: Option<nat>, globalRefs: seq<set<Reg>>,
                        slots: map<Reg, nat>, p: StageSlots, x: Parties, r: StageResult, q: Reg, n: int)
    requires IsPlan(begin, mainLoop, end, ComputeSlots(begin, mainLoop, end, globalRefs), slots, p)
    requires BeforeEnd(mainLoop, p, x, r) && begin.Some? && mainLoop.Some? && end.Some?
    requires q.ty.Int? && q in RefsOf(begin, globalRefs) && q in RefsOf(end, globalRefs)
    requires x.beginOut(q) == One(IntV(n))
    requires forall th | IsThread(x, th) && LoopStart(p, x, th).Some? :: th.out(q) == LoopStart(p, x, th).value.0(q)
    ensures EndStart(p, x, r.slots).Some? && EndStart(p, x, r.slots).value.0(q) == One(IntV((|x.workers| + 1) * n))
    ensures n == 5 && |x.workers| == 1 ==> EndStart(p, x, r.slots).value.0(q) == One(IntV(10))
  {
    hide IsPlan, BeforeEnd, LoopStart, EndStart;
    StagesCommunicate(begin, mainLoop, end, globalRefs, slots, p, x, r);
    forall j | 0 <= j < |x.workers|
      ensures x.workers[j].out(q) == One(IntV(n))
    {
      assert IsThread(x, x.workers[j]);
    }
    assert IsThread(x, x.main);
    OncePerThread(q, n, x.main, x.workers);
  }
}
