// src/cross_stage.rs and `add_slots` in src/compile.rs: which globals travel between BEGIN, the
// main loop and END of a parallel script, and through which slots.
module Stages {
  import opened Ir
  import opened Bytecode

  // begin_stores: stored by BEGIN, loaded by the main loop; loop_stores: stored by the main loop,
  // loaded by END.
  datatype SlotOps = SlotOps(beginStores: set<Reg>, loopStores: set<Reg>)

  function ComputePar(beginRefs: set<Reg>, loopRefs: set<Reg>, endRefs: set<Reg>): SlotOps {
    var beginEnd := beginRefs * endRefs;
    SlotOps(beginRefs * loopRefs + beginEnd, loopRefs * endRefs + beginEnd)
  }

  function RefsOf(x: Option<nat>, globalRefs: seq<set<Reg>>): set<Reg> {
    if x.Some? && x.value < |globalRefs| then globalRefs[x.value] else {}
  }

  function ComputeSlots(begin: Option<nat>, mainLoop: Option<nat>, end: Option<nat>,
                        globalRefs: seq<set<Reg>>): SlotOps {
    ComputePar(RefsOf(begin, globalRefs), RefsOf(mainLoop, globalRefs), RefsOf(end, globalRefs))
  }

  // ---- Slot numbers ----

  class SlotCounter {
    var slots: map<Reg, nat>
    var counter: map<Ty, nat>

    // No two registers of one type share a slot.
    ghost predicate Valid()
      reads this
    {
      && (forall r | r in slots :: r.ty in counter && slots[r] < counter[r.ty])
      && OwnSlots(slots)
    }

    constructor ()
      ensures Valid() && slots == map[]
    {
      slots, counter := map[], map[];
    }

    method GetSlot(reg: Reg) returns (slot: nat)
      requires Valid()
      modifies this
      ensures Valid() && reg in slots && slots[reg] == slot
      ensures slots.Keys == old(slots).Keys + {reg} && forall r | r in old(slots) :: slots[r] == old(slots)[r]
    {
      if reg in slots {
        return slots[reg];
      }
      slot := if reg.ty in counter then counter[reg.ty] else 0;
      counter := counter[reg.ty := slot + 1];
      slots := slots[reg := slot];
    }
  }

  ghost predicate OwnSlots(slots: map<Reg, nat>) {
    forall r, q | r in slots && q in slots && r.ty == q.ty && slots[r] == slots[q] :: r == q
  }

  // ---- Slot instructions ----

  datatype SlotInst = LoadSlot(r: Reg, slot: nat) | StoreSlot(r: Reg, slot: nat)

  // Each of these registers once, through its own slot; values without a type are left out.
  ghost predicate Covers(insts: seq<SlotInst>, load: bool, regs: set<Reg>, slots: map<Reg, nat>) {
    && (forall k | 0 <= k < |insts| ::
          && insts[k].LoadSlot? == load && insts[k].r in regs && insts[k].r.ty.Stackable()
          && insts[k].r in slots && insts[k].slot == slots[insts[k].r])
    && (forall j, k | 0 <= j < k < |insts| :: insts[j].r != insts[k].r)
    && (forall r | r in regs && r.ty.Stackable() :: exists k :: 0 <= k < |insts| && insts[k].r == r)
  }

  ghost predicate NoIters(regs: set<Reg>) {
    forall r | r in regs :: !r.ty.IsIter()
  }

  ghost predicate KeepsSlots(slots: map<Reg, nat>, more: map<Reg, nat>) {
    slots.Keys <= more.Keys && forall r | r in slots :: more[r] == slots[r]
  }

  // The source walks a hash set, so the order is arbitrary; each instruction is put in front.
  // An iterator cannot travel.
  method SlotInsts(regs: set<Reg>, load: bool, ctr: SlotCounter) returns (insts: seq<SlotInst>, ok: bool)
    requires ctr.Valid()
    modifies ctr
    ensures ctr.Valid() && KeepsSlots(old(ctr.slots), ctr.slots)
    ensures ok <==> NoIters(regs)
    ensures Covers(insts, load, regs, ctr.slots)
  {
    hide Covers, OwnSlots, NoIters, KeepsSlots;
    insts, ok := [], true;
    var rest := regs;
    ghost var start := ctr.slots;
    CoversNothing(load, regs - rest, ctr.slots);
    NoItersMore({}, Reg(Null, 0));
    KeepsTrans(start, start, start);
    while rest != {}
      invariant rest <= regs && ctr.Valid() && KeepsSlots(start, ctr.slots)
      invariant ok <==> NoIters(regs - rest)
      invariant Covers(insts, load, regs - rest, ctr.slots)
      modifies ctr
    {
      var reg :| reg in rest;
      ghost var done, before := regs - rest, ctr.slots;
      var slot := ctr.GetSlot(reg);
      KeepsTrans(start, before, ctr.slots);
      NoItersMore(done, reg);
      CoversKept(insts, load, done, before, ctr.slots);
      CoversMore(insts, load, done, ctr.slots, reg);
      ok := ok && !reg.ty.IsIter();
      if reg.ty.Stackable() {
        insts := [if load then LoadSlot(reg, slot) else StoreSlot(reg, slot)] + insts;
      }
      OneLess(regs, rest, reg);
      rest := rest - {reg};
    }
    NoneLeft(regs);
  }

  lemma OneLess<T>(all: set<T>, rest: set<T>, x: T)
    requires x in rest && rest <= all
    ensures all - (rest - {x}) == (all - rest) + {x} && x !in all - rest
  {
  }

  lemma NoneLeft<T>(all: set<T>)
    ensures all - {} == all
  {
  }

  lemma NoItersMore(regs: set<Reg>, reg: Reg)
    ensures NoIters(regs + {reg}) <==> NoIters(regs) && !reg.ty.IsIter()
    ensures regs == {} ==> NoIters(regs)
  {
  }

  lemma KeepsTrans(a: map<Reg, nat>, b: map<Reg, nat>, c: map<Reg, nat>)
    ensures KeepsSlots(a, a)
    ensures b.Keys <= c.Keys && (forall r | r in b :: c[r] == b[r]) ==> KeepsSlots(b, c)
    ensures KeepsSlots(a, b) && KeepsSlots(b, c) ==> KeepsSlots(a, c)
  {
  }

  lemma CoversNothing(load: bool, regs: set<Reg>, slots: map<Reg, nat>)
    requires regs == {}
    ensures Covers([], load, regs, slots)
  {
  }

  lemma CoversMore(insts: seq<SlotInst>, load: bool, regs: set<Reg>, slots: map<Reg, nat>, reg: Reg)
    requires Covers(insts, load, regs, slots) && reg !in regs && reg in slots
    ensures reg.ty.Stackable() ==>
              var inst := if load then LoadSlot(reg, slots[reg]) else StoreSlot(reg, slots[reg]);
              Covers([inst] + insts, load, regs + {reg}, slots)
    ensures !reg.ty.Stackable() ==> Covers(insts, load, regs + {reg}, slots)
  {
    var more := [if load then LoadSlot(reg, slots[reg]) else StoreSlot(reg, slots[reg])] + insts;
    forall r | r in regs && r.ty.Stackable()
      ensures exists k :: 0 <= k < |more| && more[k].r == r
    {
      var k :| 0 <= k < |insts| && insts[k].r == r;
      assert more[k + 1].r == r;
    }
    assert more[0].r == reg;
  }

  lemma CoversKept(insts: seq<SlotInst>, load: bool, regs: set<Reg>, slots: map<Reg, nat>, more: map<Reg, nat>)
    requires Covers(insts, load, regs, slots) && KeepsSlots(slots, more)
    ensures Covers(insts, load, regs, more)
  {
  }

  datatype StageSlots = StageSlots(beginExit: seq<SlotInst>, loopEntry: seq<SlotInst>, loopExit: seq<SlotInst>,
                                   endEntry: seq<SlotInst>)

  // What `add_slots` puts at the stages' entries and exits.
  ghost predicate IsPlan(begin: Option<nat>, mainLoop: Option<nat>, end: Option<nat>, ops: SlotOps, slots: map<Reg,
                         nat>, p: StageSlots) {
    && OwnSlots(slots)
    && (if begin.Some? then Covers(p.beginExit, false, ops.beginStores, slots) else p.beginExit == [])
    && (if mainLoop.Some? then
          Covers(p.loopEntry, true, ops.beginStores, slots) && Covers(p.loopExit, false, ops.loopStores, slots)
        else p.loopEntry == [] && p.loopExit == [])
    && (if end.Some? then Covers(p.endEntry, true, ops.loopStores, slots) else p.endEntry == [])
  }

  // None stands for the error of a travelling iterator.
  method AddSlots(begin: Option<nat>, mainLoop: Option<nat>, end: Option<nat>, globalRefs: seq<set<Reg>>)
    returns (plan: Option<StageSlots>, ghost slots: map<Reg, nat>)
    ensures plan.Some? ==>
              IsPlan(begin, mainLoop, end, ComputeSlots(begin, mainLoop, end, globalRefs), slots, plan.value)
    ensures (forall i | 0 <= i < |globalRefs| :: NoIters(globalRefs[i])) ==> plan.Some?
  {
    hide Covers, OwnSlots, NoIters;
    var ops := ComputeSlots(begin, mainLoop, end, globalRefs);
    OnlyReferenced(begin, mainLoop, end, globalRefs);
    var ctr := new SlotCounter();
    var b, le, lx, ee: seq<SlotInst> := [], [], [], [];
    var ok1, ok2, ok3, ok4 := true, true, true, true;
    if begin.Some? {
      b, ok1 := SlotInsts(ops.beginStores, false, ctr);
    }
    ghost var s1 := ctr.slots;
    if mainLoop.Some? {
      le, ok2 := SlotInsts(ops.beginStores, true, ctr);
    }
    ghost var s2 := ctr.slots;
    if mainLoop.Some? {
      lx, ok3 := SlotInsts(ops.loopStores, false, ctr);
    }
    ghost var s3 := ctr.slots;
    if end.Some? {
      ee, ok4 := SlotInsts(ops.loopStores, true, ctr);
    }
    slots := ctr.slots;
    if begin.Some? {
      CoversKept(b, false, ops.beginStores, s1, slots);
    }
    if mainLoop.Some? {
      CoversKept(le, true, ops.beginStores, s2, slots);
      CoversKept(lx, false, ops.loopStores, s3, slots);
    }
    plan := if ok1 && ok2 && ok3 && ok4 then Some(StageSlots(b, le, lx, ee)) else None;
  }

  lemma OnlyReferenced(begin: Option<nat>, mainLoop: Option<nat>, end: Option<nat>, globalRefs: seq<set<Reg>>)
    ensures var ops := ComputeSlots(begin, mainLoop, end, globalRefs);
            (forall i | 0 <= i < |globalRefs| ::
                  NoIters(globalRefs[i])) ==> NoIters(ops.beginStores) && NoIters(ops.loopStores)
  {
  }

  // ---- Running the slot instructions ----

  // A vector of slots for every type.
  type SlotVals<!V> = Ty -> seq<V>

  function Default<V>(n: nat, zero: V): (s: seq<V>)
    ensures |s| == n && forall k | 0 <= k < n :: s[k] == zero
  {
    seq(n, _ => zero)
  }

  // `set_slot`: a slot behind the end makes the vector grow.
  function SetSlot<V>(vec: seq<V>, slot: nat, v: V, zero: V): (r: seq<V>)
    ensures slot < |r| && |r| >= |vec| && r[slot] == v && forall k | 0 <= k < |vec| && k != slot :: r[k] == vec[k]
  {
    if slot < |vec| then vec[slot := v] else vec + Default(slot - |vec|, zero) + [v]
  }

  function PutVec<V>(vals: SlotVals<V>, ty: Ty, vec: seq<V>): SlotVals<V> {
    (t: Ty) => if t == ty then vec else vals(t)
  }

  // Numbers are copied out of their slots, everything else is taken.
  predicate Copied(ty: Ty) {
    ty.Int? || ty.Float?
  }

  function RunStores<V>(insts: seq<SlotInst>, regs: Regs<V>, vals: SlotVals<V>, zero: Ty -> V): SlotVals<V> {
    if insts == [] then vals
    else
      var i := insts[0];
      RunStores(insts[1..], regs, PutVec(vals, i.r.ty, SetSlot(vals(i.r.ty), i.slot, regs(i.r), zero(i.r.ty))), zero)
  }

  // None: a load from a slot that does not exist.
  function RunLoads<V>(insts: seq<SlotInst>, regs: Regs<V>, vals: SlotVals<V>, zero: Ty -> V): Option<(Regs<V>,
                       SlotVals<V>)> {
    if insts == [] then Some((regs, vals))
    else
      var i := insts[0];
      var vec := vals(i.r.ty);
      if i.slot >= |vec| then None
      else
        var after := if Copied(i.r.ty) then vec else vec[i.slot := zero(i.r.ty)];
        RunLoads(insts[1..], SetReg(regs, i.r, vec[i.slot]), PutVec(vals, i.r.ty, after), zero)
  }

  // Slot of r holds v.
  ghost predicate Holds<V>(vals: SlotVals<V>, slots: map<Reg, nat>, r: Reg, v: V) {
    r in slots && slots[r] < |vals(r.ty)| && vals(r.ty)[slots[r]] == v
  }

  // Stores leave every stored register in its slot and disturb no other slot.
  lemma {:induction false} StoresHold<V>(insts: seq<SlotInst>, slots: map<Reg, nat>, regs: Regs<V>,
                                         vals: SlotVals<V>, zero: Ty -> V)
    requires OwnSlots(slots) && forall k | 0 <= k < |insts| :: insts[k].r in slots && insts[k].slot == slots[insts[k].r]
    ensures forall k | 0 <= k < |insts| ::
              Holds(RunStores(insts, regs, vals, zero), slots, insts[k].r, regs(insts[k].r))
    ensures forall r, v | Holds(vals, slots, r, v) && (forall k | 0 <= k < |insts| :: insts[k].r != r) ::
              Holds(RunStores(insts, regs, vals, zero), slots, r, v)
  {
    if insts != [] {
      var i := insts[0];
      var vals1 := PutVec(vals, i.r.ty, SetSlot(vals(i.r.ty), i.slot, regs(i.r), zero(i.r.ty)));
      StoresHold(insts[1..], slots, regs, vals1, zero);
      assert Holds(vals1, slots, i.r, regs(i.r));
      assert forall k | 0 < k < |insts| :: insts[k] == insts[1..][k - 1];
      assert forall r, v | Holds(vals, slots, r, v) && r != i.r :: Holds(vals1, slots, r, v);
    }
  }

  ghost predicate Mentions(insts: seq<SlotInst>, r: Reg) {
    exists k :: 0 <= k < |insts| && insts[k].r == r
  }

  lemma MentionsFirst(insts: seq<SlotInst>, r: Reg)
    requires insts != []
    ensures Mentions(insts, r) <==> r == insts[0].r || Mentions(insts[1..], r)
  {
    if Mentions(insts[1..], r) {
      var k :| 0 <= k < |insts[1..]| && insts[1..][k].r == r;
      assert insts[k + 1].r == r;
    }
    if Mentions(insts, r) && r != insts[0].r {
      var k :| 0 <= k < |insts| && insts[k].r == r;
      assert insts[1..][k - 1].r == r;
    }
  }

  // Loads bring what the slots hold, each register its own.
  lemma {:induction false} LoadsBring<V>(insts: seq<SlotInst>, slots: map<Reg, nat>, regs: Regs<V>,
                                         vals: SlotVals<V>, zero: Ty -> V,
                                         want: Regs<V>)
    requires OwnSlots(slots) && forall k | 0 <= k < |insts| :: insts[k].r in slots && insts[k].slot == slots[insts[k].r]
    requires forall j, k | 0 <= j < k < |insts| :: insts[j].r != insts[k].r
    requires forall k | 0 <= k < |insts| :: Holds(vals, slots, insts[k].r, want(insts[k].r))
    ensures RunLoads(insts, regs, vals, zero).Some?
    ensures var (regs', vals') := RunLoads(insts, regs, vals, zero).value;
            && (forall k | 0 <= k < |insts| :: regs'(insts[k].r) == want(insts[k].r))
            && (forall r | !Mentions(insts, r) :: regs'(r) == regs(r))
            && (forall r, v | Holds(vals, slots, r, v) && !Mentions(insts, r) :: Holds(vals', slots, r, v))
  {
    if insts != [] {
      var i := insts[0];
      var vec := vals(i.r.ty);
      assert Holds(vals, slots, i.r, want(i.r));
      var after := if Copied(i.r.ty) then vec else vec[i.slot := zero(i.r.ty)];
      var vals1, regs1 := PutVec(vals, i.r.ty, after), SetReg(regs, i.r, vec[i.slot]);
      assert forall k | 0 < k < |insts| :: insts[k] == insts[1..][k - 1];
      assert forall r, v | Holds(vals, slots, r, v) && r != i.r :: Holds(vals1, slots, r, v);
      forall r
        ensures Mentions(insts, r) <==> r == i.r || Mentions(insts[1..], r)
      {
        MentionsFirst(insts, r);
      }
      hide Mentions;
      LoadsBring(insts[1..], slots, regs1, vals1, zero, want);
    }
  }

  // A store pass followed by a load pass of some of the same registers.
  lemma Handover<V>(stores: seq<SlotInst>, loads: seq<SlotInst>, out: set<Reg>, back: set<Reg>, slots: map<Reg, nat>,
                    from: Regs<V>, into: Regs<V>, vals: SlotVals<V>, zero: Ty -> V)
    requires OwnSlots(slots) && Covers(stores, false, out, slots) && Covers(loads, true, back, slots) && back <= out
    ensures var r := RunLoads(loads, into, RunStores(stores, from, vals, zero), zero);
            && r.Some?
            && (forall q | q in back && q.ty.Stackable() :: r.value.0(q) == from(q))
            && (forall q | !(q in back && q.ty.Stackable()) :: r.value.0(q) == into(q))
  {
    StoresHold(stores, slots, from, vals, zero);
    var vals1 := RunStores(stores, from, vals, zero);
    forall k | 0 <= k < |loads|
      ensures Holds(vals1, slots, loads[k].r, from(loads[k].r))
    {
      var q := loads[k].r;
      assert q in out && q.ty.Stackable();
      var j :| 0 <= j < |stores| && stores[j].r == q;
    }
    LoadsBring(loads, slots, into, vals1, zero, from);
  }

  lemma NoInsts<V>(regs: Regs<V>, vals: SlotVals<V>, zero: Ty -> V)
    ensures RunStores([], regs, vals, zero) == vals && RunLoads([], regs, vals, zero) == Some((regs, vals))
  {
  }

  // Stages that do not exist neither store nor load.
  lemma StageCovers(begin: Option<nat>, mainLoop: Option<nat>, end: Option<nat>, globalRefs: seq<set<Reg>>,
                    slots: map<Reg, nat>, p: StageSlots)
    requires IsPlan(begin, mainLoop, end, ComputeSlots(begin, mainLoop, end, globalRefs), slots, p)
    ensures var ops := ComputeSlots(begin, mainLoop, end, globalRefs);
            && OwnSlots(slots)
            && Covers(p.beginExit, false, if begin.Some? then ops.beginStores else {}, slots)
            && Covers(p.loopEntry, true, if mainLoop.Some? then ops.beginStores else {}, slots)
            && Covers(p.loopExit, false, if mainLoop.Some? then ops.loopStores else {}, slots)
            && Covers(p.endEntry, true, if end.Some? then ops.loopStores else {}, slots)
            && (begin.None? ==> ops.beginStores == {})
            && (mainLoop.None? ==> ops.loopStores <= ops.beginStores)
  {
  }
}
