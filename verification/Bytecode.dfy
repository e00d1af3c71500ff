// The typed register bytecode of src/bytecode.rs and the control, stack and move cases of the
// interpreter loop in src/interp.rs. All other instructions read registers, write registers and
// change the world, as an arbitrary interpretation says.
module Bytecode {

  datatype Ty =
    | Int | Float | Str
    | MapIntInt | MapIntFloat | MapIntStr | MapStrInt | MapStrFloat | MapStrStr
    | IterInt | IterStr
    | Null
  {
    predicate IsIter() {
      IterInt? || IterStr?
    }
    predicate IsArray() {
      MapIntInt? || MapIntFloat? || MapIntStr? || MapStrInt? || MapStrFloat? || MapStrStr?
    }
    // The types that have a value stack.
    predicate Stackable() {
      !IsIter() && !Null?
    }
  }

  datatype Reg = Reg(ty: Ty, ix: nat)

  const MAP_TYPES: set<Ty> := {MapIntInt, MapIntFloat, MapIntStr, MapStrInt, MapStrFloat, MapStrStr}
  // The types that values are moved, pushed and popped at.
  const VALUE_TYPES: set<Ty> := {Int, Float, Str} + MAP_TYPES

  const UNUSED: nat := 0xFFFF_FFFF
  const NULL_REG: nat := UNUSED - 1

  datatype LL =
    | Op(op: nat, dsts: seq<Reg>, srcs: seq<Reg>)
    | AllocMap(reg: Reg)
    | Mov(dst: Reg, src: nat)
    | JmpIf(cond: nat, lbl: nat)
    | Jmp(lbl: nat)
    | Push(r: Reg)
    | Pop(r: Reg)
    | Call(func: nat)
    | Ret
  {
    predicate IsPlain() {
      Op? || AllocMap? || (Mov? && dst.ty.Stackable())
    }
  }

  datatype MSem<!V, !W> = MSem(
    opVal: (nat, seq<V>, W, nat) -> V,
    opWorld: (nat, seq<V>, W) -> W,
    alloc: (Ty, W) -> V,
    allocWorld: (Ty, W) -> W,
    nonzero: V -> bool)

  type Regs<!V> = Reg -> V
  type Stacks<!V> = Ty -> seq<V>

  function SetReg<V>(regs: Regs<V>, r: Reg, v: V): Regs<V> {
    (q: Reg) => if q == r then v else regs(q)
  }

  function SetStack<V>(stacks: Stacks<V>, ty: Ty, s: seq<V>): Stacks<V> {
    (t: Ty) => if t == ty then s else stacks(t)
  }

  function Read<V>(regs: Regs<V>, rs: seq<Reg>): (vs: seq<V>)
    ensures |vs| == |rs| && forall i | 0 <= i < |rs| :: vs[i] == regs(rs[i])
  {
    seq(|rs|, i requires 0 <= i < |rs| => regs(rs[i]))
  }

  // The results of an operation, written in order.
  function WriteFrom<V>(regs: Regs<V>, dsts: seq<Reg>, k: nat, f: nat -> V): Regs<V>
    requires k <= |dsts|
    decreases |dsts| - k
  {
    if k == |dsts| then regs else WriteFrom(SetReg(regs, dsts[k], f(k)), dsts, k + 1, f)
  }

  // Instructions without control or stack effects.
  function Plain<V, W>(sem: MSem<V, W>, i: LL, regs: Regs<V>, w: W): (Regs<V>, W)
    requires i.IsPlain()
  {
    match i
    case Op(op, dsts, srcs) =>
      var vs := Read(regs, srcs);
      (WriteFrom(regs, dsts, 0, (k: nat) => sem.opVal(op, vs, w, k)), sem.opWorld(op, vs, w))
    case AllocMap(reg) => (SetReg(regs, reg, sem.alloc(reg.ty, w)), sem.allocWorld(reg.ty, w))
    case Mov(dst, src) => (SetReg(regs, dst, regs(Reg(dst.ty, src))), w)
  }

  datatype Machine<!V, !W> = Machine(fn: nat, pc: nat, regs: Regs<V>, stacks: Stacks<V>, calls: seq<(nat, nat)>,
                                     world: W)

  // Stuck: a program counter outside the instruction vector, a pop from an empty stack, or a stack
  // or move operation at a type that has none.
  datatype Outcome<!V, !W> = Going(m: Machine<V, W>) | Finished(world: W) | Stuck

  function MStep<V, W>(sem: MSem<V, W>, code: seq<seq<LL>>, m: Machine<V, W>): Outcome<V, W> {
    if m.fn >= |code| || m.pc >= |code[m.fn]| then Stuck
    else
      match code[m.fn][m.pc]
      case JmpIf(cond, lbl) =>
        if sem.nonzero(m.regs(Reg(Int, cond))) then Going(m.(pc := lbl)) else Going(m.(pc := m.pc + 1))
      case Jmp(lbl) => Going(m.(pc := lbl))
      case Push(r) =>
        if !r.ty.Stackable() then Stuck
        else Going(m.(pc := m.pc + 1, stacks := SetStack(m.stacks, r.ty, m.stacks(r.ty) + [m.regs(r)])))
      case Pop(r) =>
        var s := m.stacks(r.ty);
        if !r.ty.Stackable() || s == [] then Stuck
        else
          var stacks := SetStack(m.stacks, r.ty, s[..|s| - 1]);
          Going(m.(pc := m.pc + 1, regs := SetReg(m.regs, r, s[|s| - 1]), stacks := stacks))
      case Call(func) => Going(m.(fn := func, pc := 0, calls := m.calls + [(m.fn, m.pc + 1)]))
      case Ret =>
        if m.calls == [] then Finished(m.world)
        else
          var top := m.calls[|m.calls| - 1];
          Going(m.(fn := top.0, pc := top.1, calls := m.calls[..|m.calls| - 1]))
      case i =>
        if !i.IsPlain() then Stuck
        else
          var (regs, w) := Plain(sem, i, m.regs, m.world);
          Going(m.(pc := m.pc + 1, regs := regs, world := w))
  }

  function MRun<V, W>(sem: MSem<V, W>, code: seq<seq<LL>>, n: nat, o: Outcome<V, W>): Outcome<V, W> {
    if n == 0 || !o.Going? then o else MRun(sem, code, n - 1, MStep(sem, code, o.m))
  }

  lemma {:induction false} MRunAdd<V, W>(sem: MSem<V, W>, code: seq<seq<LL>>, a: nat, b: nat, o: Outcome<V, W>)
    ensures MRun(sem, code, a + b, o) == MRun(sem, code, b, MRun(sem, code, a, o))
  {
    if a > 0 && o.Going? {
      MRunAdd(sem, code, a - 1, b, MStep(sem, code, o.m));
    }
  }

  // ---- Pieces of code at a position ----

  ghost predicate CodeAt(code: seq<LL>, pc: nat, piece: seq<LL>) {
    pc + |piece| <= |code| && code[pc..pc + |piece|] == piece
  }

  lemma CodeAtSplit(code: seq<LL>, pc: nat, a: seq<LL>, b: seq<LL>)
    requires CodeAt(code, pc, a + b)
    ensures CodeAt(code, pc, a) && CodeAt(code, pc + |a|, b)
  {
    assert code[pc..pc + |a + b|][..|a|] == a;
    assert code[pc..pc + |a + b|][|a|..] == b;
  }

  lemma CodeAtIndex(code: seq<LL>, pc: nat, piece: seq<LL>, k: nat)
    requires CodeAt(code, pc, piece) && k < |piece|
    ensures pc + k < |code| && code[pc + k] == piece[k]
  {
    assert code[pc..pc + |piece|][k] == piece[k];
  }

  // ---- Pushes and pops ----

  function Pushes(rs: seq<Reg>): seq<LL> {
    if rs == [] then []
    else Pushes(rs[..|rs| - 1]) + (if rs[|rs| - 1].ty.Stackable() then [Push(rs[|rs| - 1])] else [])
  }

  // In reverse order.
  function Pops(rs: seq<Reg>): seq<LL> {
    if rs == [] then []
    else (if rs[|rs| - 1].ty.Stackable() then [Pop(rs[|rs| - 1])] else []) + Pops(rs[..|rs| - 1])
  }

  // What a push of these registers, holding these values, leaves on the stack of type t.
  function Pushed<V>(rs: seq<Reg>, vs: seq<V>, t: Ty): seq<V>
    requires |rs| == |vs|
  {
    if rs == [] then []
    else Pushed(rs[..|rs| - 1], vs[..|vs| - 1], t) +
         (if rs[|rs| - 1].ty == t && t.Stackable() then [vs[|vs| - 1]] else [])
  }

  // regs after giving the stackable registers in rs the values vs.
  ghost predicate Given<V>(rs: seq<Reg>, vs: seq<V>, before: Regs<V>, after: Regs<V>)
    requires |rs| == |vs|
  {
    && (forall i | 0 <= i < |rs| && rs[i].ty.Stackable() :: after(rs[i]) == vs[i])
    && (forall r | r !in rs || !r.ty.Stackable() :: after(r) == before(r))
  }

  ghost predicate DistinctRegs(rs: seq<Reg>) {
    forall i, j | 0 <= i < j < |rs| && rs[i].ty.Stackable() :: rs[i] != rs[j]
  }

  lemma {:induction false} PushAll<V, W>(sem: MSem<V, W>, code: seq<seq<LL>>, m: Machine<V, W>, rs: seq<Reg>)
    returns (m': Machine<V, W>)
    requires m.fn < |code| && CodeAt(code[m.fn], m.pc, Pushes(rs))
    ensures MRun(sem, code, |Pushes(rs)|, Going(m)) == Going(m')
    ensures m' == m.(pc := m.pc + |Pushes(rs)|, stacks := m'.stacks)
    ensures forall t :: m'.stacks(t) == m.stacks(t) + Pushed(rs, Read(m.regs, rs), t)
  {
    hide CodeAt, MStep, MRun;
    if rs == [] {
      m' := m;
      NoRun(sem, code, m);
    } else {
      var init, last := rs[..|rs| - 1], rs[|rs| - 1];
      assert Read(m.regs, rs)[..|rs| - 1] == Read(m.regs, init);
      if last.ty.Stackable() {
        CodeAtSplit(code[m.fn], m.pc, Pushes(init), [Push(last)]);
        var m1 := PushAll(sem, code, m, init);
        CodeAtIndex(code[m.fn], m.pc + |Pushes(init)|, [Push(last)], 0);
        m' := PushOne(sem, code, m1, last);
        MRunAdd(sem, code, |Pushes(init)|, 1, Going(m));
      } else {
        assert Pushes(rs) == Pushes(init);
        m' := PushAll(sem, code, m, init);
      }
    }
  }

  lemma RunFirst<V, W>(sem: MSem<V, W>, code: seq<seq<LL>>, m: Machine<V, W>, m1: Machine<V, W>, n: nat)
    requires MStep(sem, code, m) == Going(m1)
    ensures MRun(sem, code, n + 1, Going(m)) == MRun(sem, code, n, Going(m1))
  {
  }

  lemma NoRun<V, W>(sem: MSem<V, W>, code: seq<seq<LL>>, m: Machine<V, W>)
    ensures MRun(sem, code, 0, Going(m)) == Going(m)
  {
  }

  lemma PushOne<V, W>(sem: MSem<V, W>, code: seq<seq<LL>>, m: Machine<V, W>, r: Reg) returns (m': Machine<V, W>)
    requires m.fn < |code| && m.pc < |code[m.fn]| && code[m.fn][m.pc] == Push(r) && r.ty.Stackable()
    ensures MRun(sem, code, 1, Going(m)) == Going(m')
    ensures m' == m.(pc := m.pc + 1, stacks := m'.stacks)
    ensures forall t :: m'.stacks(t) == if t == r.ty then m.stacks(t) + [m.regs(r)] else m.stacks(t)
  {
    m' := m.(pc := m.pc + 1, stacks := SetStack(m.stacks, r.ty, m.stacks(r.ty) + [m.regs(r)]));
    assert MStep(sem, code, m) == Going(m');
    assert MRun(sem, code, 0, Going(m')) == Going(m');
  }

  // One pop, of the value on top.
  lemma PopOne<V, W>(sem: MSem<V, W>, code: seq<seq<LL>>, m: Machine<V, W>, r: Reg, v: V, below: Stacks<V>)
    returns (m': Machine<V, W>)
    requires m.fn < |code| && m.pc < |code[m.fn]| && code[m.fn][m.pc] == Pop(r) && r.ty.Stackable()
    requires m.stacks(r.ty) == below(r.ty) + [v] && forall t | t != r.ty :: m.stacks(t) == below(t)
    ensures MStep(sem, code, m) == Going(m')
    ensures m' == m.(pc := m.pc + 1, regs := SetReg(m.regs, r, v), stacks := m'.stacks)
    ensures forall t :: m'.stacks(t) == below(t)
  {
    var s := m.stacks(r.ty);
    assert s[..|s| - 1] == below(r.ty);
    m' := m.(pc := m.pc + 1, regs := SetReg(m.regs, r, v), stacks := SetStack(m.stacks, r.ty, s[..|s| - 1]));
  }

  lemma {:induction false} PopAll<V, W>(sem: MSem<V, W>, code: seq<seq<LL>>, m: Machine<V, W>, rs: seq<Reg>,
                                        vs: seq<V>, base: Stacks<V>)
    returns (m': Machine<V, W>)
    requires |rs| == |vs| && DistinctRegs(rs)
    requires m.fn < |code| && CodeAt(code[m.fn], m.pc, Pops(rs))
    requires forall t :: m.stacks(t) == base(t) + Pushed(rs, vs, t)
    ensures MRun(sem, code, |Pops(rs)|, Going(m)) == Going(m')
    ensures m' == m.(pc := m.pc + |Pops(rs)|, regs := m'.regs, stacks := m'.stacks)
    ensures forall t :: m'.stacks(t) == base(t)
    ensures Given(rs, vs, m.regs, m'.regs)
    decreases |rs|
  {
    hide CodeAt, MStep, MRun, Given, DistinctRegs, Pushed, Pops;
    if rs == [] {
      m' := m;
      NoRun(sem, code, m);
      NothingPushed<V>();
      GivenNothing(m.regs);
    } else {
      var init, last, us, v := rs[..|rs| - 1], rs[|rs| - 1], vs[..|vs| - 1], vs[|vs| - 1];
      FewerRegs(rs);
      SplitLast(rs);
      SplitLast(vs);
      PushedLast(rs, vs);
      if last.ty.Stackable() {
        CodeAtSplit(code[m.fn], m.pc, [Pop(last)], Pops(init));
        CodeAtIndex(code[m.fn], m.pc, [Pop(last)], 0);
        var below: Stacks<V> := (t: Ty) => base(t) + Pushed(init, us, t);
        StackBelow(m.stacks, base, rs, vs);
        var m1 := PopOne(sem, code, m, last, v, below);
        m' := PopAll(sem, code, m1, init, us, base);
        RunFirst(sem, code, m, m1, |Pops(init)|);
        GivenMore(init, us, last, v, m.regs, m'.regs);
      } else {
        m' := PopAll(sem, code, m, init, us, base);
        GivenSkip(init, us, last, v, m.regs, m'.regs);
      }
    }
  }

  lemma NothingPushed<V>()
    ensures Pops([]) == [] && forall t :: Pushed<V>([], [], t) == []
  {
  }

  lemma {:induction false} PushedLast<V>(rs: seq<Reg>, vs: seq<V>)
    requires |rs| == |vs| > 0
    ensures var init, last := rs[..|rs| - 1], rs[|rs| - 1];
            && Pops(rs) == (if last.ty.Stackable() then [Pop(last)] else []) + Pops(init)
            && (!last.ty.Stackable() ==> Pops(rs) == Pops(init))
            && (forall t :: Pushed(rs, vs, t) == Pushed(init, vs[..|vs| - 1], t) +
                  (if last.ty == t && t.Stackable() then [vs[|vs| - 1]] else []))
            && (forall t | t != last.ty || !last.ty.Stackable() :: Pushed(rs, vs, t) == Pushed(init, vs[..|vs| - 1], t))
  {
  }

  // What is under the value on top.
  lemma {:induction false} StackBelow<V>(stacks: Stacks<V>, base: Stacks<V>, rs: seq<Reg>, vs: seq<V>)
    requires |rs| == |vs| > 0 && rs[|rs| - 1].ty.Stackable() && forall t :: stacks(t) == base(t) + Pushed(rs, vs, t)
    ensures var init, us, ty := rs[..|rs| - 1], vs[..|vs| - 1], rs[|rs| - 1].ty;
            && stacks(ty) == (base(ty) + Pushed(init, us, ty)) + [vs[|vs| - 1]]
            && (forall t | t != ty :: stacks(t) == base(t) + Pushed(init, us, t))
  {
    PushedLast(rs, vs);
    hide Pushed;
  }

  lemma SplitLast<T>(s: seq<T>)
    requires s != []
    ensures s == s[..|s| - 1] + [s[|s| - 1]]
  {
  }

  lemma GivenNothing<V>(regs: Regs<V>)
    ensures Given([], [], regs, regs)
  {
  }

  lemma FewerRegs(rs: seq<Reg>)
    requires rs != [] && DistinctRegs(rs)
    ensures DistinctRegs(rs[..|rs| - 1])
  {
  }

  lemma GivenMore<V>(rs: seq<Reg>, vs: seq<V>, last: Reg, v: V, before: Regs<V>, after: Regs<V>)
    requires |rs| == |vs| && last.ty.Stackable() && DistinctRegs(rs + [last])
    requires Given(rs, vs, SetReg(before, last, v), after)
    ensures Given(rs + [last], vs + [v], before, after)
  {
    if last.ty.Stackable() {
      forall i | 0 <= i < |rs|
        ensures rs[i] != last
      {
        assert (rs + [last])[i] == rs[i] && (rs + [last])[|rs|] == last;
      }
    }
  }

  lemma GivenSkip<V>(rs: seq<Reg>, vs: seq<V>, last: Reg, v: V, before: Regs<V>, after: Regs<V>)
    requires |rs| == |vs| && Given(rs, vs, before, after) && !last.ty.Stackable()
    ensures Given(rs + [last], vs + [v], before, after)
  {
  }

  // Values change hands by position: only the types of the registers matter to the stacks.
  lemma {:induction false} PushedSameTypes<V>(rs: seq<Reg>, qs: seq<Reg>, vs: seq<V>, t: Ty)
    requires |rs| == |qs| == |vs| && forall i | 0 <= i < |rs| :: rs[i].ty == qs[i].ty
    ensures Pushed(rs, vs, t) == Pushed(qs, vs, t)
  {
    if rs != [] {
      PushedSameTypes(rs[..|rs| - 1], qs[..|qs| - 1], vs[..|vs| - 1], t);
    }
  }
}
