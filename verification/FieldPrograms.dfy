// Single-function programs over integers and integer maps that read columns of the current record:
// the instructions src/pushdown.rs tracks, and what running them does in src/interp.rs.
module FieldPrograms {
  import Frames

  datatype Inst =
    | StoreConstInt(dst: nat, i: int)
    // Arithmetic, comparisons, conversions from strings, lengths: any result at all.
    | Compute(dst: nat, srcs: seq<nat>)
    | MovInt(dst: nat, src: nat)
    | AllocMap(m: nat)
    | MovMap(dst: nat, src: nat)
    | Store(m: nat, key: nat, val: nat)
    | Lookup(dst: nat, m: nat, key: nat)
    | Delete(m: nat, key: nat)
    | Contains(dst: nat, m: nat, key: nat)
    | IterBegin(dst: nat, m: nat)
    | IterHasNext(dst: nat, iter: nat)
    | IterGetNext(dst: nat, iter: nat)
    | GetColumn(dst: nat, col: nat)
    | JoinColumns(dst: nat, start: nat, end: nat, sep: nat)
    // Integer phi: a register for each predecessor.
    | Phi(dst: nat, preds: seq<(nat, nat)>)

  datatype Script = Script(nodes: seq<seq<Inst>>, edges: seq<(nat, nat)>)

  // `tracked`: the integer registers last written by an instruction that states its inputs.
  datatype State = State(b: nat, i: nat, regs: nat -> int, tracked: set<nat>, maps: nat -> nat,
                         heap: nat -> map<int, int>, iters: nat -> seq<int>)

  function Update<T>(f: nat -> T, n: nat, v: T): nat -> T {
    (k: nat) => if k == n then v else f(k)
  }

  // Registers start with zeros, maps of their own, and finished iterators.
  ghost predicate Initial(s: State) {
    && s.b == 0 && s.i == 0 && s.tracked == {}
    && (forall r :: s.regs(r) == 0 && s.iters(r) == [] && s.heap(s.maps(r)) == map[])
    && (forall r, q | r != q :: s.maps(r) != s.maps(q))
  }

  // The integer registers an instruction reads as numbers.
  function Operands(i: Inst): set<nat> {
    match i
    case Compute(_, srcs) => set r | r in srcs
    case MovInt(_, src) => {src}
    case Store(_, key, val) => {key, val}
    case Lookup(_, _, key) => {key}
    case GetColumn(_, col) => {col}
    case JoinColumns(_, start, end, _) => {start, end}
    case _ => {}
  }

  // The columns an instruction reads. Negative columns are an error, and so are joins that do not
  // start and end at positive columns; joins stop at the last column of the record.
  ghost predicate Reads(i: Inst, s: State, c: int) {
    match i
    case GetColumn(_, col) => c >= 0 && s.regs(col) == c
    case JoinColumns(_, start, end, _) => 0 < s.regs(start) <= c <= s.regs(end)
    case _ => false
  }

  function WriteReg(s: State, r: nat, v: int): State {
    s.(regs := Update(s.regs, r, v), tracked := s.tracked + {r})
  }

  function WriteMap(s: State, m: nat, key: int, val: int): State {
    s.(heap := Update(s.heap, s.maps(m), s.heap(s.maps(m))[key := val]))
  }

  // Some key order; a map's keys are listed when iteration begins.
  ghost predicate ListsKeys(keys: seq<int>, m: map<int, int>) {
    forall k :: k in keys <==> k in m
  }

  // Effects, the position aside. Phis take effect on the way into a node.
  ghost predicate Effect(i: Inst, s: State, t: State) {
    match i
    case StoreConstInt(dst, k) => t == WriteReg(s, dst, k)
    case Compute(dst, _) => exists v :: t == WriteReg(s, dst, v)
    case MovInt(dst, src) => t == WriteReg(s, dst, s.regs(src))
    case AllocMap(m) =>
      exists o: nat :: (forall r :: s.maps(r) != o) &&
                       t == s.(maps := Update(s.maps, m, o), heap := Update(s.heap, o, map[]))
    case MovMap(dst, src) => t == s.(maps := Update(s.maps, dst, s.maps(src)))
    case Store(m, key, val) => t == WriteMap(s, m, s.regs(key), s.regs(val))
    case Lookup(dst, m, key) =>
      // A missing key is entered, with a zero.
      var k, found := s.regs(key), s.heap(s.maps(m));
      if k in found then t == WriteReg(s, dst, found[k]) else t == WriteReg(WriteMap(s, m, k, 0), dst, 0)
    case Delete(m, key) => t == s.(heap := Update(s.heap, s.maps(m), s.heap(s.maps(m)) - {s.regs(key)}))
    case Contains(dst, m, key) =>
      t == s.(regs := Update(s.regs, dst, if s.regs(key) in s.heap(s.maps(m)) then 1 else 0),
              tracked := s.tracked - {dst})
    case IterBegin(dst, m) =>
      exists keys :: ListsKeys(keys, s.heap(s.maps(m))) && t == s.(iters := Update(s.iters, dst, keys))
    case IterHasNext(dst, iter) =>
      t == s.(regs := Update(s.regs, dst, if s.iters(iter) != [] then 1 else 0), tracked := s.tracked - {dst})
    case IterGetNext(dst, iter) =>
      && s.iters(iter) != []
      && t == WriteReg(s, dst, s.iters(iter)[0]).(iters := Update(s.iters, iter, s.iters(iter)[1..]))
    case GetColumn(_, col) => s.regs(col) >= 0 && t == s
    case JoinColumns(_, start, end, _) => s.regs(start) > 0 && s.regs(end) > 0 && t == s
    case Phi(_, _) => t == s
  }

  // The leading phis of a node, from the k-th on, entered from p: all read what `s0` holds.
  function Enter(node: seq<Inst>, k: nat, p: nat, s0: State, s: State): State
    requires k <= |node|
    decreases |node| - k
  {
    if k < |node| && node[k].Phi? then
      var src := Frames.ArgReg(node[k].preds, p);
      var s1 :=
        if src.None? then s
        else
          var put := WriteReg(s, node[k].dst, s0.regs(src.value));
          if src.value in s0.tracked then put else put.(tracked := s.tracked - {node[k].dst});
      Enter(node, k + 1, p, s0, s1)
    else s
  }

  // One instruction, or the way into a successor; conditions are not modelled, so any edge may be taken.
  ghost predicate Step(prog: Script, s: State, t: State) {
    && s.b < |prog.nodes| && s.i <= |prog.nodes[s.b]|
    && if s.i < |prog.nodes[s.b]| then
         exists e :: Effect(prog.nodes[s.b][s.i], s, e) && t == e.(i := s.i + 1)
       else
         && t.b < |prog.nodes| && (s.b, t.b) in prog.edges
         && t == Enter(prog.nodes[t.b], 0, s.b, s, s).(b := t.b, i := 0)
  }

  // Every integer register read as a number was written, and not by a test.
  ghost predicate ReadsWritten(prog: Script, s: State) {
    s.b < |prog.nodes| && s.i < |prog.nodes[s.b]| ==> Operands(prog.nodes[s.b][s.i]) <= s.tracked
  }

  ghost predicate IsRun(prog: Script, run: seq<State>) {
    && |run| > 0 && Initial(run[0])
    && (forall j | 0 <= j < |run| - 1 :: Step(prog, run[j], run[j + 1]))
  }

  // The run is about to read column c.
  ghost predicate ReadsColumn(prog: Script, s: State, c: int) {
    s.b < |prog.nodes| && s.i < |prog.nodes[s.b]| && Reads(prog.nodes[s.b][s.i], s, c)
  }

  // ---- Registers that are certainly written, by something that states its inputs ----

  function Written(i: Inst, d: set<nat>): set<nat> {
    match i
    case StoreConstInt(dst, _) => d + {dst}
    case Compute(dst, _) => d + {dst}
    case MovInt(dst, _) => d + {dst}
    case Lookup(dst, _, _) => d + {dst}
    case IterGetNext(dst, _) => d + {dst}
    case Contains(dst, _, _) => d - {dst}
    case IterHasNext(dst, _) => d - {dst}
    case _ => d
  }

  function WrittenOnEntry(node: seq<Inst>, k: nat, p: nat, d0: set<nat>, d: set<nat>): set<nat>
    requires k <= |node|
    decreases |node| - k
  {
    if k < |node| && node[k].Phi? then
      var src := Frames.ArgReg(node[k].preds, p);
      WrittenOnEntry(node, k + 1, p, d0,
                     if src.None? then d else if src.value in d0 then d + {node[k].dst} else d - {node[k].dst})
    else d
  }

  // def[b][i]: written on every way to instruction i of node b. Every number is written before it is read.
  ghost predicate AssignTable(prog: Script, def: seq<seq<set<nat>>>) {
    && |def| == |prog.nodes| && (forall b | 0 <= b < |def| :: |def[b]| == |prog.nodes[b]| + 1)
    && (def != [] ==> def[0][0] == {})
    && (forall b, i | 0 <= b < |def| && 0 <= i < |prog.nodes[b]| ::
          def[b][i + 1] <= Written(prog.nodes[b][i], def[b][i]) && Operands(prog.nodes[b][i]) <= def[b][i])
    && (forall p: nat, b: nat | (p, b) in prog.edges && p < |def| && b < |def| ::
          def[b][0] <= WrittenOnEntry(prog.nodes[b], 0, p, def[p][|prog.nodes[p]|], def[p][|prog.nodes[p]|]))
  }

  // Definite assignment: some table says so.
  ghost predicate WrittenFirst(prog: Script) {
    exists def :: AssignTable(prog, def)
  }

  lemma EffectWrites(i: Inst, s: State, t: State, d: set<nat>)
    requires Effect(i, s, t) && d <= s.tracked
    ensures Written(i, d) <= t.tracked
  {
  }

  lemma {:induction false} EntryWrites(node: seq<Inst>, k: nat, p: nat, s0: State, s: State, d0: set<nat>, d: set<nat>)
    requires k <= |node| && d0 <= s0.tracked && d <= s.tracked
    ensures WrittenOnEntry(node, k, p, d0, d) <= Enter(node, k, p, s0, s).tracked
    decreases |node| - k
  {
    if k < |node| && node[k].Phi? {
      var src := Frames.ArgReg(node[k].preds, p);
      if src.None? {
        EntryWrites(node, k + 1, p, s0, s, d0, d);
      } else {
        var put := WriteReg(s, node[k].dst, s0.regs(src.value));
        var s1 := if src.value in s0.tracked then put else put.(tracked := s.tracked - {node[k].dst});
        EntryWrites(node, k + 1, p, s0, s1, d0, if src.value in d0 then d + {node[k].dst} else d - {node[k].dst});
      }
    }
  }

  // What the table promises holds in every state of every run.
  lemma {:induction false} TableHolds(prog: Script, def: seq<seq<set<nat>>>, run: seq<State>, j: nat)
    requires AssignTable(prog, def) && IsRun(prog, run) && j < |run|
    ensures run[j].b < |def| && run[j].i <= |prog.nodes[run[j].b]| ==> def[run[j].b][run[j].i] <= run[j].tracked
  {
    hide Effect, Enter, WrittenOnEntry, Written, Operands;
    if j > 0 {
      TableHolds(prog, def, run, j - 1);
      var s, t := run[j - 1], run[j - 1 + 1];
      assert Step(prog, s, t);
      if s.i < |prog.nodes[s.b]| {
        var e :| Effect(prog.nodes[s.b][s.i], s, e) && t == e.(i := s.i + 1);
        EffectWrites(prog.nodes[s.b][s.i], s, e, def[s.b][s.i]);
        SameNode(prog.nodes[s.b][s.i], s, e);
      } else {
        EntryWrites(prog.nodes[t.b], 0, s.b, s, s, def[s.b][s.i], def[s.b][s.i]);
      }
    }
  }

  lemma SameNode(i: Inst, s: State, t: State)
    requires Effect(i, s, t)
    ensures t.b == s.b && t.i == s.i
  {
  }

  // Definite assignment makes every read of every run one of a written number.
  lemma WrittenFirstReads(prog: Script, run: seq<State>, j: nat)
    requires WrittenFirst(prog) && IsRun(prog, run) && j < |run|
    ensures ReadsWritten(prog, run[j])
  {
    hide IsRun, Operands, Written, WrittenOnEntry;
    var def :| AssignTable(prog, def);
    TableHolds(prog, def, run, j);
  }
}
