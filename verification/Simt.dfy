/** A grid of workgroups whose threads interleave freely between barriers.

    The control flow of every kernel modelled here depends on the thread's ids and
    the meta only, never on the data, so a thread's work between two barriers is a
    list of instructions. A step runs one instruction of any thread of any workgroup, or
    lets one workgroup pass a barrier all of its threads wait at. Workgroups don't
    wait for each other. */
module Simt {
  import opened Arith

  /** A cell of a buffer, or of one workgroup's scratch array. */
  datatype Cell = Global(buf: nat, idx: nat) | Shared(wg: nat, arr: nat, idx: nat)

  datatype Reg = X | Y | Sum

  datatype Regs<T> = Regs(x: T, y: T, sum: T) {
    function Get(r: Reg): T {
      match r case X => x case Y => y case Sum => sum
    }

    function Set(r: Reg, v: T): Regs<T> {
      match r case X => this.(x := v) case Y => this.(y := v) case Sum => this.(sum := v)
    }
  }

  datatype Instr<T> =
    | Const(dst: Reg, value: T)
    | Load(dst: Reg, cell: Cell)
    | Store(cell: Cell, src: Reg)
    | Add(dst: Reg, left: Reg, right: Reg)
    | Mul(dst: Reg, left: Reg, right: Reg)
  {
    predicate Touches(c: Cell) {
      (Load? || Store?) && cell == c
    }

    predicate Writes(c: Cell) {
      Store? && cell == c
    }
  }

  type Memory<T> = map<Cell, T>

  /** Buffer `buf` holds `xs`, and maybe more past it. */
  ghost predicate Holds<T>(mem: Memory<T>, buf: nat, xs: seq<T>) {
    forall j: nat | j < |xs| :: Global(buf, j) in mem && mem[Global(buf, j)] == xs[j]
  }

  /** One workgroup thread's registers and the memory, as that thread sees them. */
  datatype View<T> = View(regs: Regs<T>, mem: Memory<T>)

  /** A kernel on a grid: `code(w, i, p)` is what thread `i` of workgroup `w` runs
      in phase `p`, the stretch before its barrier number `p`. */
  datatype Program<!T> = Program(
    arith: Arith<T>,
    groups: nat,
    size: nat,
    phases: nat,
    code: (nat, nat, nat) -> seq<Instr<T>>,
    init: Regs<T>)

  function Exec<T>(a: Arith<T>, ins: Instr<T>, v: View<T>): View<T>
    requires ins.Load? ==> ins.cell in v.mem
  {
    match ins
    case Const(dst, value) => v.(regs := v.regs.Set(dst, value))
    case Load(dst, cell) => v.(regs := v.regs.Set(dst, v.mem[cell]))
    case Store(cell, src) => v.(mem := v.mem[cell := v.regs.Get(src)])
    case Add(dst, l, r) => v.(regs := v.regs.Set(dst, a.add(v.regs.Get(l), v.regs.Get(r))))
    case Mul(dst, l, r) => v.(regs := v.regs.Set(dst, a.mul(v.regs.Get(l), v.regs.Get(r))))
  }

  predicate InBounds<T>(code: seq<Instr<T>>, keys: set<Cell>) {
    forall k | 0 <= k < |code| && (code[k].Load? || code[k].Store?) :: code[k].cell in keys
  }

  /** `code` run by one thread with no other around. */
  function Alone<T>(a: Arith<T>, code: seq<Instr<T>>, v: View<T>): (r: View<T>)
    requires InBounds(code, v.mem.Keys)
    ensures r.mem.Keys == v.mem.Keys
    decreases |code|
  {
    if code == [] then v
    else Exec(a, code[|code| - 1], Alone(a, code[..|code| - 1], v))
  }

  ghost predicate WritesIn<T>(code: seq<Instr<T>>, c: Cell) {
    exists k :: 0 <= k < |code| && code[k].Writes(c)
  }

  ghost predicate TouchesIn<T>(code: seq<Instr<T>>, c: Cell) {
    exists k :: 0 <= k < |code| && code[k].Touches(c)
  }

  lemma {:induction false} AloneConcat<T>(a: Arith<T>, c1: seq<Instr<T>>, c2: seq<Instr<T>>, v: View<T>)
    requires InBounds(c1, v.mem.Keys) && InBounds(c2, v.mem.Keys)
    ensures InBounds(c1 + c2, v.mem.Keys)
    ensures Alone(a, c1 + c2, v) == Alone(a, c2, Alone(a, c1, v))
    decreases |c2|
  {
    if c2 == [] {
      assert c1 + c2 == c1;
    } else {
      var n := |c2| - 1;
      AloneConcat(a, c1, c2[..n], v);
      assert (c1 + c2)[..|c1 + c2| - 1] == c1 + c2[..n];
      assert (c1 + c2)[|c1 + c2| - 1] == c2[n];
    }
  }

  lemma AloneSnoc<T>(a: Arith<T>, code: seq<Instr<T>>, last: Instr<T>, v: View<T>)
    requires InBounds(code + [last], v.mem.Keys)
    ensures InBounds(code, v.mem.Keys)
    ensures last.Load? || last.Store? ==> last.cell in v.mem
    ensures Alone(a, code + [last], v) == Exec(a, last, Alone(a, code, v))
  {
    assert forall k :: 0 <= k < |code| ==> (code + [last])[k] == code[k];
    assert (code + [last])[|code|] == last && (code + [last])[..|code|] == code;
  }

  lemma AloneNothing<T>(a: Arith<T>, v: View<T>)
    ensures Alone(a, [], v) == v
  {
  }

  /** Two cells filled, each with a loaded value or a constant. */
  lemma AloneFill<T>(a: Arith<T>, i0: Instr<T>, c0: Cell, i1: Instr<T>, c1: Cell, v: View<T>)
    requires InBounds([i0, Store(c0, X), i1, Store(c1, X)], v.mem.Keys) && c0 != c1
    requires (i0.Load? || i0.Const?) && (i1.Load? || i1.Const?) && i0.dst == i1.dst == X
    requires i1.Load? ==> i1.cell != c0
    ensures i0.Load? ==> i0.cell in v.mem
    ensures i1.Load? ==> i1.cell in v.mem
    ensures var r := Alone(a, [i0, Store(c0, X), i1, Store(c1, X)], v);
      && r.regs.sum == v.regs.sum
      && r.mem == v.mem[c0 := if i0.Load? then v.mem[i0.cell] else i0.value]
                       [c1 := if i1.Load? then v.mem[i1.cell] else i1.value]
  {
    hide Alone;
    AloneNothing(a, v);
    assert [i0, Store(c0, X), i1, Store(c1, X)] == [] + [i0] + [Store(c0, X)] + [i1] + [Store(c1, X)];
    AloneSnoc(a, [] + [i0] + [Store(c0, X)] + [i1], Store(c1, X), v);
    AloneSnoc(a, [] + [i0] + [Store(c0, X)], i1, v);
    AloneSnoc(a, [] + [i0], Store(c0, X), v);
    AloneSnoc(a, [], i0, v);
  }

  /** `sum += *c0 * *c1`. */
  function MultiplyAdd<T>(c0: Cell, c1: Cell): seq<Instr<T>> {
    [Load(X, c0), Load(Y, c1), Mul(X, X, Y), Add(Sum, Sum, X)]
  }

  lemma AloneMultiplyAdd<T>(a: Arith<T>, c0: Cell, c1: Cell, v: View<T>)
    requires c0 in v.mem && c1 in v.mem
    ensures InBounds(MultiplyAdd<T>(c0, c1), v.mem.Keys)
    ensures var r := Alone(a, MultiplyAdd(c0, c1), v);
      r.mem == v.mem && r.regs.sum == a.add(v.regs.sum, a.mul(v.mem[c0], v.mem[c1]))
  {
    hide Alone;
    AloneNothing(a, v);
    var i0, i1: Instr<T> := Load(X, c0), Load(Y, c1);
    assert MultiplyAdd(c0, c1) == [] + [i0] + [i1] + [Mul(X, X, Y)] + [Add(Sum, Sum, X)];
    AloneSnoc(a, [] + [i0] + [i1] + [Mul(X, X, Y)], Add(Sum, Sum, X), v);
    AloneSnoc(a, [] + [i0] + [i1], Mul(X, X, Y), v);
    AloneSnoc(a, [] + [i0], i1, v);
    AloneSnoc(a, [], i0, v);
  }

  /** One more product after a loop that only reads. */
  lemma AddOneAlone<T>(ar: Arith<T>, loop: seq<Instr<T>>, c0: Cell, c1: Cell, v: View<T>)
    requires InBounds(loop, v.mem.Keys) && Alone(ar, loop, v).mem == v.mem && c0 in v.mem && c1 in v.mem
    ensures InBounds(loop + MultiplyAdd<T>(c0, c1), v.mem.Keys)
    ensures var r := Alone(ar, loop + MultiplyAdd(c0, c1), v);
      r.mem == v.mem && r.regs.sum == ar.add(Alone(ar, loop, v).regs.sum, ar.mul(v.mem[c0], v.mem[c1]))
  {
    hide Alone, MultiplyAdd;
    AloneMultiplyAdd(ar, c0, c1, Alone(ar, loop, v));
    AloneConcat(ar, loop, MultiplyAdd<T>(c0, c1), v);
  }

  /** `*at = sum`, or `*at += sum`. */
  function StoreSum<T>(at: Cell, accumulate: bool): seq<Instr<T>> {
    if accumulate then [Load(X, at), Add(X, X, Sum), Store(at, X)] else [Store(at, Sum)]
  }

  lemma AloneStoreSum<T>(a: Arith<T>, at: Cell, accumulate: bool, v: View<T>)
    requires at in v.mem
    ensures InBounds(StoreSum<T>(at, accumulate), v.mem.Keys) && WritesIn(StoreSum<T>(at, accumulate), at)
    ensures Alone(a, StoreSum(at, accumulate), v).mem[at]
         == if accumulate then a.add(v.mem[at], v.regs.sum) else v.regs.sum
  {
    var code := StoreSum<T>(at, accumulate);
    assert code[|code| - 1].Writes(at);
    hide Alone;
    AloneNothing(a, v);
    if accumulate {
      assert code == [] + [Load(X, at)] + [Add(X, X, Sum)] + [Store(at, X)];
      AloneSnoc(a, [] + [Load(X, at)] + [Add(X, X, Sum)], Store(at, X), v);
      AloneSnoc(a, [] + [Load(X, at)], Add(X, X, Sum), v);
      AloneSnoc(a, [], Load(X, at), v);
    } else {
      assert code == [] + [Store(at, Sum)];
      AloneSnoc(a, [], Store(at, Sum), v);
    }
  }

  /** A cell a thread doesn't write keeps its value. */
  lemma {:induction false} AloneFrame<T>(a: Arith<T>, code: seq<Instr<T>>, v: View<T>, c: Cell)
    requires InBounds(code, v.mem.Keys) && c in v.mem && !WritesIn(code, c)
    ensures Alone(a, code, v).mem[c] == v.mem[c]
    decreases |code|
  {
    if code != [] {
      var n := |code| - 1;
      assert forall k :: 0 <= k < n ==> code[..n][k] == code[k];
      AloneFrame(a, code[..n], v, c);
      assert !code[n].Writes(c);
    }
  }

  // ----------------------------------------------------------------------------
  // The machine
  // ----------------------------------------------------------------------------

  datatype Thread<T> = Thread(pc: nat, regs: Regs<T>)

  datatype Group<T> = Group(phase: nat, threads: seq<Thread<T>>)

  datatype State<T> = State(groups: seq<Group<T>>, mem: Memory<T>)

  function Initial<T>(p: Program<T>, mem: Memory<T>): State<T> {
    State(seq(p.groups, w => Group(0, seq(p.size, i => Thread(0, p.init)))), mem)
  }

  ghost predicate Shaped<T>(p: Program<T>, s: State<T>) {
    && |s.groups| == p.groups
    && forall w | 0 <= w < p.groups :: s.groups[w].phase < p.phases && |s.groups[w].threads| == p.size
  }

  ghost function CodeOf<T>(p: Program<T>, s: State<T>, w: nat, i: nat): seq<Instr<T>>
    requires w < |s.groups|
  {
    p.code(w, i, s.groups[w].phase)
  }

  /** Thread `i` of workgroup `w` has an instruction to run before its next barrier. */
  ghost predicate Ready<T>(p: Program<T>, s: State<T>, w: nat, i: nat)
    requires Shaped(p, s)
  {
    w < p.groups && i < p.size && s.groups[w].threads[i].pc < |CodeOf(p, s, w, i)|
  }

  ghost function NextInstr<T>(p: Program<T>, s: State<T>, w: nat, i: nat): Instr<T>
    requires Shaped(p, s) && Ready(p, s, w, i)
  {
    CodeOf(p, s, w, i)[s.groups[w].threads[i].pc]
  }

  /** Thread `i` of workgroup `w` runs its next instruction. An access outside the
      memory has no step: the machine would be stuck there. */
  ghost predicate ThreadStep<T>(p: Program<T>, s: State<T>, s': State<T>, w: nat, i: nat) {
    && Shaped(p, s) && Ready(p, s, w, i)
    && var ins := NextInstr(p, s, w, i);
    && (ins.Load? || ins.Store? ==> ins.cell in s.mem)
    && var t := s.groups[w].threads[i];
    && var v := Exec(p.arith, ins, View(t.regs, s.mem));
    && s' == State(
         s.groups[w := s.groups[w].(threads := s.groups[w].threads[i := Thread(t.pc + 1, v.regs)])],
         v.mem)
  }

  ghost predicate AtBarrier<T>(p: Program<T>, s: State<T>, w: nat)
    requires Shaped(p, s) && w < p.groups
  {
    forall i | 0 <= i < p.size :: s.groups[w].threads[i].pc == |CodeOf(p, s, w, i)|
  }

  /** Every thread of workgroup `w` waits at its barrier: they all pass it. */
  ghost predicate BarrierStep<T>(p: Program<T>, s: State<T>, s': State<T>, w: nat) {
    && Shaped(p, s) && w < p.groups
    && s.groups[w].phase + 1 < p.phases
    && AtBarrier(p, s, w)
    && s' == s.(groups := s.groups[w := Group(
         s.groups[w].phase + 1,
         seq(p.size, i requires 0 <= i < p.size => s.groups[w].threads[i].(pc := 0)))])
  }

  ghost predicate Step<T>(p: Program<T>, s: State<T>, s': State<T>) {
    || (exists w: nat, i: nat :: ThreadStep(p, s, s', w, i))
    || (exists w: nat :: BarrierStep(p, s, s', w))
  }

  ghost predicate Finished<T>(p: Program<T>, s: State<T>) {
    && Shaped(p, s)
    && forall w: nat | w < p.groups :: s.groups[w].phase + 1 == p.phases && AtBarrier(p, s, w)
  }

  /** A schedule: any run of the machine from the kernel's start on `mem`. */
  ghost predicate IsRun<T>(p: Program<T>, mem: Memory<T>, run: seq<State<T>>) {
    && |run| > 0 && run[0] == Initial(p, mem)
    && forall k | 0 <= k < |run| - 1 :: Step(p, run[k], run[k + 1])
  }
}
