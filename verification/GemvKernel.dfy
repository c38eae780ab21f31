/** The GPU `gemv`: one thread per column, no barrier. */
module GemvKernel {
  import opened Arith
  import opened Layout
  import opened Simt
  import opened Schedules
  import opened Native

  const A: nat := 0
  const B: nat := 1
  const C: nat := 2

  /** A grid of `x` workgroups (y and z are 1). */
  predicate Fits32(s: Shape, x: nat) {
    s.n < 0x1_0000_0000 && s.k < 0x1_0000_0000 && s.k * s.n <= 0x1_0000_0000 && x * 256 <= 0x1_0000_0000
  }

  predicate Covers(s: Shape, x: nat) {
    x * 256 >= s.n
  }

  function Col(w: nat, i: nat): nat {
    U32(U32(w * 256) + i)
  }

  /** `sum += A[k] * B[k * N + col]` for each `k < n`. */
  function AddProducts<T>(s: Shape, col: nat, n: nat): seq<Instr<T>> {
    if n == 0 then []
    else AddProducts(s, col, n - 1) + MultiplyAdd(Global(A, n - 1), Global(B, U32(U32((n - 1) * s.n) + col)))
  }

  function Code<T>(s: Shape, col: nat): seq<Instr<T>> {
    if col < s.n then AddProducts(s, col, s.k) + StoreSum(Global(C, col), false) else []
  }

  function Kernel<T>(ar: Arith<T>, s: Shape, x: nat): Program<T> {
    Program(ar, x, 256, 1, (w: nat, i: nat, ph: nat) => Code(s, Col(w, i)), Regs(ar.zero, ar.zero, ar.zero))
  }

  ghost predicate Bound<T>(s: Shape, mem: Memory<T>, a: seq<T>, b: seq<T>, c: seq<T>) {
    Holds(mem, A, a) && Holds(mem, B, b) && Holds(mem, C, c) && GemvLongEnough(s, a, b, c)
  }

  lemma ColIs(s: Shape, x: nat, w: nat, i: nat)
    requires Fits32(s, x) && w < x && i < 256
    ensures Col(w, i) == w * 256 + i
  {
    U32Sum(w * 256, i);
  }

  /** The loop only reads, and only A and B. */
  lemma {:induction false} ProductsRead<T>(s: Shape, col: nat, n: nat, k: nat)
    requires k < |AddProducts<T>(s, col, n)|
    ensures
      var ins := AddProducts<T>(s, col, n)[k];
      !ins.Store? && (ins.Load? ==> ins.cell.Global? && ins.cell.buf in {A, B})
  {
    if k < |AddProducts<T>(s, col, n - 1)| {
      ProductsRead<T>(s, col, n - 1, k);
    }
  }

  /** A thread touches one element of C, its own. */
  lemma CodeFootprint<T>(s: Shape, col: nat, c: Cell)
    ensures TouchesIn(Code<T>(s, col), c) && c.Global? && c.buf == C ==> col < s.n && c == Global(C, col)
    ensures WritesIn(Code<T>(s, col), c) ==> col < s.n && c == Global(C, col)
  {
    if col < s.n {
      var code, loop := Code<T>(s, col), AddProducts<T>(s, col, s.k);
      forall k | 0 <= k < |loop|
        ensures !code[k].Store? && (code[k].Load? ==> code[k].cell.Global? && code[k].cell.buf in {A, B})
      {
        ProductsRead<T>(s, col, s.k, k);
        assert code[k] == loop[k];
      }
    }
  }

  lemma KernelIsRaceFree<T>(ar: Arith<T>, s: Shape, x: nat)
    requires Fits32(s, x)
    ensures RaceFree(Kernel(ar, s, x))
  {
    var p := Kernel(ar, s, x);
    forall w: nat, w': nat, i: nat, j: nat, ph: nat, q: nat, c: Cell
      | w < p.groups && w' < p.groups && i < p.size && j < p.size && ph < p.phases && q < p.phases
        && (w != w' || i != j) && WritesIn(p.code(w, i, ph), c)
      ensures !TouchesIn(p.code(w', j, q), c)
    {
      CodeFootprint<T>(s, Col(w, i), c);
      CodeFootprint<T>(s, Col(w', j), c);
      ColIs(s, x, w, i);
      ColIs(s, x, w', j);
    }
  }

  lemma NoProducts<T>(ar: Arith<T>, s: Shape, col: nat, a: seq<T>, b: seq<T>, v: View<T>)
    requires col < s.n && |a| >= s.k && |b| >= s.k * s.n
    ensures InBounds(AddProducts<T>(s, col, 0), v.mem.Keys) && Alone(ar, AddProducts(s, col, 0), v) == v
    ensures RowProduct(ar, s, a, b, col, 0) == ar.zero
  {
  }

  /** One more term of the loop, and of the sum. */
  lemma OneMoreProduct<T>(ar: Arith<T>, s: Shape, x: nat, col: nat, n: nat, a: seq<T>, b: seq<T>, mem: Memory<T>)
    returns (c0: Cell, c1: Cell)
    requires Fits32(s, x) && col < s.n && 0 < n <= s.k && |a| >= s.k && |b| >= s.k * s.n
    requires Holds(mem, A, a) && Holds(mem, B, b)
    ensures c0 in mem && c1 in mem
    ensures AddProducts<T>(s, col, n) == AddProducts(s, col, n - 1) + MultiplyAdd(c0, c1)
    ensures RowProduct(ar, s, a, b, col, n) == ar.add(RowProduct(ar, s, a, b, col, n - 1), ar.mul(mem[c0], mem[c1]))
  {
    IndexFits(n - 1, col, s.k, s.n);
    U32Sum((n - 1) * s.n, col);
    c0, c1 := Global(A, n - 1), Global(B, (n - 1) * s.n + col);
  }

  /** One thread on its own adds up its column as native code does. */
  lemma {:induction false} ProductsAlone<T>(
    ar: Arith<T>, s: Shape, x: nat, col: nat, n: nat, a: seq<T>, b: seq<T>, v: View<T>)
    requires Fits32(s, x) && col < s.n && n <= s.k && |a| >= s.k && |b| >= s.k * s.n
    requires Holds(v.mem, A, a) && Holds(v.mem, B, b) && v.regs.sum == ar.zero
    ensures InBounds(AddProducts<T>(s, col, n), v.mem.Keys)
    ensures var r := Alone(ar, AddProducts(s, col, n), v);
      r.mem == v.mem && r.regs.sum == RowProduct(ar, s, a, b, col, n)
  {
    hide *;
    if n == 0 {
      NoProducts(ar, s, col, a, b, v);
    } else {
      ProductsAlone(ar, s, x, col, n - 1, a, b, v);
      var c0, c1 := OneMoreProduct(ar, s, x, col, n, a, b, v.mem);
      AddOneAlone(ar, AddProducts(s, col, n - 1), c0, c1, v);
    }
  }

  lemma CodeAlone<T>(ar: Arith<T>, s: Shape, x: nat, col: nat, a: seq<T>, b: seq<T>, v: View<T>)
    requires Fits32(s, x) && col < s.n && |a| >= s.k && |b| >= s.k * s.n
    requires Holds(v.mem, A, a) && Holds(v.mem, B, b) && v.regs.sum == ar.zero && Global(C, col) in v.mem
    ensures InBounds(Code<T>(s, col), v.mem.Keys) && WritesIn(Code<T>(s, col), Global(C, col))
    ensures Alone(ar, Code(s, col), v).mem[Global(C, col)] == RowProduct(ar, s, a, b, col, s.k)
  {
    var loop, store := AddProducts<T>(s, col, s.k), StoreSum<T>(Global(C, col), false);
    ProductsAlone(ar, s, x, col, s.k, a, b, v);
    AloneStoreSum(ar, Global(C, col), false, Alone(ar, loop, v));
    AloneConcat(ar, loop, store, v);
    assert Code<T>(s, col)[|loop|].Writes(Global(C, col));
  }

  lemma KernelIsWellFormed<T>(ar: Arith<T>, s: Shape, x: nat, a: seq<T>, b: seq<T>, c: seq<T>, mem: Memory<T>)
    requires Fits32(s, x) && Bound(s, mem, a, b, c)
    ensures WellFormed(Kernel(ar, s, x), mem.Keys)
  {
    var p := Kernel(ar, s, x);
    KernelIsRaceFree(ar, s, x);
    forall w: nat, i: nat, ph: nat | w < p.groups && i < p.size && ph < p.phases
      ensures InBounds(p.code(w, i, ph), mem.Keys)
    {
      hide RaceFree, Col;
      if Col(w, i) < s.n {
        CodeAlone(ar, s, x, Col(w, i), a, b, View(p.init, mem));
      }
    }
  }

  /** One element, by its thread, whatever the schedule. */
  lemma SettledThread<T>(
    p: Program<T>, s: Shape, x: nat, w: nat, i: nat, a: seq<T>, b: seq<T>, mem: Memory<T>, final: Memory<T>, col: nat)
    requires WellFormed(p, mem.Keys) && Settled(p, mem, final) && w < p.groups && i < p.size && p.phases == 1
    requires p.code(w, i, 0) == Code(s, col) && p.init.sum == p.arith.zero
    requires Fits32(s, x) && col < s.n && |a| >= s.k && |b| >= s.k * s.n
    requires Holds(mem, A, a) && Holds(mem, B, b) && Global(C, col) in mem
    ensures final[Global(C, col)] == RowProduct(p.arith, s, a, b, col, s.k)
  {
    AtNext(p, mem, w, 0);
    var gv := At(p, mem, w, 0);
    assert gv.mem == mem && gv.regs[i] == p.init;
    hide At, NextPhase, RaceFree, StaysInside, Code, Fits32, Holds, RowProduct;
    CodeAlone(p.arith, s, x, col, a, b, View(p.init, mem));
    ThreadInPhase(p, gv, w, 0, i, Code(s, col));
    WritesAreTouches(Code<T>(s, col), Global(C, col));
    assert GroupTouches(p, w, Global(C, col));
  }

  lemma SettledElement<T>(
    ar: Arith<T>, s: Shape, x: nat, a: seq<T>, b: seq<T>, c: seq<T>, mem: Memory<T>, final: Memory<T>, col: nat)
    requires Fits32(s, x) && Covers(s, x) && Bound(s, mem, a, b, c) && col < s.n
    requires WellFormed(Kernel(ar, s, x), mem.Keys) && Settled(Kernel(ar, s, x), mem, final)
    ensures Global(C, col) in mem && final[Global(C, col)] == RowProduct(ar, s, a, b, col, s.k)
  {
    hide Settled, WellFormed, RowProduct, Code;
    var p, w, i := Kernel(ar, s, x), col / 256, col % 256;
    ColIs(s, x, w, i);
    assert p.code(w, i, 0) == Code(s, col);
    SettledThread(p, s, x, w, i, a, b, mem, final, col);
  }

  lemma OtherCells<T>(ar: Arith<T>, s: Shape, x: nat, buf: nat, j: nat)
    requires buf == C ==> j >= s.n
    ensures Untouched(Kernel(ar, s, x), Global(buf, j))
  {
    var p, c := Kernel(ar, s, x), Global(buf, j);
    forall w: nat, i: nat, ph: nat | w < p.groups && i < p.size && ph < p.phases
      ensures !WritesIn(p.code(w, i, ph), c)
    {
      CodeFootprint<T>(s, Col(w, i), c);
    }
  }

  /** Main result: every finished schedule of a covering grid leaves what native code leaves,
      with no law of the numbers used. */
  lemma RefinesNative<T>(
    ar: Arith<T>, s: Shape, x: nat, a: seq<T>, b: seq<T>, c: seq<T>, mem: Memory<T>, run: seq<State<T>>)
    requires Fits32(s, x) && Covers(s, x) && Bound(s, mem, a, b, c)
    requires IsRun(Kernel(ar, s, x), mem, run) && Finished(Kernel(ar, s, x), run[|run| - 1])
    ensures Holds(run[|run| - 1].mem, C, GemvResult(ar, s, a, b, c))
    ensures Holds(run[|run| - 1].mem, A, a) && Holds(run[|run| - 1].mem, B, b)
  {
    var final := run[|run| - 1].mem;
    KernelIsWellFormed(ar, s, x, a, b, c, mem);
    EverySchedule(Kernel(ar, s, x), mem, run);
    hide IsRun, Finished, WellFormed, Kernel, Untouched, GroupTouches, Fits32, Covers, RowProduct;
    forall buf: nat, j: nat | Global(buf, j) in mem && (buf == C ==> j >= s.n)
      ensures final[Global(buf, j)] == mem[Global(buf, j)]
    {
      OtherCells(ar, s, x, buf, j);
    }
    forall col: nat | col < s.n
      ensures Global(C, col) in mem && final[Global(C, col)] == RowProduct(ar, s, a, b, col, s.k)
    {
      SettledElement(ar, s, x, a, b, c, mem, final, col);
    }
  }
}
