/** The tree reductions `sum` and `dot`: 256 threads halve a scratch array, one barrier
    per halving, and leave one partial sum per workgroup. */
module TreeReduction {
  import opened Arith
  import opened Layout
  import opened Simt
  import opened Schedules
  import opened Native

  const PARTIAL: nat := 2

  /** No index the kernel computes in 32 bits wraps around. */
  predicate Fits32(r: Reduction, g: Grid) {
    r.n < 0x1_0000_0000 && g.x * g.y * 256 <= 0x1_0000_0000
  }

  /** What thread `j` of the grid adds: nothing past `n`. */
  function Item<T>(ar: Arith<T>, r: Reduction, x: seq<T>, y: seq<T>, j: nat): T
    requires Long(r, x, y)
  {
    if j < r.n then Terms(ar, r, x, y)[j] else ar.zero
  }

  function Items<T>(ar: Arith<T>, r: Reduction, x: seq<T>, y: seq<T>, from: nat, len: nat)
    : (s: seq<T>)
    requires Long(r, x, y)
    ensures |s| == len
  {
    seq(len, k requires 0 <= k < len => Item(ar, r, x, y, from + k))
  }

  /** `blockIdx.y * gridDim.x + blockIdx.x`. */
  function Wg(g: Grid, w: nat): nat
    requires g.Dispatched()
  {
    U32(U32(w / g.x * g.x) + w % g.x)
  }

  function Scratch(w: nat, k: nat): Cell {
    Shared(w, 0, k)
  }

  /** Cells still in use before phase `ph`: 256 before the first halving, 1 after the last. */
  function Width(ph: nat): nat {
    if ph <= 1 then 256 else Width(ph - 1) / 2
  }

  function LoadItem<T>(ar: Arith<T>, r: Reduction, w: nat, idx: nat, i: nat): seq<Instr<T>> {
    (if idx >= r.n then [Const(X, ar.zero)]
     else if r.dot then [Load(X, Global(0, idx)), Load(Y, Global(1, idx)), Mul(X, X, Y)]
     else [Load(X, Global(0, idx))])
    + [Store(Scratch(w, i), X)]
  }

  function Halve<T>(w: nat, i: nat, stride: nat): seq<Instr<T>> {
    if i < stride then
      [Load(X, Scratch(w, i)), Load(Y, Scratch(w, i + stride)), Add(X, X, Y), Store(Scratch(w, i), X)]
    else []
  }

  function StorePartial<T>(w: nat, i: nat, wg: nat): seq<Instr<T>> {
    if i == 0 then [Load(X, Scratch(w, 0)), Store(Global(PARTIAL, wg), X)] else []
  }

  function Code<T>(ar: Arith<T>, r: Reduction, w: nat, wg: nat, i: nat, ph: nat): seq<Instr<T>> {
    if ph == 0 then LoadItem(ar, r, w, U32(U32(wg * 256) + i), i)
    else if ph < 9 then Halve(w, i, Width(ph) / 2)
    else StorePartial(w, i, wg)
  }

  function Kernel<T>(ar: Arith<T>, r: Reduction, g: Grid): Program<T>
    requires g.Dispatched()
  {
    Program(ar, g.x * g.y, 256, 10, (w: nat, i: nat, ph: nat) => Code(ar, r, w, Wg(g, w), i, ph),
            Regs(ar.zero, ar.zero, ar.zero))
  }

  ghost predicate Bound<T>(r: Reduction, g: Grid, mem: Memory<T>, x: seq<T>, y: seq<T>, partial: seq<T>) {
    && Holds(mem, 0, x) && (r.dot ==> Holds(mem, 1, y)) && Holds(mem, PARTIAL, partial)
    && Long(r, x, y) && |partial| >= g.x * g.y
    && forall w: nat, k: nat | w < g.x * g.y && k < 256 :: Scratch(w, k) in mem
  }

  lemma SplitBack(w: nat, n: nat)
    requires n > 0 && w < 0x1_0000_0000
    ensures U32(U32(w / n * n) + w % n) == w
  {
    assert w / n * n + w % n == w && w / n * n >= 0;
    U32Sum(w / n * n, w % n);
  }

  lemma WgIsTrue(g: Grid, w: nat)
    requires g.Dispatched() && w < g.x * g.y && g.x * g.y * 256 <= 0x1_0000_0000
    ensures Wg(g, w) == w
  {
    SplitBack(w, g.x);
    assert w < 0x1_0000_0000;
  }

  lemma Widths()
    ensures Width(1) == 256 && Width(2) == 128 && Width(3) == 64 && Width(4) == 32 && Width(5) == 16
    ensures Width(6) == 8 && Width(7) == 4 && Width(8) == 2 && Width(9) == 1
  {
    assert Width(1) == 256;
    assert Width(2) == 128;
    assert Width(3) == 64;
    assert Width(4) == 32;
    assert Width(5) == 16;
    assert Width(6) == 8;
    assert Width(7) == 4;
    assert Width(8) == 2;
  }

  // ----------------------------------------------------------------------------
  // Race freedom
  // ----------------------------------------------------------------------------

  /** What a thread may touch in a phase, and what it may write: its own scratch cell, and
      in a halving a cell of the upper half, which nobody writes. */
  lemma CodeFootprint<T>(ar: Arith<T>, r: Reduction, w: nat, wg: nat, i: nat, ph: nat, c: Cell)
    ensures TouchesIn(Code(ar, r, w, wg, i, ph), c) ==>
      if ph == 0 then (c.Global? && c.buf < PARTIAL) || c == Scratch(w, i)
      else if ph < 9 then i < Width(ph) / 2 && (c == Scratch(w, i) || c == Scratch(w, i + Width(ph) / 2))
      else i == 0 && (c == Scratch(w, 0) || c == Global(PARTIAL, wg))
    ensures WritesIn(Code(ar, r, w, wg, i, ph), c) ==>
      if ph < 9 then c == Scratch(w, i) && (ph > 0 ==> i < Width(ph) / 2) else c == Global(PARTIAL, wg) && i == 0
  {
  }

  lemma KernelIsRaceFree<T>(ar: Arith<T>, r: Reduction, g: Grid)
    requires g.Dispatched() && Fits32(r, g)
    ensures RaceFree(Kernel(ar, r, g))
  {
    var p := Kernel(ar, r, g);
    forall w: nat | w < p.groups ensures Wg(g, w) == w {
      WgIsTrue(g, w);
    }
    hide Wg, Code, Fits32;
    forall w: nat, w': nat, i: nat, j: nat, ph: nat, q: nat, c: Cell
      | w < p.groups && w' < p.groups && i < p.size && j < p.size && ph < p.phases && q < p.phases
        && (w != w' || (i != j && ph == q)) && WritesIn(p.code(w, i, ph), c)
      ensures !TouchesIn(p.code(w', j, q), c)
    {
      TwoThreads(ar, r, w, i, ph, w', j, q, c);
    }
  }

  /** What one thread writes, another touches neither in the same phase nor from another workgroup. */
  lemma TwoThreads<T>(ar: Arith<T>, r: Reduction, w: nat, i: nat, ph: nat, w': nat, j: nat, q: nat, c: Cell)
    requires (w != w' || (i != j && ph == q)) && WritesIn(Code(ar, r, w, w, i, ph), c)
    ensures !TouchesIn(Code(ar, r, w', w', j, q), c)
  {
    hide Code, Width;
    CodeFootprint(ar, r, w, w, i, ph, c);
    CodeFootprint(ar, r, w', w', j, q, c);
  }

  ghost predicate HasScratch<T>(w: nat, mem: Memory<T>) {
    forall k: nat | k < 256 :: Scratch(w, k) in mem
  }

  /** The first `n` scratch cells. */
  ghost function ScratchOf<T>(w: nat, mem: Memory<T>, n: nat): (s: seq<T>)
    requires HasScratch(w, mem) && n <= 256
    ensures |s| == n && forall k: nat | k < n :: s[k] == mem[Scratch(w, k)]
  {
    seq(n, k requires 0 <= k < n => mem[Scratch(w, k)])
  }

  /** Workgroup `w` of `p` runs the kernel. */
  ghost predicate Runs<T>(p: Program<T>, r: Reduction, w: nat) {
    && p.size == 256 && p.phases == 10 && w < p.groups
    && forall i: nat, ph: nat | i < 256 && ph < 10 :: p.code(w, i, ph) == Code(p.arith, r, w, w, i, ph)
  }

  lemma LoadItemAlone<T>(ar: Arith<T>, r: Reduction, w: nat, idx: nat, i: nat, x: seq<T>, y: seq<T>, v: View<T>)
    requires Long(r, x, y) && Holds(v.mem, 0, x) && (r.dot ==> Holds(v.mem, 1, y)) && Scratch(w, i) in v.mem
    ensures InBounds(LoadItem(ar, r, w, idx, i), v.mem.Keys) && WritesIn(LoadItem(ar, r, w, idx, i), Scratch(w, i))
    ensures Alone(ar, LoadItem(ar, r, w, idx, i), v).mem[Scratch(w, i)] == Item(ar, r, x, y, idx)
  {
    var code, store := LoadItem(ar, r, w, idx, i), Store(Scratch(w, i), X);
    assert code[|code| - 1].Writes(Scratch(w, i));
    if idx >= r.n {
      assert code == [] + [Const(X, ar.zero)] + [store];
      AloneSnoc(ar, [] + [Const(X, ar.zero)], store, v);
      AloneSnoc(ar, [], Const(X, ar.zero), v);
    } else if r.dot {
      var l0, l1: Instr<T> := Load(X, Global(0, idx)), Load(Y, Global(1, idx));
      assert code == [] + [l0] + [l1] + [Mul(X, X, Y)] + [store];
      AloneSnoc(ar, [] + [l0] + [l1] + [Mul(X, X, Y)], store, v);
      AloneSnoc(ar, [] + [l0] + [l1], Mul(X, X, Y), v);
      AloneSnoc(ar, [] + [l0], l1, v);
      AloneSnoc(ar, [], l0, v);
    } else {
      var l0: Instr<T> := Load(X, Global(0, idx));
      assert code == [] + [l0] + [store];
      AloneSnoc(ar, [] + [l0], store, v);
      AloneSnoc(ar, [], l0, v);
    }
  }

  lemma HalveAlone<T>(ar: Arith<T>, w: nat, i: nat, stride: nat, v: View<T>)
    requires i < stride && Scratch(w, i) in v.mem && Scratch(w, i + stride) in v.mem
    ensures InBounds(Halve<T>(w, i, stride), v.mem.Keys) && WritesIn(Halve<T>(w, i, stride), Scratch(w, i))
    ensures Alone(ar, Halve(w, i, stride), v).mem[Scratch(w, i)]
         == ar.add(v.mem[Scratch(w, i)], v.mem[Scratch(w, i + stride)])
  {
    var store: Instr<T> := Store(Scratch(w, i), X);
    assert Halve<T>(w, i, stride)[3] == store && store.Writes(Scratch(w, i));
    AloneAddStore(ar, Scratch(w, i), Scratch(w, i + stride), v);
  }

  lemma AloneAddStore<T>(ar: Arith<T>, c0: Cell, c1: Cell, v: View<T>)
    requires c0 in v.mem && c1 in v.mem
    ensures var code: seq<Instr<T>> := [Load(X, c0), Load(Y, c1), Add(X, X, Y), Store(c0, X)];
      InBounds(code, v.mem.Keys) && Alone(ar, code, v).mem[c0] == ar.add(v.mem[c0], v.mem[c1])
  {
    hide Alone;
    var l0, l1: Instr<T> := Load(X, c0), Load(Y, c1);
    var code: seq<Instr<T>> := [l0, l1, Add(X, X, Y), Store(c0, X)];
    assert code == [] + [l0] + [l1] + [Add(X, X, Y)] + [Store(c0, X)];
    AloneSnoc(ar, [] + [l0] + [l1] + [Add(X, X, Y)], Store(c0, X), v);
    AloneSnoc(ar, [] + [l0] + [l1], Add(X, X, Y), v);
    AloneSnoc(ar, [] + [l0], l1, v);
    AloneSnoc(ar, [], l0, v);
    AloneNothing(ar, v);
  }

  lemma StorePartialAlone<T>(ar: Arith<T>, w: nat, wg: nat, v: View<T>)
    requires Scratch(w, 0) in v.mem && Global(PARTIAL, wg) in v.mem
    ensures InBounds(StorePartial<T>(w, 0, wg), v.mem.Keys)
    ensures WritesIn(StorePartial<T>(w, 0, wg), Global(PARTIAL, wg))
    ensures Alone(ar, StorePartial(w, 0, wg), v).mem[Global(PARTIAL, wg)] == v.mem[Scratch(w, 0)]
  {
    var l0, store: Instr<T> := Load(X, Scratch(w, 0)), Store(Global(PARTIAL, wg), X);
    assert StorePartial<T>(w, 0, wg)[1].Writes(Global(PARTIAL, wg));
    assert StorePartial(w, 0, wg) == [] + [l0] + [store];
    AloneSnoc(ar, [] + [l0], store, v);
    AloneSnoc(ar, [], l0, v);
  }

  /** The load phase: the scratch array holds the workgroup's slice. */
  lemma LoadPhase<T>(p: Program<T>, r: Reduction, w: nat, x: seq<T>, y: seq<T>, gv: GroupView<T>, next: GroupView<T>)
    requires Runs(p, r, w) && Long(r, x, y) && (w + 1) * 256 <= 0x1_0000_0000
    requires WellFormed(p, gv.mem.Keys) && Fits(p, gv, gv.mem.Keys) && HasScratch(w, gv.mem)
    requires Holds(gv.mem, 0, x) && (r.dot ==> Holds(gv.mem, 1, y))
    requires next == NextPhase(p, gv, w, 0)
    ensures HasScratch(w, next.mem) && ScratchOf(w, next.mem, 256) == Items(p.arith, r, x, y, w * 256, 256)
  {
    hide NextPhase, RaceFree, StaysInside, LoadItem, Halve, StorePartial, Item;
    forall i: nat | i < 256 ensures next.mem[Scratch(w, i)] == Item(p.arith, r, x, y, w * 256 + i) {
      U32Sum(w * 256, i);
      assert p.code(w, i, 0) == LoadItem(p.arith, r, w, w * 256 + i, i);
      LoadItemAlone(p.arith, r, w, w * 256 + i, i, x, y, View(gv.regs[i], gv.mem));
      ThreadInPhase(p, gv, w, 0, i, LoadItem(p.arith, r, w, w * 256 + i, i));
    }
  }

  /** A halving, for one thread of the lower half. */
  lemma HalvingThread<T>(p: Program<T>, r: Reduction, w: nat, ph: nat, s: nat, i: nat, gv: GroupView<T>, next: GroupView<T>)
    requires Runs(p, r, w) && 0 < ph < 9 && Width(ph) / 2 == s && i < s <= 128
    requires WellFormed(p, gv.mem.Keys) && Fits(p, gv, gv.mem.Keys)
    requires Scratch(w, i) in gv.mem && Scratch(w, i + s) in gv.mem
    requires next == NextPhase(p, gv, w, ph)
    ensures next.mem[Scratch(w, i)] == p.arith.add(gv.mem[Scratch(w, i)], gv.mem[Scratch(w, i + s)])
  {
    assert p.code(w, i, ph) == Halve(w, i, s);
    hide NextPhase, RaceFree, StaysInside, Halve, Width, Runs, Code;
    HalveAlone(p.arith, w, i, s, View(gv.regs[i], gv.mem));
    ThreadInPhase(p, gv, w, ph, i, Halve(w, i, s));
  }

  /** A halving: the lower half takes the sums, and the whole sum stays. */
  lemma HalvingPhase<T(!new)>(p: Program<T>, r: Reduction, w: nat, ph: nat, s: nat, gv: GroupView<T>, next: GroupView<T>)
    requires IsCommutativeMonoid(p.arith) && Runs(p, r, w) && 0 < ph < 9 && Width(ph) / 2 == s <= 128
    requires WellFormed(p, gv.mem.Keys) && Fits(p, gv, gv.mem.Keys) && HasScratch(w, gv.mem)
    requires next == NextPhase(p, gv, w, ph)
    ensures HasScratch(w, next.mem)
    ensures SumOf(p.arith, ScratchOf(w, next.mem, s)) == SumOf(p.arith, ScratchOf(w, gv.mem, 2 * s))
  {
    hide IsCommutativeMonoid, WellFormed, Runs, Width, SumOf, NextPhase;
    forall i: nat | i < s
      ensures next.mem[Scratch(w, i)] == p.arith.add(gv.mem[Scratch(w, i)], gv.mem[Scratch(w, i + s)])
    {
      HalvingThread(p, r, w, ph, s, i, gv, next);
    }
    var all := ScratchOf(w, gv.mem, 2 * s);
    SumPairwise(p.arith, all[..s], all[s..], ScratchOf(w, next.mem, s));
    assert all[..s] + all[s..] == all;
  }

  /** The sum of the cells still in use before phase `ph`. */
  ghost function SumInUse<T>(p: Program<T>, w: nat, ph: nat, gv: GroupView<T>): T
    requires HasScratch(w, gv.mem) && Width(ph) <= 256
  {
    SumOf(p.arith, ScratchOf(w, gv.mem, Width(ph)))
  }

  lemma HalvingStep<T(!new)>(p: Program<T>, r: Reduction, w: nat, ph: nat, gv: GroupView<T>, next: GroupView<T>)
    requires IsCommutativeMonoid(p.arith) && Runs(p, r, w) && 0 < ph < 9 && Width(ph) <= 256
    requires WellFormed(p, gv.mem.Keys) && Fits(p, gv, gv.mem.Keys) && HasScratch(w, gv.mem)
    requires next == NextPhase(p, gv, w, ph)
    ensures HasScratch(w, next.mem) && Width(ph + 1) <= 256 && SumInUse(p, w, ph + 1, next) == SumInUse(p, w, ph, gv)
  {
    Widths();
    assert Width(ph) == 2 * Width(ph + 1);
    hide IsCommutativeMonoid, WellFormed, Runs, Width, SumOf, NextPhase;
    HalvingPhase(p, r, w, ph, Width(ph + 1), gv, next);
  }

  lemma LoadStep<T>(p: Program<T>, r: Reduction, w: nat, x: seq<T>, y: seq<T>, mem: Memory<T>)
    requires Runs(p, r, w) && Long(r, x, y) && (w + 1) * 256 <= 0x1_0000_0000
    requires WellFormed(p, mem.Keys) && HasScratch(w, mem) && Holds(mem, 0, x) && (r.dot ==> Holds(mem, 1, y))
    ensures HasScratch(w, At(p, mem, w, 1).mem) && Width(1) == 256
    ensures SumInUse(p, w, 1, At(p, mem, w, 1)) == SumOf(p.arith, Items(p.arith, r, x, y, w * 256, 256))
  {
    AtNext(p, mem, w, 0);
    hide NextPhase, RaceFree, StaysInside, SumOf, Items, Code;
    LoadPhase(p, r, w, x, y, At(p, mem, w, 0), At(p, mem, w, 1));
  }

  /** After each phase, the cells still in use add up to the workgroup's slice. */
  lemma {:induction false} ScratchKeepsTheSum<T(!new)>(
    p: Program<T>, r: Reduction, w: nat, x: seq<T>, y: seq<T>, mem: Memory<T>, ph: nat)
    requires IsCommutativeMonoid(p.arith) && Runs(p, r, w) && Long(r, x, y) && (w + 1) * 256 <= 0x1_0000_0000
    requires WellFormed(p, mem.Keys) && HasScratch(w, mem) && Holds(mem, 0, x) && (r.dot ==> Holds(mem, 1, y))
    requires 1 <= ph <= 9
    ensures HasScratch(w, At(p, mem, w, ph).mem) && Width(ph) <= 256
    ensures SumInUse(p, w, ph, At(p, mem, w, ph)) == SumOf(p.arith, Items(p.arith, r, x, y, w * 256, 256))
  {
    if ph == 1 {
      LoadStep(p, r, w, x, y, mem);
    } else {
      AtNext(p, mem, w, ph - 1);
      ScratchKeepsTheSum(p, r, w, x, y, mem, ph - 1);
      hide *;
      HalvingStep(p, r, w, ph - 1, At(p, mem, w, ph - 1), At(p, mem, w, ph));
    }
  }

  /** A workgroup on its own leaves its slice's sum in its partial. */
  lemma WorkgroupReduces<T(!new)>(p: Program<T>, r: Reduction, w: nat, x: seq<T>, y: seq<T>, mem: Memory<T>)
    requires IsCommutativeMonoid(p.arith) && Runs(p, r, w) && Long(r, x, y) && (w + 1) * 256 <= 0x1_0000_0000
    requires WellFormed(p, mem.Keys) && HasScratch(w, mem) && Holds(mem, 0, x) && (r.dot ==> Holds(mem, 1, y))
    requires Global(PARTIAL, w) in mem
    ensures At(p, mem, w, 10).mem[Global(PARTIAL, w)] == SumOf(p.arith, Items(p.arith, r, x, y, w * 256, 256))
  {
    Widths();
    assert p.code(w, 0, 9) == StorePartial(w, 0, w);
    hide At, NextPhase, RaceFree, StaysInside, Runs, Items, Width, StorePartial, IsCommutativeMonoid, SumOf;
    ScratchKeepsTheSum(p, r, w, x, y, mem, 9);
    var gv := At(p, mem, w, 9);
    AtNext(p, mem, w, 9);
    StorePartialAlone(p.arith, w, w, View(gv.regs[0], gv.mem));
    ThreadInPhase(p, gv, w, 9, 0, StorePartial(w, 0, w));
    SumOfOne(p.arith, ScratchOf(w, gv.mem, 1));
  }

  // ----------------------------------------------------------------------------
  // The results
  // ----------------------------------------------------------------------------

  lemma CodeInBounds<T>(
    ar: Arith<T>, r: Reduction, w: nat, i: nat, ph: nat, x: seq<T>, y: seq<T>, view: View<T>)
    requires Long(r, x, y) && Holds(view.mem, 0, x) && (r.dot ==> Holds(view.mem, 1, y))
    requires HasScratch(w, view.mem) && Global(PARTIAL, w) in view.mem
    requires i < 256 && ph < 10 && (w + 1) * 256 <= 0x1_0000_0000
    ensures InBounds(Code(ar, r, w, w, i, ph), view.mem.Keys)
  {
    if ph == 0 {
      U32Sum(w * 256, i);
      hide LoadItem;
      LoadItemAlone(ar, r, w, w * 256 + i, i, x, y, view);
    } else if ph < 9 {
      Widths();
      assert Width(ph) <= 256;
      hide Halve, Width;
      if i < Width(ph) / 2 {
        HalveAlone(ar, w, i, Width(ph) / 2, view);
      } else {
        assert Code(ar, r, w, w, i, ph) == Halve(w, i, Width(ph) / 2);
        NoHalve<T>(w, i, Width(ph) / 2);
      }
    } else if i == 0 {
      StorePartialAlone(ar, w, w, view);
    }
  }

  lemma NoHalve<T>(w: nat, i: nat, stride: nat)
    requires i >= stride
    ensures Halve<T>(w, i, stride) == []
  {
  }

  lemma KernelIsWellFormed<T>(
    ar: Arith<T>, r: Reduction, g: Grid, x: seq<T>, y: seq<T>, partial: seq<T>, mem: Memory<T>)
    requires g.Dispatched() && Fits32(r, g) && Bound(r, g, mem, x, y, partial)
    ensures WellFormed(Kernel(ar, r, g), mem.Keys)
  {
    var p := Kernel(ar, r, g);
    KernelIsRaceFree(ar, r, g);
    hide RaceFree, Code, InBounds;
    forall w: nat, i: nat, ph: nat | w < p.groups && i < p.size && ph < p.phases
      ensures InBounds(p.code(w, i, ph), mem.Keys)
    {
      WgIsTrue(g, w);
      CodeInBounds(ar, r, w, i, ph, x, y, View(p.init, mem));
    }
  }

  /** Slot `w` of the partials: the sum of workgroup `w`'s slice. */
  function Partials<T>(ar: Arith<T>, r: Reduction, x: seq<T>, y: seq<T>, groups: nat): (s: seq<T>)
    requires Long(r, x, y)
    ensures |s| == groups
  {
    seq(groups, w requires 0 <= w < groups => SumOf(ar, Items(ar, r, x, y, w * 256, 256)))
  }

  /** Nothing but the partials is ever written in the buffers. */
  lemma WrittenBufferCells<T>(ar: Arith<T>, r: Reduction, g: Grid, buf: nat, j: nat)
    requires g.Dispatched() && Fits32(r, g) && (buf == PARTIAL ==> j >= g.x * g.y)
    ensures Untouched(Kernel(ar, r, g), Global(buf, j))
  {
    var p, c := Kernel(ar, r, g), Global(buf, j);
    forall w: nat, i: nat, ph: nat | w < p.groups && i < p.size && ph < p.phases
      ensures !WritesIn(p.code(w, i, ph), c)
    {
      WgIsTrue(g, w);
      CodeFootprint(ar, r, w, w, i, ph, c);
    }
  }

  lemma KernelRuns<T>(ar: Arith<T>, r: Reduction, g: Grid, w: nat)
    requires g.Dispatched() && Fits32(r, g) && w < g.x * g.y
    ensures Runs(Kernel(ar, r, g), r, w)
  {
    WgIsTrue(g, w);
  }

  /** One partial, whatever the schedule. */
  lemma SettledPartial<T(!new)>(
    p: Program<T>, r: Reduction, w: nat, x: seq<T>, y: seq<T>, mem: Memory<T>, final: Memory<T>)
    requires IsCommutativeMonoid(p.arith) && Runs(p, r, w) && Long(r, x, y) && (w + 1) * 256 <= 0x1_0000_0000
    requires WellFormed(p, mem.Keys) && HasScratch(w, mem) && Holds(mem, 0, x) && (r.dot ==> Holds(mem, 1, y))
    requires Global(PARTIAL, w) in mem && Settled(p, mem, final)
    ensures final[Global(PARTIAL, w)] == SumOf(p.arith, Items(p.arith, r, x, y, w * 256, 256))
  {
    assert p.code(w, 0, 9)[1].Touches(Global(PARTIAL, w));
    assert TouchesIn(p.code(w, 0, 9), Global(PARTIAL, w));
    assert GroupTouches(p, w, Global(PARTIAL, w));
    hide GroupTouches, At, Runs, RaceFree, StaysInside, SumOf, Items, IsCommutativeMonoid;
    WorkgroupReduces(p, r, w, x, y, mem);
  }

  lemma SettledPartials<T(!new)>(
    p: Program<T>, r: Reduction, x: seq<T>, y: seq<T>, mem: Memory<T>, final: Memory<T>)
    requires IsCommutativeMonoid(p.arith) && Long(r, x, y) && p.groups * 256 <= 0x1_0000_0000
    requires forall w: nat | w < p.groups :: Runs(p, r, w) && HasScratch(w, mem) && Global(PARTIAL, w) in mem
    requires WellFormed(p, mem.Keys) && Holds(mem, 0, x) && (r.dot ==> Holds(mem, 1, y)) && Settled(p, mem, final)
    ensures Holds(final, PARTIAL, Partials(p.arith, r, x, y, p.groups))
  {
    hide WellFormed, IsCommutativeMonoid, SumOf, Items, Runs, HasScratch;
    forall w: nat | w < p.groups
      ensures final[Global(PARTIAL, w)] == Partials(p.arith, r, x, y, p.groups)[w]
    {
      hide Settled;
      SettledPartial(p, r, w, x, y, mem, final);
    }
  }

  lemma SettledIsPartials<T(!new)>(
    ar: Arith<T>, r: Reduction, g: Grid, x: seq<T>, y: seq<T>, partial: seq<T>, mem: Memory<T>, final: Memory<T>)
    requires g.Dispatched() && Fits32(r, g) && IsCommutativeMonoid(ar) && Bound(r, g, mem, x, y, partial)
    requires WellFormed(Kernel(ar, r, g), mem.Keys) && Settled(Kernel(ar, r, g), mem, final)
    ensures Holds(final, PARTIAL, Partials(ar, r, x, y, g.x * g.y) + partial[g.x * g.y..])
    ensures Holds(final, 0, x) && (r.dot ==> Holds(final, 1, y))
  {
    forall w: nat | w < g.x * g.y
      ensures Runs(Kernel(ar, r, g), r, w) && HasScratch(w, mem) && Global(PARTIAL, w) in mem
    {
      KernelRuns(ar, r, g, w);
    }
    hide WellFormed, Untouched, GroupTouches, IsCommutativeMonoid, Partials, Runs, Code, Wg;
    SettledPartials(Kernel(ar, r, g), r, x, y, mem, final);
    forall buf: nat, j: nat | Global(buf, j) in mem && (buf == PARTIAL ==> j >= g.x * g.y)
      ensures final[Global(buf, j)] == mem[Global(buf, j)]
    {
      WrittenBufferCells(ar, r, g, buf, j);
    }
  }

  /** Main result: every finished schedule leaves each workgroup's slice sum in its
      partial, and everything else in the buffers as it was. */
  lemma EveryScheduleReduces<T(!new)>(
    ar: Arith<T>, r: Reduction, g: Grid, x: seq<T>, y: seq<T>, partial: seq<T>, mem: Memory<T>, run: seq<State<T>>)
    requires g.Dispatched() && Fits32(r, g) && IsCommutativeMonoid(ar) && Bound(r, g, mem, x, y, partial)
    requires IsRun(Kernel(ar, r, g), mem, run) && Finished(Kernel(ar, r, g), run[|run| - 1])
    ensures Holds(run[|run| - 1].mem, PARTIAL, Partials(ar, r, x, y, g.x * g.y) + partial[g.x * g.y..])
    ensures Holds(run[|run| - 1].mem, 0, x) && (r.dot ==> Holds(run[|run| - 1].mem, 1, y))
  {
    KernelIsWellFormed(ar, r, g, x, y, partial, mem);
    EverySchedule(Kernel(ar, r, g), mem, run);
    SettledIsPartials(ar, r, g, x, y, partial, mem, run[|run| - 1].mem);
  }

  // ----------------------------------------------------------------------------
  // Conservation, and passes repeated until one value is left
  // ----------------------------------------------------------------------------

  lemma ItemsConcat<T>(ar: Arith<T>, r: Reduction, x: seq<T>, y: seq<T>, n: nat, len: nat)
    requires Long(r, x, y)
    ensures Items(ar, r, x, y, 0, n + len) == Items(ar, r, x, y, 0, n) + Items(ar, r, x, y, n, len)
  {
    hide Item;
  }

  lemma PartialsSnoc<T>(ar: Arith<T>, r: Reduction, x: seq<T>, y: seq<T>, n: nat)
    requires Long(r, x, y)
    ensures Partials(ar, r, x, y, n + 1)
         == Partials(ar, r, x, y, n) + [SumOf(ar, Items(ar, r, x, y, n * 256, 256))]
  {
    hide SumOf, Items;
  }

  lemma {:induction false} PartialsAddUp<T(!new)>(ar: Arith<T>, r: Reduction, x: seq<T>, y: seq<T>, groups: nat)
    requires IsCommutativeMonoid(ar) && Long(r, x, y)
    ensures SumOf(ar, Partials(ar, r, x, y, groups)) == SumOf(ar, Items(ar, r, x, y, 0, groups * 256))
  {
    hide *;
    if groups == 0 {
      assert Partials(ar, r, x, y, 0) == [] == Items(ar, r, x, y, 0, 0);
    } else {
      PartialsAddUp(ar, r, x, y, groups - 1);
      OneMorePartial(ar, r, x, y, groups - 1, (groups - 1) * 256);
    }
  }

  lemma OneMorePartial<T(!new)>(ar: Arith<T>, r: Reduction, x: seq<T>, y: seq<T>, groups: nat, from: nat)
    requires IsCommutativeMonoid(ar) && Long(r, x, y) && from == groups * 256
    requires SumOf(ar, Partials(ar, r, x, y, groups)) == SumOf(ar, Items(ar, r, x, y, 0, from))
    ensures SumOf(ar, Partials(ar, r, x, y, groups + 1)) == SumOf(ar, Items(ar, r, x, y, 0, from + 256))
  {
    hide *;
    var slice := Items(ar, r, x, y, from, 256);
    ItemsConcat(ar, r, x, y, from, 256);
    SumConcat(ar, Items(ar, r, x, y, 0, from), slice);
    PartialsSnoc(ar, r, x, y, groups);
    SumSnoc(ar, Partials(ar, r, x, y, groups), SumOf(ar, slice));
  }

  /** The partials of a grid that covers the input add up to the one sum native code writes. */
  lemma PartialsConserve<T(!new)>(ar: Arith<T>, r: Reduction, x: seq<T>, y: seq<T>, groups: nat)
    requires IsCommutativeMonoid(ar) && Long(r, x, y) && groups * 256 >= r.n
    ensures SumOf(ar, Partials(ar, r, x, y, groups)) == SumOf(ar, Terms(ar, r, x, y))
  {
    hide IsCommutativeMonoid, SumOf;
    PartialsAddUp(ar, r, x, y, groups);
    forall k: nat | k < groups * 256
      ensures Items(ar, r, x, y, 0, groups * 256)[k] == if k < r.n then Terms(ar, r, x, y)[k] else ar.zero
    {
      assert Items(ar, r, x, y, 0, groups * 256)[k] == Item(ar, r, x, y, 0 + k);
    }
    SumPadded(ar, Terms(ar, r, x, y), Items(ar, r, x, y, 0, groups * 256));
  }

  /** One dispatch whose `out` is the partials a finished run left. */
  ghost predicate IsPass<T(!new)>(ar: Arith<T>, r: Reduction, g: Grid, x: seq<T>, y: seq<T>, out: seq<T>) {
    && g.Dispatched() && Fits32(r, g) && g.x * g.y * 256 >= r.n && |out| == g.x * g.y
    && exists mem: Memory<T>, partial: seq<T>, run: seq<State<T>> ::
         && Bound(r, g, mem, x, y, partial) && IsRun(Kernel(ar, r, g), mem, run)
         && Finished(Kernel(ar, r, g), run[|run| - 1]) && Holds(run[|run| - 1].mem, PARTIAL, out)
  }

  lemma PassConserves<T(!new)>(ar: Arith<T>, r: Reduction, g: Grid, x: seq<T>, y: seq<T>, out: seq<T>)
    requires IsCommutativeMonoid(ar) && IsPass(ar, r, g, x, y, out)
    ensures Long(r, x, y) && SumOf(ar, out) == SumOf(ar, Terms(ar, r, x, y))
  {
    var mem: Memory<T>, partial: seq<T>, run: seq<State<T>> :|
      && Bound(r, g, mem, x, y, partial) && IsRun(Kernel(ar, r, g), mem, run)
      && Finished(Kernel(ar, r, g), run[|run| - 1]) && Holds(run[|run| - 1].mem, PARTIAL, out);
    EveryScheduleReduces(ar, r, g, x, y, partial, mem, run);
    PartialsConserve(ar, r, x, y, g.x * g.y);
    var sums := Partials(ar, r, x, y, g.x * g.y);
    forall j: nat | j < |out| ensures out[j] == sums[j] {
      assert (sums + partial[g.x * g.y..])[j] == sums[j];
    }
    assert out == sums;
  }

  /** `levels[0]` is what a first `sum` or `dot` left; each next level is a `sum` of the whole
      level before it. */
  ghost predicate IsCascade<T(!new)>(
    ar: Arith<T>, r: Reduction, x: seq<T>, y: seq<T>, grids: seq<Grid>, levels: seq<seq<T>>) {
    && |grids| == |levels| > 0
    && IsPass(ar, r, grids[0], x, y, levels[0])
    && forall k | 0 < k < |levels| ::
         IsPass(ar, Reduction(false, |levels[k - 1]|), grids[k], levels[k - 1], [], levels[k])
  }

  /** Main result: every level adds up to native code's `partial[0]`, so a level of one
      value is that. */
  lemma {:induction false} CascadeConserves<T(!new)>(
    ar: Arith<T>, r: Reduction, x: seq<T>, y: seq<T>, grids: seq<Grid>, levels: seq<seq<T>>, k: nat)
    requires IsCommutativeMonoid(ar) && IsCascade(ar, r, x, y, grids, levels) && k < |levels|
    ensures Long(r, x, y) && SumOf(ar, levels[k]) == SumOf(ar, Terms(ar, r, x, y))
    ensures |levels[k]| == 1 ==> levels[k][0] == SumOf(ar, Terms(ar, r, x, y))
  {
    if k == 0 {
      PassConserves(ar, r, grids[0], x, y, levels[0]);
    } else {
      CascadeConserves(ar, r, x, y, grids, levels, k - 1);
      var next := Reduction(false, |levels[k - 1]|);
      PassConserves(ar, next, grids[k], levels[k - 1], [], levels[k]);
      assert Terms(ar, next, levels[k - 1], []) == levels[k - 1];
    }
    if |levels[k]| == 1 {
      SumOfOne(ar, levels[k]);
    }
  }

  lemma SumOfOne<T(!new)>(ar: Arith<T>, xs: seq<T>)
    requires IsCommutativeMonoid(ar) && |xs| == 1
    ensures SumOf(ar, xs) == xs[0]
  {
    assert xs[..0] == [] && ar.add(ar.zero, xs[0]) == ar.add(xs[0], ar.zero);
  }

  /** The workgroups `n` values need. */
  function Needed(n: nat): nat {
    if n == 0 then 1 else (n + 255) / 256
  }

  function Groups(g: Grid): nat {
    g.x * g.y
  }

  /** Passes with no more workgroups than needed end with one value: each level shrinks
      until one is left. */
  lemma {:induction false} CascadeEnds<T(!new)>(
    ar: Arith<T>, r: Reduction, x: seq<T>, y: seq<T>, grids: seq<Grid>, levels: seq<seq<T>>, k: nat)
    requires IsCascade(ar, r, x, y, grids, levels) && k < |levels|
    requires Groups(grids[0]) == Needed(r.n)
    requires forall j | 0 < j <= k :: Groups(grids[j]) == Needed(|levels[j - 1]|)
    ensures 1 <= |levels[k]| && (|levels[k]| == 1 || |levels[k]| <= Needed(r.n) - k)
  {
    hide IsCascade, Groups;
    CascadeLevel(ar, r, x, y, grids, levels, k);
    if k > 0 {
      CascadeEnds(ar, r, x, y, grids, levels, k - 1);
    }
  }

  lemma CascadeLevel<T(!new)>(
    ar: Arith<T>, r: Reduction, x: seq<T>, y: seq<T>, grids: seq<Grid>, levels: seq<seq<T>>, k: nat)
    requires IsCascade(ar, r, x, y, grids, levels) && k < |levels|
    ensures |grids| == |levels| && 1 <= |levels[k]| == Groups(grids[k])
  {
    if k == 0 {
      PassLevel(ar, r, grids[0], x, y, levels[0]);
    } else {
      PassLevel(ar, Reduction(false, |levels[k - 1]|), grids[k], levels[k - 1], [], levels[k]);
    }
  }

  lemma PassLevel<T(!new)>(ar: Arith<T>, r: Reduction, g: Grid, x: seq<T>, y: seq<T>, out: seq<T>)
    requires IsPass(ar, r, g, x, y, out)
    ensures 1 <= |out| == g.x * g.y
  {
    hide Bound, IsRun, Finished, Kernel, Holds, Fits32;
    assert g.x >= 1 && g.y >= 1;
    TimesMonotone(1, g.x, g.y);
  }
}
