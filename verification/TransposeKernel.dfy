/** The GPU `transpose`: one thread per element, no barrier. */
module TransposeKernel {
  import opened Arith
  import opened Layout
  import opened Simt
  import opened Schedules
  import opened Native
  import NativeLaws
  import Tiled = TiledMatmul

  const SRC: nat := 0
  const DST: nat := 1

  predicate Fits32(rows: nat, cols: nat, g: Grid) {
    && rows < 0x1_0000_0000 && cols < 0x1_0000_0000 && rows * cols <= 0x1_0000_0000
    && g.x * 16 <= 0x1_0000_0000 && g.y * 16 <= 0x1_0000_0000
  }

  predicate Covers(rows: nat, cols: nat, g: Grid) {
    g.x * 16 >= cols && g.y * 16 >= rows
  }

  function Code<T>(rows: nat, cols: nat, row: nat, col: nat): seq<Instr<T>> {
    if row < rows && col < cols then
      [Load(X, Global(SRC, U32(U32(row * cols) + col))), Store(Global(DST, U32(U32(col * rows) + row)), X)]
    else []
  }

  /** 16x16 threads a workgroup, with the rows and columns of the tiled matmuls. */
  function Kernel<T>(ar: Arith<T>, rows: nat, cols: nat, g: Grid): Program<T>
    requires g.Dispatched()
  {
    Program(ar, g.x * g.y, 256, 1,
            (w: nat, i: nat, ph: nat) => Code(rows, cols, Tiled.Row(g, w, i), Tiled.Col(g, w, i)),
            Regs(ar.zero, ar.zero, ar.zero))
  }

  ghost predicate Bound<T>(rows: nat, cols: nat, mem: Memory<T>, src: seq<T>, dst: seq<T>) {
    Holds(mem, SRC, src) && Holds(mem, DST, dst) && |src| >= rows * cols && |dst| >= rows * cols
  }

  /** The 32-bit indices are the true ones. */
  lemma Indices<T>(rows: nat, cols: nat, g: Grid, row: nat, col: nat)
    requires Fits32(rows, cols, g) && row < rows && col < cols
    ensures row * cols + col < rows * cols && col * rows + row < rows * cols
    ensures Code<T>(rows, cols, row, col) == [Load(X, Global(SRC, row * cols + col)), Store(Global(DST, col * rows + row), X)]
  {
    IndexFits(row, col, rows, cols);
    IndexFits(col, row, cols, rows);
    CodeIs<T>(rows, cols, row, col, row * cols, col * rows);
  }

  /** The code of an element, without a product in sight. */
  lemma CodeIs<T>(rows: nat, cols: nat, row: nat, col: nat, at: nat, to: nat)
    requires row < rows && col < cols && at == row * cols && to == col * rows
    requires at + col < 0x1_0000_0000 && to + row < 0x1_0000_0000
    ensures Code<T>(rows, cols, row, col) == [Load(X, Global(SRC, at + col)), Store(Global(DST, to + row), X)]
  {
    U32Sum(at, col);
    U32Sum(to, row);
  }

  lemma CodeFootprint<T>(rows: nat, cols: nat, g: Grid, row: nat, col: nat, c: Cell)
    requires Fits32(rows, cols, g)
    ensures TouchesIn(Code<T>(rows, cols, row, col), c) && c.Global? && c.buf == DST
         ==> row < rows && col < cols && c.idx == col * rows + row < rows * cols
    ensures WritesIn(Code<T>(rows, cols, row, col), c) ==> c.Global? && c.buf == DST && TouchesIn(Code<T>(rows, cols, row, col), c)
  {
    if row < rows && col < cols {
      Indices<T>(rows, cols, g, row, col);
    }
    if WritesIn(Code<T>(rows, cols, row, col), c) {
      WritesAreTouches(Code<T>(rows, cols, row, col), c);
    }
  }

  lemma KernelIsRaceFree<T>(ar: Arith<T>, rows: nat, cols: nat, g: Grid)
    requires g.Dispatched() && Fits32(rows, cols, g)
    ensures RaceFree(Kernel(ar, rows, cols, g))
  {
    var p := Kernel(ar, rows, cols, g);
    forall w: nat, w': nat, i: nat, j: nat, ph: nat, q: nat, c: Cell
      | w < p.groups && w' < p.groups && i < p.size && j < p.size && ph < p.phases && q < p.phases
        && (w != w' || i != j) && WritesIn(p.code(w, i, ph), c)
      ensures !TouchesIn(p.code(w', j, q), c)
    {
      var row, col, row', col' := Tiled.Row(g, w, i), Tiled.Col(g, w, i), Tiled.Row(g, w', j), Tiled.Col(g, w', j);
      CodeFootprint<T>(rows, cols, g, row, col, c);
      CodeFootprint<T>(rows, cols, g, row', col', c);
      if TouchesIn(p.code(w', j, q), c) {
        IndexInjective(col, row, col', row', rows);
        ThreadsDiffer(rows, cols, g, w, i, w', j);
      }
    }
  }

  lemma ThreadsDiffer(rows: nat, cols: nat, g: Grid, w: nat, i: nat, w': nat, i': nat)
    requires g.Dispatched() && Fits32(rows, cols, g)
    requires w < g.x * g.y && w' < g.x * g.y && i < 256 && i' < 256
    requires Tiled.Row(g, w, i) == Tiled.Row(g, w', i') && Tiled.Col(g, w, i) == Tiled.Col(g, w', i')
    ensures w == w' && i == i'
  {
    Tiled.ElementsDiffer(Shape(rows, cols, 0), g, w, i, w', i');
  }

  lemma KernelIsWellFormed<T>(ar: Arith<T>, rows: nat, cols: nat, g: Grid, src: seq<T>, dst: seq<T>, mem: Memory<T>)
    requires g.Dispatched() && Fits32(rows, cols, g) && Bound(rows, cols, mem, src, dst)
    ensures WellFormed(Kernel(ar, rows, cols, g), mem.Keys)
  {
    var p := Kernel(ar, rows, cols, g);
    KernelIsRaceFree(ar, rows, cols, g);
    forall w: nat, i: nat, ph: nat | w < p.groups && i < p.size && ph < p.phases
      ensures InBounds(p.code(w, i, ph), mem.Keys)
    {
      var row, col := Tiled.Row(g, w, i), Tiled.Col(g, w, i);
      hide RaceFree, Code, Tiled.Row, Tiled.Col;
      if row < rows && col < cols {
        Indices<T>(rows, cols, g, row, col);
      } else {
        NoCode<T>(rows, cols, row, col);
      }
    }
  }

  lemma NoCode<T>(rows: nat, cols: nat, row: nat, col: nat)
    requires row >= rows || col >= cols
    ensures Code<T>(rows, cols, row, col) == []
  {
  }

  /** One thread on its own moves its element. */
  lemma ThreadMoves<T>(ar: Arith<T>, from: Cell, to: Cell, v: View<T>)
    requires from in v.mem && to in v.mem
    ensures var code := [Load(X, from), Store(to, X)];
      InBounds(code, v.mem.Keys) && WritesIn(code, to) && Alone(ar, code, v).mem[to] == v.mem[from]
  {
    var code: seq<Instr<T>> := [Load(X, from), Store(to, X)];
    assert code[1].Writes(to);
    assert code == [] + [Load(X, from)] + [Store(to, X)];
    AloneSnoc(ar, [] + [Load(X, from)], Store(to, X), v);
    AloneSnoc(ar, [], Load(X, from), v);
  }

  /** One element, by its thread, whatever the schedule. */
  lemma SettledMoves<T>(p: Program<T>, w: nat, i: nat, from: Cell, to: Cell, mem: Memory<T>, final: Memory<T>)
    requires WellFormed(p, mem.Keys) && Settled(p, mem, final) && w < p.groups && i < p.size && p.phases == 1
    requires from in mem && to in mem && p.code(w, i, 0) == [Load(X, from), Store(to, X)]
    ensures final[to] == mem[from]
  {
    assert p.code(w, i, 0)[1].Touches(to);
    assert TouchesIn(p.code(w, i, 0), to);
    assert GroupTouches(p, w, to);
    AtNext(p, mem, w, 0);
    var gv := At(p, mem, w, 0);
    assert gv.mem == mem;
    hide At, NextPhase, RaceFree, StaysInside;
    ThreadMoves(p.arith, from, to, View(gv.regs[i], gv.mem));
    ThreadInPhase(p, gv, w, 0, i, [Load(X, from), Store(to, X)]);
  }

  /** The thread of an element, and its code. */
  lemma ElementsCode<T>(ar: Arith<T>, rows: nat, cols: nat, g: Grid, row: nat, col: nat, from: nat, to: nat)
    returns (p: Program<T>, w: nat, i: nat)
    requires g.Dispatched() && Fits32(rows, cols, g) && Covers(rows, cols, g)
    requires row < rows && col < cols && from == row * cols + col && to == col * rows + row
    ensures p == Kernel(ar, rows, cols, g) && w < p.groups && i < p.size && p.phases == 1
    ensures from < rows * cols && to < rows * cols
    ensures p.code(w, i, 0) == [Load(X, Global(SRC, from)), Store(Global(DST, to), X)]
  {
    p := Kernel(ar, rows, cols, g);
    w, i := Tiled.ElementsThread(Shape(rows, cols, 0), g, row, col);
    Indices<T>(rows, cols, g, row, col);
    hide Tiled.Row, Tiled.Col, Code;
    assert p.code(w, i, 0) == Code(rows, cols, row, col);
  }

  lemma SettledElement<T>(
    ar: Arith<T>, rows: nat, cols: nat, g: Grid, src: seq<T>, dst: seq<T>, mem: Memory<T>, final: Memory<T>,
    row: nat, col: nat, from: nat, to: nat)
    requires g.Dispatched() && Fits32(rows, cols, g) && Covers(rows, cols, g) && Bound(rows, cols, mem, src, dst)
    requires WellFormed(Kernel(ar, rows, cols, g), mem.Keys) && Settled(Kernel(ar, rows, cols, g), mem, final)
    requires row < rows && col < cols && from == row * cols + col && to == col * rows + row
    ensures from < rows * cols && to < rows * cols && Global(DST, to) in mem && final[Global(DST, to)] == src[from]
  {
    var p, w, i := ElementsCode(ar, rows, cols, g, row, col, from, to);
    BoundIs(rows, cols, mem, src, dst);
    hide Kernel, Code, Settled, WellFormed, Bound, Fits32, Covers, TransposeResult;
    SettledMoves(p, w, i, Global(SRC, from), Global(DST, to), mem, final);
  }

  lemma WrittenBufferCells<T>(ar: Arith<T>, rows: nat, cols: nat, g: Grid, buf: nat, j: nat)
    requires g.Dispatched() && Fits32(rows, cols, g) && (buf == DST ==> j >= rows * cols)
    ensures Untouched(Kernel(ar, rows, cols, g), Global(buf, j))
  {
    var p, c := Kernel(ar, rows, cols, g), Global(buf, j);
    forall w: nat, i: nat, ph: nat | w < p.groups && i < p.size && ph < p.phases
      ensures !WritesIn(p.code(w, i, ph), c)
    {
      CodeFootprint<T>(rows, cols, g, Tiled.Row(g, w, i), Tiled.Col(g, w, i), c);
    }
  }

  /** Main result: every finished schedule of a covering grid leaves what native code leaves. */
  lemma RefinesNative<T>(
    ar: Arith<T>, rows: nat, cols: nat, g: Grid, src: seq<T>, dst: seq<T>, mem: Memory<T>, run: seq<State<T>>)
    requires g.Dispatched() && Fits32(rows, cols, g) && Covers(rows, cols, g) && Bound(rows, cols, mem, src, dst)
    requires IsRun(Kernel(ar, rows, cols, g), mem, run) && Finished(Kernel(ar, rows, cols, g), run[|run| - 1])
    ensures Holds(run[|run| - 1].mem, DST, TransposeResult(rows, cols, src, dst))
    ensures Holds(run[|run| - 1].mem, SRC, src)
  {
    hide *;
    RunIsNotEmpty(Kernel(ar, rows, cols, g), mem, run);
    var final, size := run[|run| - 1].mem, rows * cols;
    KernelIsWellFormed(ar, rows, cols, g, src, dst, mem);
    EverySchedule(Kernel(ar, rows, cols, g), mem, run);
    BoundIs(rows, cols, mem, src, dst);
    SameKeys(Kernel(ar, rows, cols, g), mem, final);
    SettledElements(ar, rows, cols, g, src, dst, mem, final);
    SettledRest(ar, rows, cols, g, src, dst, mem, final);
    HoldsBoth(mem, final, src, dst, TransposeResult(rows, cols, src, dst), size);
  }

  lemma RunIsNotEmpty<T>(p: Program<T>, mem: Memory<T>, run: seq<State<T>>)
    requires IsRun(p, mem, run)
    ensures |run| > 0
  {
  }

  lemma BoundIs<T>(rows: nat, cols: nat, mem: Memory<T>, src: seq<T>, dst: seq<T>)
    requires Bound(rows, cols, mem, src, dst)
    ensures Holds(mem, SRC, src) && Holds(mem, DST, dst) && |src| >= rows * cols && |dst| >= rows * cols
    ensures forall j | rows * cols <= j < |dst| :: TransposeResult(rows, cols, src, dst)[j] == dst[j]
  {
    hide Mirror;
  }

  lemma HoldsBoth<T>(mem: Memory<T>, final: Memory<T>, src: seq<T>, dst: seq<T>, result: seq<T>, size: nat)
    requires Holds(mem, SRC, src) && Holds(mem, DST, dst) && |result| == |dst| && final.Keys == mem.Keys
    requires forall buf: nat, j: nat | Global(buf, j) in mem && (buf == DST ==> j >= size) ::
               final[Global(buf, j)] == mem[Global(buf, j)]
    requires forall j: nat | j < size && j < |result| :: Global(DST, j) in final && final[Global(DST, j)] == result[j]
    requires forall j | size <= j < |dst| :: result[j] == dst[j]
    ensures Holds(final, DST, result) && Holds(final, SRC, src)
  {
  }

  lemma SettledRest<T>(
    ar: Arith<T>, rows: nat, cols: nat, g: Grid, src: seq<T>, dst: seq<T>, mem: Memory<T>, final: Memory<T>)
    requires g.Dispatched() && Fits32(rows, cols, g) && Covers(rows, cols, g) && Bound(rows, cols, mem, src, dst)
    requires WellFormed(Kernel(ar, rows, cols, g), mem.Keys) && Settled(Kernel(ar, rows, cols, g), mem, final)
    ensures final.Keys == mem.Keys
    ensures forall buf: nat, j: nat | Global(buf, j) in mem && (buf == DST ==> j >= rows * cols) ::
              final[Global(buf, j)] == mem[Global(buf, j)]
  {
    hide WellFormed, Kernel, Untouched, GroupTouches, Fits32, Covers, Bound;
    forall buf: nat, j: nat | Global(buf, j) in mem && (buf == DST ==> j >= rows * cols)
      ensures final[Global(buf, j)] == mem[Global(buf, j)]
    {
      WrittenBufferCells(ar, rows, cols, g, buf, j);
    }
  }

  lemma SettledElements<T>(
    ar: Arith<T>, rows: nat, cols: nat, g: Grid, src: seq<T>, dst: seq<T>, mem: Memory<T>, final: Memory<T>)
    requires g.Dispatched() && Fits32(rows, cols, g) && Covers(rows, cols, g) && Bound(rows, cols, mem, src, dst)
    requires WellFormed(Kernel(ar, rows, cols, g), mem.Keys) && Settled(Kernel(ar, rows, cols, g), mem, final)
    ensures |src| >= rows * cols && |dst| >= rows * cols
    ensures forall j: nat | j < rows * cols ::
              Global(DST, j) in final && final[Global(DST, j)] == TransposeResult(rows, cols, src, dst)[j]
  {
    BoundIs(rows, cols, mem, src, dst);
    hide *;
    forall j: nat | j < rows * cols
      ensures Global(DST, j) in final && final[Global(DST, j)] == TransposeResult(rows, cols, src, dst)[j]
    {
      SettledAt(ar, rows, cols, g, src, dst, mem, final, j);
    }
  }

  lemma SettledAt<T>(
    ar: Arith<T>, rows: nat, cols: nat, g: Grid, src: seq<T>, dst: seq<T>, mem: Memory<T>, final: Memory<T>, j: nat)
    requires g.Dispatched() && Fits32(rows, cols, g) && Covers(rows, cols, g) && Bound(rows, cols, mem, src, dst)
    requires WellFormed(Kernel(ar, rows, cols, g), mem.Keys) && Settled(Kernel(ar, rows, cols, g), mem, final)
    requires j < rows * cols && |src| >= rows * cols && |dst| >= rows * cols
    ensures Global(DST, j) in final && final[Global(DST, j)] == TransposeResult(rows, cols, src, dst)[j]
  {
    hide *;
    var col, row := RowAndCol(j, cols, rows);
    SettledElement(ar, rows, cols, g, src, dst, mem, final, row, col, row * cols + col, j);
    NativeLaws.TransposeFrom(rows, cols, src, dst, row, col, row * cols + col, j);
    SameKeys(Kernel(ar, rows, cols, g), mem, final);
  }

  lemma SameKeys<T>(p: Program<T>, mem: Memory<T>, final: Memory<T>)
    requires WellFormed(p, mem.Keys) && Settled(p, mem, final)
    ensures final.Keys == mem.Keys
  {
  }
}
