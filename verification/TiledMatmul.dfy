/** The tiled `matmul`, `matmul_add` and `matmul_trp`: 16x16 threads share two tiles of
    scratch memory and pass two barriers per tile. */
module TiledMatmul {
  import opened Arith
  import opened Layout
  import opened Simt
  import opened Schedules
  import opened Native

  const A: nat := 0
  const B: nat := 1
  const C: nat := 2

  /** Every element of C has its thread. */
  predicate Covers(g: Grid, s: Shape) {
    g.x * 16 >= s.n && g.y * 16 >= s.m
  }

  /** No index the kernel computes in 32 bits wraps around. */
  predicate FitsU32(s: Shape, g: Grid) {
    && s.m * s.k <= 0x1_0000_0000 && s.k * s.n <= 0x1_0000_0000 && s.m * s.n <= 0x1_0000_0000
    && s.m < 0x1_0000_0000 && s.n < 0x1_0000_0000 && s.k + 16 <= 0x1_0000_0000
    && g.x * 16 <= 0x1_0000_0000 && g.y * 16 <= 0x1_0000_0000
  }

  // Thread `i` of a workgroup is `threadIdx.y == i / TILE`, `threadIdx.x == i % TILE`.

  function Row(g: Grid, w: nat, i: nat): nat
    requires g.Dispatched()
  {
    U32(U32(w / g.x * 16) + i / 16)
  }

  function Col(g: Grid, w: nat, i: nat): nat
    requires g.Dispatched()
  {
    U32(U32(w % g.x * 16) + i % 16)
  }

  function TileCell(w: nat, tile: nat, row: nat, col: nat): Cell {
    Shared(w, tile, row * 16 + col)
  }

  function NumTiles(s: Shape): nat {
    U32(s.k + 15) / 16
  }

  /** A's element for the tile, or zero past the edge. */
  function LoadA<T>(ar: Arith<T>, s: Shape, row: nat, aCol: nat): Instr<T> {
    if row < s.m && aCol < s.k then Load(X, Global(A, U32(U32(row * s.k) + aCol))) else Const(X, ar.zero)
  }

  function LoadB<T>(ar: Arith<T>, v: Variant, s: Shape, col: nat, bK: nat): Instr<T> {
    if bK < s.k && col < s.n then
      Load(X, Global(B, if v.Transposed? then U32(U32(col * s.k) + bK) else U32(U32(bK * s.n) + col)))
    else Const(X, ar.zero)
  }

  /** One tile's load: the thread of element (`row`, `col`) fills one cell of each tile. */
  function LoadTiles<T>(ar: Arith<T>, v: Variant, s: Shape, w: nat, row: nat, col: nat, lr: nat, lc: nat, t: nat)
    : seq<Instr<T>>
  {
    [ LoadA(ar, s, row, U32(U32(t * 16) + lc)), Store(TileCell(w, A, lr, lc), X),
      LoadB(ar, v, s, col, U32(U32(t * 16) + lr)), Store(TileCell(w, B, lr, lc), X) ]
  }

  /** `sum += tile_A[lr][k] * tile_B[k][lc]` for each `k < n`. */
  function AddProducts<T>(w: nat, lr: nat, lc: nat, n: nat): seq<Instr<T>> {
    if n == 0 then []
    else AddProducts(w, lr, lc, n - 1) + MultiplyAdd(TileCell(w, A, lr, n - 1), TileCell(w, B, n - 1, lc))
  }

  /** `C[row * N + col] = sum`, or `+=`, inside C. */
  function StoreC<T>(v: Variant, s: Shape, row: nat, col: nat): seq<Instr<T>> {
    if row < s.m && col < s.n then StoreSum(Global(C, U32(U32(row * s.n) + col)), v.Accumulating?) else []
  }

  function Code<T>(ar: Arith<T>, v: Variant, s: Shape, w: nat, row: nat, col: nat, i: nat, ph: nat): seq<Instr<T>> {
    if ph >= 2 * NumTiles(s) then StoreC(v, s, row, col)
    else if ph % 2 == 0 then LoadTiles(ar, v, s, w, row, col, i / 16, i % 16, ph / 2)
    else AddProducts(w, i / 16, i % 16, 16)
  }

  function Kernel<T>(ar: Arith<T>, v: Variant, s: Shape, g: Grid): Program<T>
    requires g.Dispatched()
  {
    Program(ar, g.x * g.y, 256, 2 * NumTiles(s) + 1,
            (w: nat, i: nat, ph: nat) => Code(ar, v, s, w, Row(g, w, i), Col(g, w, i), i, ph),
            Regs(ar.zero, ar.zero, ar.zero))
  }

  /** Each workgroup has its tiles. */
  ghost predicate HasTiles<T>(w: nat, mem: Memory<T>) {
    && (forall j: nat | j < 256 :: Shared(w, A, j) in mem)
    && (forall j: nat | j < 256 :: Shared(w, B, j) in mem)
  }

  /** What a dispatch starts from. */
  ghost predicate Bound<T>(g: Grid, mem: Memory<T>, a: seq<T>, b: seq<T>, c: seq<T>) {
    && Holds(mem, A, a) && Holds(mem, B, b) && Holds(mem, C, c)
    && forall w: nat | w < g.x * g.y :: HasTiles(w, mem)
  }

  // ----------------------------------------------------------------------------
  // Indices
  // ----------------------------------------------------------------------------

  /** No index wraps around: the kernel's 32-bit row and column are the true ones. */
  lemma ThreadIndices(s: Shape, g: Grid, w: nat, i: nat)
    requires g.Dispatched() && FitsU32(s, g) && w < g.x * g.y && i < 256
    ensures Row(g, w, i) == w / g.x * 16 + i / 16
    ensures Col(g, w, i) == w % g.x * 16 + i % 16
    ensures w / g.x < g.y && w % g.x < g.x
  {
    IndexSplits(w, g.y, g.x);
    BlockFits(w / g.x, i / 16, g.y);
    BlockFits(w % g.x, i % 16, g.x);
  }

  lemma BlockFits(block: nat, l: nat, blocks: nat)
    requires block < blocks && l < 16 && blocks * 16 <= 0x1_0000_0000
    ensures U32(U32(block * 16) + l) == block * 16 + l
  {
  }

  lemma SameBlock(block: nat, l: nat, block': nat, l': nat)
    requires l < 16 && l' < 16 && block * 16 + l == block' * 16 + l'
    ensures block == block' && l == l'
  {
  }

  lemma TileIndices(s: Shape, t: nat, l: nat)
    requires s.k + 16 <= 0x1_0000_0000 && t < NumTiles(s) && l < 16
    ensures U32(U32(t * 16) + l) == t * 16 + l
    ensures NumTiles(s) * 16 >= s.k
  {
  }

  /** Two threads of the grid compute the same element only if they are the same thread. */
  lemma ElementsDiffer(s: Shape, g: Grid, w: nat, i: nat, w': nat, i': nat)
    requires g.Dispatched() && FitsU32(s, g)
    requires w < g.x * g.y && w' < g.x * g.y && i < 256 && i' < 256
    requires Row(g, w, i) == Row(g, w', i') && Col(g, w, i) == Col(g, w', i')
    ensures w == w' && i == i'
  {
    hide *;
    ThreadIndices(s, g, w, i);
    ThreadIndices(s, g, w', i');
    SameBlock(w / g.x, i / 16, w' / g.x, i' / 16);
    SameBlock(w % g.x, i % 16, w' % g.x, i' % 16);
    IndexSplits(w, g.y, g.x);
    IndexSplits(w', g.y, g.x);
  }

  /** The 32-bit index of an element of C. */
  lemma CIndex(s: Shape, g: Grid, row: nat, col: nat)
    requires FitsU32(s, g) && row < s.m && col < s.n
    ensures U32(U32(row * s.n) + col) == row * s.n + col < s.m * s.n
  {
    IndexFits(row, col, s.m, s.n);
    U32Sum(row * s.n, col);
  }

  // ----------------------------------------------------------------------------
  // Race freedom
  // ----------------------------------------------------------------------------

  lemma LoadTilesFootprint<T>(ar: Arith<T>, v: Variant, s: Shape, w: nat, row: nat, col: nat, i: nat, t: nat, c: Cell)
    requires i < 256
    ensures TouchesIn(LoadTiles(ar, v, s, w, row, col, i / 16, i % 16, t), c)
      ==> (c.Global? && c.buf < C) || c == Shared(w, A, i) || c == Shared(w, B, i)
    ensures WritesIn(LoadTiles(ar, v, s, w, row, col, i / 16, i % 16, t), c)
      ==> c == Shared(w, A, i) || c == Shared(w, B, i)
  {
    assert i / 16 * 16 + i % 16 == i;
  }

  lemma {:induction false} AddProductsFootprint<T>(w: nat, lr: nat, lc: nat, n: nat, k: nat)
    requires n <= 16 && lr < 16 && lc < 16
    requires k < |AddProducts<T>(w, lr, lc, n)|
    ensures var ins := AddProducts<T>(w, lr, lc, n)[k];
      !ins.Store? && (ins.Load? ==> ins.cell.Shared? && ins.cell.wg == w)
  {
    if n > 0 && k < |AddProducts<T>(w, lr, lc, n - 1)| {
      AddProductsFootprint<T>(w, lr, lc, n - 1, k);
    }
  }

  /** What a thread may touch in a phase, and what it may write. */
  lemma CodeFootprint<T>(ar: Arith<T>, v: Variant, s: Shape, w: nat, row: nat, col: nat, i: nat, ph: nat, c: Cell)
    requires i < 256
    ensures TouchesIn(Code(ar, v, s, w, row, col, i, ph), c) ==>
      if ph >= 2 * NumTiles(s) then row < s.m && col < s.n && c == Global(C, U32(U32(row * s.n) + col))
      else if ph % 2 == 0 then (c.Global? && c.buf < C) || c == Shared(w, A, i) || c == Shared(w, B, i)
      else c.Shared? && c.wg == w
    ensures WritesIn(Code(ar, v, s, w, row, col, i, ph), c) ==>
      && TouchesIn(Code(ar, v, s, w, row, col, i, ph), c)
      && (ph >= 2 * NumTiles(s) || (ph % 2 == 0 && c.Shared?))
  {
    var code := Code(ar, v, s, w, row, col, i, ph);
    if WritesIn(code, c) {
      WritesAreTouches(code, c);
    }
    if ph < 2 * NumTiles(s) {
      if ph % 2 == 0 {
        LoadTilesFootprint(ar, v, s, w, row, col, i, ph / 2, c);
      } else {
        forall k: nat | k < |code| ensures !code[k].Writes(c) && (code[k].Touches(c) ==> c.Shared? && c.wg == w) {
          AddProductsFootprint<T>(w, i / 16, i % 16, 16, k);
        }
      }
    }
  }

  lemma KernelIsRaceFree<T>(ar: Arith<T>, v: Variant, s: Shape, g: Grid)
    requires g.Dispatched() && FitsU32(s, g)
    ensures RaceFree(Kernel(ar, v, s, g))
  {
    var p := Kernel(ar, v, s, g);
    forall w: nat, w': nat, i: nat, j: nat, ph: nat, q: nat, c: Cell
      | w < p.groups && w' < p.groups && i < p.size && j < p.size && ph < p.phases && q < p.phases
        && (w != w' || (i != j && ph == q)) && WritesIn(p.code(w, i, ph), c)
      ensures !TouchesIn(p.code(w', j, q), c)
    {
      var row, col, row', col' := Row(g, w, i), Col(g, w, i), Row(g, w', j), Col(g, w', j);
      CodeFootprint(ar, v, s, w, row, col, i, ph, c);
      CodeFootprint(ar, v, s, w', row', col', j, q, c);
      if ph >= 2 * NumTiles(s) && TouchesIn(p.code(w', j, q), c) {
        CIndex(s, g, row, col);
        CIndex(s, g, row', col');
        IndexInjective(row, col, row', col', s.n);
        ElementsDiffer(s, g, w, i, w', j);
      }
    }
  }

  // ----------------------------------------------------------------------------
  // What the tiles add up to
  // ----------------------------------------------------------------------------

  /** A's element as the tile holds it: zero past the edges. */
  function PaddedA<T>(ar: Arith<T>, s: Shape, a: seq<T>, row: nat, kk: nat): T
    requires |a| >= s.m * s.k
  {
    if row < s.m && kk < s.k then
      IndexFits(row, kk, s.m, s.k);
      a[row * s.k + kk]
    else ar.zero
  }

  function PaddedB<T>(ar: Arith<T>, v: Variant, s: Shape, b: seq<T>, col: nat, kk: nat): T
    requires |b| >= s.k * s.n
  {
    if kk < s.k && col < s.n then b[BIndex(v, s, col, kk)] else ar.zero
  }

  /** The first `n` products of a row and a column, padding included. */
  function PaddedSum<T>(ar: Arith<T>, v: Variant, s: Shape, a: seq<T>, b: seq<T>, row: nat, col: nat, n: nat): T
    requires |a| >= s.m * s.k && |b| >= s.k * s.n
  {
    if n == 0 then ar.zero
    else ar.add(PaddedSum(ar, v, s, a, b, row, col, n - 1),
                ar.mul(PaddedA(ar, s, a, row, n - 1), PaddedB(ar, v, s, b, col, n - 1)))
  }

  /** Inside C the padding only adds products of zeros, so it adds nothing. */
  lemma {:induction false} PaddedSumIsProduct<T(!new)>(
    ar: Arith<T>, v: Variant, s: Shape, a: seq<T>, b: seq<T>, row: nat, col: nat, n: nat)
    requires |a| >= s.m * s.k && |b| >= s.k * s.n && row < s.m && col < s.n
    requires n > s.k ==> PaddingIsNeutral(ar)
    ensures PaddedSum(ar, v, s, a, b, row, col, n) == PartialProduct(ar, v, s, a, b, row, col, if n < s.k then n else s.k)
  {
    if n > 0 {
      PaddedSumIsProduct(ar, v, s, a, b, row, col, n - 1);
    }
  }

  /** A workgroup's tiles hold A's and B's elements for products `t * TILE` and on; `r0` and
      `c0` are the row and the column of its first thread. */
  ghost predicate TilesLoaded<T>(
    ar: Arith<T>, v: Variant, s: Shape, w: nat, r0: nat, c0: nat, t: nat, a: seq<T>, b: seq<T>, mem: Memory<T>)
    requires |a| >= s.m * s.k && |b| >= s.k * s.n
  {
    && (forall j: nat | j < 256 ::
          Shared(w, A, j) in mem && mem[Shared(w, A, j)] == PaddedA(ar, s, a, r0 + j / 16, t * 16 + j % 16))
    && (forall j: nat | j < 256 ::
          Shared(w, B, j) in mem && mem[Shared(w, B, j)] == PaddedB(ar, v, s, b, c0 + j % 16, t * 16 + j / 16))
  }

  /** What an instruction of a load phase puts in X. */
  function Loaded<T>(ins: Instr<T>, mem: Memory<T>): T
    requires ins.Const? || (ins.Load? && ins.cell in mem)
  {
    if ins.Load? then mem[ins.cell] else ins.value
  }

  lemma LoadsA<T>(ar: Arith<T>, s: Shape, row: nat, aCol: nat, a: seq<T>, mem: Memory<T>)
    requires s.m * s.k <= 0x1_0000_0000 && |a| >= s.m * s.k
    requires Holds(mem, A, a)
    ensures LoadA(ar, s, row, aCol).Load? ==> LoadA(ar, s, row, aCol).cell in mem
    ensures Loaded(LoadA(ar, s, row, aCol), mem) == PaddedA(ar, s, a, row, aCol)
  {
    if row < s.m && aCol < s.k {
      IndexFits(row, aCol, s.m, s.k);
      U32Sum(row * s.k, aCol);
    }
  }

  lemma LoadsB<T>(ar: Arith<T>, v: Variant, s: Shape, col: nat, bK: nat, b: seq<T>, mem: Memory<T>)
    requires s.k * s.n <= 0x1_0000_0000 && |b| >= s.k * s.n
    requires Holds(mem, B, b)
    ensures LoadB(ar, v, s, col, bK).Load? ==> LoadB(ar, v, s, col, bK).cell in mem
    ensures Loaded(LoadB(ar, v, s, col, bK), mem) == PaddedB(ar, v, s, b, col, bK)
  {
    if bK < s.k && col < s.n {
      var j := BIndex(v, s, col, bK);
      if v.Transposed? {
        U32Sum(col * s.k, bK);
      } else {
        U32Sum(bK * s.n, col);
      }
      assert LoadB(ar, v, s, col, bK) == Load(X, Global(B, j));
    }
  }

  /** The load of tile `t`, with the true indices. */
  lemma LoadTilesIs<T>(ar: Arith<T>, v: Variant, s: Shape, w: nat, row: nat, col: nat, i: nat, t: nat)
    requires i < 256 && t < NumTiles(s) && s.k + 16 <= 0x1_0000_0000
    ensures LoadTiles(ar, v, s, w, row, col, i / 16, i % 16, t) == [
      LoadA(ar, s, row, t * 16 + i % 16), Store(Shared(w, A, i), X),
      LoadB(ar, v, s, col, t * 16 + i / 16), Store(Shared(w, B, i), X)]
  {
    TileIndices(s, t, i % 16);
    TileIndices(s, t, i / 16);
    assert i / 16 * 16 + i % 16 == i;
  }

  /** One thread's load fills its own cell of each tile. */
  lemma LoadTilesAlone<T>(
    ar: Arith<T>, v: Variant, s: Shape, w: nat, row: nat, col: nat, i: nat, aCol: nat, bK: nat,
    a: seq<T>, b: seq<T>, view: View<T>)
    requires s.m * s.k <= 0x1_0000_0000 && s.k * s.n <= 0x1_0000_0000 && |a| >= s.m * s.k && |b| >= s.k * s.n
    requires Holds(view.mem, A, a) && Holds(view.mem, B, b)
    requires Shared(w, A, i) in view.mem && Shared(w, B, i) in view.mem
    ensures var code := [LoadA(ar, s, row, aCol), Store(Shared(w, A, i), X), LoadB(ar, v, s, col, bK), Store(Shared(w, B, i), X)];
      && InBounds(code, view.mem.Keys)
      && Alone(ar, code, view).regs.sum == view.regs.sum
      && Alone(ar, code, view).mem[Shared(w, A, i)] == PaddedA(ar, s, a, row, aCol)
      && Alone(ar, code, view).mem[Shared(w, B, i)] == PaddedB(ar, v, s, b, col, bK)
  {
    LoadsA(ar, s, row, aCol, a, view.mem);
    LoadsB(ar, v, s, col, bK, b, view.mem);
    AloneFill(ar, LoadA(ar, s, row, aCol), Shared(w, A, i), LoadB(ar, v, s, col, bK), Shared(w, B, i), view);
  }

  /** What the tiles add to a sum, product by product. */
  function TileSum<T>(ar: Arith<T>, mem: Memory<T>, w: nat, lr: nat, lc: nat, start: T, n: nat): T
    requires lr < 16 && lc < 16 && n <= 16 && HasTiles(w, mem)
  {
    if n == 0 then start
    else ar.add(TileSum(ar, mem, w, lr, lc, start, n - 1),
                ar.mul(mem[TileCell(w, A, lr, n - 1)], mem[TileCell(w, B, n - 1, lc)]))
  }

  lemma {:induction false} AddProductsAlone<T>(ar: Arith<T>, w: nat, lr: nat, lc: nat, n: nat, view: View<T>)
    requires lr < 16 && lc < 16 && n <= 16 && HasTiles(w, view.mem)
    ensures InBounds(AddProducts<T>(w, lr, lc, n), view.mem.Keys)
    ensures var r := Alone(ar, AddProducts(w, lr, lc, n), view);
      r.mem == view.mem && r.regs.sum == TileSum(ar, view.mem, w, lr, lc, view.regs.sum, n)
  {
    AddProductsNext(ar, w, lr, lc, n, view);
    hide AddProducts, TileSum, Alone, InBounds, HasTiles, TileCell, MultiplyAdd;
    if n > 0 {
      AddProductsAlone(ar, w, lr, lc, n - 1, view);
      AddOneAlone(ar, AddProducts(w, lr, lc, n - 1), TileCell(w, A, lr, n - 1), TileCell(w, B, n - 1, lc), view);
    }
  }

  /** One more term of the loop, and of its sum. */
  lemma AddProductsNext<T>(ar: Arith<T>, w: nat, lr: nat, lc: nat, n: nat, view: View<T>)
    requires lr < 16 && lc < 16 && n <= 16 && HasTiles(w, view.mem)
    ensures n == 0 ==>
      && InBounds(AddProducts<T>(w, lr, lc, 0), view.mem.Keys) && Alone(ar, AddProducts(w, lr, lc, 0), view) == view
      && TileSum(ar, view.mem, w, lr, lc, view.regs.sum, 0) == view.regs.sum
    ensures n > 0 ==>
      var (c0, c1) := (TileCell(w, A, lr, n - 1), TileCell(w, B, n - 1, lc));
      && c0 in view.mem && c1 in view.mem
      && AddProducts<T>(w, lr, lc, n) == AddProducts(w, lr, lc, n - 1) + MultiplyAdd(c0, c1)
      && TileSum(ar, view.mem, w, lr, lc, view.regs.sum, n)
           == ar.add(TileSum(ar, view.mem, w, lr, lc, view.regs.sum, n - 1), ar.mul(view.mem[c0], view.mem[c1]))
  {
  }

  /** Adding up loaded tiles continues the padded sum. */
  lemma {:induction false} TileSumContinues<T>(
    ar: Arith<T>, v: Variant, s: Shape, w: nat, r0: nat, c0: nat, lr: nat, lc: nat, t: nat, n: nat,
    a: seq<T>, b: seq<T>, mem: Memory<T>)
    requires lr < 16 && lc < 16 && n <= 16 && HasTiles(w, mem)
    requires |a| >= s.m * s.k && |b| >= s.k * s.n
    requires TilesLoaded(ar, v, s, w, r0, c0, t, a, b, mem)
    ensures TileSum(ar, mem, w, lr, lc, PaddedSum(ar, v, s, a, b, r0 + lr, c0 + lc, t * 16), n)
         == PaddedSum(ar, v, s, a, b, r0 + lr, c0 + lc, t * 16 + n)
  {
    hide PaddedA, PaddedB;
    if n > 0 {
      TileSumContinues(ar, v, s, w, r0, c0, lr, lc, t, n - 1, a, b, mem);
      var ja, jb := lr * 16 + (n - 1), (n - 1) * 16 + lc;
      assert ja / 16 == lr && ja % 16 == n - 1 && jb / 16 == n - 1 && jb % 16 == lc;
      assert mem[Shared(w, A, ja)] == PaddedA(ar, s, a, r0 + lr, t * 16 + (n - 1));
      assert mem[Shared(w, B, jb)] == PaddedB(ar, v, s, b, c0 + lc, t * 16 + (n - 1));
    }
  }

  // ----------------------------------------------------------------------------
  // Phase by phase
  // ----------------------------------------------------------------------------

  /** Workgroup `w` of `p` runs the kernel, from row `r0` and column `c0` on. */
  ghost predicate Runs<T>(p: Program<T>, v: Variant, s: Shape, w: nat, r0: nat, c0: nat) {
    && p.size == 256 && p.phases == 2 * NumTiles(s) + 1 && w < p.groups && p.init.sum == p.arith.zero
    && forall i: nat, ph: nat | i < 256 && ph < p.phases ::
         p.code(w, i, ph) == Code(p.arith, v, s, w, r0 + i / 16, c0 + i % 16, i, ph)
  }

  /** No phase but the last writes a buffer. */
  lemma BuffersStay<T>(p: Program<T>, v: Variant, s: Shape, w: nat, r0: nat, c0: nat, ph: nat, gv: GroupView<T>, x: Cell)
    requires Runs(p, v, s, w, r0, c0) && ph < 2 * NumTiles(s) && x in gv.mem && x.Global?
    requires WellFormed(p, gv.mem.Keys) && Fits(p, gv, gv.mem.Keys)
    ensures NextPhase(p, gv, w, ph).mem[x] == gv.mem[x]
  {
    forall i: nat | i < p.size ensures !WritesIn(p.code(w, i, ph), x) {
      CodeFootprint(p.arith, v, s, w, r0 + i / 16, c0 + i % 16, i, ph, x);
    }
    UnwrittenStays(p, gv, w, ph, x);
  }

  /** What thread `i` leaves in the tiles in a load phase. */
  lemma LoadPhaseThread<T>(
    p: Program<T>, v: Variant, s: Shape, w: nat, ph: nat, i: nat, row: nat, col: nat, aCol: nat, bK: nat,
    a: seq<T>, b: seq<T>, gv: GroupView<T>, r: GroupView<T>)
    requires s.m * s.k <= 0x1_0000_0000 && s.k * s.n <= 0x1_0000_0000 && |a| >= s.m * s.k && |b| >= s.k * s.n
    requires WellFormed(p, gv.mem.Keys) && Fits(p, gv, gv.mem.Keys) && w < p.groups && ph < p.phases && i < p.size
    requires Holds(gv.mem, A, a) && Holds(gv.mem, B, b) && Shared(w, A, i) in gv.mem && Shared(w, B, i) in gv.mem
    requires p.code(w, i, ph) == [LoadA(p.arith, s, row, aCol), Store(Shared(w, A, i), X),
                                  LoadB(p.arith, v, s, col, bK), Store(Shared(w, B, i), X)]
    requires r == NextPhase(p, gv, w, ph)
    ensures r.regs[i].sum == gv.regs[i].sum
    ensures r.mem[Shared(w, A, i)] == PaddedA(p.arith, s, a, row, aCol)
    ensures r.mem[Shared(w, B, i)] == PaddedB(p.arith, v, s, b, col, bK)
  {
    var code := [LoadA(p.arith, s, row, aCol), Store(Shared(w, A, i), X),
                 LoadB(p.arith, v, s, col, bK), Store(Shared(w, B, i), X)];
    LoadTilesAlone(p.arith, v, s, w, row, col, i, aCol, bK, a, b, View(gv.regs[i], gv.mem));
    assert code[1].Writes(Shared(w, A, i)) && code[3].Writes(Shared(w, B, i));
    ThreadInPhase(p, gv, w, ph, i, code);
  }

  /** What thread `i` adds to its sum in a compute phase. */
  lemma ComputePhaseThread<T>(
    p: Program<T>, v: Variant, s: Shape, w: nat, ph: nat, i: nat, r0: nat, c0: nat, lr: nat, lc: nat, t: nat,
    a: seq<T>, b: seq<T>, gv: GroupView<T>, r: GroupView<T>)
    requires lr < 16 && lc < 16 && |a| >= s.m * s.k && |b| >= s.k * s.n
    requires WellFormed(p, gv.mem.Keys) && Fits(p, gv, gv.mem.Keys) && w < p.groups && ph < p.phases && i < p.size
    requires HasTiles(w, gv.mem) && TilesLoaded(p.arith, v, s, w, r0, c0, t, a, b, gv.mem)
    requires p.code(w, i, ph) == AddProducts(w, lr, lc, 16)
    requires gv.regs[i].sum == PaddedSum(p.arith, v, s, a, b, r0 + lr, c0 + lc, t * 16)
    requires r == NextPhase(p, gv, w, ph)
    ensures r.regs[i].sum == PaddedSum(p.arith, v, s, a, b, r0 + lr, c0 + lc, t * 16 + 16)
  {
    AddProductsAlone(p.arith, w, lr, lc, 16, View(gv.regs[i], gv.mem));
    TileSumContinues(p.arith, v, s, w, r0, c0, lr, lc, t, 16, a, b, gv.mem);
    ThreadInPhase(p, gv, w, ph, i, AddProducts(w, lr, lc, 16));
  }

  /** Each thread has the first `n` products of its element added up. */
  ghost predicate SumsReached<T>(
    ar: Arith<T>, v: Variant, s: Shape, r0: nat, c0: nat, n: nat, a: seq<T>, b: seq<T>, gv: GroupView<T>)
    requires |a| >= s.m * s.k && |b| >= s.k * s.n
  {
    && |gv.regs| == 256
    && forall i: nat | i < 256 :: gv.regs[i].sum == PaddedSum(ar, v, s, a, b, r0 + i / 16, c0 + i % 16, n)
  }

  /** Before phase `2 * t`: the first `t` tiles are added up, and no buffer has changed. */
  ghost predicate Reached<T>(
    ar: Arith<T>, v: Variant, s: Shape, r0: nat, c0: nat, t: nat, a: seq<T>, b: seq<T>, mem: Memory<T>, gv: GroupView<T>)
    requires |a| >= s.m * s.k && |b| >= s.k * s.n
  {
    && SumsReached(ar, v, s, r0, c0, t * 16, a, b, gv)
    && gv.mem.Keys == mem.Keys
    && (forall x | x in mem && x.Global? :: gv.mem[x] == mem[x])
  }

  ghost predicate Fair(s: Shape) {
    s.m * s.k <= 0x1_0000_0000 && s.k * s.n <= 0x1_0000_0000 && s.k + 16 <= 0x1_0000_0000
  }

  /** The code of a load phase, by tile. */
  lemma LoadPhaseCode<T>(ar: Arith<T>, v: Variant, s: Shape, w: nat, row: nat, col: nat, i: nat, t: nat)
    requires i < 256 && t < NumTiles(s) && s.k + 16 <= 0x1_0000_0000
    ensures Code(ar, v, s, w, row, col, i, 2 * t) == [
      LoadA(ar, s, row, t * 16 + i % 16), Store(Shared(w, A, i), X),
      LoadB(ar, v, s, col, t * 16 + i / 16), Store(Shared(w, B, i), X)]
  {
    hide LoadA, LoadB, StoreC, AddProducts;
    assert 2 * t % 2 == 0 && 2 * t / 2 == t;
    LoadTilesIs(ar, v, s, w, row, col, i, t);
  }

  /** The load phase of tile `t`, all threads. */
  lemma LoadPhase<T>(
    p: Program<T>, v: Variant, s: Shape, w: nat, r0: nat, c0: nat, t: nat,
    a: seq<T>, b: seq<T>, gv: GroupView<T>, r: GroupView<T>)
    requires Runs(p, v, s, w, r0, c0) && t < NumTiles(s) && Fair(s)
    requires |a| >= s.m * s.k && |b| >= s.k * s.n
    requires WellFormed(p, gv.mem.Keys) && Fits(p, gv, gv.mem.Keys)
    requires Holds(gv.mem, A, a) && Holds(gv.mem, B, b) && HasTiles(w, gv.mem)
    requires r == NextPhase(p, gv, w, 2 * t)
    ensures TilesLoaded(p.arith, v, s, w, r0, c0, t, a, b, r.mem)
    ensures |r.regs| == |gv.regs| == 256 && forall i: nat | i < 256 :: r.regs[i].sum == gv.regs[i].sum
  {
    hide NextPhase, RaceFree, StaysInside, PaddedA, PaddedB, NumTiles, LoadA, LoadB, Code;
    forall i: nat | i < 256
      ensures r.regs[i].sum == gv.regs[i].sum
      ensures r.mem[Shared(w, A, i)] == PaddedA(p.arith, s, a, r0 + i / 16, t * 16 + i % 16)
      ensures r.mem[Shared(w, B, i)] == PaddedB(p.arith, v, s, b, c0 + i % 16, t * 16 + i / 16)
    {
      LoadPhaseCode(p.arith, v, s, w, r0 + i / 16, c0 + i % 16, i, t);
      LoadPhaseThread(p, v, s, w, 2 * t, i, r0 + i / 16, c0 + i % 16, t * 16 + i % 16, t * 16 + i / 16, a, b, gv, r);
    }
  }

  /** The compute phase of tile `t`, all threads. */
  lemma ComputePhase<T>(
    p: Program<T>, v: Variant, s: Shape, w: nat, r0: nat, c0: nat, t: nat,
    a: seq<T>, b: seq<T>, gv: GroupView<T>, r: GroupView<T>)
    requires Runs(p, v, s, w, r0, c0) && t < NumTiles(s)
    requires |a| >= s.m * s.k && |b| >= s.k * s.n
    requires WellFormed(p, gv.mem.Keys) && Fits(p, gv, gv.mem.Keys)
    requires HasTiles(w, gv.mem) && TilesLoaded(p.arith, v, s, w, r0, c0, t, a, b, gv.mem)
    requires SumsReached(p.arith, v, s, r0, c0, t * 16, a, b, gv)
    requires r == NextPhase(p, gv, w, 2 * t + 1)
    ensures SumsReached(p.arith, v, s, r0, c0, t * 16 + 16, a, b, r)
  {
    hide NextPhase, RaceFree, StaysInside, PaddedSum, TilesLoaded, HasTiles, AddProducts, LoadTiles, StoreC;
    forall i: nat | i < 256
      ensures r.regs[i].sum == PaddedSum(p.arith, v, s, a, b, r0 + i / 16, c0 + i % 16, t * 16 + 16)
    {
      assert (2 * t + 1) % 2 == 1;
      assert p.code(w, i, 2 * t + 1) == AddProducts(w, i / 16, i % 16, 16);
      ComputePhaseThread(p, v, s, w, 2 * t + 1, i, r0, c0, i / 16, i % 16, t, a, b, gv, r);
    }
  }

  /** One tile: a load phase and a compute phase. */
  lemma TilePhases<T>(
    p: Program<T>, v: Variant, s: Shape, w: nat, r0: nat, c0: nat, t: nat,
    a: seq<T>, b: seq<T>, mem: Memory<T>, gv: GroupView<T>, r: GroupView<T>)
    requires Runs(p, v, s, w, r0, c0) && t < NumTiles(s) && Fair(s)
    requires |a| >= s.m * s.k && |b| >= s.k * s.n
    requires WellFormed(p, mem.Keys) && Holds(mem, A, a) && Holds(mem, B, b) && HasTiles(w, mem)
    requires Reached(p.arith, v, s, r0, c0, t, a, b, mem, gv)
    requires r == NextPhase(p, NextPhase(p, gv, w, 2 * t), w, 2 * t + 1)
    ensures Reached(p.arith, v, s, r0, c0, t + 1, a, b, mem, r)
  {
    hide NextPhase, RaceFree, StaysInside, PaddedSum, Code, TilesLoaded;
    var loaded := NextPhase(p, gv, w, 2 * t);
    LoadPhase(p, v, s, w, r0, c0, t, a, b, gv, loaded);
    ComputePhase(p, v, s, w, r0, c0, t, a, b, loaded, r);
    forall x | x in mem && x.Global? ensures r.mem[x] == mem[x] {
      BuffersStay(p, v, s, w, r0, c0, 2 * t, gv, x);
      BuffersStay(p, v, s, w, r0, c0, 2 * t + 1, loaded, x);
    }
  }

  lemma {:induction false} AllTiles<T>(
    p: Program<T>, v: Variant, s: Shape, w: nat, r0: nat, c0: nat, t: nat, a: seq<T>, b: seq<T>, mem: Memory<T>)
    requires Runs(p, v, s, w, r0, c0) && t <= NumTiles(s) && Fair(s)
    requires |a| >= s.m * s.k && |b| >= s.k * s.n
    requires WellFormed(p, mem.Keys) && Holds(mem, A, a) && Holds(mem, B, b) && HasTiles(w, mem)
    ensures Reached(p.arith, v, s, r0, c0, t, a, b, mem, At(p, mem, w, 2 * t))
  {
    hide NextPhase, RaceFree, StaysInside, Code;
    if t > 0 {
      hide At, PaddedSum, Reached;
      AllTiles(p, v, s, w, r0, c0, t - 1, a, b, mem);
      AtNext(p, mem, w, 2 * (t - 1));
      AtNext(p, mem, w, 2 * (t - 1) + 1);
      TilePhases(p, v, s, w, r0, c0, t - 1, a, b, mem, At(p, mem, w, 2 * (t - 1)), At(p, mem, w, 2 * t));
    }
  }

  // ----------------------------------------------------------------------------
  // The results
  // ----------------------------------------------------------------------------

  /** The whole grid is well formed: inside its buffers and tiles, and race-free. */
  lemma KernelIsWellFormed<T>(ar: Arith<T>, v: Variant, s: Shape, g: Grid, a: seq<T>, b: seq<T>, c: seq<T>, mem: Memory<T>)
    requires g.Dispatched() && FitsU32(s, g) && LongEnough(s, a, b, c) && Bound(g, mem, a, b, c)
    ensures WellFormed(Kernel(ar, v, s, g), mem.Keys)
  {
    var p := Kernel(ar, v, s, g);
    KernelIsRaceFree(ar, v, s, g);
    forall w: nat, i: nat, ph: nat | w < p.groups && i < p.size && ph < p.phases
      ensures InBounds(p.code(w, i, ph), mem.Keys)
    {
      var row, col, view := Row(g, w, i), Col(g, w, i), View(p.init, mem);
      CodeInBounds(ar, v, s, g, w, row, col, i, ph, a, b, c, view);
    }
  }

  lemma CodeInBounds<T>(
    ar: Arith<T>, v: Variant, s: Shape, g: Grid, w: nat, row: nat, col: nat, i: nat, ph: nat,
    a: seq<T>, b: seq<T>, c: seq<T>, view: View<T>)
    requires g.Dispatched() && FitsU32(s, g) && LongEnough(s, a, b, c)
    requires Holds(view.mem, A, a) && Holds(view.mem, B, b) && Holds(view.mem, C, c) && HasTiles(w, view.mem)
    requires i < 256 && ph <= 2 * NumTiles(s) && Fair(s)
    ensures InBounds(Code(ar, v, s, w, row, col, i, ph), view.mem.Keys)
  {
    hide FitsU32, NumTiles, LoadTiles, LoadA, LoadB, AddProducts;
    if ph == 2 * NumTiles(s) {
      if row < s.m && col < s.n {
        CIndex(s, g, row, col);
      }
    } else if ph % 2 == 0 {
      assert ph == 2 * (ph / 2);
      hide Code, Alone;
      LoadPhaseCode(ar, v, s, w, row, col, i, ph / 2);
      LoadTilesAlone(ar, v, s, w, row, col, i, ph / 2 * 16 + i % 16, ph / 2 * 16 + i / 16, a, b, view);
    } else {
      AddProductsAlone(ar, w, i / 16, i % 16, 16, view);
    }
  }

  /** The last phase stores a thread's sum into its element of C. */
  lemma StoreAlone<T>(ar: Arith<T>, v: Variant, s: Shape, row: nat, col: nat, j: nat, view: View<T>)
    requires row < s.m && col < s.n && j == U32(U32(row * s.n) + col) && Global(C, j) in view.mem
    ensures InBounds(StoreC<T>(v, s, row, col), view.mem.Keys) && WritesIn(StoreC<T>(v, s, row, col), Global(C, j))
    ensures Alone(ar, StoreC(v, s, row, col), view).mem[Global(C, j)]
         == if v.Accumulating? then ar.add(view.mem[Global(C, j)], view.regs.sum) else view.regs.sum
  {
    AloneStoreSum(ar, Global(C, j), v.Accumulating?, view);
  }

  /** The last phase, once all tiles are added up. */
  lemma StorePhase<T(!new)>(
    p: Program<T>, v: Variant, s: Shape, w: nat, i: nat, row: nat, col: nat, n: nat,
    a: seq<T>, b: seq<T>, mem: Memory<T>, j: nat, gv: GroupView<T>, r: GroupView<T>)
    requires PaddingIsNeutral(p.arith) && |a| >= s.m * s.k && |b| >= s.k * s.n && n >= s.k
    requires WellFormed(p, mem.Keys) && Fits(p, gv, mem.Keys) && w < p.groups && i < p.size
    requires row < s.m && col < s.n && j == U32(U32(row * s.n) + col) && Global(C, j) in mem
    requires gv.mem[Global(C, j)] == mem[Global(C, j)]
    requires gv.regs[i].sum == PaddedSum(p.arith, v, s, a, b, row, col, n)
    requires p.code(w, i, p.phases - 1) == StoreC(v, s, row, col)
    requires r == NextPhase(p, gv, w, p.phases - 1)
    ensures var sum := PartialProduct(p.arith, v, s, a, b, row, col, s.k);
      r.mem[Global(C, j)] == if v.Accumulating? then p.arith.add(mem[Global(C, j)], sum) else sum
  {
    hide NextPhase, RaceFree, StaysInside, PaddedSum, PartialProduct, StoreC, Alone;
    StoreAlone(p.arith, v, s, row, col, j, View(gv.regs[i], gv.mem));
    ThreadInPhase(p, gv, w, p.phases - 1, i, StoreC(v, s, row, col));
    PaddedSumIsProduct(p.arith, v, s, a, b, row, col, n);
  }

  /** A workgroup on its own leaves in each of its elements what native code leaves there. */
  lemma WorkgroupComputes<T(!new)>(
    p: Program<T>, v: Variant, s: Shape, w: nat, r0: nat, c0: nat, i: nat, row: nat, col: nat,
    a: seq<T>, b: seq<T>, mem: Memory<T>, j: nat)
    requires Runs(p, v, s, w, r0, c0) && Fair(s) && PaddingIsNeutral(p.arith)
    requires |a| >= s.m * s.k && |b| >= s.k * s.n && i < 256 && row == r0 + i / 16 && col == c0 + i % 16
    requires WellFormed(p, mem.Keys) && Holds(mem, A, a) && Holds(mem, B, b) && HasTiles(w, mem)
    requires row < s.m && col < s.n && j == U32(U32(row * s.n) + col) && Global(C, j) in mem
    ensures var sum := PartialProduct(p.arith, v, s, a, b, row, col, s.k);
      At(p, mem, w, p.phases).mem[Global(C, j)]
        == if v.Accumulating? then p.arith.add(mem[Global(C, j)], sum) else sum
  {
    hide At, NextPhase, RaceFree, StaysInside, PaddedSum, PartialProduct, StoreC, LoadTiles, AddProducts, PaddingIsNeutral;
    var nt := NumTiles(s);
    AllTiles(p, v, s, w, r0, c0, nt, a, b, mem);
    AtNext(p, mem, w, 2 * nt);
    StorePhase(p, v, s, w, i, row, col, nt * 16, a, b, mem, j, At(p, mem, w, 2 * nt), At(p, mem, w, p.phases));
  }

  /** The thread of an element. */
  lemma ElementsThread(s: Shape, g: Grid, row: nat, col: nat) returns (w: nat, i: nat)
    requires g.Dispatched() && FitsU32(s, g) && g.x * 16 >= s.n && g.y * 16 >= s.m && row < s.m && col < s.n
    ensures w < g.x * g.y && i < 256 && w / g.x * 16 + i / 16 == row && w % g.x * 16 + i % 16 == col
    ensures Row(g, w, i) == row && Col(g, w, i) == col
  {
    hide *;
    var wy, wx, ly, lx := row / 16, col / 16, row % 16, col % 16;
    assert wy < g.y && wx < g.x by {
      assert g.x * 16 >= s.n && g.y * 16 >= s.m;
    }
    IndexFits(wy, wx, g.y, g.x);
    SplitOfIndex(wy, wx, g.x);
    w, i := wy * g.x + wx, ly * 16 + lx;
    ThreadIndices(s, g, w, i);
  }

  /** The kernel runs on every workgroup. */
  lemma KernelRuns<T>(ar: Arith<T>, v: Variant, s: Shape, g: Grid, w: nat)
    requires g.Dispatched() && FitsU32(s, g) && w < g.x * g.y
    ensures Runs(Kernel(ar, v, s, g), v, s, w, w / g.x * 16, w % g.x * 16)
  {
    forall i: nat | i < 256
      ensures Row(g, w, i) == w / g.x * 16 + i / 16 && Col(g, w, i) == w % g.x * 16 + i % 16
    {
      ThreadIndices(s, g, w, i);
    }
    hide Row, Col, Code, FitsU32, NumTiles;
  }

  /** Nothing but C's own elements is ever written in the buffers. */
  lemma WrittenBufferCells<T>(ar: Arith<T>, v: Variant, s: Shape, g: Grid, buf: nat, j: nat)
    requires g.Dispatched() && FitsU32(s, g) && (buf == C ==> j >= s.m * s.n)
    ensures Untouched(Kernel(ar, v, s, g), Global(buf, j))
  {
    var p, x := Kernel(ar, v, s, g), Global(buf, j);
    forall w: nat, i: nat, ph: nat | w < p.groups && i < p.size && ph < p.phases
      ensures !WritesIn(p.code(w, i, ph), x)
    {
      var row, col := Row(g, w, i), Col(g, w, i);
      CodeFootprint(ar, v, s, w, row, col, i, ph, x);
      if row < s.m && col < s.n {
        CIndex(s, g, row, col);
      }
    }
  }

  /** One element, by its thread, whatever the schedule. */
  lemma ThreadsElement<T(!new)>(
    p: Program<T>, v: Variant, s: Shape, w: nat, r0: nat, c0: nat, i: nat, row: nat, col: nat,
    a: seq<T>, b: seq<T>, mem: Memory<T>, final: Memory<T>, j: nat)
    requires Runs(p, v, s, w, r0, c0) && Fair(s) && PaddingIsNeutral(p.arith)
    requires |a| >= s.m * s.k && |b| >= s.k * s.n && i < 256 && row == r0 + i / 16 && col == c0 + i % 16
    requires WellFormed(p, mem.Keys) && Holds(mem, A, a) && Holds(mem, B, b) && HasTiles(w, mem)
    requires row < s.m && col < s.n && j == U32(U32(row * s.n) + col) && Global(C, j) in mem
    requires Settled(p, mem, final)
    ensures var sum := PartialProduct(p.arith, v, s, a, b, row, col, s.k);
      final[Global(C, j)] == if v.Accumulating? then p.arith.add(mem[Global(C, j)], sum) else sum
  {
    var last := 2 * NumTiles(s);
    assert p.code(w, i, last) == StoreC(v, s, row, col) && w < p.groups && i < p.size && last < p.phases;
    hide At, RaceFree, StaysInside, PartialProduct, Code, StoreC, NumTiles, Runs, PaddingIsNeutral;
    StoreAlone(p.arith, v, s, row, col, j, View(p.init, mem));
    WritesAreTouches(StoreC<T>(v, s, row, col), Global(C, j));
    assert TouchesIn(p.code(w, i, last), Global(C, j));
    assert GroupTouches(p, w, Global(C, j));
    WorkgroupComputes(p, v, s, w, r0, c0, i, row, col, a, b, mem, j);
  }

  lemma ThreadRuns<T>(ar: Arith<T>, v: Variant, s: Shape, g: Grid, row: nat, col: nat)
    returns (w: nat, i: nat, r0: nat, c0: nat)
    requires g.Dispatched() && FitsU32(s, g) && Covers(g, s) && row < s.m && col < s.n
    ensures w < g.x * g.y && i < 256 && row == r0 + i / 16 && col == c0 + i % 16
    ensures Runs(Kernel(ar, v, s, g), v, s, w, r0, c0)
  {
    hide Runs, Kernel, Row, Col;
    w, i := ElementsThread(s, g, row, col);
    KernelRuns(ar, v, s, g, w);
    r0, c0 := w / g.x * 16, w % g.x * 16;
  }

  lemma ThreadOfElement<T(!new)>(
    ar: Arith<T>, v: Variant, s: Shape, g: Grid, a: seq<T>, b: seq<T>, c: seq<T>, mem: Memory<T>, final: Memory<T>,
    row: nat, col: nat, j: nat)
    requires g.Dispatched() && FitsU32(s, g) && Covers(g, s) && PaddingIsNeutral(ar)
    requires LongEnough(s, a, b, c) && Bound(g, mem, a, b, c) && row < s.m && col < s.n && j == row * s.n + col
    requires WellFormed(Kernel(ar, v, s, g), mem.Keys) && Settled(Kernel(ar, v, s, g), mem, final)
    ensures j < s.m * s.n
    ensures var sum := PartialProduct(ar, v, s, a, b, row, col, s.k);
      final[Global(C, j)] == if v.Accumulating? then ar.add(c[j], sum) else sum
  {
    assert Kernel(ar, v, s, g).arith == ar && Fair(s);
    hide PartialProduct, Kernel, Row, Col, PaddingIsNeutral, WellFormed, Settled, Runs, U32, FitsU32;
    CIndex(s, g, row, col);
    assert Global(C, j) in mem && mem[Global(C, j)] == c[j];
    var w, i, r0, c0 := ThreadRuns(ar, v, s, g, row, col);
    assert HasTiles(w, mem) && Holds(mem, A, a) && Holds(mem, B, b) && |a| >= s.m * s.k && |b| >= s.k * s.n;
    hide *;
    ThreadsElement(Kernel(ar, v, s, g), v, s, w, r0, c0, i, row, col, a, b, mem, final, j);
  }

  lemma ElementIsNative<T(!new)>(
    ar: Arith<T>, v: Variant, s: Shape, g: Grid, a: seq<T>, b: seq<T>, c: seq<T>, mem: Memory<T>, final: Memory<T>, j: nat)
    requires g.Dispatched() && FitsU32(s, g) && Covers(g, s) && PaddingIsNeutral(ar)
    requires LongEnough(s, a, b, c) && Bound(g, mem, a, b, c) && j < s.m * s.n
    requires WellFormed(Kernel(ar, v, s, g), mem.Keys) && Settled(Kernel(ar, v, s, g), mem, final)
    ensures final[Global(C, j)] == Element(ar, v, s, a, b, j, c[j])
  {
    var row, col := RowAndCol(j, s.m, s.n);
    assert |a| >= s.m * s.k && |b| >= s.k * s.n && j < |c|;
    hide *;
    ElementAt(ar, v, s, a, b, row, col, j, c[j]);
    ThreadOfElement(ar, v, s, g, a, b, c, mem, final, row, col, j);
  }

  /** Main result: every finished schedule of a covering grid leaves in C what the native
      triple loop leaves there, past M * N too, and leaves A and B as they were. The sums
      are equal term by term; of the numbers, only `x + 0 * 0 == x` is used. */
  lemma RefinesNative<T(!new)>(
    ar: Arith<T>, v: Variant, s: Shape, g: Grid, a: seq<T>, b: seq<T>, c: seq<T>, mem: Memory<T>, run: seq<State<T>>)
    requires g.Dispatched() && FitsU32(s, g) && Covers(g, s) && PaddingIsNeutral(ar)
    requires LongEnough(s, a, b, c) && Bound(g, mem, a, b, c)
    requires IsRun(Kernel(ar, v, s, g), mem, run) && Finished(Kernel(ar, v, s, g), run[|run| - 1])
    ensures Holds(run[|run| - 1].mem, C, MatmulResult(ar, v, s, a, b, c))
    ensures Holds(run[|run| - 1].mem, A, a) && Holds(run[|run| - 1].mem, B, b)
  {
    KernelIsWellFormed(ar, v, s, g, a, b, c, mem);
    EverySchedule(Kernel(ar, v, s, g), mem, run);
    SettledIsNative(ar, v, s, g, a, b, c, mem, run[|run| - 1].mem);
  }

  lemma SettledIsNative<T(!new)>(
    ar: Arith<T>, v: Variant, s: Shape, g: Grid, a: seq<T>, b: seq<T>, c: seq<T>, mem: Memory<T>, final: Memory<T>)
    requires g.Dispatched() && FitsU32(s, g) && Covers(g, s) && PaddingIsNeutral(ar)
    requires LongEnough(s, a, b, c) && Bound(g, mem, a, b, c)
    requires WellFormed(Kernel(ar, v, s, g), mem.Keys) && Settled(Kernel(ar, v, s, g), mem, final)
    ensures Holds(final, C, MatmulResult(ar, v, s, a, b, c)) && Holds(final, A, a) && Holds(final, B, b)
  {
    var r := MatmulResult(ar, v, s, a, b, c);
    hide WellFormed, Kernel, At, Untouched, GroupTouches, Element, FitsU32, PaddingIsNeutral;
    forall buf: nat, j: nat | Global(buf, j) in mem && (buf == C ==> j >= s.m * s.n)
      ensures final[Global(buf, j)] == mem[Global(buf, j)]
    {
      WrittenBufferCells(ar, v, s, g, buf, j);
    }
    forall j: nat | j < |r| && j < s.m * s.n ensures final[Global(C, j)] == r[j] {
      ElementIsNative(ar, v, s, g, a, b, c, mem, final, j);
    }
  }
}
