/** The native kernels: what the CPU backend runs, one thread, on whole buffers. Each
    is a method on its output's array, proved against a function of its inputs. */
module Native {
  import opened Arith
  import opened Layout

  /** `Transposed` is `matmul_trp`, `Accumulating` is `matmul_add`. */
  datatype Variant = Plain | Accumulating | Transposed

  /** The meta words of the matmuls: A is MxK, B is KxN (NxK if transposed), C is MxN. */
  datatype Shape = Shape(m: nat, n: nat, k: nat)

  /** The `min_lens` of the matmuls. */
  predicate LongEnough<T>(s: Shape, a: seq<T>, b: seq<T>, c: seq<T>) {
    |a| >= s.m * s.k && |b| >= s.k * s.n && |c| >= s.m * s.n
  }

  /** Where the element of B that meets A's column `kk` in C's column `col` is. */
  function BIndex(v: Variant, s: Shape, col: nat, kk: nat): (j: nat)
    requires col < s.n && kk < s.k
    ensures j < s.k * s.n
  {
    IndexFits(kk, col, s.k, s.n);
    IndexFits(col, kk, s.n, s.k);
    if v.Transposed? then col * s.k + kk else kk * s.n + col
  }

  /** The sum of the first `n` products of one element of C, added in the order of the
      inner loop. */
  function PartialProduct<T>(ar: Arith<T>, v: Variant, s: Shape, a: seq<T>, b: seq<T>, row: nat, col: nat, n: nat): T
    requires row < s.m && col < s.n && n <= s.k && |a| >= s.m * s.k && |b| >= s.k * s.n
  {
    if n == 0 then ar.zero
    else
      IndexFits(row, n - 1, s.m, s.k);
      ar.add(PartialProduct(ar, v, s, a, b, row, col, n - 1),
             ar.mul(a[row * s.k + n - 1], b[BIndex(v, s, col, n - 1)]))
  }

  /** Element `j` of C after the call, `old` before it. */
  function Element<T>(ar: Arith<T>, v: Variant, s: Shape, a: seq<T>, b: seq<T>, j: nat, old_: T): T
    requires |a| >= s.m * s.k && |b| >= s.k * s.n
  {
    if j < s.m * s.n then
      IndexSplits(j, s.m, s.n);
      var sum := PartialProduct(ar, v, s, a, b, j / s.n, j % s.n, s.k);
      if v.Accumulating? then ar.add(old_, sum) else sum
    else old_
  }

  lemma ElementAt<T>(ar: Arith<T>, v: Variant, s: Shape, a: seq<T>, b: seq<T>, row: nat, col: nat, j: nat, old_: T)
    requires |a| >= s.m * s.k && |b| >= s.k * s.n && row < s.m && col < s.n && j == row * s.n + col
    ensures j < s.m * s.n
    ensures var sum := PartialProduct(ar, v, s, a, b, row, col, s.k);
      Element(ar, v, s, a, b, j, old_) == if v.Accumulating? then ar.add(old_, sum) else sum
  {
    IndexFits(row, col, s.m, s.n);
    SplitOfIndex(row, col, s.n);
  }

  /** C once its first `done` elements are computed. */
  function Computed<T>(ar: Arith<T>, v: Variant, s: Shape, a: seq<T>, b: seq<T>, c: seq<T>, done: nat): (r: seq<T>)
    requires LongEnough(s, a, b, c)
    ensures |r| == |c|
  {
    seq(|c|, j requires 0 <= j < |c| => if j < done then Element(ar, v, s, a, b, j, c[j]) else c[j])
  }

  /** C after the call: the product, and past it what was there. */
  function MatmulResult<T>(ar: Arith<T>, v: Variant, s: Shape, a: seq<T>, b: seq<T>, c: seq<T>): (r: seq<T>)
    requires LongEnough(s, a, b, c)
    ensures |r| == |c|
  {
    Computed(ar, v, s, a, b, c, s.m * s.n)
  }

  lemma ComputeNext<T>(ar: Arith<T>, v: Variant, s: Shape, a: seq<T>, b: seq<T>, c: seq<T>, row: nat, col: nat, at: nat)
    requires LongEnough(s, a, b, c) && row < s.m && col < s.n && at == row * s.n + col
    ensures at < s.m * s.n && Computed(ar, v, s, a, b, c, at)[at] == c[at]
    ensures var sum := PartialProduct(ar, v, s, a, b, row, col, s.k);
      Computed(ar, v, s, a, b, c, at + 1)
        == Computed(ar, v, s, a, b, c, at)[at := if v.Accumulating? then ar.add(c[at], sum) else sum]
  {
    IndexFits(row, col, s.m, s.n);
    SplitOfIndex(row, col, s.n);
  }

  /** The inner loop: one element's products, added up from 0. */
  method RowTimesColumn<T>(ar: Arith<T>, v: Variant, s: Shape, a: seq<T>, b: seq<T>, row: nat, col: nat)
    returns (sum: T)
    requires |a| >= s.m * s.k && |b| >= s.k * s.n && row < s.m && col < s.n
    ensures sum == PartialProduct(ar, v, s, a, b, row, col, s.k)
  {
    sum := ar.zero;
    for kk := 0 to s.k
      invariant sum == PartialProduct(ar, v, s, a, b, row, col, kk)
    {
      IndexFits(row, kk, s.m, s.k);
      sum := ar.add(sum, ar.mul(a[row * s.k + kk], b[BIndex(v, s, col, kk)]));
    }
  }

  method Matmul<T>(ar: Arith<T>, v: Variant, s: Shape, a: seq<T>, b: seq<T>, c: array<T>)
    requires LongEnough(s, a, b, c[..])
    modifies c
    ensures c[..] == MatmulResult(ar, v, s, a, b, old(c[..]))
  {
    ghost var c0 := c[..];
    assert c[..] == Computed(ar, v, s, a, b, c0, 0);
    hide Computed, PartialProduct, BIndex;
    for row := 0 to s.m
      invariant c[..] == Computed(ar, v, s, a, b, c0, row * s.n)
    {
      MatmulRow(ar, v, s, a, b, c, row, row * s.n, c0);
      assert row * s.n + s.n == (row + 1) * s.n;
    }
  }

  /** The middle loop: one row of C, whose first element is at `first`. */
  method MatmulRow<T>(
    ar: Arith<T>, v: Variant, s: Shape, a: seq<T>, b: seq<T>, c: array<T>, row: nat, first: nat, ghost c0: seq<T>)
    requires LongEnough(s, a, b, c0) && |c0| == c.Length && row < s.m && first == row * s.n
    requires c[..] == Computed(ar, v, s, a, b, c0, first)
    modifies c
    ensures c[..] == Computed(ar, v, s, a, b, c0, first + s.n)
  {
    hide Computed, PartialProduct, BIndex;
    for col := 0 to s.n
      invariant c[..] == Computed(ar, v, s, a, b, c0, first + col)
    {
      var sum := RowTimesColumn(ar, v, s, a, b, row, col);
      var at := first + col;
      ComputeNext(ar, v, s, a, b, c0, row, col, at);
      ghost var before := c[..];
      assert before[at] == c0[at];
      c[at] := if v.Accumulating? then ar.add(c[at], sum) else sum;
      assert c[..] == before[at := c[at]];
    }
  }

  // ----------------------------------------------------------------------------
  // gemv and transpose
  // ----------------------------------------------------------------------------

  /** The one row of `gemv`: `s.m` is ignored. */
  predicate GemvLongEnough<T>(s: Shape, a: seq<T>, b: seq<T>, c: seq<T>) {
    |a| >= s.k && |b| >= s.k * s.n && |c| >= s.n
  }

  /** `a . b[.., col]`, its first `n` products. */
  function RowProduct<T>(ar: Arith<T>, s: Shape, a: seq<T>, b: seq<T>, col: nat, n: nat): T
    requires |a| >= s.k && |b| >= s.k * s.n && col < s.n && n <= s.k
  {
    if n == 0 then ar.zero
    else
      IndexFits(n - 1, col, s.k, s.n);
      ar.add(RowProduct(ar, s, a, b, col, n - 1), ar.mul(a[n - 1], b[(n - 1) * s.n + col]))
  }

  function GemvResult<T>(ar: Arith<T>, s: Shape, a: seq<T>, b: seq<T>, c: seq<T>): (r: seq<T>)
    requires GemvLongEnough(s, a, b, c)
    ensures |r| == |c|
  {
    seq(|c|, j requires 0 <= j < |c| => if j < s.n then RowProduct(ar, s, a, b, j, s.k) else c[j])
  }

  /** The inner loop of `gemv`. */
  method ColumnProduct<T>(ar: Arith<T>, s: Shape, a: seq<T>, b: seq<T>, col: nat) returns (sum: T)
    requires |a| >= s.k && |b| >= s.k * s.n && col < s.n
    ensures sum == RowProduct(ar, s, a, b, col, s.k)
  {
    sum := ar.zero;
    for kk := 0 to s.k
      invariant sum == RowProduct(ar, s, a, b, col, kk)
    {
      IndexFits(kk, col, s.k, s.n);
      sum := ar.add(sum, ar.mul(a[kk], b[kk * s.n + col]));
    }
  }

  method Gemv<T>(ar: Arith<T>, s: Shape, a: seq<T>, b: seq<T>, c: array<T>)
    requires GemvLongEnough(s, a, b, c[..])
    modifies c
    ensures c[..] == GemvResult(ar, s, a, b, old(c[..]))
  {
    for col := 0 to s.n
      invariant forall j | 0 <= j < col :: c[j] == RowProduct(ar, s, a, b, j, s.k)
      invariant forall j | col <= j < c.Length :: c[j] == old(c[j])
    {
      c[col] := ColumnProduct(ar, s, a, b, col);
    }
  }

  /** Where element `j` of the transpose of a `rows` x `cols` matrix comes from. */
  function Mirror(rows: nat, cols: nat, j: nat): (i: nat)
    requires j < rows * cols
    ensures i < rows * cols
  {
    IndexSplits(j, cols, rows);
    IndexFits(j % rows, j / rows, rows, cols);
    j % rows * cols + j / rows
  }

  /** `dst` once the first `done` elements of `src` are copied. */
  function Mirrored<T>(rows: nat, cols: nat, src: seq<T>, dst: seq<T>, done: nat): (r: seq<T>)
    requires |src| >= rows * cols && |dst| >= rows * cols
    ensures |r| == |dst|
  {
    seq(|dst|, j requires 0 <= j < |dst| =>
      if j < rows * cols && Mirror(rows, cols, j) < done then src[Mirror(rows, cols, j)] else dst[j])
  }

  function TransposeResult<T>(rows: nat, cols: nat, src: seq<T>, dst: seq<T>): (r: seq<T>)
    requires |src| >= rows * cols && |dst| >= rows * cols
    ensures |r| == |dst|
  {
    Mirrored(rows, cols, src, dst, rows * cols)
  }

  lemma MirrorIs(rows: nat, cols: nat, r: nat, c: nat)
    requires r < rows && c < cols
    ensures c * rows + r < rows * cols && Mirror(rows, cols, c * rows + r) == r * cols + c
  {
    IndexFits(c, r, cols, rows);
    SplitOfIndex(c, r, rows);
  }

  lemma MirrorSplits(rows: nat, cols: nat, j: nat) returns (r: nat, c: nat)
    requires j < rows * cols
    ensures r < rows && c < cols && j == c * rows + r && Mirror(rows, cols, j) == r * cols + c
  {
    IndexSplits(j, cols, rows);
    r, c := j % rows, j / rows;
  }

  /** Each element comes from one place, and no two from the same. */
  lemma MirrorInjective(rows: nat, cols: nat, i: nat, j: nat)
    requires i < rows * cols && j < rows * cols
    ensures Mirror(rows, cols, i) == Mirror(rows, cols, j) <==> i == j
  {
    hide Mirror;
    var r, c := MirrorSplits(rows, cols, i);
    var r', c' := MirrorSplits(rows, cols, j);
    IndexInjective(r, c, r', c', cols);
  }

  lemma MirrorNext<T>(rows: nat, cols: nat, src: seq<T>, dst: seq<T>, r: nat, c: nat, from: nat, to: nat)
    requires |src| >= rows * cols && |dst| >= rows * cols && r < rows && c < cols
    requires from == r * cols + c && to == c * rows + r
    ensures from < rows * cols && to < rows * cols
    ensures Mirrored(rows, cols, src, dst, from + 1) == Mirrored(rows, cols, src, dst, from)[to := src[from]]
  {
    IndexFits(r, c, rows, cols);
    MirrorIs(rows, cols, r, c);
    hide Mirror;
    forall j: nat | j < rows * cols ensures Mirror(rows, cols, j) == from <==> j == to {
      MirrorInjective(rows, cols, j, to);
    }
  }

  method Transpose<T>(rows: nat, cols: nat, src: seq<T>, dst: array<T>)
    requires |src| >= rows * cols && dst.Length >= rows * cols
    modifies dst
    ensures dst[..] == TransposeResult(rows, cols, src, old(dst[..]))
  {
    hide Mirror;
    ghost var d0 := dst[..];
    assert dst[..] == Mirrored(rows, cols, src, d0, 0);
    hide Mirrored;
    for r := 0 to rows
      invariant dst[..] == Mirrored(rows, cols, src, d0, r * cols)
    {
      for c := 0 to cols
        invariant dst[..] == Mirrored(rows, cols, src, d0, r * cols + c)
      {
        var from, to := r * cols + c, c * rows + r;
        MirrorNext(rows, cols, src, d0, r, c, from, to);
        hide *;
        ghost var before := dst[..];
        dst[to] := src[from];
        assert dst[..] == before[to := src[from]];
      }
      assert r * cols + cols == (r + 1) * cols;
    }
  }

  // ----------------------------------------------------------------------------
  // sum and dot
  // ----------------------------------------------------------------------------

  /** `sum` of the first `n` elements of an input, or `dot` of those of two. */
  datatype Reduction = Reduction(dot: bool, n: nat)

  predicate Long<T>(r: Reduction, x: seq<T>, y: seq<T>) {
    |x| >= r.n && (r.dot ==> |y| >= r.n)
  }

  /** What is added up. */
  function Terms<T>(ar: Arith<T>, r: Reduction, x: seq<T>, y: seq<T>): (s: seq<T>)
    requires Long(r, x, y)
    ensures |s| == r.n
  {
    seq(r.n, j requires 0 <= j < r.n => if r.dot then ar.mul(x[j], y[j]) else x[j])
  }

  /** `partial` after the call: one sum, whatever the grid, and past it what was there. */
  function ReductionResult<T>(ar: Arith<T>, r: Reduction, x: seq<T>, y: seq<T>, partial: seq<T>): (s: seq<T>)
    requires Long(r, x, y) && |partial| > 0
    ensures |s| == |partial|
  {
    partial[0 := SumOf(ar, Terms(ar, r, x, y))]
  }

  method Reduce<T>(ar: Arith<T>, r: Reduction, x: seq<T>, y: seq<T>, partial: array<T>)
    requires Long(r, x, y) && partial.Length > 0
    modifies partial
    ensures partial[..] == ReductionResult(ar, r, x, y, old(partial[..]))
  {
    ghost var terms := Terms(ar, r, x, y);
    var sum := ar.zero;
    for j := 0 to r.n
      invariant sum == SumOf(ar, terms[..j])
    {
      assert terms[..j + 1][..j] == terms[..j];
      sum := ar.add(sum, if r.dot then ar.mul(x[j], y[j]) else x[j]);
    }
    assert terms[..r.n] == terms;
    partial[0] := sum;
  }
}
