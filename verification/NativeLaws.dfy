/** What the native matmuls, `gemv` and `transpose` have to do with one another, on
    the flat index layout and for all shapes. */
module NativeLaws {
  import opened Arith
  import opened Layout
  import opened Native

  // ----------------------------------------------------------------------------
  // transpose
  // ----------------------------------------------------------------------------

  /** Element (`c`, `r`) of the transpose is element (`r`, `c`) of the source. */
  lemma TransposeAt<T>(rows: nat, cols: nat, src: seq<T>, dst: seq<T>, r: nat, c: nat)
    requires |src| >= rows * cols && |dst| >= rows * cols && r < rows && c < cols
    ensures c * rows + r < rows * cols && r * cols + c < rows * cols
    ensures TransposeResult(rows, cols, src, dst)[c * rows + r] == src[r * cols + c]
  {
    TransposeFrom(rows, cols, src, dst, r, c, r * cols + c, c * rows + r);
  }

  lemma TransposeFrom<T>(rows: nat, cols: nat, src: seq<T>, dst: seq<T>, r: nat, c: nat, from: nat, to: nat)
    requires |src| >= rows * cols && |dst| >= rows * cols && r < rows && c < cols
    requires from == r * cols + c && to == c * rows + r
    ensures from < rows * cols && to < rows * cols && TransposeResult(rows, cols, src, dst)[to] == src[from]
  {
    MirrorIs(rows, cols, r, c);
    IndexFits(r, c, rows, cols);
    hide Mirror;
  }

  lemma TransposeTwice<T>(rows: nat, cols: nat, src: seq<T>, mid: seq<T>, dst: seq<T>)
    requires |src| >= rows * cols && |mid| >= rows * cols && |dst| >= rows * cols
    ensures TransposeResult(cols, rows, TransposeResult(rows, cols, src, mid), dst)
         == src[..rows * cols] + dst[rows * cols..]
  {
    var t := TransposeResult(rows, cols, src, mid);
    var back := TransposeResult(cols, rows, t, dst);
    forall j: nat | j < rows * cols ensures back[j] == src[j] {
      IndexSplits(j, rows, cols);
      TransposeAt(rows, cols, src, mid, j / cols, j % cols);
      TransposeAt(cols, rows, t, dst, j % cols, j / cols);
    }
  }

  // ----------------------------------------------------------------------------
  // matmul_trp is matmul of a transpose
  // ----------------------------------------------------------------------------

  lemma {:induction false} ProductOfTransposed<T>(
    ar: Arith<T>, s: Shape, a: seq<T>, b: seq<T>, bt: seq<T>, dst: seq<T>, row: nat, col: nat, n: nat)
    requires row < s.m && col < s.n && n <= s.k && |a| >= s.m * s.k && |b| >= s.n * s.k && |dst| >= s.n * s.k
    requires bt == TransposeResult(s.n, s.k, b, dst)
    ensures PartialProduct(ar, Transposed, s, a, b, row, col, n) == PartialProduct(ar, Plain, s, a, bt, row, col, n)
  {
    if n > 0 {
      ProductOfTransposed(ar, s, a, b, bt, dst, row, col, n - 1);
      TransposeAt(s.n, s.k, b, dst, col, n - 1);
    }
  }

  /** `matmul_trp(A, B)` is `matmul(A, transpose(B))`. */
  lemma TransposedIsPlainOfTranspose<T>(ar: Arith<T>, s: Shape, a: seq<T>, b: seq<T>, c: seq<T>, dst: seq<T>)
    requires LongEnough(s, a, b, c) && |dst| >= s.n * s.k
    ensures MatmulResult(ar, Transposed, s, a, b, c)
         == MatmulResult(ar, Plain, s, a, TransposeResult(s.n, s.k, b, dst), c)
  {
    var bt := TransposeResult(s.n, s.k, b, dst);
    forall j: nat | j < s.m * s.n
      ensures Element(ar, Transposed, s, a, b, j, c[j]) == Element(ar, Plain, s, a, bt, j, c[j])
    {
      IndexSplits(j, s.m, s.n);
      ProductOfTransposed(ar, s, a, b, bt, dst, j / s.n, j % s.n, s.k);
    }
  }

  // ----------------------------------------------------------------------------
  // transpose, then matmul_add: dB += A^T * dC
  // ----------------------------------------------------------------------------

  /** The first `n` terms of element (`kk`, `col`) of `A^T * dC`: a column of A, MxK,
      with a column of dC, MxN. */
  function ColumnsProduct<T>(ar: Arith<T>, s: Shape, a: seq<T>, dc: seq<T>, kk: nat, col: nat, n: nat): T
    requires |a| >= s.m * s.k && |dc| >= s.m * s.n && kk < s.k && col < s.n && n <= s.m
  {
    if n == 0 then ar.zero
    else
      IndexFits(n - 1, kk, s.m, s.k);
      IndexFits(n - 1, col, s.m, s.n);
      ar.add(ColumnsProduct(ar, s, a, dc, kk, col, n - 1),
             ar.mul(a[(n - 1) * s.k + kk], dc[(n - 1) * s.n + col]))
  }

  lemma {:induction false} ProductWithTranspose<T>(
    ar: Arith<T>, s: Shape, a: seq<T>, at: seq<T>, dst: seq<T>, dc: seq<T>, kk: nat, col: nat, n: nat)
    requires |a| >= s.m * s.k && |dst| >= s.m * s.k && |dc| >= s.m * s.n && kk < s.k && col < s.n && n <= s.m
    requires at == TransposeResult(s.m, s.k, a, dst)
    ensures PartialProduct(ar, Accumulating, Shape(s.k, s.n, s.m), at, dc, kk, col, n)
         == ColumnsProduct(ar, s, a, dc, kk, col, n)
  {
    if n > 0 {
      ProductWithTranspose(ar, s, a, at, dst, dc, kk, col, n - 1);
      TransposeAt(s.m, s.k, a, dst, n - 1, kk);
    }
  }

  /** `transpose` of A, MxK, then `matmul_add` with dC, MxN, adds `A^T * dC` to dB, KxN. */
  lemma WeightGradient<T>(
    ar: Arith<T>, s: Shape, a: seq<T>, dst: seq<T>, dc: seq<T>, db: seq<T>, kk: nat, col: nat)
    requires |a| >= s.m * s.k && |dst| >= s.m * s.k && |dc| >= s.m * s.n && |db| >= s.k * s.n
    requires kk < s.k && col < s.n
    ensures kk * s.n + col < s.k * s.n
    ensures MatmulResult(ar, Accumulating, Shape(s.k, s.n, s.m), TransposeResult(s.m, s.k, a, dst), dc, db)
              [kk * s.n + col]
         == ar.add(db[kk * s.n + col], ColumnsProduct(ar, s, a, dc, kk, col, s.m))
  {
    IndexFits(kk, col, s.k, s.n);
    SplitOfIndex(kk, col, s.n);
    ProductWithTranspose(ar, s, a, TransposeResult(s.m, s.k, a, dst), dst, dc, kk, col, s.m);
  }

  // ----------------------------------------------------------------------------
  // gemv is the one-row matmul
  // ----------------------------------------------------------------------------

  lemma {:induction false} RowProductIs<T>(ar: Arith<T>, s: Shape, a: seq<T>, b: seq<T>, col: nat, n: nat)
    requires |a| >= s.k && |b| >= s.k * s.n && col < s.n && n <= s.k
    ensures RowProduct(ar, s, a, b, col, n) == PartialProduct(ar, Plain, Shape(1, s.n, s.k), a, b, 0, col, n)
  {
    if n > 0 {
      RowProductIs(ar, s, a, b, col, n - 1);
    }
  }

  lemma GemvIsOneRowMatmul<T>(ar: Arith<T>, s: Shape, a: seq<T>, b: seq<T>, c: seq<T>)
    requires GemvLongEnough(s, a, b, c)
    ensures GemvResult(ar, s, a, b, c) == MatmulResult(ar, Plain, Shape(1, s.n, s.k), a, b, c)
  {
    forall j: nat | j < s.n
      ensures RowProduct(ar, s, a, b, j, s.k) == Element(ar, Plain, Shape(1, s.n, s.k), a, b, j, c[j])
    {
      SplitOfIndex(0, j, s.n);
      RowProductIs(ar, s, a, b, j, s.k);
    }
  }

  // ----------------------------------------------------------------------------
  // Only the first `min_lens` elements matter
  // ----------------------------------------------------------------------------

  lemma {:induction false} ProductReadsOnly<T>(
    ar: Arith<T>, v: Variant, s: Shape, a: seq<T>, b: seq<T>, a': seq<T>, b': seq<T>, row: nat, col: nat, n: nat)
    requires row < s.m && col < s.n && n <= s.k
    requires |a| >= s.m * s.k && |b| >= s.k * s.n && |a'| >= s.m * s.k && |b'| >= s.k * s.n
    requires a[..s.m * s.k] == a'[..s.m * s.k] && b[..s.k * s.n] == b'[..s.k * s.n]
    ensures PartialProduct(ar, v, s, a, b, row, col, n) == PartialProduct(ar, v, s, a', b', row, col, n)
  {
    if n > 0 {
      ProductReadsOnly(ar, v, s, a, b, a', b', row, col, n - 1);
      IndexFits(row, n - 1, s.m, s.k);
      var i, j := row * s.k + n - 1, BIndex(v, s, col, n - 1);
      assert a[i] == a[..s.m * s.k][i] && b[j] == b[..s.k * s.n][j];
      assert a'[i] == a'[..s.m * s.k][i] && b'[j] == b'[..s.k * s.n][j];
    }
  }

  lemma ElementReadsOnly<T>(
    ar: Arith<T>, v: Variant, s: Shape, a: seq<T>, b: seq<T>, a': seq<T>, b': seq<T>, j: nat, old_: T)
    requires |a| >= s.m * s.k && |b| >= s.k * s.n && |a'| >= s.m * s.k && |b'| >= s.k * s.n && j < s.m * s.n
    requires a[..s.m * s.k] == a'[..s.m * s.k] && b[..s.k * s.n] == b'[..s.k * s.n]
    ensures Element(ar, v, s, a, b, j, old_) == Element(ar, v, s, a', b', j, old_)
  {
    IndexSplits(j, s.m, s.n);
    hide PartialProduct;
    ProductReadsOnly(ar, v, s, a, b, a', b', j / s.n, j % s.n, s.k);
  }

  /** A matmul reads and writes the first `min_lens` elements of its slots and no more. */
  lemma MatmulStaysInMinLens<T>(
    ar: Arith<T>, v: Variant, s: Shape, a: seq<T>, b: seq<T>, c: seq<T>, a': seq<T>, b': seq<T>, c': seq<T>)
    requires LongEnough(s, a, b, c) && LongEnough(s, a', b', c')
    requires a[..s.m * s.k] == a'[..s.m * s.k] && b[..s.k * s.n] == b'[..s.k * s.n]
    requires c[..s.m * s.n] == c'[..s.m * s.n]
    ensures MatmulResult(ar, v, s, a, b, c)[..s.m * s.n] == MatmulResult(ar, v, s, a', b', c')[..s.m * s.n]
    ensures MatmulResult(ar, v, s, a, b, c)[s.m * s.n..] == c[s.m * s.n..]
  {
    hide Element;
    forall j: nat | j < s.m * s.n
      ensures Element(ar, v, s, a, b, j, c[j]) == Element(ar, v, s, a', b', j, c'[j])
    {
      assert c[j] == c[..s.m * s.n][j] && c'[j] == c'[..s.m * s.n][j];
      ElementReadsOnly(ar, v, s, a, b, a', b', j, c[j]);
    }
  }

  lemma {:induction false} RowProductReadsOnly<T>(
    ar: Arith<T>, s: Shape, a: seq<T>, b: seq<T>, a': seq<T>, b': seq<T>, col: nat, n: nat)
    requires col < s.n && n <= s.k && |a| >= s.k && |b| >= s.k * s.n && |a'| >= s.k && |b'| >= s.k * s.n
    requires a[..s.k] == a'[..s.k] && b[..s.k * s.n] == b'[..s.k * s.n]
    ensures RowProduct(ar, s, a, b, col, n) == RowProduct(ar, s, a', b', col, n)
  {
    if n > 0 {
      RowProductReadsOnly(ar, s, a, b, a', b', col, n - 1);
      IndexFits(n - 1, col, s.k, s.n);
      var j := (n - 1) * s.n + col;
      assert a[n - 1] == a[..s.k][n - 1] && b[j] == b[..s.k * s.n][j];
      assert a'[n - 1] == a'[..s.k][n - 1] && b'[j] == b'[..s.k * s.n][j];
    }
  }

  /** So does a `gemv`, */
  lemma GemvStaysInMinLens<T>(
    ar: Arith<T>, s: Shape, a: seq<T>, b: seq<T>, c: seq<T>, a': seq<T>, b': seq<T>, c': seq<T>)
    requires GemvLongEnough(s, a, b, c) && GemvLongEnough(s, a', b', c')
    requires a[..s.k] == a'[..s.k] && b[..s.k * s.n] == b'[..s.k * s.n]
    ensures GemvResult(ar, s, a, b, c)[..s.n] == GemvResult(ar, s, a', b', c')[..s.n]
    ensures GemvResult(ar, s, a, b, c)[s.n..] == c[s.n..]
  {
    hide RowProduct;
    forall col: nat | col < s.n
      ensures RowProduct(ar, s, a, b, col, s.k) == RowProduct(ar, s, a', b', col, s.k)
    {
      RowProductReadsOnly(ar, s, a, b, a', b', col, s.k);
    }
  }

  /** a transpose, */
  lemma TransposeStaysInMinLens<T>(rows: nat, cols: nat, src: seq<T>, dst: seq<T>, src': seq<T>, dst': seq<T>)
    requires |src| >= rows * cols && |dst| >= rows * cols && |src'| >= rows * cols && |dst'| >= rows * cols
    requires src[..rows * cols] == src'[..rows * cols]
    ensures TransposeResult(rows, cols, src, dst)[..rows * cols] == TransposeResult(rows, cols, src', dst')[..rows * cols]
    ensures TransposeResult(rows, cols, src, dst)[rows * cols..] == dst[rows * cols..]
  {
    forall i: nat | i < rows * cols ensures src[i] == src'[i] {
      assert src[i] == src[..rows * cols][i] && src'[i] == src'[..rows * cols][i];
    }
  }

  lemma TermsReadOnly<T>(ar: Arith<T>, r: Reduction, x: seq<T>, y: seq<T>, x': seq<T>, y': seq<T>)
    requires Long(r, x, y) && Long(r, x', y')
    requires x[..r.n] == x'[..r.n] && (r.dot ==> y[..r.n] == y'[..r.n])
    ensures Terms(ar, r, x, y) == Terms(ar, r, x', y')
  {
    forall j: nat | j < r.n ensures x[j] == x'[j] && (r.dot ==> y[j] == y'[j]) {
      assert x[j] == x[..r.n][j] && x'[j] == x'[..r.n][j];
      if r.dot {
        assert y[j] == y[..r.n][j] && y'[j] == y'[..r.n][j];
      }
    }
  }

  /** and a reduction, of whose `n` partials only the first changes. */
  lemma ReductionStaysInMinLens<T>(
    ar: Arith<T>, r: Reduction, x: seq<T>, y: seq<T>, p: seq<T>, x': seq<T>, y': seq<T>, p': seq<T>, n: nat)
    requires Long(r, x, y) && Long(r, x', y') && 0 < n <= |p| && n <= |p'|
    requires x[..r.n] == x'[..r.n] && (r.dot ==> y[..r.n] == y'[..r.n]) && p[..n] == p'[..n]
    ensures Terms(ar, r, x, y) == Terms(ar, r, x', y')
    ensures ReductionResult(ar, r, x, y, p)[..n] == ReductionResult(ar, r, x', y', p')[..n]
    ensures ReductionResult(ar, r, x, y, p)[1..] == p[1..]
  {
    TermsReadOnly(ar, r, x, y, x', y');
    hide Terms, SumOf;
    var sum := SumOf(ar, Terms(ar, r, x, y));
    assert p[0 := sum][..n] == p[..n][0 := sum] && p'[0 := sum][..n] == p'[..n][0 := sum];
  }
}
