/** Row-major indices, and the 32-bit arithmetic the kernels compute them with. */
module Layout {

  /** Workgroups along x and y (z is 1); a node has at least one of each. */
  datatype Grid = Grid(x: nat, y: nat) {
    predicate Dispatched() {
      x > 0 && y > 0
    }
  }

  /** A `u32` result: sums and products wrap around. */
  function U32(x: int): (r: nat)
    ensures r < 0x1_0000_0000
    ensures 0 <= x < 0x1_0000_0000 ==> r == x
  {
    x % 0x1_0000_0000
  }

  lemma U32Sum(x: nat, y: nat)
    requires x + y < 0x1_0000_0000
    ensures U32(U32(x) + y) == x + y
  {
  }

  lemma IndexFits(r: nat, c: nat, rows: nat, cols: nat)
    requires r < rows && c < cols
    ensures r * cols + c < rows * cols
    ensures r * cols < rows * cols
  {
    assert (r + 1) * cols <= rows * cols;
  }

  lemma IndexInjective(r: nat, c: nat, r': nat, c': nat, cols: nat)
    requires c < cols && c' < cols
    ensures r * cols + c == r' * cols + c' <==> r == r' && c == c'
  {
    if r < r' {
      assert (r + 1) * cols <= r' * cols;
    } else if r' < r {
      assert (r' + 1) * cols <= r * cols;
    }
  }

  lemma TimesMonotone(x: nat, y: nat, c: nat)
    requires x <= y
    ensures x * c <= y * c
  {
  }

  /** Row and column of a flat index. */
  lemma IndexSplits(j: nat, rows: nat, cols: nat)
    requires j < rows * cols
    ensures cols > 0 && j / cols < rows && j % cols < cols && j == j / cols * cols + j % cols
  {
    if rows <= j / cols {
      TimesMonotone(rows, j / cols, cols);
    }
  }

  /** The same, without a quotient in sight. */
  lemma RowAndCol(j: nat, rows: nat, cols: nat) returns (r: nat, c: nat)
    requires j < rows * cols
    ensures r < rows && c < cols && j == r * cols + c
  {
    IndexSplits(j, rows, cols);
    r, c := j / cols, j % cols;
  }

  lemma SplitOfIndex(r: nat, c: nat, cols: nat)
    requires c < cols
    ensures (r * cols + c) / cols == r && (r * cols + c) % cols == c
  {
    var j := r * cols + c;
    assert j == j / cols * cols + j % cols;
    IndexInjective(j / cols, j % cols, r, c, cols);
  }
}
