/** Row-major matrices, the naive transpose and the comparison the client's final check rests on. */
module Transpose {
  import opened Masks

  type uint64 = x: int | 0 <= x < 0x1_0000_0000_0000_0000

  const WORD32: nat := 0x1_0000_0000

  /** The wrap-around of 32-bit unsigned arithmetic. */
  function U32(x: nat): nat { x % WORD32 }

  /** The index of row `row`, column `col` in a row-major matrix with `width` columns. */
  function Cell(row: nat, col: nat, width: nat): nat {
    row * width + col
  }

  lemma CellInside(row: nat, col: nat, height: nat, width: nat)
    requires row < height && col < width
    ensures Cell(row, col, width) < height * width
  {
    WholeLaps(height - row - 1, width);
    assert height * width == row * width + width + (height - row - 1) * width;
  }

  lemma CellDecodes(row: nat, col: nat, width: nat)
    requires col < width
    ensures Cell(row, col, width) / width == row && Cell(row, col, width) % width == col
  {
    UniqueRemainder(Cell(row, col, width), row, width, col);
  }

  lemma EveryIndexIsACell(p: nat, height: nat, width: nat)
    requires p < height * width
    ensures width > 0 && p / width < height && p % width < width
    ensures p == Cell(p / width, p % width, width)
  {
    assert width == 0 ==> height * width == 0;
    var row := p / width;
    assert p == row * width + p % width;
    assert row * width == height * width + (row - height) * width;
    assert row >= height ==> (row - height) * width >= 0;
  }

  /** dst holds at (col, row) what src holds at (row, col). */
  ghost predicate Copied(src: seq<uint64>, dst: seq<uint64>, rows: nat, cols: nat, row: nat, col: nat)
    requires |src| == |dst| == rows * cols && row < rows && col < cols
  {
    CellInside(row, col, rows, cols);
    CellInside(col, row, cols, rows);
    dst[Cell(col, row, rows)] == src[Cell(row, col, cols)]
  }

  ghost predicate IsTranspose(src: seq<uint64>, dst: seq<uint64>, rows: nat, cols: nat) {
    && |src| == |dst| == rows * cols
    && forall row: nat, col: nat | row < rows && col < cols :: Copied(src, dst, rows, cols, row, col)
  }

  /** The transpose of a rows x cols matrix, index by index. */
  function Transposed(src: seq<uint64>, rows: nat, cols: nat): (dst: seq<uint64>)
    requires |src| == rows * cols
    ensures |dst| == |src|
  {
    seq(rows * cols, p requires 0 <= p < rows * cols => TransposedAt(src, rows, cols, p))
  }

  function TransposedAt(src: seq<uint64>, rows: nat, cols: nat, p: nat): uint64
    requires |src| == rows * cols && p < rows * cols
  {
    EveryIndexIsACell(p, cols, rows);
    CellInside(p % rows, p / rows, rows, cols);
    src[Cell(p % rows, p / rows, cols)]
  }

  /** There is exactly one transpose. */
  lemma TransposeIsUnique(src: seq<uint64>, dst: seq<uint64>, rows: nat, cols: nat)
    requires |src| == rows * cols
    ensures IsTranspose(src, dst, rows, cols) <==> dst == Transposed(src, rows, cols)
  {
    forall row: nat, col: nat | row < rows && col < cols
      ensures Copied(src, Transposed(src, rows, cols), rows, cols, row, col)
    {
      CellInside(row, col, rows, cols);
      CellInside(col, row, cols, rows);
      CellDecodes(col, row, rows);
    }
    if IsTranspose(src, dst, rows, cols) {
      forall p: nat | p < rows * cols
        ensures dst[p] == Transposed(src, rows, cols)[p]
      {
        EveryIndexIsACell(p, cols, rows);
        assert Copied(src, dst, rows, cols, p % rows, p / rows);
      }
    }
  }

  /** Transposing back restores the matrix. */
  lemma TransposeTwice(src: seq<uint64>, rows: nat, cols: nat)
    requires |src| == rows * cols
    ensures Transposed(Transposed(src, rows, cols), cols, rows) == src
  {
    var dst := Transposed(src, rows, cols);
    TransposeIsUnique(src, dst, rows, cols);
    forall row: nat, col: nat | row < cols && col < rows
      ensures Copied(dst, src, cols, rows, row, col)
    {
      assert Copied(src, dst, rows, cols, col, row);
    }
    TransposeIsUnique(dst, src, cols, rows);
  }

  function Zeros(n: nat): (z: seq<uint64>)
    ensures |z| == n && forall i | 0 <= i < n :: z[i] == 0
  {
    seq(n, _ => 0)
  }

  /** A zero matrix is its own transpose, up to the shape. */
  lemma ZerosTransposed(rows: nat, cols: nat)
    ensures Transposed(Zeros(rows * cols), rows, cols) == Zeros(cols * rows)
  {
    assert rows * cols == cols * rows;
    forall row: nat, col: nat | row < rows && col < cols
      ensures Copied(Zeros(rows * cols), Zeros(cols * rows), rows, cols, row, col)
    {
      CellInside(row, col, rows, cols);
      CellInside(col, row, cols, rows);
    }
    TransposeIsUnique(Zeros(rows * cols), Zeros(cols * rows), rows, cols);
  }

  /** The second matrix is the transpose of the first, a rows x cols one. */
  predicate Matches(src: seq<uint64>, dst: seq<uint64>, rows: nat, cols: nat) {
    |src| == rows * cols && dst == Transposed(src, rows, cols)
  }

  /** The test decides the cell-by-cell definition, for all shapes and contents. */
  lemma MatchingIsTransposing(src: seq<uint64>, dst: seq<uint64>, rows: nat, cols: nat)
    ensures Matches(src, dst, rows, cols) <==> IsTranspose(src, dst, rows, cols)
  {
    if |src| == rows * cols {
      TransposeIsUnique(src, dst, rows, cols);
    }
  }

  /** Some result is not the transpose of its source: what the client's final loop looks for. */
  predicate SomeMismatch(src: seq<seq<uint64>>, dst: seq<seq<uint64>>, rows: nat, cols: nat)
    requires |src| == |dst|
  {
    exists b | 0 <= b < |src| :: !Matches(src[b], dst[b], rows, cols)
  }

  // ---------- the transpose rearranges ----------

  function Without<T>(s: seq<T>, k: nat): seq<T>
    requires k < |s|
  {
    s[..k] + s[k + 1..]
  }

  lemma WithoutOne<T>(s: seq<T>, k: nat)
    requires k < |s|
    ensures multiset(Without(s, k)) == multiset(s) - multiset{s[k]}
    ensures multiset(s) == multiset(Without(s, k)) + multiset{s[k]}
  {
    assert s == (s[..k] + [s[k]]) + s[k + 1..];
  }

  ghost predicate Indexes(at: seq<nat>, n: nat) {
    forall k | 0 <= k < |at| :: at[k] < n
  }

  /** The elements of src at the given indices. */
  ghost function Select(src: seq<uint64>, at: seq<nat>): (picked: seq<uint64>)
    requires Indexes(at, |src|)
    ensures |picked| == |at|
  {
    seq(|at|, k requires 0 <= k < |at| => src[at[k]])
  }

  lemma SelectWithout(src: seq<uint64>, at: seq<nat>, k: nat)
    requires Indexes(at, |src|) && k < |at|
    ensures Indexes(Without(at, k), |src|)
    ensures Select(src, Without(at, k)) == Without(Select(src, at), k)
    ensures multiset(Select(src, at)) == multiset(Select(src, Without(at, k))) + multiset{src[at[k]]}
  {
    WithoutOne(Select(src, at), k);
  }

  lemma {:induction false} SelectionFollowsIndices(src: seq<uint64>, a: seq<nat>, b: seq<nat>)
    requires Indexes(a, |src|) && Indexes(b, |src|) && multiset(a) == multiset(b)
    ensures multiset(Select(src, a)) == multiset(Select(src, b))
    decreases |a|
  {
    if a == [] {
      assert |multiset(b)| == 0;
    } else {
      assert a[0] in multiset(b);
      var k :| 0 <= k < |b| && b[k] == a[0];
      WithoutOne(a, 0);
      WithoutOne(b, k);
      SelectWithout(src, a, 0);
      SelectWithout(src, b, k);
      SelectionFollowsIndices(src, Without(a, 0), Without(b, k));
    }
  }

  lemma {:induction false} CountDistinct(s: seq<nat>, x: nat)
    requires forall i, j | 0 <= i < j < |s| :: s[i] != s[j]
    ensures multiset(s)[x] == if x in s then 1 else 0
  {
    if s != [] {
      var last := |s| - 1;
      assert s == s[..last] + [s[last]];
      CountDistinct(s[..last], x);
    }
  }

  function Identity(n: nat): (ids: seq<nat>)
    ensures |ids| == n && forall k | 0 <= k < n :: ids[k] == k
  {
    seq(n, k requires 0 <= k < n => k)
  }

  lemma PermutedIndices(at: seq<nat>)
    requires forall i, j | 0 <= i < j < |at| :: at[i] != at[j]
    requires forall x: nat :: x < |at| <==> x in at
    ensures multiset(at) == multiset(Identity(|at|))
  {
    forall x: nat
      ensures multiset(at)[x] == multiset(Identity(|at|))[x]
    {
      CountDistinct(at, x);
      CountDistinct(Identity(|at|), x);
      if x < |at| {
        assert Identity(|at|)[x] == x;
      }
    }
  }

  /** Where cell p of the transpose comes from. */
  function Origin(rows: nat, cols: nat, p: nat): (q: nat)
    requires p < rows * cols
    ensures q < rows * cols
  {
    EveryIndexIsACell(p, cols, rows);
    CellInside(p % rows, p / rows, rows, cols);
    Cell(p % rows, p / rows, cols)
  }

  lemma OriginInverts(rows: nat, cols: nat, p: nat)
    requires p < rows * cols
    ensures Origin(cols, rows, Origin(rows, cols, p)) == p
  {
    EveryIndexIsACell(p, cols, rows);
    CellDecodes(p % rows, p / rows, cols);
  }

  /** The transpose has the same elements, each as often. */
  lemma TransposeRearranges(src: seq<uint64>, rows: nat, cols: nat)
    requires |src| == rows * cols
    ensures multiset(Transposed(src, rows, cols)) == multiset(src)
  {
    var n := rows * cols;
    var at := seq(n, p requires 0 <= p < n => Origin(rows, cols, p));
    forall p, q | 0 <= p < q < n
      ensures at[p] != at[q]
    {
      OriginInverts(rows, cols, p);
      OriginInverts(rows, cols, q);
    }
    forall x: nat | x < n
      ensures x in at
    {
      OriginInverts(cols, rows, x);
      assert at[Origin(cols, rows, x)] == x;
    }
    PermutedIndices(at);
    SelectionFollowsIndices(src, at, Identity(n));
    assert Select(src, Identity(n)) == src;
    assert Select(src, at) == Transposed(src, rows, cols);
  }

  // ---------- the loops ----------

  /** TransposeNaive. Its 32-bit index arithmetic does not wrap as long as the matrix has at most 2^32 cells. */
  method TransposeNaive(src: array<uint64>, dst: array<uint64>, rowCount: nat, colCount: nat)
    requires src != dst && src.Length == dst.Length == rowCount * colCount <= WORD32
    modifies dst
    ensures dst[..] == Transposed(src[..], rowCount, colCount)
  {
    for i := 0 to rowCount
      invariant forall row: nat, col: nat | row < i && col < colCount ::
        Copied(src[..], dst[..], rowCount, colCount, row, col)
    {
      for j := 0 to colCount
        invariant forall row: nat, col: nat | row < rowCount && col < colCount && (row < i || (row == i && col < j)) ::
          Copied(src[..], dst[..], rowCount, colCount, row, col)
      {
        CellInside(i, j, rowCount, colCount);
        CellInside(j, i, colCount, rowCount);
        ghost var before := dst[..];
        dst[U32(j * rowCount + i)] := src[U32(i * colCount + j)];
        CopyKeepsOthers(src[..], before, dst[..], rowCount, colCount, i, j);
      }
    }
    TransposeIsUnique(src[..], dst[..], rowCount, colCount);
  }

  /** Writing one cell rightly leaves every other copied cell copied. */
  lemma CopyKeepsOthers(src: seq<uint64>, before: seq<uint64>, after: seq<uint64>,
                        rows: nat, cols: nat, i: nat, j: nat)
    requires |src| == |before| == rows * cols && i < rows && j < cols
    requires Cell(i, j, cols) < |src| && Cell(j, i, rows) < |before|
    requires after == before[Cell(j, i, rows) := src[Cell(i, j, cols)]]
    ensures Copied(src, after, rows, cols, i, j)
    ensures forall row: nat, col: nat | row < rows && col < cols ::
      Copied(src, before, rows, cols, row, col) ==> Copied(src, after, rows, cols, row, col)
  {
    forall row: nat, col: nat | row < rows && col < cols && Copied(src, before, rows, cols, row, col)
      ensures Copied(src, after, rows, cols, row, col)
    {
      CellDecodes(col, row, rows);
      CellDecodes(j, i, rows);
      CellInside(col, row, cols, rows);
    }
  }

  /** MatricesAreEqual compares the first rowCount * colCount cells, that product taken in 32 bits. */
  method MatricesAreEqual(src: array<uint64>, dst: array<uint64>, rowCount: nat, colCount: nat) returns (equal: bool)
    requires src.Length == dst.Length == rowCount * colCount
    ensures equal <==> AgreeUpTo(src[..], dst[..], U32(rowCount * colCount))
  {
    for i := 0 to U32(rowCount * colCount)
      invariant AgreeUpTo(src[..], dst[..], i)
    {
      if src[i] != dst[i] {
        return false;
      }
    }
    return true;
  }

  ghost predicate AgreeUpTo(a: seq<uint64>, b: seq<uint64>, n: nat) {
    n <= |a| && n <= |b| && a[..n] == b[..n]
  }

  /** The comparison decides equality of all matrices of a shape exactly when the shape has fewer than 2^32 cells;
      from there on the product wraps and the last cell is never looked at. */
  lemma ComparisonIsExactBelowWrap(rowCount: nat, colCount: nat)
    ensures rowCount * colCount < WORD32 <==>
      forall a: seq<uint64>, b: seq<uint64> | |a| == |b| == rowCount * colCount ::
        AgreeUpTo(a, b, U32(rowCount * colCount)) <==> a == b
  {
    var n := rowCount * colCount;
    if n < WORD32 {
      forall a: seq<uint64>, b: seq<uint64> | |a| == |b| == n
        ensures AgreeUpTo(a, b, U32(n)) <==> a == b
      {
        assert a[..n] == a && b[..n] == b;
      }
    } else {
      var a: seq<uint64> := seq(n, _ => 0);
      var b: seq<uint64> := a[n - 1 := 1];
      assert a[n - 1] != b[n - 1];
      assert AgreeUpTo(a, b, U32(n));
    }
  }
}
