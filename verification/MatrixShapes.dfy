/** Sizes in 32 bits: which exponents and thread counts the code can really serve. */
module MatrixShapes {
  import opened Masks
  import opened Transpose
  import opened TiledTranspose

  /** SharedMatrixBuffer keeps 1UL << m in 32 bits. */
  function Dimension(exponent: nat): nat {
    U32(Pow2(exponent))
  }

  /** GetElementCount, a 32-bit product of the two dimensions. */
  function ElementCount(m: nat, n: nat): nat {
    U32(Dimension(m) * Dimension(n))
  }

  /** The bytes mapped for one matrix. */
  function MatrixBytes(m: nat, n: nat): nat {
    ElementCount(m, n) * 8
  }

  lemma DimensionValue(exponent: nat)
    ensures Dimension(exponent) == if exponent < 32 then Pow2(exponent) else 0
  {
    Pow2Values();
    if exponent < 32 {
      Pow2Monotone(exponent, 31);
    } else {
      Pow2Divides(32, exponent);
    }
  }

  /** The buffer has room for the matrix exactly if it has fewer than 2^32 elements; from there on the product wraps to
      zero. */
  lemma ElementCountIsExact(m: nat, n: nat)
    ensures ElementCount(m, n) == Pow2(m + n) <==> m + n <= 31
    ensures m + n >= 32 ==> MatrixBytes(m, n) == 0
  {
    DimensionValue(m);
    DimensionValue(n);
    DimensionValue(m + n);
    Pow2Sum(m, n);
  }

  /** The whole matrix lies in its mapping exactly if it has fewer than 2^32 elements, and then the last element ends
      where the mapping ends. */
  lemma MappingHoldsTheMatrix(m: nat, n: nat)
    ensures
      (forall row: nat, col: nat | row < Pow2(m) && col < Pow2(n) ::
        8 * Cell(row, col, Pow2(n)) + 8 <= MatrixBytes(m, n))
      <==> m + n <= 31
    ensures m + n <= 31 ==> 8 * Cell(Pow2(m) - 1, Pow2(n) - 1, Pow2(n)) + 8 == MatrixBytes(m, n)
  {
    ElementCountIsExact(m, n);
    Pow2Sum(m, n);
    if m + n <= 31 {
      forall row: nat, col: nat | row < Pow2(m) && col < Pow2(n)
        ensures 8 * Cell(row, col, Pow2(n)) + 8 <= MatrixBytes(m, n)
      {
        CellInside(row, col, Pow2(m), Pow2(n));
      }
      LastCell(Pow2(m), Pow2(n));
    } else {
      assert Cell(0, 0, Pow2(n)) == 0;
    }
  }

  lemma LastCell(rows: nat, cols: nat)
    requires rows > 0 && cols > 0
    ensures Cell(rows - 1, cols - 1, cols) + 1 == rows * cols
  {
    assert rows * cols == (rows - 1) * cols + cols;
  }

  /** The server's tile of 64. */
  const TILE_EXPONENT: nat := 6

  lemma ServerTile()
    ensures Pow2(TILE_EXPONENT) == 64
  {
  }

  lemma DividesExactly(t: nat, m: nat)
    ensures Pow2(m) % Pow2(t) == 0 <==> t <= m
  {
    if t <= m {
      Pow2Divides(t, m);
    } else {
      Pow2Monotone(m, t - 1);
      UniqueRemainder(Pow2(m), 0, Pow2(t), Pow2(m));
    }
  }

  lemma FewerThanWord(m: nat, n: nat)
    ensures Pow2(m) * Pow2(n) < WORD32 <==> m + n <= 31
  {
    Pow2Sum(m, n);
    Word32IsPow2();
    if m + n <= 31 {
      Pow2Monotone(m + n, 31);
    } else {
      Pow2Monotone(32, m + n);
    }
  }

  lemma Word32IsPow2()
    ensures Pow2(32) == WORD32 && Pow2(31) < WORD32
  {
    Pow2Values();
    assert Pow2(32) == 2 * Pow2(31);
  }

  /** The dispatcher's call meets everything the tiled transpose needs exactly for exponents from 6 on with m + n <= 31
      and at least one worker thread. */
  lemma ServerCallFits(m: nat, n: nat, threads: nat)
    ensures Fits(Plan(Pow2(m), Pow2(n), 64, threads)) <==> m >= 6 && n >= 6 && m + n <= 31 && threads >= 1
  {
    ServerTile();
    DividesExactly(TILE_EXPONENT, m);
    DividesExactly(TILE_EXPONENT, n);
    FewerThanWord(m, n);
  }

  /** With exponents below 6 the server does access memory outside the matrices; with both from 6 on it never does. */
  lemma ServerStaysInside(m: nat, n: nat, threads: nat)
    ensures AccessesInside(Plan(Pow2(m), Pow2(n), 64, threads)) <==> m >= 6 && n >= 6
  {
    ServerTile();
    DividesExactly(TILE_EXPONENT, m);
    DividesExactly(TILE_EXPONENT, n);
    ExactBounds(Plan(Pow2(m), Pow2(n), 64, threads));
  }

  /** The server's test of its thread count, t & (t - 1) in 32 bits. */
  predicate ThreadCountAccepted(t: nat) {
    And(t, if t == 0 then WORD32 - 1 else t - 1) == 0
  }

  /** It accepts the powers of two, and zero as well: with zero no worker is started and the result keeps its old
      contents, so the transpose needs a positive count on top of this test. */
  lemma ThreadCountTest(t: nat)
    ensures ThreadCountAccepted(t) <==> t == 0 || IsPow2(t)
  {
    if t > 0 && ThreadCountAccepted(t) {
      DisjointFromPredecessor(t);
    }
    if IsPow2(t) {
      var k: nat :| t == Pow2(k);
      AndWithPredecessor(k);
    }
  }
}
