/** The client's last loop: every result is compared with a transpose of its own making. */
module FinalComparison {
  import opened Transpose

  ghost function Cells(buffers: seq<array<uint64>>): (cells: seq<seq<uint64>>)
    reads buffers
    ensures |cells| == |buffers| && forall b | 0 <= b < |buffers| :: cells[b] == buffers[b][..]
  {
    seq(|buffers|, b requires 0 <= b < |buffers| reads buffers => buffers[b][..])
  }

  /** No reference buffer is the memory of a source or a result. */
  ghost predicate Apart(matrices: seq<array<uint64>>, results: seq<array<uint64>>, references: seq<array<uint64>>) {
    forall b | 0 <= b < |references| :: references[b] !in matrices && references[b] !in results
  }

  /** One more buffer is looked at. */
  lemma OneMore(src: seq<seq<uint64>>, tr: seq<seq<uint64>>, rows: nat, cols: nat, b: nat)
    requires |src| == |tr| && b < |src|
    ensures SomeMismatch(src[..b + 1], tr[..b + 1], rows, cols) <==>
      SomeMismatch(src[..b], tr[..b], rows, cols) || !Matches(src[b], tr[b], rows, cols)
  {
    if SomeMismatch(src[..b], tr[..b], rows, cols) {
      var a :| 0 <= a < b && !Matches(src[..b][a], tr[..b][a], rows, cols);
      assert src[..b + 1][a] == src[a] && tr[..b + 1][a] == tr[a];
    }
    assert src[..b + 1][b] == src[b] && tr[..b + 1][b] == tr[b];
    assert src[..b + 1][..b] == src[..b] && tr[..b + 1][..b] == tr[..b];
  }

  /** A mismatch is a result with some wrong cell. */
  lemma CellByCell(src: seq<seq<uint64>>, tr: seq<seq<uint64>>, rows: nat, cols: nat)
    requires |src| == |tr|
    ensures SomeMismatch(src, tr, rows, cols) <==> exists b | 0 <= b < |src| :: !IsTranspose(src[b], tr[b], rows, cols)
  {
    forall b | 0 <= b < |src|
      ensures Matches(src[b], tr[b], rows, cols) <==> IsTranspose(src[b], tr[b], rows, cols)
    {
      MatchingIsTransposing(src[b], tr[b], rows, cols);
    }
  }

  /** The body of the loop, for one buffer. */
  method CheckOne(matrix: array<uint64>, result: array<uint64>, reference: array<uint64>, rowCount: nat, colCount: nat)
    returns (equal: bool)
    requires reference != matrix && reference != result && rowCount * colCount < WORD32
    requires matrix.Length == result.Length == reference.Length == rowCount * colCount
    modifies reference
    ensures equal <==> Matches(matrix[..], result[..], rowCount, colCount)
  {
    TransposeNaive(matrix, reference, rowCount, colCount);
    equal := MatricesAreEqual(result, reference, rowCount, colCount);
    assert U32(rowCount * colCount) == rowCount * colCount;
    assert result[..result.Length] == result[..] && reference[..reference.Length] == reference[..];
  }

  /** The verdict is exact for all matrices of fewer than 2^32 cells, and the compared buffers are left alone. */
  method FinalCheck(matrices: seq<array<uint64>>, results: seq<array<uint64>>, references: seq<array<uint64>>,
                    rowCount: nat, colCount: nat)
    returns (errorFound: bool)
    requires |matrices| == |results| == |references| && Apart(matrices, results, references)
    requires rowCount * colCount < WORD32
    requires forall b | 0 <= b < |matrices| ::
      matrices[b].Length == results[b].Length == references[b].Length == rowCount * colCount
    modifies references
    ensures Cells(matrices) == old(Cells(matrices)) && Cells(results) == old(Cells(results))
    ensures errorFound <==> SomeMismatch(Cells(matrices), Cells(results), rowCount, colCount)
    ensures errorFound <==>
      exists b | 0 <= b < |matrices| :: !IsTranspose(matrices[b][..], results[b][..], rowCount, colCount)
  {
    errorFound := false;
    ghost var src, tr := Cells(matrices), Cells(results);
    for b := 0 to |matrices|
      invariant Cells(matrices) == src && Cells(results) == tr
      invariant errorFound <==> SomeMismatch(src[..b], tr[..b], rowCount, colCount)
    {
      assert src[b] == matrices[b][..] && tr[b] == results[b][..];
      var equal := CheckOne(matrices[b], results[b], references[b], rowCount, colCount);
      OneMore(src, tr, rowCount, colCount, b);
      if !equal {
        errorFound := true;
      }
    }
    assert src[..|matrices|] == src && tr[..|matrices|] == tr;
    CellByCell(src, tr, rowCount, colCount);
  }
}
