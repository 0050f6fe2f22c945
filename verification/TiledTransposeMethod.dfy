/** TransposeTiledMultiThreaded on arrays: the block vector is pushed block by block, and then any unfinished worker
    copies its next cell, in any order, until all are finished. */
module TiledTransposeObject {
  import opened Masks
  import opened Transpose
  import opened TiledTranspose
  import opened TiledWork

  /** Rounding a dimension up does not wrap when the tile divides both. */
  lemma RoundingStaysIn32Bits(plan: Plan)
    requires Fits(plan) && plan.rows > 0 && plan.cols > 0
    ensures plan.rows + plan.tile - 1 < WORD32 && plan.cols + plan.tile - 1 < WORD32
    ensures RowBlocks(plan) * ColBlocks(plan) < WORD32
  {
    CeilDivExact(plan.rows, plan.tile);
    CeilDivExact(plan.cols, plan.tile);
    WholeLaps(RowBlocks(plan), plan.tile);
    WholeLaps(ColBlocks(plan), plan.tile);
    QuotientAtMost(plan.rows, plan.cols);
    QuotientAtMost(plan.cols, plan.rows);
    QuotientAtMost(RowBlocks(plan), plan.tile);
    QuotientAtMost(ColBlocks(plan), plan.tile);
    ProductMonotone(RowBlocks(plan), plan.rows, ColBlocks(plan), plan.cols);
    if plan.tile >= 2 {
      ProductMonotone(plan.rows, plan.rows, 2, plan.cols);
      ProductMonotone(2, plan.rows, plan.cols, plan.cols);
    }
  }

  lemma ProductMonotone(a: nat, a': nat, b: nat, b': nat)
    requires a <= a' && b <= b'
    ensures a * b <= a' * b'
  {
    assert a' * b' == a * b + a * (b' - b) + (a' - a) * b';
  }

  /** The tile ends inside the matrix, so its 32-bit corners are exact. */
  lemma TileStaysIn32Bits(plan: Plan, bi: nat, bj: nat)
    requires Fits(plan) && plan.rows > 0 && plan.cols > 0 && bi < RowBlocks(plan) && bj < ColBlocks(plan)
    ensures bi * plan.tile + plan.tile < WORD32 && bj * plan.tile + plan.tile < WORD32
  {
    BlocksCoverExactly(plan);
    ProductMonotone(bi + 1, RowBlocks(plan), plan.tile, plan.tile);
    ProductMonotone(bj + 1, ColBlocks(plan), plan.tile, plan.tile);
    QuotientAtMost(plan.rows, plan.cols);
    QuotientAtMost(plan.cols, plan.rows);
    assert (bi + 1) * plan.tile == bi * plan.tile + plan.tile;
    assert (bj + 1) * plan.tile == bj * plan.tile + plan.tile;
  }

  /** The corners of one tile, with the source's 32-bit arithmetic. */
  method CutTile(bi: nat, bj: nat, tileSize: nat, ghost plan: Plan) returns (block: Block)
    requires Fits(plan) && plan.rows > 0 && plan.cols > 0 && plan.tile == tileSize
    requires bi < RowBlocks(plan) && bj < ColBlocks(plan)
    ensures PlaceOf(plan, bi, bj) < |Blocks(plan)| && block == Blocks(plan)[PlaceOf(plan, bi, bj)]
  {
    BlockAtPlace(plan, bi, bj);
    TileStaysIn32Bits(plan, bi, bj);
    var iStart, jStart := U32(bi * tileSize), U32(bj * tileSize);
    NoWrap32(bi * tileSize);
    NoWrap32(bj * tileSize);
    var iEnd, jEnd := U32(iStart + tileSize), U32(jStart + tileSize);
    NoWrap32(iStart + tileSize);
    NoWrap32(jStart + tileSize);
    block := Block(iStart, iEnd, jStart, jEnd);
  }

  /** The inner loop: one block column is pushed. */
  method PushColumn(blocks: seq<Block>, bj: nat, numBlocksInRow: nat, tileSize: nat, ghost plan: Plan)
    returns (more: seq<Block>)
    requires Fits(plan) && plan.rows > 0 && plan.cols > 0 && plan.tile == tileSize
    requires numBlocksInRow == RowBlocks(plan) && bj < ColBlocks(plan)
    requires PlaceOf(plan, 0, bj) <= |Blocks(plan)| && blocks == Blocks(plan)[..PlaceOf(plan, 0, bj)]
    ensures PlaceOf(plan, 0, bj + 1) <= |Blocks(plan)| && more == Blocks(plan)[..PlaceOf(plan, 0, bj + 1)]
  {
    more := blocks;
    for bi := 0 to numBlocksInRow
      invariant PlaceOf(plan, bi, bj) <= |Blocks(plan)|
      invariant more == Blocks(plan)[..PlaceOf(plan, bi, bj)]
    {
      var block := CutTile(bi, bj, tileSize, plan);
      more := more + [block];
    }
    assert (bj + 1) * numBlocksInRow == bj * numBlocksInRow + numBlocksInRow;
  }

  /** The block vector, with the source's 32-bit arithmetic: it starts with zero-filled blocks. */
  method BuildBlocks(rowCount: nat, colCount: nat, tileSize: nat, ghost plan: Plan) returns (blocks: seq<Block>)
    requires Fits(plan) && rowCount > 0 && colCount > 0
    requires plan.rows == rowCount && plan.cols == colCount && plan.tile == tileSize
    ensures blocks == Blocks(plan)
  {
    RoundingStaysIn32Bits(plan);
    NoWrap32(rowCount + tileSize - 1);
    NoWrap32(colCount + tileSize - 1);
    NoWrap32(RowBlocks(plan) * ColBlocks(plan));
    var numBlocksInRow := U32(rowCount + tileSize - 1) / tileSize;
    var numBlocksInCol := U32(colCount + tileSize - 1) / tileSize;
    blocks := seq(U32(numBlocksInRow * numBlocksInCol), _ => Block(0, 0, 0, 0));
    for bj := 0 to numBlocksInCol
      invariant PlaceOf(plan, 0, bj) <= |Blocks(plan)| && blocks == Blocks(plan)[..PlaceOf(plan, 0, bj)]
    {
      blocks := PushColumn(blocks, bj, numBlocksInRow, tileSize, plan);
    }
  }

  // ---------- the workers ----------

  /** Worker t copies its next cell and moves on. */
  method CopyNext(src: array<uint64>, dst: array<uint64>, blocks: seq<Block>, ghost plan: Plan,
                  rowCount: nat, colCount: nat, numThreads: nat, cursors: seq<Cursor>, t: nat)
    returns (cursors': seq<Cursor>)
    requires src != dst && plan.rows == rowCount && plan.cols == colCount && plan.threads == numThreads
    requires JobInv(plan, src[..], dst[..], cursors) && blocks == Blocks(plan)
    requires t < |cursors| && cursors[t].At? && forall u | 0 <= u < |cursors| :: Placed(plan, cursors[u])
    modifies dst
    ensures JobInv(plan, src[..], dst[..], cursors') && forall u | 0 <= u < |cursors'| :: Placed(plan, cursors'[u])
    ensures TotalWork(plan, cursors') < TotalWork(plan, cursors)
  {
    var c := cursors[t];
    assert CursorInv(plan, cursors, t);
    CopyIsRight(plan, src[..], dst[..], c);
    StepInv(plan, src[..], dst[..], cursors, t);
    OneCopyLess(plan, cursors, t);
    ghost var before := dst[..];
    dst[U32(c.j * rowCount + c.i)] := src[U32(c.i * colCount + c.j)];
    assert dst[..] == CopyCell(plan, src[..], before, c);
    cursors' := cursors[t := NextCell(blocks, plan, numThreads, c.idx, c.i, c.j + 1)];
  }

  /** For every way the scheduler may interleave the workers' copies, they come to an end and leave the transpose; with
      no worker at all the destination stays as it was. */
  method TransposeTiledMultiThreaded(src: array<uint64>, dst: array<uint64>,
                                     rowCount: nat, colCount: nat, tileSize: nat, numThreads: nat)
    requires src != dst && src.Length == dst.Length == rowCount * colCount
    requires rowCount > 0 && colCount > 0 && Fits(Plan(rowCount, colCount, tileSize, 1))
    modifies dst
    ensures dst[..] == if numThreads == 0 then old(dst[..]) else Transposed(src[..], rowCount, colCount)
  {
    ghost var plan := Plan(rowCount, colCount, tileSize, if numThreads == 0 then 1 else numThreads);
    var blocks := BuildBlocks(rowCount, colCount, tileSize, plan);
    StartInv(plan, src[..], dst[..]);
    var cursors := StartWorkers(blocks, plan, numThreads);
    assert forall t | 0 <= t < |cursors| :: CursorInv(plan, cursors, t);
    while exists t :: 0 <= t < numThreads && cursors[t].At?
      invariant |cursors| == numThreads
      invariant if numThreads == 0 then dst[..] == old(dst[..]) else JobInv(plan, src[..], dst[..], cursors)
      invariant forall t | 0 <= t < |cursors| :: Placed(plan, cursors[t])
      decreases TotalWork(plan, cursors)
    {
      var t :| 0 <= t < numThreads && cursors[t].At?;
      cursors := CopyNext(src, dst, blocks, plan, rowCount, colCount, numThreads, cursors, t);
    }
    if numThreads > 0 {
      FinishedMeansTransposed(plan, src[..], dst[..], cursors);
    }
  }

  /** The worker loops of the source up to the next copy, on the block vector. */
  function NextCell(blocks: seq<Block>, ghost plan: Plan, numThreads: nat, idx: nat, i: nat, j: nat): (c: Cursor)
    requires plan.tile > 0 && plan.threads == numThreads > 0 && blocks == Blocks(plan)
    requires idx < |blocks| ==> blocks[idx].iStart <= i && blocks[idx].jStart <= j
    ensures c == Settle(plan, idx, i, j)
    decreases if idx < |blocks| then |blocks| - idx else 0,
      if idx < |blocks| && i < blocks[idx].iEnd then blocks[idx].iEnd - i else 0
  {
    if idx >= |blocks| then Finished
    else if i >= blocks[idx].iEnd then
      var next := idx + numThreads;
      if next >= |blocks| then Finished
      else NextCell(blocks, plan, numThreads, next, blocks[next].iStart, blocks[next].jStart)
    else if j >= blocks[idx].jEnd then NextCell(blocks, plan, numThreads, idx, i + 1, blocks[idx].jStart)
    else At(idx, i, j)
  }

  /** Every worker t starts at block t. */
  method StartWorkers(blocks: seq<Block>, ghost plan: Plan, numThreads: nat) returns (cursors: seq<Cursor>)
    requires plan.tile > 0 && plan.threads > 0 && blocks == Blocks(plan)
    requires numThreads > 0 ==> plan.threads == numThreads
    ensures |cursors| == numThreads && (numThreads > 0 ==> cursors == StartAll(plan))
  {
    cursors := [];
    for t := 0 to numThreads
      invariant |cursors| == t && forall u | 0 <= u < t :: cursors[u] == Start(plan, u)
    {
      var first := if t < |blocks| then NextCell(blocks, plan, numThreads, t, blocks[t].iStart, blocks[t].jStart)
                   else Finished;
      cursors := cursors + [first];
    }
  }
}
