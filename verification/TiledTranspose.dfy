/** The tiled transpose: how the matrix is cut into blocks, and worker threads that take every numThreads-th block and
    copy its cells without locks. One copied cell is one step; the source matrix is read only. */
module TiledTranspose {
  import opened Masks
  import opened Transpose

  datatype Block = Block(iStart: nat, iEnd: nat, jStart: nat, jEnd: nat)

  /** The arguments of one call besides the two matrices. */
  datatype Plan = Plan(rows: nat, cols: nat, tile: nat, threads: nat)

  /** What the code needs: it clamps nothing, so tiles must fit exactly, and its indices are 32-bit. */
  predicate Fits(plan: Plan) {
    && plan.tile > 0 && plan.threads > 0
    && plan.rows % plan.tile == 0 && plan.cols % plan.tile == 0
    && plan.rows * plan.cols < WORD32
  }

  function CeilDiv(x: nat, tile: nat): nat
    requires tile > 0
  {
    (x + tile - 1) / tile
  }

  function RowBlocks(plan: Plan): nat
    requires plan.tile > 0
  {
    CeilDiv(plan.rows, plan.tile)
  }

  function ColBlocks(plan: Plan): nat
    requires plan.tile > 0
  {
    CeilDiv(plan.cols, plan.tile)
  }

  /** The tile in block row bi and block column bj. */
  function TileAt(tile: nat, bi: nat, bj: nat): Block {
    Block(bi * tile, bi * tile + tile, bj * tile, bj * tile + tile)
  }

  /** The q-th block that is pushed: the outer loop runs over block columns. */
  function PushedBlock(plan: Plan, q: nat): Block
    requires plan.tile > 0 && RowBlocks(plan) > 0
  {
    TileAt(plan.tile, q % RowBlocks(plan), q / RowBlocks(plan))
  }

  /** The block vector: as many zero-filled blocks as there are tiles, and then the tiles. */
  function Blocks(plan: Plan): (blocks: seq<Block>)
    requires plan.tile > 0
    ensures |blocks| == 2 * (RowBlocks(plan) * ColBlocks(plan))
  {
    var count := RowBlocks(plan) * ColBlocks(plan);
    seq(count, _ => Block(0, 0, 0, 0)) +
    seq(count, q requires 0 <= q < count => if RowBlocks(plan) > 0 then PushedBlock(plan, q) else Block(0, 0, 0, 0))
  }

  predicate InBlock(block: Block, i: nat, j: nat) {
    block.iStart <= i < block.iEnd && block.jStart <= j < block.jEnd
  }

  // ---------- the exact bounds of the unclamped tiling ----------

  /** Every index the workers form lies inside the matrices, in exact integers. */
  ghost predicate AccessesInside(plan: Plan)
    requires plan.tile > 0
  {
    forall idx: nat, i: nat, j: nat | idx < |Blocks(plan)| && InBlock(Blocks(plan)[idx], i, j) ::
      Cell(i, j, plan.cols) < plan.rows * plan.cols && Cell(j, i, plan.rows) < plan.rows * plan.cols
  }

  lemma CeilDivExact(x: nat, tile: nat)
    requires tile > 0
    ensures x % tile == 0 ==> CeilDiv(x, tile) == x / tile && CeilDiv(x, tile) * tile == x
    ensures x % tile != 0 ==> CeilDiv(x, tile) == x / tile + 1 && (x / tile) * tile < x < CeilDiv(x, tile) * tile
  {
    var q := x / tile;
    assert x == q * tile + x % tile;
    if x % tile == 0 {
      UniqueRemainder(x + tile - 1, q, tile, tile - 1);
    } else {
      assert (q + 1) * tile == q * tile + tile;
      UniqueRemainder(x + tile - 1, q + 1, tile, x % tile - 1);
    }
  }

  /** Block (bi, bj) sits at this place of the vector. */
  function PlaceOf(plan: Plan, bi: nat, bj: nat): nat
    requires plan.tile > 0
  {
    RowBlocks(plan) * ColBlocks(plan) + Cell(bj, bi, RowBlocks(plan))
  }

  lemma BlockAtPlace(plan: Plan, bi: nat, bj: nat)
    requires plan.tile > 0 && bi < RowBlocks(plan) && bj < ColBlocks(plan)
    ensures PlaceOf(plan, bi, bj) < |Blocks(plan)|
    ensures Blocks(plan)[PlaceOf(plan, bi, bj)] == TileAt(plan.tile, bi, bj)
  {
    CellInside(bj, bi, ColBlocks(plan), RowBlocks(plan));
    CellDecodes(bj, bi, RowBlocks(plan));
  }

  /** The vector in full: as many empty blocks as there are tiles, and after them the tiles, block column by block
      column, with every corner unclamped. */
  lemma VectorLayout(plan: Plan, bi: nat, bj: nat)
    requires plan.tile > 0
    ensures var inRow, inCol := (plan.rows + plan.tile - 1) / plan.tile, (plan.cols + plan.tile - 1) / plan.tile;
      && |Blocks(plan)| == 2 * (inRow * inCol)
      && (forall k | 0 <= k < inRow * inCol :: Blocks(plan)[k] == Block(0, 0, 0, 0))
      && (bi < inRow && bj < inCol ==>
            && inRow * inCol + bj * inRow + bi < |Blocks(plan)|
            && Blocks(plan)[inRow * inCol + bj * inRow + bi] ==
                 Block(bi * plan.tile, bi * plan.tile + plan.tile, bj * plan.tile, bj * plan.tile + plan.tile))
  {
    if bi < RowBlocks(plan) && bj < ColBlocks(plan) {
      BlockAtPlace(plan, bi, bj);
    }
  }

  /** The place of the block that holds cell (i, j). */
  function OwnerPlace(plan: Plan, i: nat, j: nat): nat
    requires plan.tile > 0
  {
    PlaceOf(plan, i / plan.tile, j / plan.tile)
  }

  lemma TileIndex(x: nat, count: nat, tile: nat)
    requires tile > 0 && x < count * tile
    ensures x / tile < count && (x / tile) * tile <= x < (x / tile) * tile + tile
  {
    EveryIndexIsACell(x, count, tile);
  }

  /** Every cell of the matrix has its block. */
  lemma OwnerHolds(plan: Plan, i: nat, j: nat)
    requires plan.tile > 0 && i < RowBlocks(plan) * plan.tile && j < ColBlocks(plan) * plan.tile
    ensures OwnerPlace(plan, i, j) < |Blocks(plan)|
    ensures InBlock(Blocks(plan)[OwnerPlace(plan, i, j)], i, j)
  {
    TileIndex(i, RowBlocks(plan), plan.tile);
    TileIndex(j, ColBlocks(plan), plan.tile);
    BlockAtPlace(plan, i / plan.tile, j / plan.tile);
  }

  /** No block holds a cell that is not its own. */
  lemma OnlyOwnerHolds(plan: Plan, idx: nat, i: nat, j: nat)
    requires plan.tile > 0 && idx < |Blocks(plan)| && InBlock(Blocks(plan)[idx], i, j)
    ensures idx == OwnerPlace(plan, i, j)
    ensures i < RowBlocks(plan) * plan.tile && j < ColBlocks(plan) * plan.tile
  {
    var count := RowBlocks(plan) * ColBlocks(plan);
    assert idx >= count;
    var q := idx - count;
    EveryIndexIsACell(q, ColBlocks(plan), RowBlocks(plan));
    var bi, bj := q % RowBlocks(plan), q / RowBlocks(plan);
    assert Blocks(plan)[idx] == PushedBlock(plan, q);
    UniqueRemainder(i, bi, plan.tile, i - bi * plan.tile);
    UniqueRemainder(j, bj, plan.tile, j - bj * plan.tile);
    CellInside(bi, i - bi * plan.tile, RowBlocks(plan), plan.tile);
    CellInside(bj, j - bj * plan.tile, ColBlocks(plan), plan.tile);
  }

  /** Without clamping, every access lies inside the matrices exactly when the tile divides both dimensions. */
  lemma ExactBounds(plan: Plan)
    requires plan.rows > 0 && plan.cols > 0 && plan.tile > 0
    ensures AccessesInside(plan) <==> plan.rows % plan.tile == 0 && plan.cols % plan.tile == 0
  {
    CeilDivExact(plan.rows, plan.tile);
    CeilDivExact(plan.cols, plan.tile);
    if plan.rows % plan.tile == 0 && plan.cols % plan.tile == 0 {
      forall idx: nat, i: nat, j: nat | idx < |Blocks(plan)| && InBlock(Blocks(plan)[idx], i, j)
        ensures Cell(i, j, plan.cols) < plan.rows * plan.cols && Cell(j, i, plan.rows) < plan.rows * plan.cols
      {
        OnlyOwnerHolds(plan, idx, i, j);
        CellInside(i, j, plan.rows, plan.cols);
        CellInside(j, i, plan.cols, plan.rows);
      }
    } else if plan.rows % plan.tile != 0 {
      // The last block row reaches row `rows`.
      OwnerHolds(plan, plan.rows, 0);
      assert Cell(plan.rows, 0, plan.cols) == plan.rows * plan.cols;
    } else {
      OwnerHolds(plan, 0, plan.cols);
      assert Cell(plan.cols, 0, plan.rows) == plan.rows * plan.cols;
    }
  }

  /** Powers of two no smaller than the tile always fit. */
  lemma PowersOfTwoFit(m: nat, n: nat, t: nat)
    requires t <= m && t <= n
    ensures Pow2(m) % Pow2(t) == 0 && Pow2(n) % Pow2(t) == 0
    ensures AccessesInside(Plan(Pow2(m), Pow2(n), Pow2(t), 1))
  {
    Pow2Divides(t, m);
    Pow2Divides(t, n);
    ExactBounds(Plan(Pow2(m), Pow2(n), Pow2(t), 1));
  }

  // ---------- the workers ----------

  /** Where a worker stands: at its next cell of a block, or finished. */
  datatype Cursor = At(idx: nat, i: nat, j: nat) | Finished

  /** An unfinished worker stands at a cell of its block. */
  predicate Placed(plan: Plan, c: Cursor)
    requires plan.tile > 0
  {
    c.At? ==> c.idx < |Blocks(plan)| && InBlock(Blocks(plan)[c.idx], c.i, c.j)
  }

  /** The worker's next cell from (i, j) on: the inner loop, then the next row, then the next block of its own. */
  function Settle(plan: Plan, idx: nat, i: nat, j: nat): (c: Cursor)
    requires plan.tile > 0 && plan.threads > 0
    requires idx < |Blocks(plan)| ==> Blocks(plan)[idx].iStart <= i && Blocks(plan)[idx].jStart <= j
    ensures Placed(plan, c)
    decreases if idx < |Blocks(plan)| then |Blocks(plan)| - idx else 0,
      if idx < |Blocks(plan)| && i < Blocks(plan)[idx].iEnd then Blocks(plan)[idx].iEnd - i else 0
  {
    if idx >= |Blocks(plan)| then Finished else
    var block := Blocks(plan)[idx];
    if i >= block.iEnd then
      var next := idx + plan.threads;
      if next >= |Blocks(plan)| then Finished
      else Settle(plan, next, Blocks(plan)[next].iStart, Blocks(plan)[next].jStart)
    else if j >= block.jEnd then Settle(plan, idx, i + 1, block.jStart)
    else At(idx, i, j)
  }

  /** A worker that has just been started: its first block is the one with its own number. */
  function Start(plan: Plan, t: nat): (c: Cursor)
    requires plan.tile > 0 && plan.threads > 0
    ensures Placed(plan, c)
  {
    if t >= |Blocks(plan)| then Finished else Settle(plan, t, Blocks(plan)[t].iStart, Blocks(plan)[t].jStart)
  }

  /** The cursor after the copy at c. */
  function Advance(plan: Plan, c: Cursor): (c': Cursor)
    requires plan.tile > 0 && plan.threads > 0 && Placed(plan, c) && c.At?
    ensures Placed(plan, c')
  {
    Settle(plan, c.idx, c.i, c.j + 1)
  }

  /** The copy itself, with the source's 32-bit indices. A store outside the matrix has no meaning; CopyIsRight shows
      there is none. */
  function CopyCell(plan: Plan, src: seq<uint64>, dst: seq<uint64>, c: Cursor): (dst': seq<uint64>)
    requires c.At?
    ensures |dst'| == |dst|
  {
    var from, to := U32(Cell(c.i, c.j, plan.cols)), U32(Cell(c.j, c.i, plan.rows));
    if from < |src| && to < |dst| then dst[to := src[from]] else dst
  }

  /** (idx, i, j) is still ahead of the cursor, or under it. */
  predicate Ahead(c: Cursor, idx: nat, i: nat, j: nat) {
    c.At? && (c.idx < idx || (c.idx == idx && (c.i < i || (c.i == i && c.j <= j))))
  }

  predicate SameThread(plan: Plan, a: nat, b: nat)
    requires plan.threads > 0
  {
    a % plan.threads == b % plan.threads
  }

  /** Moving on skips no cell of the thread's own blocks, and stays on the thread's own blocks. */
  lemma {:induction false} SettleSkipsNothing(plan: Plan, idx0: nat, i0: nat, j0: nat, idx: nat, i: nat, j: nat)
    requires plan.tile > 0 && plan.threads > 0 && SameThread(plan, idx0, idx)
    requires idx0 < |Blocks(plan)| ==> Blocks(plan)[idx0].iStart <= i0 && Blocks(plan)[idx0].jStart <= j0
    requires idx < |Blocks(plan)| && InBlock(Blocks(plan)[idx], i, j)
    requires Ahead(At(idx0, i0, j0), idx, i, j)
    ensures Ahead(Settle(plan, idx0, i0, j0), idx, i, j)
    decreases if idx0 < |Blocks(plan)| then |Blocks(plan)| - idx0 else 0,
      if idx0 < |Blocks(plan)| && i0 < Blocks(plan)[idx0].iEnd then Blocks(plan)[idx0].iEnd - i0 else 0
  {
    var block := Blocks(plan)[idx0];
    if i0 >= block.iEnd {
      var next := idx0 + plan.threads;
      FullLap(idx0, plan.threads);
      if idx < next {
        SameCell(idx0, idx, plan.threads);
      }
      SettleSkipsNothing(plan, next, Blocks(plan)[next].iStart, Blocks(plan)[next].jStart, idx, i, j);
    } else if j0 >= block.jEnd {
      SettleSkipsNothing(plan, idx0, i0 + 1, block.jStart, idx, i, j);
    }
  }

  lemma {:induction false} SettleStaysOnThread(plan: Plan, idx: nat, i: nat, j: nat)
    requires plan.tile > 0 && plan.threads > 0
    requires idx < |Blocks(plan)| ==> Blocks(plan)[idx].iStart <= i && Blocks(plan)[idx].jStart <= j
    ensures Settle(plan, idx, i, j).At? ==> SameThread(plan, Settle(plan, idx, i, j).idx, idx)
    decreases if idx < |Blocks(plan)| then |Blocks(plan)| - idx else 0,
      if idx < |Blocks(plan)| && i < Blocks(plan)[idx].iEnd then Blocks(plan)[idx].iEnd - i else 0
  {
    if idx < |Blocks(plan)| {
      var block := Blocks(plan)[idx];
      if i >= block.iEnd {
        var next := idx + plan.threads;
        FullLap(idx, plan.threads);
        if next < |Blocks(plan)| {
          SettleStaysOnThread(plan, next, Blocks(plan)[next].iStart, Blocks(plan)[next].jStart);
        }
      } else if j >= block.jEnd {
        SettleStaysOnThread(plan, idx, i + 1, block.jStart);
      }
    }
  }

  // ---------- what holds under every schedule ----------

  ghost predicate CursorInv(plan: Plan, cursors: seq<Cursor>, t: nat)
    requires plan.tile > 0 && plan.threads > 0 && t < |cursors|
  {
    Placed(plan, cursors[t]) && (cursors[t].At? ==> cursors[t].idx % plan.threads == t)
  }

  /** The cell is copied, or its worker has still to come by. */
  ghost predicate CellInv(plan: Plan, src: seq<uint64>, dst: seq<uint64>, cursors: seq<Cursor>, row: nat, col: nat)
    requires Fits(plan) && |src| == |dst| == plan.rows * plan.cols && |cursors| == plan.threads
    requires row < plan.rows && col < plan.cols
  {
    var place := OwnerPlace(plan, row, col);
    || Copied(src, dst, plan.rows, plan.cols, row, col)
    || Ahead(cursors[place % plan.threads], place, row, col)
  }

  ghost predicate JobInv(plan: Plan, src: seq<uint64>, dst: seq<uint64>, cursors: seq<Cursor>) {
    && Fits(plan) && |src| == |dst| == plan.rows * plan.cols && |cursors| == plan.threads
    && (forall t: nat | t < plan.threads :: CursorInv(plan, cursors, t))
    && (forall row: nat, col: nat | row < plan.rows && col < plan.cols :: CellInv(plan, src, dst, cursors, row, col))
  }

  function StartAll(plan: Plan): seq<Cursor>
    requires plan.tile > 0 && plan.threads > 0
  {
    seq(plan.threads, t requires 0 <= t < plan.threads => Start(plan, t))
  }

  lemma BlocksCoverExactly(plan: Plan)
    requires Fits(plan)
    ensures RowBlocks(plan) * plan.tile == plan.rows && ColBlocks(plan) * plan.tile == plan.cols
  {
    CeilDivExact(plan.rows, plan.tile);
    CeilDivExact(plan.cols, plan.tile);
  }

  lemma StartOnThread(plan: Plan, t: nat)
    requires plan.tile > 0 && t < plan.threads
    ensures CursorInv(plan, StartAll(plan), t)
  {
    RemainderAgain(t, plan.threads);
    UniqueRemainder(t, 0, plan.threads, t);
    if t < |Blocks(plan)| {
      SettleStaysOnThread(plan, t, Blocks(plan)[t].iStart, Blocks(plan)[t].jStart);
    }
  }

  lemma StartAhead(plan: Plan, place: nat, row: nat, col: nat)
    requires plan.tile > 0 && plan.threads > 0
    requires place < |Blocks(plan)| && InBlock(Blocks(plan)[place], row, col)
    ensures Ahead(Start(plan, place % plan.threads), place, row, col)
  {
    var t := place % plan.threads;
    RemainderAgain(place, plan.threads);
    SettleSkipsNothing(plan, t, Blocks(plan)[t].iStart, Blocks(plan)[t].jStart, place, row, col);
  }

  lemma StartInv(plan: Plan, src: seq<uint64>, dst: seq<uint64>)
    requires Fits(plan) && |src| == |dst| == plan.rows * plan.cols
    ensures JobInv(plan, src, dst, StartAll(plan))
  {
    BlocksCoverExactly(plan);
    forall t: nat | t < plan.threads
      ensures CursorInv(plan, StartAll(plan), t)
    {
      StartOnThread(plan, t);
    }
    forall row: nat, col: nat | row < plan.rows && col < plan.cols
      ensures CellInv(plan, src, dst, StartAll(plan), row, col)
    {
      OwnerHolds(plan, row, col);
      StartAhead(plan, OwnerPlace(plan, row, col), row, col);
    }
  }

  lemma CursorInMatrix(plan: Plan, c: Cursor)
    requires Fits(plan) && c.At? && Placed(plan, c)
    ensures c.i < plan.rows && c.j < plan.cols && c.idx == OwnerPlace(plan, c.i, c.j)
  {
    BlocksCoverExactly(plan);
    OnlyOwnerHolds(plan, c.idx, c.i, c.j);
  }

  lemma NoWrap32(x: nat)
    requires x < WORD32
    ensures U32(x) == x
  {
  }

  /** The copy at a worker's cursor is a right copy of a cell of the matrix, and the 32-bit indices are exact. */
  lemma CopyIsRight(plan: Plan, src: seq<uint64>, dst: seq<uint64>, c: Cursor)
    requires Fits(plan) && |src| == |dst| == plan.rows * plan.cols && c.At? && Placed(plan, c)
    ensures c.i < plan.rows && c.j < plan.cols && c.idx == OwnerPlace(plan, c.i, c.j)
    ensures Cell(c.i, c.j, plan.cols) < |src| && Cell(c.j, c.i, plan.rows) < |dst|
    ensures CopyCell(plan, src, dst, c) == dst[Cell(c.j, c.i, plan.rows) := src[Cell(c.i, c.j, plan.cols)]]
  {
    CursorInMatrix(plan, c);
    CellInside(c.i, c.j, plan.rows, plan.cols);
    CellInside(c.j, c.i, plan.cols, plan.rows);
    NoWrap32(Cell(c.i, c.j, plan.cols));
    NoWrap32(Cell(c.j, c.i, plan.rows));
  }

  /** Any worker may move next: the invariant survives. */
  lemma StepInv(plan: Plan, src: seq<uint64>, dst: seq<uint64>, cursors: seq<Cursor>, t: nat)
    requires JobInv(plan, src, dst, cursors) && t < plan.threads && CursorInv(plan, cursors, t) && cursors[t].At?
    ensures JobInv(plan, src, CopyCell(plan, src, dst, cursors[t]), cursors[t := Advance(plan, cursors[t])])
  {
    var c := cursors[t];
    var dst', cursors' := CopyCell(plan, src, dst, c), cursors[t := Advance(plan, c)];
    CopyIsRight(plan, src, dst, c);
    CopyKeepsOthers(src, dst, dst', plan.rows, plan.cols, c.i, c.j);
    SettleStaysOnThread(plan, c.idx, c.i, c.j + 1);
    forall u: nat | u < plan.threads
      ensures CursorInv(plan, cursors', u)
    {
      assert CursorInv(plan, cursors, u);
    }
    BlocksCoverExactly(plan);
    forall row: nat, col: nat | row < plan.rows && col < plan.cols
      ensures CellInv(plan, src, dst', cursors', row, col)
    {
      assert CellInv(plan, src, dst, cursors, row, col);
      var place := OwnerPlace(plan, row, col);
      if place % plan.threads == t && !Copied(src, dst, plan.rows, plan.cols, row, col) && !(row == c.i && col == c.j) {
        OwnerHolds(plan, row, col);
        SettleSkipsNothing(plan, c.idx, c.i, c.j + 1, place, row, col);
      }
    }
  }

  predicate AllFinished(cursors: seq<Cursor>) {
    forall t | 0 <= t < |cursors| :: cursors[t].Finished?
  }

  /** Once every worker is finished the destination is the transpose, whatever the schedule was. */
  lemma FinishedMeansTransposed(plan: Plan, src: seq<uint64>, dst: seq<uint64>, cursors: seq<Cursor>)
    requires JobInv(plan, src, dst, cursors) && AllFinished(cursors)
    ensures dst == Transposed(src, plan.rows, plan.cols)
  {
    forall row: nat, col: nat | row < plan.rows && col < plan.cols
      ensures Copied(src, dst, plan.rows, plan.cols, row, col)
    {
      assert CellInv(plan, src, dst, cursors, row, col);
    }
    TransposeIsUnique(src, dst, plan.rows, plan.cols);
  }

  /** Copying into a finished transpose changes nothing, so redoing a request never spoils its result. */
  lemma CopyKeepsTranspose(plan: Plan, src: seq<uint64>, c: Cursor)
    requires Fits(plan) && |src| == plan.rows * plan.cols && c.At? && Placed(plan, c)
    ensures var dst := Transposed(src, plan.rows, plan.cols); CopyCell(plan, src, dst, c) == dst
  {
    var dst := Transposed(src, plan.rows, plan.cols);
    CopyIsRight(plan, src, dst, c);
    TransposeIsUnique(src, dst, plan.rows, plan.cols);
    assert Copied(src, dst, plan.rows, plan.cols, c.i, c.j);
  }

  /** Every cell lies in exactly one block of the vector, so in the stride of exactly one worker, and no two cells share
      an image. */
  lemma OneWriterPerCell(plan: Plan, row: nat, col: nat, row': nat, col': nat)
    requires Fits(plan) && row < plan.rows && col < plan.cols && row' < plan.rows && col' < plan.cols
    ensures forall idx: nat | idx < |Blocks(plan)| ::
      InBlock(Blocks(plan)[idx], row, col) <==> idx == OwnerPlace(plan, row, col)
    ensures OwnerPlace(plan, row, col) < |Blocks(plan)|
    ensures Cell(col, row, plan.rows) == Cell(col', row', plan.rows) ==> row == row' && col == col'
  {
    BlocksCoverExactly(plan);
    OwnerHolds(plan, row, col);
    forall idx: nat | idx < |Blocks(plan)| && InBlock(Blocks(plan)[idx], row, col)
      ensures idx == OwnerPlace(plan, row, col)
    {
      OnlyOwnerHolds(plan, idx, row, col);
    }
    CellDecodes(col, row, plan.rows);
    CellDecodes(col', row', plan.rows);
  }
}
