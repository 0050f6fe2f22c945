/** How much the workers of the tiled transpose do, and that they do it under every schedule: the cells ahead of all of
    them together are the cells of the matrix, each copy is one less, and no two of them ever write the same place. */
module TiledWork {
  import opened Masks
  import opened Transpose
  import opened TiledTranspose

  /** The copies a worker's loops make from (i, j) of block idx on. */
  function WorkFrom(plan: Plan, idx: nat, i: nat, j: nat): nat
    requires plan.tile > 0 && plan.threads > 0
    decreases if idx < |Blocks(plan)| then |Blocks(plan)| - idx else 0,
      if idx < |Blocks(plan)| && i < Blocks(plan)[idx].iEnd then Blocks(plan)[idx].iEnd - i else 0,
      if idx < |Blocks(plan)| && j < Blocks(plan)[idx].jEnd then Blocks(plan)[idx].jEnd - j else 0
  {
    if idx >= |Blocks(plan)| then 0
    else if i >= Blocks(plan)[idx].iEnd then
      var next := idx + plan.threads;
      if next >= |Blocks(plan)| then 0
      else WorkFrom(plan, next, Blocks(plan)[next].iStart, Blocks(plan)[next].jStart)
    else if j >= Blocks(plan)[idx].jEnd then WorkFrom(plan, idx, i + 1, Blocks(plan)[idx].jStart)
    else 1 + WorkFrom(plan, idx, i, j + 1)
  }

  /** The copies a worker has still to make. */
  function Work(plan: Plan, c: Cursor): nat
    requires plan.tile > 0 && plan.threads > 0
  {
    if c.At? then WorkFrom(plan, c.idx, c.i, c.j) else 0
  }

  function TotalWork(plan: Plan, cursors: seq<Cursor>): nat
    requires plan.tile > 0 && plan.threads > 0
  {
    if cursors == [] then 0 else TotalWork(plan, cursors[..|cursors| - 1]) + Work(plan, cursors[|cursors| - 1])
  }

  lemma {:induction false} SettlingKeepsWork(plan: Plan, idx: nat, i: nat, j: nat)
    requires plan.tile > 0 && plan.threads > 0
    requires idx < |Blocks(plan)| ==> Blocks(plan)[idx].iStart <= i && Blocks(plan)[idx].jStart <= j
    ensures Work(plan, Settle(plan, idx, i, j)) == WorkFrom(plan, idx, i, j)
    decreases if idx < |Blocks(plan)| then |Blocks(plan)| - idx else 0,
      if idx < |Blocks(plan)| && i < Blocks(plan)[idx].iEnd then Blocks(plan)[idx].iEnd - i else 0
  {
    if idx < |Blocks(plan)| {
      var block := Blocks(plan)[idx];
      if i >= block.iEnd {
        var next := idx + plan.threads;
        if next < |Blocks(plan)| {
          SettlingKeepsWork(plan, next, Blocks(plan)[next].iStart, Blocks(plan)[next].jStart);
        }
      } else if j >= block.jEnd {
        SettlingKeepsWork(plan, idx, i + 1, block.jStart);
      }
    }
  }

  /** A copy leaves its worker exactly one less to do. */
  lemma AdvanceWorks(plan: Plan, c: Cursor)
    requires plan.tile > 0 && plan.threads > 0 && Placed(plan, c) && c.At?
    ensures Work(plan, Advance(plan, c)) + 1 == Work(plan, c)
  {
    SettlingKeepsWork(plan, c.idx, c.i, c.j + 1);
  }

  lemma {:induction false} OneCopyLess(plan: Plan, cursors: seq<Cursor>, t: nat)
    requires plan.tile > 0 && plan.threads > 0
    requires t < |cursors| && Placed(plan, cursors[t]) && cursors[t].At?
    ensures TotalWork(plan, cursors[t := Advance(plan, cursors[t])]) + 1 == TotalWork(plan, cursors)
  {
    var last := |cursors| - 1;
    var cursors' := cursors[t := Advance(plan, cursors[t])];
    if t == last {
      assert cursors'[..last] == cursors[..last];
      AdvanceWorks(plan, cursors[t]);
    } else {
      assert cursors'[..last] == cursors[..last][t := Advance(plan, cursors[t])];
      OneCopyLess(plan, cursors[..last], t);
    }
  }

  lemma {:induction false} NoWorkMeansFinished(plan: Plan, cursors: seq<Cursor>)
    requires plan.tile > 0 && plan.threads > 0 && forall t | 0 <= t < |cursors| :: Placed(plan, cursors[t])
    ensures TotalWork(plan, cursors) == 0 <==> AllFinished(cursors)
  {
    if cursors != [] {
      var last := |cursors| - 1;
      NoWorkMeansFinished(plan, cursors[..last]);
      assert AllFinished(cursors) <==> AllFinished(cursors[..last]) && cursors[last].Finished?;
    }
  }

  // ---------- all the work there is ----------

  /** `count` times `size`, row by row. */
  function Times(count: nat, size: nat): nat {
    if count == 0 then 0 else Times(count - 1, size) + size
  }

  lemma {:induction false} TimesIsProduct(count: nat, size: nat)
    ensures Times(count, size) == count * size
  {
    if count > 0 {
      TimesIsProduct(count - 1, size);
      assert count * size == (count - 1) * size + size;
    }
  }

  function Area(block: Block): nat {
    if block.iStart <= block.iEnd && block.jStart <= block.jEnd
    then Times(block.iEnd - block.iStart, block.jEnd - block.jStart) else 0
  }

  lemma {:induction false} RowWork(plan: Plan, idx: nat, i: nat, j: nat)
    requires plan.tile > 0 && plan.threads > 0 && idx < |Blocks(plan)|
    requires i < Blocks(plan)[idx].iEnd && j <= Blocks(plan)[idx].jEnd
    ensures WorkFrom(plan, idx, i, j) ==
      Blocks(plan)[idx].jEnd - j + WorkFrom(plan, idx, i + 1, Blocks(plan)[idx].jStart)
    decreases Blocks(plan)[idx].jEnd - j
  {
    if j < Blocks(plan)[idx].jEnd {
      RowWork(plan, idx, i, j + 1);
    }
  }

  /** The copies of the worker that takes block idx, from there on. */
  function StrideWork(plan: Plan, idx: nat): nat
    requires plan.tile > 0 && plan.threads > 0
  {
    if idx >= |Blocks(plan)| then 0 else WorkFrom(plan, idx, Blocks(plan)[idx].iStart, Blocks(plan)[idx].jStart)
  }

  lemma {:induction false} BlockWork(plan: Plan, idx: nat, i: nat)
    requires plan.tile > 0 && plan.threads > 0 && idx < |Blocks(plan)|
    requires i <= Blocks(plan)[idx].iEnd && Blocks(plan)[idx].jStart <= Blocks(plan)[idx].jEnd
    ensures var b := Blocks(plan)[idx];
      WorkFrom(plan, idx, i, b.jStart) == Times(b.iEnd - i, b.jEnd - b.jStart) + StrideWork(plan, idx + plan.threads)
    decreases Blocks(plan)[idx].iEnd - i
  {
    var b := Blocks(plan)[idx];
    if i < b.iEnd {
      RowWork(plan, idx, i, b.jStart);
      BlockWork(plan, idx, i + 1);
    }
  }

  /** Blocks of the vector: as many empty ones as there are tiles, and then the tiles. */
  lemma BlockArea(plan: Plan, idx: nat)
    requires plan.tile > 0 && idx < |Blocks(plan)|
    ensures var b := Blocks(plan)[idx];
      && b.iStart <= b.iEnd && b.jStart <= b.jEnd
      && Area(b) == if idx < RowBlocks(plan) * ColBlocks(plan) then 0 else Times(plan.tile, plan.tile)
  {
    var count := RowBlocks(plan) * ColBlocks(plan);
    if idx >= count {
      assert RowBlocks(plan) == 0 ==> count == 0;
      assert Blocks(plan)[idx] == PushedBlock(plan, idx - count);
    }
  }

  /** The copies of all workers together, the first of them at block k. */
  function Lanes(plan: Plan, k: nat, n: nat): nat
    requires plan.tile > 0 && plan.threads > 0
  {
    if n == 0 then 0 else Lanes(plan, k, n - 1) + StrideWork(plan, k + n - 1)
  }

  lemma {:induction false} LanesShift(plan: Plan, k: nat, n: nat)
    requires plan.tile > 0 && plan.threads > 0
    ensures Lanes(plan, k, n + 1) == StrideWork(plan, k) + Lanes(plan, k + 1, n)
  {
    if n > 0 {
      LanesShift(plan, k, n - 1);
    }
  }

  lemma {:induction false} LanesBeyond(plan: Plan, k: nat, n: nat)
    requires plan.tile > 0 && plan.threads > 0 && k >= |Blocks(plan)|
    ensures Lanes(plan, k, n) == 0
  {
    if n > 0 {
      LanesBeyond(plan, k, n - 1);
    }
  }

  /** Tiles at places from k on. */
  function TilesFrom(plan: Plan, k: nat): nat
    requires plan.tile > 0
  {
    var count := RowBlocks(plan) * ColBlocks(plan);
    if k >= 2 * count then 0 else if k < count then count else 2 * count - k
  }

  lemma OneTileLess(plan: Plan, k: nat)
    requires plan.tile > 0 && k < |Blocks(plan)|
    ensures TilesFrom(plan, k) == TilesFrom(plan, k + 1) + (if k < RowBlocks(plan) * ColBlocks(plan) then 0 else 1)
  {
  }

  lemma {:induction false} LanesCoverAll(plan: Plan, k: nat)
    requires plan.tile > 0 && plan.threads > 0
    ensures Lanes(plan, k, plan.threads) == Times(TilesFrom(plan, k), Times(plan.tile, plan.tile))
    decreases if k < |Blocks(plan)| then |Blocks(plan)| - k else 0
  {
    if k >= |Blocks(plan)| {
      LanesBeyond(plan, k, plan.threads);
    } else {
      LanesCoverAll(plan, k + 1);
      OneTileLess(plan, k);
      LanesShift(plan, k, plan.threads - 1);
      BlockArea(plan, k);
      BlockWork(plan, k, Blocks(plan)[k].iStart);
      assert Lanes(plan, k + 1, plan.threads) ==
        Lanes(plan, k + 1, plan.threads - 1) + StrideWork(plan, k + plan.threads);
    }
  }

  lemma {:induction false} StartingWork(plan: Plan, n: nat)
    requires plan.tile > 0 && plan.threads > 0 && n <= plan.threads
    ensures TotalWork(plan, StartAll(plan)[..n]) == Lanes(plan, 0, n)
  {
    if n > 0 {
      StartingWork(plan, n - 1);
      assert StartAll(plan)[..n][..n - 1] == StartAll(plan)[..n - 1];
      if n - 1 < |Blocks(plan)| {
        SettlingKeepsWork(plan, n - 1, Blocks(plan)[n - 1].iStart, Blocks(plan)[n - 1].jStart);
      }
    }
  }

  /** All workers together have exactly as many copies before them as the matrix has cells. */
  lemma WorkIsTheMatrix(plan: Plan)
    requires Fits(plan)
    ensures TotalWork(plan, StartAll(plan)) == plan.rows * plan.cols
  {
    assert StartAll(plan)[..plan.threads] == StartAll(plan);
    StartingWork(plan, plan.threads);
    LanesCoverAll(plan, 0);
    BlocksCoverExactly(plan);
    TimesIsProduct(plan.tile, plan.tile);
    TimesIsProduct(TilesFrom(plan, 0), Times(plan.tile, plan.tile));
    Regroup(RowBlocks(plan), ColBlocks(plan), plan.tile);
  }

  lemma Regroup(a: nat, b: nat, tile: nat)
    ensures (a * b) * (tile * tile) == (a * tile) * (b * tile)
  {
    calc {
      (a * b) * (tile * tile);
      a * (b * (tile * tile));
      a * ((b * tile) * tile);
      a * (tile * (b * tile));
      (a * tile) * (b * tile);
    }
  }

  // ---------- every schedule ----------

  /** The destination and where the workers stand. */
  datatype Job = Job(dst: seq<uint64>, cursors: seq<Cursor>)

  predicate Busy(job: Job, t: nat) {
    t < |job.cursors| && job.cursors[t].At?
  }

  ghost predicate OnCourse(plan: Plan, src: seq<uint64>, job: Job) {
    JobInv(plan, src, job.dst, job.cursors) && forall t | 0 <= t < |job.cursors| :: Placed(plan, job.cursors[t])
  }

  /** Worker t copies its next cell; a finished worker does nothing. */
  function WorkerMoves(plan: Plan, src: seq<uint64>, job: Job, t: nat): (job': Job)
    requires plan.tile > 0 && plan.threads > 0 && forall u | 0 <= u < |job.cursors| :: Placed(plan, job.cursors[u])
    ensures forall u | 0 <= u < |job'.cursors| :: Placed(plan, job'.cursors[u])
  {
    if Busy(job, t) then
      Job(CopyCell(plan, src, job.dst, job.cursors[t]), job.cursors[t := Advance(plan, job.cursors[t])])
    else job
  }

  function RunWorkers(plan: Plan, src: seq<uint64>, job: Job, schedule: seq<nat>): (job': Job)
    requires plan.tile > 0 && plan.threads > 0 && forall u | 0 <= u < |job.cursors| :: Placed(plan, job.cursors[u])
    ensures forall u | 0 <= u < |job'.cursors| :: Placed(plan, job'.cursors[u])
  {
    if schedule == [] then job
    else WorkerMoves(plan, src, RunWorkers(plan, src, job, schedule[..|schedule| - 1]), schedule[|schedule| - 1])
  }

  /** The copies made during the run. */
  function Copies(plan: Plan, src: seq<uint64>, job: Job, schedule: seq<nat>): nat
    requires plan.tile > 0 && plan.threads > 0 && forall u | 0 <= u < |job.cursors| :: Placed(plan, job.cursors[u])
  {
    if schedule == [] then 0
    else
      var before := RunWorkers(plan, src, job, schedule[..|schedule| - 1]);
      Copies(plan, src, job, schedule[..|schedule| - 1]) + (if Busy(before, schedule[|schedule| - 1]) then 1 else 0)
  }

  lemma {:induction false} RunStaysOnCourse(plan: Plan, src: seq<uint64>, job: Job, schedule: seq<nat>)
    requires Fits(plan) && OnCourse(plan, src, job)
    ensures var job' := RunWorkers(plan, src, job, schedule);
      && OnCourse(plan, src, job')
      && Copies(plan, src, job, schedule) + TotalWork(plan, job'.cursors) == TotalWork(plan, job.cursors)
  {
    if schedule != [] {
      var init, t := schedule[..|schedule| - 1], schedule[|schedule| - 1];
      RunStaysOnCourse(plan, src, job, init);
      var before := RunWorkers(plan, src, job, init);
      if Busy(before, t) {
        assert CursorInv(plan, before.cursors, t);
        StepInv(plan, src, before.dst, before.cursors, t);
        OneCopyLess(plan, before.cursors, t);
      }
    }
  }

  /** The workers' places at the start. */
  function FirstJob(plan: Plan, dst: seq<uint64>): (job: Job)
    requires plan.tile > 0 && plan.threads > 0
    ensures forall u | 0 <= u < |job.cursors| :: Placed(plan, job.cursors[u])
  {
    Job(dst, StartAll(plan))
  }

  /** Schedule independence: under every schedule of any number of workers the copies never exceed the number of cells;
      all workers are finished exactly when that many copies have been made, and then the destination is the
      transpose, whatever it held before. */
  lemma EveryScheduleTransposes(plan: Plan, src: seq<uint64>, dst: seq<uint64>, schedule: seq<nat>)
    requires Fits(plan) && |src| == |dst| == plan.rows * plan.cols
    ensures var job := RunWorkers(plan, src, FirstJob(plan, dst), schedule);
      var copies := Copies(plan, src, FirstJob(plan, dst), schedule);
      && copies <= plan.rows * plan.cols
      && (AllFinished(job.cursors) <==> copies == plan.rows * plan.cols)
      && (AllFinished(job.cursors) ==> job.dst == Transposed(src, plan.rows, plan.cols))
  {
    var first := FirstJob(plan, dst);
    StartInv(plan, src, dst);
    RunStaysOnCourse(plan, src, first, schedule);
    WorkIsTheMatrix(plan);
    var job := RunWorkers(plan, src, first, schedule);
    NoWorkMeansFinished(plan, job.cursors);
    if AllFinished(job.cursors) {
      FinishedMeansTransposed(plan, src, job.dst, job.cursors);
    }
  }

  /** At no moment of any schedule do two workers stand at cells with the same image: no store ever races. */
  lemma WorkersNeverMeet(plan: Plan, src: seq<uint64>, dst: seq<uint64>, schedule: seq<nat>, t: nat, u: nat)
    requires Fits(plan) && |src| == |dst| == plan.rows * plan.cols
    ensures var cursors := RunWorkers(plan, src, FirstJob(plan, dst), schedule).cursors;
      t < |cursors| && u < |cursors| && t != u && cursors[t].At? && cursors[u].At? ==>
        Cell(cursors[t].j, cursors[t].i, plan.rows) != Cell(cursors[u].j, cursors[u].i, plan.rows)
  {
    StartInv(plan, src, dst);
    RunStaysOnCourse(plan, src, FirstJob(plan, dst), schedule);
    var job := RunWorkers(plan, src, FirstJob(plan, dst), schedule);
    var cursors := job.cursors;
    if t < |cursors| && u < |cursors| && t != u && cursors[t].At? && cursors[u].At? {
      assert CursorInv(plan, cursors, t) && CursorInv(plan, cursors, u);
      CursorInMatrix(plan, cursors[t]);
      CursorInMatrix(plan, cursors[u]);
      CellDecodes(cursors[t].j, cursors[t].i, plan.rows);
      CellDecodes(cursors[u].j, cursors[u].i, plan.rows);
    }
  }
}
