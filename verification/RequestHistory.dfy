/** What a client asks for: in every run exactly the requests of its two nested loops, in their order. */
module RequestHistory {
  import opened TransposeSystem
  import opened Progress
  import Masks
  import Q = SeqLockQueue
  import S = Session

  /** The requests made when the loops are about to ask for buffer `buf` of `count` in repetition `rep`. */
  function Asked(count: nat, rep: nat, buf: nat): seq<nat>
    decreases rep, buf
  {
    if buf > 0 then Asked(count, rep, buf - 1) + [buf - 1]
    else if rep > 0 then Asked(count, rep - 1, count)
    else []
  }

  /** Number i of the requests is for buffer i % count. */
  lemma {:induction false} AskedInOrder(count: nat, rep: nat, buf: nat)
    requires buf <= count
    ensures |Asked(count, rep, buf)| == rep * count + buf
    ensures forall i: nat | i < rep * count + buf :: count > 0 && Asked(count, rep, buf)[i] == i % count
    decreases rep, buf
  {
    if buf > 0 {
      AskedInOrder(count, rep, buf - 1);
      Masks.UniqueRemainder(rep * count + (buf - 1), rep, count, buf - 1);
    } else if rep > 0 {
      AskedInOrder(count, rep - 1, count);
      assert rep * count == (rep - 1) * count + count;
    }
  }

  ghost predicate HistoryInv(x: S.State) {
    match x.client
    case LoopHead(rep, buf) => x.queue.enqueued == Asked(|x.src|, rep, buf)
    case Enqueuing(rep, buf) =>
      x.queue.enqueued == Asked(|x.src|, rep, buf) + (if x.queue.p.PPublished? then [buf] else [])
    case Waiting(rep, buf) => x.queue.enqueued == Asked(|x.src|, rep, buf + 1)
    case Leaving => x.queue.enqueued == Asked(|x.src|, x.reps, 0)
    case Checked(_) => x.queue.enqueued == Asked(|x.src|, x.reps, 0)
    case _ => x.queue.enqueued == []
  }

  lemma EnqueuingKeepsHistory(x: S.State)
    requires S.Inv(x) && HistoryInv(x) && x.client.Enqueuing?
    ensures HistoryInv(S.Apply(x, S.ClientMove))
  {
    S.NothingIsWasted(x);
  }

  lemma LoopKeepsHistory(x: S.State)
    requires S.Inv(x) && HistoryInv(x) && x.client.LoopHead?
    ensures HistoryInv(S.Apply(x, S.ClientMove))
  {
  }

  lemma WaitingKeepsHistory(x: S.State)
    requires S.Inv(x) && HistoryInv(x) && !x.client.LoopHead? && !x.client.Enqueuing?
    ensures HistoryInv(S.Apply(x, S.ClientMove))
  {
  }

  /** Nobody but the client adds to its requests. */
  lemma OthersAskNothing(x: S.State, move: S.Move)
    requires S.Formed(x) && !move.ClientMove?
    ensures var x' := S.Apply(x, move);
      && x'.queue.enqueued == x.queue.enqueued && x'.queue.p == x.queue.p
      && x'.src == x.src && x'.reps == x.reps
      && (|| x'.client == x.client
          || (!HasLoops(x.client) && (x'.client.AwaitingResponse? || x'.client == S.LoopHead(0, 0))))
  {
  }

  /** From the first request on. */
  predicate HasLoops(client: S.Client) {
    !client.Starting? && !client.Subscribing? && !client.AwaitingResponse?
  }

  lemma StepKeepsHistory(x: S.State, move: S.Move)
    requires S.Inv(x) && HistoryInv(x)
    ensures HistoryInv(S.Apply(x, move))
  {
    if !move.ClientMove? {
      OthersAskNothing(x, move);
    } else if x.client.Enqueuing? {
      EnqueuingKeepsHistory(x);
    } else if x.client.LoopHead? {
      LoopKeepsHistory(x);
    } else {
      WaitingKeepsHistory(x);
    }
  }

  /** The requests in terms of the loop variables alone, and what has become of them. */
  ghost predicate AsTheLoopsSay(x: S.State) {
    var count := |x.src|;
    var asked := x.queue.enqueued;
    && (forall i: nat | i < |asked| :: count > 0 && asked[i] == i % count)
    && x.queue.dequeued <= asked
    && match x.client
       case LoopHead(rep, buf) => |asked| == rep * count + buf && x.queue.dequeued == asked
       case Enqueuing(rep, buf) => rep * count + buf <= |asked| <= rep * count + buf + 1
       case Waiting(rep, buf) => |asked| == rep * count + buf + 1
       case Leaving => |asked| == x.reps * count && x.queue.dequeued == asked
       case Checked(_) => |asked| == x.reps * count && x.queue.dequeued == asked
       case _ => asked == []
  }

  lemma TakenUnlessOwed(x: S.State)
    requires S.Inv(x)
    ensures x.queue.dequeued <= x.queue.enqueued
    ensures S.Outstanding(x) == 0 ==> x.queue.dequeued == x.queue.enqueued
  {
  }

  lemma HistoryIsTheLoops(x: S.State)
    requires S.Inv(x) && HistoryInv(x)
    ensures AsTheLoopsSay(x)
  {
    TakenUnlessOwed(x);
    match x.client
    case LoopHead(rep, buf) => AskedInOrder(|x.src|, rep, buf);
    case Enqueuing(rep, buf) =>
      AskedInOrder(|x.src|, rep, buf);
      AskedInOrder(|x.src|, rep, buf + 1);
    case Waiting(rep, buf) => AskedInOrder(|x.src|, rep, buf + 1);
    case Leaving => AskedInOrder(|x.src|, x.reps, 0);
    case Checked(_) => AskedInOrder(|x.src|, x.reps, 0);
    case _ =>
  }

  ghost predicate HistoriesInv(s: State) {
    forall c | 0 <= c < |s.sessions| :: HistoryInv(s.sessions[c])
  }

  lemma MoveKeepsHistories(s: State, move: Move)
    requires Formed(s) && SessionsInv(s) && HistoriesInv(s)
    ensures HistoriesInv(Apply(s, move))
  {
    SessionCount(s, move);
    forall c: nat | c < |s.sessions|
      ensures HistoryInv(Apply(s, move).sessions[c])
    {
      var inside := SessionStep(s, move, c);
      assert S.Inv(s.sessions[c]);
      StepKeepsHistory(s.sessions[c], inside);
    }
  }

  lemma {:induction false} RunKeepsHistories(s: State, moves: seq<Move>)
    requires Formed(s) && Inv(s) && HistoriesInv(s)
    ensures HistoriesInv(Run(s, moves))
  {
    if moves != [] {
      RunKeepsHistories(s, moves[..|moves| - 1]);
      RunKeepsInv(s, moves[..|moves| - 1]);
      MoveKeepsHistories(Run(s, moves[..|moves| - 1]), moves[|moves| - 1]);
    }
  }

  /** Every run, every client: its requests are buffers 0, 1, .., k - 1 over and over; in repetition `rep` at buffer
      `buf` exactly the ones the loop variables say have been made; when it leaves there have been reps * k of them,
      each taken by the server once, in order. */
  lemma RequestsFollowTheLoops(slots: nat, capacity: nat, setups: seq<Setup>, moves: seq<Move>, c: nat)
    requires GoodSetups(setups, capacity)
    requires c < |setups|
    ensures var s := Run(Init(slots, capacity, setups), moves);
      && |s.sessions| == |setups| && AsTheLoopsSay(s.sessions[c])
      && s.sessions[c].src == setups[c].src && s.sessions[c].reps == setups[c].reps
  {
    var init := Init(slots, capacity, setups);
    InitInv(slots, capacity, setups);
    assert HistoriesInv(init);
    RunKeepsInv(init, moves);
    RunKeepsHistories(init, moves);
    RunKeepsAnswers(init, moves, c, 0);
    assert S.Inv(Run(init, moves).sessions[c]);
    HistoryIsTheLoops(Run(init, moves).sessions[c]);
  }
}
