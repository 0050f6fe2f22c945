/** Every wait comes to an end as long as the server's threads and the client keep moving. While a client waits, every
    step that the dispatcher or a worker can really make is one step less on a way whose length is known beforehand;
    while the answer is not there some such step can be made; and once it is there, two steps of the client take it. */
module Progress {
  import opened TransposeSystem
  import opened Transpose
  import opened TiledTranspose
  import opened TiledWork
  import Masks
  import B = ClientBank
  import Q = SeqLockQueue
  import R = RoundRobin
  import S = Session

  /** The answer is there for the taking: the signal is up and the client is awake. */
  predicate Answerable(x: S.State)
    requires S.Formed(x)
  {
    x.futex.word == 1 && !x.futex.waiters[0].WAsleep?
  }

  /** Client c waits in slot `own` for an answer that is not there yet. */
  ghost predicate Expecting(s: State, c: nat, own: nat) {
    && Formed(s) && Inv(s) && c < |s.sessions| && s.sessions[c].client.Waiting? && HasSlot(s.bank, c, own)
    && !Answerable(s.sessions[c])
  }

  ghost predicate ExpectingThroughout(s: State, moves: seq<Move>, c: nat, own: nat)
    requires Formed(s)
  {
    Expecting(Run(s, moves), c, own) && (moves != [] ==> ExpectingThroughout(s, moves[..|moves| - 1], c, own))
  }

  /** A step of the dispatcher or of a worker that is not just a turn of a waiting loop. */
  predicate ServerStep(s: State, move: Move)
    requires Formed(s)
  {
    (move.DispatcherMove? || move.WorkerMove?) && Apply(s, move) != s
  }

  function ServerSteps(s: State, moves: seq<Move>): nat
    requires Formed(s)
  {
    if moves == [] then 0
    else
      var before := Run(s, moves[..|moves| - 1]);
      ServerSteps(s, moves[..|moves| - 1]) + (if ServerStep(before, moves[|moves| - 1]) then 1 else 0)
  }

  /** No client's matrices have more cells than this. */
  ghost predicate AtMost(s: State, cells: nat) {
    forall c | 0 <= c < |s.sessions| :: s.sessions[c].plan.rows * s.sessions[c].plan.cols <= cells
  }

  // ---------- how far a visit has to go ----------

  /** Steps a visit may still take. */
  function VisitLeft(x: S.State, cells: nat): nat
    requires S.Formed(x)
  {
    match x.service
    case NoVisit => 0
    case Dequeuing => cells + 4 + (if x.queue.c.CIdle? then 6 else Q.ConsumerRank(x.queue.c))
    case Transposing(_, cursors) => 4 + TotalWork(x.plan, cursors)
    case Waking => if x.futex.wakers[0].KReady? then 3 else if x.futex.wakers[0].KAtCas? then 2 else 1
  }

  lemma VisitIsBounded(x: S.State, cells: nat)
    requires S.Inv(x) && x.plan.rows * x.plan.cols <= cells
    ensures VisitLeft(x, cells) <= cells + 10
    ensures VisitLeft(x, cells) == 0 <==> x.service.NoVisit?
  {
    if x.service.Transposing? {
      S.NothingIsWasted(x);
    }
  }

  lemma DequeuingGoesOn(x: S.State, cells: nat)
    requires S.Inv(x) && x.service.Dequeuing? && x.plan.rows * x.plan.cols <= cells
    ensures VisitLeft(S.Apply(x, S.ServiceMove), cells) < VisitLeft(x, cells)
  {
    WorkIsTheMatrix(x.plan);
  }

  lemma OtherServiceGoesOn(x: S.State, cells: nat)
    requires S.Formed(x) && (x.service.Transposing? || x.service.Waking?)
    ensures var x' := S.Apply(x, S.ServiceMove);
      x' == x || VisitLeft(x', cells) < VisitLeft(x, cells)
  {
  }

  /** Every step of a visit that changes anything shortens it. */
  lemma VisitGoesOn(x: S.State, cells: nat)
    requires S.Inv(x) && !x.service.NoVisit? && x.plan.rows * x.plan.cols <= cells
    ensures var x' := S.Apply(x, S.ServiceMove);
      x' == x || VisitLeft(x', cells) < VisitLeft(x, cells)
  {
    if x.service.Dequeuing? {
      DequeuingGoesOn(x, cells);
    } else {
      OtherServiceGoesOn(x, cells);
    }
  }

  lemma WorkerGoesOn(x: S.State, t: nat, cells: nat)
    requires S.Inv(x)
    ensures var x' := S.Apply(x, S.WorkerMove(t));
      x' == x || VisitLeft(x', cells) < VisitLeft(x, cells)
  {
    if x.service.Transposing? && t < |x.service.cursors| && x.service.cursors[t].At? && x.service.buf < |x.src| {
      OneCopyLess(x.plan, x.service.cursors, t);
    }
  }

  /** A visit is never stuck: the dispatcher can go on with it, or a worker can. */
  lemma VisitIsNotStuck(x: S.State) returns (move: S.Move)
    requires S.Inv(x) && !x.service.NoVisit?
    ensures move.ServiceMove? || move.WorkerMove?
    ensures S.Apply(x, move) != x
  {
    move := S.ServiceMove;
    if x.service.Transposing? && !AllFinished(x.service.cursors) {
      S.NothingIsWasted(x);
      var t: nat :| t < |x.service.cursors| && x.service.cursors[t].At?;
      move := S.WorkerMove(t);
      OneCopyLess(x.plan, x.service.cursors, t);
    }
  }

  // ---------- how far the dispatcher is from the client's slot ----------

  /** Scan positions, and the pick-up if it lies between, up to the visit of `own`. */
  function Distance(d: B.Dispatcher, slots: nat, own: nat, held: bool): nat
    requires own < slots && (d.DScan? ==> d.i <= slots) && (d.DServe? ==> d.i < slots)
  {
    match d
    case DTop => own + 4
    case DRead => own + 3
    case DLower => own + 2
    case DScan(p) => if held && p <= own then own - p + 1 else slots - p + own + 5
    case DServe(p) => if held && p < own then own - p else slots - p + own + 4
  }

  /** The client's request has been, or is just being, taken from its queue. */
  predicate BeingServed(s: State, c: nat)
    requires c < |s.sessions|
  {
    || Q.Contents(s.sessions[c].queue) == []
    || (Serving(s.bank, |s.sessions|) && Served(s.bank) == c
        && s.sessions[c].service.Dequeuing? && R.Promised(s.sessions[c].queue))
  }

  function DistanceLeft(s: State, c: nat, own: nat): nat
    requires c < |s.sessions| && own < |s.bank.bank| && R.InRound(s.bank)
  {
    if BeingServed(s, c) then 0 else Distance(s.bank.d, |s.bank.bank|, own, own in s.bank.local)
  }

  function CurrentVisitLeft(s: State, cells: nat): nat
    requires Formed(s)
  {
    if Serving(s.bank, |s.sessions|) then VisitLeft(s.sessions[Served(s.bank)], cells) else 0
  }

  /** The way left for client c: nearer to the slot, or as near and no longer a visit before it. */
  ghost predicate NoFarther(s: State, s': State, c: nat, own: nat, cells: nat)
    requires Formed(s) && Formed(s') && c < |s.sessions| && c < |s'.sessions|
    requires own < |s.bank.bank| && own < |s'.bank.bank| && R.InRound(s.bank) && R.InRound(s'.bank)
  {
    || DistanceLeft(s', c, own) < DistanceLeft(s, c, own)
    || (DistanceLeft(s', c, own) == DistanceLeft(s, c, own) &&
          CurrentVisitLeft(s', cells) <= CurrentVisitLeft(s, cells))
  }

  ghost predicate Nearer(s: State, s': State, c: nat, own: nat, cells: nat)
    requires Formed(s) && Formed(s') && c < |s.sessions| && c < |s'.sessions|
    requires own < |s.bank.bank| && own < |s'.bank.bank| && R.InRound(s.bank) && R.InRound(s'.bank)
  {
    || DistanceLeft(s', c, own) < DistanceLeft(s, c, own)
    || (DistanceLeft(s', c, own) == DistanceLeft(s, c, own) &&
          CurrentVisitLeft(s', cells) < CurrentVisitLeft(s, cells))
  }

  lemma ExpectingFacts(s: State, c: nat, own: nat)
    requires Expecting(s, c, own)
    ensures c < |Statuses(s)| && Statuses(s)[c].active && S.Inv(s.sessions[c]) && R.InRound(s.bank)
    ensures s.bank.d.DServe? ==> Serving(s.bank, |s.sessions|) && S.Inv(s.sessions[Served(s.bank)])
    ensures s.bank.d.DServe? ==> (s.bank.d.i == own <==> Served(s.bank) == c)
    ensures s.bank.d.DServe? ==> s.bank.d.i in s.bank.local && !s.sessions[Served(s.bank)].service.NoVisit?
    ensures !s.bank.d.DServe? || Served(s.bank) != c ==> s.sessions[c].service.NoVisit?
  {
    assert Statuses(s)[c].visited <==> Serving(s.bank, |s.sessions|) && Served(s.bank) == c;
    if s.bank.d.DServe? {
      assert Statuses(s)[Served(s.bank)].visited;
      if Served(s.bank) == c {
        R.OwnSlotIsUnique(s.bank, Statuses(s), c, own, s.bank.d.i);
      }
    }
  }

  /** Outside a visit to its slot, an expecting client has its request in the queue. */
  lemma RequestIsQueued(x: S.State)
    requires S.Inv(x) && x.client.Waiting? && x.service.NoVisit? && !Answerable(x)
    ensures Q.Contents(x.queue) != []
  {
    S.WaitingClientIsNotStuck(x);
  }

  // ---------- the dispatcher between visits ----------

  lemma ScanApproaches(bank: B.State, st: seq<Status>, c: nat, own: nat)
    requires B.Inv(bank) && LinkInv(bank, st) && c < |st| && st[c].active && HasSlot(bank, c, own)
    requires !bank.d.DServe?
    ensures var bank' := B.DispatcherStep(bank);
      && R.InRound(bank) && R.InRound(bank') && HasSlot(bank', c, own) && bank' != bank
      && (bank'.d.DServe? ==> (bank'.d.i == own <==> Occupant(bank', bank'.d.i) == c))
      && (bank'.d == B.DServe(own) ||
            Distance(bank'.d, |bank.bank|, own, own in bank'.local) <
            Distance(bank.d, |bank.bank|, own, own in bank.local))
      && Distance(bank.d, |bank.bank|, own, own in bank.local) > 0
  {
    ValidIsHeldOrAnnounced(bank, st, c, own);
    var bank' := B.DispatcherStep(bank);
    if bank'.d.DServe? && Occupant(bank', bank'.d.i) == c {
      R.OwnSlotIsUnique(bank, st, c, own, bank'.d.i);
    }
  }

  /** What a step between visits does to the system. */
  lemma ScanShape(s: State, c: nat)
    requires Formed(s) && Inv(s) && !s.bank.d.DServe? && c < |s.sessions|
    ensures var s' := Apply(s, DispatcherMove); var bank' := B.DispatcherStep(s.bank);
      && s'.bank == bank' && |s'.sessions| == |s.sessions|
      && (bank'.d.DServe? ==> Serving(bank', |s.sessions|))
      && s'.sessions[c] == if bank'.d.DServe? && Served(bank') == c then S.Apply(s.sessions[c], S.BeginVisit)
                           else s.sessions[c]
  {
    LinkRound(s.bank, Statuses(s));
  }

  lemma ScanStep(s: State, c: nat, own: nat, cells: nat)
    requires Expecting(s, c, own) && !s.bank.d.DServe?
    ensures var s' := Apply(s, DispatcherMove);
      && c < |s'.sessions| && HasSlot(s'.bank, c, own) && R.InRound(s.bank) && R.InRound(s'.bank)
      && Nearer(s, s', c, own, cells)
  {
    ExpectingFacts(s, c, own);
    ScanApproaches(s.bank, Statuses(s), c, own);
    ScanShape(s, c);
    RequestIsQueued(s.sessions[c]);
    assert !BeingServed(s, c);
  }

  // ---------- the dispatcher inside a visit ----------

  lemma VisitEnds(d: B.Dispatcher, slots: nat, own: nat, held: bool)
    requires own < slots && d.DServe? && d.i < slots
    ensures Distance(B.DScan(d.i + 1), slots, own, held) == Distance(d, slots, own, held)
  {
  }

  lemma OwnServiceKeepsPromise(x: S.State)
    requires S.Inv(x) && x.client.Waiting? && !x.service.NoVisit?
    requires Q.Contents(x.queue) == [] || (x.service.Dequeuing? && R.Promised(x.queue))
    ensures var x' := S.Apply(x, S.ServiceMove);
      Q.Contents(x'.queue) == [] || (x'.service.Dequeuing? && R.Promised(x'.queue))
  {
    if Q.Contents(x.queue) != [] {
      R.OwnServiceStep(x);
    } else if x.service.Dequeuing? {
      Q.StepsRefineTheFifo(x.queue, Q.Consume);
    }
  }

  /** The move keeps the client's slot, takes it no farther from its answer, and nearer if the server works. */
  ghost predicate Advances(s: State, move: Move, c: nat, own: nat, cells: nat)
    requires Formed(s) && c < |s.sessions| && own < |s.bank.bank| && R.InRound(s.bank)
  {
    var s' := Apply(s, move);
    && c < |s'.sessions| && HasSlot(s'.bank, c, own) && R.InRound(s'.bank)
    && NoFarther(s, s', c, own, cells)
    && (ServerStep(s, move) ==> Nearer(s, s', c, own, cells))
  }

  lemma VisitShortens(s: State, c: nat, own: nat, cells: nat)
    requires Expecting(s, c, own) && s.bank.d.DServe? && AtMost(s, cells)
    ensures var s' := Apply(s, DispatcherMove);
      s' == s || CurrentVisitLeft(s', cells) < CurrentVisitLeft(s, cells)
  {
    ExpectingFacts(s, c, own);
    R.ServiceShape(s);
    VisitGoesOn(s.sessions[Served(s.bank)], cells);
  }

  lemma OwnVisitDistance(s: State, c: nat, own: nat)
    requires Expecting(s, c, own) && s.bank.d == B.DServe(own)
    ensures var s' := Apply(s, DispatcherMove);
      && c < |s'.sessions| && HasSlot(s'.bank, c, own) && R.InRound(s.bank) && R.InRound(s'.bank)
      && DistanceLeft(s', c, own) <= DistanceLeft(s, c, own)
  {
    ExpectingFacts(s, c, own);
    R.ServiceShape(s);
    VisitEnds(s.bank.d, |s.bank.bank|, own, own in s.bank.local);
    if BeingServed(s, c) {
      OwnServiceKeepsPromise(s.sessions[c]);
    }
  }

  lemma OtherVisitDistance(s: State, c: nat, own: nat)
    requires Expecting(s, c, own) && s.bank.d.DServe? && s.bank.d.i != own
    ensures var s' := Apply(s, DispatcherMove);
      && c < |s'.sessions| && HasSlot(s'.bank, c, own) && R.InRound(s.bank) && R.InRound(s'.bank)
      && DistanceLeft(s', c, own) <= DistanceLeft(s, c, own)
  {
    ExpectingFacts(s, c, own);
    R.ServiceShape(s);
    RequestIsQueued(s.sessions[c]);
    VisitEnds(s.bank.d, |s.bank.bank|, own, own in s.bank.local);
    assert !BeingServed(s, c);
  }

  lemma VisitAdvances(s: State, c: nat, own: nat, cells: nat)
    requires Expecting(s, c, own) && s.bank.d.DServe? && AtMost(s, cells)
    ensures R.InRound(s.bank) && Advances(s, DispatcherMove, c, own, cells)
  {
    VisitShortens(s, c, own, cells);
    if s.bank.d.i == own {
      OwnVisitDistance(s, c, own);
    } else {
      OtherVisitDistance(s, c, own);
    }
  }

  // ---------- everybody else ----------

  /** What is left of the way does not depend on moves outside the dispatcher and the workers. */
  lemma SameWay(s: State, s': State, c: nat, own: nat, cells: nat)
    requires Formed(s) && Formed(s') && c < |s.sessions| && c < |s'.sessions|
    requires own < |s.bank.bank| == |s'.bank.bank| && R.InRound(s.bank)
    requires s'.bank.d == s.bank.d && s'.bank.local == s.bank.local
    requires BeingServed(s', c) == BeingServed(s, c) && CurrentVisitLeft(s', cells) <= CurrentVisitLeft(s, cells)
    ensures R.InRound(s'.bank) && NoFarther(s, s', c, own, cells)
  {
  }

  lemma QuietInside(x: S.State, move: S.Move, cells: nat)
    requires S.Inv(x) && !move.ServiceMove? && !move.BeginVisit?
    ensures var x' := S.Apply(x, move);
      && VisitLeft(x', cells) <= VisitLeft(x, cells)
      && (x'.service.Dequeuing? <==> x.service.Dequeuing?)
      && (x.client.Waiting? ==> x'.queue == x.queue)
      && (x' != x && move.WorkerMove? ==> VisitLeft(x', cells) < VisitLeft(x, cells))
  {
    if move.WorkerMove? {
      WorkerGoesOn(x, move.t, cells);
    }
  }

  lemma TouchIsQuiet(s: State, c: nat, own: nat, d: nat, move: S.Move, cells: nat)
    requires Formed(s) && SessionsInv(s) && c < |s.sessions| && s.sessions[c].client.Waiting?
    requires own < |s.bank.bank| && R.InRound(s.bank)
    requires !move.ServiceMove? && !move.BeginVisit?
    ensures NoFarther(s, Touch(s, d, move), c, own, cells)
    ensures move.WorkerMove? && Serving(s.bank, |s.sessions|) && d == Served(s.bank) && Touch(s, d, move) != s ==>
      Nearer(s, Touch(s, d, move), c, own, cells)
  {
    if d < |s.sessions| {
      assert S.Inv(s.sessions[d]);
      QuietInside(s.sessions[d], move, cells);
      SameWay(s, Touch(s, d, move), c, own, cells);
    }
  }

  /** The bank changes without the dispatcher. */
  lemma BankIsQuiet(s: State, bank': B.State, c: nat, own: nat, cells: nat)
    requires Expecting(s, c, own)
    requires |bank'.bank| == |s.bank.bank| && bank'.d == s.bank.d && bank'.local == s.bank.local
    requires forall i: nat | i < |s.bank.bank| && i in s.bank.local :: bank'.bank[i].id == s.bank.bank[i].id
    ensures R.InRound(s.bank) && R.InRound(bank') && NoFarther(s, s.(bank := bank'), c, own, cells)
  {
    ExpectingFacts(s, c, own);
    SameWay(s, s.(bank := bank'), c, own, cells);
  }

  lemma HandlerBankIsQuiet(s: State, c: nat, own: nat, cells: nat)
    requires Expecting(s, c, own)
    ensures var bank' := B.HandlerStep(s.bank);
      && HasSlot(bank', c, own) && R.InRound(s.bank) && R.InRound(bank')
      && NoFarther(s, s.(bank := bank'), c, own, cells)
  {
    ExpectingFacts(s, c, own);
    HandlerKeepsOccupants(s.bank);
    R.HandlerKeepsOwnSlot(s.bank, Statuses(s), c, own);
    BankIsQuiet(s, B.HandlerStep(s.bank), c, own, cells);
  }

  lemma HandlerAdvances(s: State, c: nat, own: nat, cells: nat)
    requires Expecting(s, c, own)
    ensures R.InRound(s.bank) && Advances(s, HandlerMove, c, own, cells)
  {
    HandlerBankIsQuiet(s, c, own, cells);
    if s.bank.h.HRespond? {
      TouchIsQuiet(s.(bank := B.HandlerStep(s.bank)), c, own, s.bank.h.id, S.Responded, cells);
    }
  }

  /** A message changes no more of the bank than where the handler stands. */
  lemma MessageAdvances(s: State, move: Move, bank': B.State, c: nat, own: nat, d: nat, noted: S.Move, cells: nat)
    requires Expecting(s, c, own) && !noted.ServiceMove? && !noted.BeginVisit?
    requires !move.DispatcherMove? && !move.WorkerMove?
    requires bank' == s.bank.(h := bank'.h) && Apply(s, move) == Touch(s.(bank := bank'), d, noted)
    ensures R.InRound(s.bank) && Advances(s, move, c, own, cells)
  {
    BankIsQuiet(s, bank', c, own, cells);
    TouchIsQuiet(s.(bank := bank'), c, own, d, noted, cells);
  }

  lemma QuietAdvances(s: State, move: Move, c: nat, own: nat, d: nat, inside: S.Move, cells: nat)
    requires Expecting(s, c, own) && !inside.ServiceMove? && !inside.BeginVisit?
    requires !move.DispatcherMove? && Apply(s, move) == Touch(s, d, inside)
    requires move.WorkerMove? && Apply(s, move) != s ==>
      inside.WorkerMove? && Serving(s.bank, |s.sessions|) && d == Served(s.bank)
    ensures R.InRound(s.bank) && Advances(s, move, c, own, cells)
  {
    ExpectingFacts(s, c, own);
    TouchIsQuiet(s, c, own, d, inside, cells);
  }

  lemma StepAdvances(s: State, move: Move, c: nat, own: nat, cells: nat)
    requires Expecting(s, c, own) && AtMost(s, cells)
    ensures R.InRound(s.bank) && Advances(s, move, c, own, cells)
  {
    match move
    case HandlerMove => HandlerAdvances(s, c, own, cells);
    case DispatcherMove =>
      if !s.bank.d.DServe? {
        ScanStep(s, c, own, cells);
      } else {
        VisitAdvances(s, c, own, cells);
      }
    case TakeSubscribe(d, fails) => SubscribeAdvances(s, c, own, d, fails, cells);
    case TakeUnsubscribe(d) => UnsubscribeAdvances(s, c, own, d, cells);
    case ClientMove(d) => QuietAdvances(s, move, c, own, d, S.ClientMove, cells);
    case SpuriousWake(d) => QuietAdvances(s, move, c, own, d, S.SpuriousWake, cells);
    case WorkerMove(t) =>
      QuietAdvances(s, move, c, own, if Serving(s.bank, |s.sessions|) then Served(s.bank) else |s.sessions|,
                    S.WorkerMove(t), cells);
  }

  lemma SubscribeAdvances(s: State, c: nat, own: nat, d: nat, fails: bool, cells: nat)
    requires Expecting(s, c, own)
    ensures R.InRound(s.bank) && Advances(s, TakeSubscribe(d, fails), c, own, cells)
  {
    ExpectingFacts(s, c, own);
    if CanTakeSubscribe(s, d) {
      MessageAdvances(s, TakeSubscribe(d, fails), B.Apply(s.bank, B.Subscribe(d, fails)), c, own, d,
                      S.SubscribeHandled, cells);
    }
  }

  lemma UnsubscribeAdvances(s: State, c: nat, own: nat, d: nat, cells: nat)
    requires Expecting(s, c, own)
    ensures R.InRound(s.bank) && Advances(s, TakeUnsubscribe(d), c, own, cells)
  {
    ExpectingFacts(s, c, own);
    if CanTakeUnsubscribe(s, d) {
      MessageAdvances(s, TakeUnsubscribe(d), B.Apply(s.bank, B.Unsubscribe(d)), c, own, d, S.LeaveHandled, cells);
    }
  }

  // ---------- what a move does to one session ----------

  /** Whether the session made this step, or none. */
  predicate SteppedBy(x: S.State, x': S.State, inside: S.Move)
    requires S.Formed(x)
  {
    x' == x || x' == S.Apply(x, inside)
  }

  /** A move of the system is at most one move of a session, and the client's own only if it is the client's. */
  lemma SessionStep(s: State, move: Move, c: nat) returns (inside: S.Move)
    requires Formed(s) && c < |s.sessions|
    ensures |Apply(s, move).sessions| == |s.sessions|
    ensures SteppedBy(s.sessions[c], Apply(s, move).sessions[c], inside)
    ensures inside.ClientMove? ==> move == ClientMove(c)
    ensures inside.LeaveHandled? ==> move.TakeUnsubscribe?
    ensures inside.Responded? ==> move.HandlerMove?
  {
    inside := match move
      case ClientMove(d) => if d == c then S.ClientMove else S.ServiceMove
      case SpuriousWake(_) => S.SpuriousWake
      case TakeSubscribe(_, _) => S.SubscribeHandled
      case TakeUnsubscribe(_) => S.LeaveHandled
      case HandlerMove => S.Responded
      case DispatcherMove => if Serving(s.bank, |s.sessions|) then S.ServiceMove else S.BeginVisit
      case WorkerMove(t) => S.WorkerMove(t);
  }

  // ---------- the whole way in one number ----------

  function WayLeft(s: State, c: nat, own: nat, cells: nat): nat
    requires Formed(s) && c < |s.sessions| && own < |s.bank.bank| && R.InRound(s.bank)
  {
    Weighted(DistanceLeft(s, c, own), cells + 11, CurrentVisitLeft(s, cells))
  }

  function Weighted(high: nat, weight: nat, low: nat): nat {
    Times(high, weight) + low
  }

  lemma WeightedOrder(high: nat, low: nat, high': nat, low': nat, weight: nat)
    requires low' < weight
    ensures high' < high ==> Weighted(high', weight, low') < Weighted(high, weight, low)
    ensures high' == high ==> Weighted(high', weight, low') - Weighted(high, weight, low) == low' - low
  {
    TimesIsProduct(high, weight);
    TimesIsProduct(high', weight);
    calc {
      (high - high') * weight;
      high * weight - high' * weight;
    }
    Masks.WholeLaps(high - high', weight);
  }

  lemma CurrentVisitIsBounded(s: State, cells: nat)
    requires Formed(s) && SessionsInv(s) && AtMost(s, cells)
    ensures CurrentVisitLeft(s, cells) < cells + 11
  {
    if Serving(s.bank, |s.sessions|) {
      assert S.Inv(s.sessions[Served(s.bank)]);
      VisitIsBounded(s.sessions[Served(s.bank)], cells);
    }
  }

  lemma PlanStaysInside(x: S.State, move: S.Move)
    requires S.Formed(x)
    ensures S.Apply(x, move).plan == x.plan
  {
  }

  lemma PlanStays(s: State, move: Move, c: nat)
    requires Formed(s) && c < |s.sessions|
    ensures |Apply(s, move).sessions| == |s.sessions| && Apply(s, move).sessions[c].plan == s.sessions[c].plan
  {
    var inside := SessionStep(s, move, c);
    PlanStaysInside(s.sessions[c], inside);
  }

  lemma AtMostStays(s: State, move: Move, cells: nat)
    requires Formed(s) && AtMost(s, cells)
    ensures AtMost(Apply(s, move), cells)
  {
    SessionCount(s, move);
    forall c: nat | c < |s.sessions|
      ensures Apply(s, move).sessions[c].plan == s.sessions[c].plan
    {
      PlanStays(s, move, c);
    }
  }

  lemma SessionCount(s: State, move: Move)
    requires Formed(s)
    ensures |Apply(s, move).sessions| == |s.sessions| && |Apply(s, move).bank.bank| == |s.bank.bank|
  {
  }

  lemma StepShortensTheWay(s: State, move: Move, c: nat, own: nat, cells: nat)
    requires Expecting(s, c, own) && AtMost(s, cells)
    ensures R.InRound(s.bank)
    ensures var s' := Apply(s, move);
      && c < |s'.sessions| && HasSlot(s'.bank, c, own) && R.InRound(s'.bank)
      && WayLeft(s', c, own, cells) + (if ServerStep(s, move) then 1 else 0) <= WayLeft(s, c, own, cells)
  {
    StepAdvances(s, move, c, own, cells);
    AtMostStays(s, move, cells);
    StepKeepsInv(s, move);
    var s' := Apply(s, move);
    CurrentVisitIsBounded(s', cells);
    WeightedOrder(DistanceLeft(s, c, own), CurrentVisitLeft(s, cells),
                  DistanceLeft(s', c, own), CurrentVisitLeft(s', cells), cells + 11);
  }

  lemma {:induction false} RunShortensTheWay(s: State, moves: seq<Move>, c: nat, own: nat, cells: nat)
    requires Formed(s) && ExpectingThroughout(s, moves, c, own) && AtMost(s, cells)
    requires R.InRound(s.bank) && c < |s.sessions| && own < |s.bank.bank|
    ensures var s' := Run(s, moves);
      && R.InRound(s'.bank) && AtMost(s', cells)
      && ServerSteps(s, moves) + WayLeft(s', c, own, cells) <= WayLeft(s, c, own, cells)
  {
    if moves != [] {
      var before := Run(s, moves[..|moves| - 1]);
      RunShortensTheWay(s, moves[..|moves| - 1], c, own, cells);
      assert Expecting(before, c, own);
      StepShortensTheWay(before, moves[|moves| - 1], c, own, cells);
      AtMostStays(before, moves[|moves| - 1], cells);
    }
  }

  lemma StepsWithinWay(s: State, moves: seq<Move>, c: nat, own: nat, cells: nat)
    requires Formed(s) && Expecting(s, c, own) && ExpectingThroughout(s, moves, c, own) && AtMost(s, cells)
    ensures R.InRound(s.bank) && ServerSteps(s, moves) <= WayLeft(s, c, own, cells)
  {
    ExpectingFacts(s, c, own);
    RunShortensTheWay(s, moves, c, own, cells);
  }

  /** No way is longer: two rounds of the bank and the pick-up between, each position a whole visit. */
  function WorkBound(slots: nat, cells: nat): nat {
    Times(2 * slots + 5, cells + 11)
  }

  lemma WorkBoundValue(slots: nat, cells: nat)
    ensures WorkBound(slots, cells) == (2 * slots + 5) * (cells + 11)
  {
    TimesIsProduct(2 * slots + 5, cells + 11);
  }

  lemma WayIsBounded(s: State, c: nat, own: nat, cells: nat)
    requires Expecting(s, c, own) && AtMost(s, cells)
    ensures R.InRound(s.bank) && WayLeft(s, c, own, cells) <= WorkBound(|s.bank.bank|, cells)
  {
    ExpectingFacts(s, c, own);
    CurrentVisitIsBounded(s, cells);
    WeightedOrder(2 * |s.bank.bank| + 5, 0, DistanceLeft(s, c, own), CurrentVisitLeft(s, cells), cells + 11);
  }

  // ---------- what it comes to ----------

  lemma SomeVisitStep(s: State) returns (move: Move)
    requires Formed(s) && Serving(s.bank, |s.sessions|)
    requires S.Inv(s.sessions[Served(s.bank)]) && !s.sessions[Served(s.bank)].service.NoVisit?
    ensures ServerStep(s, move)
  {
    var served := Served(s.bank);
    var inside := VisitIsNotStuck(s.sessions[served]);
    if inside.WorkerMove? {
      move := WorkerMove(inside.t);
    } else {
      move := DispatcherMove;
      R.ServiceShape(s);
    }
    assert Apply(s, move).sessions[served] != s.sessions[served];
  }

  /** As long as the answer is not there, the dispatcher or some worker has a step to make. */
  lemma SomeServerStep(s: State, c: nat, own: nat) returns (move: Move)
    requires Expecting(s, c, own)
    ensures ServerStep(s, move)
  {
    ExpectingFacts(s, c, own);
    if s.bank.d.DServe? {
      move := SomeVisitStep(s);
    } else {
      move := DispatcherMove;
      ScanApproaches(s.bank, Statuses(s), c, own);
      assert Apply(s, move).bank != s.bank;
    }
  }

  lemma AnswerStaysInside(x: S.State, move: S.Move)
    requires S.Inv(x) && x.client.Waiting? && Answerable(x)
    ensures var x' := S.Apply(x, move);
      || (x'.client == x.client && Answerable(x'))
      || (move.ClientMove? && x'.client == S.LoopHead(x.client.rep, x.client.buf + 1))
  {
  }

  /** Whatever anybody does, the answer stays until the client's own step takes it. */
  lemma AnswerStays(s: State, move: Move, c: nat)
    requires Formed(s) && SessionsInv(s) && c < |s.sessions|
    requires s.sessions[c].client.Waiting? && Answerable(s.sessions[c])
    ensures |Apply(s, move).sessions| == |s.sessions|
    ensures var client := s.sessions[c].client; var x' := Apply(s, move).sessions[c];
      || (x'.client == client && Answerable(x'))
      || (move == ClientMove(c) && x'.client == S.LoopHead(client.rep, client.buf + 1))
  {
    var inside := SessionStep(s, move, c);
    AnswerStaysInside(s.sessions[c], inside);
  }

  lemma TwoStepsTakeIt(x: S.State)
    requires S.Inv(x) && x.client.Waiting? && Answerable(x)
    ensures var x1 := S.Apply(x, S.ClientMove); var taken := S.LoopHead(x.client.rep, x.client.buf + 1);
      x1.client == taken || S.Apply(x1, S.ClientMove).client == taken
  {
  }

  lemma {:induction false} RunOn(s: State, first: seq<Move>, second: seq<Move>)
    requires Formed(s)
    ensures Run(s, first + second) == Run(Run(s, first), second)
  {
    var moves := first + second;
    if second == [] {
      assert moves == first;
    } else {
      assert moves[..|moves| - 1] == first + second[..|second| - 1];
      RunOn(s, first, second[..|second| - 1]);
    }
  }

  lemma RunOne(s: State, move: Move)
    requires Formed(s)
    ensures Run(s, [move]) == Apply(s, move)
  {
    assert [move][..0] == [];
  }

  /** The client takes it within two steps of its own. */
  lemma AnswerIsTaken(s: State, c: nat) returns (moves: seq<Move>)
    requires Formed(s) && c < |s.sessions|
    requires S.Inv(s.sessions[c]) && s.sessions[c].client.Waiting? && Answerable(s.sessions[c])
    ensures moves == [ClientMove(c)] || moves == [ClientMove(c), ClientMove(c)]
    ensures var client := s.sessions[c].client;
      c < |Run(s, moves).sessions| && Run(s, moves).sessions[c].client == S.LoopHead(client.rep, client.buf + 1)
  {
    TwoStepsTakeIt(s.sessions[c]);
    RunOne(s, ClientMove(c));
    var s1 := Apply(s, ClientMove(c));
    moves := [ClientMove(c)];
    if s1.sessions[c].client.Waiting? {
      RunOn(s, moves, moves);
      RunOne(s1, ClientMove(c));
      assert moves + moves == [ClientMove(c), ClientMove(c)];
      moves := moves + moves;
    }
  }

  /** No other client moves, no message is taken and nothing wakes spuriously. */
  predicate OnlyServerAnd(moves: seq<Move>, c: nat) {
    forall k | 0 <= k < |moves| :: moves[k].DispatcherMove? || moves[k].WorkerMove? || moves[k] == ClientMove(c)
  }

  lemma ServerLeavesClients(s: State, move: Move, c: nat)
    requires Formed(s) && c < |s.sessions| && (move.DispatcherMove? || move.WorkerMove?)
    ensures var s' := Apply(s, move); |s'.sessions| == |s.sessions| && s'.sessions[c].client == s.sessions[c].client
  {
  }

  /** Client c waits in slot `own`, with the answer there or not. */
  ghost predicate Waits(s: State, c: nat, own: nat, cells: nat) {
    && Formed(s) && Inv(s) && AtMost(s, cells) && R.InRound(s.bank)
    && c < |s.sessions| && s.sessions[c].client.Waiting? && HasSlot(s.bank, c, own)
  }

  /** One server step towards the answer. */
  lemma OneStepNearer(s: State, c: nat, own: nat, cells: nat) returns (move: Move)
    requires Waits(s, c, own, cells) && !Answerable(s.sessions[c])
    ensures move.DispatcherMove? || move.WorkerMove?
    ensures var s' := Apply(s, move);
      && Waits(s', c, own, cells) && s'.sessions[c].client == s.sessions[c].client
      && WayLeft(s', c, own, cells) < WayLeft(s, c, own, cells)
  {
    move := SomeServerStep(s, c, own);
    StepShortensTheWay(s, move, c, own, cells);
    StepKeepsInv(s, move);
    AtMostStays(s, move, cells);
    ServerLeavesClients(s, move, c);
  }

  /** The schedule returns client c, which waited as `client`, from its Wait. */
  predicate Returns(s: State, moves: seq<Move>, c: nat, client: S.Client)
    requires Formed(s) && client.Waiting?
  {
    && OnlyServerAnd(moves, c)
    && c < |Run(s, moves).sessions| && Run(s, moves).sessions[c].client == S.LoopHead(client.rep, client.buf + 1)
  }

  lemma AnswerReturns(s: State, c: nat) returns (moves: seq<Move>)
    requires Formed(s) && Inv(s) && c < |s.sessions| && s.sessions[c].client.Waiting? && Answerable(s.sessions[c])
    ensures Returns(s, moves, c, s.sessions[c].client)
  {
    moves := AnswerIsTaken(s, c);
  }

  lemma OneMoveBefore(s: State, move: Move, rest: seq<Move>, c: nat, client: S.Client)
    requires Formed(s) && client.Waiting? && (move.DispatcherMove? || move.WorkerMove?)
    requires Returns(Apply(s, move), rest, c, client)
    ensures Returns(s, [move] + rest, c, client)
  {
    RunOne(s, move);
    RunOn(s, [move], rest);
  }

  /** From a wait on, the server and the client alone can always finish it. */
  lemma {:induction false} FinishesTheWait(s: State, c: nat, own: nat, cells: nat) returns (moves: seq<Move>)
    requires Waits(s, c, own, cells)
    ensures Returns(s, moves, c, s.sessions[c].client)
    decreases WayLeft(s, c, own, cells)
  {
    if Answerable(s.sessions[c]) {
      moves := AnswerReturns(s, c);
    } else {
      var move := OneStepNearer(s, c, own, cells);
      var rest := FinishesTheWait(Apply(s, move), c, own, cells);
      OneMoveBefore(s, move, rest, c, s.sessions[c].client);
      moves := [move] + rest;
    }
  }

  // ---------- the results, from every reachable state ----------

  ghost predicate SetupsAtMost(setups: seq<Setup>, cells: nat) {
    forall c | 0 <= c < |setups| :: setups[c].plan.rows * setups[c].plan.cols <= cells
  }

  lemma InitAtMost(slots: nat, capacity: nat, setups: seq<Setup>, cells: nat)
    requires GoodSetups(setups, capacity) && SetupsAtMost(setups, cells)
    ensures Formed(Init(slots, capacity, setups)) && AtMost(Init(slots, capacity, setups), cells)
    ensures |Init(slots, capacity, setups).bank.bank| == slots
  {
    forall c: nat | c < |setups|
      ensures Init(slots, capacity, setups).sessions[c].plan == setups[c].plan
    {
    }
  }

  lemma {:induction false} RunKeepsAtMost(s: State, moves: seq<Move>, cells: nat)
    requires Formed(s) && AtMost(s, cells)
    ensures AtMost(Run(s, moves), cells) && |Run(s, moves).bank.bank| == |s.bank.bank|
  {
    if moves != [] {
      RunKeepsAtMost(s, moves[..|moves| - 1], cells);
      AtMostStays(Run(s, moves[..|moves| - 1]), moves[|moves| - 1], cells);
      SessionCount(Run(s, moves[..|moves| - 1]), moves[|moves| - 1]);
    }
  }

  /** What is known of a reachable state. */
  lemma ReachableFacts(slots: nat, capacity: nat, setups: seq<Setup>, cells: nat, before: seq<Move>)
    requires GoodSetups(setups, capacity) && SetupsAtMost(setups, cells)
    ensures Formed(Init(slots, capacity, setups))
    ensures var s := Run(Init(slots, capacity, setups), before);
      Inv(s) && AtMost(s, cells) && |s.bank.bank| == slots
  {
    var init := Init(slots, capacity, setups);
    InitInv(slots, capacity, setups);
    InitAtMost(slots, capacity, setups, cells);
    RunKeepsInv(init, before);
    RunKeepsAtMost(init, before, cells);
  }

  lemma BoundedFromHere(s: State, moves: seq<Move>, c: nat, own: nat, cells: nat)
    requires Formed(s) && AtMost(s, cells)
    requires Expecting(s, c, own) && ExpectingThroughout(s, moves, c, own)
    ensures ServerSteps(s, moves) <= WorkBound(|s.bank.bank|, cells)
  {
    StepsWithinWay(s, moves, c, own, cells);
    WayIsBounded(s, c, own, cells);
  }

  /** Bounded work: whatever everybody else does, from any reachable state s the dispatcher and the workers make no more
      than a fixed number of steps before an expecting client's answer is there. The number depends on the slots of the
      bank and the largest matrix alone. */
  lemma AnswerTakesBoundedWork(slots: nat, capacity: nat, setups: seq<Setup>, cells: nat, before: seq<Move>,
                               s: State, moves: seq<Move>, c: nat, own: nat)
    requires GoodSetups(setups, capacity) && SetupsAtMost(setups, cells)
    requires s == Run(Init(slots, capacity, setups), before)
    requires Expecting(s, c, own) && ExpectingThroughout(s, moves, c, own)
    ensures ServerSteps(s, moves) <= WorkBound(slots, cells)
  {
    ReachableFacts(slots, capacity, setups, cells, before);
    BoundedFromHere(s, moves, c, own, cells);
  }

  /** No wait is ever hopeless: in every reachable state in which a client waits, some schedule of the dispatcher, the
      workers and that client alone returns it from Wait, with the right answer. */
  lemma EveryWaitCanReturn(slots: nat, capacity: nat, setups: seq<Setup>, cells: nat, before: seq<Move>, c: nat)
    returns (moves: seq<Move>)
    requires GoodSetups(setups, capacity) && SetupsAtMost(setups, cells) && c < |setups|
    requires c < |Run(Init(slots, capacity, setups), before).sessions|
    requires Run(Init(slots, capacity, setups), before).sessions[c].client.Waiting?
    ensures OnlyServerAnd(moves, c)
    ensures var s := Run(Init(slots, capacity, setups), before); var s' := Run(s, moves);
      var client := s.sessions[c].client;
      && c < |s'.sessions| && s'.sessions[c].client == S.LoopHead(client.rep, client.buf + 1)
      && client.buf < |setups[c].src| == |s'.sessions[c].dst|
      && |setups[c].src[client.buf]| == setups[c].plan.rows * setups[c].plan.cols
      && s'.sessions[c].dst[client.buf]
           == Transposed(setups[c].src[client.buf], setups[c].plan.rows, setups[c].plan.cols)
  {
    var init := Init(slots, capacity, setups);
    InitInv(slots, capacity, setups);
    RunKeepsInv(init, before);
    InitAtMost(slots, capacity, setups, cells);
    RunKeepsAtMost(init, before, cells);
    RunKeepsAnswers(init, before, c, 0);
    var s := Run(init, before);
    var own := SlotOf(s, c);
    moves := FinishesTheWait(s, c, own, cells);
    ReturnsWithTheAnswer(s, moves, c);
  }

  /** Whoever returns from Wait finds the answer. */
  lemma ReturnsWithTheAnswer(s: State, moves: seq<Move>, c: nat)
    requires Formed(s) && Inv(s) && c < |s.sessions| && s.sessions[c].client.Waiting?
    requires Returns(s, moves, c, s.sessions[c].client)
    ensures var x := s.sessions[c]; var x' := Run(s, moves).sessions[c];
      && x.client.buf < |x.src| == |x'.dst|
      && x'.dst[x.client.buf] == Transposed(x.src[x.client.buf], x.plan.rows, x.plan.cols)
  {
    RunKeepsInv(s, moves);
    RunKeepsAnswers(s, moves, c, 0);
    BufferInside(s.sessions[c]);
    AnswerIsRight(Run(s, moves), c, s.sessions[c].client.buf);
  }

  lemma BufferInside(x: S.State)
    requires S.Inv(x) && x.client.Waiting?
    ensures x.client.buf < |x.src|
  {
  }

  lemma BufferInsideLoops(x: S.State)
    requires S.Inv(x) && (x.client.Enqueuing? || x.client.Waiting?)
    ensures x.client.rep < x.reps && x.client.buf < |x.src|
  {
  }

  lemma AnswerIsRight(s: State, c: nat, b: nat)
    requires Formed(s) && Inv(s) && c < |s.sessions| && b < |s.sessions[c].src|
    requires s.sessions[c].client.LoopHead? && s.sessions[c].client.buf > b
    ensures S.MatchesReference(s.sessions[c], b)
  {
    assert S.Inv(s.sessions[c]);
    assert S.Answered(s.sessions[c], b);
  }

  /** A waiting client has a slot, and the scan is inside the bank. */
  lemma SlotOf(s: State, c: nat) returns (own: nat)
    requires Formed(s) && Inv(s) && c < |s.sessions| && s.sessions[c].client.Waiting?
    ensures HasSlot(s.bank, c, own) && R.InRound(s.bank)
  {
    assert Statuses(s)[c].active;
    own :| HasSlot(s.bank, c, own);
  }
}
