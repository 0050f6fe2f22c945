/** The whole life of a client can be lived to its end: from every reachable state in which its subscription has not
    failed there is a schedule, of the client and the server alone, that subscribes it, answers every request of its
    loops, checks the results and gives its slot back. */
module Completion {
  import opened Transpose
  import opened TransposeSystem
  import opened Membership
  import opened RequestHistory
  import B = ClientBank
  import P = Progress
  import Q = SeqLockQueue
  import R = RoundRobin
  import S = Session

  /** What is known of every reachable state. */
  ghost predicate Sound(s: State, cells: nat) {
    Formed(s) && Inv(s) && MembersInv(s) && HistoriesInv(s) && P.AtMost(s, cells)
  }

  lemma StepKeepsSound(s: State, move: Move, cells: nat)
    requires Sound(s, cells)
    ensures Sound(Apply(s, move), cells)
  {
    StepKeepsInv(s, move);
    StepKeepsMembers(s, move);
    MoveKeepsHistories(s, move);
    P.AtMostStays(s, move, cells);
  }

  lemma {:induction false} RunKeepsSound(s: State, moves: seq<Move>, cells: nat)
    requires Sound(s, cells)
    ensures Sound(Run(s, moves), cells) && |Run(s, moves).sessions| == |s.sessions|
    ensures |Run(s, moves).bank.bank| == |s.bank.bank|
  {
    if moves != [] {
      RunKeepsSound(s, moves[..|moves| - 1], cells);
      StepKeepsSound(Run(s, moves[..|moves| - 1]), moves[|moves| - 1], cells);
      P.SessionCount(Run(s, moves[..|moves| - 1]), moves[|moves| - 1]);
    }
  }

  // ---------- schedules for one client ----------

  /** A move of the server, or one of client c or for its messages. Its setup does not throw. */
  predicate ForClient(move: Move, c: nat) {
    match move
    case ClientMove(d) => d == c
    case SpuriousWake(_) => false
    case TakeSubscribe(d, fails) => d == c && !fails
    case TakeUnsubscribe(d) => d == c
    case _ => true
  }

  predicate AllForClient(moves: seq<Move>, c: nat) {
    forall k | 0 <= k < |moves| :: ForClient(moves[k], c)
  }

  ghost predicate Through(s: State, moves: seq<Move>, s': State, c: nat)
    requires Formed(s)
  {
    AllForClient(moves, c) && s' == Run(s, moves)
  }

  ghost predicate CanReach(s: State, s': State, c: nat)
    requires Formed(s)
  {
    exists moves :: Through(s, moves, s', c)
  }

  lemma ReachItself(s: State, c: nat)
    requires Formed(s)
    ensures CanReach(s, s, c)
  {
    assert Through(s, [], s, c);
  }

  lemma ReachByOne(s: State, move: Move, c: nat)
    requires Formed(s) && ForClient(move, c)
    ensures CanReach(s, Apply(s, move), c)
  {
    P.RunOne(s, move);
    assert Through(s, [move], Apply(s, move), c);
  }

  lemma ReachThrough(s: State, m: State, s': State, c: nat)
    requires Formed(s) && Formed(m) && CanReach(s, m, c) && CanReach(m, s', c)
    ensures CanReach(s, s', c)
  {
    var first :| Through(s, first, m, c);
    var second :| Through(m, second, s', c);
    P.RunOn(s, first, second);
    assert Through(s, first + second, s', c);
  }

  lemma ReachIsSound(s: State, s': State, c: nat, cells: nat)
    requires Sound(s, cells) && CanReach(s, s', c)
    ensures Sound(s', cells) && |s'.sessions| == |s.sessions| && |s'.bank.bank| == |s.bank.bank|
  {
    var moves :| Through(s, moves, s', c);
    RunKeepsSound(s, moves, cells);
  }

  // ---------- the handler comes to rest ----------

  predicate SetupFails(h: B.Handler) {
    (h.HReset? || h.HFill?) && h.fails
  }

  /** Where client c will stand when the handler is done with its message. */
  function AfterMessage(s: State, c: nat): S.Client
    requires c < |s.sessions|
  {
    if WorksFor(s.bank.h, c) && !SetupFails(s.bank.h) then S.LoopHead(0, 0) else s.sessions[c].client
  }

  /** A slot that is free and stays so whatever the handler is about to do with its message. */
  predicate FreeFor(bank: B.State, i: nat) {
    i < |bank.bank| && i !in bank.valid && i !in B.Claimed(bank.h)
  }

  ghost predicate Room(bank: B.State) {
    exists i: nat :: FreeFor(bank, i)
  }

  /** Nothing that matters to client c changes but the message being worked on. */
  ghost predicate SameFor(s: State, s': State, c: nat) {
    && c < |s.sessions| && c < |s'.sessions|
    && AfterMessage(s', c) == AfterMessage(s, c) && s'.sessions[c].leavePending == s.sessions[c].leavePending
    && (Room(s.bank) ==> Room(s'.bank))
  }

  /** Handler steps until it is between messages, not counting the turns of its waiting loops. */
  function HandlerLeft(h: B.Handler): nat {
    match h
    case HIdle => 0
    case HReset(_, _, _) => 7
    case HFill(_, _, _) => 6
    case HAddWait(_, _) => 5
    case HAddSet(_, _) => 4
    case HAddStore(_, _) => 3
    case HRespond(_) => 1
    case HRemWait(_) => 5
    case HRemClear(_) => 4
    case HRemStore(_) => 3
    case HRemWaitAgain(_) => 2
    case HUnsubscribe(_) => 1
  }

  predicate AtFlag(h: B.Handler) {
    h.HAddWait? || h.HRemWait? || h.HRemWaitAgain?
  }

  function FlagLeft(bank: B.State): nat {
    if bank.flag then B.StepsToLower(bank) else 0
  }

  lemma HandlerBankGoesOn(bank: B.State, c: nat)
    requires B.Inv(bank) && !bank.h.HIdle? && (AtFlag(bank.h) ==> !bank.flag)
    ensures var bank' := B.HandlerStep(bank);
      && HandlerLeft(bank'.h) < HandlerLeft(bank.h)
      && (Room(bank) ==> Room(bank'))
      && (WorksFor(bank'.h, c) ==> WorksFor(bank.h, c) && SetupFails(bank'.h) == SetupFails(bank.h))
      && (WorksFor(bank.h, c) && !WorksFor(bank'.h, c) ==> bank.h == B.HRespond(c) || SetupFails(bank.h))
  {
    var bank' := B.HandlerStep(bank);
    if Room(bank) {
      var i: nat :| FreeFor(bank, i);
      assert FreeFor(bank', i);
    }
  }

  /** What a handler step does to the bank and to one session. */
  lemma HandlerShape(s: State, c: nat)
    requires Formed(s) && c < |s.sessions|
    ensures var s' := Apply(s, HandlerMove);
      && s'.bank == B.HandlerStep(s.bank) && |s'.sessions| == |s.sessions|
      && s'.sessions[c] ==
           if s.bank.h == B.HRespond(c) then S.Apply(s.sessions[c], S.Responded) else s.sessions[c]
  {
  }

  lemma ResponseComes(x: S.State)
    requires S.Formed(x) && x.client.AwaitingResponse?
    ensures var x' := S.Apply(x, S.Responded); x'.client == S.LoopHead(0, 0) && x'.leavePending == x.leavePending
  {
  }

  lemma WaitsForResponse(s: State, c: nat, cells: nat)
    requires Sound(s, cells) && c < |s.sessions| && WorksFor(s.bank.h, c)
    ensures s.sessions[c].client.AwaitingResponse?
  {
    assert Phases(s)[c].Awaiting?;
  }

  /** A handler step that is not a turn of a waiting loop. */
  lemma HandlerStepOn(s: State, c: nat, cells: nat)
    requires Sound(s, cells) && c < |s.sessions| && !s.bank.h.HIdle? && (AtFlag(s.bank.h) ==> !s.bank.flag)
    ensures var s' := Apply(s, HandlerMove);
      SameFor(s, s', c) && HandlerLeft(s'.bank.h) < HandlerLeft(s.bank.h)
  {
    HandlerBankGoesOn(s.bank, c);
    HandlerShape(s, c);
    if s.bank.h == B.HRespond(c) {
      WaitsForResponse(s, c, cells);
      ResponseComes(s.sessions[c]);
    }
  }

  /** The flag comes nearer to being lowered by one step of the dispatcher or of a worker. */
  lemma FlagStep(s: State, cells: nat) returns (move: Move)
    requires Sound(s, cells) && s.bank.flag
    ensures move.DispatcherMove? || move.WorkerMove?
    ensures var s' := Apply(s, move);
      FlagLeft(s'.bank) < FlagLeft(s.bank) ||
      (FlagLeft(s'.bank) == FlagLeft(s.bank) && P.CurrentVisitLeft(s', cells) < P.CurrentVisitLeft(s, cells))
  {
    B.DispatcherGetsCloser(s.bank);
    if s.bank.d.DServe? {
      move := VisitStep(s, cells);
    } else {
      move := DispatcherMove;
      assert Apply(s, move).bank == B.DispatcherStep(s.bank);
    }
  }

  lemma VisitFacts(s: State, cells: nat)
    requires Sound(s, cells) && s.bank.d.DServe?
    ensures Serving(s.bank, |s.sessions|)
    ensures var x := s.sessions[Served(s.bank)];
      S.Inv(x) && !x.service.NoVisit? && x.plan.rows * x.plan.cols <= cells
  {
    assert Serving(s.bank, |s.sessions|) && Statuses(s)[Served(s.bank)].visited;
  }

  lemma WorkerShortens(s: State, t: nat, cells: nat)
    requires Formed(s) && Serving(s.bank, |s.sessions|) && S.Inv(s.sessions[Served(s.bank)])
    requires S.Apply(s.sessions[Served(s.bank)], S.WorkerMove(t)) != s.sessions[Served(s.bank)]
    ensures var s' := Apply(s, WorkerMove(t));
      s'.bank == s.bank && P.CurrentVisitLeft(s', cells) < P.CurrentVisitLeft(s, cells)
  {
    P.WorkerGoesOn(s.sessions[Served(s.bank)], t, cells);
  }

  lemma DispatcherShortens(s: State, cells: nat)
    requires Formed(s) && Serving(s.bank, |s.sessions|)
    requires var x := s.sessions[Served(s.bank)];
      S.Inv(x) && !x.service.NoVisit? && x.plan.rows * x.plan.cols <= cells && S.Apply(x, S.ServiceMove) != x
    ensures var s' := Apply(s, DispatcherMove);
      || s'.bank == B.DispatcherStep(s.bank)
      || (s'.bank == s.bank && P.CurrentVisitLeft(s', cells) < P.CurrentVisitLeft(s, cells))
  {
    R.ServiceShape(s);
    P.VisitGoesOn(s.sessions[Served(s.bank)], cells);
  }

  /** One step of the visit under way, or its end. */
  lemma VisitStep(s: State, cells: nat) returns (move: Move)
    requires Sound(s, cells) && s.bank.d.DServe?
    ensures move.DispatcherMove? || move.WorkerMove?
    ensures var s' := Apply(s, move);
      || s'.bank == B.DispatcherStep(s.bank)
      || (s'.bank == s.bank && P.CurrentVisitLeft(s', cells) < P.CurrentVisitLeft(s, cells))
  {
    VisitFacts(s, cells);
    var inside := P.VisitIsNotStuck(s.sessions[Served(s.bank)]);
    if inside.WorkerMove? {
      move := WorkerMove(inside.t);
      WorkerShortens(s, inside.t, cells);
    } else {
      move := DispatcherMove;
      DispatcherShortens(s, cells);
    }
  }

  lemma ServerBank(s: State, move: Move)
    requires Formed(s) && (move.DispatcherMove? || move.WorkerMove?)
    ensures var bank' := Apply(s, move).bank;
      && bank'.h == s.bank.h && bank'.valid == s.bank.valid && |bank'.bank| == |s.bank.bank|
  {
  }

  lemma RoomStays(bank: B.State, bank': B.State)
    requires bank'.h == bank.h && bank'.valid == bank.valid && |bank'.bank| == |bank.bank| && Room(bank)
    ensures Room(bank')
  {
    var i: nat :| FreeFor(bank, i);
    assert FreeFor(bank', i);
  }

  lemma LeaveStaysSent(x: S.State, inside: S.Move)
    requires S.Formed(x) && !inside.ClientMove? && !inside.LeaveHandled?
    ensures S.Apply(x, inside).leavePending == x.leavePending
  {
  }

  lemma ServerKeepsMessages(s: State, move: Move, c: nat)
    requires Formed(s) && c < |s.sessions| && (move.DispatcherMove? || move.WorkerMove?)
    ensures Apply(s, move).bank.h == s.bank.h && SameFor(s, Apply(s, move), c)
  {
    P.ServerLeavesClients(s, move, c);
    ServerBank(s, move);
    var inside := P.SessionStep(s, move, c);
    LeaveStaysSent(s.sessions[c], inside);
    if Room(s.bank) {
      RoomStays(s.bank, Apply(s, move).bank);
    }
  }

  lemma RestStep(s: State, c: nat, cells: nat) returns (move: Move)
    requires Sound(s, cells) && c < |s.sessions| && !s.bank.h.HIdle?
    ensures ForClient(move, c)
    ensures var s' := Apply(s, move);
      && Sound(s', cells) && SameFor(s, s', c)
      && (|| HandlerLeft(s'.bank.h) < HandlerLeft(s.bank.h)
          || (s'.bank.h == s.bank.h && FlagLeft(s'.bank) < FlagLeft(s.bank))
          || (s'.bank.h == s.bank.h && FlagLeft(s'.bank) == FlagLeft(s.bank) &&
                P.CurrentVisitLeft(s', cells) < P.CurrentVisitLeft(s, cells)))
  {
    if AtFlag(s.bank.h) && s.bank.flag {
      move := FlagStep(s, cells);
      ServerKeepsMessages(s, move, c);
    } else {
      move := HandlerMove;
      HandlerStepOn(s, c, cells);
    }
    StepKeepsSound(s, move, cells);
  }

  /** The handler finishes its message, and the response, if it was to be one, has come. */
  lemma {:induction false} HandlerRests(s: State, c: nat, cells: nat) returns (s': State)
    requires Sound(s, cells) && c < |s.sessions|
    ensures CanReach(s, s', c) && Sound(s', cells) && s'.bank.h.HIdle? && SameFor(s, s', c)
    decreases HandlerLeft(s.bank.h), FlagLeft(s.bank), P.CurrentVisitLeft(s, cells)
  {
    if s.bank.h.HIdle? {
      s' := s;
      ReachItself(s, c);
    } else {
      var move := RestStep(s, c, cells);
      s' := HandlerRests(Apply(s, move), c, cells);
      ReachByOne(s, move, c);
      ReachThrough(s, Apply(s, move), s', c);
    }
  }

  // ---------- the stages of a client's life ----------

  /** A client can be told apart by where it stands only if its request stays the same. */
  lemma ReachKeepsRequest(s: State, s': State, c: nat, cells: nat)
    requires Sound(s, cells) && CanReach(s, s', c) && c < |s.sessions|
    ensures c < |s'.sessions| && S.SameRequest(s.sessions[c], s'.sessions[c])
  {
    var moves :| Through(s, moves, s', c);
    RunKeepsAnswers(s, moves, c, 0);
  }

  lemma FirstFreeInRoom(bank: B.State)
    requires Room(bank)
    ensures B.FirstFree(bank.valid, |bank.bank|, 0).Some?
  {
    var i: nat :| FreeFor(bank, i);
    B.FirstFreeIsFirst(bank.valid, |bank.bank|, 0);
  }

  lemma AsksToSubscribe(s: State, c: nat, cells: nat) returns (s': State)
    requires Sound(s, cells) && c < |s.sessions| && s.bank.h.HIdle? && Room(s.bank) && PhaseOf(s.sessions[c]).Outside?
    ensures CanReach(s, s', c) && Sound(s', cells) && |s'.sessions| == |s.sessions|
    ensures s'.bank == s.bank && s'.sessions[c].client.Subscribing?
  {
    if s.sessions[c].client.Starting? {
      s' := Apply(s, ClientMove(c));
      ReachByOne(s, ClientMove(c), c);
      StepKeepsSound(s, ClientMove(c), cells);
    } else {
      s' := s;
      ReachItself(s, c);
    }
  }

  lemma SubscribeMessageShape(s: State, c: nat)
    requires Formed(s) && CanTakeSubscribe(s, c)
    ensures var s' := Apply(s, TakeSubscribe(c, false));
      && |s'.sessions| == |s.sessions| && s'.bank == B.Apply(s.bank, B.Subscribe(c, false))
      && s'.sessions[c] == S.Apply(s.sessions[c], S.SubscribeHandled)
  {
  }

  lemma MessageTaken(s: State, c: nat, cells: nat) returns (s': State)
    requires Sound(s, cells) && c < |s.sessions| && s.bank.h.HIdle? && Room(s.bank) && s.sessions[c].client.Subscribing?
    ensures CanReach(s, s', c) && Sound(s', cells) && |s'.sessions| == |s.sessions|
    ensures AfterMessage(s', c) == S.LoopHead(0, 0)
  {
    FirstFreeInRoom(s.bank);
    var move := TakeSubscribe(c, false);
    s' := Apply(s, move);
    SubscribeMessageShape(s, c);
    SubscribeKeepsMembers(s.bank, Phases(s), c, false);
    ReachByOne(s, move, c);
    StepKeepsSound(s, move, cells);
  }

  /** A client from outside is subscribed and answered. */
  lemma Subscribes(s: State, c: nat, cells: nat) returns (s': State)
    requires Sound(s, cells) && c < |s.sessions| && s.bank.h.HIdle? && Room(s.bank) && PhaseOf(s.sessions[c]).Outside?
    ensures CanReach(s, s', c) && Sound(s', cells) && |s'.sessions| == |s.sessions|
    ensures s'.bank.h.HIdle? && s'.sessions[c].client == S.LoopHead(0, 0)
  {
    var s1 := AsksToSubscribe(s, c, cells);
    var s2 := MessageTaken(s1, c, cells);
    s' := HandlerRests(s2, c, cells);
    ReachThrough(s, s1, s2, c);
    ReachThrough(s, s2, s', c);
    ReachIsSound(s, s', c, cells);
  }

  /** Steps of the client until its Enqueue returns. */
  function EnqueueLeft(x: S.State): nat {
    if x.queue.p.PIdle? then 6 else Q.ProducerRank(x.queue.p)
  }

  lemma EnqueueGoesOn(x: S.State)
    requires S.Inv(x) && x.client.Enqueuing?
    ensures var x' := S.Apply(x, S.ClientMove);
      || x'.client == S.Waiting(x.client.rep, x.client.buf)
      || (x'.client == x.client && EnqueueLeft(x') < EnqueueLeft(x))
  {
  }

  lemma {:induction false} Enqueues(s: State, c: nat, cells: nat) returns (s': State)
    requires Sound(s, cells) && c < |s.sessions| && s.sessions[c].client.Enqueuing?
    ensures CanReach(s, s', c) && Sound(s', cells) && |s'.sessions| == |s.sessions|
    ensures s'.sessions[c].client == S.Waiting(s.sessions[c].client.rep, s.sessions[c].client.buf)
    decreases EnqueueLeft(s.sessions[c])
  {
    assert S.Inv(s.sessions[c]);
    EnqueueGoesOn(s.sessions[c]);
    var s1 := Apply(s, ClientMove(c));
    StepKeepsSound(s, ClientMove(c), cells);
    ReachByOne(s, ClientMove(c), c);
    if s1.sessions[c].client.Waiting? {
      s' := s1;
    } else {
      s' := Enqueues(s1, c, cells);
      ReachThrough(s, s1, s', c);
    }
  }

  lemma WaitsOut(s: State, c: nat, cells: nat) returns (s': State)
    requires Sound(s, cells) && c < |s.sessions| && s.sessions[c].client.Waiting?
    ensures CanReach(s, s', c) && Sound(s', cells) && |s'.sessions| == |s.sessions|
    ensures s'.sessions[c].client == S.LoopHead(s.sessions[c].client.rep, s.sessions[c].client.buf + 1)
  {
    var own := P.SlotOf(s, c);
    var moves := P.FinishesTheWait(s, c, own, cells);
    s' := Run(s, moves);
    assert Through(s, moves, s', c);
    RunKeepsSound(s, moves, cells);
  }

  predicate Working(client: S.Client) {
    client.LoopHead? || client.Enqueuing? || client.Waiting?
  }

  /** What the two loops of the client have still before them. */
  function RoundsLeft(x: S.State): nat
    requires Working(x.client)
  {
    if x.client.rep <= x.reps then x.reps - x.client.rep else 0
  }

  function BuffersLeft(x: S.State): nat
    requires Working(x.client)
  {
    if x.client.buf <= |x.src| then |x.src| - x.client.buf else 0
  }

  function StageLeft(x: S.State): nat {
    if x.client.LoopHead? then 2 else if x.client.Enqueuing? then 1 else 0
  }

  lemma LoopGoesOn(x: S.State)
    requires S.Inv(x) && x.client.LoopHead?
    ensures var x' := S.Apply(x, S.ClientMove);
      && S.SameRequest(x, x')
      && (|| (x'.client.Leaving? && x'.leavePending)
          || x'.client == S.Enqueuing(x.client.rep, x.client.buf)
          || (x'.client == S.LoopHead(x.client.rep + 1, 0) && x.client.rep < x.reps))
  {
  }

  /** Fewer repetitions, or fewer buffers in this one, or fewer stages with this buffer. */
  predicate LessLeft(x': S.State, x: S.State)
    requires Working(x'.client) && Working(x.client)
  {
    || RoundsLeft(x') < RoundsLeft(x)
    || (RoundsLeft(x') == RoundsLeft(x) && BuffersLeft(x') < BuffersLeft(x))
    || (RoundsLeft(x') == RoundsLeft(x) && BuffersLeft(x') == BuffersLeft(x) && StageLeft(x') < StageLeft(x))
  }

  predicate HasLeft(x: S.State) {
    x.client.Leaving? && x.leavePending
  }

  lemma NextInLoop(s: State, c: nat, cells: nat) returns (s': State)
    requires Sound(s, cells) && c < |s.sessions| && s.sessions[c].client.LoopHead?
    ensures CanReach(s, s', c) && Sound(s', cells) && |s'.sessions| == |s.sessions|
    ensures var x, x' := s.sessions[c], s'.sessions[c];
      HasLeft(x') || (Working(x'.client) && LessLeft(x', x))
  {
    assert S.Inv(s.sessions[c]);
    LoopGoesOn(s.sessions[c]);
    s' := Apply(s, ClientMove(c));
    StepKeepsSound(s, ClientMove(c), cells);
    ReachByOne(s, ClientMove(c), c);
  }

  lemma NextInRequest(s: State, c: nat, cells: nat) returns (s': State)
    requires Sound(s, cells) && c < |s.sessions| && (s.sessions[c].client.Enqueuing? || s.sessions[c].client.Waiting?)
    ensures CanReach(s, s', c) && Sound(s', cells) && |s'.sessions| == |s.sessions|
    ensures Working(s'.sessions[c].client) && LessLeft(s'.sessions[c], s.sessions[c])
  {
    P.BufferInsideLoops(s.sessions[c]);
    if s.sessions[c].client.Enqueuing? {
      s' := Enqueues(s, c, cells);
    } else {
      s' := WaitsOut(s, c, cells);
    }
    ReachKeepsRequest(s, s', c, cells);
  }

  /** The next stage of the loops. */
  lemma NextStage(s: State, c: nat, cells: nat) returns (s': State)
    requires Sound(s, cells) && c < |s.sessions| && Working(s.sessions[c].client)
    ensures CanReach(s, s', c) && Sound(s', cells) && |s'.sessions| == |s.sessions|
    ensures var x, x' := s.sessions[c], s'.sessions[c];
      HasLeft(x') || (Working(x'.client) && LessLeft(x', x))
  {
    if s.sessions[c].client.LoopHead? {
      s' := NextInLoop(s, c, cells);
    } else {
      s' := NextInRequest(s, c, cells);
    }
  }

  /** The client's loops come to their end. */
  lemma {:induction false} Works(s: State, c: nat, cells: nat) returns (s': State)
    requires Sound(s, cells) && c < |s.sessions| && Working(s.sessions[c].client)
    ensures CanReach(s, s', c) && Sound(s', cells) && |s'.sessions| == |s.sessions|
    ensures HasLeft(s'.sessions[c])
    decreases RoundsLeft(s.sessions[c]), BuffersLeft(s.sessions[c]), StageLeft(s.sessions[c])
  {
    var s1 := NextStage(s, c, cells);
    if HasLeft(s1.sessions[c]) {
      s' := s1;
    } else {
      s' := Works(s1, c, cells);
      ReachThrough(s, s1, s', c);
    }
  }

  // ---------- the end ----------

  predicate AtTheEnd(client: S.Client) {
    client.Leaving? || client.Checked?
  }

  lemma NoMessageFor(s: State, c: nat, cells: nat)
    requires Sound(s, cells) && c < |s.sessions| && !s.sessions[c].client.AwaitingResponse?
    ensures !WorksFor(s.bank.h, c) && AfterMessage(s, c) == s.sessions[c].client
  {
  }

  /** The handler rests while client c stays where it is. */
  lemma RestsAround(s: State, c: nat, cells: nat) returns (s': State)
    requires Sound(s, cells) && c < |s.sessions| && !s.sessions[c].client.AwaitingResponse?
    ensures CanReach(s, s', c) && Sound(s', cells) && |s'.sessions| == |s.sessions| && s'.bank.h.HIdle?
    ensures s'.sessions[c].client == s.sessions[c].client && s'.sessions[c].leavePending == s.sessions[c].leavePending
    ensures Room(s.bank) ==> Room(s'.bank)
  {
    NoMessageFor(s, c, cells);
    s' := HandlerRests(s, c, cells);
    ReachIsSound(s, s', c, cells);
  }

  lemma LeaveMessageShape(s: State, c: nat)
    requires Formed(s) && CanTakeUnsubscribe(s, c)
    ensures var s' := Apply(s, TakeUnsubscribe(c));
      |s'.sessions| == |s.sessions| && s'.sessions[c] == S.Apply(s.sessions[c], S.LeaveHandled)
  {
  }

  lemma LeaveIsHandled(x: S.State)
    requires S.Formed(x)
    ensures var x' := S.Apply(x, S.LeaveHandled); x'.client == x.client && !x'.leavePending
  {
  }

  lemma LeaveTaken(s: State, c: nat, cells: nat) returns (s': State)
    requires Sound(s, cells) && c < |s.sessions| && s.bank.h.HIdle?
    requires AtTheEnd(s.sessions[c].client) && s.sessions[c].leavePending
    ensures CanReach(s, s', c) && Sound(s', cells) && |s'.sessions| == |s.sessions|
    ensures s'.sessions[c].client == s.sessions[c].client && !s'.sessions[c].leavePending
  {
    s' := Apply(s, TakeUnsubscribe(c));
    LeaveMessageShape(s, c);
    LeaveIsHandled(s.sessions[c]);
    StepKeepsSound(s, TakeUnsubscribe(c), cells);
    ReachByOne(s, TakeUnsubscribe(c), c);
  }

  /** The leave message, if there is one, is handled. */
  lemma Unsubscribes(s: State, c: nat, cells: nat) returns (s': State)
    requires Sound(s, cells) && c < |s.sessions| && AtTheEnd(s.sessions[c].client)
    ensures CanReach(s, s', c) && Sound(s', cells) && |s'.sessions| == |s.sessions| && s'.bank.h.HIdle?
    ensures s'.sessions[c].client == s.sessions[c].client && !s'.sessions[c].leavePending
  {
    var s1 := RestsAround(s, c, cells);
    if s1.sessions[c].leavePending {
      var s2 := LeaveTaken(s1, c, cells);
      s' := RestsAround(s2, c, cells);
      ReachThrough(s1, s2, s', c);
      ReachThrough(s, s1, s', c);
    } else {
      s' := s1;
    }
  }

  lemma Checks(s: State, c: nat, cells: nat) returns (s': State)
    requires Sound(s, cells) && c < |s.sessions| && AtTheEnd(s.sessions[c].client)
    ensures CanReach(s, s', c) && Sound(s', cells) && |s'.sessions| == |s.sessions| && s'.bank == s.bank
    ensures s'.sessions[c].client.Checked? && s'.sessions[c].leavePending == s.sessions[c].leavePending
  {
    if s.sessions[c].client.Leaving? {
      s' := Apply(s, ClientMove(c));
      ReachByOne(s, ClientMove(c), c);
      StepKeepsSound(s, ClientMove(c), cells);
    } else {
      s' := s;
      ReachItself(s, c);
    }
  }

  lemma Finishes(s: State, c: nat, cells: nat) returns (s': State)
    requires Sound(s, cells) && c < |s.sessions| && AtTheEnd(s.sessions[c].client)
    ensures CanReach(s, s', c) && Sound(s', cells) && |s'.sessions| == |s.sessions| && s'.bank.h.HIdle?
    ensures s'.sessions[c].client.Checked? && !s'.sessions[c].leavePending
  {
    var s1 := Unsubscribes(s, c, cells);
    s' := Checks(s1, c, cells);
    ReachThrough(s, s1, s', c);
  }

  /** The client's subscribe message was taken, but no response is on its way. */
  predicate Lost(s: State, c: nat)
    requires c < |s.sessions|
  {
    s.sessions[c].client.AwaitingResponse? && (WorksFor(s.bank.h, c) ==> SetupFails(s.bank.h))
  }

  /** The client's subscription has not failed, and if it is still to come there is a slot for it. */
  ghost predicate Hopeful(s: State, c: nat)
    requires c < |s.sessions|
  {
    && !Lost(s, c)
    && (PhaseOf(s.sessions[c]).Outside? ==> Room(s.bank))
  }

  /** Up to the client's loops, or past them. */
  lemma GetsGoing(s: State, c: nat, cells: nat) returns (s': State)
    requires Sound(s, cells) && c < |s.sessions| && Hopeful(s, c)
    ensures CanReach(s, s', c) && Sound(s', cells) && |s'.sessions| == |s.sessions|
    ensures Working(s'.sessions[c].client) || AtTheEnd(s'.sessions[c].client)
  {
    if s.sessions[c].client.AwaitingResponse? {
      s' := HandlerRests(s, c, cells);
      ReachIsSound(s, s', c, cells);
    } else if PhaseOf(s.sessions[c]).Outside? {
      var s1 := RestsAround(s, c, cells);
      s' := Subscribes(s1, c, cells);
      ReachThrough(s, s1, s', c);
    } else {
      s' := s;
      ReachItself(s, c);
    }
  }

  lemma LivesToTheEnd(s: State, c: nat, cells: nat) returns (s': State)
    requires Sound(s, cells) && c < |s.sessions| && Hopeful(s, c)
    ensures CanReach(s, s', c) && Sound(s', cells) && |s'.sessions| == |s.sessions| && s'.bank.h.HIdle?
    ensures s'.sessions[c].client.Checked? && !s'.sessions[c].leavePending
  {
    var s1 := GetsGoing(s, c, cells);
    if Working(s1.sessions[c].client) {
      var s2 := Works(s1, c, cells);
      s' := Finishes(s2, c, cells);
      ReachThrough(s1, s2, s', c);
    } else {
      s' := Finishes(s1, c, cells);
    }
    ReachThrough(s, s1, s', c);
  }

  /** What a finished client has behind it: all its requests made and taken in order, every result the transpose of its
      source if anything was asked for at all, a verdict that says so, and no slot any more. */
  ghost predicate Done(s: State, c: nat, setup: Setup) {
    && c < |s.sessions| && s.bank.h.HIdle? && !InBank(s.bank, c) && !PlacedIn(s.bank, c)
    && var x := s.sessions[c];
    && x.client.Checked? && x.src == setup.src && x.reps == setup.reps && |x.dst| == |setup.src|
    && |x.queue.enqueued| == setup.reps * |setup.src| && x.queue.dequeued == x.queue.enqueued
    && (forall i: nat | i < |x.queue.enqueued| :: |setup.src| > 0 && x.queue.enqueued[i] == i % |setup.src|)
    && (setup.reps > 0 ==> !x.client.errorFound)
    && (setup.reps > 0 ==>
          forall b | 0 <= b < |setup.src| :: IsTranspose(setup.src[b], x.dst[b], setup.plan.rows, setup.plan.cols))
  }

  lemma AllAnswered(x: S.State)
    requires S.Inv(x) && x.client.Checked? && x.reps > 0
    ensures !x.client.errorFound
    ensures forall b | 0 <= b < |x.src| :: IsTranspose(x.src[b], x.dst[b], x.plan.rows, x.plan.cols)
  {
    S.Verdict(x);
    forall b: nat | b < |x.src|
      ensures IsTranspose(x.src[b], x.dst[b], x.plan.rows, x.plan.cols)
    {
      assert S.Answered(x, b);
      assert S.MatchesReference(x, b);
      MatchingIsTransposing(x.src[b], x.dst[b], x.plan.rows, x.plan.cols);
    }
  }

  lemma DoneIsWellDone(s: State, c: nat, cells: nat, setup: Setup)
    requires Sound(s, cells) && c < |s.sessions| && s.bank.h.HIdle?
    requires s.sessions[c].client.Checked? && !s.sessions[c].leavePending
    requires var x := s.sessions[c]; x.plan == setup.plan && x.src == setup.src && x.reps == setup.reps
    ensures Done(s, c, setup)
  {
    var x := s.sessions[c];
    assert S.Inv(x);
    MembersAtRest(s.bank, Phases(s), c);
    HistoryIsTheLoops(x);
    if x.reps > 0 {
      AllAnswered(x);
    }
  }

  /** Every reachable state, every client: if its subscription has not failed, and a slot is free for it if it has none
      yet, then some schedule of this client and the server alone finishes it: subscribed, answered in every buffer,
      checked without an error, and unsubscribed. */
  lemma EveryClientCanFinish(slots: nat, capacity: nat, setups: seq<Setup>, cells: nat, before: seq<Move>,
                             s: State, c: nat) returns (moves: seq<Move>)
    requires GoodSetups(setups, capacity) && P.SetupsAtMost(setups, cells) && c < |setups|
    requires s == Run(Init(slots, capacity, setups), before)
    requires c < |s.sessions| && Hopeful(s, c)
    ensures AllForClient(moves, c) && Done(Run(s, moves), c, setups[c])
  {
    ReachableIsSound(slots, capacity, setups, cells, before);
    RunKeepsAnswers(Init(slots, capacity, setups), before, c, 0);
    moves := FinishesFromHere(s, c, cells, setups[c]);
  }

  lemma FinishesFromHere(s: State, c: nat, cells: nat, setup: Setup) returns (moves: seq<Move>)
    requires Sound(s, cells) && c < |s.sessions| && Hopeful(s, c)
    requires var x := s.sessions[c]; x.plan == setup.plan && x.src == setup.src && x.reps == setup.reps
    ensures AllForClient(moves, c) && Done(Run(s, moves), c, setup)
  {
    var s' := LivesToTheEnd(s, c, cells);
    moves :| Through(s, moves, s', c);
    ReachKeepsRequest(s, s', c, cells);
    DoneIsWellDone(s', c, cells, setup);
  }

  lemma ReachableIsSound(slots: nat, capacity: nat, setups: seq<Setup>, cells: nat, before: seq<Move>)
    requires GoodSetups(setups, capacity) && P.SetupsAtMost(setups, cells)
    ensures Inv(Init(slots, capacity, setups)) && |Init(slots, capacity, setups).sessions| == |setups|
    ensures Sound(Run(Init(slots, capacity, setups), before), cells)
  {
    var init := Init(slots, capacity, setups);
    InitInv(slots, capacity, setups);
    InitMembers(slots, capacity, setups);
    P.InitAtMost(slots, capacity, setups, cells);
    assert HistoriesInv(init);
    RunKeepsSound(init, before, cells);
  }

  /** From the start, with at least one slot, every client can be finished. */
  lemma EveryClientCanFinishFromTheStart(slots: nat, capacity: nat, setups: seq<Setup>, cells: nat, c: nat)
    returns (moves: seq<Move>)
    requires GoodSetups(setups, capacity) && P.SetupsAtMost(setups, cells) && c < |setups| && slots > 0
    ensures AllForClient(moves, c) && Done(Run(Init(slots, capacity, setups), moves), c, setups[c])
  {
    var init := Init(slots, capacity, setups);
    assert FreeFor(init.bank, 0);
    moves := EveryClientCanFinish(slots, capacity, setups, cells, [], init, c);
  }

  // ---------- the one way to fail ----------

  lemma LostBank(bank: B.State, move: Move, c: nat)
    requires WorksFor(bank.h, c) ==> SetupFails(bank.h)
    ensures var h' := B.HandlerStep(bank).h; WorksFor(h', c) ==> SetupFails(h')
    ensures bank.h != B.HRespond(c)
  {
  }

  /** The client waits in its loop for the response; nothing but that ends it. */
  lemma StillAwaiting(x: S.State, inside: S.Move)
    requires S.Formed(x) && x.client.AwaitingResponse? && !inside.Responded?
    ensures S.Apply(x, inside).client.AwaitingResponse?
  {
  }

  lemma LostStaysLost(s: State, move: Move, c: nat)
    requires Formed(s) && c < |s.sessions| && Lost(s, c)
    ensures c < |Apply(s, move).sessions| && Lost(Apply(s, move), c)
  {
    LostBank(s.bank, move, c);
    if move.HandlerMove? {
      HandlerShape(s, c);
    } else {
      var inside := P.SessionStep(s, move, c);
      StillAwaiting(s.sessions[c], inside);
      OthersMessage(s, move, c);
    }
  }

  lemma OthersMessage(s: State, move: Move, c: nat)
    requires Formed(s) && c < |s.sessions| && Lost(s, c) && !move.HandlerMove?
    ensures var h' := Apply(s, move).bank.h; WorksFor(h', c) ==> SetupFails(h')
  {
  }

  /** A subscribe whose setup throws is never answered: in no run does that client get past waiting for its response. */
  lemma {:induction false} FailedSubscribeIsForever(s: State, moves: seq<Move>, c: nat)
    requires Formed(s) && c < |s.sessions| && Lost(s, c)
    ensures c < |Run(s, moves).sessions| && Run(s, moves).sessions[c].client.AwaitingResponse?
    ensures Lost(Run(s, moves), c)
  {
    if moves != [] {
      FailedSubscribeIsForever(s, moves[..|moves| - 1], c);
      LostStaysLost(Run(s, moves[..|moves| - 1]), moves[|moves| - 1], c);
    }
  }
}
