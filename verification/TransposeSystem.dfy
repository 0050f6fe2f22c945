/** The whole system: any number of clients, the handler, the dispatcher and its workers, under every schedule of their
    single steps. The dispatcher reaches a client's queue, futex and matrices only through the slot it serves, by the
    id that stands in that slot at the moment of each access. */
module TransposeSystem {
  import opened Transpose
  import opened TiledTranspose
  import Masks
  import Q = SeqLockQueue
  import F = Futex
  import B = ClientBank
  import S = Session

  datatype State = State(bank: B.State, sessions: seq<S.State>)

  datatype Move =
    | ClientMove(c: nat)
    | SpuriousWake(c: nat)
    | TakeSubscribe(c: nat, fails: bool)   // the handler takes c's subscribe message; its setup may throw
    | TakeUnsubscribe(c: nat)
    | HandlerMove
    | DispatcherMove
    | WorkerMove(t: nat)

  /** How a client sets itself up before it subscribes. */
  datatype Setup = Setup(plan: Plan, reps: nat, src: seq<S.Matrix>)

  ghost predicate GoodSetups(setups: seq<Setup>, capacity: nat) {
    forall c | 0 <= c < |setups| :: S.GoodSetup(setups[c].plan, setups[c].src, capacity)
  }

  function Init(slots: nat, capacity: nat, setups: seq<Setup>): State {
    State(B.Init(slots),
          seq(|setups|, c requires 0 <= c < |setups| =>
            S.Init(setups[c].plan, setups[c].reps, setups[c].src, capacity)))
  }

  predicate Formed(s: State) {
    forall c | 0 <= c < |s.sessions| :: S.Formed(s.sessions[c])
  }

  // ---------- the steps ----------

  function Touch(s: State, c: nat, move: S.Move): (s': State)
    requires Formed(s)
    ensures Formed(s')
  {
    if c < |s.sessions| then s.(sessions := s.sessions[c := S.Apply(s.sessions[c], move)]) else s
  }

  /** A subscribe that finds neither its client nor a free slot has no defined outcome. */
  predicate CanTakeSubscribe(s: State, c: nat) {
    && c < |s.sessions| && s.sessions[c].client.Subscribing? && s.bank.h.HIdle?
    && (B.FindSubscribed(s.bank.bank, c, 0).Some? || B.FirstFree(s.bank.valid, |s.bank.bank|, 0).Some?)
  }

  predicate CanTakeUnsubscribe(s: State, c: nat) {
    c < |s.sessions| && s.sessions[c].leavePending && s.bank.h.HIdle?
  }

  function HandlerStep(s: State): (s': State)
    requires Formed(s)
    ensures Formed(s')
  {
    var s1 := s.(bank := B.HandlerStep(s.bank));
    if s.bank.h.HRespond? then Touch(s1, s.bank.h.id, S.Responded) else s1
  }

  /** The client whose id stands in slot i. */
  function Occupant(bank: B.State, i: nat): nat
    requires i < |bank.bank|
  {
    bank.bank[i].id
  }

  /** The dispatcher serves a slot of one of the first `clients` clients. */
  predicate Serving(bank: B.State, clients: nat) {
    bank.d.DServe? && bank.d.i < |bank.bank| && Occupant(bank, bank.d.i) < clients
  }

  function Served(bank: B.State): nat
    requires bank.d.DServe? && bank.d.i < |bank.bank|
  {
    Occupant(bank, bank.d.i)
  }

  function DispatcherStep(s: State): (s': State)
    requires Formed(s)
    ensures Formed(s')
  {
    if Serving(s.bank, |s.sessions|) then
      var s1 := Touch(s, Served(s.bank), S.ServiceMove);
      if s1.sessions[Served(s.bank)].service.NoVisit? then s1.(bank := B.DispatcherStep(s.bank)) else s1
    else
      var s1 := s.(bank := B.DispatcherStep(s.bank));
      if Serving(s1.bank, |s.sessions|) then Touch(s1, Served(s1.bank), S.BeginVisit) else s1
  }

  function Apply(s: State, move: Move): (s': State)
    requires Formed(s)
    ensures Formed(s')
  {
    match move
    case ClientMove(c) => Touch(s, c, S.ClientMove)
    case SpuriousWake(c) => Touch(s, c, S.SpuriousWake)
    case TakeSubscribe(c, fails) =>
      if CanTakeSubscribe(s, c)
      then Touch(s.(bank := B.Apply(s.bank, B.Subscribe(c, fails))), c, S.SubscribeHandled) else s
    case TakeUnsubscribe(c) =>
      if CanTakeUnsubscribe(s, c)
      then Touch(s.(bank := B.Apply(s.bank, B.Unsubscribe(c))), c, S.LeaveHandled) else s
    case HandlerMove => HandlerStep(s)
    case DispatcherMove => DispatcherStep(s)
    case WorkerMove(t) =>
      if Serving(s.bank, |s.sessions|) then Touch(s, Served(s.bank), S.WorkerMove(t)) else s
  }

  function Run(s: State, moves: seq<Move>): (s': State)
    requires Formed(s)
    ensures Formed(s')
  {
    if moves == [] then s else Apply(Run(s, moves[..|moves| - 1]), moves[|moves| - 1])
  }

  // ---------- the invariant ----------

  /** What the bank depends on of a session. */
  datatype Status = Status(active: bool, awaiting: bool, visited: bool)

  /** Active: between the answer to the client's subscribe and its unsubscribe. */
  function StatusOf(x: S.State): Status {
    Status(x.client.LoopHead? || x.client.Enqueuing? || x.client.Waiting?,
           x.client.AwaitingResponse?,
           !x.service.NoVisit?)
  }

  function Statuses(s: State): (st: seq<Status>)
    ensures |st| == |s.sessions| && forall c | 0 <= c < |st| :: st[c] == StatusOf(s.sessions[c])
  {
    seq(|s.sessions|, c requires 0 <= c < |s.sessions| => StatusOf(s.sessions[c]))
  }

  /** A session is being visited exactly while its slot is served. */
  ghost predicate VisitInv(bank: B.State, st: seq<Status>) {
    && (bank.d.DServe? ==> Serving(bank, |st|))
    && (forall c: nat | c < |st| :: st[c].visited <==> Serving(bank, |st|) && Served(bank) == c)
  }

  predicate Adding(h: B.Handler) {
    h.HReset? || h.HFill? || h.HAddWait? || h.HAddSet? || h.HAddStore? || h.HRespond?
  }

  predicate Removing(h: B.Handler) {
    h.HRemWait? || h.HRemClear? || h.HRemStore? || h.HRemWaitAgain? || h.HUnsubscribe?
  }

  /** Every slot the dispatcher may visit belongs to a client; so does every message the handler works on. */
  ghost predicate IdsInv(bank: B.State, st: seq<Status>) {
    && (forall i: nat | i in bank.valid || i in bank.local :: i < |bank.bank| && Occupant(bank, i) < |st|)
    && (Adding(bank.h) ==> bank.h.id < |st| && st[bank.h.id].awaiting && !st[bank.h.id].active)
  }

  /** Slot i is the valid slot of client c. */
  predicate HasSlot(bank: B.State, c: nat, i: nat) {
    i in bank.valid && i < |bank.bank| && Occupant(bank, i) == c
  }

  /** Active clients keep their valid slot: only a client that has left is withdrawn. */
  ghost predicate PlacesInv(bank: B.State, st: seq<Status>) {
    && (forall c: nat | c < |st| && (st[c].active || bank.h == B.HRespond(c)) :: exists i: nat :: HasSlot(bank, c, i))
    && (Removing(bank.h) && bank.h.slot < |bank.bank| && Occupant(bank, bank.h.slot) < |st| ==>
          !st[Occupant(bank, bank.h.slot)].active)
  }

  ghost predicate LinkInv(bank: B.State, st: seq<Status>) {
    VisitInv(bank, st) && IdsInv(bank, st) && PlacesInv(bank, st)
  }

  ghost predicate SessionsInv(s: State) {
    forall c | 0 <= c < |s.sessions| :: S.Inv(s.sessions[c])
  }

  ghost predicate Inv(s: State) {
    B.Inv(s.bank) && SessionsInv(s) && LinkInv(s.bank, Statuses(s))
  }

  lemma InitInv(slots: nat, capacity: nat, setups: seq<Setup>)
    requires GoodSetups(setups, capacity)
    ensures Inv(Init(slots, capacity, setups))
  {
    B.InitInv(slots);
    forall c: nat | c < |setups|
      ensures S.Inv(Init(slots, capacity, setups).sessions[c])
    {
      S.InitInv(setups[c].plan, setups[c].reps, setups[c].src, capacity);
    }
  }

  // ---------- every step keeps the link between bank and sessions ----------

  /** If every valid slot stays valid with its occupant, every client keeps its place. */
  lemma PlacesStay(bank: B.State, bank': B.State, c: nat)
    requires exists i: nat :: HasSlot(bank, c, i)
    requires |bank'.bank| == |bank.bank|
    requires forall i: nat | HasSlot(bank, c, i) :: HasSlot(bank', c, i)
    ensures exists i: nat :: HasSlot(bank', c, i)
  {
    var i: nat :| HasSlot(bank, c, i);
    assert HasSlot(bank', c, i);
  }

  lemma LinkTouch(bank: B.State, st: seq<Status>, c: nat, status: Status)
    requires LinkInv(bank, st) && c < |st|
    requires status.visited == st[c].visited && (st[c].awaiting ==> status.awaiting)
    requires status.active ==> st[c].active
    ensures LinkInv(bank, st[c := status])
  {
  }

  lemma LinkTakeSubscribe(bank: B.State, st: seq<Status>, c: nat, fails: bool)
    requires B.Inv(bank) && LinkInv(bank, st) && c < |st| && bank.h.HIdle? && !st[c].active
    ensures LinkInv(B.Apply(bank, B.Subscribe(c, fails)), st[c := st[c].(awaiting := true)])
  {
    var bank', st' := B.Apply(bank, B.Subscribe(c, fails)), st[c := st[c].(awaiting := true)];
    forall d: nat | d < |st'| && st'[d].active
      ensures exists i: nat :: HasSlot(bank', d, i)
    {
      PlacesStay(bank, bank', d);
    }
  }

  lemma LinkTakeUnsubscribe(bank: B.State, st: seq<Status>, c: nat)
    requires B.Inv(bank) && LinkInv(bank, st) && c < |st| && bank.h.HIdle? && !st[c].active
    ensures LinkInv(B.Apply(bank, B.Unsubscribe(c)), st)
  {
    var bank' := B.Apply(bank, B.Unsubscribe(c));
    B.FindSubscribedIsFirst(bank.bank, c, 0);
    if B.FindSubscribed(bank.bank, c, 0).Some? {
      B.RemovalFindsTheLiveSlot(bank, c);
    }
    forall d: nat | d < |st| && st[d].active
      ensures exists i: nat :: HasSlot(bank', d, i)
    {
      PlacesStay(bank, bank', d);
    }
  }

  /** The handler never disturbs a slot that is valid or held by the dispatcher. */
  lemma HandlerKeepsOccupants(bank: B.State)
    requires B.OwnershipInv(bank) && B.HandshakeInv(bank)
    ensures forall i: nat | i < |bank.bank| && (i in bank.valid || i in bank.local) ::
      B.HandlerStep(bank).bank[i].id == bank.bank[i].id
  {
  }

  lemma LinkHandlerVisits(bank: B.State, st: seq<Status>)
    requires B.OwnershipInv(bank) && B.HandshakeInv(bank) && VisitInv(bank, st)
    ensures VisitInv(B.HandlerStep(bank), st)
  {
    HandlerKeepsOccupants(bank);
  }

  lemma LinkHandlerIds(bank: B.State, st: seq<Status>)
    requires B.Inv(bank) && IdsInv(bank, st) && !bank.h.HRespond?
    ensures IdsInv(B.HandlerStep(bank), st)
  {
    HandlerKeepsOccupants(bank);
  }

  lemma LinkHandlerPlaces(bank: B.State, st: seq<Status>)
    requires B.Inv(bank) && PlacesInv(bank, st) && IdsInv(bank, st) && !bank.h.HRespond?
    ensures PlacesInv(B.HandlerStep(bank), st)
  {
    var bank' := B.HandlerStep(bank);
    HandlerKeepsOccupants(bank);
    forall d: nat | d < |st| && (st[d].active || bank'.h == B.HRespond(d))
      ensures exists i: nat :: HasSlot(bank', d, i)
    {
      if bank'.h == B.HRespond(d) {
        assert HasSlot(bank', d, bank.h.slot);
      } else {
        PlacesStay(bank, bank', d);
      }
    }
  }

  lemma LinkRespond(bank: B.State, st: seq<Status>, status: Status)
    requires LinkInv(bank, st) && bank.h.HRespond? && bank.h.id < |st|
    requires status.visited == st[bank.h.id].visited
    ensures LinkInv(B.HandlerStep(bank), st[bank.h.id := status])
  {
    var bank', st' := B.HandlerStep(bank), st[bank.h.id := status];
    forall d: nat | d < |st'| && st'[d].active
      ensures exists i: nat :: HasSlot(bank', d, i)
    {
      PlacesStay(bank, bank', d);
    }
  }

  /** The dispatcher's own steps: a visit begins on entering DServe and is over on leaving it. */
  lemma LinkDispatcher(bank: B.State, st: seq<Status>, st': seq<Status>)
    requires B.Inv(bank) && LinkInv(bank, st) && |st'| == |st|
    requires forall c | 0 <= c < |st| :: st'[c].active == st[c].active && st'[c].awaiting == st[c].awaiting
    requires var bank' := B.DispatcherStep(bank);
      forall c: nat | c < |st| :: st'[c].visited <==> bank'.d.DServe? && bank'.d.i < |bank.bank| && Served(bank') == c
    ensures LinkInv(B.DispatcherStep(bank), st')
  {
    var bank' := B.DispatcherStep(bank);
    forall d: nat | d < |st'| && (st'[d].active || bank'.h == B.HRespond(d))
      ensures exists i: nat :: HasSlot(bank', d, i)
    {
      PlacesStay(bank, bank', d);
    }
  }

  lemma LinkServiceEnds(bank: B.State, st: seq<Status>)
    requires B.Inv(bank) && LinkInv(bank, st) && bank.d.DServe?
    ensures Serving(bank, |st|)
    ensures LinkInv(B.DispatcherStep(bank), st[Served(bank) := st[Served(bank)].(visited := false)])
  {
    LinkDispatcher(bank, st, st[Served(bank) := st[Served(bank)].(visited := false)]);
  }

  lemma LinkRound(bank: B.State, st: seq<Status>)
    requires B.Inv(bank) && LinkInv(bank, st) && !bank.d.DServe?
    ensures var bank' := B.DispatcherStep(bank);
      if bank'.d.DServe? then
        Serving(bank', |st|) && LinkInv(bank', st[Served(bank') := st[Served(bank')].(visited := true)])
      else LinkInv(bank', st)
  {
    var bank' := B.DispatcherStep(bank);
    if bank'.d.DServe? {
      LinkDispatcher(bank, st, st[Served(bank') := st[Served(bank')].(visited := true)]);
    } else {
      LinkDispatcher(bank, st, st);
    }
  }

  // ---------- every step keeps the invariant ----------

  /** How a move inside a session changes what the bank depends on. */
  lemma StatusAfter(x: S.State, move: S.Move)
    requires S.Formed(x) && S.ControlInv(x)
    ensures var before, after := StatusOf(x), StatusOf(S.Apply(x, move));
      match move
      case ClientMove => after.visited == before.visited && (before.awaiting ==> after.awaiting)
                         && (after.active ==> before.active)
      case SpuriousWake => after == before
      case SubscribeHandled => x.client.Subscribing? ==> after == before.(awaiting := true)
      case Responded => after.visited == before.visited
      case LeaveHandled => after == before
      case BeginVisit => after == before.(visited := true)
      case ServiceMove => after.active == before.active && after.awaiting == before.awaiting
                          && (after.visited ==> before.visited)
      case WorkerMove(_) => after == before
  {
  }

  lemma TouchKeepsSessions(s: State, c: nat, move: S.Move)
    requires Formed(s) && SessionsInv(s) && c < |s.sessions|
    ensures SessionsInv(Touch(s, c, move))
    ensures Statuses(Touch(s, c, move)) == Statuses(s)[c := StatusOf(S.Apply(s.sessions[c], move))]
    ensures S.ControlInv(s.sessions[c])
  {
    S.StepKeepsInv(s.sessions[c], move);
  }

  lemma QuietTouchKeepsInv(s: State, c: nat, move: S.Move)
    requires Formed(s) && Inv(s) && c < |s.sessions|
    requires move.ClientMove? || move.SpuriousWake? || move.WorkerMove?
    ensures Inv(Touch(s, c, move))
  {
    TouchKeepsSessions(s, c, move);
    StatusAfter(s.sessions[c], move);
    LinkTouch(s.bank, Statuses(s), c, StatusOf(S.Apply(s.sessions[c], move)));
  }

  lemma TakeSubscribeKeepsInv(s: State, c: nat, fails: bool)
    requires Formed(s) && Inv(s) && CanTakeSubscribe(s, c)
    ensures Inv(Apply(s, TakeSubscribe(c, fails)))
  {
    B.StepKeepsInv(s.bank, B.Subscribe(c, fails));
    TouchKeepsSessions(s.(bank := B.Apply(s.bank, B.Subscribe(c, fails))), c, S.SubscribeHandled);
    StatusAfter(s.sessions[c], S.SubscribeHandled);
    LinkTakeSubscribe(s.bank, Statuses(s), c, fails);
    assert Statuses(s.(bank := B.Apply(s.bank, B.Subscribe(c, fails)))) == Statuses(s);
  }

  lemma TakeUnsubscribeKeepsInv(s: State, c: nat)
    requires Formed(s) && Inv(s) && CanTakeUnsubscribe(s, c)
    ensures Inv(Apply(s, TakeUnsubscribe(c)))
  {
    B.StepKeepsInv(s.bank, B.Unsubscribe(c));
    TouchKeepsSessions(s.(bank := B.Apply(s.bank, B.Unsubscribe(c))), c, S.LeaveHandled);
    StatusAfter(s.sessions[c], S.LeaveHandled);
    LinkTakeUnsubscribe(s.bank, Statuses(s), c);
    assert Statuses(Apply(s, TakeUnsubscribe(c))) == Statuses(s);
  }

  lemma HandlerKeepsInv(s: State)
    requires Formed(s) && Inv(s)
    ensures Inv(HandlerStep(s))
  {
    B.StepKeepsInv(s.bank, B.HandlerMove);
    var s1 := s.(bank := B.HandlerStep(s.bank));
    assert Statuses(s1) == Statuses(s);
    if s.bank.h.HRespond? {
      var c := s.bank.h.id;
      TouchKeepsSessions(s1, c, S.Responded);
      StatusAfter(s.sessions[c], S.Responded);
      LinkRespond(s.bank, Statuses(s), StatusOf(S.Apply(s.sessions[c], S.Responded)));
    } else {
      LinkHandlerVisits(s.bank, Statuses(s));
      LinkHandlerIds(s.bank, Statuses(s));
      LinkHandlerPlaces(s.bank, Statuses(s));
    }
  }

  lemma ServiceKeepsInv(s: State)
    requires Formed(s) && Inv(s) && s.bank.d.DServe?
    ensures Inv(DispatcherStep(s))
  {
    var c := Served(s.bank);
    var s1 := Touch(s, c, S.ServiceMove);
    TouchKeepsSessions(s, c, S.ServiceMove);
    StatusAfter(s.sessions[c], S.ServiceMove);
    if s1.sessions[c].service.NoVisit? {
      B.StepKeepsInv(s.bank, B.DispatcherMove);
      LinkServiceEnds(s.bank, Statuses(s));
      assert Statuses(DispatcherStep(s)) == Statuses(s1);
    } else {
      LinkTouch(s.bank, Statuses(s), c, StatusOf(S.Apply(s.sessions[c], S.ServiceMove)));
    }
  }

  lemma VisitBegins(s: State)
    requires Formed(s) && SessionsInv(s) && B.Inv(s.bank) && Serving(s.bank, |s.sessions|)
    requires var served := Served(s.bank); var st := Statuses(s);
      LinkInv(s.bank, st[served := st[served].(visited := true)])
    ensures Inv(Touch(s, Served(s.bank), S.BeginVisit))
  {
    TouchKeepsSessions(s, Served(s.bank), S.BeginVisit);
    StatusAfter(s.sessions[Served(s.bank)], S.BeginVisit);
  }

  lemma StatusesOfSessions(s: State, bank': B.State)
    ensures Statuses(s.(bank := bank')) == Statuses(s)
  {
  }

  lemma RoundShape(s: State)
    requires Formed(s) && !s.bank.d.DServe?
    ensures var s1 := s.(bank := B.DispatcherStep(s.bank));
      DispatcherStep(s) == if Serving(s1.bank, |s.sessions|) then Touch(s1, Served(s1.bank), S.BeginVisit) else s1
  {
  }

  lemma RoundKeepsInv(s: State)
    requires Formed(s) && Inv(s) && !s.bank.d.DServe?
    ensures Inv(DispatcherStep(s))
  {
    B.StepKeepsInv(s.bank, B.DispatcherMove);
    LinkRound(s.bank, Statuses(s));
    StatusesOfSessions(s, B.DispatcherStep(s.bank));
    RoundShape(s);
    if B.DispatcherStep(s.bank).d.DServe? {
      VisitBegins(s.(bank := B.DispatcherStep(s.bank)));
    }
  }

  lemma StepKeepsInv(s: State, move: Move)
    requires Formed(s) && Inv(s)
    ensures Inv(Apply(s, move))
  {
    match move
    case ClientMove(c) => if c < |s.sessions| { QuietTouchKeepsInv(s, c, S.ClientMove); }
    case SpuriousWake(c) => if c < |s.sessions| { QuietTouchKeepsInv(s, c, S.SpuriousWake); }
    case TakeSubscribe(c, fails) => if CanTakeSubscribe(s, c) { TakeSubscribeKeepsInv(s, c, fails); }
    case TakeUnsubscribe(c) => if CanTakeUnsubscribe(s, c) { TakeUnsubscribeKeepsInv(s, c); }
    case HandlerMove => HandlerKeepsInv(s);
    case DispatcherMove =>
      if s.bank.d.DServe? {
        ServiceKeepsInv(s);
      } else {
        RoundKeepsInv(s);
      }
    case WorkerMove(t) =>
      if Serving(s.bank, |s.sessions|) { QuietTouchKeepsInv(s, Served(s.bank), S.WorkerMove(t)); }
  }

  lemma {:induction false} RunKeepsInv(s: State, moves: seq<Move>)
    requires Formed(s) && Inv(s)
    ensures Inv(Run(s, moves))
  {
    if moves != [] {
      RunKeepsInv(s, moves[..|moves| - 1]);
      StepKeepsInv(Run(s, moves[..|moves| - 1]), moves[|moves| - 1]);
    }
  }

  // ---------- what every run promises ----------

  /** Token conservation: for every client in every reachable state the request is in the queue, at the server or
      back in the futex word exactly while the client is owed an answer, and at the server only while the dispatcher
      serves the client's slot. So no Enqueue is refused, no swap in Wake fails and no two signals coalesce. */
  lemma TokenConservation(slots: nat, capacity: nat, setups: seq<Setup>, moves: seq<Move>, c: nat)
    requires GoodSetups(setups, capacity)
    requires c < |Run(Init(slots, capacity, setups), moves).sessions|
    ensures var s := Run(Init(slots, capacity, setups), moves); var x := s.sessions[c];
      && |Q.Contents(x.queue)| + S.AtServer(x) + x.futex.word == S.Outstanding(x)
      && (S.AtServer(x) == 1 ==> Serving(s.bank, |s.sessions|) && Served(s.bank) == c)
      && (x.client.Waiting? ==> x.queue.p == Q.PIdle(true))
      && (x.service.Waking? && x.futex.wakers[0].KAtCas? ==> x.futex.word == 0)
  {
    InitInv(slots, capacity, setups);
    RunKeepsInv(Init(slots, capacity, setups), moves);
    var s := Run(Init(slots, capacity, setups), moves);
    S.NothingIsWasted(s.sessions[c]);
    assert Statuses(s)[c].visited <==> Serving(s.bank, |s.sessions|) && Served(s.bank) == c;
  }

  /** The request of client c is the same in both states, and an answer to buffer b has not been taken back. */
  predicate AnswersKept(s: State, s': State, c: nat, b: nat) {
    && c < |s.sessions| == |s'.sessions|
    && S.SameRequest(s.sessions[c], s'.sessions[c])
    && (S.Answered(s.sessions[c], b) ==> S.Answered(s'.sessions[c], b))
  }

  lemma TouchKeepsAnswers(s: State, d: nat, move: S.Move, c: nat, b: nat)
    requires Formed(s) && SessionsInv(s) && c < |s.sessions|
    ensures AnswersKept(s, Touch(s, d, move), c, b)
  {
    if d == c {
      S.AnswersStay(s.sessions[c], move, b);
    }
  }

  /** No step touches what the clients asked for, nor takes back an answer. */
  lemma StepKeepsAnswers(s: State, move: Move, c: nat, b: nat)
    requires Formed(s) && SessionsInv(s) && c < |s.sessions|
    ensures AnswersKept(s, Apply(s, move), c, b)
  {
    match move
    case ClientMove(d) => TouchKeepsAnswers(s, d, S.ClientMove, c, b);
    case SpuriousWake(d) => TouchKeepsAnswers(s, d, S.SpuriousWake, c, b);
    case TakeSubscribe(d, _) => TouchKeepsAnswers(s, d, S.SubscribeHandled, c, b);
    case TakeUnsubscribe(d) => TouchKeepsAnswers(s, d, S.LeaveHandled, c, b);
    case HandlerMove => if s.bank.h.HRespond? { TouchKeepsAnswers(s, s.bank.h.id, S.Responded, c, b); }
    case DispatcherMove =>
      var bank' := B.DispatcherStep(s.bank);
      if Serving(s.bank, |s.sessions|) {
        TouchKeepsAnswers(s, Served(s.bank), S.ServiceMove, c, b);
      } else if Serving(bank', |s.sessions|) {
        TouchKeepsAnswers(s, Served(bank'), S.BeginVisit, c, b);
      }
    case WorkerMove(t) =>
      if Serving(s.bank, |s.sessions|) { TouchKeepsAnswers(s, Served(s.bank), S.WorkerMove(t), c, b); }
  }

  lemma {:induction false} RunKeepsAnswers(s: State, moves: seq<Move>, c: nat, b: nat)
    requires Formed(s) && Inv(s) && c < |s.sessions|
    ensures AnswersKept(s, Run(s, moves), c, b)
  {
    if moves != [] {
      RunKeepsAnswers(s, moves[..|moves| - 1], c, b);
      RunKeepsInv(s, moves[..|moves| - 1]);
      StepKeepsAnswers(Run(s, moves[..|moves| - 1]), moves[|moves| - 1], c, b);
    }
  }

  /** End to end: once a Wait has returned for buffer b of client c, in whatever run, the result is exactly the
      transpose of what the client put there at setup, in that state and in every later one. */
  lemma AnsweredMeansTransposed(slots: nat, capacity: nat, setups: seq<Setup>,
                                moves: seq<Move>, later: seq<Move>, c: nat, b: nat)
    requires GoodSetups(setups, capacity) && c < |setups| && b < |setups[c].src|
    ensures var s := Run(Init(slots, capacity, setups), moves); var s' := Run(s, later);
      && |s.sessions| == |s'.sessions| == |setups| && |s'.sessions[c].dst| == |setups[c].src|
      && (S.Answered(s.sessions[c], b) ==>
            s'.sessions[c].dst[b] == Transposed(setups[c].src[b], setups[c].plan.rows, setups[c].plan.cols))
  {
    var init := Init(slots, capacity, setups);
    InitInv(slots, capacity, setups);
    RunKeepsAnswers(init, moves, c, b);
    RunKeepsInv(init, moves);
    var s := Run(init, moves);
    RunKeepsAnswers(s, later, c, b);
    RunKeepsInv(s, later);
    var x := Run(s, later).sessions[c];
    assert S.Inv(x);
    assert S.Answered(x, b) ==> S.MatchesReference(x, b);
  }

  /** The client's final comparison, in every run: no error after at least one repetition; without any, an error
      exactly if some source matrix is not all zero. */
  lemma FinalCheck(slots: nat, capacity: nat, setups: seq<Setup>, moves: seq<Move>, c: nat)
    requires GoodSetups(setups, capacity) && c < |setups|
    ensures var s := Run(Init(slots, capacity, setups), moves);
      && |s.sessions| == |setups|
      && (s.sessions[c].client.Checked? ==>
            (s.sessions[c].client.errorFound <==>
              setups[c].reps == 0 && exists b | 0 <= b < |setups[c].src| :: setups[c].src[b] != S.Zero(setups[c].plan)))
  {
    var init := Init(slots, capacity, setups);
    InitInv(slots, capacity, setups);
    RunKeepsInv(init, moves);
    RunKeepsAnswers(init, moves, c, 0);
    var x := Run(init, moves).sessions[c];
    assert S.Inv(x);
    if x.client.Checked? {
      S.Verdict(x);
    }
  }

  /** Slot ownership in the whole system: while AddClient resets or fills a slot, no visit goes through it. */
  lemma NoVisitToAClaimedSlot(slots: nat, capacity: nat, setups: seq<Setup>, moves: seq<Move>)
    requires GoodSetups(setups, capacity)
    ensures var s := Run(Init(slots, capacity, setups), moves);
      && (s.bank.h.HReset? || s.bank.h.HFill? ==>
            s.bank.h.slot !in s.bank.local && s.bank.d != B.DServe(s.bank.h.slot))
      && (forall c: nat | c < |s.sessions| :: !s.sessions[c].service.NoVisit? <==>
            Serving(s.bank, |s.sessions|) && Served(s.bank) == c)
  {
    InitInv(slots, capacity, setups);
    RunKeepsInv(Init(slots, capacity, setups), moves);
    var s := Run(Init(slots, capacity, setups), moves);
    forall c: nat | c < |s.sessions|
      ensures !s.sessions[c].service.NoVisit? <==> Serving(s.bank, |s.sessions|) && Served(s.bank) == c
    {
      assert Statuses(s)[c].visited <==> Serving(s.bank, |s.sessions|) && Served(s.bank) == c;
    }
  }

  /** No client is stuck: whenever one waits and its slot is not being visited, either its signal is up and it is
      awake, or its request is in the queue of a valid slot that the dispatcher holds or is about to be shown. */
  lemma NoStuckClient(slots: nat, capacity: nat, setups: seq<Setup>, moves: seq<Move>, c: nat)
    requires GoodSetups(setups, capacity)
    requires c < |Run(Init(slots, capacity, setups), moves).sessions|
    ensures var s := Run(Init(slots, capacity, setups), moves); var x := s.sessions[c];
      x.client.Waiting? && x.service.NoVisit? ==>
        || (x.futex.word == 1 && !x.futex.waiters[0].WAsleep?)
        || (Q.Contents(x.queue) == [x.client.buf] &&
              exists i: nat :: HasSlot(s.bank, c, i) && (i in s.bank.local || s.bank.flag))
  {
    InitInv(slots, capacity, setups);
    RunKeepsInv(Init(slots, capacity, setups), moves);
    var s := Run(Init(slots, capacity, setups), moves);
    if s.sessions[c].client.Waiting? && s.sessions[c].service.NoVisit? {
      S.WaitingClientIsNotStuck(s.sessions[c]);
      assert Statuses(s)[c].active;
      var i: nat :| HasSlot(s.bank, c, i);
      ValidIsHeldOrAnnounced(s.bank, Statuses(s), c, i);
    }
  }

  /** The valid slot of an active client is in the dispatcher's copy, or the flag is up to announce it. */
  lemma ValidIsHeldOrAnnounced(bank: B.State, st: seq<Status>, c: nat, i: nat)
    requires B.Inv(bank) && LinkInv(bank, st) && c < |st| && st[c].active && HasSlot(bank, c, i)
    ensures i in bank.local || bank.flag
    ensures i !in bank.local ==> !bank.d.DLower?
  {
  }
}
