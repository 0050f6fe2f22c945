/** Bounded bypass: how many requests of other clients the dispatcher may dequeue while a client's request waits in its
    queue. The proof is a potential: the number of visits to other slots that can still dequeue before the client's
    own slot is visited by a Dequeue that cannot fail. */
module RoundRobin {
  import opened TransposeSystem
  import B = ClientBank
  import Q = SeqLockQueue
  import S = Session

  /** The client's Enqueue has returned and its request is still in the queue. */
  predicate Pending(s: State, c: nat) {
    c < |s.sessions| && s.sessions[c].client.Waiting? && Q.Contents(s.sessions[c].queue) != []
  }

  ghost predicate PendingThroughout(s: State, moves: seq<Move>, c: nat)
    requires Formed(s)
  {
    Pending(Run(s, moves), c) && (moves != [] ==> PendingThroughout(s, moves[..|moves| - 1], c))
  }

  /** This move is the tail store of a Dequeue on another client's queue. */
  predicate DequeuesOther(s: State, move: Move, c: nat) {
    && move.DispatcherMove? && Serving(s.bank, |s.sessions|) && Served(s.bank) != c
    && s.sessions[Served(s.bank)].service.Dequeuing? && s.sessions[Served(s.bank)].queue.c.CAccepted?
  }

  /** How many requests of other clients are dequeued during the run. */
  function Bypass(s: State, moves: seq<Move>, c: nat): nat
    requires Formed(s)
  {
    if moves == [] then 0
    else
      var before := Run(s, moves[..|moves| - 1]);
      Bypass(s, moves[..|moves| - 1], c) + (if DequeuesOther(before, moves[|moves| - 1], c) then 1 else 0)
  }

  // ---------- the potential ----------

  /** Visits to slots other than `own` from scan position p until the visit of `own`; a position at or before `own`
      skips it as long as the dispatcher does not hold its bit. */
  function VisitsBefore(p: nat, slots: nat, own: nat, held: bool): nat
    requires p <= slots && own < slots
  {
    if p > own then slots - p + own
    else if held then own - p
    else slots - p - 1 + own
  }

  /** What a visit may still do: dequeue from another slot, serve the own slot for sure, or neither. */
  datatype Visit = MayDequeue | OwnPromised | Spent

  function Potential(d: B.Dispatcher, slots: nat, own: nat, held: bool, visit: Visit): nat
    requires own < slots && ((d.DScan? || d.DServe?) ==> d.i <= slots) && (d.DServe? ==> d.i < slots)
  {
    match d
    case DScan(p) => VisitsBefore(p, slots, own, held)
    case DServe(p) =>
      if visit.OwnPromised? then 0
      else if visit.MayDequeue? then VisitsBefore(p, slots, own, held)
      else VisitsBefore(p + 1, slots, own, held)
    case _ => own
  }

  lemma PotentialBound(d: B.Dispatcher, slots: nat, own: nat, held: bool, visit: Visit)
    requires own < slots && ((d.DScan? || d.DServe?) ==> d.i <= slots) && (d.DServe? ==> d.i < slots)
    ensures Potential(d, slots, own, held, visit) <= if held then slots - 1 else 2 * (slots - 1)
  {
  }

  /** A Dequeue on the queue that is under way, or about to begin, will return an item if the producer stays out. */
  predicate Promised(q: Q.State) {
    q.c.CIdle? || Q.Promising(q)
  }

  function VisitOf(s: State, c: nat): Visit
    requires c < |s.sessions|
  {
    if !Serving(s.bank, |s.sessions|) then Spent
    else if Served(s.bank) == c then
      if s.sessions[c].service.Dequeuing? && Promised(s.sessions[c].queue) then OwnPromised else Spent
    else if s.sessions[Served(s.bank)].service.Dequeuing? then MayDequeue
    else Spent
  }

  /** The scan never runs past the last slot. */
  predicate InRound(bank: B.State) {
    (bank.d.DScan? ==> bank.d.i <= |bank.bank|) && (bank.d.DServe? ==> bank.d.i < |bank.bank|)
  }

  function Pot(s: State, c: nat, own: nat): nat
    requires c < |s.sessions| && own < |s.bank.bank| && InRound(s.bank)
  {
    Potential(s.bank.d, |s.bank.bank|, own, own in s.bank.local, VisitOf(s, c))
  }

  // ---------- no step raises it ----------

  /** An active client occupies no second slot the dispatcher could visit. */
  lemma OwnSlotIsUnique(bank: B.State, st: seq<Status>, c: nat, own: nat, p: nat)
    requires B.Inv(bank) && LinkInv(bank, st) && c < |st| && st[c].active && HasSlot(bank, c, own)
    requires p in bank.local && p < |bank.bank| && Occupant(bank, p) == c
    ensures p == own
  {
    assert B.Live(bank, own);
    if p in bank.valid {
      assert B.Live(bank, p);
      assert !B.Blank(bank.h, p) && !B.Blank(bank.h, own);
    }
  }

  /** The dispatcher between visits. */
  lemma RoundStep(bank: B.State, st: seq<Status>, c: nat, own: nat, visit: Visit)
    requires B.Inv(bank) && LinkInv(bank, st) && c < |st| && st[c].active && HasSlot(bank, c, own)
    requires !bank.d.DServe?
    ensures var bank' := B.DispatcherStep(bank);
      && InRound(bank') && HasSlot(bank', c, own)
      && (bank'.d.DServe? ==> bank'.d.i in bank.local && (bank'.d.i == own <==> Occupant(bank', bank'.d.i) == c))
      && forall visit' | bank'.d == B.DServe(own) ==> visit' == OwnPromised ::
          Potential(bank'.d, |bank.bank|, own, own in bank'.local, visit') <=
          Potential(bank.d, |bank.bank|, own, own in bank.local, visit)
  {
    ValidIsHeldOrAnnounced(bank, st, c, own);
    var bank' := B.DispatcherStep(bank);
    if bank'.d.DServe? && Occupant(bank', bank'.d.i) == c {
      OwnSlotIsUnique(bank, st, c, own, bank'.d.i);
    }
  }

  /** Leaving another slot costs one visit, whether or not it dequeued; the own slot is next visited after all the
      others. */
  lemma VisitCosts(slots: nat, p: nat, own: nat, held: bool)
    requires p < slots && own < slots && (p == own ==> held)
    ensures p != own ==> VisitsBefore(p + 1, slots, own, held) + 1 <= VisitsBefore(p, slots, own, held)
    ensures p == own ==> VisitsBefore(p + 1, slots, own, held) == slots - 1
  {
  }

  /** A service step on the client's own queue keeps the promise, or dequeues the request. */
  lemma OwnServiceStep(x: S.State)
    requires S.Inv(x) && x.client.Waiting? && Q.Contents(x.queue) != []
    requires x.service.Dequeuing? && Promised(x.queue)
    ensures var x' := S.Apply(x, S.ServiceMove);
      Q.Contents(x'.queue) == [] || (x'.service.Dequeuing? && Promised(x'.queue))
  {
    assert |Q.Contents(x.queue)| == 1;
    if !x.queue.c.CIdle? {
      Q.PromisingStep(x.queue);
    }
  }

  /** A service step on another client's queue dequeues only at the tail store. */
  lemma OtherServiceStep(x: S.State)
    requires S.Formed(x) && !x.service.NoVisit?
    ensures var x' := S.Apply(x, S.ServiceMove);
      && (x'.service.Dequeuing? ==> x.service.Dequeuing?)
      && (x.service.Dequeuing? && x.queue.c.CAccepted? ==> x'.service.Transposing?)
  {
  }

  /** What the claim is about, at every state of the run: the client and its slot. */
  ghost predicate Tracked(s: State, c: nat, own: nat) {
    Formed(s) && Inv(s) && Pending(s, c) && HasSlot(s.bank, c, own)
  }

  /** The step does not raise the potential, and pays for a request of another client it dequeues. */
  ghost predicate Pays(s: State, move: Move, c: nat, own: nat)
    requires Tracked(s, c, own)
  {
    var s' := Apply(s, move);
    && |s'.bank.bank| == |s.bank.bank| && c < |s'.sessions| && HasSlot(s'.bank, c, own) && InRound(s'.bank)
    && Pot(s', c, own) + (if DequeuesOther(s, move, c) then 1 else 0) <= Pot(s, c, own)
  }

  lemma TrackedFacts(s: State, c: nat, own: nat)
    requires Tracked(s, c, own)
    ensures c < |Statuses(s)| && Statuses(s)[c].active && S.Inv(s.sessions[c]) && InRound(s.bank)
    ensures s.bank.d.DServe? ==> Serving(s.bank, |s.sessions|)
    ensures s.bank.d.DServe? ==> (s.bank.d.i == own <==> Served(s.bank) == c)
    ensures s.bank.d.DServe? ==> s.bank.d.i in s.bank.local && !s.sessions[Served(s.bank)].service.NoVisit?
  {
    if s.bank.d.DServe? {
      assert Statuses(s)[Served(s.bank)].visited;
      if Served(s.bank) == c {
        OwnSlotIsUnique(s.bank, Statuses(s), c, own, s.bank.d.i);
      }
    }
  }

  /** What a service step does to the system. */
  lemma ServiceShape(s: State)
    requires Formed(s) && Serving(s.bank, |s.sessions|)
    ensures var served := Served(s.bank);
      var x' := S.Apply(s.sessions[served], S.ServiceMove);
      Apply(s, DispatcherMove) ==
        State(if x'.service.NoVisit? then B.DispatcherStep(s.bank) else s.bank, s.sessions[served := x'])
  {
  }

  lemma OwnVisitPays(s: State, c: nat, own: nat)
    requires Tracked(s, c, own) && s.bank.d == B.DServe(own) && Pending(Apply(s, DispatcherMove), c)
    ensures Pays(s, DispatcherMove, c, own)
  {
    TrackedFacts(s, c, own);
    ServiceShape(s);
    var x := s.sessions[c];
    var s' := Apply(s, DispatcherMove);
    VisitCosts(|s.bank.bank|, own, own, true);
    if x.service.Dequeuing? && Promised(x.queue) {
      OwnServiceStep(x);
      assert VisitOf(s', c) == OwnPromised;
    } else {
      assert Pot(s, c, own) == |s.bank.bank| - 1;
      PotentialBound(s'.bank.d, |s.bank.bank|, own, true, VisitOf(s', c));
    }
  }

  /** The arithmetic of a step inside, or at the end of, a visit to another slot. */
  lemma OtherVisitArithmetic(d: B.Dispatcher, slots: nat, own: nat, held: bool, visit: Visit, visit': Visit,
                             ended: bool, paid: bool)
    requires d.DServe? && d.i < slots && own < slots && d.i != own && !visit.OwnPromised?
    requires !ended ==> !visit'.OwnPromised? && (visit'.MayDequeue? ==> visit.MayDequeue?)
    requires paid ==> visit.MayDequeue? && !ended && visit'.Spent?
    ensures Potential(if ended then B.DScan(d.i + 1) else d, slots, own, held, visit') + (if paid then 1 else 0)
      <= Potential(d, slots, own, held, visit)
  {
    VisitCosts(slots, d.i, own, held);
  }

  /** A step of a visit to another slot: where the dispatcher and the visit stand before and after it. */
  lemma OtherVisitShape(s: State, c: nat, own: nat)
    requires Tracked(s, c, own) && s.bank.d.DServe? && s.bank.d.i != own
    ensures Serving(s.bank, |s.sessions|) && InRound(s.bank)
    ensures var s' := Apply(s, DispatcherMove);
      var ended := S.Apply(s.sessions[Served(s.bank)], S.ServiceMove).service.NoVisit?;
      && |s'.bank.bank| == |s.bank.bank| && c < |s'.sessions| && HasSlot(s'.bank, c, own) && InRound(s'.bank)
      && s'.bank.local == s.bank.local && s'.bank.d == (if ended then B.DScan(s.bank.d.i + 1) else s.bank.d)
      && !VisitOf(s, c).OwnPromised?
      && (!ended ==> !VisitOf(s', c).OwnPromised? && (VisitOf(s', c).MayDequeue? ==> VisitOf(s, c).MayDequeue?))
      && (DequeuesOther(s, DispatcherMove, c) ==> VisitOf(s, c).MayDequeue? && !ended && VisitOf(s', c).Spent?)
  {
    TrackedFacts(s, c, own);
    ServiceShape(s);
    OtherServiceStep(s.sessions[Served(s.bank)]);
  }

  lemma OtherVisitPays(s: State, c: nat, own: nat)
    requires Tracked(s, c, own) && s.bank.d.DServe? && s.bank.d.i != own
    ensures Pays(s, DispatcherMove, c, own)
  {
    OtherVisitShape(s, c, own);
    var ended := S.Apply(s.sessions[Served(s.bank)], S.ServiceMove).service.NoVisit?;
    var s' := Apply(s, DispatcherMove);
    OtherVisitArithmetic(s.bank.d, |s.bank.bank|, own, own in s.bank.local, VisitOf(s, c), VisitOf(s', c), ended,
                         DequeuesOther(s, DispatcherMove, c));
  }

  lemma RoundPays(s: State, c: nat, own: nat)
    requires Tracked(s, c, own) && !s.bank.d.DServe?
    ensures Pays(s, DispatcherMove, c, own)
  {
    TrackedFacts(s, c, own);
    var s' := Apply(s, DispatcherMove);
    RoundStep(s.bank, Statuses(s), c, own, VisitOf(s, c));
    LinkRound(s.bank, Statuses(s));
    assert !Statuses(s)[c].visited;
    if s'.bank.d == B.DServe(own) {
      assert VisitOf(s', c) == OwnPromised;
    }
  }

  /** A move that is not the dispatcher's leaves every visit as it is. */
  lemma VisitUnchanged(x: S.State, move: S.Move)
    requires S.Formed(x) && S.ControlInv(x) && !move.ServiceMove? && !move.BeginVisit?
    ensures var x' := S.Apply(x, move);
      && (x'.service.Dequeuing? <==> x.service.Dequeuing?)
      && (x.client.Waiting? ==> x'.queue == x.queue)
  {
  }

  lemma TouchKeepsVisit(s: State, d: nat, move: S.Move, c: nat)
    requires Formed(s) && SessionsInv(s) && Pending(s, c) && !move.ServiceMove? && !move.BeginVisit?
    ensures c < |Touch(s, d, move).sessions| && VisitOf(Touch(s, d, move), c) == VisitOf(s, c)
  {
    if d < |s.sessions| {
      assert S.Inv(s.sessions[d]);
      VisitUnchanged(s.sessions[d], move);
    }
  }

  /** With the same scan position, copy and visit, the potential is the same. */
  lemma SamePotential(s: State, s': State, c: nat, own: nat)
    requires c < |s.sessions| && c < |s'.sessions| && own < |s.bank.bank| == |s'.bank.bank| && InRound(s.bank)
    requires s'.bank.d == s.bank.d && s'.bank.local == s.bank.local && VisitOf(s', c) == VisitOf(s, c)
    ensures InRound(s'.bank) && Pot(s', c, own) == Pot(s, c, own)
  {
  }

  /** The bank changes without the dispatcher: the visit under way stays the same. */
  lemma BankKeepsVisit(s: State, bank': B.State, c: nat, own: nat)
    requires Tracked(s, c, own)
    requires |bank'.bank| == |s.bank.bank| && bank'.d == s.bank.d && bank'.local == s.bank.local
    requires forall i: nat | i < |s.bank.bank| && i in s.bank.local :: bank'.bank[i].id == s.bank.bank[i].id
    ensures VisitOf(s.(bank := bank'), c) == VisitOf(s, c)
  {
    TrackedFacts(s, c, own);
  }

  lemma HandlerPays(s: State, c: nat, own: nat)
    requires Tracked(s, c, own)
    ensures Pays(s, HandlerMove, c, own)
  {
    TrackedFacts(s, c, own);
    HandlerKeepsOccupants(s.bank);
    HandlerKeepsOwnSlot(s.bank, Statuses(s), c, own);
    var bank' := B.HandlerStep(s.bank);
    var s1 := s.(bank := bank');
    BankKeepsVisit(s, bank', c, own);
    if s.bank.h.HRespond? {
      TouchKeepsVisit(s1, s.bank.h.id, S.Responded, c);
    }
    SamePotential(s, Apply(s, HandlerMove), c, own);
  }

  lemma HandlerKeepsOwnSlot(bank: B.State, st: seq<Status>, c: nat, own: nat)
    requires B.Inv(bank) && LinkInv(bank, st) && c < |st| && st[c].active && HasSlot(bank, c, own)
    ensures HasSlot(B.HandlerStep(bank), c, own)
  {
    HandlerKeepsOccupants(bank);
  }

  lemma SubscribePays(s: State, c: nat, own: nat, d: nat, fails: bool)
    requires Tracked(s, c, own)
    ensures Pays(s, TakeSubscribe(d, fails), c, own)
  {
    TrackedFacts(s, c, own);
    if CanTakeSubscribe(s, d) {
      MessagePays(s, TakeSubscribe(d, fails), B.Apply(s.bank, B.Subscribe(d, fails)), c, own, d, S.SubscribeHandled);
    }
  }

  lemma UnsubscribePays(s: State, c: nat, own: nat, d: nat)
    requires Tracked(s, c, own)
    ensures Pays(s, TakeUnsubscribe(d), c, own)
  {
    TrackedFacts(s, c, own);
    if CanTakeUnsubscribe(s, d) {
      MessagePays(s, TakeUnsubscribe(d), B.Apply(s.bank, B.Unsubscribe(d)), c, own, d, S.LeaveHandled);
    }
  }

  /** A message changes no more of the bank than where the handler stands. */
  lemma MessagePays(s: State, move: Move, bank': B.State, c: nat, own: nat, d: nat, noted: S.Move)
    requires Tracked(s, c, own) && InRound(s.bank) && !noted.ServiceMove? && !noted.BeginVisit?
    requires !move.DispatcherMove? && bank' == s.bank.(h := bank'.h)
    requires Apply(s, move) == Touch(s.(bank := bank'), d, noted)
    ensures Pays(s, move, c, own)
  {
    BankKeepsVisit(s, bank', c, own);
    TouchKeepsVisit(s.(bank := bank'), d, noted, c);
    SamePotential(s, Apply(s, move), c, own);
  }

  /** A move inside one session, without the bank. */
  lemma QuietPays(s: State, move: Move, c: nat, own: nat, d: nat, inside: S.Move)
    requires Tracked(s, c, own) && InRound(s.bank) && !inside.ServiceMove? && !inside.BeginVisit?
    requires !move.DispatcherMove? && Apply(s, move) == Touch(s, d, inside)
    ensures Pays(s, move, c, own)
  {
    TouchKeepsVisit(s, d, inside, c);
    SamePotential(s, Apply(s, move), c, own);
  }

  lemma StepPays(s: State, move: Move, c: nat, own: nat)
    requires Tracked(s, c, own) && Pending(Apply(s, move), c)
    ensures Pays(s, move, c, own) && Tracked(Apply(s, move), c, own)
  {
    StepKeepsInv(s, move);
    match move
    case HandlerMove => HandlerPays(s, c, own);
    case DispatcherMove =>
      TrackedFacts(s, c, own);
      if !s.bank.d.DServe? {
        RoundPays(s, c, own);
      } else if s.bank.d.i == own {
        OwnVisitPays(s, c, own);
      } else {
        OtherVisitPays(s, c, own);
      }
    case TakeSubscribe(d, fails) => SubscribePays(s, c, own, d, fails);
    case TakeUnsubscribe(d) => UnsubscribePays(s, c, own, d);
    case ClientMove(d) =>
      TrackedFacts(s, c, own);
      QuietPays(s, move, c, own, d, S.ClientMove);
    case SpuriousWake(d) =>
      TrackedFacts(s, c, own);
      QuietPays(s, move, c, own, d, S.SpuriousWake);
    case WorkerMove(t) =>
      TrackedFacts(s, c, own);
      var served := if Serving(s.bank, |s.sessions|) then Served(s.bank) else |s.sessions|;
      QuietPays(s, move, c, own, served, S.WorkerMove(t));
  }

  lemma {:induction false} RunPays(s: State, moves: seq<Move>, c: nat, own: nat)
    requires Tracked(s, c, own) && PendingThroughout(s, moves, c) && InRound(s.bank)
    ensures var s' := Run(s, moves);
      && Tracked(s', c, own) && InRound(s'.bank) && |s'.bank.bank| == |s.bank.bank|
      && Bypass(s, moves, c) + Pot(s', c, own) <= Pot(s, c, own)
  {
    if moves != [] {
      var init := moves[..|moves| - 1];
      RunPays(s, init, c, own);
      StepPays(Run(s, init), moves[|moves| - 1], c, own);
    }
  }

  /** Bounded bypass: from any reachable state in which a client's request waits in its queue, and however the threads
      are scheduled, at most slots - 1 requests of other clients are dequeued before its own if the dispatcher already
      holds its bit, and at most twice as many if the bit has still to be picked up. */
  lemma BoundedBypass(slots: nat, capacity: nat, setups: seq<Setup>, before: seq<Move>, moves: seq<Move>,
                      c: nat, own: nat)
    requires GoodSetups(setups, capacity)
    requires var s := Run(Init(slots, capacity, setups), before);
      HasSlot(s.bank, c, own) && PendingThroughout(s, moves, c) && Pending(s, c)
    ensures var s := Run(Init(slots, capacity, setups), before);
      Bypass(s, moves, c) <= if own in s.bank.local then slots - 1 else 2 * (slots - 1)
  {
    var init := Init(slots, capacity, setups);
    InitInv(slots, capacity, setups);
    RunKeepsInv(init, before);
    RunKeepsSlots(init, before);
    var s := Run(init, before);
    TrackedFacts(s, c, own);
    RunPays(s, moves, c, own);
    PotentialBound(s.bank.d, slots, own, own in s.bank.local, VisitOf(s, c));
  }

  lemma {:induction false} RunKeepsSlots(s: State, moves: seq<Move>)
    requires Formed(s)
    ensures |Run(s, moves).bank.bank| == |s.bank.bank|
  {
    if moves != [] {
      RunKeepsSlots(s, moves[..|moves| - 1]);
    }
  }

  // ---------- what is being counted ----------

  /** The requests taken so far from the queues of all clients but c. */
  function TakenFromOthers(sessions: seq<S.State>, c: nat): nat {
    if sessions == [] then 0
    else
      var last := |sessions| - 1;
      TakenFromOthers(sessions[..last], c) + (if last == c then 0 else |sessions[last].queue.dequeued|)
  }

  lemma {:induction false} OneSessionChanges(sessions: seq<S.State>, d: nat, x: S.State, c: nat)
    requires d < |sessions|
    ensures TakenFromOthers(sessions[d := x], c) - TakenFromOthers(sessions, c) ==
      if d == c then 0 else |x.queue.dequeued| - |sessions[d].queue.dequeued|
  {
    var last := |sessions| - 1;
    if d == last {
      assert sessions[d := x][..last] == sessions[..last];
    } else {
      assert sessions[d := x][..last] == sessions[..last][d := x];
      OneSessionChanges(sessions[..last], d, x, c);
    }
  }

  /** Only the tail store of a Dequeue takes a request. */
  lemma TakenInside(x: S.State, inside: S.Move)
    requires S.Formed(x)
    ensures |S.Apply(x, inside).queue.dequeued| == |x.queue.dequeued| + (
      if inside.ServiceMove? && x.service.Dequeuing? && x.queue.c.CAccepted? then 1 else 0)
  {
  }

  lemma TouchTakes(s: State, d: nat, inside: S.Move, c: nat)
    requires Formed(s)
    ensures TakenFromOthers(Touch(s, d, inside).sessions, c) == TakenFromOthers(s.sessions, c) + (
      if d < |s.sessions| && d != c && inside.ServiceMove? &&
         s.sessions[d].service.Dequeuing? && s.sessions[d].queue.c.CAccepted? then 1 else 0)
  {
    if d < |s.sessions| {
      TakenInside(s.sessions[d], inside);
      OneSessionChanges(s.sessions, d, S.Apply(s.sessions[d], inside), c);
    }
  }

  lemma StepTakes(s: State, move: Move, c: nat)
    requires Formed(s)
    ensures TakenFromOthers(Apply(s, move).sessions, c) ==
      TakenFromOthers(s.sessions, c) + (if DequeuesOther(s, move, c) then 1 else 0)
  {
    match move
    case ClientMove(d) => TouchTakes(s, d, S.ClientMove, c);
    case SpuriousWake(d) => TouchTakes(s, d, S.SpuriousWake, c);
    case TakeSubscribe(d, fails) =>
      TouchTakes(s.(bank := B.Apply(s.bank, B.Subscribe(d, fails))), d, S.SubscribeHandled, c);
    case TakeUnsubscribe(d) => TouchTakes(s.(bank := B.Apply(s.bank, B.Unsubscribe(d))), d, S.LeaveHandled, c);
    case HandlerMove =>
      if s.bank.h.HRespond? { TouchTakes(s.(bank := B.HandlerStep(s.bank)), s.bank.h.id, S.Responded, c); }
    case DispatcherMove => DispatcherTakes(s, c);
    case WorkerMove(t) =>
      if Serving(s.bank, |s.sessions|) { TouchTakes(s, Served(s.bank), S.WorkerMove(t), c); }
  }

  lemma DispatcherTakes(s: State, c: nat)
    requires Formed(s)
    ensures TakenFromOthers(Apply(s, DispatcherMove).sessions, c) ==
      TakenFromOthers(s.sessions, c) + (if DequeuesOther(s, DispatcherMove, c) then 1 else 0)
  {
    var s1 := s.(bank := B.DispatcherStep(s.bank));
    if Serving(s.bank, |s.sessions|) {
      TouchTakes(s, Served(s.bank), S.ServiceMove, c);
    } else if Serving(s1.bank, |s.sessions|) {
      TouchTakes(s1, Served(s1.bank), S.BeginVisit, c);
    }
  }

  /** The count of the bypass is exactly what has been taken from the other clients' queues during the run. */
  lemma {:induction false} BypassIsWhatOthersGot(s: State, moves: seq<Move>, c: nat)
    requires Formed(s)
    ensures TakenFromOthers(Run(s, moves).sessions, c) == TakenFromOthers(s.sessions, c) + Bypass(s, moves, c)
  {
    if moves != [] {
      BypassIsWhatOthersGot(s, moves[..|moves| - 1], c);
      StepTakes(Run(s, moves[..|moves| - 1]), moves[|moves| - 1], c);
    }
  }
}
