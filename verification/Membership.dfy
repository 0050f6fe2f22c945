/** Who is in the bank: between messages exactly the clients whose subscription has been answered and whose leave
    message has not been handled. */
module Membership {
  import opened TransposeSystem
  import B = ClientBank
  import S = Session

  /** Where a client stands with the server. */
  datatype Phase =
    | Outside    // its subscribe message has not been handled
    | Awaiting   // it has, and the client has no response
    | Present    // the response has come, and no leave message has been handled
    | Gone

  function PhaseOf(x: S.State): Phase {
    match x.client
    case Starting => Outside
    case Subscribing => Outside
    case AwaitingResponse => Awaiting
    case Leaving => if x.leavePending then Present else Gone
    case Checked(_) => if x.leavePending then Present else Gone
    case _ => Present
  }

  function Phases(s: State): (ph: seq<Phase>)
    ensures |ph| == |s.sessions| && forall c | 0 <= c < |ph| :: ph[c] == PhaseOf(s.sessions[c])
  {
    seq(|s.sessions|, c requires 0 <= c < |s.sessions| => PhaseOf(s.sessions[c]))
  }

  predicate SubscribedAs(bank: B.State, c: nat, i: nat) {
    i < |bank.bank| && bank.bank[i].subscribed && bank.bank[i].id == c
  }

  /** Some slot is subscribed for client c. */
  ghost predicate InBank(bank: B.State, c: nat) {
    exists i: nat :: SubscribedAs(bank, c, i)
  }

  ghost predicate PlacedIn(bank: B.State, c: nat) {
    exists i: nat :: HasSlot(bank, c, i)
  }

  predicate WorksFor(h: B.Handler, c: nat) {
    Adding(h) && h.id == c
  }

  predicate Withdraws(bank: B.State, c: nat) {
    Removing(bank.h) && bank.h.slot < |bank.bank| && Occupant(bank, bank.h.slot) == c
  }

  ghost predicate MemberInv(bank: B.State, ph: seq<Phase>) {
    && (forall c: nat | c < |ph| && ph[c].Outside? :: !InBank(bank, c) && !WorksFor(bank.h, c))
    && (forall c: nat | c < |ph| && ph[c].Awaiting? && InBank(bank, c) :: WorksFor(bank.h, c))
    && (forall c: nat | c < |ph| && ph[c].Present? :: PlacedIn(bank, c))
    && (forall c: nat | c < |ph| && ph[c].Gone? && InBank(bank, c) :: Withdraws(bank, c))
    && (forall c: nat | c < |ph| && Withdraws(bank, c) :: ph[c].Gone?)
    && (forall c: nat | c < |ph| && WorksFor(bank.h, c) :: ph[c].Awaiting?)
  }

  // ---------- the steps of the bank ----------

  lemma FoundIfIn(bank: B.State, c: nat)
    ensures B.FindSubscribed(bank.bank, c, 0).Some? <==> InBank(bank, c)
  {
    B.FindSubscribedIsFirst(bank.bank, c, 0);
    if B.FindSubscribed(bank.bank, c, 0).Some? {
      assert SubscribedAs(bank, c, B.FindSubscribed(bank.bank, c, 0).value);
    }
  }

  /** A valid slot is subscribed, whenever it is not just being withdrawn or announced. */
  lemma PlacedIsIn(bank: B.State, c: nat)
    requires B.Inv(bank) && PlacedIn(bank, c)
    ensures InBank(bank, c)
  {
    var i: nat :| HasSlot(bank, c, i);
    assert B.Live(bank, i);
    assert SubscribedAs(bank, c, i);
  }

  /** With the same slots and bits, and the handler moved on, membership is the same. */
  lemma SameBank(bank: B.State, bank': B.State, c: nat)
    requires bank'.bank == bank.bank && bank'.valid == bank.valid
    ensures InBank(bank', c) <==> InBank(bank, c)
    ensures PlacedIn(bank', c) <==> PlacedIn(bank, c)
  {
    forall i: nat
      ensures SubscribedAs(bank', c, i) == SubscribedAs(bank, c, i) && HasSlot(bank', c, i) == HasSlot(bank, c, i)
    {
    }
  }

  lemma SubscribeKeepsMembers(bank: B.State, ph: seq<Phase>, c: nat, fails: bool)
    requires B.Inv(bank) && MemberInv(bank, ph) && bank.h.HIdle? && c < |ph| && ph[c].Outside?
    ensures MemberInv(B.Apply(bank, B.Subscribe(c, fails)), ph[c := Awaiting])
    ensures B.FirstFree(bank.valid, |bank.bank|, 0).Some? ==>
      B.Apply(bank, B.Subscribe(c, fails)).h ==
        B.HReset(c, fails, B.FirstFree(bank.valid, |bank.bank|, 0).value)
  {
    var bank' := B.Apply(bank, B.Subscribe(c, fails));
    FoundIfIn(bank, c);
    forall d: nat
      ensures InBank(bank', d) <==> InBank(bank, d)
      ensures PlacedIn(bank', d) <==> PlacedIn(bank, d)
    {
      SameBank(bank, bank', d);
    }
  }

  lemma UnsubscribeKeepsMembers(bank: B.State, ph: seq<Phase>, c: nat)
    requires B.Inv(bank) && MemberInv(bank, ph) && bank.h.HIdle? && c < |ph| && ph[c].Present?
    ensures MemberInv(B.Apply(bank, B.Unsubscribe(c)), ph[c := Gone])
    ensures Withdraws(B.Apply(bank, B.Unsubscribe(c)), c)
  {
    var bank' := B.Apply(bank, B.Unsubscribe(c));
    PlacedIsIn(bank, c);
    FoundIfIn(bank, c);
    B.FindSubscribedIsFirst(bank.bank, c, 0);
    B.RemovalFindsTheLiveSlot(bank, c);
    forall d: nat
      ensures InBank(bank', d) <==> InBank(bank, d)
      ensures PlacedIn(bank', d) <==> PlacedIn(bank, d)
    {
      SameBank(bank, bank', d);
    }
  }

  /** No handler step but the fill adds a member, and that one only for whom it works. */
  lemma HandlerAddsOnly(bank: B.State, c: nat)
    requires InBank(B.HandlerStep(bank), c)
    ensures InBank(bank, c) || (WorksFor(bank.h, c) && WorksFor(B.HandlerStep(bank).h, c))
  {
    var bank' := B.HandlerStep(bank);
    var i: nat :| SubscribedAs(bank', c, i);
    assert SubscribedAs(bank, c, i) || (bank.h.HFill? && i == bank.h.slot);
  }

  /** No handler step takes a place away but the withdrawal. */
  lemma HandlerKeepsPlaces(bank: B.State, c: nat)
    requires B.Inv(bank) && PlacedIn(bank, c) && !Withdraws(bank, c)
    ensures PlacedIn(B.HandlerStep(bank), c)
  {
    var i: nat :| HasSlot(bank, c, i);
    HandlerKeepsOccupants(bank);
    assert HasSlot(B.HandlerStep(bank), c, i);
  }

  /** The last step of a withdrawal leaves no slot for the client. */
  lemma WithdrawalEnds(bank: B.State, c: nat)
    requires B.Inv(bank) && bank.h.HUnsubscribe? && Withdraws(bank, c)
    ensures !InBank(B.HandlerStep(bank), c)
  {
    var slot := bank.h.slot;
    assert B.Live(bank, slot);
    forall i: nat
      ensures !SubscribedAs(B.HandlerStep(bank), c, i)
    {
      if i != slot && B.Live(bank, i) {
        assert !B.Blank(bank.h, i) && !B.Blank(bank.h, slot);
        assert bank.bank[i].id != bank.bank[slot].id;
      }
    }
  }

  /** The handler keeps at its message, or has just finished it. */
  lemma HandlerKeepsTask(bank: B.State, c: nat)
    requires B.Inv(bank)
    ensures var bank' := B.HandlerStep(bank);
      && (WorksFor(bank'.h, c) ==> WorksFor(bank.h, c))
      && (Withdraws(bank', c) <==> Withdraws(bank, c) && !bank.h.HUnsubscribe?)
      && (WorksFor(bank.h, c) && !WorksFor(bank'.h, c) ==>
            bank.h == B.HRespond(c) || (bank.h.HFill? && bank.h.fails))
  {
  }

  lemma HandlerKeepsMembers(bank: B.State, ph: seq<Phase>)
    requires B.Inv(bank) && MemberInv(bank, ph) && !bank.h.HRespond?
    ensures MemberInv(B.HandlerStep(bank), ph)
  {
    var bank' := B.HandlerStep(bank);
    forall c: nat | c < |ph|
      ensures ph[c].Outside? ==> !InBank(bank', c) && !WorksFor(bank'.h, c)
      ensures ph[c].Awaiting? && InBank(bank', c) ==> WorksFor(bank'.h, c)
      ensures ph[c].Present? ==> PlacedIn(bank', c)
      ensures ph[c].Gone? && InBank(bank', c) ==> Withdraws(bank', c)
      ensures Withdraws(bank', c) ==> ph[c].Gone?
      ensures WorksFor(bank'.h, c) ==> ph[c].Awaiting?
    {
      HandlerKeepsTask(bank, c);
      if InBank(bank', c) {
        HandlerAddsOnly(bank, c);
      }
      if bank.h.HFill? && bank.h.fails && bank.h.id == c {
        FailedFillAddsNobody(bank, c);
      }
      if ph[c].Present? {
        HandlerKeepsPlaces(bank, c);
      }
      if bank.h.HUnsubscribe? && Withdraws(bank, c) {
        WithdrawalEnds(bank, c);
      }
    }
  }

  lemma FailedFillAddsNobody(bank: B.State, c: nat)
    requires B.Inv(bank) && bank.h.HFill? && bank.h.fails && bank.h.id == c
    ensures !InBank(B.HandlerStep(bank), c)
  {
  }

  lemma RespondKeepsMembers(bank: B.State, ph: seq<Phase>)
    requires B.Inv(bank) && MemberInv(bank, ph) && bank.h.HRespond? && bank.h.id < |ph| && PlacedIn(bank, bank.h.id)
    ensures MemberInv(B.HandlerStep(bank), ph[bank.h.id := Present])
  {
    var bank' := B.HandlerStep(bank);
    forall c: nat
      ensures InBank(bank', c) <==> InBank(bank, c)
      ensures PlacedIn(bank', c) <==> PlacedIn(bank, c)
    {
      SameBank(bank, bank', c);
    }
  }

  lemma DispatcherKeepsMembers(bank: B.State, ph: seq<Phase>)
    requires MemberInv(bank, ph)
    ensures MemberInv(B.DispatcherStep(bank), ph)
  {
    var bank' := B.DispatcherStep(bank);
    forall c: nat
      ensures InBank(bank', c) <==> InBank(bank, c)
      ensures PlacedIn(bank', c) <==> PlacedIn(bank, c)
      ensures Withdraws(bank', c) == Withdraws(bank, c)
    {
      SameBank(bank, bank', c);
    }
  }

  // ---------- the steps of the system ----------

  ghost predicate MembersInv(s: State) {
    MemberInv(s.bank, Phases(s))
  }

  lemma PhaseAfter(x: S.State, inside: S.Move)
    requires S.Formed(x) && S.ControlInv(x)
    ensures PhaseOf(S.Apply(x, inside)) ==
      if inside.SubscribeHandled? && x.client.Subscribing? then Awaiting
      else if inside.Responded? && x.client.AwaitingResponse? then Present
      else if inside.LeaveHandled? && x.leavePending then Gone
      else PhaseOf(x)
  {
  }

  lemma TouchedPhases(s: State, c: nat, inside: S.Move)
    requires Formed(s) && SessionsInv(s) && c < |s.sessions|
    ensures Phases(Touch(s, c, inside)) == Phases(s)[c := PhaseOf(S.Apply(s.sessions[c], inside))]
    ensures S.ControlInv(s.sessions[c])
  {
    assert S.Inv(s.sessions[c]);
  }

  lemma QuietTouchKeepsPhases(s: State, c: nat, inside: S.Move)
    requires Formed(s) && SessionsInv(s)
    requires !inside.SubscribeHandled? && !inside.Responded? && !inside.LeaveHandled?
    ensures Phases(Touch(s, c, inside)) == Phases(s) && Touch(s, c, inside).bank == s.bank
  {
    if c < |s.sessions| {
      TouchedPhases(s, c, inside);
      PhaseAfter(s.sessions[c], inside);
    }
  }

  lemma TakeSubscribeKeepsMembers(s: State, c: nat, fails: bool)
    requires Formed(s) && Inv(s) && MembersInv(s) && CanTakeSubscribe(s, c)
    ensures MembersInv(Apply(s, TakeSubscribe(c, fails)))
  {
    var s1 := s.(bank := B.Apply(s.bank, B.Subscribe(c, fails)));
    assert Phases(s1) == Phases(s);
    TouchedPhases(s1, c, S.SubscribeHandled);
    PhaseAfter(s.sessions[c], S.SubscribeHandled);
    SubscribeKeepsMembers(s.bank, Phases(s), c, fails);
  }

  lemma LeaveIsHandled(x: S.State)
    requires S.Formed(x) && S.ControlInv(x) && x.leavePending
    ensures PhaseOf(x).Present? && PhaseOf(S.Apply(x, S.LeaveHandled)).Gone?
  {
  }

  lemma TakeUnsubscribeKeepsMembers(s: State, c: nat)
    requires Formed(s) && Inv(s) && MembersInv(s) && CanTakeUnsubscribe(s, c)
    ensures MembersInv(Apply(s, TakeUnsubscribe(c)))
  {
    var s1 := s.(bank := B.Apply(s.bank, B.Unsubscribe(c)));
    assert Phases(s1) == Phases(s);
    TouchedPhases(s1, c, S.LeaveHandled);
    LeaveIsHandled(s.sessions[c]);
    UnsubscribeKeepsMembers(s.bank, Phases(s), c);
  }

  lemma HandlerMoveKeepsMembers(s: State)
    requires Formed(s) && Inv(s) && MembersInv(s)
    ensures MembersInv(Apply(s, HandlerMove))
  {
    var s1 := s.(bank := B.HandlerStep(s.bank));
    assert Phases(s1) == Phases(s);
    if s.bank.h.HRespond? {
      var c := s.bank.h.id;
      assert Statuses(s)[c].awaiting;
      TouchedPhases(s1, c, S.Responded);
      PhaseAfter(s.sessions[c], S.Responded);
      RespondKeepsMembers(s.bank, Phases(s));
    } else {
      HandlerKeepsMembers(s.bank, Phases(s));
    }
  }

  /** What a dispatcher step does, as the bank and the phases see it. */
  lemma DispatcherMoveShape(s: State)
    requires Formed(s) && SessionsInv(s)
    ensures var s' := Apply(s, DispatcherMove);
      Phases(s') == Phases(s) && (s'.bank == s.bank || s'.bank == B.DispatcherStep(s.bank))
  {
    var s1 := s.(bank := B.DispatcherStep(s.bank));
    if Serving(s.bank, |s.sessions|) {
      QuietTouchKeepsPhases(s, Served(s.bank), S.ServiceMove);
      assert Phases(Apply(s, DispatcherMove)) == Phases(Touch(s, Served(s.bank), S.ServiceMove));
    } else {
      assert Phases(s1) == Phases(s);
      if Serving(s1.bank, |s.sessions|) {
        QuietTouchKeepsPhases(s1, Served(s1.bank), S.BeginVisit);
      }
    }
  }

  lemma DispatcherMoveKeepsMembers(s: State)
    requires Formed(s) && SessionsInv(s) && MembersInv(s)
    ensures MembersInv(Apply(s, DispatcherMove))
  {
    DispatcherKeepsMembers(s.bank, Phases(s));
    DispatcherMoveShape(s);
  }

  lemma StepKeepsMembers(s: State, move: Move)
    requires Formed(s) && Inv(s) && MembersInv(s)
    ensures MembersInv(Apply(s, move))
  {
    match move
    case ClientMove(c) => QuietTouchKeepsPhases(s, c, S.ClientMove);
    case SpuriousWake(c) => QuietTouchKeepsPhases(s, c, S.SpuriousWake);
    case TakeSubscribe(c, fails) => if CanTakeSubscribe(s, c) { TakeSubscribeKeepsMembers(s, c, fails); }
    case TakeUnsubscribe(c) => if CanTakeUnsubscribe(s, c) { TakeUnsubscribeKeepsMembers(s, c); }
    case HandlerMove => HandlerMoveKeepsMembers(s);
    case DispatcherMove => DispatcherMoveKeepsMembers(s);
    case WorkerMove(t) =>
      if Serving(s.bank, |s.sessions|) { QuietTouchKeepsPhases(s, Served(s.bank), S.WorkerMove(t)); }
  }

  lemma InitMembers(slots: nat, capacity: nat, setups: seq<Setup>)
    requires GoodSetups(setups, capacity)
    ensures MembersInv(Init(slots, capacity, setups))
  {
  }

  lemma {:induction false} RunKeepsMembers(s: State, moves: seq<Move>)
    requires Formed(s) && Inv(s) && MembersInv(s)
    ensures MembersInv(Run(s, moves))
  {
    if moves != [] {
      RunKeepsMembers(s, moves[..|moves| - 1]);
      RunKeepsInv(s, moves[..|moves| - 1]);
      StepKeepsMembers(Run(s, moves[..|moves| - 1]), moves[|moves| - 1]);
    }
  }

  lemma MembersAtRest(bank: B.State, ph: seq<Phase>, c: nat)
    requires B.Inv(bank) && MemberInv(bank, ph) && bank.h.HIdle? && c < |ph|
    ensures InBank(bank, c) <==> ph[c].Present?
    ensures PlacedIn(bank, c) <==> ph[c].Present?
  {
    if PlacedIn(bank, c) {
      PlacedIsIn(bank, c);
    }
  }

  /** In every run, whenever the handler is between messages, the bank holds exactly the clients that have been answered
      and whose leave message has not been handled: whoever is subscribed has had its response, whoever had its response
      and did not leave has a valid slot, and whoever has left has given it back. */
  lemma BankIsTheMembers(slots: nat, capacity: nat, setups: seq<Setup>, moves: seq<Move>, c: nat)
    requires GoodSetups(setups, capacity)
    requires c < |Run(Init(slots, capacity, setups), moves).sessions|
    ensures var s := Run(Init(slots, capacity, setups), moves); var x := s.sessions[c];
      s.bank.h.HIdle? ==>
        && (InBank(s.bank, c) ==> !x.client.Starting? && !x.client.Subscribing? && !x.client.AwaitingResponse?)
        && (InBank(s.bank, c) <==> PlacedIn(s.bank, c))
        && (x.client.LoopHead? || x.client.Enqueuing? || x.client.Waiting? ==> InBank(s.bank, c))
        && (x.client.Leaving? || x.client.Checked? ==> (InBank(s.bank, c) <==> x.leavePending))
  {
    var init := Init(slots, capacity, setups);
    InitInv(slots, capacity, setups);
    InitMembers(slots, capacity, setups);
    RunKeepsInv(init, moves);
    RunKeepsMembers(init, moves);
    var s := Run(init, moves);
    if s.bank.h.HIdle? {
      MembersAtRest(s.bank, Phases(s), c);
    }
  }
}
