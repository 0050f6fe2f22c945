/** The server's shared workspace as the object the source has: the bank is an array updated in place, the valid set a
    word of bits, the flag a field. AddClient and RemoveClient are written out line by line; between any two of their
    accesses to shared data the dispatcher makes any number of steps, or none. Only in their waiting loops is it given
    at least one step a round; the loops end because each such step brings it closer to lowering the flag. */
module ServerWorkspaceObject {
  import opened Wrappers
  import opened BitSet
  import opened ClientBank

  /** Some schedule takes the bank machine from s to s'. */
  ghost predicate Leads(s: State, s': State) {
    exists moves :: LeadsBy(s, moves, s')
  }

  ghost predicate LeadsBy(s: State, moves: seq<Move>, s': State) {
    s' == Run(s, moves)
  }

  lemma LeadsNowhere(s: State)
    ensures Leads(s, s)
  {
    assert LeadsBy(s, [], s);
  }

  lemma LeadsOn(s: State, s': State, move: Move)
    requires Leads(s, s')
    ensures Leads(s, Apply(s', move))
  {
    var moves :| LeadsBy(s, moves, s');
    assert (moves + [move])[..|moves|] == moves;
    assert LeadsBy(s, moves + [move], Apply(s', move));
  }

  class ServerWorkspace {
    const slots: nat
    const clientBank: array<Slot>
    var validClients: nat             // validClientsBitSet
    var updateAvailable: bool         // clientBankUpdateAvailable
    var model: State                  // read only to let the dispatcher run, never by the handler's own lines

    /** The shared data of the object is the one of the machine state s. */
    ghost predicate Shows(s: State)
      reads this, clientBank
    {
      && |s.bank| == slots && s.bank == clientBank[..]
      && s.valid == Bits(validClients, slots) && s.flag == updateAvailable
    }

    ghost predicate Valid()
      reads this, clientBank
    {
      Inv(model) && Shows(model)
    }

    constructor (slots: nat)
      ensures Valid() && model == Init(slots) && this.slots == slots && fresh(clientBank)
    {
      InitInv(slots);
      ZeroHasNoBits(slots);
      this.slots := slots;
      clientBank := new Slot[slots](_ => Slot(false, 0));
      validClients, updateAvailable := 0, false;
      model := Init(slots);
    }

    /** The dispatcher makes any number of steps from `least` on. */
    method DispatcherRuns(least: nat, ghost origin: State)
      requires Valid() && Leads(origin, model)
      modifies this`updateAvailable, this`model
      ensures Valid() && Leads(origin, model) && model.h == old(model.h)
      ensures updateAvailable ==> old(updateAvailable) && StepsToLower(model) + least <= old(StepsToLower(model))
    {
      var more: nat :| true;
      for i := 0 to more + least
        invariant Valid() && Leads(origin, model) && model.h == old(model.h)
        invariant updateAvailable ==> old(updateAvailable)
        invariant updateAvailable ==> StepsToLower(model) + i <= old(StepsToLower(model))
      {
        LeadsOn(origin, model, DispatcherMove);
        StepKeepsInv(model, DispatcherMove);
        if model.flag {
          DispatcherGetsCloser(model);
        }
        model := DispatcherStep(model);
        updateAvailable := model.flag;
      }
    }

    /** Records the access the handler has just made; then the dispatcher makes any number of steps, or none. */
    method AfterHandlerStep(move: Move, ghost origin: State)
      requires Inv(model) && Leads(origin, model) && !move.DispatcherMove? && Shows(Apply(model, move))
      modifies this`updateAvailable, this`model
      ensures Valid() && Leads(origin, model) && model.h == Apply(old(model), move).h
      ensures updateAvailable ==> old(updateAvailable)
    {
      LeadsOn(origin, model, move);
      StepKeepsInv(model, move);
      model := Apply(model, move);
      DispatcherRuns(0, origin);
    }

    /** while (clientBankUpdateAvailable); ends as long as the dispatcher gets to make a step in each round. */
    method WaitForFlag(ghost origin: State)
      requires Valid() && Leads(origin, model)
      requires model.h.HAddWait? || model.h.HRemWait? || model.h.HRemWaitAgain?
      modifies this`updateAvailable, this`model
      ensures Valid() && Leads(origin, model) && !updateAvailable && model.h == old(model.h)
    {
      while updateAvailable
        invariant Valid() && Leads(origin, model) && model.h == old(model.h)
        decreases if updateAvailable then StepsToLower(model) else 0
      {
        DispatcherRuns(1, origin);
      }
    }

    /** ClientExists: the first subscribed slot with the id. */
    method ClientExists(clientId: Id) returns (found: bool, bankIndex: nat)
      requires Valid()
      ensures found <==> FindSubscribed(clientBank[..], clientId, 0).Some?
      ensures found ==> FindSubscribed(clientBank[..], clientId, 0) == Some(bankIndex)
      ensures found ==> bankIndex < slots && clientBank[bankIndex].subscribed && clientBank[bankIndex].id == clientId
      ensures forall i: nat | i < (if found then bankIndex else slots) ::
        !(clientBank[i].subscribed && clientBank[i].id == clientId)
    {
      for i := 0 to slots
        invariant FindSubscribed(clientBank[..], clientId, 0) == FindSubscribed(clientBank[..], clientId, i)
        invariant forall k: nat | k < i :: !(clientBank[k].subscribed && clientBank[k].id == clientId)
      {
        if clientBank[i].subscribed {
          if clientBank[i].id == clientId {
            return true, i;
          }
        }
      }
      return false, 0;
    }

    /** AddClient's search for a clear bit; there is one. */
    method FindFree() returns (indexToAdd: nat)
      requires Valid() && FirstFree(model.valid, slots, 0).Some?
      ensures FirstFree(model.valid, slots, 0) == Some(indexToAdd)
    {
      for i := 0 to slots
        invariant FirstFree(model.valid, slots, 0) == FirstFree(model.valid, slots, i)
      {
        if !GetBit(validClients, i) {
          return i;
        }
      }
      assert false;
    }

    /** RemoveClient's search by id alone, which starts from slot 0. */
    method FindToRemove(clientId: Id) returns (indexToRemove: nat)
      requires Valid()
      ensures indexToRemove == FindById(clientBank[..], clientId, 0)
      ensures forall i: nat | i < indexToRemove && i < slots :: clientBank[i].id != clientId
      ensures if exists i: nat :: i < slots && clientBank[i].id == clientId
              then indexToRemove < slots && clientBank[indexToRemove].id == clientId
              else indexToRemove == 0
    {
      for i := 0 to slots
        invariant FindById(clientBank[..], clientId, 0) == FindById(clientBank[..], clientId, i)
        invariant forall k: nat | k < i :: clientBank[k].id != clientId
      {
        if clientBank[i].id == clientId {
          return i;
        }
      }
      return 0;
    }

    /** AddClient, for a client that is not subscribed yet and with a slot free; setting up its context may throw. */
    method AddClient(clientId: Id, setupThrows: bool) returns (added: bool)
      requires Valid() && model.h.HIdle?
      requires FindSubscribed(model.bank, clientId, 0).None? && FirstFree(model.valid, slots, 0).Some?
      modifies this, clientBank
      ensures Valid() && Leads(old(model), model) && added == !setupThrows
      ensures var slot := old(FirstFree(model.valid, slots, 0)).value;
        && clientBank[..] == old(clientBank[..])[slot := Slot(added, clientId)]
        && Bits(validClients, slots) == old(Bits(validClients, slots)) + (if added then {slot} else {})
        && model.h == if added then HRespond(clientId) else HIdle
    {
      ghost var origin := model;
      LeadsNowhere(model);
      var indexToAdd := FindFree();
      FirstFreeIsFirst(model.valid, slots, 0);
      AfterHandlerStep(Subscribe(clientId, setupThrows), origin);

      FillSlot(clientId, indexToAdd, setupThrows, origin);
      if setupThrows {
        return false;
      }
      PublishBit(clientId, indexToAdd, origin);
      return true;
    }

    /** The middle of AddClient: a fresh context in the slot, filled unless the setup throws half way. */
    method FillSlot(clientId: Id, slot: nat, setupThrows: bool, ghost origin: State)
      requires Valid() && Leads(origin, model) && model.h == HReset(clientId, setupThrows, slot) && slot < slots
      modifies clientBank, this`updateAvailable, this`model
      ensures Valid() && Leads(origin, model)
      ensures model.h == if setupThrows then HIdle else HAddWait(clientId, slot)
      ensures clientBank[..] == old(clientBank[..])[slot := Slot(!setupThrows, clientId)]
    {
      clientBank[slot] := Slot(false, 0);
      AfterHandlerStep(HandlerMove, origin);

      clientBank[slot] := Slot(!setupThrows, clientId);
      AfterHandlerStep(HandlerMove, origin);
    }

    /** The end of AddClient: wait, set the bit, raise the flag. */
    method PublishBit(clientId: Id, slot: nat, ghost origin: State)
      requires Valid() && Leads(origin, model) && model.h == HAddWait(clientId, slot) && slot < slots
      modifies this`validClients, this`updateAvailable, this`model
      ensures Valid() && Leads(origin, model) && model.h == HRespond(clientId)
      ensures Bits(validClients, slots) == old(Bits(validClients, slots)) + {slot}
    {
      WaitForFlag(origin);
      AfterHandlerStep(HandlerMove, origin);

      SetBitIsSetUpdate(validClients, slot, true, slots);
      validClients := SetBit(validClients, slot, true);
      AfterHandlerStep(HandlerMove, origin);

      updateAvailable := true;
      AfterHandlerStep(HandlerMove, origin);
    }

    /** RemoveClient, for a client that is subscribed: it withdraws exactly the slot ClientExists reports, and returns
        only when the dispatcher has let go of it. */
    method RemoveClient(clientId: Id)
      requires Valid() && model.h.HIdle? && FindSubscribed(model.bank, clientId, 0).Some?
      modifies this, clientBank
      ensures Valid() && Leads(old(model), model) && model.h.HIdle?
      ensures var slot := old(FindSubscribed(model.bank, clientId, 0)).value;
        && clientBank[..] == old(clientBank[..])[slot := Slot(false, clientId)]
        && Bits(validClients, slots) == old(Bits(validClients, slots)) - {slot}
        && slot !in model.local
    {
      ghost var origin := model;
      LeadsNowhere(model);
      RemovalFindsTheLiveSlot(model, clientId);
      FindSubscribedIsFirst(model.bank, clientId, 0);
      var indexToRemove := FindToRemove(clientId);
      AfterHandlerStep(Unsubscribe(clientId), origin);
      WithdrawBit(indexToRemove, origin);
      clientBank[indexToRemove] := clientBank[indexToRemove].(subscribed := false);
      AfterHandlerStep(HandlerMove, origin);
    }

    /** The middle of RemoveClient: wait, clear the bit, raise the flag, and wait for it to be picked up. */
    method WithdrawBit(slot: nat, ghost origin: State)
      requires Valid() && Leads(origin, model) && model.h == HRemWait(slot) && slot < slots
      modifies this`validClients, this`updateAvailable, this`model
      ensures Valid() && Leads(origin, model) && model.h == HUnsubscribe(slot)
      ensures Bits(validClients, slots) == old(Bits(validClients, slots)) - {slot}
    {
      ClearBit(slot, origin);
      WaitForFlag(origin);
      AfterHandlerStep(HandlerMove, origin);
    }

    method ClearBit(slot: nat, ghost origin: State)
      requires Valid() && Leads(origin, model) && model.h == HRemWait(slot) && slot < slots
      modifies this`validClients, this`updateAvailable, this`model
      ensures Valid() && Leads(origin, model) && model.h == HRemWaitAgain(slot)
      ensures Bits(validClients, slots) == old(Bits(validClients, slots)) - {slot}
    {
      WaitForFlag(origin);
      AfterHandlerStep(HandlerMove, origin);

      SetBitIsSetUpdate(validClients, slot, false, slots);
      validClients := SetBit(validClients, slot, false);
      AfterHandlerStep(HandlerMove, origin);

      updateAvailable := true;
      AfterHandlerStep(HandlerMove, origin);
    }

    // ---------- the dispatcher's side ----------

    /** The handler takes messages and makes steps for a while. */
    method HandlerRuns(ghost origin: State)
      requires Valid() && Leads(origin, model)
      modifies clientBank, this`validClients, this`updateAvailable, this`model
      ensures Valid() && Leads(origin, model) && model.d == old(model.d) && model.local == old(model.local)
      ensures old(updateAvailable) ==> updateAvailable && validClients == old(validClients)
    {
      var steps: nat :| true;
      for i := 0 to steps
        invariant Valid() && Leads(origin, model) && model.d == old(model.d) && model.local == old(model.local)
        invariant old(updateAvailable) ==> updateAvailable && validClients == old(validClients)
      {
        var move: Move :| !move.DispatcherMove?;
        HandlerRunsOnce(move, origin);
      }
    }

    method HandlerRunsOnce(move: Move, ghost origin: State)
      requires Valid() && Leads(origin, model) && !move.DispatcherMove?
      modifies clientBank, this`validClients, this`updateAvailable, this`model
      ensures Valid() && Leads(origin, model) && model.d == old(model.d) && model.local == old(model.local)
      ensures old(updateAvailable) ==> updateAvailable && validClients == old(validClients)
    {
      LeadsOn(origin, model, move);
      StepKeepsInv(model, move);
      var before := model.h;
      model := Apply(model, move);
      forall i | 0 <= i < slots {
        clientBank[i] := model.bank[i];
      }
      if move.HandlerMove? && (before.HAddSet? || before.HRemClear?) {
        SetBitIsSetUpdate(validClients, before.slot, before.HAddSet?, slots);
        validClients := SetBit(validClients, before.slot, before.HAddSet?);
      }
      updateAvailable := model.flag;
    }

    /** Records the access the dispatcher has just made; then the handler runs for a while. */
    method AfterDispatcherStep(ghost origin: State)
      requires Inv(model) && Leads(origin, model) && Shows(DispatcherStep(model))
      modifies clientBank, this`validClients, this`updateAvailable, this`model
      ensures Valid() && Leads(origin, model)
      ensures model.d == DispatcherStep(old(model)).d && model.local == DispatcherStep(old(model)).local
      ensures DispatcherStep(old(model)).flag ==> updateAvailable && validClients == old(validClients)
    {
      LeadsOn(origin, model, DispatcherMove);
      StepKeepsInv(model, DispatcherMove);
      model := DispatcherStep(model);
      HandlerRuns(origin);
    }

    /** The top of WorkloadDispatcher's loop: pick up a changed valid set. */
    method PickUp(local: nat, ghost origin: State) returns (local': nat)
      requires Valid() && Leads(origin, model) && model.d.DTop? && model.local == Bits(local, slots)
      modifies clientBank, this`validClients, this`updateAvailable, this`model
      ensures Valid() && Leads(origin, model) && model.d == DScan(0) && model.local == Bits(local', slots)
      ensures local' == if old(updateAvailable) then old(validClients) else local
    {
      local' := local;
      var changed := updateAvailable;
      AfterDispatcherStep(origin);
      if changed {
        // The handler has been running, but with the flag up it has not touched the word.
        local' := validClients;
        AfterDispatcherStep(origin);
        updateAvailable := false;
        AfterDispatcherStep(origin);
      }
    }

    /** The body of the scan: serve the slot if the copy has its bit. */
    method Visit(i: nat, local: nat, served: seq<nat>, ghost origin: State) returns (served': seq<nat>)
      requires Valid() && Leads(origin, model) && i < slots
      requires model.d == DScan(i) && model.local == Bits(local, slots)
      modifies clientBank, this`validClients, this`updateAvailable, this`model
      ensures Valid() && Leads(origin, model) && model.d == DScan(i + 1) && model.local == Bits(local, slots)
      ensures served' == served + (if i in Bits(local, slots) then [i] else [])
    {
      served' := served;
      AfterDispatcherStep(origin);
      if GetBit(local, i) {
        served' := served + [i];
        AfterDispatcherStep(origin);
      }
    }

    /** One round of WorkloadDispatcher: it serves exactly the slots of its copy, each once, in ascending order. */
    method Round(local: nat) returns (local': nat, served: seq<nat>)
      requires Valid() && model.d.DTop? && model.local == Bits(local, slots)
      modifies clientBank, this`validClients, this`updateAvailable, this`model
      ensures Valid() && Leads(old(model), model) && model.d.DTop? && model.local == Bits(local', slots)
      ensures local' == if old(updateAvailable) then old(validClients) else local
      ensures served == Ascending(Bits(local', slots), slots)
    {
      ghost var origin := model;
      LeadsNowhere(model);
      local' := PickUp(local, origin);
      served := [];
      for i := 0 to slots
        invariant Valid() && Leads(origin, model) && model.d == DScan(i) && model.local == Bits(local', slots)
        invariant served == Ascending(Bits(local', slots), i)
      {
        served := Visit(i, local', served, origin);
      }
      AfterDispatcherStep(origin);
    }
  }

  /** The elements of x below n, in ascending order. */
  function Ascending(x: set<nat>, n: nat): seq<nat> {
    if n == 0 then [] else Ascending(x, n - 1) + (if n - 1 in x then [n - 1] else [])
  }

  predicate Occurs(i: nat, s: seq<nat>) {
    i in s
  }

  lemma {:induction false} AscendingIsExact(x: set<nat>, n: nat)
    ensures forall i: nat :: Occurs(i, Ascending(x, n)) <==> i in x && i < n
    ensures forall a, b | 0 <= a < b < |Ascending(x, n)| :: Ascending(x, n)[a] < Ascending(x, n)[b]
  {
    if n > 0 {
      var before := Ascending(x, n - 1);
      AscendingIsExact(x, n - 1);
      forall i: nat
        ensures Occurs(i, Ascending(x, n)) <==> Occurs(i, before) || (i == n - 1 && i in x)
      {
      }
      assert forall a | 0 <= a < |before| :: Occurs(before[a], before);
    }
  }

  lemma ZeroHasNoBits(width: nat)
    ensures Bits(0, width) == {}
  {
    forall q: nat
      ensures !GetBit(0, q)
    {
      ZeroReads(q);
    }
  }
}
