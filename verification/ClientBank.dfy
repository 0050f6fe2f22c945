/** The client bank: the handler thread's subscribe and unsubscribe, the dispatcher thread's rounds, and the flag
    between them. One load or store of shared data per step; what a step reads besides (the bank's ids, and the valid
    set inside the handler) is written by the handler alone.

    A subscribe that finds no free slot has no defined outcome in the source, so it is not a move. */
module ClientBank {
  import opened Wrappers

  type Id = nat

  datatype Slot = Slot(subscribed: bool, id: Id)

  datatype Handler =
    | HIdle
    | HReset(id: Id, fails: bool, slot: nat)   // chose a free slot
    | HFill(id: Id, fails: bool, slot: nat)    // put a fresh context there
    | HAddWait(id: Id, slot: nat)              // context filled, waiting for the flag to drop
    | HAddSet(id: Id, slot: nat)               // saw the flag down, about to set the bit
    | HAddStore(id: Id, slot: nat)             // about to raise the flag
    | HRespond(id: Id)                         // AddClient returned true, about to answer the client
    | HRemWait(slot: nat)
    | HRemClear(slot: nat)
    | HRemStore(slot: nat)
    | HRemWaitAgain(slot: nat)
    | HUnsubscribe(slot: nat)

  datatype Dispatcher =
    | DTop                // about to load the flag
    | DRead               // about to copy the valid set
    | DLower              // about to lower the flag
    | DScan(i: nat)       // about to test bit i of the local set
    | DServe(i: nat)      // serving slot i

  datatype State = State(bank: seq<Slot>, valid: set<nat>, flag: bool, local: set<nat>, h: Handler, d: Dispatcher)

  datatype Move = Subscribe(id: Id, fails: bool) | Unsubscribe(id: Id) | HandlerMove | DispatcherMove

  function Init(slots: nat): State {
    State(seq(slots, _ => Slot(false, 0)), {}, false, {}, HIdle, DTop)
  }

  // ---------- the handler's searches ----------

  /** ClientExists: the first subscribed slot with this id. */
  function FindSubscribed(bank: seq<Slot>, id: Id, from: nat): (found: Option<nat>)
    requires from <= |bank|
    ensures found.Some? ==> from <= found.value < |bank|
    decreases |bank| - from
  {
    if from == |bank| then None
    else if bank[from].subscribed && bank[from].id == id then Some(from)
    else FindSubscribed(bank, id, from + 1)
  }

  /** RemoveClient: the first slot with this id, subscribed or not, and slot 0 if there is none. */
  function FindById(bank: seq<Slot>, id: Id, from: nat): nat
    requires from <= |bank|
    decreases |bank| - from
  {
    if from == |bank| then 0
    else if bank[from].id == id then from
    else FindById(bank, id, from + 1)
  }

  /** AddClient: the first slot whose bit is clear. */
  function FirstFree(valid: set<nat>, slots: nat, from: nat): (free: Option<nat>)
    requires from <= slots
    ensures free.Some? ==> from <= free.value < slots
    decreases slots - from
  {
    if from == slots then None
    else if from !in valid then Some(from)
    else FirstFree(valid, slots, from + 1)
  }

  // ---------- the steps ----------

  function HandlerStep(s: State): (s': State)
    ensures |s'.bank| == |s.bank|
  {
    match s.h
    case HIdle => s
    case HReset(id, fails, slot) =>
      if slot < |s.bank| then s.(bank := s.bank[slot := Slot(false, 0)], h := HFill(id, fails, slot)) else s
    case HFill(id, fails, slot) =>
      if slot < |s.bank| then
        s.(bank := s.bank[slot := Slot(!fails, id)], h := if fails then HIdle else HAddWait(id, slot))
      else s
    case HAddWait(id, slot) => if s.flag then s else s.(h := HAddSet(id, slot))
    case HAddSet(id, slot) => s.(valid := s.valid + {slot}, h := HAddStore(id, slot))
    case HAddStore(id, slot) => s.(flag := true, h := HRespond(id))
    case HRespond(_) => s.(h := HIdle)
    case HRemWait(slot) => if s.flag then s else s.(h := HRemClear(slot))
    case HRemClear(slot) => s.(valid := s.valid - {slot}, h := HRemStore(slot))
    case HRemStore(slot) => s.(flag := true, h := HRemWaitAgain(slot))
    case HRemWaitAgain(slot) => if s.flag then s else s.(h := HUnsubscribe(slot))
    case HUnsubscribe(slot) =>
      if slot < |s.bank| then s.(bank := s.bank[slot := s.bank[slot].(subscribed := false)], h := HIdle) else s
  }

  function DispatcherStep(s: State): (s': State)
    ensures |s'.bank| == |s.bank|
  {
    match s.d
    case DTop => s.(d := if s.flag then DRead else DScan(0))
    case DRead => s.(local := s.valid, d := DLower)
    case DLower => s.(flag := false, d := DScan(0))
    case DScan(i) =>
      if i >= |s.bank| then s.(d := DTop)
      else if i in s.local then s.(d := DServe(i))
      else s.(d := DScan(i + 1))
    case DServe(i) => s.(d := DScan(i + 1))
  }

  function Apply(s: State, move: Move): (s': State)
    ensures |s'.bank| == |s.bank|
  {
    match move
    case Subscribe(id, fails) =>
      if s.h.HIdle? && FindSubscribed(s.bank, id, 0).None? then
        (match FirstFree(s.valid, |s.bank|, 0)
         case None => s
         case Some(slot) => s.(h := HReset(id, fails, slot)))
      else s
    case Unsubscribe(id) =>
      if s.h.HIdle? && FindSubscribed(s.bank, id, 0).Some? then s.(h := HRemWait(FindById(s.bank, id, 0)))
      else s
    case HandlerMove => HandlerStep(s)
    case DispatcherMove => DispatcherStep(s)
  }

  function Run(s: State, moves: seq<Move>): (s': State)
    ensures |s'.bank| == |s.bank|
  {
    if moves == [] then s else Apply(Run(s, moves[..|moves| - 1]), moves[|moves| - 1])
  }

  // ---------- the handshake ----------

  /** The handler has changed the valid set and not yet raised the flag. */
  predicate BetweenWriteAndStore(h: Handler) {
    h.HAddStore? || h.HRemStore?
  }

  /** Bits on which the dispatcher's copy differs from the valid set. */
  function Difference(s: State): set<nat> {
    (s.valid - s.local) + (s.local - s.valid)
  }

  ghost predicate AtMostOne(x: set<nat>) {
    forall i, j | i in x && j in x :: i == j
  }

  ghost predicate HandshakeInv(s: State) {
    && (s.h.HAddSet? || s.h.HRemClear? || BetweenWriteAndStore(s.h) || s.h.HUnsubscribe? ==> !s.flag)
    && (s.d.DRead? || s.d.DLower? ==> s.flag)
    && (s.d.DLower? ==> s.local == s.valid)
    && (!s.flag && !BetweenWriteAndStore(s.h) ==> s.local == s.valid)
    && (s.h.HAddStore? ==> s.h.slot in s.valid && s.local == s.valid - {s.h.slot})
    && (s.h.HRemStore? ==> s.h.slot !in s.valid && s.local == s.valid + {s.h.slot})
    && (s.h.HRemWaitAgain? ==> s.h.slot !in s.valid && s.valid <= s.local <= s.valid + {s.h.slot})
    && (s.h.HUnsubscribe? ==> s.h.slot !in s.valid)
    && (!s.h.HRemStore? && !s.h.HRemWaitAgain? ==> s.local <= s.valid)
    && AtMostOne(Difference(s))
  }

  /** The slot AddClient is resetting or filling. */
  function Claimed(h: Handler): set<nat> {
    match h
    case HReset(_, _, slot) => {slot}
    case HFill(_, _, slot) => {slot}
    case HAddWait(_, slot) => {slot}
    case HAddSet(_, slot) => {slot}
    case _ => {}
  }

  ghost predicate OwnershipInv(s: State) {
    && (forall i | i in s.valid :: i < |s.bank|)
    && Claimed(s.h) !! s.valid
    && (forall i | i in Claimed(s.h) :: i < |s.bank|)
    && (s.d.DServe? ==> s.d.i in s.local && s.d.i < |s.bank|)
    && (s.d.DScan? ==> s.d.i <= |s.bank|)
    && (s.h.HRemWait? || s.h.HRemClear? ==> s.h.slot in s.valid)
    && (s.h.HRemStore? || s.h.HRemWaitAgain? || s.h.HUnsubscribe? ==> s.h.slot < |s.bank|)
  }

  /** Slots whose context is complete and not being withdrawn: the ones ClientExists can report. */
  predicate Live(s: State, i: nat) {
    i < |s.bank| && s.bank[i].subscribed
  }

  /** Which slots are subscribed, in terms of the bits. */
  ghost predicate SubscribedInv(s: State) {
    forall i: nat | i < |s.bank| :: Live(s, i) <==> (i in s.valid || Settling(s.h, i))
  }

  /** The slot is subscribed although its bit is not set: on its way in after filling, or on its way out. */
  predicate Settling(h: Handler, i: nat) {
    match h
    case HAddWait(_, slot) => i == slot
    case HAddSet(_, slot) => i == slot
    case HRemStore(slot) => i == slot
    case HRemWaitAgain(slot) => i == slot
    case HUnsubscribe(slot) => i == slot
    case _ => false
  }

  /** The slot between its reset and its fill, whose id is not yet that of its client. */
  predicate Blank(h: Handler, i: nat) {
    h.HFill? && h.slot == i
  }

  /** No slot below a live one carries its id, whatever the state of that slot. */
  ghost predicate FirstFitInv(s: State) {
    && (forall i: nat, j: nat | i < j < |s.bank| && Live(s, j) && !Blank(s.h, i) :: s.bank[i].id != s.bank[j].id)
    && (s.h.HReset? || s.h.HFill? ==> forall j: nat | j < |s.bank| && Live(s, j) :: s.bank[j].id != s.h.id)
    && (s.h.HReset? || s.h.HFill? ==> forall i: nat | i < s.h.slot :: i in s.valid)
    && (s.h.HAddWait? || s.h.HAddSet? || s.h.HAddStore? ==> s.h.slot < |s.bank| && s.bank[s.h.slot].id == s.h.id)
  }

  ghost predicate Inv(s: State) {
    HandshakeInv(s) && OwnershipInv(s) && SubscribedInv(s) && FirstFitInv(s)
  }

  lemma InitInv(slots: nat)
    ensures Inv(Init(slots))
  {
  }

  // ---------- the searches ----------

  lemma {:induction false} FindSubscribedIsFirst(bank: seq<Slot>, id: Id, from: nat)
    requires from <= |bank|
    ensures var found := FindSubscribed(bank, id, from);
      && (found.None? ==> forall i | from <= i < |bank| :: !(bank[i].subscribed && bank[i].id == id))
      && (found.Some? ==> from <= found.value < |bank| && bank[found.value].subscribed && bank[found.value].id == id)
      && (found.Some? ==> forall i | from <= i < found.value :: !(bank[i].subscribed && bank[i].id == id))
    decreases |bank| - from
  {
    if from < |bank| {
      FindSubscribedIsFirst(bank, id, from + 1);
    }
  }

  lemma {:induction false} FindByIdIsFirst(bank: seq<Slot>, id: Id, from: nat, j: nat)
    requires from <= j < |bank| && bank[j].id == id
    requires forall i | from <= i < j :: bank[i].id != id
    ensures FindById(bank, id, from) == j
    decreases |bank| - from
  {
    if from < j {
      FindByIdIsFirst(bank, id, from + 1, j);
    }
  }

  /** With no slot of this id the search ends at slot 0. */
  lemma {:induction false} FindByIdDefaults(bank: seq<Slot>, id: Id, from: nat)
    requires from <= |bank| && forall i | from <= i < |bank| :: bank[i].id != id
    ensures FindById(bank, id, from) == 0
    decreases |bank| - from
  {
    if from < |bank| {
      FindByIdDefaults(bank, id, from + 1);
    }
  }

  lemma {:induction false} FirstFreeIsFirst(valid: set<nat>, slots: nat, from: nat)
    requires from <= slots
    ensures var free := FirstFree(valid, slots, from);
      && (free.None? ==> forall i: nat | from <= i < slots :: i in valid)
      && (free.Some? ==> from <= free.value < slots && free.value !in valid)
      && (free.Some? ==> forall i: nat | from <= i < free.value :: i in valid)
    decreases slots - from
  {
    if from < slots {
      FirstFreeIsFirst(valid, slots, from + 1);
    }
  }

  /** RemoveClient's search ignores `subscribed`, yet it finds the very slot ClientExists reports. */
  lemma RemovalFindsTheLiveSlot(s: State, id: Id)
    requires Inv(s) && s.h.HIdle? && FindSubscribed(s.bank, id, 0).Some?
    ensures FindById(s.bank, id, 0) == FindSubscribed(s.bank, id, 0).value
    ensures FindById(s.bank, id, 0) in s.valid
  {
    FindSubscribedIsFirst(s.bank, id, 0);
    var j := FindSubscribed(s.bank, id, 0).value;
    assert Live(s, j);
    FindByIdIsFirst(s.bank, id, 0, j);
  }

  // ---------- every step keeps the invariant ----------

  lemma DispatcherStepKeepsInv(s: State)
    requires Inv(s)
    ensures Inv(DispatcherStep(s))
  {
    var s' := DispatcherStep(s);
    assert forall i: nat | i < |s.bank| :: Live(s', i) == Live(s, i);
  }

  lemma HandlerStepKeepsHandshake(s: State)
    requires Inv(s)
    ensures HandshakeInv(HandlerStep(s))
  {
  }

  lemma HandlerStepKeepsOwnership(s: State)
    requires Inv(s)
    ensures OwnershipInv(HandlerStep(s))
  {
  }

  lemma HandlerStepKeepsSubscribed(s: State)
    requires Inv(s)
    ensures SubscribedInv(HandlerStep(s))
  {
    var s' := HandlerStep(s);
    forall i: nat | i < |s'.bank|
      ensures Live(s', i) <==> (i in s'.valid || Settling(s'.h, i))
    {
      assert Live(s, i) <==> (i in s.valid || Settling(s.h, i));
    }
  }

  lemma HandlerStepKeepsFirstFit(s: State)
    requires Inv(s)
    ensures FirstFitInv(HandlerStep(s))
  {
    var s' := HandlerStep(s);
    forall i: nat, j: nat | i < j < |s'.bank| && Live(s', j) && !Blank(s'.h, i)
      ensures s'.bank[i].id != s'.bank[j].id
    {
      if s.h.HFill? && j == s.h.slot {
        assert Live(s, i);
      } else if s.h.HFill? && i == s.h.slot {
        assert Live(s, j);
      } else {
        assert Live(s, j) && !Blank(s.h, i);
      }
    }
    if s'.h.HReset? || s'.h.HFill? {
      forall j: nat | j < |s'.bank| && Live(s', j)
        ensures s'.bank[j].id != s'.h.id
      {
        assert Live(s, j);
      }
    }
  }

  lemma MessageKeepsInv(s: State, move: Move)
    requires Inv(s) && (move.Subscribe? || move.Unsubscribe?)
    ensures Inv(Apply(s, move))
  {
    var s' := Apply(s, move);
    FindSubscribedIsFirst(s.bank, move.id, 0);
    FirstFreeIsFirst(s.valid, |s.bank|, 0);
    assert forall i: nat | i < |s.bank| :: Live(s', i) == Live(s, i);
    if move.Unsubscribe? && s.h.HIdle? && FindSubscribed(s.bank, move.id, 0).Some? {
      RemovalFindsTheLiveSlot(s, move.id);
    }
  }

  lemma StepKeepsInv(s: State, move: Move)
    requires Inv(s)
    ensures Inv(Apply(s, move))
  {
    match move
    case Subscribe(_, _) => MessageKeepsInv(s, move);
    case Unsubscribe(_) => MessageKeepsInv(s, move);
    case DispatcherMove => DispatcherStepKeepsInv(s);
    case HandlerMove =>
      HandlerStepKeepsHandshake(s);
      HandlerStepKeepsOwnership(s);
      HandlerStepKeepsSubscribed(s);
      HandlerStepKeepsFirstFit(s);
  }

  lemma {:induction false} RunKeepsInv(s: State, moves: seq<Move>)
    requires Inv(s)
    ensures Inv(Run(s, moves))
  {
    if moves != [] {
      RunKeepsInv(s, moves[..|moves| - 1]);
      StepKeepsInv(Run(s, moves[..|moves| - 1]), moves[|moves| - 1]);
    }
  }

  // ---------- the flag comes down ----------

  /** Dispatcher steps until it lowers the flag, given that the flag is up. */
  function StepsToLower(s: State): nat {
    match s.d
    case DLower => 1
    case DRead => 2
    case DTop => 3
    case DScan(i) => 4 + (if i < |s.bank| then 2 * (|s.bank| - i) else 0)
    case DServe(i) => 3 + (if i < |s.bank| then 2 * (|s.bank| - i) else 0)
  }

  lemma DispatcherGetsCloser(s: State)
    requires OwnershipInv(s) && s.flag
    ensures var s' := DispatcherStep(s); !s'.flag || StepsToLower(s') < StepsToLower(s)
  {
  }

  // ---------- what every run promises ----------

  /** Slot ownership: while AddClient resets or fills a slot, the dispatcher neither holds its bit nor serves it, and
      a slot that is being served is in the dispatcher's copy. */
  lemma SlotOwnership(slots: nat, moves: seq<Move>)
    ensures var s := Run(Init(slots), moves);
      && (s.h.HReset? || s.h.HFill? ==>
            s.h.slot < slots && s.h.slot !in s.valid && s.h.slot !in s.local && s.d != DServe(s.h.slot))
      && (s.d.DServe? ==> s.d.i in s.local && s.d.i < slots)
  {
    InitInv(slots);
    RunKeepsInv(Init(slots), moves);
  }

  /** The handshake: the handler writes the valid set only with the flag down, the dispatcher reads it only with the
      flag up; with the flag down and no write unannounced the copy is exact, and it is never off by more than one
      bit; between messages the copy never holds a bit the valid set lacks. */
  lemma FlagHandshake(slots: nat, moves: seq<Move>)
    ensures var s := Run(Init(slots), moves);
      && (s.h.HAddSet? || s.h.HRemClear? ==> !s.flag && !s.d.DRead?)
      && (s.d.DRead? ==> s.flag && !BetweenWriteAndStore(s.h))
      && (!s.flag && !BetweenWriteAndStore(s.h) ==> s.local == s.valid)
      && |Difference(s)| <= 1
      && (s.h.HIdle? ==> s.local <= s.valid)
  {
    InitInv(slots);
    RunKeepsInv(Init(slots), moves);
    AtMostOneIsSmall(Difference(Run(Init(slots), moves)));
  }

  lemma AtMostOneIsSmall(x: set<nat>)
    requires AtMostOne(x)
    ensures |x| <= 1
  {
    if x != {} {
      var i :| i in x;
      assert x == {i};
    }
  }

  /** Identity: between messages the subscribed slots are the valid ones, no two of them share an id, no lower slot
      of any kind carries the id of a subscribed one, and an unsubscribe picks exactly that one. */
  lemma OneLiveSlotPerId(slots: nat, moves: seq<Move>, id: Id)
    ensures var s := Run(Init(slots), moves);
      s.h.HIdle? ==>
        && (forall i: nat | i < slots :: s.bank[i].subscribed <==> i in s.valid)
        && (forall i: nat, j: nat | i < j < slots && s.bank[j].subscribed :: s.bank[i].id != s.bank[j].id)
        && (forall j: nat | j < slots && s.bank[j].subscribed && s.bank[j].id == id ::
              Apply(s, Unsubscribe(id)).h == HRemWait(j))
  {
    InitInv(slots);
    RunKeepsInv(Init(slots), moves);
    var s := Run(Init(slots), moves);
    if s.h.HIdle? {
      forall i: nat | i < slots
        ensures s.bank[i].subscribed <==> i in s.valid
      {
        assert Live(s, i) <==> i in s.valid;
      }
      forall i: nat, j: nat | i < j < slots && s.bank[j].subscribed
        ensures s.bank[i].id != s.bank[j].id
      {
        assert Live(s, j) && !Blank(s.h, i);
      }
      FindSubscribedIsFirst(s.bank, id, 0);
      if FindSubscribed(s.bank, id, 0).Some? {
        RemovalFindsTheLiveSlot(s, id);
      }
    }
  }
}
