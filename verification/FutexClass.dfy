/** The futex signaller as the object the source has. Between any two of a thread's accesses all other threads run for
    as long as they like, and the kernel may end its sleep for no reason. */
module FutexObject {
  import opened Futex

  /** Some schedule takes the machine from s to s'. */
  ghost predicate Leads(s: State, s': State) {
    exists moves :: LeadsBy(s, moves, s')
  }

  ghost predicate LeadsBy(s: State, moves: seq<Move>, s': State) {
    s' == Run(s, moves)
  }

  lemma LeadsNowhere(s: State)
    ensures Leads(s, s)
  {
    assert LeadsBy(s, [], s);
  }

  lemma LeadsOn(s: State, s': State, move: Move)
    requires Leads(s, s')
    ensures Leads(s, Apply(s', move))
  {
    var moves :| LeadsBy(s, moves, s');
    assert (moves + [move])[..|moves|] == moves;
    assert LeadsBy(s, moves + [move], Apply(s', move));
  }

  lemma {:induction false} RunOn(s: State, first: seq<Move>, second: seq<Move>)
    ensures Run(s, first + second) == Run(Run(s, first), second)
  {
    var moves := first + second;
    if second == [] {
      assert moves == first;
    } else {
      assert moves[..|moves| - 1] == first + second[..|second| - 1];
      RunOn(s, first, second[..|second| - 1]);
    }
  }

  lemma LeadsThrough(s: State, m: State, s': State)
    requires Leads(s, m) && Leads(m, s')
    ensures Leads(s, s')
  {
    var first :| LeadsBy(s, first, m);
    var second :| LeadsBy(m, second, s');
    RunOn(s, first, second);
    assert LeadsBy(s, first + second, s');
  }

  /** The word was set at some moment on the way. */
  ghost predicate WasSet(s: State, s': State) {
    exists m :: Leads(s, m) && Leads(m, s') && m.word == 1
  }

  /** The word was clear at some moment on the way. */
  ghost predicate WasClear(s: State, s': State) {
    exists m :: Leads(s, m) && Leads(m, s') && m.word == 0
  }

  /** Waiter w made at least n swaps on the way, and each found the word clear. */
  ghost predicate Missed(s: State, s': State, w: nat, n: nat)
    decreases n, 1
  {
    if n == 0 then Leads(s, s') else exists m :: MissedLast(s, m, s', w, n)
  }

  ghost predicate MissedLast(s: State, m: State, s': State, w: nat, n: nat)
    requires n > 0
    decreases n, 0
  {
    && Missed(s, m, w, n - 1)
    && w < |m.waiters| && m.waiters[w].WAtCas? && m.word == 0 && Leads(WaiterStep(m, w), s')
  }

  lemma {:induction false} MissedStill(s: State, s': State, end: State, w: nat, n: nat)
    requires Missed(s, s', w, n) && Leads(s', end)
    ensures Missed(s, end, w, n)
  {
    if n == 0 {
      LeadsThrough(s, s', end);
    } else {
      var m :| MissedLast(s, m, s', w, n);
      LeadsThrough(WaiterStep(m, w), s', end);
      assert MissedLast(s, m, end, w, n);
    }
  }

  lemma MissedOnceMore(s: State, m: State, w: nat, n: nat)
    requires Missed(s, m, w, n) && w < |m.waiters| && m.waiters[w].WAtCas? && m.word == 0
    ensures Missed(s, WaiterStep(m, w), w, n + 1)
  {
    LeadsNowhere(WaiterStep(m, w));
    assert MissedLast(s, m, WaiterStep(m, w), w, n + 1);
  }

  lemma {:induction false} MissedOnTheWay(s: State, s': State, w: nat, n: nat)
    requires Missed(s, s', w, n)
    ensures Leads(s, s') && (n > 0 ==> WasClear(s, s'))
    decreases n
  {
    if n > 0 {
      var m :| MissedLast(s, m, s', w, n);
      MissedOnTheWay(s, m, w, n - 1);
      LeadsNowhere(m);
      LeadsOn(m, m, StepWaiter(w));
      LeadsThrough(m, WaiterStep(m, w), s');
      LeadsThrough(s, m, s');
    }
  }

  /** Wait had to go on: w's swap failed in every one of `rounds` rounds, or it failed and w is asleep. */
  ghost predicate HadToWait(s: State, s': State, w: nat, rounds: nat) {
    exists n: nat ::
      n <= rounds && Missed(s, s', w, n) &&
      (n == rounds || (n > 0 && w < |s'.waiters| && s'.waiters[w].WAsleep?))
  }

  /** How often something happened. */
  ghost function Count(log: seq<Event>, event: Event): nat {
    multiset(log)[event]
  }

  /** Only a thread's own swap is recorded for it. */
  lemma StepRecords(s: State, move: Move, event: Event)
    ensures var s' := Apply(s, move);
      Count(s'.log, event) == Count(s.log, event) + (
        match event
        case Signalled(k) =>
          if move == StepWaker(k) && k < |s.wakers| && s.wakers[k].KAtCas? && s.word == 0 then 1 else 0
        case Taken(w) =>
          if move == StepWaiter(w) && w < |s.waiters| && s.waiters[w].WAtCas? && s.word == 1 then 1 else 0)
  {
  }

  class FutexSignaller {
    var word: nat     // the shared atomic word
    var model: State  // read only to let the other threads run and the kernel act, never for the word

    ghost predicate Valid()
      reads this
    {
      Inv(model) && model.word == word
    }

    constructor (waiters: nat, wakers: nat)
      ensures Valid() && model == Init(waiters, wakers)
    {
      word := 0;
      model := Init(waiters, wakers);
    }

    /** Records the access or system call that waiter w has just made. */
    method RecordWaiter(w: nat, ghost origin: State)
      requires Inv(model) && w < |model.waiters| && Leads(origin, model)
      requires Apply(model, StepWaiter(w)).word == word
      modifies this`model
      ensures Valid() && Leads(origin, model) && model == Apply(old(model), StepWaiter(w))
    {
      LeadsOn(origin, model, StepWaiter(w));
      StepKeepsInv(model, StepWaiter(w));
      model := Apply(model, StepWaiter(w));
    }

    method RecordWaker(k: nat, ghost origin: State)
      requires Inv(model) && k < |model.wakers| && Leads(origin, model)
      requires Apply(model, StepWaker(k)).word == word
      modifies this`model
      ensures Valid() && Leads(origin, model) && model == Apply(old(model), StepWaker(k))
    {
      LeadsOn(origin, model, StepWaker(k));
      StepKeepsInv(model, StepWaker(k));
      model := Apply(model, StepWaker(k));
    }

    /** One step of some other thread, or a spurious wakeup: the event is not one of its own. */
    method OtherStep(move: Move, ghost event: Event, ghost origin: State)
      requires Valid() && Leads(origin, model)
      requires match event case Signalled(k) => move != StepWaker(k) case Taken(w) => move != StepWaiter(w)
      modifies this
      ensures Valid() && Leads(origin, model) && model == Apply(old(model), move)
      ensures |model.waiters| == old(|model.waiters|) && |model.wakers| == old(|model.wakers|)
      ensures Count(model.log, event) == old(Count(model.log, event))
    {
      LeadsOn(origin, model, move);
      StepKeepsInv(model, move);
      StepRecords(model, move, event);
      model := Apply(model, move);
      word := model.word;
    }

    /** All threads but waiter w run for a while; w itself may be woken. */
    method OthersThanWaiter(w: nat, ghost origin: State)
      requires Valid() && Leads(origin, model) && w < |model.waiters|
      modifies this
      ensures Valid() && Leads(origin, model) && w < |model.waiters|
      ensures model.waiters[w] == old(model.waiters[w]) || model.waiters[w] == Awake(old(model.waiters[w]))
      ensures Count(model.log, Taken(w)) == old(Count(model.log, Taken(w)))
    {
      var steps: nat :| true;
      for i := 0 to steps
        invariant Valid() && Leads(origin, model) && w < |model.waiters|
        invariant model.waiters[w] == old(model.waiters[w]) || model.waiters[w] == Awake(old(model.waiters[w]))
        invariant Count(model.log, Taken(w)) == old(Count(model.log, Taken(w)))
      {
        var move: Move :| true;
        if move != StepWaiter(w) {
          OtherStep(move, Taken(w), origin);
        }
      }
    }

    /** All threads but waker k run for a while. */
    method OthersThanWaker(k: nat, ghost origin: State)
      requires Valid() && Leads(origin, model) && k < |model.wakers|
      modifies this
      ensures Valid() && Leads(origin, model) && k < |model.wakers| && model.wakers[k] == old(model.wakers[k])
      ensures Count(model.log, Signalled(k)) == old(Count(model.log, Signalled(k)))
    {
      var steps: nat :| true;
      for i := 0 to steps
        invariant Valid() && Leads(origin, model) && k < |model.wakers| && model.wakers[k] == old(model.wakers[k])
        invariant Count(model.log, Signalled(k)) == old(Count(model.log, Signalled(k)))
      {
        var move: Move :| true;
        if move != StepWaker(k) {
          OtherStep(move, Signalled(k), origin);
        }
      }
    }

    /** Wake: raise the word if it is down, and then wake every sleeper. Whether or not the swap succeeds, the word was
        set at some moment of the call; the call leaves one signal of its own exactly when it succeeds. */
    method Wake(k: nat) returns (effective: bool)
      requires Valid() && k < |model.wakers| && model.wakers[k].KReady?
      modifies this
      ensures Valid() && Leads(old(model), model) && WasSet(old(model), model)
      ensures k < |model.wakers| && model.wakers[k].KReady?
      ensures Count(model.log, Signalled(k)) == old(Count(model.log, Signalled(k))) + (if effective then 1 else 0)
    {
      ghost var origin := model;
      LeadsNowhere(model);
      RecordWaker(k, origin);
      OthersThanWaker(k, origin);

      effective := word == 0;
      if effective {
        word := 1;
      }
      RecordWaker(k, origin);
      ghost var swapped := model;
      LeadsNowhere(model);
      if effective {
        OthersThanWaker(k, swapped);
        RecordWaker(k, swapped);
      }
      LeadsThrough(origin, swapped, model);
    }

    /** The first `rounds` rounds of Wait's loop. It returns exactly when it has taken one signal itself. Otherwise it
        has taken none and is still under way, because its swap failed in every round, or failed and put it to sleep. */
    method Wait(w: nat, rounds: nat) returns (returned: bool)
      requires Valid() && w < |model.waiters| && model.waiters[w].WReady?
      modifies this
      ensures Valid() && Leads(old(model), model) && w < |model.waiters|
      ensures returned <==> model.waiters[w].WReady?
      ensures Count(model.log, Taken(w)) == old(Count(model.log, Taken(w))) + (if returned then 1 else 0)
      ensures !returned ==> HadToWait(old(model), model, w, rounds)
      ensures !returned && rounds > 0 ==> WasClear(old(model), model)
    {
      ghost var origin := model;
      LeadsNowhere(model);
      RecordWaiter(w, origin);
      for i := 0 to rounds
        invariant Valid() && Leads(origin, model) && Missed(origin, model, w, i)
        invariant w < |model.waiters| && model.waiters[w].WAtCas?
        invariant Count(model.log, Taken(w)) == Count(origin.log, Taken(w))
      {
        ghost var atTop := model;
        LeadsNowhere(model);
        OthersThanWaiter(w, atTop);
        MissedStill(origin, atTop, model, w, i);
        MissedOnTheWay(origin, model, w, i);
        if word == 1 {
          word := 0;
          RecordWaiter(w, origin);
          return true;
        }
        MissedOnceMore(origin, model, w, i);
        RecordWaiter(w, origin);
        FutexWait(w, origin, i + 1);
        MissedOnTheWay(origin, model, w, i + 1);
        if model.waiters[w].WAsleep? {
          assert HadToWait(origin, model, w, rounds);
          return false;
        }
      }
      MissedOnTheWay(origin, model, w, rounds);
      return false;
    }

    /** The system call FUTEX_WAIT after a failed swap: the waiter may or may not be woken in the meantime. */
    method FutexWait(w: nat, ghost origin: State, ghost misses: nat)
      requires Valid() && w < |model.waiters| && model.waiters[w].WAtWait? && Missed(origin, model, w, misses)
      modifies this
      ensures Valid() && Missed(origin, model, w, misses) && w < |model.waiters|
      ensures model.waiters[w].WAtCas? || model.waiters[w].WAsleep?
      ensures Count(model.log, Taken(w)) == old(Count(model.log, Taken(w)))
    {
      ghost var before := model;
      LeadsNowhere(model);
      OthersThanWaiter(w, before);
      RecordWaiter(w, before);
      OthersThanWaiter(w, before);
      MissedStill(origin, before, model, w, misses);
    }
  }
}
