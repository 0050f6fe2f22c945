/** The sequence-counter queue as the object the source has: fields and a buffer updated in place.

    Enqueue and Dequeue are written out line by line. Between any two of their accesses the other caller runs for as
    long as it likes; `model` follows the real fields, so each call is shown to be a run of the step machine and
    every result about its runs holds of the object. */
module SeqLockQueueObject {
  import opened Masks
  import opened BoundedRing
  import opened SeqLockQueue
  import opened Wrappers

  /** Some schedule takes the machine from s to s'. */
  ghost predicate Leads(s: State, s': State)
    requires |s.buffer| == s.capacity > 0
  {
    exists moves :: LeadsBy(s, moves, s')
  }

  ghost predicate LeadsBy(s: State, moves: seq<Move>, s': State)
    requires |s.buffer| == s.capacity > 0
  {
    s' == Run(s, moves)
  }

  lemma LeadsNowhere(s: State)
    requires |s.buffer| == s.capacity > 0
    ensures Leads(s, s)
  {
    assert LeadsBy(s, [], s);
  }

  lemma LeadsOn(s: State, s': State, move: Move)
    requires |s.buffer| == s.capacity > 0 && |s'.buffer| == s'.capacity > 0 && Leads(s, s')
    ensures Leads(s, Apply(s', move))
  {
    var moves :| LeadsBy(s, moves, s');
    assert (moves + [move])[..|moves|] == moves;
    assert LeadsBy(s, moves + [move], Apply(s', move));
  }

  lemma {:induction false} RunOn(s: State, first: seq<Move>, second: seq<Move>)
    requires |s.buffer| == s.capacity > 0
    ensures Run(s, first + second) == Run(Run(s, first), second)
  {
    var moves := first + second;
    if second == [] {
      assert moves == first;
    } else {
      assert moves[..|moves| - 1] == first + second[..|second| - 1];
      RunOn(s, first, second[..|second| - 1]);
    }
  }

  /** Some schedule takes the machine from s through m to s'. */
  ghost predicate Between(s: State, m: State, s': State)
    requires |s.buffer| == s.capacity > 0
  {
    |m.buffer| == m.capacity > 0 && Leads(s, m) && Leads(m, s')
  }

  lemma LeadsThrough(s: State, m: State, s': State)
    requires |s.buffer| == s.capacity > 0 && Between(s, m, s')
    ensures Leads(s, s')
  {
    var first :| LeadsBy(s, first, m);
    var second :| LeadsBy(m, second, s');
    RunOn(s, first, second);
    assert LeadsBy(s, first + second, s');
  }

  /** The queue was full at some moment on the way. */
  ghost predicate WasFull(s: State, s': State)
    requires |s.buffer| == s.capacity > 0
  {
    exists m :: Between(s, m, s') && |Contents(m)| == m.capacity - 1
  }

  /** What can make a Dequeue fail: an empty queue, or an Enqueue inside its write section. */
  predicate Excuses(m: State) {
    Contents(m) == [] || Writing(m.p)
  }

  /** There was such a moment on the way. */
  ghost predicate HadExcuse(s: State, s': State)
    requires |s.buffer| == s.capacity > 0
  {
    exists m :: Between(s, m, s') && Excuses(m)
  }

  /** A longer way goes through the same places. */
  lemma Widen(origin: State, s: State, m: State, s': State, end: State)
    requires |origin.buffer| == origin.capacity > 0 && |s.buffer| == s.capacity > 0 && |s'.buffer| == s'.capacity > 0
    requires Leads(origin, s) && Between(s, m, s') && Leads(s', end)
    ensures Between(origin, m, end)
  {
    LeadsThrough(origin, s, m);
    LeadsThrough(m, s', end);
  }

  /** A counter that has moved on has a write section to blame. */
  lemma {:induction false} CounterMoved(s: State, moves: seq<Move>) returns (m: State)
    requires Inv(s) && !Undisturbed(s, moves)
    ensures Between(s, m, Run(s, moves)) && Writing(m.p)
  {
    var s' := Run(s, moves);
    assert LeadsBy(s, moves, s');
    LeadsNowhere(s');
    if Writing(s'.p) {
      m := s';
    } else {
      var init := moves[..|moves| - 1];
      var before := Run(s, init);
      m := CounterMoved(s, init);
      LeadsNowhere(s);
      LeadsNowhere(before);
      LeadsOn(before, before, moves[|moves| - 1]);
      Widen(s, s, m, before, s');
    }
  }

  /** The machine can get to s from a fresh queue. */
  ghost predicate Reachable(s: State) {
    ValidCapacity(s.capacity) && Leads(Init(s.capacity), s)
  }

  lemma ReachableInv(s: State)
    requires Reachable(s)
    ensures Inv(s)
  {
    var moves :| LeadsBy(Init(s.capacity), moves, s);
    InitInv(s.capacity);
    RunKeepsInv(Init(s.capacity), moves);
  }

  /** What the reader relies on: the cell is inside, and the counter is odd exactly inside a write section. */
  lemma ReaderFacts(s: State)
    requires Reachable(s)
    ensures s.c.CLoadedTail? || s.c.CLoadedSeq? ==> s.c.at < s.capacity
    ensures s.seqNo % 2 != 0 <==> Writing(s.p)
  {
    ReachableInv(s);
  }

  lemma CounterDiffers(s: State, s': State) returns (m: State)
    requires Reachable(s) && |s.buffer| == s.capacity
    requires !Writing(s.p) && Leads(s, s') && s'.seqNo != s.seqNo
    ensures Between(s, m, s') && Writing(m.p)
  {
    ReachableInv(s);
    var moves :| LeadsBy(s, moves, s');
    CounterDetectsWrites(s, moves);
    m := CounterMoved(s, moves);
  }

  /** One more step of a schedule, from the fresh queue and from wherever the call started. */
  lemma OneMoreStep(origin: State, s: State, move: Move)
    requires |origin.buffer| == origin.capacity > 0 && |s.buffer| == s.capacity
    requires Reachable(s) && Leads(origin, s)
    ensures Reachable(Apply(s, move)) && Leads(origin, Apply(s, move))
  {
    LeadsOn(Init(s.capacity), s, move);
    LeadsOn(origin, s, move);
  }

  class SpscQueueSeqLock {
    const capacity: nat
    const capacityMinusOne: nat
    var head: nat
    var tail: nat
    var seqNo: nat
    const buffer: array<Item>
    var model: State  // read only to let the other caller run, never by Enqueue or Dequeue

    /** The shared memory of the object is the one of the machine state s. */
    ghost predicate Shows(s: State)
      reads this, buffer
    {
      && s.capacity == capacity && capacityMinusOne == capacity - 1
      && s.head == head && s.tail == tail && s.seqNo == seqNo && s.buffer == buffer[..]
    }

    ghost predicate Valid()
      reads this, buffer
    {
      Reachable(model) && |model.buffer| == model.capacity && Shows(model)
    }

    constructor (capacity: nat)
      requires CheckCapacity(capacity) == Constructed
      ensures Valid() && model == Init(capacity) && fresh(buffer)
    {
      GuardAcceptsPowersOfTwo(capacity);
      LeadsNowhere(Init(capacity));
      this.capacity, capacityMinusOne := capacity, capacity - 1;
      head, tail, seqNo := 0, 0, 0;
      buffer := new Item[capacity](_ => 0);
      model := Init(capacity);
    }

    /** The owner's side of construction, with the constructor's two exceptions as results. */
    static method Open(capacity: nat) returns (outcome: Construction, queue: SpscQueueSeqLock?)
      ensures outcome == Constructed <==> ValidCapacity(capacity)
      ensures outcome == TooSmall <==> capacity < 2
      ensures outcome == Constructed <==> queue != null
      ensures queue != null ==> fresh(queue) && fresh(queue.buffer) && queue.Valid() && queue.model == Init(capacity)
    {
      GuardAcceptsPowersOfTwo(capacity);
      queue := null;
      if capacity < 2 {
        return TooSmall, null;
      }
      if And(capacity, capacity - 1) != 0 {
        return NotAPowerOfTwo, null;
      }
      queue := new SpscQueueSeqLock(capacity);
      outcome := Constructed;
    }

    /** The Dequeue caller runs for a while. */
    method ConsumerRuns(ghost origin: State)
      requires |origin.buffer| == origin.capacity > 0 && Valid() && Leads(origin, model)
      modifies this`tail, this`model
      ensures Valid() && Leads(origin, model)
      ensures model.p == old(model.p) && model.enqueued == old(model.enqueued)
    {
      var steps: nat :| true;
      for i := 0 to steps
        invariant Valid() && Leads(origin, model)
        invariant model.p == old(model.p) && model.enqueued == old(model.enqueued)
      {
        OneMoreStep(origin, model, Consume);
        model := ConsumerStep(model);
        tail := model.tail;
      }
    }

    /** The Enqueue caller runs for a while, with any items. */
    method ProducerRuns(ghost origin: State)
      requires |origin.buffer| == origin.capacity > 0 && Valid() && Leads(origin, model)
      modifies this`head, this`seqNo, this`model, buffer
      ensures Valid() && Leads(origin, model)
      ensures model.c == old(model.c) && model.dequeued == old(model.dequeued)
    {
      var steps: nat :| true;
      for i := 0 to steps
        invariant Valid() && Leads(origin, model)
        invariant model.c == old(model.c) && model.dequeued == old(model.dequeued)
      {
        var item: Item :| true;
        ReachableInv(model);
        OneMoreStep(origin, model, Produce(item));
        if model.p.POpened? {
          buffer[model.p.at] := model.p.item;
        }
        model := ProducerStep(model, item);
        head, seqNo := model.head, model.seqNo;
      }
    }

    /** Records the producer access that was just made; then the Dequeue caller runs for a while. */
    method AfterProducerStep(item: Item, ghost origin: State)
      requires |origin.buffer| == origin.capacity > 0
      requires Reachable(model) && |model.buffer| == model.capacity
      requires Leads(origin, model) && Shows(ProducerStep(model, item))
      modifies this`tail, this`model
      ensures Valid() && Leads(origin, model)
      ensures model.p == ProducerStep(old(model), item).p && model.enqueued == ProducerStep(old(model), item).enqueued
    {
      OneMoreStep(origin, model, Produce(item));
      model := ProducerStep(model, item);
      ConsumerRuns(origin);
    }

    /** Lines 62-76 of Enqueue: any interleaving with the Dequeue caller is a run of the step machine. */
    method Enqueue(item: Item) returns (accepted: bool)
      requires Valid() && model.p.PIdle?
      modifies this, buffer
      ensures Valid() && Leads(old(model), model) && model.p == PIdle(accepted)
      ensures model.enqueued == old(model.enqueued) + (if accepted then [item] else [])
      ensures !accepted ==> WasFull(old(model), model)
    {
      ghost var origin := model;
      LeadsNowhere(model);

      var at := head;
      AfterProducerStep(item, origin);

      var nextHead := And(at + 1, capacityMinusOne);
      assert nextHead == Next(at, capacity);
      var full := nextHead == tail;
      ghost var atLoad := model;
      ReachableInv(model);
      LeadsNowhere(model);
      AfterProducerStep(item, atLoad);
      LeadsThrough(origin, atLoad, model);
      if full {
        EnqueueRefusesExactlyWhenFull(atLoad, item);
        assert Between(origin, atLoad, model);
        return false;
      }

      WriteSection(item, at, nextHead, origin);
      return true;
    }

    /** The part of Enqueue from its first increment of the counter on. */
    method WriteSection(item: Item, at: nat, nextHead: nat, ghost origin: State)
      requires |origin.buffer| == origin.capacity > 0
      requires Valid() && Leads(origin, model) && model.p == PHasRoom(item, at) && nextHead == Next(at, capacity)
      modifies this, buffer
      ensures Valid() && Leads(origin, model) && model.p == PIdle(true)
      ensures model.enqueued == old(model.enqueued) + [item]
    {
      seqNo := seqNo + 1;
      AfterProducerStep(item, origin);

      ReachableInv(model);
      buffer[at] := item;
      AfterProducerStep(item, origin);

      head := nextHead;
      AfterProducerStep(item, origin);

      seqNo := seqNo + 1;
      AfterProducerStep(item, origin);
    }

    /** Records the consumer access that was just made; then the Enqueue caller runs for a while. */
    method AfterConsumerStep(ghost origin: State)
      requires |origin.buffer| == origin.capacity > 0
      requires Reachable(model) && |model.buffer| == model.capacity
      requires Leads(origin, model) && Shows(ConsumerStep(model))
      modifies this`head, this`seqNo, this`model, buffer
      ensures Valid() && Leads(origin, model)
      ensures model.c == ConsumerStep(old(model)).c && model.dequeued == ConsumerStep(old(model)).dequeued
    {
      OneMoreStep(origin, model, Consume);
      model := ConsumerStep(model);
      ProducerRuns(origin);
    }

    /** Lines 81-106 of Dequeue: any interleaving with the Enqueue caller is a run of the step machine. */
    method Dequeue() returns (result: Option<Item>)
      requires Valid() && model.c.CIdle?
      modifies this, buffer
      ensures Valid() && Leads(old(model), model) && model.c == CIdle(result)
      ensures model.dequeued == old(model.dequeued) + (if result.Some? then [result.value] else [])
      ensures result.None? ==> HadExcuse(old(model), model)
    {
      ghost var origin := model;
      LeadsNowhere(model);
      ReachableInv(model);

      var seenHead := head;
      AfterConsumerStep(origin);

      var at := tail;
      ReachableInv(model);
      if at == seenHead {
        SameCell(|model.dequeued|, model.c.seen, capacity);
        assert Contents(origin) == [];
      }
      AfterConsumerStep(origin);
      if at == seenHead {
        assert Between(origin, origin, model);
        return None;
      }

      ghost var excuse;
      result, excuse := ReadSection(at, origin);
    }

    /** The part of Dequeue from its first load of the counter on. */
    method ReadSection(at: nat, ghost origin: State) returns (result: Option<Item>, ghost excuse: State)
      requires |origin.buffer| == origin.capacity > 0
      requires Valid() && Leads(origin, model) && model.c == CLoadedTail(at)
      modifies this, buffer
      ensures Valid() && Leads(origin, model) && model.c == CIdle(result)
      ensures model.dequeued == old(model.dequeued) + (if result.Some? then [result.value] else [])
      ensures result.None? ==> Between(origin, excuse, model) && Excuses(excuse)
    {
      var seqStart := seqNo;
      ghost var atStart := model;
      excuse := model;
      ReaderFacts(model);
      LeadsNowhere(model);
      AfterConsumerStep(atStart);
      if seqStart % 2 != 0 {
        LeadsThrough(origin, atStart, model);
        return None, excuse;
      }

      ReaderFacts(model);
      var item := buffer[at];
      AfterConsumerStep(atStart);

      result, excuse := CheckAgain(at, item, seqStart, atStart);
      LeadsThrough(origin, atStart, model);
      if result.None? {
        LeadsNowhere(model);
        Widen(origin, atStart, excuse, model, model);
      }
    }

    /** The part of Dequeue from its second load of the counter on. */
    method CheckAgain(at: nat, item: Item, seqStart: nat, ghost atStart: State)
      returns (result: Option<Item>, ghost excuse: State)
      requires Reachable(atStart) && |atStart.buffer| == atStart.capacity
      requires !Writing(atStart.p) && seqStart == atStart.seqNo
      requires Valid() && Leads(atStart, model) && model.c == CReadCell(at, seqStart, item)
      modifies this, buffer
      ensures Valid() && Leads(atStart, model) && model.c == CIdle(result)
      ensures model.dequeued == old(model.dequeued) + (if result.Some? then [result.value] else [])
      ensures result.None? ==> Between(atStart, excuse, model) && Writing(excuse.p)
    {
      var nextTail := And(at + 1, capacityMinusOne);
      assert nextTail == Next(at, capacity);
      var seqEnd := seqNo;
      excuse := atStart;
      if seqStart != seqEnd {
        excuse := CounterDiffers(atStart, model);
        ghost var atEnd := model;
        LeadsNowhere(model);
        AfterConsumerStep(atEnd);
        LeadsNowhere(atStart);
        LeadsThrough(atStart, atEnd, model);
        Widen(atStart, atStart, excuse, atEnd, model);
        return None, excuse;
      }
      AfterConsumerStep(atStart);

      tail := nextTail;
      AfterConsumerStep(atStart);
      result := Some(item);
    }
  }
}
