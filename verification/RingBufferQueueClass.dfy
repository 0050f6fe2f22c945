/** The acquire/release ring as the object the source has: fields and a buffer updated in place, each call interleaved
    with the other caller between any two of its accesses. */
module RingBufferQueueObject {
  import opened Masks
  import opened BoundedRing
  import opened RingBufferQueue
  import opened Wrappers

  /** Some schedule takes the machine from s to s'. */
  ghost predicate Leads(s: State, s': State)
    requires |s.buffer| == s.capacity > 0
  {
    exists moves :: LeadsBy(s, moves, s')
  }

  ghost predicate LeadsBy(s: State, moves: seq<Move>, s': State)
    requires |s.buffer| == s.capacity > 0
  {
    s' == Run(s, moves)
  }

  lemma LeadsNowhere(s: State)
    requires |s.buffer| == s.capacity > 0
    ensures Leads(s, s)
  {
    assert LeadsBy(s, [], s);
  }

  lemma LeadsOn(s: State, s': State, move: Move)
    requires |s.buffer| == s.capacity > 0 && |s'.buffer| == s'.capacity > 0 && Leads(s, s')
    ensures Leads(s, Apply(s', move))
  {
    var moves :| LeadsBy(s, moves, s');
    assert (moves + [move])[..|moves|] == moves;
    assert LeadsBy(s, moves + [move], Apply(s', move));
  }

  lemma {:induction false} RunOn(s: State, first: seq<Move>, second: seq<Move>)
    requires |s.buffer| == s.capacity > 0
    ensures Run(s, first + second) == Run(Run(s, first), second)
  {
    var moves := first + second;
    if second == [] {
      assert moves == first;
    } else {
      assert moves[..|moves| - 1] == first + second[..|second| - 1];
      RunOn(s, first, second[..|second| - 1]);
    }
  }

  /** Some schedule takes the machine from s through m to s'. */
  ghost predicate Between(s: State, m: State, s': State)
    requires |s.buffer| == s.capacity > 0
  {
    |m.buffer| == m.capacity > 0 && Leads(s, m) && Leads(m, s')
  }

  lemma LeadsThrough(s: State, m: State, s': State)
    requires |s.buffer| == s.capacity > 0 && Between(s, m, s')
    ensures Leads(s, s')
  {
    var first :| LeadsBy(s, first, m);
    var second :| LeadsBy(m, second, s');
    RunOn(s, first, second);
    assert LeadsBy(s, first + second, s');
  }

  /** The queue was full at some moment on the way. */
  ghost predicate WasFull(s: State, s': State)
    requires |s.buffer| == s.capacity > 0
  {
    exists m :: Between(s, m, s') && |Contents(m)| == m.capacity - 1
  }

  /** The queue was empty at some moment on the way. */
  ghost predicate WasEmpty(s: State, s': State)
    requires |s.buffer| == s.capacity > 0
  {
    exists m :: Between(s, m, s') && Contents(m) == []
  }

  /** The machine can get to s from a fresh queue. */
  ghost predicate Reachable(s: State) {
    ValidCapacity(s.capacity) && Leads(Init(s.capacity), s)
  }

  lemma ReachableInv(s: State)
    requires Reachable(s)
    ensures Inv(s)
  {
    var moves :| LeadsBy(Init(s.capacity), moves, s);
    InitInv(s.capacity);
    RunKeepsInv(Init(s.capacity), moves);
  }

  /** What either side sees in the other's index, and that its own cell is inside. */
  lemma SideFacts(s: State)
    requires Reachable(s)
    ensures s.p.PLoadedHead? ==> (Next(s.p.at, s.capacity) == s.tail <==> |Contents(s)| == s.capacity - 1)
    ensures s.c.CLoadedTail? ==> (s.c.at == s.head <==> Contents(s) == [])
    ensures s.p.PHasRoom? ==> s.p.at < s.capacity
    ensures s.c.CHasItem? ==> s.c.at < s.capacity
  {
    ReachableInv(s);
    IndexTests(RingOf(s));
  }

  /** One more step of a schedule, from the fresh queue and from wherever the call started. */
  lemma OneMoreStep(origin: State, s: State, move: Move)
    requires |origin.buffer| == origin.capacity > 0 && |s.buffer| == s.capacity
    requires Reachable(s) && Leads(origin, s)
    ensures Reachable(Apply(s, move)) && Leads(origin, Apply(s, move))
  {
    LeadsOn(Init(s.capacity), s, move);
    LeadsOn(origin, s, move);
  }

  class SpscQueueRingBuffer {
    const capacity: nat
    const capacityMinusOne: nat
    var head: nat
    var tail: nat
    const buffer: array<Item>
    var model: State  // read only to let the other caller run, never by Enqueue or Dequeue

    /** The shared memory of the object is the one of the machine state s. */
    ghost predicate Shows(s: State)
      reads this, buffer
    {
      && s.capacity == capacity && capacityMinusOne == capacity - 1
      && s.head == head && s.tail == tail && s.buffer == buffer[..]
    }

    ghost predicate Valid()
      reads this, buffer
    {
      Reachable(model) && |model.buffer| == model.capacity && Shows(model)
    }

    constructor (capacity: nat)
      requires CheckCapacity(capacity) == Constructed
      ensures Valid() && model == Init(capacity) && fresh(buffer)
    {
      GuardAcceptsPowersOfTwo(capacity);
      LeadsNowhere(Init(capacity));
      this.capacity, capacityMinusOne := capacity, capacity - 1;
      head, tail := 0, 0;
      buffer := new Item[capacity](_ => 0);
      model := Init(capacity);
    }

    /** The owner's side of construction, with the constructor's two exceptions as results. */
    static method Open(capacity: nat) returns (outcome: Construction, queue: SpscQueueRingBuffer?)
      ensures outcome == Constructed <==> ValidCapacity(capacity)
      ensures outcome == TooSmall <==> capacity < 2
      ensures outcome == Constructed <==> queue != null
      ensures queue != null ==> fresh(queue) && fresh(queue.buffer) && queue.Valid() && queue.model == Init(capacity)
    {
      GuardAcceptsPowersOfTwo(capacity);
      queue := null;
      if capacity < 2 {
        return TooSmall, null;
      }
      if And(capacity, capacity - 1) != 0 {
        return NotAPowerOfTwo, null;
      }
      queue := new SpscQueueRingBuffer(capacity);
      outcome := Constructed;
    }

    /** The Dequeue caller runs for a while. */
    method ConsumerRuns(ghost origin: State)
      requires |origin.buffer| == origin.capacity > 0 && Valid() && Leads(origin, model)
      modifies this`tail, this`model
      ensures Valid() && Leads(origin, model)
      ensures model.p == old(model.p) && model.enqueued == old(model.enqueued)
    {
      var steps: nat :| true;
      for i := 0 to steps
        invariant Valid() && Leads(origin, model)
        invariant model.p == old(model.p) && model.enqueued == old(model.enqueued)
      {
        OneMoreStep(origin, model, Consume);
        model := ConsumerStep(model);
        tail := model.tail;
      }
    }

    /** The Enqueue caller runs for a while, with any items. */
    method ProducerRuns(ghost origin: State)
      requires |origin.buffer| == origin.capacity > 0 && Valid() && Leads(origin, model)
      modifies this`head, this`model, buffer
      ensures Valid() && Leads(origin, model)
      ensures model.c == old(model.c) && model.dequeued == old(model.dequeued)
    {
      var steps: nat :| true;
      for i := 0 to steps
        invariant Valid() && Leads(origin, model)
        invariant model.c == old(model.c) && model.dequeued == old(model.dequeued)
      {
        var item: Item :| true;
        ReachableInv(model);
        OneMoreStep(origin, model, Produce(item));
        if model.p.PHasRoom? {
          buffer[model.p.at] := model.p.item;
        }
        model := ProducerStep(model, item);
        head := model.head;
      }
    }

    /** Records the producer access that was just made; then the Dequeue caller runs for a while. */
    method AfterProducerStep(item: Item, ghost origin: State)
      requires |origin.buffer| == origin.capacity > 0
      requires Reachable(model) && |model.buffer| == model.capacity
      requires Leads(origin, model) && Shows(ProducerStep(model, item))
      modifies this`tail, this`model
      ensures Valid() && Leads(origin, model)
      ensures model.p == ProducerStep(old(model), item).p && model.enqueued == ProducerStep(old(model), item).enqueued
    {
      OneMoreStep(origin, model, Produce(item));
      model := ProducerStep(model, item);
      ConsumerRuns(origin);
    }

    /** Lines 62-71 of Enqueue: any interleaving with the Dequeue caller is a run of the step machine. */
    method Enqueue(item: Item) returns (accepted: bool)
      requires Valid() && model.p.PIdle?
      modifies this, buffer
      ensures Valid() && Leads(old(model), model) && model.p == PIdle(accepted)
      ensures model.enqueued == old(model.enqueued) + (if accepted then [item] else [])
      ensures !accepted ==> WasFull(old(model), model)
    {
      ghost var origin := model;
      LeadsNowhere(model);

      var at := head;
      AfterProducerStep(item, origin);

      var nextHead := And(at + 1, capacityMinusOne);
      assert nextHead == Next(at, capacity);
      var full := nextHead == tail;
      ghost var atLoad := model;
      SideFacts(model);
      LeadsNowhere(model);
      AfterProducerStep(item, atLoad);
      LeadsThrough(origin, atLoad, model);
      if full {
        assert Between(origin, atLoad, model);
        return false;
      }

      SideFacts(model);
      buffer[at] := item;
      AfterProducerStep(item, origin);

      head := nextHead;
      AfterProducerStep(item, origin);
      return true;
    }

    /** Records the consumer access that was just made; then the Enqueue caller runs for a while. */
    method AfterConsumerStep(ghost origin: State)
      requires |origin.buffer| == origin.capacity > 0
      requires Reachable(model) && |model.buffer| == model.capacity
      requires Leads(origin, model) && Shows(ConsumerStep(model))
      modifies this`head, this`model, buffer
      ensures Valid() && Leads(origin, model)
      ensures model.c == ConsumerStep(old(model)).c && model.dequeued == ConsumerStep(old(model)).dequeued
    {
      OneMoreStep(origin, model, Consume);
      model := ConsumerStep(model);
      ProducerRuns(origin);
    }

    /** Lines 76-85 of Dequeue: any interleaving with the Enqueue caller is a run of the step machine. */
    method Dequeue() returns (result: Option<Item>)
      requires Valid() && model.c.CIdle?
      modifies this, buffer
      ensures Valid() && Leads(old(model), model) && model.c == CIdle(result)
      ensures model.dequeued == old(model.dequeued) + (if result.Some? then [result.value] else [])
      ensures result.None? ==> WasEmpty(old(model), model)
    {
      ghost var origin := model;
      LeadsNowhere(model);

      var at := tail;
      AfterConsumerStep(origin);

      var empty := at == head;
      ghost var atLoad := model;
      SideFacts(model);
      LeadsNowhere(model);
      AfterConsumerStep(atLoad);
      LeadsThrough(origin, atLoad, model);
      if empty {
        assert Between(origin, atLoad, model);
        return None;
      }

      result := TakeItem(at, origin);
    }

    /** The part of Dequeue from its read of the cell on. */
    method TakeItem(at: nat, ghost origin: State) returns (result: Option<Item>)
      requires |origin.buffer| == origin.capacity > 0
      requires Valid() && Leads(origin, model) && model.c == CHasItem(at)
      modifies this, buffer
      ensures Valid() && Leads(origin, model) && model.c == CIdle(result) && result.Some?
      ensures model.dequeued == old(model.dequeued) + [result.value]
    {
      SideFacts(model);
      var item := buffer[at];
      AfterConsumerStep(origin);

      tail := And(at + 1, capacityMinusOne);
      assert tail == Next(at, capacity);
      AfterConsumerStep(origin);
      result := Some(item);
    }
  }
}
