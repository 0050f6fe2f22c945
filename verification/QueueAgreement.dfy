/** The two queues are interchangeable: on any sequence of calls that do not overlap, they return the same results,
    the ones of a FIFO of capacity - 1 places. */
module QueueAgreement {
  import opened Masks
  import opened Wrappers
  import opened BoundedRing
  import RingQueue = RingBufferQueue
  import Lock = SeqLockQueue

  datatype Call = Enqueue(item: Item) | Dequeue

  datatype Outcome = Enqueued(accepted: bool) | Dequeued(item: Option<Item>)

  /** The bounded FIFO: its contents after the calls, and what the calls return. */
  function FifoContents(places: nat, calls: seq<Call>): seq<Item> {
    if calls == [] then [] else
    var q := FifoContents(places, calls[..|calls| - 1]);
    match calls[|calls| - 1]
    case Enqueue(item) => if |q| == places then q else q + [item]
    case Dequeue => if q == [] then q else q[1..]
  }

  function FifoOutcomes(places: nat, calls: seq<Call>): seq<Outcome> {
    if calls == [] then [] else
    var q := FifoContents(places, calls[..|calls| - 1]);
    var outcome := match calls[|calls| - 1]
      case Enqueue(_) => Enqueued(|q| != places)
      case Dequeue => Dequeued(if q == [] then None else Some(q[0]));
    FifoOutcomes(places, calls[..|calls| - 1]) + [outcome]
  }

  function RingState(capacity: nat, calls: seq<Call>): (s: RingQueue.State)
    requires capacity > 0
    ensures |s.buffer| == s.capacity == capacity
  {
    if calls == [] then RingQueue.Init(capacity) else
    var s := RingState(capacity, calls[..|calls| - 1]);
    match calls[|calls| - 1]
    case Enqueue(item) => RingQueue.EnqueueCall(s, item)
    case Dequeue => RingQueue.DequeueCall(s)
  }

  function RingOutcomes(capacity: nat, calls: seq<Call>): seq<Outcome>
    requires capacity > 0
  {
    if calls == [] then [] else
    var s := RingState(capacity, calls);
    var outcome := match calls[|calls| - 1]
      case Enqueue(_) => Enqueued(s.p.PIdle? && s.p.accepted)
      case Dequeue => Dequeued(if s.c.CIdle? then s.c.last else None);
    RingOutcomes(capacity, calls[..|calls| - 1]) + [outcome]
  }

  function LockState(capacity: nat, calls: seq<Call>): (s: Lock.State)
    requires capacity > 0
    ensures |s.buffer| == s.capacity == capacity
  {
    if calls == [] then Lock.Init(capacity) else
    var s := LockState(capacity, calls[..|calls| - 1]);
    match calls[|calls| - 1]
    case Enqueue(item) => Lock.FinishEnqueue(Lock.ProducerStep(s, item), item)
    case Dequeue => Lock.FinishDequeue(Lock.ConsumerStep(s))
  }

  function LockOutcomes(capacity: nat, calls: seq<Call>): seq<Outcome>
    requires capacity > 0
  {
    if calls == [] then [] else
    var s := LockState(capacity, calls);
    var outcome := match calls[|calls| - 1]
      case Enqueue(_) => Enqueued(s.p.PIdle? && s.p.accepted)
      case Dequeue => Dequeued(if s.c.CIdle? then s.c.last else None);
    LockOutcomes(capacity, calls[..|calls| - 1]) + [outcome]
  }

  lemma {:induction false} RingIsFifo(capacity: nat, calls: seq<Call>)
    requires ValidCapacity(capacity)
    ensures var s := RingState(capacity, calls);
      RingQueue.Inv(s) && s.p.PIdle? && s.c.CIdle? && RingQueue.Contents(s) == FifoContents(capacity - 1, calls)
    ensures RingOutcomes(capacity, calls) == FifoOutcomes(capacity - 1, calls)
  {
    if calls == [] {
      RingQueue.InitInv(capacity);
    } else {
      var before := RingState(capacity, calls[..|calls| - 1]);
      RingIsFifo(capacity, calls[..|calls| - 1]);
      match calls[|calls| - 1]
      case Enqueue(item) => RingQueue.EnqueueAlone(before, item);
      case Dequeue => RingQueue.DequeueAlone(before);
    }
  }

  lemma {:induction false} LockIsFifo(capacity: nat, calls: seq<Call>)
    requires ValidCapacity(capacity)
    ensures var s := LockState(capacity, calls);
      Lock.Inv(s) && s.p.PIdle? && s.c.CIdle? && Lock.Contents(s) == FifoContents(capacity - 1, calls)
    ensures LockOutcomes(capacity, calls) == FifoOutcomes(capacity - 1, calls)
  {
    if calls == [] {
      Lock.InitInv(capacity);
    } else {
      var before := LockState(capacity, calls[..|calls| - 1]);
      LockIsFifo(capacity, calls[..|calls| - 1]);
      match calls[|calls| - 1]
      case Enqueue(item) => Lock.EnqueueAlone(before, item);
      case Dequeue => Lock.DequeueAlone(before);
    }
  }

  /** Same calls, same results: without overlap the sequence counter is invisible. */
  lemma QueuesAgree(capacity: nat, calls: seq<Call>)
    requires ValidCapacity(capacity)
    ensures RingOutcomes(capacity, calls) == LockOutcomes(capacity, calls)
    ensures RingQueue.Contents(RingState(capacity, calls)) == Lock.Contents(LockState(capacity, calls))
  {
    RingIsFifo(capacity, calls);
    LockIsFifo(capacity, calls);
  }
}
