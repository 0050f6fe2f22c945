/** The acquire/release ring, one atomic load or store per step. Each side works from a snapshot of the other side's
    index that may be stale by the time it is used.

    `enqueued` and `dequeued` record the items in the order of the head and tail stores; no step reads them. */
module RingBufferQueue {
  import opened Masks
  import opened BoundedRing
  import opened Wrappers

  datatype Producer =
    | PIdle(accepted: bool)
    | PLoadedHead(item: Item, at: nat)
    | PHasRoom(item: Item, at: nat)      // the tail load that showed room is behind it
    | PWroteCell(item: Item, at: nat)

  datatype Consumer =
    | CIdle(last: Option<Item>)
    | CLoadedTail(at: nat)
    | CHasItem(at: nat)                  // the head load that showed an item is behind it
    | CReadCell(at: nat, item: Item)

  datatype State = State(
    capacity: nat, head: nat, tail: nat, buffer: seq<Item>,
    enqueued: seq<Item>, dequeued: seq<Item>,
    p: Producer, c: Consumer)

  datatype Move = Produce(item: Item) | Consume

  function Init(capacity: nat): State {
    State(capacity, 0, 0, seq(capacity, _ => 0), [], [], PIdle(false), CIdle(None))
  }

  function ProducerStep(s: State, item: Item): (s': State)
    requires |s.buffer| == s.capacity > 0
    ensures |s'.buffer| == s'.capacity == s.capacity
  {
    match s.p
    case PIdle(_) => s.(p := PLoadedHead(item, s.head))
    case PLoadedHead(x, at) =>
      if Next(at, s.capacity) == s.tail then s.(p := PIdle(false)) else s.(p := PHasRoom(x, at))
    case PHasRoom(x, at) =>
      // A store outside the mapping has no meaning; IndicesStayInside shows there is none.
      s.(buffer := if at < s.capacity then s.buffer[at := x] else s.buffer, p := PWroteCell(x, at))
    case PWroteCell(x, at) =>
      s.(head := Next(at, s.capacity), enqueued := s.enqueued + [x], p := PIdle(true))
  }

  function ConsumerStep(s: State): (s': State)
    requires |s.buffer| == s.capacity > 0
    ensures |s'.buffer| == s'.capacity == s.capacity
  {
    match s.c
    case CIdle(_) => s.(c := CLoadedTail(s.tail))
    case CLoadedTail(at) => if at == s.head then s.(c := CIdle(None)) else s.(c := CHasItem(at))
    case CHasItem(at) => s.(c := CReadCell(at, if at < s.capacity then s.buffer[at] else 0))
    case CReadCell(at, x) => s.(tail := Next(at, s.capacity), dequeued := s.dequeued + [x], c := CIdle(Some(x)))
  }

  function Apply(s: State, move: Move): (s': State)
    requires |s.buffer| == s.capacity > 0
    ensures |s'.buffer| == s'.capacity == s.capacity
  {
    match move
    case Produce(item) => ProducerStep(s, item)
    case Consume => ConsumerStep(s)
  }

  function Run(s: State, moves: seq<Move>): (s': State)
    requires |s.buffer| == s.capacity > 0
    ensures |s'.buffer| == s'.capacity == s.capacity
  {
    if moves == [] then s else Apply(Run(s, moves[..|moves| - 1]), moves[|moves| - 1])
  }

  /** The ring behind the queue. */
  function RingOf(s: State): Ring {
    Ring(s.capacity, s.head, s.tail, s.buffer, s.enqueued, s.dequeued)
  }

  /** The abstract queue. */
  function Contents(s: State): seq<Item> {
    Waiting(RingOf(s))
  }

  /** What each side knows: the room and the item a stale snapshot showed are still there. */
  ghost predicate SidesInv(s: State)
    requires s.capacity > 0
  {
    && (match s.p
        case PIdle(_) => true
        case PLoadedHead(_, at) => at == s.head
        case PHasRoom(_, at) => at == s.head && |s.enqueued| - |s.dequeued| < s.capacity - 1
        case PWroteCell(x, at) =>
          && at == s.head && |s.enqueued| - |s.dequeued| < s.capacity - 1
          && at < |s.buffer| && s.buffer[at] == x)
    && (match s.c
        case CIdle(last) => last.Some? ==> s.dequeued != [] && s.dequeued[|s.dequeued| - 1] == last.value
        case CLoadedTail(at) => at == s.tail
        case CHasItem(at) => at == s.tail && |s.dequeued| < |s.enqueued|
        case CReadCell(at, x) => at == s.tail && |s.dequeued| < |s.enqueued| && x == s.enqueued[|s.dequeued|])
  }

  ghost predicate Inv(s: State) {
    Holds(RingOf(s)) && SidesInv(s)
  }

  lemma InitInv(capacity: nat)
    requires ValidCapacity(capacity)
    ensures Inv(Init(capacity))
  {
  }

  lemma ProducerStepKeepsInv(s: State, item: Item)
    requires Inv(s)
    ensures Inv(ProducerStep(s, item))
  {
    var s' := ProducerStep(s, item);
    IndexTests(RingOf(s));
    match s.p
    case PHasRoom(x, at) =>
      WriteKeeps(RingOf(s), x);
      assert RingOf(s') == RingOf(s).(buffer := s.buffer[at := x]);
    case PWroteCell(x, at) =>
      PublishKeeps(RingOf(s), x);
      assert RingOf(s') == RingOf(s).(head := Next(at, s.capacity), enqueued := s.enqueued + [x]);
    case _ => assert RingOf(s') == RingOf(s);
  }

  lemma ConsumerStepKeepsInv(s: State)
    requires Inv(s)
    ensures Inv(ConsumerStep(s))
  {
    var s' := ConsumerStep(s);
    IndexTests(RingOf(s));
    if s.c.CHasItem? || s.c.CReadCell? {
      TakeKeeps(RingOf(s));
    }
    if s.c.CReadCell? {
      assert RingOf(s') == RingOf(s).(tail := Next(s.tail, s.capacity), dequeued := s.dequeued + [s.c.item]);
    } else {
      assert RingOf(s') == RingOf(s);
    }
  }

  lemma StepKeepsInv(s: State, move: Move)
    requires Inv(s)
    ensures Inv(Apply(s, move))
  {
    match move
    case Produce(item) => ProducerStepKeepsInv(s, item);
    case Consume => ConsumerStepKeepsInv(s);
  }

  lemma {:induction false} RunKeepsInv(s: State, moves: seq<Move>)
    requires Inv(s)
    ensures Inv(Run(s, moves))
  {
    if moves != [] {
      RunKeepsInv(s, moves[..|moves| - 1]);
      StepKeepsInv(Run(s, moves[..|moves| - 1]), moves[|moves| - 1]);
    }
  }

  // ---------- what every run promises ----------

  /** Under every schedule: the dequeued items are the first enqueued ones, in order; the ring holds exactly the
      others, at most capacity - 1 of them; a result of Dequeue is the latest dequeued item. */
  lemma EveryRunIsFifo(capacity: nat, moves: seq<Move>)
    requires ValidCapacity(capacity)
    ensures var s := Run(Init(capacity), moves);
      && s.dequeued + CyclicSlice(RingOf(s)) == s.enqueued
      && |CyclicSlice(RingOf(s))| <= s.capacity - 1
      && (s.c.CIdle? && s.c.last.Some? ==> s.dequeued != [] && s.c.last.value == s.dequeued[|s.dequeued| - 1])
  {
    InitInv(capacity);
    RunKeepsInv(Init(capacity), moves);
    SliceIsTheRest(RingOf(Run(Init(capacity), moves)));
  }

  /** Every access of every run lies inside the ring. */
  lemma IndicesStayInside(capacity: nat, moves: seq<Move>)
    requires ValidCapacity(capacity)
    ensures var s := Run(Init(capacity), moves);
      && s.head < capacity && s.tail < capacity
      && (s.p.PHasRoom? ==> s.p.at < capacity)
      && (s.c.CHasItem? ==> s.c.at < capacity)
  {
    InitInv(capacity);
    RunKeepsInv(Init(capacity), moves);
  }

  /** Refinement of the bounded FIFO: the head store appends, the tail store removes the oldest, a refusal happens
      exactly on a full or empty queue at the load of the other side's index, and no other step changes the queue. */
  lemma StepsRefineTheFifo(s: State, move: Move)
    requires Inv(s)
    ensures var s' := Apply(s, move);
      && (if move.Produce? && s.p.PWroteCell? then
            Contents(s') == Contents(s) + [s.p.item] && |Contents(s)| < s.capacity - 1
          else if move.Consume? && s.c.CReadCell? then
            Contents(s) == [s.c.item] + Contents(s') && s'.c == CIdle(Some(s.c.item))
          else Contents(s') == Contents(s))
      && (move.Produce? && s.p.PLoadedHead? ==> (s'.p == PIdle(false) <==> |Contents(s)| == s.capacity - 1))
      && (move.Consume? && s.c.CLoadedTail? ==> (s'.c == CIdle(None) <==> Contents(s) == []))
  {
    IndexTests(RingOf(s));
    StepKeepsInv(s, move);
  }

  // ---------- one call on its own ----------

  /** Enqueue from its first line to its return, with nobody else moving. */
  function EnqueueCall(s: State, item: Item): (s': State)
    requires |s.buffer| == s.capacity > 0
    ensures |s'.buffer| == s'.capacity == s.capacity
  {
    var tested := ProducerStep(ProducerStep(s, item), item);
    if tested.p.PIdle? then tested else ProducerStep(ProducerStep(tested, item), item)
  }

  function DequeueCall(s: State): (s': State)
    requires |s.buffer| == s.capacity > 0
    ensures |s'.buffer| == s'.capacity == s.capacity
  {
    var tested := ConsumerStep(ConsumerStep(s));
    if tested.c.CIdle? then tested else ConsumerStep(ConsumerStep(tested))
  }

  lemma EnqueueAlone(s: State, item: Item)
    requires Inv(s) && s.p.PIdle?
    ensures var s' := EnqueueCall(s, item);
      && Inv(s') && s'.c == s.c
      && (if |Contents(s)| == s.capacity - 1
          then s'.p == PIdle(false) && Contents(s') == Contents(s)
          else s'.p == PIdle(true) && Contents(s') == Contents(s) + [item])
  {
    var s1 := ProducerStep(s, item);
    ProducerStepKeepsInv(s, item);
    ProducerStepKeepsInv(s1, item);
    IndexTests(RingOf(s1));
    var s2 := ProducerStep(s1, item);
    if s2.p.PHasRoom? {
      ProducerStepKeepsInv(s2, item);
      ProducerStepKeepsInv(ProducerStep(s2, item), item);
    }
  }

  lemma DequeueAlone(s: State)
    requires Inv(s) && s.c.CIdle?
    ensures var s' := DequeueCall(s);
      && Inv(s') && s'.p == s.p
      && (if Contents(s) == []
          then s'.c == CIdle(None) && Contents(s') == []
          else s'.c == CIdle(Some(Contents(s)[0])) && Contents(s') == Contents(s)[1..])
  {
    var s1 := ConsumerStep(s);
    ConsumerStepKeepsInv(s);
    ConsumerStepKeepsInv(s1);
    IndexTests(RingOf(s1));
    var s2 := ConsumerStep(s1);
    if s2.c.CHasItem? {
      ConsumerStepKeepsInv(s2);
      ConsumerStepKeepsInv(ConsumerStep(s2));
    }
  }
}
