/** The sequence-counter queue, one atomic load, store or fetch-add per step.

    One caller runs Enqueue, one runs Dequeue; a schedule interleaves their steps in any order. `enqueued` and
    `dequeued` record the items in the order of the head and tail stores; no step reads them. */
module SeqLockQueue {
  import opened Wrappers
  import opened Masks
  import opened BoundedRing

  /** Where the Enqueue caller stands: the last line it has executed. */
  datatype Producer =
    | PIdle(accepted: bool)               // between calls, with the last call's result
    | PLoadedHead(item: Item, at: nat)
    | PHasRoom(item: Item, at: nat)
    | POpened(item: Item, at: nat)        // seq is odd from here ...
    | PWroteCell(item: Item, at: nat)
    | PPublished                          // ... to here

  /** Where the Dequeue caller stands. `seen` is the number of enqueues at the head load; no step reads it. */
  datatype Consumer =
    | CIdle(last: Option<Item>)           // between calls, with the last call's result
    | CLoadedHead(head: nat, seen: nat)
    | CLoadedTail(at: nat)
    | CLoadedSeq(at: nat, seqStart: nat)
    | CReadCell(at: nat, seqStart: nat, item: Item)
    | CAccepted(at: nat, item: Item)

  datatype State = State(
    capacity: nat, head: nat, tail: nat, seqNo: nat, buffer: seq<Item>,
    enqueued: seq<Item>, dequeued: seq<Item>,
    p: Producer, c: Consumer)

  /** One step of the Enqueue caller, or of the Dequeue caller. */
  datatype Move = Produce(item: Item) | Consume

  /** The owner maps a zero-filled buffer and stores zero to both indices. */
  function Init(capacity: nat): State {
    State(capacity, 0, 0, 0, seq(capacity, _ => 0), [], [], PIdle(false), CIdle(None))
  }

  function ProducerStep(s: State, item: Item): (s': State)
    requires |s.buffer| == s.capacity > 0
    ensures |s'.buffer| == s'.capacity == s.capacity
  {
    match s.p
    case PIdle(_) => s.(p := PLoadedHead(item, s.head))
    case PLoadedHead(x, at) =>
      if Next(at, s.capacity) == s.tail then s.(p := PIdle(false)) else s.(p := PHasRoom(x, at))
    case PHasRoom(x, at) => s.(seqNo := s.seqNo + 1, p := POpened(x, at))
    case POpened(x, at) =>
      // A store outside the mapping has no meaning; IndicesStayInside shows there is none.
      s.(buffer := if at < s.capacity then s.buffer[at := x] else s.buffer, p := PWroteCell(x, at))
    case PWroteCell(x, at) => s.(head := Next(at, s.capacity), enqueued := s.enqueued + [x], p := PPublished)
    case PPublished => s.(seqNo := s.seqNo + 1, p := PIdle(true))
  }

  function ConsumerStep(s: State): (s': State)
    requires |s.buffer| == s.capacity > 0
    ensures |s'.buffer| == s'.capacity == s.capacity
  {
    match s.c
    case CIdle(_) => s.(c := CLoadedHead(s.head, |s.enqueued|))
    case CLoadedHead(head, _) => if s.tail == head then s.(c := CIdle(None)) else s.(c := CLoadedTail(s.tail))
    case CLoadedTail(at) => if s.seqNo % 2 != 0 then s.(c := CIdle(None)) else s.(c := CLoadedSeq(at, s.seqNo))
    case CLoadedSeq(at, seqStart) => s.(c := CReadCell(at, seqStart, if at < s.capacity then s.buffer[at] else 0))
    case CReadCell(at, seqStart, x) => if seqStart == s.seqNo then s.(c := CAccepted(at, x)) else s.(c := CIdle(None))
    case CAccepted(at, x) => s.(tail := Next(at, s.capacity), dequeued := s.dequeued + [x], c := CIdle(Some(x)))
  }

  function Apply(s: State, move: Move): (s': State)
    requires |s.buffer| == s.capacity > 0
    ensures |s'.buffer| == s'.capacity == s.capacity
  {
    match move
    case Produce(item) => ProducerStep(s, item)
    case Consume => ConsumerStep(s)
  }

  function Run(s: State, moves: seq<Move>): (s': State)
    requires |s.buffer| == s.capacity > 0
    ensures |s'.buffer| == s'.capacity == s.capacity
  {
    if moves == [] then s else Apply(Run(s, moves[..|moves| - 1]), moves[|moves| - 1])
  }

  // ---------- the invariant ----------

  /** The ring behind the queue. */
  function RingOf(s: State): Ring {
    Ring(s.capacity, s.head, s.tail, s.buffer, s.enqueued, s.dequeued)
  }

  /** The abstract queue. */
  function Contents(s: State): seq<Item> {
    Waiting(RingOf(s))
  }

  predicate Writing(p: Producer) {
    p.POpened? || p.PWroteCell? || p.PPublished?
  }

  /** Enqueue calls that have returned true. */
  function CompletedEnqueues(s: State): int {
    |s.enqueued| - (if s.p.PPublished? then 1 else 0)
  }

  ghost predicate ProducerInv(s: State)
    requires s.capacity > 0
  {
    && s.seqNo == 2 * CompletedEnqueues(s) + (if Writing(s.p) then 1 else 0)
    && match s.p
       case PIdle(_) => true
       case PLoadedHead(_, at) => at == s.head
       case PHasRoom(_, at) => at == s.head && |s.enqueued| - |s.dequeued| < s.capacity - 1
       case POpened(_, at) => at == s.head && |s.enqueued| - |s.dequeued| < s.capacity - 1
       case PWroteCell(x, at) =>
         && at == s.head && |s.enqueued| - |s.dequeued| < s.capacity - 1
         && at < |s.buffer| && s.buffer[at] == x
       case PPublished => |s.enqueued| > 0
  }

  ghost predicate ConsumerInv(s: State)
    requires s.capacity > 0
  {
    match s.c
    case CIdle(last) => last.Some? ==> s.dequeued != [] && s.dequeued[|s.dequeued| - 1] == last.value
    case CLoadedHead(head, seen) => head == seen % s.capacity && |s.dequeued| <= seen <= |s.enqueued|
    case CLoadedTail(at) => at == s.tail && |s.dequeued| < |s.enqueued|
    case CLoadedSeq(at, seqStart) =>
      at == s.tail && |s.dequeued| < |s.enqueued| && seqStart <= s.seqNo && seqStart % 2 == 0
    case CReadCell(at, seqStart, x) =>
      && at == s.tail && |s.dequeued| < |s.enqueued| && seqStart <= s.seqNo && seqStart % 2 == 0
      && x == s.enqueued[|s.dequeued|]
    case CAccepted(at, x) => at == s.tail && |s.dequeued| < |s.enqueued| && x == s.enqueued[|s.dequeued|]
  }

  ghost predicate Inv(s: State) {
    Holds(RingOf(s)) && ProducerInv(s) && ConsumerInv(s)
  }

  lemma InitInv(capacity: nat)
    requires ValidCapacity(capacity)
    ensures Inv(Init(capacity))
  {
  }

  lemma ProducerStepKeepsInv(s: State, item: Item)
    requires Inv(s)
    ensures Inv(ProducerStep(s, item))
  {
    var s' := ProducerStep(s, item);
    IndexTests(RingOf(s));
    match s.p
    case POpened(x, at) =>
      WriteKeeps(RingOf(s), x);
      assert RingOf(s') == RingOf(s).(buffer := s.buffer[at := x]);
    case PWroteCell(x, at) =>
      PublishKeeps(RingOf(s), x);
      assert RingOf(s') == RingOf(s).(head := Next(at, s.capacity), enqueued := s.enqueued + [x]);
    case _ => assert RingOf(s') == RingOf(s);
  }

  lemma ConsumerStepKeepsInv(s: State)
    requires Inv(s)
    ensures Inv(ConsumerStep(s))
  {
    var s' := ConsumerStep(s);
    IndexTests(RingOf(s));
    if s.c.CLoadedHead? && s.tail != s.c.head {
      assert |s.dequeued| < s.c.seen;
    }
    if s.c.CLoadedSeq? || s.c.CAccepted? {
      TakeKeeps(RingOf(s));
    }
    if s.c.CAccepted? {
      assert RingOf(s') == RingOf(s).(tail := Next(s.tail, s.capacity), dequeued := s.dequeued + [s.c.item]);
    } else {
      assert RingOf(s') == RingOf(s);
    }
  }

  lemma StepKeepsInv(s: State, move: Move)
    requires Inv(s)
    ensures Inv(Apply(s, move))
  {
    match move
    case Produce(item) => ProducerStepKeepsInv(s, item);
    case Consume => ConsumerStepKeepsInv(s);
  }

  lemma {:induction false} RunKeepsInv(s: State, moves: seq<Move>)
    requires Inv(s)
    ensures Inv(Run(s, moves))
  {
    if moves != [] {
      RunKeepsInv(s, moves[..|moves| - 1]);
      StepKeepsInv(Run(s, moves[..|moves| - 1]), moves[|moves| - 1]);
    }
  }

  // ---------- what every run promises ----------

  /** Under every schedule: the dequeued items are the first enqueued ones, in order; the ring holds exactly the
      others, at most capacity - 1 of them; a result of Dequeue is the latest dequeued item. */
  lemma EveryRunIsFifo(capacity: nat, moves: seq<Move>)
    requires ValidCapacity(capacity)
    ensures var s := Run(Init(capacity), moves);
      && s.dequeued + CyclicSlice(RingOf(s)) == s.enqueued
      && |CyclicSlice(RingOf(s))| <= s.capacity - 1
      && (s.c.CIdle? && s.c.last.Some? ==> s.dequeued != [] && s.c.last.value == s.dequeued[|s.dequeued| - 1])
  {
    InitInv(capacity);
    RunKeepsInv(Init(capacity), moves);
    SliceIsTheRest(RingOf(Run(Init(capacity), moves)));
  }

  /** Every access of every run lies inside the ring. */
  lemma IndicesStayInside(capacity: nat, moves: seq<Move>)
    requires ValidCapacity(capacity)
    ensures var s := Run(Init(capacity), moves);
      && s.head < capacity && s.tail < capacity
      && (s.p.POpened? ==> s.p.at < capacity)
      && (s.c.CLoadedSeq? ==> s.c.at < capacity)
  {
    InitInv(capacity);
    RunKeepsInv(Init(capacity), moves);
  }

  /** Linearization: the head store is the abstract enqueue, the tail store the abstract dequeue of the oldest item,
      and no other step changes the abstract queue. */
  lemma StepsRefineTheFifo(s: State, move: Move)
    requires Inv(s)
    ensures var s' := Apply(s, move);
      if move.Produce? && s.p.PWroteCell? then
        Contents(s') == Contents(s) + [s.p.item] && |Contents(s)| < s.capacity - 1
      else if move.Consume? && s.c.CAccepted? then
        Contents(s) == [s.c.item] + Contents(s') && s'.c == CIdle(Some(s.c.item))
      else Contents(s') == Contents(s)
  {
    StepKeepsInv(s, move);
  }

  /** Enqueue refuses exactly when the queue is full at its tail load. */
  lemma EnqueueRefusesExactlyWhenFull(s: State, item: Item)
    requires Inv(s) && s.p.PLoadedHead?
    ensures ProducerStep(s, item).p == PIdle(false) <==> |Contents(s)| == s.capacity - 1
    ensures ProducerStep(s, item).p.PHasRoom? <==> |Contents(s)| < s.capacity - 1
  {
    IndexTests(RingOf(s));
  }

  lemma OddExactly(n: nat, k: int, open: bool)
    requires n == 2 * k + (if open then 1 else 0)
    ensures n % 2 == 1 <==> open
  {
  }

  /** Under every schedule the counter is twice the number of completed enqueues, plus one exactly inside the
      write section. */
  lemma CounterMeaning(capacity: nat, moves: seq<Move>)
    requires ValidCapacity(capacity)
    ensures var s := Run(Init(capacity), moves);
      && s.seqNo == 2 * CompletedEnqueues(s) + (if Writing(s.p) then 1 else 0)
      && (s.seqNo % 2 == 1 <==> Writing(s.p))
  {
    InitInv(capacity);
    RunKeepsInv(Init(capacity), moves);
    var s := Run(Init(capacity), moves);
    OddExactly(s.seqNo, CompletedEnqueues(s), Writing(s.p));
  }

  /** The producer is outside its write section in every state of the run. */
  ghost predicate Undisturbed(s: State, moves: seq<Move>)
    requires |s.buffer| == s.capacity > 0
  {
    && !Writing(Run(s, moves).p)
    && (moves != [] ==> Undisturbed(s, moves[..|moves| - 1]))
  }

  lemma StepsRaiseTheCounter(s: State, move: Move)
    requires Inv(s)
    ensures var s' := Apply(s, move);
      && s'.seqNo >= s.seqNo
      && (!Writing(s.p) && Writing(s'.p) ==> s'.seqNo > s.seqNo)
      && (!Writing(s.p) && !Writing(s'.p) ==>
            s'.seqNo == s.seqNo && s'.buffer == s.buffer && s'.head == s.head && s'.enqueued == s.enqueued)
  {
  }

  lemma {:induction false} CounterDetectsWrites(s: State, moves: seq<Move>)
    requires Inv(s) && !Writing(s.p)
    ensures var last := Run(s, moves);
      && (Undisturbed(s, moves) ==>
            last.seqNo == s.seqNo && last.buffer == s.buffer && last.head == s.head && last.enqueued == s.enqueued)
      && (!Undisturbed(s, moves) ==> last.seqNo > s.seqNo)
  {
    if moves != [] {
      var init := moves[..|moves| - 1];
      CounterDetectsWrites(s, init);
      RunKeepsInv(s, init);
      StepsRaiseTheCounter(Run(s, init), moves[|moves| - 1]);
    }
  }

  /** A Dequeue that found the ring non-empty gives up at its first counter load exactly inside a write section, and
      at its second exactly when some write section was open in between. So a value is accepted only if no producer
      store overlapped the read, and a refusal on a non-empty ring has a concurrent Enqueue to blame. */
  lemma DequeueGivesUpExactlyBesideAWrite(s: State, moves: seq<Move>)
    requires Inv(s) && s.c.CLoadedTail?
    ensures ConsumerStep(s).c == CIdle(None) <==> Writing(s.p)
    ensures !Writing(s.p) ==>
      var begun := ConsumerStep(s);
      var last := Run(begun, moves);
      last.c.CReadCell? && last.c.seqStart == begun.c.seqStart ==>
        && (ConsumerStep(last).c.CAccepted? <==> Undisturbed(begun, moves))
        && (ConsumerStep(last).c == CIdle(None) <==> !Undisturbed(begun, moves))
  {
    if !Writing(s.p) {
      var begun := ConsumerStep(s);
      ConsumerStepKeepsInv(s);
      CounterDetectsWrites(begun, moves);
    }
  }

  /** What a Dequeue has read is the oldest waiting item, whether or not a write overlapped the read: the counter makes
      it give up more often than it must, but guards nothing the two indices do not guard already. */
  lemma ReadIsRightAnyway(capacity: nat, moves: seq<Move>)
    requires ValidCapacity(capacity)
    ensures var s := Run(Init(capacity), moves);
      s.c.CReadCell? || s.c.CAccepted? ==> Contents(s) != [] && s.c.item == Contents(s)[0]
  {
    InitInv(capacity);
    RunKeepsInv(Init(capacity), moves);
  }

  // ---------- one call on its own ----------

  function ProducerRank(p: Producer): nat {
    match p
    case PIdle(_) => 0
    case PLoadedHead(_, _) => 5
    case PHasRoom(_, _) => 4
    case POpened(_, _) => 3
    case PWroteCell(_, _) => 2
    case PPublished => 1
  }

  function ConsumerRank(c: Consumer): nat {
    match c
    case CIdle(_) => 0
    case CLoadedHead(_, _) => 5
    case CLoadedTail(_) => 4
    case CLoadedSeq(_, _) => 3
    case CReadCell(_, _, _) => 2
    case CAccepted(_, _) => 1
  }

  /** Runs the pending Enqueue to its return with nobody else moving. */
  function FinishEnqueue(s: State, item: Item): (s': State)
    requires |s.buffer| == s.capacity > 0
    ensures |s'.buffer| == s'.capacity == s.capacity
    decreases ProducerRank(s.p)
  {
    if s.p.PIdle? then s else FinishEnqueue(ProducerStep(s, item), item)
  }

  function FinishDequeue(s: State): (s': State)
    requires |s.buffer| == s.capacity > 0
    ensures |s'.buffer| == s'.capacity == s.capacity
    decreases ConsumerRank(s.c)
  {
    if s.c.CIdle? then s else FinishDequeue(ConsumerStep(s))
  }

  lemma {:induction false} PendingEnqueueSucceeds(s: State, item: Item)
    requires Inv(s) && !s.p.PIdle? && !s.p.PLoadedHead?
    ensures var s' := FinishEnqueue(s, item);
      && Inv(s') && s'.p == PIdle(true) && s'.c == s.c && s'.dequeued == s.dequeued
      && s'.enqueued == s.enqueued + (if s.p.PPublished? then [] else [s.p.item])
    decreases ProducerRank(s.p)
  {
    ProducerStepKeepsInv(s, item);
    if !s.p.PPublished? {
      PendingEnqueueSucceeds(ProducerStep(s, item), item);
    }
  }

  lemma LoadedEnqueueDecides(s: State, item: Item)
    requires Inv(s) && s.p.PLoadedHead?
    ensures var s' := FinishEnqueue(s, item);
      && Inv(s') && s'.c == s.c && s'.dequeued == s.dequeued
      && (if |Contents(s)| == s.capacity - 1
          then s'.p == PIdle(false) && s'.enqueued == s.enqueued
          else s'.p == PIdle(true) && s'.enqueued == s.enqueued + [s.p.item])
  {
    EnqueueRefusesExactlyWhenFull(s, item);
    ProducerStepKeepsInv(s, item);
    if ProducerStep(s, item).p.PHasRoom? {
      PendingEnqueueSucceeds(ProducerStep(s, item), item);
    }
  }

  /** An Enqueue on its own appends the item, or refuses and changes nothing when capacity - 1 items wait. */
  lemma EnqueueAlone(s: State, item: Item)
    requires Inv(s) && s.p.PIdle?
    ensures var s' := FinishEnqueue(ProducerStep(s, item), item);
      && Inv(s') && s'.c == s.c
      && (if |Contents(s)| == s.capacity - 1
          then s'.p == PIdle(false) && Contents(s') == Contents(s)
          else s'.p == PIdle(true) && Contents(s') == Contents(s) + [item])
  {
    ProducerStepKeepsInv(s, item);
    LoadedEnqueueDecides(ProducerStep(s, item), item);
  }

  /** The pending Dequeue still returns the oldest item if the producer stays outside its write section. */
  predicate Promising(s: State) {
    match s.c
    case CIdle(_) => false
    case CLoadedHead(_, seen) => seen > |s.dequeued|
    case CLoadedTail(_) => true
    case CLoadedSeq(_, seqStart) => seqStart == s.seqNo
    case CReadCell(_, seqStart, _) => seqStart == s.seqNo
    case CAccepted(_, _) => true
  }

  /** A step of a promising Dequeue beside an idle producer stays promising until it returns the oldest item: it
      cannot fail spuriously. */
  lemma PromisingStep(s: State)
    requires Inv(s) && !Writing(s.p) && Promising(s)
    ensures var s' := ConsumerStep(s);
      if s.c.CAccepted? then
        Contents(s) != [] && s'.c == CIdle(Some(Contents(s)[0])) && Contents(s') == Contents(s)[1..]
      else Promising(s') && Contents(s') == Contents(s) && s'.p == s.p
  {
    if s.c.CLoadedHead? && s.c.head == s.tail {
      SameCell(|s.dequeued|, s.c.seen, s.capacity);
    }
  }

  lemma {:induction false} PromisingDequeueReturnsOldest(s: State)
    requires Inv(s) && !Writing(s.p) && Promising(s)
    ensures var s' := FinishDequeue(s);
      && Inv(s') && s'.p == s.p && Contents(s) != []
      && s'.c == CIdle(Some(Contents(s)[0])) && Contents(s') == Contents(s)[1..]
    decreases ConsumerRank(s.c)
  {
    PromisingStep(s);
    ConsumerStepKeepsInv(s);
    if !s.c.CAccepted? {
      PromisingDequeueReturnsOldest(ConsumerStep(s));
    }
  }

  lemma MoveKeepsPromise(s: State, move: Move)
    requires Inv(s) && !Writing(s.p) && Promising(s) && !Writing(Apply(s, move).p)
    ensures var s' := Apply(s, move);
      && Contents(s) != [] && s'.enqueued == s.enqueued
      && (if move.Consume? && s.c.CAccepted?
          then s'.dequeued == s.dequeued + [Contents(s)[0]] && s'.c == CIdle(Some(Contents(s)[0]))
          else s'.dequeued == s.dequeued && Promising(s'))
  {
    match move
    case Consume => PromisingStep(s);
    case Produce(item) => StepsRaiseTheCounter(s, move);
  }

  /** A promising Dequeue keeps its word whatever the producer does short of opening a write section: until the oldest
      item has been dequeued the call has not failed, and nothing else is dequeued first. */
  lemma {:induction false} PromiseIsKept(s: State, moves: seq<Move>)
    requires Inv(s) && Promising(s) && Undisturbed(s, moves)
    ensures var s' := Run(s, moves);
      && Inv(s') && Contents(s) != [] && s'.enqueued == s.enqueued
      && (if s'.dequeued == s.dequeued then Promising(s') else s.dequeued + [Contents(s)[0]] <= s'.dequeued)
  {
    if moves == [] {
      assert Contents(s) != [];
    } else {
      var before := Run(s, moves[..|moves| - 1]);
      PromiseIsKept(s, moves[..|moves| - 1]);
      StepKeepsInv(before, moves[|moves| - 1]);
      if before.dequeued == s.dequeued {
        MoveKeepsPromise(before, moves[|moves| - 1]);
      } else {
        OnlyGrows(before, moves[|moves| - 1]);
      }
    }
  }

  lemma OnlyGrows(s: State, move: Move)
    requires Inv(s) && !Writing(s.p)
    ensures s.dequeued <= Apply(s, move).dequeued && Apply(s, move).enqueued == s.enqueued
  {
  }

  /** A Dequeue on its own removes the oldest item, or reports an empty queue. */
  lemma DequeueAlone(s: State)
    requires Inv(s) && s.c.CIdle? && !Writing(s.p)
    ensures var s' := FinishDequeue(ConsumerStep(s));
      && Inv(s') && s'.p == s.p
      && (if Contents(s) == []
          then s'.c == CIdle(None) && Contents(s') == []
          else s'.c == CIdle(Some(Contents(s)[0])) && Contents(s') == Contents(s)[1..])
  {
    var loaded := ConsumerStep(s);
    ConsumerStepKeepsInv(s);
    ConsumerStepKeepsInv(loaded);
    if Contents(s) != [] {
      PromisingDequeueReturnsOldest(loaded);
    }
  }
}
