/** One client and the server's service of its slot: the request loop of the client against the dispatcher's visits,
    down to the single loads, stores, swaps, system calls and copied cells of the queue, the futex and the workers.

    Which visits happen is the dispatcher's business; here they may start at any time. */
module Session {
  import opened Wrappers
  import opened Transpose
  import opened TiledTranspose
  import opened TiledWork
  import Masks
  import Q = SeqLockQueue
  import F = Futex

  type Matrix = seq<uint64>

  /** The client's main program. */
  datatype Client =
    | Starting
    | Subscribing                        // subscribe message sent
    | AwaitingResponse                   // the handler has taken it
    | LoopHead(rep: nat, buf: nat)       // the two loop conditions
    | Enqueuing(rep: nat, buf: nat)
    | Waiting(rep: nat, buf: nat)
    | Leaving                            // unsubscribe message sent
    | Checked(errorFound: bool)          // after the final comparison

  /** The dispatcher's visit to this client's slot. */
  datatype Service =
    | NoVisit
    | Dequeuing
    | Transposing(buf: nat, cursors: seq<Cursor>)
    | Waking

  datatype State = State(
    plan: Plan, reps: nat, src: seq<Matrix>, dst: seq<Matrix>,
    queue: Q.State, futex: F.State, client: Client, leavePending: bool, service: Service)

  datatype Move =
    | ClientMove
    | SpuriousWake
    | SubscribeHandled
    | Responded
    | LeaveHandled
    | BeginVisit
    | ServiceMove
    | WorkerMove(t: nat)

  /** The shape every state has. */
  predicate Formed(s: State) {
    && |s.queue.buffer| == s.queue.capacity > 0
    && |s.futex.waiters| == 1 && |s.futex.wakers| == 1
    && s.plan.tile > 0 && s.plan.threads > 0
    && |s.src| == |s.dst| < 0x8000_0000
    && (s.client.Enqueuing? ==> s.client.buf < |s.src|)
    && (s.service.Transposing? ==> forall t | 0 <= t < |s.service.cursors| :: Placed(s.plan, s.service.cursors[t]))
  }

  /** What the client's setup leaves behind: a zero-filled queue and futex word, zero-filled results. */
  function Init(plan: Plan, reps: nat, src: seq<Matrix>, capacity: nat): State {
    State(plan, reps, src, seq(|src|, _ => Zero(plan)), Q.Init(capacity), F.Init(1, 1), Starting, false, NoVisit)
  }

  function Zero(plan: Plan): Matrix {
    Zeros(plan.rows * plan.cols)
  }

  // ---------- the steps ----------

  function ClientStep(s: State): (s': State)
    requires Formed(s)
    ensures Formed(s')
  {
    match s.client
    case Starting => s.(client := Subscribing)
    case LoopHead(rep, buf) =>
      if rep >= s.reps then s.(client := Leaving, leavePending := true)
      else if buf < |s.src| then s.(client := Enqueuing(rep, buf))
      else s.(client := LoopHead(rep + 1, 0))
    case Enqueuing(rep, buf) =>
      // The result of Enqueue is ignored.
      var queue := Q.ProducerStep(s.queue, buf);
      s.(queue := queue, client := if queue.p.PIdle? then Waiting(rep, buf) else s.client)
    case Waiting(rep, buf) =>
      var futex := F.WaiterStep(s.futex, 0);
      s.(futex := futex, client := if futex.waiters[0].WReady? then LoopHead(rep, buf + 1) else s.client)
    case Leaving => s.(client := Checked(SomeMismatch(s.src, s.dst, s.plan.rows, s.plan.cols)))
    case _ => s
  }

  predicate MatchesReference(s: State, b: nat)
    requires b < |s.src| == |s.dst|
  {
    Matches(s.src[b], s.dst[b], s.plan.rows, s.plan.cols)
  }

  function ServiceStep(s: State): (s': State)
    requires Formed(s)
    ensures Formed(s')
  {
    match s.service
    case NoVisit => s
    case Dequeuing =>
      var queue := Q.ConsumerStep(s.queue);
      s.(queue := queue, service :=
        if !queue.c.CIdle? then Dequeuing
        else if queue.c.last.None? then NoVisit
        else Transposing(queue.c.last.value, StartAll(s.plan)))
    case Transposing(_, cursors) => if AllFinished(cursors) then s.(service := Waking) else s
    case Waking =>
      var futex := F.WakerStep(s.futex, 0);
      s.(futex := futex, service := if futex.wakers[0].KReady? then NoVisit else Waking)
  }

  /** A worker copies one cell. */
  function WorkerStep(s: State, t: nat): (s': State)
    requires Formed(s)
    ensures Formed(s')
  {
    if s.service.Transposing? && t < |s.service.cursors| && s.service.cursors[t].At? && s.service.buf < |s.src| then
      var buf, cursors := s.service.buf, s.service.cursors;
      s.(dst := s.dst[buf := CopyCell(s.plan, s.src[buf], s.dst[buf], cursors[t])],
         service := Transposing(buf, cursors[t := Advance(s.plan, cursors[t])]))
    else s
  }

  function Apply(s: State, move: Move): (s': State)
    requires Formed(s)
    ensures Formed(s')
  {
    match move
    case ClientMove => ClientStep(s)
    case SpuriousWake => s.(futex := F.Apply(s.futex, F.Spurious(0)))
    case SubscribeHandled => if s.client.Subscribing? then s.(client := AwaitingResponse) else s
    case Responded => if s.client.AwaitingResponse? then s.(client := LoopHead(0, 0)) else s
    case LeaveHandled => s.(leavePending := false)
    case BeginVisit => if s.service.NoVisit? then s.(service := Dequeuing) else s
    case ServiceMove => ServiceStep(s)
    case WorkerMove(t) => WorkerStep(s, t)
  }

  // ---------- the token ----------

  /** 1 exactly from Enqueue's head store to the swap in Wait that takes the signal. */
  function Outstanding(s: State): nat {
    if (s.client.Enqueuing? && s.queue.p.PPublished?) || s.client.Waiting? then 1 else 0
  }

  /** 1 exactly from Dequeue's tail store to the swap in Wake. */
  function AtServer(s: State): nat
    requires Formed(s)
  {
    if s.service.Transposing? || (s.service.Waking? && !s.futex.wakers[0].KAtWake?) then 1 else 0
  }

  /** The request is in the queue, or at the server, or back as a signal: never lost, never doubled. */
  predicate Token(s: State)
    requires Formed(s)
  {
    |Q.Contents(s.queue)| + AtServer(s) + s.futex.word == Outstanding(s)
  }

  // ---------- the invariant ----------

  /** Whoever is not inside a call of the queue or the futex has none pending. */
  ghost predicate CallsInv(s: State)
    requires Formed(s)
  {
    && (!s.client.Enqueuing? ==> s.queue.p.PIdle?)
    && (s.client.Waiting? ==> s.queue.p == Q.PIdle(true))
    && (!s.service.Dequeuing? ==> s.queue.c.CIdle?)
    && (!s.client.Waiting? ==> s.futex.waiters[0].WReady?)
    && (!s.service.Waking? ==> s.futex.wakers[0].KReady?)
  }

  /** The one request under way is for the client's current buffer. */
  ghost predicate ItemInv(s: State)
    requires Formed(s)
  {
    && (s.client.Enqueuing? || s.client.Waiting? ==> s.client.rep < s.reps && s.client.buf < |s.src|)
    && (s.client.LoopHead? ==> s.client.rep <= s.reps && s.client.buf <= |s.src|)
    && (s.client.LoopHead? && s.client.buf > 0 ==> s.client.rep < s.reps)
    && (s.client.Enqueuing? && !s.queue.p.PIdle? && !s.queue.p.PPublished? ==> s.queue.p.item == s.client.buf)
    && (Outstanding(s) == 1 ==> forall i | 0 <= i < |Q.Contents(s.queue)| :: Q.Contents(s.queue)[i] == s.client.buf)
    && (s.service.Transposing? && Outstanding(s) == 1 ==> s.service.buf == s.client.buf)
  }

  /** Requests of this buffer that have been answered: some earlier repetition, or earlier in this one. */
  predicate Answered(s: State, b: nat) {
    match s.client
    case LoopHead(rep, buf) => rep > 0 || b < buf
    case Enqueuing(rep, buf) => rep > 0 || b < buf
    case Waiting(rep, buf) => rep > 0 || b < buf
    case Leaving => s.reps > 0
    case Checked(_) => s.reps > 0
    case _ => false
  }

  /** The signal for the current request is up, or about to be raised. */
  predicate SignalDue(s: State)
    requires Formed(s)
  {
    s.futex.word == 1 || (s.service.Waking? && !s.futex.wakers[0].KAtWake?)
  }

  ghost predicate SizesInv(s: State)
    requires Formed(s)
  {
    Fits(s.plan) && forall b | 0 <= b < |s.src| :: |s.src[b]| == |s.dst[b]| == s.plan.rows * s.plan.cols
  }

  ghost predicate AnsweredInv(s: State)
    requires Formed(s)
  {
    forall b: nat | b < |s.src| && Answered(s, b) :: MatchesReference(s, b)
  }

  ghost predicate DueInv(s: State)
    requires Formed(s)
  {
    Outstanding(s) == 1 && SignalDue(s) && s.client.buf < |s.src| ==> MatchesReference(s, s.client.buf)
  }

  ghost predicate WorkersInv(s: State)
    requires Formed(s)
  {
    s.service.Transposing? && s.service.buf < |s.src| ==>
      && JobInv(s.plan, s.src[s.service.buf], s.dst[s.service.buf], s.service.cursors)
      && TotalWork(s.plan, s.service.cursors) <= s.plan.rows * s.plan.cols
  }

  ghost predicate UntouchedInv(s: State)
    requires Formed(s)
  {
    s.reps == 0 ==> forall b | 0 <= b < |s.src| :: s.dst[b] == Zero(s.plan)
  }

  ghost predicate VerdictInv(s: State)
    requires Formed(s)
  {
    s.client.Checked? ==> (s.client.errorFound <==> SomeMismatch(s.src, s.dst, s.plan.rows, s.plan.cols))
  }

  /** Calls, token and items: everything but the matrices. */
  ghost predicate ControlInv(s: State)
    requires Formed(s)
  {
    && s.futex.word <= 1 && CallsInv(s) && Token(s) && ItemInv(s)
    && (s.leavePending ==> s.client.Leaving? || s.client.Checked?)
  }

  ghost predicate DataInv(s: State)
    requires Formed(s)
  {
    SizesInv(s) && AnsweredInv(s) && DueInv(s) && WorkersInv(s) && UntouchedInv(s) && VerdictInv(s)
  }

  ghost predicate Inv(s: State) {
    Formed(s) && Q.Inv(s.queue) && F.Inv(s.futex) && ControlInv(s) && DataInv(s)
  }

  /** What the client's own setup guarantees: tiles fit, the 32-bit indices suffice, fewer than 2^31 matrices. */
  ghost predicate GoodSetup(plan: Plan, src: seq<Matrix>, capacity: nat) {
    && Fits(plan) && Masks.ValidCapacity(capacity) && |src| < 0x8000_0000
    && forall b | 0 <= b < |src| :: |src[b]| == plan.rows * plan.cols
  }

  lemma InitInv(plan: Plan, reps: nat, src: seq<Matrix>, capacity: nat)
    requires GoodSetup(plan, src, capacity)
    ensures Inv(Init(plan, reps, src, capacity))
  {
    Q.InitInv(capacity);
  }

  // ---------- every step keeps the control part ----------

  lemma EnqueuingControl(s: State)
    requires Formed(s) && Q.Inv(s.queue) && ControlInv(s) && s.client.Enqueuing?
    ensures ControlInv(ClientStep(s)) && Q.Inv(ClientStep(s).queue)
  {
    Q.ProducerStepKeepsInv(s.queue, s.client.buf);
    Q.StepsRefineTheFifo(s.queue, Q.Produce(s.client.buf));
    if s.queue.p.PLoadedHead? {
      Q.EnqueueRefusesExactlyWhenFull(s.queue, s.client.buf);
    }
  }

  lemma OtherClientControl(s: State)
    requires Formed(s) && ControlInv(s) && !s.client.Enqueuing?
    ensures ControlInv(ClientStep(s))
  {
  }

  lemma DequeuingControl(s: State)
    requires Formed(s) && Q.Inv(s.queue) && ControlInv(s) && s.service.Dequeuing?
    ensures ControlInv(ServiceStep(s)) && Q.Inv(ServiceStep(s).queue)
    ensures ServiceStep(s).service.Transposing? ==>
      Outstanding(s) == 1 && ServiceStep(s).service == Transposing(s.client.buf, StartAll(s.plan))
  {
    Q.ConsumerStepKeepsInv(s.queue);
    Q.StepsRefineTheFifo(s.queue, Q.Consume);
    if ServiceStep(s).service.Transposing? {
      assert Q.Contents(s.queue)[0] == s.queue.c.item;
    }
  }

  lemma OtherServiceControl(s: State)
    requires Formed(s) && ControlInv(s) && !s.service.Dequeuing?
    ensures ControlInv(ServiceStep(s))
  {
  }

  lemma OtherControl(s: State, move: Move)
    requires Formed(s) && ControlInv(s) && !move.ClientMove? && !move.ServiceMove?
    ensures ControlInv(Apply(s, move))
  {
  }

  // ---------- every step keeps the matrices right ----------

  /** A step that writes no matrix keeps what is known of them, if what it claims anew was already so. */
  lemma NothingWritten(s: State, s': State)
    requires Formed(s) && DataInv(s) && Formed(s')
    requires s'.plan == s.plan && s'.reps == s.reps && s'.src == s.src && s'.dst == s.dst
    requires forall b: nat | b < |s.src| && Answered(s', b) :: Answered(s, b) || MatchesReference(s, b)
    requires Outstanding(s') == 1 && SignalDue(s') && s'.client.buf < |s.src| ==> MatchesReference(s, s'.client.buf)
    requires s'.service.Transposing? ==> s'.service == s.service || WorkersInv(s')
    requires s'.client.Checked? ==> s'.client == s.client || VerdictInv(s')
    ensures DataInv(s')
  {
  }

  lemma ClientStepData(s: State)
    requires Formed(s) && ControlInv(s) && DataInv(s)
    ensures DataInv(ClientStep(s))
  {
    NothingWritten(s, ClientStep(s));
  }

  lemma DequeuingData(s: State)
    requires Inv(s) && s.service.Dequeuing?
    ensures DataInv(ServiceStep(s))
  {
    DequeuingControl(s);
    if ServiceStep(s).service.Transposing? {
      StartInv(s.plan, s.src[s.client.buf], s.dst[s.client.buf]);
      WorkIsTheMatrix(s.plan);
    }
    NothingWritten(s, ServiceStep(s));
  }

  lemma OtherServiceData(s: State)
    requires Formed(s) && ControlInv(s) && DataInv(s) && !s.service.Dequeuing?
    ensures DataInv(ServiceStep(s))
  {
    if s.service.Transposing? && AllFinished(s.service.cursors) {
      assert Outstanding(s) == 1;
      FinishedMeansTransposed(s.plan, s.src[s.client.buf], s.dst[s.client.buf], s.service.cursors);
    }
    NothingWritten(s, ServiceStep(s));
  }

  lemma WorkerStepData(s: State, t: nat)
    requires Formed(s) && ControlInv(s) && DataInv(s)
    ensures DataInv(WorkerStep(s, t))
  {
    if s.service.Transposing? && t < |s.service.cursors| && s.service.cursors[t].At? {
      var s' := WorkerStep(s, t);
      assert Outstanding(s) == 1;
      var buf := s.client.buf;
      assert CursorInv(s.plan, s.service.cursors, t);
      StepInv(s.plan, s.src[buf], s.dst[buf], s.service.cursors, t);
      OneCopyLess(s.plan, s.service.cursors, t);
      if MatchesReference(s, buf) {
        CopyKeepsTranspose(s.plan, s.src[buf], s.service.cursors[t]);
      }
      forall b: nat | b < |s.src| && Answered(s', b)
        ensures MatchesReference(s', b)
      {
        assert Answered(s, b);
      }
    }
  }

  lemma StepKeepsData(s: State, move: Move)
    requires Inv(s)
    ensures DataInv(Apply(s, move))
  {
    match move
    case ClientMove => ClientStepData(s);
    case ServiceMove =>
      if s.service.Dequeuing? {
        DequeuingData(s);
      } else {
        OtherServiceData(s);
      }
    case WorkerMove(t) => WorkerStepData(s, t);
    case _ => NothingWritten(s, Apply(s, move));
  }

  lemma StepKeepsControl(s: State, move: Move)
    requires Inv(s)
    ensures ControlInv(Apply(s, move)) && Q.Inv(Apply(s, move).queue)
  {
    match move
    case ClientMove =>
      if s.client.Enqueuing? {
        EnqueuingControl(s);
      } else {
        OtherClientControl(s);
      }
    case ServiceMove =>
      if s.service.Dequeuing? {
        DequeuingControl(s);
      } else {
        OtherServiceControl(s);
      }
    case _ => OtherControl(s, move);
  }

  lemma StepKeepsFutex(s: State, move: Move)
    requires Formed(s) && F.Inv(s.futex)
    ensures F.Inv(Apply(s, move).futex)
  {
    F.StepKeepsInv(s.futex, F.StepWaiter(0));
    F.StepKeepsInv(s.futex, F.StepWaker(0));
    F.StepKeepsInv(s.futex, F.Spurious(0));
  }

  lemma StepKeepsInv(s: State, move: Move)
    requires Inv(s)
    ensures Inv(Apply(s, move))
  {
    StepKeepsControl(s, move);
    StepKeepsData(s, move);
    StepKeepsFutex(s, move);
  }

  // ---------- what follows from the invariant ----------

  /** The token leaves no room for a refused Enqueue, a failing swap in Wake or a second signal. */
  lemma NothingIsWasted(s: State)
    requires Inv(s)
    ensures s.client.Enqueuing? && s.queue.p.PLoadedHead? ==>
      Q.ProducerStep(s.queue, s.client.buf).p.PHasRoom?
    ensures s.client.Waiting? ==> s.queue.p == Q.PIdle(true)
    ensures s.service.Waking? && s.futex.wakers[0].KAtCas? ==> s.futex.word == 0
    ensures s.service.Transposing? ==>
      s.client.buf < |s.src| && s.service.buf == s.client.buf && Q.Contents(s.queue) == [] && s.futex.word == 0
  {
    if s.client.Enqueuing? && s.queue.p.PLoadedHead? {
      Q.EnqueueRefusesExactlyWhenFull(s.queue, s.client.buf);
    }
  }

  /** The two states belong to the same client program with the same matrices to transpose. */
  predicate SameRequest(s: State, s': State) {
    s'.plan == s.plan && s'.reps == s.reps && s'.src == s.src
  }

  /** A request once answered stays answered, and no step changes what the client asked for. */
  lemma AnswersStay(s: State, move: Move, b: nat)
    requires Formed(s) && ControlInv(s)
    ensures var s' := Apply(s, move);
      && SameRequest(s, s')
      && (Answered(s, b) ==> Answered(s', b))
  {
  }

  lemma ZeroTransposes(plan: Plan, src: Matrix)
    requires |src| == plan.rows * plan.cols
    ensures Transposed(src, plan.rows, plan.cols) == Zero(plan) <==> src == Zero(plan)
  {
    ZerosTransposed(plan.rows, plan.cols);
    if Transposed(src, plan.rows, plan.cols) == Zero(plan) {
      TransposeTwice(src, plan.rows, plan.cols);
      ZerosTransposed(plan.cols, plan.rows);
    }
  }

  /** The final comparison reports an error exactly if no repetition was asked for and some source matrix has a
      non-zero element: after at least one repetition it never does. */
  lemma Verdict(s: State)
    requires Inv(s) && s.client.Checked?
    ensures s.client.errorFound <==> s.reps == 0 && exists b | 0 <= b < |s.src| :: s.src[b] != Zero(s.plan)
  {
    forall b: nat | b < |s.src|
      ensures MatchesReference(s, b) <==> s.reps > 0 || s.src[b] == Zero(s.plan)
    {
      if s.reps > 0 {
        assert Answered(s, b);
      } else {
        ZeroTransposes(s.plan, s.src[b]);
      }
    }
    if s.reps == 0 && exists b | 0 <= b < |s.src| :: s.src[b] != Zero(s.plan) {
      var b :| 0 <= b < |s.src| && s.src[b] != Zero(s.plan);
      assert !MatchesReference(s, b);
    }
  }

  /** A waiting client whose slot is not being visited is not stuck: its request is in the queue, or its signal is up
      and it is awake. */
  lemma WaitingClientIsNotStuck(s: State)
    requires Inv(s) && s.client.Waiting? && s.service.NoVisit?
    ensures Q.Contents(s.queue) == [s.client.buf] || (s.futex.word == 1 && !s.futex.waiters[0].WAsleep?)
  {
    assert s.futex.waiters[0].WAsleep? ==> F.SomeoneAsleep(s.futex);
    assert !F.WakeupUnderway(s.futex);
  }

  /** When Wait returns, its request has been taken out of the queue, answered, and answered rightly. */
  lemma WaitReturnsWithTheAnswer(s: State)
    requires Inv(s) && s.client.Waiting? && !ClientStep(s).client.Waiting?
    ensures var s' := ClientStep(s);
      && s'.client == LoopHead(s.client.rep, s.client.buf + 1)
      && Answered(s', s.client.buf) && s.client.buf < |s.src|
      && s'.dst[s.client.buf] == Transposed(s.src[s.client.buf], s.plan.rows, s.plan.cols)
      && Q.Contents(s'.queue) == [] && s'.futex.word == 0 && AtServer(s') == 0
  {
    assert MatchesReference(s, s.client.buf);
  }

  /** A client's sleep ends when the kernel ends it for no reason, or when the FUTEX_WAKE of the service does, and in no
      other way. */
  lemma SleepEnds(s: State, move: Move)
    requires Inv(s) && s.futex.waiters[0].WAsleep?
    ensures !Apply(s, move).futex.waiters[0].WAsleep? <==>
      move.SpuriousWake? || (move.ServiceMove? && s.service.Waking? && s.futex.wakers[0].KAtWake?)
  {
  }
}
