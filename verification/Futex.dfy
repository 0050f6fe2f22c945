/** The futex signaller for any number of waiters and wakers: each compare-and-swap and each system call is one step.
    FUTEX_WAIT compares and goes to sleep atomically, and may return spuriously, as futex(2) says. */
module Futex {

  datatype Waiter =
    | WReady     // not in Wait
    | WAtCas     // about to try 1 -> 0
    | WAtWait    // saw the swap fail, about to call FUTEX_WAIT
    | WAsleep    // inside FUTEX_WAIT

  datatype Waker =
    | KReady     // not in Wake
    | KAtCas     // about to try 0 -> 1
    | KAtWake    // swapped, about to call FUTEX_WAKE

  /** What the swaps did, in order: waker k set the word, waiter w took the signal. No step reads the log. */
  datatype Event = Signalled(k: nat) | Taken(w: nat)

  datatype State = State(word: nat, waiters: seq<Waiter>, wakers: seq<Waker>, log: seq<Event>)

  datatype Move = StepWaiter(w: nat) | Spurious(w: nat) | StepWaker(k: nat)

  function Init(waiterCount: nat, wakerCount: nat): State {
    State(0, seq(waiterCount, _ => WReady), seq(wakerCount, _ => KReady), [])
  }

  /** One step of Wait: enter it, swap, or make the system call. */
  function WaiterStep(s: State, w: nat): State
    requires w < |s.waiters|
  {
    match s.waiters[w]
    case WReady => s.(waiters := s.waiters[w := WAtCas])
    case WAtCas =>
      if s.word == 1 then s.(word := 0, waiters := s.waiters[w := WReady], log := s.log + [Taken(w)])
      else s.(waiters := s.waiters[w := WAtWait])
    case WAtWait => s.(waiters := s.waiters[w := if s.word == 0 then WAsleep else WAtCas])
    case WAsleep => s
  }

  function Awake(waiter: Waiter): Waiter {
    if waiter.WAsleep? then WAtCas else waiter
  }

  /** One step of Wake: enter it, swap, or wake every sleeper. */
  function WakerStep(s: State, k: nat): State
    requires k < |s.wakers|
  {
    match s.wakers[k]
    case KReady => s.(wakers := s.wakers[k := KAtCas])
    case KAtCas =>
      if s.word == 0 then s.(word := 1, wakers := s.wakers[k := KAtWake], log := s.log + [Signalled(k)])
      else s.(wakers := s.wakers[k := KReady])
    case KAtWake =>
      s.(waiters := seq(|s.waiters|, i requires 0 <= i < |s.waiters| => Awake(s.waiters[i])),
         wakers := s.wakers[k := KReady])
  }

  function Apply(s: State, move: Move): State {
    match move
    case StepWaiter(w) => if w < |s.waiters| then WaiterStep(s, w) else s
    case Spurious(w) => if w < |s.waiters| then s.(waiters := s.waiters[w := Awake(s.waiters[w])]) else s
    case StepWaker(k) => if k < |s.wakers| then WakerStep(s, k) else s
  }

  function Run(s: State, moves: seq<Move>): State {
    if moves == [] then s else Apply(Run(s, moves[..|moves| - 1]), moves[|moves| - 1])
  }

  ghost predicate SomeoneAsleep(s: State) {
    exists w :: 0 <= w < |s.waiters| && s.waiters[w].WAsleep?
  }

  ghost predicate WakeupUnderway(s: State) {
    exists k :: 0 <= k < |s.wakers| && s.wakers[k].KAtWake?
  }

  /** Signals and takings alternate, starting with a signal. */
  ghost predicate Alternates(log: seq<Event>) {
    forall i | 0 <= i < |log| :: log[i].Signalled? <==> i % 2 == 0
  }

  ghost predicate Inv(s: State) {
    && s.word == |s.log| % 2
    && Alternates(s.log)
    && (s.word == 1 && SomeoneAsleep(s) ==> WakeupUnderway(s))
  }

  lemma StepKeepsInv(s: State, move: Move)
    requires Inv(s)
    ensures Inv(Apply(s, move))
    ensures |Apply(s, move).waiters| == |s.waiters| && |Apply(s, move).wakers| == |s.wakers|
  {
    var s' := Apply(s, move);
    if s'.word == 1 && SomeoneAsleep(s') {
      var w :| 0 <= w < |s'.waiters| && s'.waiters[w].WAsleep?;
      assert s.waiters[w].WAsleep?;
      if s.word == 1 {
        var k :| 0 <= k < |s.wakers| && s.wakers[k].KAtWake?;
        assert s'.wakers[k].KAtWake?;
      } else {
        assert s'.wakers[move.k].KAtWake?;
      }
    }
  }

  lemma {:induction false} RunKeepsInv(s: State, moves: seq<Move>)
    requires Inv(s)
    ensures Inv(Run(s, moves))
    ensures |Run(s, moves).waiters| == |s.waiters| && |Run(s, moves).wakers| == |s.wakers|
  {
    if moves != [] {
      RunKeepsInv(s, moves[..|moves| - 1]);
      StepKeepsInv(Run(s, moves[..|moves| - 1]), moves[|moves| - 1]);
    }
  }

  // ---------- what every run promises ----------

  /** No lost wakeup: a sleeper beside a set word has a waker on its way to FUTEX_WAKE. */
  lemma NoLostWakeup(waiterCount: nat, wakerCount: nat, moves: seq<Move>)
    ensures var s := Run(Init(waiterCount, wakerCount), moves);
      s.word == 1 && SomeoneAsleep(s) ==> WakeupUnderway(s)
  {
    RunKeepsInv(Init(waiterCount, wakerCount), moves);
  }

  function Signals(log: seq<Event>): (n: nat) {
    if log == [] then 0 else Signals(log[..|log| - 1]) + (if log[|log| - 1].Signalled? then 1 else 0)
  }

  function Takings(log: seq<Event>): nat {
    if log == [] then 0 else Takings(log[..|log| - 1]) + (if log[|log| - 1].Taken? then 1 else 0)
  }

  lemma {:induction false} AlternationBalances(log: seq<Event>)
    requires Alternates(log)
    ensures Signals(log) - Takings(log) == |log| % 2
  {
    if log != [] {
      AlternationBalances(log[..|log| - 1]);
    }
  }

  /** Conservation: the word is 0 or 1 and equals effective wakes minus completed waits; the i-th completed wait
      follows the i-th effective wake and precedes the next one, so each wait has a wake of its own and wakes on a
      set word collapse. */
  lemma SignalsAreConserved(waiterCount: nat, wakerCount: nat, moves: seq<Move>)
    ensures var s := Run(Init(waiterCount, wakerCount), moves);
      && s.word == Signals(s.log) - Takings(s.log) && s.word <= 1
      && (forall i | 0 <= i < |s.log| :: s.log[i].Signalled? <==> i % 2 == 0)
  {
    RunKeepsInv(Init(waiterCount, wakerCount), moves);
    AlternationBalances(Run(Init(waiterCount, wakerCount), moves).log);
  }

  /** A waiter inside Wait beside a set word, with no wakeup underway, is awake and returns within two steps of its
      own, leaving the word clear. */
  lemma SetWordIsTaken(s: State, w: nat)
    requires Inv(s) && s.word == 1 && !WakeupUnderway(s)
    requires w < |s.waiters| && !s.waiters[w].WReady?
    ensures var s' := if s.waiters[w].WAtCas? then WaiterStep(s, w) else WaiterStep(WaiterStep(s, w), w);
      s'.waiters[w].WReady? && s'.word == 0 && s'.log == s.log + [Taken(w)]
  {
    assert s.waiters[w].WAsleep? ==> SomeoneAsleep(s);
  }

  /** Beside a clear word a waiter inside Wait is asleep after at most two steps of its own, and makes no more. */
  lemma ClearWordPutsToSleep(s: State, w: nat)
    requires s.word == 0 && w < |s.waiters| && !s.waiters[w].WReady?
    ensures var s1 := WaiterStep(s, w); var s2 := WaiterStep(s1, w);
      && s2 == s.(waiters := s.waiters[w := WAsleep]) && WaiterStep(s2, w) == s2
      && (s.waiters[w].WAsleep? ==> s1 == s)
  {
  }

  /** A sleep ends in exactly two ways: the kernel ends it for no reason, or some waker's FUTEX_WAKE does. */
  lemma SleepEnds(s: State, move: Move, w: nat)
    requires w < |s.waiters| && s.waiters[w].WAsleep?
    ensures var s' := Apply(s, move);
      && w < |s'.waiters|
      && (s'.waiters[w] == WAtCas || s'.waiters[w].WAsleep?)
      && (s'.waiters[w] == WAtCas <==>
            || move == Spurious(w)
            || (move.StepWaker? && move.k < |s.wakers| && s.wakers[move.k].KAtWake?))
  {
  }

  /** After FUTEX_WAKE nobody sleeps; and Wake does nothing at all to a word that is already set. */
  lemma WakeLeavesNobodyAsleep(s: State, k: nat)
    requires k < |s.wakers|
    ensures s.wakers[k].KAtWake? ==> !SomeoneAsleep(WakerStep(s, k)) && WakerStep(s, k).word == s.word
    ensures s.wakers[k].KAtCas? && s.word == 1 ==> WakerStep(s, k) == s.(wakers := s.wakers[k := KReady])
  {
  }
}
