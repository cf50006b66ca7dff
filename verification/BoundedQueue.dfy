/**
 The bounded command queue as a system of interleaved steps. Every critical section is one
 step, because it runs under the mutex; waiting, being woken, and notifying after the lock
 is released are separate steps, so any interleaving of any number of threads is covered.
 */
module BoundedQueue {
  import opened Orders

  type Thread = nat

  /** Where one thread is in its current call. */
  datatype Phase<T> =
    | Idle
    | PushAsleep(value: T)      // waiting on notFull
    | PushWoken(value: T)       // out of the wait set, yet to retake the lock
    | PushNotifying             // pushed and unlocked, yet to notify notEmpty
    | PopAsleep                 // waiting on notEmpty
    | PopWoken
    | PopNotifying              // popped and unlocked, yet to notify notFull
    | CloseNotifyingEmpty       // closed, yet to notify_all notEmpty
    | CloseNotifyingFull        // yet to notify_all notFull

  datatype State<T> = State(
    capacity: nat, items: seq<T>, closed: bool,
    threads: seq<Phase<T>>,
    // What the calls have reported so far.
    accepted: seq<T>, delivered: seq<T>, exhausted: bool)
  {
    function At(t: Thread): Phase<T>
      requires t < |threads|
    {
      threads[t]
    }

    function Move(t: Thread, p: Phase<T>): State<T>
      requires t < |threads|
    {
      this.(threads := threads[t := p])
    }

    /** How many threads are in one kind of phase. */
    function Number(k: Kind): nat {
      Count(threads, k)
    }

    predicate Full() {
      |items| >= capacity
    }
  }

  datatype Kind =
    | IdleKind | PushAsleepKind | PushWokenKind | PushNotifyingKind
    | PopAsleepKind | PopWokenKind | PopNotifyingKind | CloseEmptyKind | CloseFullKind

  function KindOf<T>(p: Phase<T>): Kind {
    match p
    case Idle => IdleKind
    case PushAsleep(_) => PushAsleepKind
    case PushWoken(_) => PushWokenKind
    case PushNotifying => PushNotifyingKind
    case PopAsleep => PopAsleepKind
    case PopWoken => PopWokenKind
    case PopNotifying => PopNotifyingKind
    case CloseNotifyingEmpty => CloseEmptyKind
    case CloseNotifyingFull => CloseFullKind
  }

  /** How many of one thread there are in a kind of phase: one or none. */
  function Is<T>(p: Phase<T>, k: Kind): nat {
    if KindOf(p) == k then 1 else 0
  }

  function Count<T>(threads: seq<Phase<T>>, k: Kind): nat {
    if threads == [] then 0 else Is(threads[0], k) + Count(threads[1..], k)
  }

  ghost predicate Nobody<T>(threads: seq<Phase<T>>, k: Kind) {
    forall t :: 0 <= t < |threads| ==> KindOf(threads[t]) != k
  }

  // ----- Steps -----

  datatype Step<T> =
    | Push(t: Thread, value: T)             // push: lock, test the predicate
    | RetryPush(t: Thread)                  // woken inside push: retake the lock, test again
    | TryPush(t: Thread, value: T)
    | Pop(t: Thread)
    | RetryPop(t: Thread)
    | TryPop(t: Thread)
    | Notify(t: Thread, woken: Option<Thread>)  // notify_one by a thread that owes one
    | Close(t: Thread)
    | NotifyAll(t: Thread)                  // notify_all by a closer
    | Spurious(t: Thread)                   // a sleeper wakes for no reason

  /** The waiters a notify_one by a thread in phase `p` may wake. */
  function Waiting<T>(p: Phase<T>): Kind {
    if p.PushNotifying? then PopAsleepKind else PushAsleepKind
  }

  ghost predicate Enabled<T>(s: State<T>, a: Step<T>) {
    && a.t < |s.threads|
    && match a
       case Push(t, _) => s.At(t).Idle?
       case RetryPush(t) => s.At(t).PushWoken?
       case TryPush(t, _) => s.At(t).Idle?
       case Pop(t) => s.At(t).Idle?
       case RetryPop(t) => s.At(t).PopWoken?
       case TryPop(t) => s.At(t).Idle?
       case Notify(t, woken) =>
         && (s.At(t).PushNotifying? || s.At(t).PopNotifying?)
         && (if woken.None? then Nobody(s.threads, Waiting(s.At(t)))
             else woken.value < |s.threads| && KindOf(s.At(woken.value)) == Waiting(s.At(t)))
       case Close(t) => s.At(t).Idle?
       case NotifyAll(t) => s.At(t).CloseNotifyingEmpty? || s.At(t).CloseNotifyingFull?
       case Spurious(t) => s.At(t).PushAsleep? || s.At(t).PopAsleep?
  }

  /** The critical section of push: report closed, sleep when full, or enqueue. */
  function PushSection<T>(s: State<T>, t: Thread, value: T, mayWait: bool): State<T>
    requires t < |s.threads|
  {
    if s.closed then s.Move(t, Idle)
    else if s.Full() then s.Move(t, if mayWait then PushAsleep(value) else Idle)
    else s.Move(t, PushNotifying).(items := s.items + [value], accepted := s.accepted + [value])
  }

  /** The critical section of pop: dequeue, report exhaustion when closed, or sleep. */
  function PopSection<T>(s: State<T>, t: Thread, mayWait: bool): State<T>
    requires t < |s.threads|
  {
    if s.items != [] then
      s.Move(t, PopNotifying).(items := s.items[1..], delivered := s.delivered + [s.items[0]])
    else if mayWait && s.closed then s.Move(t, Idle).(exhausted := true)
    else s.Move(t, if mayWait then PopAsleep else Idle)
  }

  function Wake<T>(p: Phase<T>): Phase<T> {
    match p
    case PushAsleep(v) => PushWoken(v)
    case PopAsleep => PopWoken
    case _ => p
  }

  /** Every sleeper of one kind wakes. */
  function WakeAll<T>(threads: seq<Phase<T>>, k: Kind): (woken: seq<Phase<T>>)
    ensures |woken| == |threads|
    ensures forall t :: 0 <= t < |threads| ==>
              woken[t] == if KindOf(threads[t]) == k then Wake(threads[t]) else threads[t]
  {
    seq(|threads|, t requires 0 <= t < |threads| => if KindOf(threads[t]) == k then Wake(threads[t]) else threads[t])
  }

  ghost function Next<T>(s: State<T>, a: Step<T>): State<T>
    requires Enabled(s, a)
  {
    match a
    case Push(t, v) => PushSection(s, t, v, true)
    case RetryPush(t) => PushSection(s, t, s.At(t).value, true)
    case TryPush(t, v) => PushSection(s, t, v, false)
    case Pop(t) => PopSection(s, t, true)
    case RetryPop(t) => PopSection(s, t, true)
    case TryPop(t) => PopSection(s, t, false)
    case Notify(t, woken) =>
      var s' := s.Move(t, Idle);
      if woken.Some? then s'.Move(woken.value, Wake(s.At(woken.value))) else s'
    case Close(t) => s.Move(t, CloseNotifyingEmpty).(closed := true)
    case NotifyAll(t) =>
      if s.At(t).CloseNotifyingEmpty?
      then s.(threads := WakeAll(s.threads, PopAsleepKind)[t := CloseNotifyingFull])
      else s.(threads := WakeAll(s.threads, PushAsleepKind)[t := Idle])
    case Spurious(t) => s.Move(t, Wake(s.At(t)))
  }

  predicate Init<T>(s: State<T>) {
    && s.capacity >= 1 && s.items == [] && !s.closed && s.accepted == [] && s.delivered == [] && !s.exhausted
    && forall t :: 0 <= t < |s.threads| ==> s.threads[t] == Idle
  }

  // ----- Counting threads -----

  lemma {:induction false} MoveCounts<T>(threads: seq<Phase<T>>, t: Thread, p: Phase<T>, k: Kind)
    requires t < |threads|
    ensures Count(threads[t := p], k) + Is(threads[t], k) == Count(threads, k) + Is(p, k)
  {
    if t == 0 {
      assert threads[0 := p][1..] == threads[1..];
    } else {
      assert threads[t := p][1..] == threads[1..][t - 1 := p];
      MoveCounts(threads[1..], t - 1, p, k);
    }
  }

  /** How many more threads are in a kind of phase when one moves from `p` to `p'`. */
  function Change<T>(p: Phase<T>, p': Phase<T>, k: Kind): int {
    Is(p', k) - Is(p, k)
  }

  /** One thread moving from `p` to `p'` changes the counts that matter by exactly that. */
  ghost predicate Tallied<T>(before: seq<Phase<T>>, after: seq<Phase<T>>, p: Phase<T>, p': Phase<T>) {
    && Count(after, PushAsleepKind) == Count(before, PushAsleepKind) + Change(p, p', PushAsleepKind)
    && Count(after, PushWokenKind) == Count(before, PushWokenKind) + Change(p, p', PushWokenKind)
    && Count(after, PushNotifyingKind) == Count(before, PushNotifyingKind) + Change(p, p', PushNotifyingKind)
    && Count(after, PopAsleepKind) == Count(before, PopAsleepKind) + Change(p, p', PopAsleepKind)
    && Count(after, PopWokenKind) == Count(before, PopWokenKind) + Change(p, p', PopWokenKind)
    && Count(after, PopNotifyingKind) == Count(before, PopNotifyingKind) + Change(p, p', PopNotifyingKind)
    && Count(after, CloseEmptyKind) == Count(before, CloseEmptyKind) + Change(p, p', CloseEmptyKind)
    && Count(after, CloseFullKind) == Count(before, CloseFullKind) + Change(p, p', CloseFullKind)
  }

  lemma MoveTally<T>(threads: seq<Phase<T>>, t: Thread, p: Phase<T>)
    requires t < |threads|
    ensures Tallied(threads, threads[t := p], threads[t], p)
  {
    forall k ensures Count(threads[t := p], k) == Count(threads, k) + Change(threads[t], p, k) {
      MoveCounts(threads, t, p, k);
    }
  }

  lemma {:induction false} NoneThere<T>(threads: seq<Phase<T>>, k: Kind)
    ensures Count(threads, k) == 0 <==> Nobody(threads, k)
  {
    if threads != [] {
      NoneThere(threads[1..], k);
      assert forall t :: 0 <= t < |threads| - 1 ==> threads[1..][t] == threads[t + 1];
      assert forall t :: 1 <= t < |threads| ==> threads[t] == threads[1..][t - 1];
    }
  }

  // ----- No lost wakeup -----

  /** While the queue is open, a sleeper's opportunity is already on its way to somebody. */
  ghost predicate OpenPromise<T>(s: State<T>) {
    && (s.Number(PushAsleepKind) > 0 ==>
          s.capacity - |s.items| <= s.Number(PopNotifyingKind) + s.Number(PushWokenKind))
    && (s.Number(PopAsleepKind) > 0 ==>
          |s.items| <= s.Number(PushNotifyingKind) + s.Number(PopWokenKind))
  }

  /** Once closed, a sleeper has a closer that has yet to notify it. */
  ghost predicate ClosedPromise<T>(s: State<T>) {
    && (s.Number(PopAsleepKind) > 0 ==> s.Number(CloseEmptyKind) > 0)
    && (s.Number(PushAsleepKind) > 0 ==> s.Number(CloseEmptyKind) + s.Number(CloseFullKind) > 0)
  }

  /** Values come out in the order they went in, none lost, none twice, and the bound holds. */
  ghost predicate Delivery<T>(s: State<T>) {
    && s.capacity >= 1 && |s.items| <= s.capacity
    && s.accepted == s.delivered + s.items
    && (s.exhausted ==> s.closed && s.items == [])
  }

  ghost predicate Inv<T>(s: State<T>) {
    && Delivery(s)
    && (s.Number(CloseEmptyKind) + s.Number(CloseFullKind) > 0 ==> s.closed)
    && if s.closed then ClosedPromise(s) else OpenPromise(s)
  }

  lemma InitInv<T>(s: State<T>)
    requires Init(s)
    ensures Inv(s)
  {
    NoneThere(s.threads, PushAsleepKind);
    NoneThere(s.threads, PopAsleepKind);
    NoneThere(s.threads, CloseEmptyKind);
    NoneThere(s.threads, CloseFullKind);
  }

  lemma PushKeepsInv<T>(s: State<T>, t: Thread, value: T, mayWait: bool)
    requires Inv(s) && t < |s.threads| && (s.At(t).Idle? || s.At(t).PushWoken?)
    ensures Inv(PushSection(s, t, value, mayWait))
  {
    if s.closed || (s.Full() && !mayWait) {
      MoveTally(s.threads, t, Idle);
    } else if s.Full() {
      MoveTally(s.threads, t, PushAsleep(value));
    } else {
      EnqueueKeepsInv(s, t, value);
    }
  }

  lemma EnqueueKeepsInv<T>(s: State<T>, t: Thread, value: T)
    requires Inv(s) && t < |s.threads| && (s.At(t).Idle? || s.At(t).PushWoken?) && !s.closed && !s.Full()
    ensures Inv(s.Move(t, PushNotifying).(items := s.items + [value], accepted := s.accepted + [value]))
  {
    MoveTally(s.threads, t, PushNotifying);
    assert s.accepted + [value] == s.delivered + (s.items + [value]);
  }

  lemma PopKeepsInv<T>(s: State<T>, t: Thread, mayWait: bool)
    requires Inv(s) && t < |s.threads| && (s.At(t).Idle? || s.At(t).PopWoken?)
    ensures Inv(PopSection(s, t, mayWait))
  {
    if s.items != [] {
      DequeueKeepsInv(s, t);
    } else if s.closed || !mayWait {
      MoveTally(s.threads, t, Idle);
    } else {
      MoveTally(s.threads, t, PopAsleep);
    }
  }

  lemma DequeueKeepsInv<T>(s: State<T>, t: Thread)
    requires Inv(s) && t < |s.threads| && (s.At(t).Idle? || s.At(t).PopWoken?) && s.items != []
    ensures Inv(s.Move(t, PopNotifying).(items := s.items[1..], delivered := s.delivered + [s.items[0]]))
  {
    MoveTally(s.threads, t, PopNotifying);
    assert s.delivered + s.items == (s.delivered + [s.items[0]]) + s.items[1..];
  }

  lemma NotifyKeepsInv<T>(s: State<T>, t: Thread, woken: Option<Thread>)
    requires Inv(s) && Enabled(s, Notify(t, woken))
    ensures Inv(Next(s, Notify(t, woken)))
  {
    if woken.Some? {
      WakingKeepsInv(s, t, woken.value);
    } else {
      MoveTally(s.threads, t, Idle);
      NoneThere(s.threads, Waiting(s.At(t)));
    }
  }

  lemma WakingKeepsInv<T>(s: State<T>, t: Thread, sleeper: Thread)
    requires Inv(s) && Enabled(s, Notify(t, Some(sleeper)))
    ensures Inv(Next(s, Notify(t, Some(sleeper))))
  {
    if s.At(t).PushNotifying? {
      WakingConsumerKeepsInv(s, t, sleeper);
    } else {
      WakingProducerKeepsInv(s, t, sleeper);
    }
  }

  lemma WakingConsumerKeepsInv<T>(s: State<T>, t: Thread, sleeper: Thread)
    requires Inv(s) && Enabled(s, Notify(t, Some(sleeper))) && s.At(t).PushNotifying?
    ensures Inv(Next(s, Notify(t, Some(sleeper))))
  {
    MoveTally(s.threads, t, Idle);
    MoveTally(s.threads[t := Idle], sleeper, PopWoken);
  }

  lemma WakingProducerKeepsInv<T>(s: State<T>, t: Thread, sleeper: Thread)
    requires Inv(s) && Enabled(s, Notify(t, Some(sleeper))) && s.At(t).PopNotifying?
    ensures Inv(Next(s, Notify(t, Some(sleeper))))
  {
    MoveTally(s.threads, t, Idle);
    MoveTally(s.threads[t := Idle], sleeper, PushWoken(s.At(sleeper).value));
  }

  lemma SpuriousKeepsInv<T>(s: State<T>, t: Thread)
    requires Inv(s) && Enabled(s, Spurious(t))
    ensures Inv(Next(s, Spurious(t)))
  {
    MoveTally(s.threads, t, Wake(s.At(t)));
  }

  lemma CloseKeepsInv<T>(s: State<T>, t: Thread)
    requires Inv(s) && Enabled(s, Close(t))
    ensures Inv(Next(s, Close(t)))
  {
    MoveTally(s.threads, t, CloseNotifyingEmpty);
  }

  lemma {:induction false} WakeAllCounts<T>(threads: seq<Phase<T>>, k: Kind, j: Kind)
    requires (k == PopAsleepKind || k == PushAsleepKind) && j != PopWokenKind && j != PushWokenKind
    ensures Count(WakeAll(threads, k), j) == if j == k then 0 else Count(threads, j)
  {
    if threads != [] {
      assert WakeAll(threads, k)[1..] == WakeAll(threads[1..], k);
      WakeAllCounts(threads[1..], k, j);
    }
  }

  /** Every sleeper of one kind wakes, and the thread that woke them moves on. */
  lemma WakeAllThenMove<T>(threads: seq<Phase<T>>, asleep: Kind, t: Thread, p: Phase<T>, k: Kind)
    requires (asleep == PopAsleepKind || asleep == PushAsleepKind) && k != PopWokenKind && k != PushWokenKind
    requires t < |threads| && KindOf(threads[t]) != asleep
    ensures Count(WakeAll(threads, asleep)[t := p], k) + Is(threads[t], k)
            == (if k == asleep then 0 else Count(threads, k)) + Is(p, k)
  {
    WakeAllCounts(threads, asleep, k);
    MoveCounts(WakeAll(threads, asleep), t, p, k);
  }

  /** What a notify_all leaves of the counts the closed queue relies on. */
  lemma NotifyAllCounts<T>(s: State<T>, t: Thread, k: Kind)
    requires Enabled(s, NotifyAll(t))
    requires k == PopAsleepKind || k == PushAsleepKind || k == CloseEmptyKind || k == CloseFullKind
    ensures var empty := s.At(t).CloseNotifyingEmpty?;
      Next(s, NotifyAll(t)).Number(k) ==
      if k == PopAsleepKind then (if empty then 0 else s.Number(k))
      else if k == PushAsleepKind then (if empty then s.Number(k) else 0)
      else if k == CloseEmptyKind then (if empty then s.Number(k) - 1 else s.Number(k))
      else (if empty then s.Number(k) + 1 else s.Number(k) - 1)
  {
    if s.At(t).CloseNotifyingEmpty? {
      WakeAllThenMove(s.threads, PopAsleepKind, t, CloseNotifyingFull, k);
    } else {
      WakeAllThenMove(s.threads, PushAsleepKind, t, Idle, k);
    }
  }

  lemma NotifyAllKeepsInv<T>(s: State<T>, t: Thread)
    requires Inv(s) && Enabled(s, NotifyAll(t))
    ensures Inv(Next(s, NotifyAll(t)))
  {
    NoneThere(s.threads, KindOf(s.At(t)));
    NotifyAllCounts(s, t, PopAsleepKind);
    NotifyAllCounts(s, t, PushAsleepKind);
    NotifyAllCounts(s, t, CloseEmptyKind);
    NotifyAllCounts(s, t, CloseFullKind);
  }

  lemma StepKeepsInv<T>(s: State<T>, a: Step<T>)
    requires Inv(s) && Enabled(s, a)
    ensures Inv(Next(s, a))
  {
    match a
    case Push(t, v) => PushKeepsInv(s, t, v, true);
    case RetryPush(t) => PushKeepsInv(s, t, s.At(t).value, true);
    case TryPush(t, v) => PushKeepsInv(s, t, v, false);
    case Pop(t) => PopKeepsInv(s, t, true);
    case RetryPop(t) => PopKeepsInv(s, t, true);
    case TryPop(t) => PopKeepsInv(s, t, false);
    case Notify(t, woken) => NotifyKeepsInv(s, t, woken);
    case Close(t) => CloseKeepsInv(s, t);
    case NotifyAll(t) => NotifyAllKeepsInv(s, t);
    case Spurious(t) => SpuriousKeepsInv(s, t);
  }

  // ----- Runs -----

  /** The steps can be taken one after another from `s`. */
  ghost predicate CanRun<T>(s: State<T>, steps: seq<Step<T>>)
    decreases |steps|
  {
    steps == [] || (Enabled(s, steps[0]) && CanRun(Next(s, steps[0]), steps[1..]))
  }

  ghost function After<T>(s: State<T>, steps: seq<Step<T>>): State<T>
    requires CanRun(s, steps)
    decreases |steps|
  {
    if steps == [] then s else After(Next(s, steps[0]), steps[1..])
  }

  lemma {:induction false} RunKeepsInv<T>(s: State<T>, steps: seq<Step<T>>)
    requires Inv(s) && CanRun(s, steps)
    ensures Inv(After(s, steps))
    decreases |steps|
  {
    if steps != [] {
      StepKeepsInv(s, steps[0]);
      RunKeepsInv(Next(s, steps[0]), steps[1..]);
    }
  }

  /**
   No lost wakeup and exact delivery, for any number of threads and any interleaving from a
   fresh queue: see `OpenPromise`, `ClosedPromise` and `Delivery`.
   */
  lemma NoLostWakeup<T>(s: State<T>, steps: seq<Step<T>>)
    requires Init(s) && CanRun(s, steps)
    ensures Inv(After(s, steps))
  {
    InitInv(s);
    RunKeepsInv(s, steps);
  }

  /** Once a pop has reported exhaustion, nothing is accepted any more and all that was is delivered. */
  lemma {:induction false} ExhaustedIsFinal<T>(s: State<T>, steps: seq<Step<T>>)
    requires s.exhausted && s.closed && s.items == [] && s.accepted == s.delivered && CanRun(s, steps)
    ensures var after := After(s, steps); after.accepted == after.delivered == s.accepted
    decreases |steps|
  {
    if steps != [] {
      ExhaustedIsFinal(Next(s, steps[0]), steps[1..]);
    }
  }

  /** From a fresh queue, a consumer that was told of exhaustion has seen every value ever accepted. */
  lemma DrainedForGood<T>(s: State<T>, steps: seq<Step<T>>, more: seq<Step<T>>)
    requires Init(s) && CanRun(s, steps) && After(s, steps).exhausted && CanRun(After(s, steps), more)
    ensures var end := After(After(s, steps), more); end.delivered == end.accepted == After(s, steps).delivered
  {
    NoLostWakeup(s, steps);
    ExhaustedIsFinal(After(s, steps), more);
  }

  // ----- One consumer -----

  predicate Pops<T>(a: Step<T>) {
    a.Pop? || a.RetryPop? || a.TryPop?
  }

  /** What the pop calls of one thread returned, in order. */
  ghost function Popped<T>(s: State<T>, steps: seq<Step<T>>, t: Thread): seq<T>
    requires CanRun(s, steps)
    decreases |steps|
  {
    if steps == [] then []
    else
      (if Pops(steps[0]) && steps[0].t == t && s.items != [] then [s.items[0]] else [])
      + Popped(Next(s, steps[0]), steps[1..], t)
  }

  /** Nobody but one thread ever pops. */
  ghost predicate OnlyConsumer<T>(steps: seq<Step<T>>, t: Thread) {
    forall i :: 0 <= i < |steps| && Pops(steps[i]) ==> steps[i].t == t
  }

  lemma {:induction false} PoppedIsDelivered<T>(s: State<T>, steps: seq<Step<T>>, t: Thread)
    requires CanRun(s, steps) && OnlyConsumer(steps, t)
    ensures After(s, steps).delivered == s.delivered + Popped(s, steps, t)
    decreases |steps|
  {
    if steps != [] {
      var next := Next(s, steps[0]);
      StepDelivers(s, steps[0]);
      PoppedIsDelivered(next, steps[1..], t);
      assert Pops(steps[0]) ==> steps[0].t == t;
    }
  }

  lemma StepDelivers<T>(s: State<T>, a: Step<T>)
    requires Enabled(s, a)
    ensures Next(s, a).delivered == s.delivered + (if Pops(a) && s.items != [] then [s.items[0]] else [])
  {
  }

  /**
   A single consumer that was told of exhaustion has itself popped every value accepted, in the order
   accepted; and whatever anybody does from then on, no more is accepted.
   */
  lemma ConsumerSeesAll<T>(s: State<T>, steps: seq<Step<T>>, more: seq<Step<T>>, t: Thread)
    requires Init(s) && CanRun(s, steps) && OnlyConsumer(steps, t) && After(s, steps).exhausted
    requires CanRun(After(s, steps), more)
    ensures Popped(s, steps, t) == After(s, steps).accepted == After(After(s, steps), more).accepted
  {
    PoppedIsDelivered(s, steps, t);
    DrainedForGood(s, steps, []);
    DrainedForGood(s, steps, more);
  }

  // ----- Nobody is stuck -----

  /** Nobody has been woken and nobody owes a notification: only new calls can change anything. */
  ghost predicate Quiet<T>(s: State<T>) {
    && Nobody(s.threads, PushWokenKind) && Nobody(s.threads, PopWokenKind)
    && Nobody(s.threads, PushNotifyingKind) && Nobody(s.threads, PopNotifyingKind)
    && Nobody(s.threads, CloseEmptyKind) && Nobody(s.threads, CloseFullKind)
  }

  /** In a quiet state a sleeper has every reason to sleep, so two sides are never stuck on each other. */
  lemma QuietSleepersAreRight<T>(s: State<T>)
    requires Inv(s) && Quiet(s)
    ensures !Nobody(s.threads, PushAsleepKind) ==> !s.closed && |s.items| == s.capacity
    ensures !Nobody(s.threads, PopAsleepKind) ==> !s.closed && s.items == []
    ensures Nobody(s.threads, PushAsleepKind) || Nobody(s.threads, PopAsleepKind)
  {
    forall k ensures Count(s.threads, k) == 0 <==> Nobody(s.threads, k) {
      NoneThere(s.threads, k);
    }
  }

  /** Steps that finish calls already made, as opposed to new calls and spurious wakeups. */
  predicate Finishing<T>(a: Step<T>) {
    a.RetryPush? || a.RetryPop? || a.Notify? || a.NotifyAll?
  }

  /** A state that is not quiet can go on by itself. */
  lemma UnquietGoesOn<T>(s: State<T>)
    requires !Quiet(s)
    ensures exists a: Step<T> :: Finishing(a) && Enabled(s, a)
  {
    var t :| 0 <= t < |s.threads| && KindOf(s.threads[t]) !in
      {IdleKind, PushAsleepKind, PopAsleepKind};
    var p := s.threads[t];
    if p.PushNotifying? || p.PopNotifying? {
      if w :| 0 <= w < |s.threads| && KindOf(s.threads[w]) == Waiting(p) {
        assert Enabled(s, Notify(t, Some(w)));
      } else {
        assert Enabled(s, Notify(t, None));
      }
    } else if p.PushWoken? {
      assert Enabled(s, RetryPush(t));
    } else if p.PopWoken? {
      assert Enabled(s, RetryPop(t));
    } else {
      assert Enabled(s, NotifyAll(t));
    }
  }

  /** What is left of one call, out of `n` threads. */
  function Weight<T>(p: Phase<T>, n: nat): nat {
    match KindOf(p)
    case IdleKind => 0
    case PushAsleepKind => 2
    case PopAsleepKind => 2
    case PushWokenKind => 3
    case PopWokenKind => 3
    case PushNotifyingKind => 2
    case PopNotifyingKind => 2
    case CloseEmptyKind => 2 * (n + 1)
    case CloseFullKind => n + 1
  }

  function Work<T>(threads: seq<Phase<T>>, n: nat): nat {
    if threads == [] then 0 else Weight(threads[0], n) + Work(threads[1..], n)
  }

  lemma {:induction false} MoveWork<T>(threads: seq<Phase<T>>, t: Thread, p: Phase<T>, n: nat)
    requires t < |threads|
    ensures Work(threads[t := p], n) + Weight(threads[t], n) == Work(threads, n) + Weight(p, n)
  {
    if t == 0 {
      assert threads[0 := p][1..] == threads[1..];
    } else {
      assert threads[t := p][1..] == threads[1..][t - 1 := p];
      MoveWork(threads[1..], t - 1, p, n);
    }
  }

  lemma {:induction false} WakeAllWork<T>(threads: seq<Phase<T>>, k: Kind, n: nat)
    requires k == PopAsleepKind || k == PushAsleepKind
    ensures Work(WakeAll(threads, k), n) <= Work(threads, n) + |threads|
  {
    if threads != [] {
      assert WakeAll(threads, k)[1..] == WakeAll(threads[1..], k);
      WakeAllWork(threads[1..], k, n);
    }
  }

  lemma RetryUsesWork<T>(s: State<T>, a: Step<T>)
    requires Enabled(s, a) && (a.RetryPush? || a.RetryPop?)
    ensures Work(Next(s, a).threads, |s.threads|) < Work(s.threads, |s.threads|)
  {
    var p := Next(s, a).threads[a.t];
    assert Next(s, a).threads == s.threads[a.t := p];
    MoveWork(s.threads, a.t, p, |s.threads|);
  }

  lemma NotifyUsesWork<T>(s: State<T>, t: Thread, woken: Option<Thread>)
    requires Enabled(s, Notify(t, woken))
    ensures Work(Next(s, Notify(t, woken)).threads, |s.threads|) < Work(s.threads, |s.threads|)
  {
    MoveWork(s.threads, t, Idle, |s.threads|);
    if woken.Some? {
      MoveWork(s.threads[t := Idle], woken.value, Wake(s.At(woken.value)), |s.threads|);
    }
  }

  lemma NotifyAllUsesWork<T>(s: State<T>, t: Thread)
    requires Enabled(s, NotifyAll(t))
    ensures Work(Next(s, NotifyAll(t)).threads, |s.threads|) < Work(s.threads, |s.threads|)
  {
    var n := |s.threads|;
    if s.At(t).CloseNotifyingEmpty? {
      WakeAllWork(s.threads, PopAsleepKind, n);
      MoveWork(WakeAll(s.threads, PopAsleepKind), t, CloseNotifyingFull, n);
    } else {
      WakeAllWork(s.threads, PushAsleepKind, n);
      MoveWork(WakeAll(s.threads, PushAsleepKind), t, Idle, n);
    }
  }

  /** Finishing steps use up work, so a queue left to itself settles after finitely many of them. */
  lemma FinishingUsesWork<T>(s: State<T>, a: Step<T>)
    requires Enabled(s, a) && Finishing(a)
    ensures |Next(s, a).threads| == |s.threads|
    ensures Work(Next(s, a).threads, |s.threads|) < Work(s.threads, |s.threads|)
  {
    match a
    case RetryPush(t) => RetryUsesWork(s, a);
    case RetryPop(t) => RetryUsesWork(s, a);
    case Notify(t, woken) => NotifyUsesWork(s, t, woken);
    case NotifyAll(t) => NotifyAllUsesWork(s, t);
  }

  /** A run of finishing steps is no longer than the work there was. */
  lemma {:induction false} SettlesInTime<T>(s: State<T>, steps: seq<Step<T>>)
    requires CanRun(s, steps) && forall i :: 0 <= i < |steps| ==> Finishing(steps[i])
    ensures |steps| <= Work(s.threads, |s.threads|)
    decreases |steps|
  {
    if steps != [] {
      FinishingUsesWork(s, steps[0]);
      SettlesInTime(Next(s, steps[0]), steps[1..]);
    }
  }
}
