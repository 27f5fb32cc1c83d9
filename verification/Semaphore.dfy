/** The counting semaphore of include/base_semaphore.h as a concurrent protocol.

    Threads are numbered; each has a program counter saying where it stands inside an operation.
    One Step is one indivisible action: a critical section under the mutex, a notification, or a
    wake-up. Steps of different threads interleave freely. */
module Semaphores {
  import opened Wrappers

  datatype Pc =
    | Idle
    | Asleep(timed: bool)   // blocked in the condition variable
    | Woken(timed: bool)    // released by a notification or spuriously; predicate not rechecked yet
    | TimedOut              // a timed wait whose deadline passed; makes its last check, then leaves
    | NotifyingOne          // dec_counter/has_outstanding, mutex released, notify_one still to come
    | NotifyingAll          // holds the mutex, notify_all still to come

  datatype State = State(counter: int, lock: Option<nat>, threads: seq<Pc>)

  datatype Step =
    | Increment(t: nat)
    | Decrement(t: nat)
    | QueryOutstanding(t: nat)
    | StartNotify(t: nat)
    | StartWait(t: nat, timed: bool)
    | NotifyOne(t: nat, target: nat, late: bool)
    | NotifyAll(t: nat)
    | SpuriousWake(t: nat)
    | Timeout(t: nat)
    | Recheck(t: nat)

  predicate At(s: State, t: nat, pc: Pc) {
    t < |s.threads| && s.threads[t] == pc
  }

  predicate IsAsleep(s: State, t: nat) {
    t < |s.threads| && s.threads[t].Asleep?
  }

  ghost predicate SomeAsleep(s: State) {
    exists t: nat :: IsAsleep(s, t)
  }

  // A thread that will still act on the sleepers' behalf.
  predicate IsPending(s: State, t: nat) {
    t < |s.threads| && !s.threads[t].Idle? && !s.threads[t].Asleep?
  }

  ghost predicate SomePending(s: State) {
    exists t: nat :: IsPending(s, t)
  }

  // NotifyOne must pick a sleeper when there is one; `late` says that the sleeper it picks is a
  // timed waiter whose deadline passes before it runs again.
  ghost predicate Enabled(s: State, step: Step) {
    match step
    case Increment(t) => s.lock.None? && At(s, t, Idle)
    case Decrement(t) => s.lock.None? && At(s, t, Idle)
    case QueryOutstanding(t) => s.lock.None? && At(s, t, Idle)
    case StartNotify(t) => s.lock.None? && At(s, t, Idle)
    case StartWait(t, _) => s.lock.None? && At(s, t, Idle)
    case NotifyOne(t, target, late) =>
      && At(s, t, NotifyingOne)
      && (SomeAsleep(s) ==> IsAsleep(s, target) && (late ==> s.threads[target].timed))
    case NotifyAll(t) => At(s, t, NotifyingAll)
    case SpuriousWake(t) => IsAsleep(s, t)
    case Timeout(t) => At(s, t, Asleep(true))
    case Recheck(t) => s.lock.None? && t < |s.threads| && (s.threads[t].Woken? || s.threads[t].TimedOut?)
  }

  function Wake(pc: Pc): Pc {
    if pc.Asleep? then Woken(pc.timed) else pc
  }

  function WakeAll(threads: seq<Pc>): seq<Pc> {
    seq(|threads|, i requires 0 <= i < |threads| => Wake(threads[i]))
  }

  // Taking the mutex with the predicate true goes straight to notify_all, still under the mutex.
  ghost function Apply(s: State, step: Step): State
    requires Enabled(s, step)
  {
    match step
    case Increment(t) => s.(counter := s.counter + 1)
    case Decrement(t) => s.(counter := s.counter - 1, threads := s.threads[t := NotifyingOne])
    case QueryOutstanding(t) => s.(threads := s.threads[t := NotifyingOne])
    case StartNotify(t) => s.(lock := Some(t), threads := s.threads[t := NotifyingAll])
    case StartWait(t, timed) =>
      if s.counter == 0 then s.(lock := Some(t), threads := s.threads[t := NotifyingAll])
      else s.(threads := s.threads[t := Asleep(timed)])
    case NotifyOne(t, target, late) =>
      var threads := s.threads[t := Idle];
      s.(threads := if !IsAsleep(s, target) then threads
                    else threads[target := if late then TimedOut else Wake(s.threads[target])])
    case NotifyAll(t) => s.(lock := None, threads := WakeAll(s.threads[t := Idle]))
    case SpuriousWake(t) => s.(threads := s.threads[t := Wake(s.threads[t])])
    case Timeout(t) => s.(threads := s.threads[t := TimedOut])
    case Recheck(t) =>
      if s.counter == 0 || s.threads[t].TimedOut? then s.(lock := Some(t), threads := s.threads[t := NotifyingAll])
      else s.(threads := s.threads[t := Asleep(s.threads[t].timed)])
  }

  ghost predicate IsRun(s: State, steps: seq<Step>)
    decreases |steps|
  {
    steps == [] || (Enabled(s, steps[0]) && IsRun(Apply(s, steps[0]), steps[1..]))
  }

  ghost function After(s: State, steps: seq<Step>): State
    requires IsRun(s, steps)
    decreases |steps|
  {
    if steps == [] then s else After(Apply(s, steps[0]), steps[1..])
  }

  ghost predicate StaysNonNegative(s: State, steps: seq<Step>)
    requires IsRun(s, steps)
    decreases |steps|
  {
    s.counter >= 0 && (steps == [] || StaysNonNegative(Apply(s, steps[0]), steps[1..]))
  }

  predicate Initial(s: State) {
    s.lock.None? && forall t :: 0 <= t < |s.threads| ==> s.threads[t].Idle?
  }

  // --------------------------------------------------------------------------------------------
  // Safety: no lost wake-up

  ghost predicate LockOk(s: State) {
    forall t: nat {:trigger At(s, t, NotifyingAll)} :: At(s, t, NotifyingAll) <==> s.lock == Some(t)
  }

  ghost predicate NoLostWakeup(s: State) {
    s.counter == 0 && SomeAsleep(s) ==> SomePending(s)
  }

  lemma LockDiscipline(s: State, step: Step)
    requires LockOk(s) && Enabled(s, step)
    ensures LockOk(Apply(s, step))
  {
    var s' := Apply(s, step);
    forall t: nat
      ensures At(s', t, NotifyingAll) <==> s'.lock == Some(t)
    {
      assert At(s, t, NotifyingAll) <==> s.lock == Some(t);
      if step.NotifyAll? {
        assert At(s, step.t, NotifyingAll);
      }
    }
  }

  // Raising the counter from -1 is the one step that can strand a sleeper: inc_counter never notifies.
  ghost predicate StrandsSleepers(s: State, step: Step) {
    step.Increment? && s.counter == -1 && SomeAsleep(s) && !SomePending(s)
  }

  lemma StepKeepsWakeups(s: State, step: Step)
    requires LockOk(s) && NoLostWakeup(s) && Enabled(s, step)
    ensures NoLostWakeup(Apply(s, step)) <==> !StrandsSleepers(s, step)
  {
    var s' := Apply(s, step);
    if step.Increment? {
      assert s'.threads == s.threads;
      assert forall t: nat :: IsAsleep(s, t) <==> IsAsleep(s', t);
      assert forall t: nat :: IsPending(s, t) <==> IsPending(s', t);
    } else if s'.counter == 0 && SomeAsleep(s') {
      PendingAfter(s, step);
    }
  }

  lemma PendingAfter(s: State, step: Step)
    requires LockOk(s) && NoLostWakeup(s) && Enabled(s, step) && !step.Increment?
    requires Apply(s, step).counter == 0 && SomeAsleep(Apply(s, step))
    ensures SomePending(Apply(s, step))
  {
    var s' := Apply(s, step);
    var sleeper: nat :| IsAsleep(s', sleeper);
    if step.NotifyOne? {
      assert IsAsleep(s, sleeper);
      assert IsPending(s', step.target);
    } else {
      assert !step.NotifyAll?;
      assert IsPending(s', step.t);
    }
  }

  /** Every reachable interleaving in which the counter never goes negative: when the counter is 0 and
      a thread sleeps, some thread is about to notify or has been released and not yet rechecked. */
  lemma {:induction false} RunsNeverLoseWakeups(s: State, steps: seq<Step>)
    requires LockOk(s) && NoLostWakeup(s)
    requires IsRun(s, steps) && StaysNonNegative(s, steps)
    ensures LockOk(After(s, steps)) && NoLostWakeup(After(s, steps))
    decreases |steps|
  {
    if steps != [] {
      LockDiscipline(s, steps[0]);
      StepKeepsWakeups(s, steps[0]);
      RunsNeverLoseWakeups(Apply(s, steps[0]), steps[1..]);
    }
  }

  lemma ReachableStatesAreSafe(s: State, steps: seq<Step>)
    requires Initial(s) && IsRun(s, steps) && StaysNonNegative(s, steps)
    ensures NoLostWakeup(After(s, steps))
  {
    RunsNeverLoseWakeups(s, steps);
  }

  /** With an unmatched decrement the promise fails: thread 1 sleeps for ever on a zero counter. */
  lemma NegativeCounterStrandsAWaiter()
    ensures exists s, steps :: Initial(s) && IsRun(s, steps) && !NoLostWakeup(After(s, steps))
  {
    var s0 := State(0, None, [Idle, Idle]);
    var s1 := State(-1, None, [NotifyingOne, Idle]);
    var s2 := State(-1, None, [NotifyingOne, Asleep(false)]);
    var s3 := State(-1, None, [Idle, Woken(false)]);
    var s4 := State(-1, None, [Idle, Asleep(false)]);
    var s5 := State(0, None, [Idle, Asleep(false)]);
    var rest4 := ExtendRun(s4, Increment(0), s5, []);
    var rest3 := ExtendRun(s3, Recheck(1), s4, rest4);
    assert IsAsleep(s2, 1);
    var rest2 := ExtendRun(s2, NotifyOne(0, 1, false), s3, rest3);
    var rest1 := ExtendRun(s1, StartWait(1, false), s2, rest2);
    var rest0 := ExtendRun(s0, Decrement(0), s1, rest1);
    assert IsAsleep(s5, 1) && !SomePending(s5);
  }

  lemma ExtendRun(s: State, step: Step, s': State, rest: seq<Step>) returns (steps: seq<Step>)
    requires Enabled(s, step) && Apply(s, step) == s' && IsRun(s', rest)
    ensures IsRun(s, steps) && After(s, steps) == After(s', rest)
  {
    steps := [step] + rest;
    assert steps[1..] == rest;
  }

  // --------------------------------------------------------------------------------------------
  // Counting

  function Increments(steps: seq<Step>): nat {
    if steps == [] then 0 else (if steps[0].Increment? then 1 else 0) + Increments(steps[1..])
  }

  function Decrements(steps: seq<Step>): nat {
    if steps == [] then 0 else (if steps[0].Decrement? then 1 else 0) + Decrements(steps[1..])
  }

  /** Over every run the counter counts: it is off its first value by the increments less the decrements,
      so it is back exactly when the two match. */
  lemma {:induction false} CounterCounts(s: State, steps: seq<Step>)
    requires IsRun(s, steps)
    ensures After(s, steps).counter == s.counter + Increments(steps) - Decrements(steps)
    decreases |steps|
  {
    if steps != [] {
      CounterCounts(Apply(s, steps[0]), steps[1..]);
    }
  }

  // --------------------------------------------------------------------------------------------
  // Waiting: who sleeps, who is woken, and who leaves

  // Inside wait or wait_for, before the loop has found its predicate true.
  predicate Waits(pc: Pc) {
    pc.Asleep? || pc.Woken? || pc.TimedOut?
  }

  predicate IsTimed(pc: Pc) {
    pc.TimedOut? || (pc.Asleep? && pc.timed) || (pc.Woken? && pc.timed)
  }

  // The thread that takes a step changes; another one is at most woken, or timed out as it is woken, and
  // only by a notification.
  lemma OnlyNotificationsReachOthers(s: State, step: Step, j: nat)
    requires Enabled(s, step) && j < |s.threads| && j != step.t
    ensures var s' := Apply(s, step);
      && |s'.threads| == |s.threads|
      && (s'.threads[j] == s.threads[j]
          || (s.threads[j].Asleep? && Waits(s'.threads[j]) && IsTimed(s'.threads[j]) == s.threads[j].timed
              && (step.NotifyAll? || (step.NotifyOne? && step.target == j))))
  {
  }

  /** notify_all wakes every sleeper; notify_one wakes one if there is any, and nobody else. */
  lemma NotificationsWake(s: State, step: Step, j: nat)
    requires Enabled(s, step) && IsAsleep(s, j)
    ensures step.NotifyAll? ==> !IsAsleep(Apply(s, step), j)
    ensures step.NotifyOne? ==> (IsAsleep(Apply(s, step), j) <==> j != step.target)
  {
    if step.NotifyOne? {
      assert SomeAsleep(s);
    }
  }

  predicate PassesDeadline(step: Step, t: nat) {
    step == Timeout(t) || (step.NotifyOne? && step.target == t && step.late)
  }

  // The counter was zero at some moment of the run.
  ghost predicate TouchesZero(s: State, steps: seq<Step>)
    requires IsRun(s, steps)
    decreases |steps|
  {
    s.counter == 0 || (steps != [] && TouchesZero(Apply(s, steps[0]), steps[1..]))
  }

  /** A thread in `wait` is still there after any run in which the counter is never zero; so is one in
      `wait_for`, unless its deadline passed on the way. */
  lemma {:induction false} WaitersStayUntilZero(s: State, steps: seq<Step>, t: nat)
    requires IsRun(s, steps) && !TouchesZero(s, steps)
    requires t < |s.threads| && Waits(s.threads[t]) && !s.threads[t].TimedOut?
    requires IsTimed(s.threads[t]) ==>
      forall i :: 0 <= i < |steps| ==> !PassesDeadline(steps[i], t)
    ensures t < |After(s, steps).threads| && Waits(After(s, steps).threads[t])
    decreases |steps|
  {
    if steps != [] {
      var s' := Apply(s, steps[0]);
      if steps[0].t != t {
        OnlyNotificationsReachOthers(s, steps[0], t);
      }
      assert IsTimed(s'.threads[t]) == IsTimed(s.threads[t]) && Waits(s'.threads[t]) && !s'.threads[t].TimedOut?;
      assert forall i :: 0 <= i < |steps[1..]| ==> steps[1..][i] == steps[i + 1];
      WaitersStayUntilZero(s', steps[1..], t);
    }
  }

  /** Starting to wait at a counter that is not zero puts the thread to sleep; at zero it leaves, but only
      after it has taken the mutex to wake everybody else. */
  lemma WaitingStarts(s: State, t: nat, timed: bool)
    requires Enabled(s, StartWait(t, timed))
    ensures var s' := Apply(s, StartWait(t, timed));
      && s'.counter == s.counter && (IsAsleep(s', t) <==> s.counter != 0)
      && (s.counter != 0 ==> IsTimed(s'.threads[t]) == timed)
      && (s.counter == 0 ==> !Waits(s'.threads[t]) && s'.lock == Some(t))
  {
  }

  // A round of the predicate loop ends the wait at a zero counter or past the deadline, else it sleeps on.
  lemma RecheckLeaves(s: State, t: nat)
    requires Enabled(s, Recheck(t))
    ensures var s' := Apply(s, Recheck(t));
      && (s.counter == 0 || s.threads[t].TimedOut? <==> !Waits(s'.threads[t]))
      && (Waits(s'.threads[t]) <==> IsAsleep(s', t)) && (!Waits(s'.threads[t]) ==> s'.lock == Some(t))
  {
  }

  // What each of the other operations still owes after its first step, and that notifying pays the debt.
  lemma NotificationsAreOwed(s: State, step: Step)
    requires Enabled(s, step)
    ensures var s' := Apply(s, step);
      && (step.Decrement? || step.QueryOutstanding? ==> At(s', step.t, NotifyingOne))
      && (step.StartNotify? ==> At(s', step.t, NotifyingAll))
      && (step.NotifyAll? || (step.NotifyOne? && step.t != step.target) ==> At(s', step.t, Idle))
      && (step.NotifyAll? ==> s'.lock.None?) && (step.Increment? ==> s'.threads == s.threads)
  {
  }

  // --------------------------------------------------------------------------------------------
  // Progress: once the counter is 0 every operation already under way finishes

  // Steps of operations already under way; the other steps start a new operation.
  predicate Ongoing(step: Step) {
    step.NotifyOne? || step.NotifyAll? || step.SpuriousWake? || step.Timeout? || step.Recheck?
  }

  // Ongoing steps a scheduler cannot withhold for ever; a run need not contain any of the others.
  predicate Obliged(step: Step) {
    step.NotifyOne? || step.NotifyAll? || step.Recheck?
  }

  function Cost(pc: Pc): nat {
    match pc
    case Idle => 0
    case Asleep(_) => 3
    case Woken(_) => 2
    case TimedOut => 2
    case NotifyingOne => 1
    case NotifyingAll => 1
  }

  function Measure(threads: seq<Pc>): nat {
    if threads == [] then 0 else Cost(threads[0]) + Measure(threads[1..])
  }

  lemma {:induction false} MeasureUpdate(threads: seq<Pc>, t: nat, pc: Pc)
    requires t < |threads|
    ensures Measure(threads[t := pc]) == Measure(threads) - Cost(threads[t]) + Cost(pc)
  {
    if t == 0 {
      assert threads[t := pc][1..] == threads[1..];
    } else {
      assert threads[t := pc][1..] == threads[1..][t - 1 := pc];
      MeasureUpdate(threads[1..], t - 1, pc);
    }
  }

  lemma {:induction false} MeasureWakeAll(threads: seq<Pc>)
    ensures Measure(WakeAll(threads)) <= Measure(threads)
  {
    if threads != [] {
      assert WakeAll(threads)[1..] == WakeAll(threads[1..]);
      MeasureWakeAll(threads[1..]);
    }
  }

  lemma OngoingStepsDecreaseMeasure(s: State, step: Step)
    requires s.counter == 0 && Enabled(s, step) && Ongoing(step)
    ensures Apply(s, step).counter == 0
    ensures Measure(Apply(s, step).threads) < Measure(s.threads)
  {
    var s' := Apply(s, step);
    match step {
      case NotifyOne(t, target, late) =>
        MeasureUpdate(s.threads, t, Idle);
        if IsAsleep(s, target) {
          MeasureUpdate(s.threads[t := Idle], target, s'.threads[target]);
        }
      case NotifyAll(t) =>
        MeasureUpdate(s.threads, t, Idle);
        MeasureWakeAll(s.threads[t := Idle]);
      case SpuriousWake(t) => MeasureUpdate(s.threads, t, s'.threads[t]);
      case Timeout(t) => MeasureUpdate(s.threads, t, s'.threads[t]);
      case Recheck(t) => MeasureUpdate(s.threads, t, s'.threads[t]);
    }
  }

  // Unless every thread is idle, some obliged step can be taken.
  lemma SomeObligedStep(s: State) returns (step: Step)
    requires s.counter == 0 && LockOk(s) && NoLostWakeup(s) && !Initial(s)
    ensures Obliged(step) && Enabled(s, step)
  {
    if s.lock.Some? {
      assert At(s, s.lock.value, NotifyingAll);
      return NotifyAll(s.lock.value);
    }
    var t: nat :| t < |s.threads| && !s.threads[t].Idle?;
    if s.threads[t].Asleep? {
      assert IsAsleep(s, t);
      assert SomePending(s);
      t :| IsPending(s, t);
    }
    assert At(s, t, NotifyingAll) <==> s.lock == Some(t);
    if s.threads[t].NotifyingOne? {
      var target: nat := 0;
      if SomeAsleep(s) {
        target :| IsAsleep(s, target);
      }
      return NotifyOne(t, target, false);
    }
    return Recheck(t);
  }

  /** From any safe state with a zero counter, a run of ongoing steps is at most Measure long, and a run
      that leaves no obliged step enabled leaves no thread in `wait`, timed or not. */
  lemma {:induction false} QuiescenceReleasesEveryone(s: State, steps: seq<Step>)
    requires s.counter == 0 && LockOk(s) && NoLostWakeup(s)
    requires IsRun(s, steps) && forall i :: 0 <= i < |steps| ==> Ongoing(steps[i])
    ensures |steps| <= Measure(s.threads)
    ensures (forall step :: Obliged(step) ==> !Enabled(After(s, steps), step)) <==> Initial(After(s, steps))
    decreases |steps|
  {
    if steps == [] {
      if !Initial(s) {
        var step := SomeObligedStep(s);
      }
    } else {
      OngoingStepsDecreaseMeasure(s, steps[0]);
      LockDiscipline(s, steps[0]);
      StepKeepsWakeups(s, steps[0]);
      QuiescenceReleasesEveryone(Apply(s, steps[0]), steps[1..]);
    }
  }

  // --------------------------------------------------------------------------------------------
  // The class

  // What dec_counter returns: the counter reached zero (or fell below it).
  predicate DrainedBy(counter: int) {
    counter - 1 <= 0
  }

  /** The fields of the source's class, with the mutex and the condition variable replaced by the
      ghost record of who holds the one and who sleeps on the other. Each method is one Step. */
  class Semaphore {
    var counter: int
    ghost var lock: Option<nat>
    ghost var threads: seq<Pc>

    ghost function Now(): State
      reads this
    {
      State(counter, lock, threads)
    }

    constructor (count: int, ghost n: nat)
      ensures Initial(Now()) && Now().counter == count && |Now().threads| == n
    {
      counter := count;
      lock := None;
      threads := seq(n, i => Idle);
    }

    // inc_counter
    method IncCounter(ghost t: nat)
      requires Enabled(Now(), Increment(t))
      modifies this
      ensures Now() == Apply(old(Now()), Increment(t))
    {
      counter := counter + 1;
    }

    // dec_counter up to the unlock
    method DecCounter(ghost t: nat) returns (result: bool)
      requires Enabled(Now(), Decrement(t))
      modifies this
      ensures Now() == Apply(old(Now()), Decrement(t))
      ensures result == (counter <= 0) == DrainedBy(old(counter))
    {
      counter := counter - 1;
      result := counter <= 0;
      threads := threads[t := NotifyingOne];
    }

    // has_outstanding up to the unlock; the source compares with >=, so a zero counter answers true
    method HasOutstanding(ghost t: nat) returns (result: bool)
      requires Enabled(Now(), QueryOutstanding(t))
      modifies this
      ensures Now() == Apply(old(Now()), QueryOutstanding(t))
      ensures result == (old(counter) >= 0)
    {
      result := counter >= 0;
      threads := threads[t := NotifyingOne];
    }

    // notify_one after the unlock; the condition variable, not the program, picks the sleeper
    ghost method DeliverNotifyOne(t: nat, target: nat, late: bool)
      requires Enabled(Now(), NotifyOne(t, target, late))
      modifies this
      ensures Now() == Apply(old(Now()), NotifyOne(t, target, late))
    {
      var wakes := target < |threads| && threads[target].Asleep?;
      var pc := if !wakes then Idle else if late then TimedOut else Woken(threads[target].timed);
      threads := threads[t := Idle];
      if wakes {
        threads := threads[target := pc];
      }
    }

    // notify up to its notify_all, which runs under the mutex
    ghost method BeginNotify(t: nat)
      requires Enabled(Now(), StartNotify(t))
      modifies this
      ensures Now() == Apply(old(Now()), StartNotify(t))
    {
      lock, threads := Some(t), threads[t := NotifyingAll];
    }

    // the first critical section of wait: leave at once when the counter is zero, else fall asleep
    method BeginWait(ghost t: nat, ghost timed: bool) returns (satisfied: bool)
      requires Enabled(Now(), StartWait(t, timed))
      modifies this
      ensures Now() == Apply(old(Now()), StartWait(t, timed))
      ensures satisfied == (old(counter) == 0)
    {
      satisfied := counter == 0;
      if satisfied {
        lock, threads := Some(t), threads[t := NotifyingAll];
      } else {
        threads := threads[t := Asleep(timed)];
      }
    }

    // one round of the predicate loop of wait and wait_for; leaves says that the loop is done
    method RecheckWait(ghost t: nat, timedOut: bool) returns (leaves: bool, satisfied: bool)
      requires Enabled(Now(), Recheck(t)) && timedOut == Now().threads[t].TimedOut?
      modifies this
      ensures Now() == Apply(old(Now()), Recheck(t))
      ensures satisfied == (old(counter) == 0)
      ensures leaves == (satisfied || timedOut)
    {
      satisfied := counter == 0;
      leaves := satisfied || timedOut;
      if leaves {
        lock, threads := Some(t), threads[t := NotifyingAll];
      } else {
        threads := threads[t := Asleep(threads[t].timed)];
      }
    }

    // the notify_all that ends wait and notify, and the unlock after it
    ghost method DeliverNotifyAll(t: nat)
      requires Enabled(Now(), NotifyAll(t))
      modifies this
      ensures Now() == Apply(old(Now()), NotifyAll(t))
    {
      lock, threads := None, WakeAll(threads[t := Idle]);
    }
  }
}
