/**
 The worker's thread pool (src/worker.cpp): a job stack, a counting semaphore, a three-state
 lifecycle and any number of threads running `background_task`, interleaved freely.
 */
module ThreadPool {
  import opened Commands

  datatype Lifecycle = Unconnected | Connected | Dying

  /** The static `transition_state`. */
  function Transition(current: Lifecycle, next: Lifecycle): Lifecycle {
    match current
    case Unconnected => next
    case Connected => if next != Unconnected then next else current
    case Dying => current
  }

  /** What the threads of a connection share: the job stack, the semaphore, the lifecycle. */
  datatype Shared = Shared(jobs: seq<Job>, tokens: nat, life: Lifecycle)

  function Push(s: Shared, job: Job): Shared {
    s.(jobs := s.jobs + [job])
  }

  /** Last in, first out. */
  function Top(s: Shared): Job
    requires s.jobs != []
  {
    s.jobs[|s.jobs| - 1]
  }

  function Pop(s: Shared): Shared
    requires s.jobs != []
  {
    s.(jobs := s.jobs[..|s.jobs| - 1])
  }

  function Release(s: Shared, n: nat): Shared {
    s.(tokens := s.tokens + n)
  }

  function Acquire(s: Shared): Shared
    requires s.tokens > 0
  {
    s.(tokens := s.tokens - 1)
  }

  function MoveTo(s: Shared, next: Lifecycle): Shared {
    s.(life := Transition(s.life, next))
  }

  /** Where a thread is in `background_task`. */
  datatype ThreadState =
    | Checking          // about to test the loop condition
    | Popping           // about to call pop_job
    | Running(job: Job)
    | Waiting           // in jobsSemaphore.acquire
    | Exited

  /**
   `pushing`: a `schedule_job` holds `jobsMutex` between push and release. `posts`: releases
   a `notify_dying` still has to make. `notified`: some `notify_dying` has begun.
   */
  datatype Pool = Pool(
    threads: seq<ThreadState>,
    shared: Shared,
    pushing: bool,
    posts: nat,
    notified: bool,
    scheduled: multiset<Job>,
    done: multiset<Job>)

  datatype Step =
    | Advance(t: nat)         // a pool thread takes its next step
    | PushJob(job: Job)       // schedule_job, first half
    | PushRelease             // schedule_job, second half
    | ReleaseOne              // notify_job on its own (EHLO)
    | SetState(next: Lifecycle)
    | NotifyDying             // follows the transition to Dying
    | Post                    // one of its releases

  const FRESH := Shared([], 0, Unconnected)

  function Start(count: nat): Pool {
    Pool(seq(count, _ => Checking), FRESH, false, 0, false, multiset{}, multiset{})
  }

  predicate CanAdvance(p: Pool, t: nat) {
    && t < |p.threads|
    && match p.threads[t]
       case Checking => true
       case Popping => !p.pushing
       case Running(_) => true
       case Waiting => p.shared.tokens > 0
       case Exited => false
  }

  predicate Enabled(p: Pool, step: Step) {
    match step
    case Advance(t) => CanAdvance(p, t)
    case PushJob(_) => !p.pushing
    case PushRelease => p.pushing
    case ReleaseOne => true
    case SetState(_) => true
    case NotifyDying => p.shared.life == Dying
    case Post => p.posts > 0
  }

  function Advanced(p: Pool, t: nat): Pool
    requires CanAdvance(p, t)
  {
    match p.threads[t]
    case Checking => p.(threads := p.threads[t := if p.shared.life == Dying then Exited else Popping])
    case Popping =>
      if p.shared.jobs == [] then p.(threads := p.threads[t := Waiting])
      else p.(threads := p.threads[t := Running(Top(p.shared))], shared := Pop(p.shared))
    case Running(job) => p.(threads := p.threads[t := Popping], done := p.done + multiset{job})
    case Waiting => p.(threads := p.threads[t := Checking], shared := Acquire(p.shared))
  }

  function After(p: Pool, step: Step): Pool
    requires Enabled(p, step)
  {
    match step
    case Advance(t) => Advanced(p, t)
    case PushJob(job) =>
      p.(shared := Push(p.shared, job), pushing := true, scheduled := p.scheduled + multiset{job})
    case PushRelease => p.(shared := Release(p.shared, 1), pushing := false)
    case ReleaseOne => p.(shared := Release(p.shared, 1))
    case SetState(next) => p.(shared := MoveTo(p.shared, next))
    case NotifyDying => p.(posts := p.posts + |p.threads|, notified := true)
    case Post => p.(shared := Release(p.shared, 1), posts := p.posts - 1)
  }

  predicate Execution(count: nat, states: seq<Pool>, steps: seq<Step>) {
    && |states| == |steps| + 1 && states[0] == Start(count)
    && forall i | 0 <= i < |steps| ::
         Enabled(states[i], steps[i]) && states[i + 1] == After(states[i], steps[i])
  }

  // ---------------------------------------------------------------- counting threads

  function Sum(threads: seq<ThreadState>, value: ThreadState -> nat): nat {
    if threads == [] then 0 else value(threads[0]) + Sum(threads[1..], value)
  }

  lemma {:induction false} SumUpdate(threads: seq<ThreadState>, value: ThreadState -> nat, t: nat,
                                     s: ThreadState)
    requires t < |threads|
    ensures Sum(threads[t := s], value) + value(threads[t]) == Sum(threads, value) + value(s)
    decreases |threads|
  {
    if t == 0 {
      assert threads[0 := s][1..] == threads[1..];
    } else {
      SumUpdate(threads[1..], value, t - 1, s);
      assert threads[t := s][1..] == threads[1..][t - 1 := s];
    }
  }

  lemma {:induction false} SumZero(threads: seq<ThreadState>, value: ThreadState -> nat)
    ensures Sum(threads, value) == 0 <==> forall t | 0 <= t < |threads| :: value(threads[t]) == 0
    decreases |threads|
  {
    if threads != [] {
      SumZero(threads[1..], value);
      assert forall t | 1 <= t < |threads| :: threads[t] == threads[1..][t - 1];
    }
  }

  lemma {:induction false} SumAtMost(threads: seq<ThreadState>, value: ThreadState -> nat)
    requires forall s :: value(s) <= 1
    ensures Sum(threads, value) <= |threads|
    decreases |threads|
  {
    if threads != [] { SumAtMost(threads[1..], value); }
  }

  /** Neither waiting nor exited. */
  function Awake(s: ThreadState): nat {
    if s.Checking? || s.Popping? || s.Running? then 1 else 0
  }

  /** Once Dying, such a thread acquires exactly once more before it sees the state. */
  function Owing(s: ThreadState): nat {
    if s.Popping? || s.Running? || s.Waiting? then 1 else 0
  }

  function JobOf(s: ThreadState): multiset<Job> {
    if s.Running? then multiset{s.job} else multiset{}
  }

  function JobsRunning(threads: seq<ThreadState>): multiset<Job> {
    if threads == [] then multiset{} else JobOf(threads[0]) + JobsRunning(threads[1..])
  }

  function Others(threads: seq<ThreadState>, t: nat): seq<ThreadState>
    requires t < |threads|
  {
    threads[..t] + threads[t + 1..]
  }

  lemma OthersTail(threads: seq<ThreadState>, t: nat)
    requires 0 < t < |threads|
    ensures JobsRunning(Others(threads, t))
         == JobOf(threads[0]) + JobsRunning(Others(threads[1..], t - 1))
  {
    assert Others(threads, t)[1..] == Others(threads[1..], t - 1);
  }

  lemma {:induction false} JobsRunningSplit(threads: seq<ThreadState>, t: nat)
    requires t < |threads|
    ensures JobsRunning(threads) == JobOf(threads[t]) + JobsRunning(Others(threads, t))
    decreases |threads|
  {
    if t == 0 {
      assert Others(threads, 0) == threads[1..];
    } else {
      JobsRunningSplit(threads[1..], t - 1);
      OthersTail(threads, t);
    }
  }

  /** Changing one thread changes the running jobs by that thread's. */
  lemma JobsRunningUpdate(threads: seq<ThreadState>, t: nat, s: ThreadState)
    requires t < |threads|
    ensures JobsRunning(threads) == JobOf(threads[t]) + JobsRunning(Others(threads, t))
    ensures JobsRunning(threads[t := s]) == JobOf(s) + JobsRunning(Others(threads, t))
  {
    JobsRunningSplit(threads, t);
    JobsRunningSplit(threads[t := s], t);
    assert Others(threads[t := s], t) == Others(threads, t);
  }

  // ---------------------------------------------------------------- what every step keeps

  /** Every scheduled job is queued, running or done, exactly once. */
  predicate JobsAccounted(p: Pool) {
    multiset(p.shared.jobs) + JobsRunning(p.threads) + p.done == p.scheduled
  }

  /** Until the end every queued job has its own token or awake thread. */
  predicate JobsCovered(p: Pool) {
    p.shared.life != Dying ==>
      && p.shared.tokens + Sum(p.threads, Awake) + (if p.pushing then 1 else 0) >= |p.shared.jobs|
      && forall t | 0 <= t < |p.threads| :: !p.threads[t].Exited?
  }

  /** After the notification there are tokens for all who still have to acquire one. */
  predicate ExitsCovered(p: Pool) {
    p.notified ==> p.shared.life == Dying && p.shared.tokens + p.posts >= Sum(p.threads, Owing)
  }

  predicate Invariant(p: Pool) {
    JobsAccounted(p) && JobsCovered(p) && ExitsCovered(p)
  }

  lemma PopAccounts(p: Pool, t: nat)
    requires JobsAccounted(p) && CanAdvance(p, t) && p.threads[t].Popping? && p.shared.jobs != []
    ensures JobsAccounted(Advanced(p, t))
  {
    var job := p.shared.jobs[|p.shared.jobs| - 1];
    JobsRunningUpdate(p.threads, t, Running(job));
    assert p.shared.jobs == Advanced(p, t).shared.jobs + [job];
    MoveOne(multiset(p.shared.jobs), multiset(Advanced(p, t).shared.jobs), multiset{job},
            JobsRunning(Others(p.threads, t)), p.done);
  }

  lemma MoveOne(all: multiset<Job>, kept: multiset<Job>, one: multiset<Job>, rest: multiset<Job>,
                done: multiset<Job>)
    requires all == kept + one
    ensures all + (multiset{} + rest) + done == kept + (one + rest) + done
  {
  }

  lemma DoneAccounts(p: Pool, t: nat)
    requires JobsAccounted(p) && CanAdvance(p, t) && p.threads[t].Running?
    ensures JobsAccounted(Advanced(p, t))
  {
    JobsRunningUpdate(p.threads, t, Popping);
  }

  /** A thread that neither takes nor finishes a job. */
  lemma IdleAccounts(p: Pool, t: nat)
    requires JobsAccounted(p) && CanAdvance(p, t)
    requires !p.threads[t].Running? && (p.threads[t].Popping? ==> p.shared.jobs == [])
    ensures JobsAccounted(Advanced(p, t))
  {
    var q := Advanced(p, t);
    JobsRunningUpdate(p.threads, t, q.threads[t]);
    assert q.threads == p.threads[t := q.threads[t]];
    assert JobOf(p.threads[t]) == JobOf(q.threads[t]) == multiset{};
  }

  lemma AdvanceAccounts(p: Pool, t: nat)
    requires JobsAccounted(p) && CanAdvance(p, t)
    ensures JobsAccounted(Advanced(p, t))
  {
    if p.threads[t].Running? {
      DoneAccounts(p, t);
    } else if p.threads[t].Popping? && p.shared.jobs != [] {
      PopAccounts(p, t);
    } else {
      IdleAccounts(p, t);
    }
  }

  lemma AdvanceCovers(p: Pool, t: nat)
    requires JobsCovered(p) && CanAdvance(p, t)
    ensures JobsCovered(Advanced(p, t))
  {
    SumUpdate(p.threads, Awake, t, Advanced(p, t).threads[t]);
  }

  lemma AdvanceCoversExits(p: Pool, t: nat)
    requires ExitsCovered(p) && CanAdvance(p, t)
    ensures ExitsCovered(Advanced(p, t))
  {
    SumUpdate(p.threads, Owing, t, Advanced(p, t).threads[t]);
  }

  lemma AdvanceKeeps(p: Pool, t: nat)
    requires Invariant(p) && CanAdvance(p, t)
    ensures Invariant(Advanced(p, t))
  {
    AdvanceAccounts(p, t);
    AdvanceCovers(p, t);
    AdvanceCoversExits(p, t);
  }

  lemma PushKeeps(p: Pool, job: Job)
    requires Invariant(p) && !p.pushing
    ensures Invariant(After(p, PushJob(job)))
  {
    assert multiset(p.shared.jobs + [job]) == multiset(p.shared.jobs) + multiset{job};
  }

  lemma NotifyKeeps(p: Pool)
    requires Invariant(p) && p.shared.life == Dying
    ensures Invariant(After(p, NotifyDying))
  {
    SumAtMost(p.threads, Owing);
  }

  lemma StepKeeps(p: Pool, step: Step)
    requires Invariant(p) && Enabled(p, step)
    ensures Invariant(After(p, step)) && |After(p, step).threads| == |p.threads|
  {
    match step
    case Advance(t) => AdvanceKeeps(p, t);
    case PushJob(job) => PushKeeps(p, job);
    case NotifyDying => NotifyKeeps(p);
    case _ =>
  }

  lemma {:induction false} StartCounts(count: nat)
    ensures JobsRunning(Start(count).threads) == multiset{}
    decreases count
  {
    if count > 0 {
      StartCounts(count - 1);
      assert Start(count).threads[1..] == Start(count - 1).threads;
    }
  }

  lemma {:induction false} ExecutionKeeps(count: nat, states: seq<Pool>, steps: seq<Step>, i: nat)
    requires Execution(count, states, steps) && i < |states|
    ensures Invariant(states[i]) && |states[i].threads| == count
    decreases i
  {
    if i == 0 {
      StartCounts(count);
    } else {
      ExecutionKeeps(count, states, steps, i - 1);
      StepKeeps(states[i - 1], steps[i - 1]);
    }
  }

  // ---------------------------------------------------------------- no lost wake-up

  lemma AwakeCanAdvance(p: Pool)
    requires !p.pushing && Sum(p.threads, Awake) > 0
    ensures exists t :: CanAdvance(p, t)
  {
    SumZero(p.threads, Awake);
    var t :| 0 <= t < |p.threads| && Awake(p.threads[t]) != 0;
    assert CanAdvance(p, t);
  }

  /**
   While the connection lives and no `schedule_job` is half-way: as many tokens or awake
   threads as queued jobs, so with a job queued and any thread at all, some thread can go on;
   and no job is lost or run twice.
   */
  lemma NoLostWakeUp(count: nat, states: seq<Pool>, steps: seq<Step>, i: nat)
    requires Execution(count, states, steps) && i < |states|
    requires states[i].shared.life != Dying && !states[i].pushing
    ensures states[i].shared.tokens + Sum(states[i].threads, Awake) >= |states[i].shared.jobs|
    ensures states[i].shared.jobs != [] && count > 0 ==> exists t :: CanAdvance(states[i], t)
    ensures multiset(states[i].shared.jobs) + JobsRunning(states[i].threads) + states[i].done
         == states[i].scheduled
  {
    ExecutionKeeps(count, states, steps, i);
    var p := states[i];
    if p.shared.jobs != [] && count > 0 {
      if Sum(p.threads, Awake) > 0 {
        AwakeCanAdvance(p);
      } else {
        SumZero(p.threads, Awake);
        assert CanAdvance(p, 0);
      }
    }
  }

  /** Dying is final, and a connection never becomes unconnected again. */
  lemma {:induction false} LifecycleIsOneWay(count: nat, states: seq<Pool>, steps: seq<Step>, i: nat, k: nat)
    requires Execution(count, states, steps) && i <= k < |states|
    ensures states[i].shared.life == Dying ==> states[k].shared.life == Dying
    ensures states[i].shared.life != Unconnected ==> states[k].shared.life != Unconnected
    decreases k
  {
    if i < k { LifecycleIsOneWay(count, states, steps, i, k - 1); }
  }

  // ---------------------------------------------------------------- last in, first out

  /** The job scheduled last is the next one out, and leaves what was there before it. */
  lemma PushThenPop(s: Shared, job: Job)
    ensures Push(s, job).jobs != [] && Top(Push(s, job)) == job && Pop(Push(s, job)) == s
  {
    assert Pop(Push(s, job)).jobs == s.jobs;
  }

  /** A step leaves the stack alone, pushes a job on it or pops one off. */
  lemma StackStep(p: Pool, step: Step)
    requires Enabled(p, step)
    ensures var before, after := p.shared.jobs, After(p, step).shared.jobs;
            || after == before
            || (step.PushJob? && after == before + [step.job])
            || (step.Advance? && p.threads[step.t].Popping? && before != []
                && before == after + [before[|before| - 1]]
                && After(p, step).threads[step.t] == Running(before[|before| - 1]))
  {
  }

  predicate OneApart(a: seq<Job>, b: seq<Job>) {
    a == b || (a <= b && |b| == |a| + 1) || (b <= a && |a| == |b| + 1)
  }

  lemma StackMovesByOne(p: Pool, step: Step)
    requires Enabled(p, step)
    ensures OneApart(p.shared.jobs, After(p, step).shared.jobs)
  {
    StackStep(p, step);
  }

  /** What lies below the lowest height of the stack stays where it is. */
  lemma {:induction false} BottomStays(states: seq<Pool>, i: nat, m: nat, bottom: seq<Job>)
    requires i <= m < |states| && bottom <= states[i].shared.jobs
    requires forall k | i <= k < m :: OneApart(states[k].shared.jobs, states[k + 1].shared.jobs)
    requires forall k | i <= k <= m :: |states[k].shared.jobs| >= |bottom|
    ensures bottom <= states[m].shared.jobs
    decreases m
  {
    if i < m {
      BottomStays(states, i, m - 1, bottom);
      assert OneApart(states[m - 1].shared.jobs, states[m - 1 + 1].shared.jobs);
    }
  }

  /** While the stack stays higher than it was at step `i`, the job pushed then stays where it is. */
  lemma StaysBelow(count: nat, states: seq<Pool>, steps: seq<Step>, i: nat, m: nat, job: Job)
    requires Execution(count, states, steps) && i < m < |states| && steps[i] == PushJob(job)
    requires forall n | i < n <= m :: |states[n].shared.jobs| > |states[i].shared.jobs|
    ensures states[i].shared.jobs + [job] <= states[m].shared.jobs
  {
    forall k | i + 1 <= k < m
      ensures OneApart(states[k].shared.jobs, states[k + 1].shared.jobs)
    {
      StackMovesByOne(states[k], steps[k]);
    }
    assert states[i + 1].shared.jobs == states[i].shared.jobs + [job];
    BottomStays(states, i + 1, m, states[i].shared.jobs + [job]);
  }

  /**
   In every execution a scheduled job is popped exactly when all jobs scheduled after it have
   been: once the stack is back to its height before the push, some thread has just taken it.
   */
  lemma LastScheduledRunsFirst(count: nat, states: seq<Pool>, steps: seq<Step>, i: nat, m: nat, job: Job)
    requires Execution(count, states, steps) && i < m < |steps| && steps[i] == PushJob(job)
    requires forall n | i < n <= m :: |states[n].shared.jobs| > |states[i].shared.jobs|
    requires |states[m + 1].shared.jobs| <= |states[i].shared.jobs|
    ensures states[m + 1].shared.jobs == states[i].shared.jobs
    ensures steps[m].Advance? && steps[m].t < |states[m].threads|
    ensures states[m].threads[steps[m].t] == Popping && states[m + 1].threads[steps[m].t] == Running(job)
  {
    StaysBelow(count, states, steps, i, m, job);
    StackStep(states[m], steps[m]);
    assert states[m].shared.jobs == states[i].shared.jobs + [job];
  }

  // ---------------------------------------------------------------- shutdown

  /** What is left to happen once nobody schedules or notifies any more. */
  predicate Draining(step: Step) {
    step.Advance? || step.PushRelease? || step.Post?
  }

  /** Steps a thread can still take by itself. */
  function Effort(s: ThreadState): nat {
    match s
    case Exited => 0
    case Checking => 1
    case Waiting => 2
    case Popping => 3
    case Running(_) => 4
  }

  function Remaining(p: Pool): nat {
    2 * |p.shared.jobs| + Sum(p.threads, Effort) + p.posts + if p.pushing then 1 else 0
  }

  lemma AdvanceShrinks(p: Pool, t: nat)
    requires p.shared.life == Dying && CanAdvance(p, t)
    ensures Remaining(Advanced(p, t)) < Remaining(p)
  {
    var q := Advanced(p, t);
    SumUpdate(p.threads, Effort, t, q.threads[t]);
    var before, after := Sum(p.threads, Effort), Sum(q.threads, Effort);
    if p.threads[t].Popping? && p.shared.jobs != [] {
      assert after == before + 1 && |q.shared.jobs| == |p.shared.jobs| - 1;
    } else {
      assert after == before - 1 && q.shared.jobs == p.shared.jobs;
    }
  }

  lemma DrainingShrinks(p: Pool, step: Step)
    requires p.shared.life == Dying && Enabled(p, step) && Draining(step)
    ensures Remaining(After(p, step)) < Remaining(p) && After(p, step).shared.life == Dying
  {
    if step.Advance? { AdvanceShrinks(p, step.t); }
  }

  lemma DrainingGoesOn(p: Pool, t: nat)
    requires Invariant(p) && p.notified && t < |p.threads| && !p.threads[t].Exited?
    ensures exists step :: Draining(step) && Enabled(p, step)
  {
    if p.pushing {
      assert Draining(PushRelease) && Enabled(p, PushRelease);
    } else if Sum(p.threads, Awake) > 0 {
      AwakeCanAdvance(p);
      var u :| CanAdvance(p, u);
      assert Draining(Advance(u)) && Enabled(p, Advance(u));
    } else {
      SumZero(p.threads, Awake);
      SumZero(p.threads, Owing);
      assert p.threads[t].Waiting?;
      if p.shared.tokens > 0 {
        assert Draining(Advance(t)) && Enabled(p, Advance(t));
      } else {
        assert Draining(Post) && Enabled(p, Post);
      }
    }
  }

  /** Once the tokens of `notify_dying` are out, nobody who still has to acquire one waits in vain. */
  lemma TokensForEveryExit(count: nat, states: seq<Pool>, steps: seq<Step>, i: nat)
    requires Execution(count, states, steps) && i < |states|
    requires states[i].notified && states[i].posts == 0
    ensures states[i].shared.life == Dying && states[i].shared.tokens >= Sum(states[i].threads, Owing)
  {
    ExecutionKeeps(count, states, steps, i);
  }

  predicate DrainingRun(states: seq<Pool>, steps: seq<Step>) {
    && |states| == |steps| + 1
    && forall i | 0 <= i < |steps| ::
         Draining(steps[i]) && Enabled(states[i], steps[i]) && states[i + 1] == After(states[i], steps[i])
  }

  lemma {:induction false} DrainingRunKeeps(states: seq<Pool>, steps: seq<Step>)
    requires DrainingRun(states, steps) && Invariant(states[0]) && states[0].notified
    ensures Invariant(states[|steps|]) && states[|steps|].notified
    ensures |steps| + Remaining(states[|steps|]) <= Remaining(states[0])
    decreases |steps|
  {
    if steps != [] {
      StepKeeps(states[0], steps[0]);
      DrainingShrinks(states[0], steps[0]);
      DrainingRunKeeps(states[1..], steps[1..]);
    }
  }

  /**
   From any reachable state after `notify_dying` began: draining takes at most `Remaining`
   steps, and when no draining step is left every thread has exited.
   */
  lemma ShutdownFreesEveryThread(count: nat, history: seq<Pool>, taken: seq<Step>,
                                 states: seq<Pool>, steps: seq<Step>)
    requires Execution(count, history, taken) && history[|taken|].notified
    requires DrainingRun(states, steps) && states[0] == history[|taken|]
    ensures |steps| <= Remaining(states[0])
    ensures (forall step | Draining(step) :: !Enabled(states[|steps|], step)) ==>
              forall t | 0 <= t < |states[|steps|].threads| :: states[|steps|].threads[t].Exited?
  {
    ExecutionKeeps(count, history, taken, |taken|);
    DrainingRunKeeps(states, steps);
    var p := states[|steps|];
    if t :| 0 <= t < |p.threads| && !p.threads[t].Exited? {
      DrainingGoesOn(p, t);
    }
  }

  // ---------------------------------------------------------------- what a shutdown leaves

  /** Some thread is between two jobs, or has one. */
  predicate AtWork(threads: seq<ThreadState>) {
    exists t :: 0 <= t < |threads| && (threads[t].Popping? || threads[t].Running?)
  }

  predicate WillEmpty(p: Pool) {
    p.shared.jobs == [] || AtWork(p.threads)
  }

  /** A draining step neither brings the last thread at work back nor takes it away too early. */
  lemma DrainingKeepsFate(p: Pool, step: Step)
    requires p.shared.life == Dying && Enabled(p, step) && Draining(step)
    ensures WillEmpty(After(p, step)) <==> WillEmpty(p)
  {
    if step.Advance? {
      var threads, after := p.threads, After(p, step).threads;
      assert forall u | 0 <= u < |threads| && u != step.t :: after[u] == threads[u];
      assert after[step.t].Popping? || after[step.t].Running? ==> AtWork(after);
      assert threads[step.t].Popping? || threads[step.t].Running? ==> AtWork(threads);
      if u :| 0 <= u < |threads| && u != step.t && (threads[u].Popping? || threads[u].Running?) {
        assert after[u] == threads[u];
      }
    }
  }

  lemma {:induction false} DrainingRunKeepsFate(states: seq<Pool>, steps: seq<Step>)
    requires DrainingRun(states, steps) && states[0].shared.life == Dying
    ensures WillEmpty(states[|steps|]) <==> WillEmpty(states[0])
    decreases |steps|
  {
    if steps != [] {
      DrainingKeepsFate(states[0], steps[0]);
      DrainingShrinks(states[0], steps[0]);
      DrainingRunKeepsFate(states[1..], steps[1..]);
    }
  }

  lemma {:induction false} ExitedRunNothing(threads: seq<ThreadState>)
    requires forall t | 0 <= t < |threads| :: threads[t].Exited?
    ensures JobsRunning(threads) == multiset{}
    decreases |threads|
  {
    if threads != [] { ExitedRunNothing(threads[1..]); }
  }

  /**
   From any reachable Dying state: once nobody schedules any more and every thread has exited,
   all scheduled jobs have been done if and only if at the start none was queued or some thread
   was still at work. A waiting or checking thread looks at the state before the stack.
   */
  lemma ShutdownAbandonsExactly(count: nat, history: seq<Pool>, taken: seq<Step>,
                                states: seq<Pool>, steps: seq<Step>)
    requires Execution(count, history, taken) && history[|taken|].shared.life == Dying
    requires DrainingRun(states, steps) && states[0] == history[|taken|]
    requires forall t | 0 <= t < |states[|steps|].threads| :: states[|steps|].threads[t].Exited?
    ensures states[|steps|].shared.jobs == [] <==> states[0].shared.jobs == [] || AtWork(states[0].threads)
    ensures states[|steps|].done == states[|steps|].scheduled
            <==> states[0].shared.jobs == [] || AtWork(states[0].threads)
  {
    ExecutionKeeps(count, history, taken, |taken|);
    DrainingRunKeepsFate(states, steps);
    DrainingRunAccounts(states, steps);
    var p := states[|steps|];
    ExitedRunNothing(p.threads);
    assert multiset(p.shared.jobs) + p.done == p.scheduled;
    assert |multiset(p.shared.jobs)| == |p.shared.jobs|;
    assert p.done == p.scheduled ==> |multiset(p.shared.jobs) + p.done| == |p.done|;
  }

  lemma {:induction false} DrainingRunAccounts(states: seq<Pool>, steps: seq<Step>)
    requires DrainingRun(states, steps) && Invariant(states[0])
    ensures Invariant(states[|steps|]) && |states[|steps|].threads| == |states[0].threads|
    decreases |steps|
  {
    if steps != [] {
      StepKeeps(states[0], steps[0]);
      DrainingRunAccounts(states[1..], steps[1..]);
    }
  }

  /** An execution goes on with any enabled step. */
  lemma Next(count: nat, states: seq<Pool>, steps: seq<Step>, step: Step, next: Pool)
    returns (longer: seq<Pool>, taken: seq<Step>)
    requires Execution(count, states, steps)
    requires Enabled(states[|steps|], step) && next == After(states[|steps|], step)
    ensures Execution(count, longer, taken) && |taken| == |steps| + 1 && longer[|taken|] == next
  {
    longer, taken := states + [next], steps + [step];
    forall i | 0 <= i < |taken|
      ensures Enabled(longer[i], taken[i]) && longer[i + 1] == After(longer[i], taken[i])
    {
      if i < |steps| { assert longer[i] == states[i] && longer[i + 1] == states[i + 1]; }
    }
  }

  /** The only thread, asleep or awake, of a connection with these tokens. */
  function Lone(thread: ThreadState, jobs: seq<Job>, tokens: nat, life: Lifecycle): Pool {
    Pool([thread], Shared(jobs, tokens, life), false, 0, life == Dying, multiset(jobs), multiset{})
  }

  lemma FallsAsleep() returns (states: seq<Pool>, steps: seq<Step>)
    ensures Execution(1, states, steps) && states[|steps|] == Lone(Waiting, [], 0, Connected)
  {
    states, steps := [Start(1)], [];
    assert Start(1).threads == [Checking];
    states, steps := Next(1, states, steps, SetState(Connected), Lone(Checking, [], 0, Connected));
    states, steps := Next(1, states, steps, Advance(0), Lone(Popping, [], 0, Connected));
    states, steps := Next(1, states, steps, Advance(0), Lone(Waiting, [], 0, Connected));
  }

  lemma JobArrives(job: Job) returns (states: seq<Pool>, steps: seq<Step>)
    ensures Execution(1, states, steps) && states[|steps|] == Lone(Waiting, [job], 1, Connected)
  {
    states, steps := FallsAsleep();
    assert [] + [job] == [job];
    assert multiset([job]) == multiset{} + multiset{job};
    var pushed := Lone(Waiting, [job], 0, Connected).(pushing := true);
    states, steps := Next(1, states, steps, PushJob(job), pushed);
    states, steps := Next(1, states, steps, PushRelease, Lone(Waiting, [job], 1, Connected));
  }

  /** An execution in which the only thread is woken to exit and leaves a job behind. */
  lemma ShutdownMayAbandonJobs(job: Job) returns (states: seq<Pool>, steps: seq<Step>)
    ensures Execution(1, states, steps)
    ensures var p := states[|steps|];
            && p.threads == [Exited] && p.posts == 0 && !p.pushing
            && p.shared.jobs == [job] && p.scheduled == multiset{job} && p.done == multiset{}
  {
    states, steps := JobArrives(job);
    var dying := Lone(Waiting, [job], 1, Dying);
    states, steps := Next(1, states, steps, SetState(Dying), dying.(notified := false));
    states, steps := Next(1, states, steps, NotifyDying, dying.(posts := 1));
    states, steps := Next(1, states, steps, Post, Lone(Waiting, [job], 2, Dying));
    states, steps := Next(1, states, steps, Advance(0), Lone(Checking, [job], 1, Dying));
    states, steps := Next(1, states, steps, Advance(0), Lone(Exited, [job], 1, Dying));
  }

  // ---------------------------------------------------------------- without shutdown

  function Liveliness(s: ThreadState): nat {
    match s
    case Exited => 0
    case Waiting => 0
    case Popping => 1
    case Running(_) => 2
    case Checking => 2
  }

  /** Steps a pool that nobody feeds can still take: three for a token, two for a job. */
  function Pending(p: Pool): nat {
    2 * |p.shared.jobs| + 3 * p.shared.tokens + Sum(p.threads, Liveliness) + 4 * p.posts
    + if p.pushing then 4 else 0
  }

  lemma AdvanceTires(p: Pool, t: nat)
    requires CanAdvance(p, t)
    ensures Pending(Advanced(p, t)) < Pending(p)
  {
    var q := Advanced(p, t);
    SumUpdate(p.threads, Liveliness, t, q.threads[t]);
  }

  lemma {:induction false} UnfedRunEnds(states: seq<Pool>, steps: seq<Step>)
    requires DrainingRun(states, steps)
    ensures |steps| + Pending(states[|steps|]) <= Pending(states[0])
    ensures states[|steps|].shared.life == states[0].shared.life
    decreases |steps|
  {
    if steps != [] {
      if steps[0].Advance? { AdvanceTires(states[0], steps[0].t); }
      UnfedRunEnds(states[1..], steps[1..]);
    }
  }

  /** Threads that all wait run nothing. */
  lemma {:induction false} WaitingRunNothing(threads: seq<ThreadState>)
    requires forall t | 0 <= t < |threads| :: threads[t].Waiting?
    ensures JobsRunning(threads) == multiset{} && Sum(threads, Awake) == 0
    decreases |threads|
  {
    if threads != [] { WaitingRunNothing(threads[1..]); }
  }

  /**
   From any reachable state of a live connection that nobody feeds any more: the pool takes at
   most `Pending` steps, and where none is left every scheduled job has been done.
   */
  lemma UnfedPoolFinishesItsJobs(count: nat, history: seq<Pool>, taken: seq<Step>,
                                 states: seq<Pool>, steps: seq<Step>)
    requires Execution(count, history, taken) && history[|taken|].shared.life != Dying && count > 0
    requires DrainingRun(states, steps) && states[0] == history[|taken|]
    ensures |steps| <= Pending(states[0])
    ensures (forall step | Draining(step) :: !Enabled(states[|steps|], step)) ==>
              states[|steps|].shared.jobs == [] && states[|steps|].done == states[|steps|].scheduled
  {
    ExecutionKeeps(count, history, taken, |taken|);
    DrainingRunAccounts(states, steps);
    UnfedRunEnds(states, steps);
    var p := states[|steps|];
    if forall step | Draining(step) :: !Enabled(p, step) {
      assert !Enabled(p, PushRelease);
      forall t | 0 <= t < |p.threads|
        ensures p.threads[t].Waiting? && p.shared.tokens == 0
      {
        assert !Enabled(p, Advance(t));
      }
      WaitingRunNothing(p.threads);
      assert p.shared.tokens == 0 by { assert !Enabled(p, Advance(0)); }
    }
  }

  // ---------------------------------------------------------------- the class

  datatype Option<T> = None | Some(value: T)

  /** The fields of `ServerConnection` the pool shares, under their mutexes. */
  class ServerConnection {
    var jobs: seq<Job>
    var currentState: Lifecycle
    var jobsSemaphore: nat
    const threadCount: nat

    function State(): Shared
      reads this
    {
      Shared(jobs, jobsSemaphore, currentState)
    }

    constructor (threadCount: nat)
      ensures State() == FRESH && this.threadCount == threadCount
      ensures jobs == [] && jobsSemaphore == 0 && currentState == Unconnected
    {
      jobs, currentState, jobsSemaphore := [], Unconnected, 0;
      this.threadCount := threadCount;
    }

    method PopJob() returns (job: Option<Job>)
      modifies `jobs
      ensures old(jobs) == [] ==> job == None && jobs == []
      ensures old(jobs) != [] ==> job.Some? && old(jobs) == jobs + [job.value]
      ensures old(jobs) != [] ==> job == Some(Top(old(State()))) && State() == Pop(old(State()))
    {
      if jobs == [] {
        return None;
      }
      var last := jobs[|jobs| - 1];
      jobs := jobs[..|jobs| - 1];
      job := Some(last);
    }

    method NotifyJob()
      modifies `jobsSemaphore
      ensures State() == Release(old(State()), 1) && jobsSemaphore == old(jobsSemaphore) + 1
    {
      jobsSemaphore := jobsSemaphore + 1;
    }

    method ScheduleJob(job: Job)
      modifies `jobs, `jobsSemaphore
      ensures State() == Release(Push(old(State()), job), 1)
      ensures jobs == old(jobs) + [job] && jobsSemaphore == old(jobsSemaphore) + 1
    {
      jobs := jobs + [job];
      NotifyJob();
    }

    /** `POSIXSemaphore::release` posts one at a time. */
    method NotifyDying()
      modifies `jobsSemaphore
      ensures State() == Release(old(State()), threadCount)
      ensures jobsSemaphore == old(jobsSemaphore) + threadCount
    {
      for i := 0 to threadCount
        invariant State() == Release(old(State()), i)
      {
        jobsSemaphore := jobsSemaphore + 1;
      }
    }

    method TransitionState(next: Lifecycle) returns (previous: Lifecycle)
      modifies `currentState
      ensures previous == old(currentState) && State() == MoveTo(old(State()), next)
      ensures currentState == if previous == Dying || (previous == Connected && next == Unconnected)
                              then previous else next
    {
      previous := currentState;
      currentState := Transition(currentState, next);
    }
  }

  /** What is scheduled last is popped next, and the jobs are then as before. */
  method ScheduleThenPop(connection: ServerConnection, job: Job) returns (next: Option<Job>)
    modifies connection`jobs, connection`jobsSemaphore
    ensures next == Some(job) && connection.jobs == old(connection.jobs)
    ensures connection.jobsSemaphore == old(connection.jobsSemaphore) + 1
  {
    connection.ScheduleJob(job);
    next := connection.PopJob();
  }

  // ---------------------------------------------------------------- the class does these steps

  /** The pool while nobody else moves: `n` of the releases of `notify_dying`. */
  function Posted(p: Pool, n: nat): (q: Pool)
    requires n <= p.posts
    ensures q.posts == p.posts - n
  {
    if n == 0 then p else After(Posted(p, n - 1), Post)
  }

  lemma {:induction false} PostsAddUp(p: Pool, n: nat)
    requires n <= p.posts
    ensures Posted(p, n) == p.(shared := Release(p.shared, n), posts := p.posts - n)
    decreases n
  {
    if n > 0 { PostsAddUp(p, n - 1); }
  }

  /**
   The shared state after the steps of the interleaving model, one after the other, is what
   the methods of the class leave: `pop_job`, `schedule_job` and `notify_dying`.
   */
  lemma StepsFollowConnection(p: Pool, t: nat, job: Job)
    ensures CanAdvance(p, t) && p.threads[t].Popping? ==>
              Advanced(p, t).shared == if p.shared.jobs == [] then p.shared else Pop(p.shared)
    ensures CanAdvance(p, t) && p.threads[t].Popping? && p.shared.jobs != [] ==>
              Advanced(p, t).threads[t] == Running(Top(p.shared))
    ensures !p.pushing ==>
              After(After(p, PushJob(job)), PushRelease).shared == Release(Push(p.shared, job), 1)
    ensures p.shared.life == Dying && p.posts == 0 ==>
              Posted(After(p, NotifyDying), |p.threads|).shared == Release(p.shared, |p.threads|)
  {
    if p.shared.life == Dying && p.posts == 0 { PostsAddUp(After(p, NotifyDying), |p.threads|); }
  }
}
