/**
 Completion: how much work a run can still hold, and exactly when an unfinished phase has no
 step left that would move it on.
 */
module Progress {
  import opened Config
  import opened Commands
  import opened Names
  import opened Dispatch
  import opened Cluster
  import opened Accounting
  import opened Invariants
  import opened Preservation
  import opened Guarantees
  import opened Losses

  /** A message delivered, a job computed, a result received. */
  predicate WorkStep(step: Step) {
    step.Deliver? || step.Compute? || step.Return?
  }

  function Weight(p: Pending): nat {
    3 * |p.sent| + 2 * |p.held| + |p.answered|
  }

  ghost function Load(pending: map<Identity, Pending>): nat
    decreases |pending.Keys|
  {
    if pending == map[] then 0
    else
      var w := Pick(pending);
      assert (pending - {w}).Keys == pending.Keys - {w};
      Weight(pending[w]) + Load(pending - {w})
  }

  lemma {:induction false} LoadSplit(pending: map<Identity, Pending>, w: Identity)
    requires w in pending
    ensures Load(pending) == Weight(pending[w]) + Load(pending - {w})
    decreases |pending.Keys|
  {
    var p := Pick(pending);
    if p != w {
      assert (pending - {p}).Keys == pending.Keys - {p};
      assert (pending - {w}).Keys == pending.Keys - {w};
      LoadSplit(pending - {p}, w);
      LoadSplit(pending - {w}, p);
      assert pending - {p} - {w} == pending - {w} - {p};
    }
  }

  lemma LoadUpdate(pending: map<Identity, Pending>, w: Identity, p: Pending)
    requires w in pending
    ensures Load(pending[w := p]) + Weight(pending[w]) == Load(pending) + Weight(p)
  {
    LoadSplit(pending, w);
    LoadSplit(pending[w := p], w);
    assert pending[w := p] - {w} == pending - {w};
  }

  /** The work a system still has to do: three stages for a queued job or one in a message, fewer further on. */
  ghost function Remaining(c: System): nat {
    3 * |c.server.enqueued| + Load(c.pending)
  }

  lemma HandLightens(c: System, w: Identity)
    requires w in c.server.queues && w in c.pending
    ensures Remaining(Hand(c, w)) <= Remaining(c)
  {
    var taken := Taken(c.server, w);
    LoadUpdate(c.pending, w, Hand(c, w).pending[w]);
    assert |multiset(taken)| == |taken|;
  }

  lemma ReturnLightens(setup: Setup, c: System, w: Identity, job: Job, result: JobResult)
    requires Enabled(setup, c, Return(w, job, result))
    ensures Remaining(After(setup, c, Return(w, job, result))) < Remaining(c)
  {
    var c1 := TakeAnswer(c, w, job);
    LoadUpdate(c.pending, w, c1.pending[w]);
    assert Remaining(c1) < Remaining(c);
    if Expected(c.phase, job) { ReceiveLightens(c1, w, job, result); }
  }

  lemma ReceiveLightens(c: System, w: Identity, job: Job, result: JobResult)
    requires w in c.pending
    ensures var c2 := Store(c, w, result);
            Remaining(if w !in c2.server.queues then c2 else HandIfAny(Settle(c2, w, job, result), w))
            <= Remaining(c)
  {
    var c2 := Store(c, w, result);
    assert Remaining(c2) == Remaining(c);
    if w in c2.server.queues {
      var c3 := Settle(c2, w, job, result);
      assert Remaining(c3) == Remaining(c2);
      if c3.server.enqueued != [] { HandLightens(c3, w); }
    }
  }

  lemma WorkStepLightens(setup: Setup, c: System, step: Step)
    requires Enabled(setup, c, step) && WorkStep(step)
    ensures Remaining(After(setup, c, step)) < Remaining(c)
  {
    if step.Return? {
      ReturnLightens(setup, c, step.w, step.job, step.result);
    } else {
      LoadUpdate(c.pending, step.w, After(setup, c, step).pending[step.w]);
    }
  }

  lemma LoadEnter(pending: map<Identity, Pending>, w: Identity, p: Pending)
    requires w !in pending && Weight(p) == 0
    ensures Load(pending[w := p]) == Load(pending)
  {
    LoadSplit(pending[w := p], w);
    assert pending[w := p] - {w} == pending;
  }

  lemma JoinLightens(c: System, w: Identity, concurrency: nat)
    requires w !in c.pending
    ensures Remaining(Hand(Enter(c, w, concurrency), w)) <= Remaining(c)
  {
    LoadEnter(c.pending, w, Pending(multiset{}, multiset{}, multiset{}));
    assert Remaining(Enter(c, w, concurrency)) == Remaining(c);
    HandLightens(Enter(c, w, concurrency), w);
  }

  lemma Smaller(a: multiset<Job>, b: multiset<Job>)
    requires a <= b
    ensures |a| <= |b|
  {
    assert b == a + (b - a);
  }

  lemma LossLightens(c: System, w: Identity, left: Pending)
    requires w in c.pending && left.sent <= c.pending[w].sent
    requires left.held <= c.pending[w].held && left.answered <= c.pending[w].answered
    ensures Remaining(c.(pending := c.pending[w := left], lossless := false)) <= Remaining(c)
  {
    var p := c.pending[w];
    Smaller(left.sent, p.sent);
    Smaller(left.held, p.held);
    Smaller(left.answered, p.answered);
    LoadUpdate(c.pending, w, left);
  }

  lemma {:induction false} ServingLightens(c: System, order: seq<Identity>)
    requires forall w | w in order :: w in c.server.queues && w in c.pending
    ensures Remaining(ServeEach(c, order)) <= Remaining(c)
    decreases |order|
  {
    if order != [] && c.server.enqueued != [] {
      HandLightens(c, order[0]);
      ServingLightens(Hand(c, order[0]), order[1..]);
    }
  }

  /** Jobs a step adds to the queue: planned, or returned by workers that are gone. */
  function Queued(c: System, c': System, step: Step): nat {
    if (step.Leave? || step.CheckHeartbeats? || step.SwitchPhases?)
       && |c'.server.enqueued| > |c.server.enqueued|
    then |c'.server.enqueued| - |c.server.enqueued| else 0
  }

  function Cost(step: Step): nat {
    if WorkStep(step) then 1 else 0
  }

  /** A step pays for itself out of what remains, unless it puts jobs into the queue. */
  lemma StepCosts(setup: Setup, c: System, step: Step)
    requires Enabled(setup, c, step)
    ensures var c' := After(setup, c, step);
            Cost(step) + Remaining(c') <= Remaining(c) + 3 * Queued(c, c', step)
  {
    if WorkStep(step) {
      WorkStepLightens(setup, c, step);
    } else {
      match step
      case Join(w, concurrency) => JoinLightens(c, w, concurrency);
      case Lose(w, left) => LossLightens(c, w, left);
      case ServeWorkers =>
        InOrderElements(c.server.queues.Keys);
        ServingLightens(c, InOrder(c.server.queues.Keys));
      case _ =>
    }
  }

  // ---------------------------------------------------------------- whole runs

  /** Work steps from the i-th to before the k-th. */
  function WorkSteps(steps: seq<Step>, i: nat, k: nat): nat
    requires i <= k <= |steps|
    decreases k
  {
    if i == k then 0 else WorkSteps(steps, i, k - 1) + Cost(steps[k - 1])
  }

  /** Jobs these steps add to the queue. */
  function QueuedBetween(states: seq<System>, steps: seq<Step>, i: nat, k: nat): nat
    requires |states| == |steps| + 1 && i <= k <= |steps|
    decreases k
  {
    if i == k then 0
    else QueuedBetween(states, steps, i, k - 1) + Queued(states[k - 1], states[k], steps[k - 1])
  }

  ghost predicate PaidFor(c: System, c': System, step: Step) {
    Cost(step) + Remaining(c') <= Remaining(c) + 3 * Queued(c, c', step)
  }

  lemma StepOfRunCosts(setup: Setup, states: seq<System>, steps: seq<Step>, n: nat)
    requires Run(setup, states, steps) && n < |steps|
    ensures PaidFor(states[n], states[n + 1], steps[n])
  {
    StepCosts(setup, states[n], steps[n]);
  }

  lemma {:induction false} PaymentsAddUp(states: seq<System>, steps: seq<Step>, i: nat, k: nat)
    requires |states| == |steps| + 1 && i <= k <= |steps|
    requires forall n | i <= n < k :: PaidFor(states[n], states[n + 1], steps[n])
    ensures WorkSteps(steps, i, k) + Remaining(states[k])
         <= Remaining(states[i]) + 3 * QueuedBetween(states, steps, i, k)
    decreases k
  {
    if i < k {
      PaymentsAddUp(states, steps, i, k - 1);
      assert PaidFor(states[k - 1], states[k - 1 + 1], steps[k - 1]);
    }
  }

  /**
   Between any two states of any run: the work steps taken, and all that can follow, come out
   of what remained and what was put into the queue meanwhile.
   */
  lemma WorkIsPaidFor(setup: Setup, states: seq<System>, steps: seq<Step>, i: nat, k: nat)
    requires Run(setup, states, steps) && i <= k <= |steps|
    ensures WorkSteps(steps, i, k) + Remaining(states[k])
         <= Remaining(states[i]) + 3 * QueuedBetween(states, steps, i, k)
  {
    forall n | i <= n < k
      ensures PaidFor(states[n], states[n + 1], steps[n])
    {
      StepOfRunCosts(setup, states, steps, n);
    }
    PaymentsAddUp(states, steps, i, k);
  }

  // ---------------------------------------------------------------- what can be queued

  /** Workers that go in a step. */
  function Departing(c: System, step: Step): nat {
    match step
    case Leave(_) => 1
    case CheckHeartbeats(clock, _) => |ExpiredWorkers(c.server, clock)|
    case _ => 0
  }

  function Departures(states: seq<System>, steps: seq<Step>, i: nat, k: nat): nat
    requires |states| == |steps| + 1 && i <= k <= |steps|
    decreases k
  {
    if i == k then 0 else Departures(states, steps, i, k - 1) + Departing(states[k - 1], steps[k - 1])
  }

  /** The plan that is still to come. */
  function Unplanned(setup: Setup, c: System): nat {
    if c.phase == Analysing then |setup.files| else 0
  }

  lemma {:induction false} ReverseLength(work: seq<Job>)
    ensures |Reverse(work)| == |work|
    decreases |work|
  {
    if work != [] { ReverseLength(work[..|work| - 1]); }
  }

  lemma {:induction false} DismissalsQueue(s: ServerState, order: seq<Identity>)
    requires Bounded(s)
    ensures |DismissEach(s, order).enqueued| <= |s.enqueued| + MAX_WORKER_QUEUE * |order|
    decreases |order|
  {
    if order != [] {
      assert Bounded(Dismiss(s, order[0]));
      DismissalsQueue(Dismiss(s, order[0]), order[1..]);
      assert |order| == 1 + |order[1..]|;
    }
  }

  lemma PassQueuesAtMost(s: ServerState, clock: Clock)
    requires Bounded(s)
    ensures |HeartbeatPass(s, clock).enqueued|
         <= |s.enqueued| + MAX_WORKER_QUEUE * |ExpiredWorkers(s, clock)|
  {
    InOrderElements(ExpiredWorkers(s, clock));
    assert Bounded(RefreshAll(s, clock));
    DismissalsQueue(RefreshAll(s, clock), InOrder(ExpiredWorkers(s, clock)));
  }

  lemma SwitchQueues(setup: Setup, c: System)
    requires Servable(setup) && Invariant(setup, c) && Enabled(setup, c, SwitchPhases)
    ensures |After(setup, c, SwitchPhases).server.enqueued| <= |c.server.enqueued| + |setup.files|
  {
    AnalysisIsComplete(setup, c);
    PlanFollowsNames(setup);
  }

  ghost predicate Accounted(setup: Setup, c: System, c': System, step: Step) {
    Queued(c, c', step) + Unplanned(setup, c') <= Unplanned(setup, c) + MAX_WORKER_QUEUE * Departing(c, step)
  }

  lemma LeaveQueues(setup: Setup, c: System, w: Identity)
    requires Bounded(c.server) && Enabled(setup, c, Leave(w))
    ensures Accounted(setup, c, After(setup, c, Leave(w)), Leave(w))
  {
    ReverseLength(c.server.queues[w].work);
  }

  lemma CheckQueues(setup: Setup, c: System, clock: Clock, end: int)
    requires Bounded(c.server) && Enabled(setup, c, CheckHeartbeats(clock, end))
    ensures Accounted(setup, c, After(setup, c, CheckHeartbeats(clock, end)), CheckHeartbeats(clock, end))
  {
    PassQueuesAtMost(c.server, clock);
  }

  lemma SwitchQueuesPlan(setup: Setup, c: System)
    requires Servable(setup) && Invariant(setup, c) && Enabled(setup, c, SwitchPhases)
    ensures Accounted(setup, c, After(setup, c, SwitchPhases), SwitchPhases)
  {
    SwitchQueues(setup, c);
  }

  lemma OthersQueueNothing(setup: Setup, c: System, step: Step)
    requires Enabled(setup, c, step) && !step.Leave? && !step.CheckHeartbeats? && !step.SwitchPhases?
    ensures Accounted(setup, c, After(setup, c, step), step)
  {
    if !step.Compute? { ComputedFrame(setup, c, step); }
  }

  /** The plan adds one job per file, once, and a departure at most what a worker can have. */
  lemma QueuedIsBounded(setup: Setup, c: System, step: Step)
    requires Servable(setup) && Invariant(setup, c) && Enabled(setup, c, step)
    ensures Accounted(setup, c, After(setup, c, step), step)
  {
    match step
    case Leave(w) => LeaveQueues(setup, c, w);
    case CheckHeartbeats(clock, end) => CheckQueues(setup, c, clock, end);
    case SwitchPhases => SwitchQueuesPlan(setup, c);
    case _ => OthersQueueNothing(setup, c, step);
  }

  lemma {:induction false} AccountsAddUp(setup: Setup, states: seq<System>, steps: seq<Step>, i: nat, k: nat)
    requires |states| == |steps| + 1 && i <= k <= |steps|
    requires forall n | i <= n < k :: Accounted(setup, states[n], states[n + 1], steps[n])
    ensures QueuedBetween(states, steps, i, k) + Unplanned(setup, states[k])
         <= Unplanned(setup, states[i]) + MAX_WORKER_QUEUE * Departures(states, steps, i, k)
    decreases k
  {
    if i < k {
      AccountsAddUp(setup, states, steps, i, k - 1);
      assert Accounted(setup, states[k - 1], states[k - 1 + 1], steps[k - 1]);
    }
  }

  lemma QueuedOverall(setup: Setup, states: seq<System>, steps: seq<Step>)
    requires Run(setup, states, steps)
    ensures QueuedBetween(states, steps, 0, |steps|)
         <= |setup.files| + MAX_WORKER_QUEUE * Departures(states, steps, 0, |steps|)
  {
    forall n | 0 <= n < |steps|
      ensures Accounted(setup, states[n], states[n + 1], steps[n])
    {
      RunStep(setup, states, steps, n);
      QueuedIsBounded(setup, states[n], steps[n]);
    }
    AccountsAddUp(setup, states, steps, 0, |steps|);
    assert states[0].phase == Analysing;
  }

  /**
   So a run has at most three work steps for each file and phase, and for each job a departing
   worker can have had.
   */
  lemma WorkIsBounded(setup: Setup, states: seq<System>, steps: seq<Step>)
    requires Run(setup, states, steps)
    ensures WorkSteps(steps, 0, |steps|) <= 6 * |setup.files| + 96 * Departures(states, steps, 0, |steps|)
  {
    WorkIsPaidFor(setup, states, steps, 0, |steps|);
    QueuedOverall(setup, states, steps);
    assert Remaining(Start(setup)) == 3 * |setup.files|;
  }

  // ---------------------------------------------------------------- stretches without departures

  /** Nobody leaves, is dismissed, and the phases are not switched. */
  predicate Uneventful(c: System, step: Step) {
    !step.Leave? && !step.SwitchPhases?
    && (step.CheckHeartbeats? ==> ExpiredWorkers(c.server, step.clock) == {})
  }

  lemma UneventfulQueuesNothing(setup: Setup, states: seq<System>, steps: seq<Step>, n: nat)
    requires Run(setup, states, steps) && n < |steps| && Uneventful(states[n], steps[n])
    ensures Queued(states[n], states[n + 1], steps[n]) == 0
  {
    if steps[n].CheckHeartbeats? { NoneExpired(states[n].server, steps[n].clock); }
  }

  lemma {:induction false} NothingQueued(states: seq<System>, steps: seq<Step>, i: nat, k: nat)
    requires |states| == |steps| + 1 && i <= k <= |steps|
    requires forall n | i <= n < k :: Queued(states[n], states[n + 1], steps[n]) == 0
    ensures QueuedBetween(states, steps, i, k) == 0
    decreases k
  {
    if i < k {
      NothingQueued(states, steps, i, k - 1);
      assert Queued(states[k - 1], states[k - 1 + 1], steps[k - 1]) == 0;
    }
  }

  /**
   In a stretch of a run without departures, whatever else happens in it, work steps lower
   what remains and nothing raises it.
   */
  lemma UneventfulWorkEnds(setup: Setup, states: seq<System>, steps: seq<Step>, i: nat, k: nat)
    requires Run(setup, states, steps) && i <= k <= |steps|
    requires forall n | i <= n < k :: Uneventful(states[n], steps[n])
    ensures WorkSteps(steps, i, k) + Remaining(states[k]) <= Remaining(states[i])
  {
    forall n | i <= n < k
      ensures Queued(states[n], states[n + 1], steps[n]) == 0
    {
      UneventfulQueuesNothing(setup, states, steps, n);
    }
    NothingQueued(states, steps, i, k);
    WorkIsPaidFor(setup, states, steps, i, k);
  }

  // ---------------------------------------------------------------- never stuck

  /** A work step of a worker that is still registered. */
  predicate Useful(c: System, step: Step) {
    WorkStep(step) && step.w in c.server.queues
  }

  ghost predicate Quiescent(setup: Setup, c: System) {
    forall step | Useful(c, step) :: !Enabled(setup, c, step)
  }

  /** A job under way for a registered worker can go on. */
  lemma UnderWayMoves(setup: Setup, c: System, w: Identity, job: Job)
    requires Recorded(setup, c) && Truthful(setup, c) && (c.phase == Analysing || c.phase == Equalising)
    requires |c.done| < |setup.files|
    requires w in c.server.queues && w in c.pending && job in c.pending[w].All()
    ensures exists step :: Useful(c, step) && Enabled(setup, c, step)
  {
    var p := c.pending[w];
    var step;
    if job in p.sent {
      step := Deliver(w, job);
    } else if job in p.held {
      step := Compute(w, job);
    } else {
      assert Backed(c, w, job);
      var result :| Computation(w, job, result) in c.computed;
      step := Return(w, job, result);
    }
    assert Useful(c, step) && Enabled(setup, c, step);
  }

  /** A useful step moves a job that is in the worker's list and under way. */
  lemma MovesAssigned(setup: Setup, c: System, step: Step)
    requires Contained(c) && Useful(c, step) && Enabled(setup, c, step)
    ensures Assigned(c, step.w, step.job) && !Lost(c, step.w, step.job)
  {
    var p := c.pending[step.w];
    assert step.job in p.All();
    assert p.All() <= multiset(c.server.queues[step.w].work);
    assert step.job in multiset(c.server.queues[step.w].work);
  }

  ghost predicate AllLost(c: System) {
    forall w, job | Assigned(c, w, job) :: Lost(c, w, job)
  }

  /** An unfinished phase is stuck exactly when every assigned job is lost. */
  lemma StuckExactlyWhenLost(setup: Setup, c: System)
    requires Servable(setup) && Invariant(setup, c) && Truthful(setup, c)
    requires (c.phase == Analysing || c.phase == Equalising) && |c.done| < |setup.files|
    ensures Quiescent(setup, c) <==> AllLost(c)
  {
    if AllLost(c) {
      forall step | Useful(c, step)
        ensures !Enabled(setup, c, step)
      {
        if Enabled(setup, c, step) { MovesAssigned(setup, c, step); }
      }
    } else {
      var w, job :| Assigned(c, w, job) && !Lost(c, w, job);
      UnderWayMoves(setup, c, w, job);
    }
  }

  /** Hence, with no assigned job lost, exactly when jobs are queued and nobody has one. */
  lemma StuckExactlyWhenStranded(setup: Setup, c: System)
    requires Servable(setup) && Invariant(setup, c) && Truthful(setup, c)
    requires (c.phase == Analysing || c.phase == Equalising) && |c.done| < |setup.files|
    requires forall w, job | Assigned(c, w, job) :: !Lost(c, w, job)
    ensures Quiescent(setup, c) <==> Stranded(c)
  {
    StuckExactlyWhenLost(setup, c);
    if Stranded(c) {
      assert AllLost(c);
    } else if AllLost(c) {
      NobodyHasWork(c);
      if c.server.enqueued == [] { SomeoneHasWork(setup, c); }
    }
  }

  lemma NobodyHasWork(c: System)
    requires AllLost(c) && forall w, job | Assigned(c, w, job) :: !Lost(c, w, job)
    ensures forall w | w in c.server.queues :: c.server.queues[w].work == []
  {
    forall w | w in c.server.queues
      ensures c.server.queues[w].work == []
    {
      if c.server.queues[w].work != [] { assert Assigned(c, w, c.server.queues[w].work[0]); }
    }
  }

  lemma CompleteMeansIdle(setup: Setup, c: System)
    requires Servable(setup) && Core(setup, c) && c.done == PhaseTotal(setup, c.phase)
    ensures !Stranded(c) && forall w, job :: !Assigned(c, w, job)
  {
    PhaseOnePerFile(setup, c.phase);
    PhaseIsOver(setup, c);
  }

  /**
   At every state of every run, after whatever losses, departures and late answers: where
   registered workers can move nothing, the phase is complete if and only if it is not
   stranded and no assigned job is lost.
   */
  lemma CompleteExactly(setup: Setup, states: seq<System>, steps: seq<Step>, i: nat)
    requires Run(setup, states, steps) && i < |states| && Quiescent(setup, states[i])
    requires states[i].phase == Analysing || states[i].phase == Equalising
    ensures states[i].done == multiset(PhaseJobs(setup, states[i].phase)) <==>
            !Stranded(states[i]) && forall w, job | Assigned(states[i], w, job) :: !Lost(states[i], w, job)
  {
    RunKeeps(setup, states, steps, i);
    QuiescentIsComplete(setup, states[i]);
  }

  lemma QuiescentIsComplete(setup: Setup, c: System)
    requires Servable(setup) && Invariant(setup, c) && Truthful(setup, c) && Quiescent(setup, c)
    requires c.phase == Analysing || c.phase == Equalising
    ensures c.done == PhaseTotal(setup, c.phase) <==>
            !Stranded(c) && forall w, job | Assigned(c, w, job) :: !Lost(c, w, job)
  {
    if c.done == PhaseTotal(setup, c.phase) {
      CompleteMeansIdle(setup, c);
    } else if forall w, job | Assigned(c, w, job) :: !Lost(c, w, job) {
      if |c.done| >= |setup.files| { PhaseIsOver(setup, c); }
      StuckExactlyWhenStranded(setup, c);
    }
  }

  lemma NothingLost(c: System, w: Identity, job: Job)
    requires Reliable(c) && c.lossless && Assigned(c, w, job)
    ensures !Lost(c, w, job)
  {
    assert job in multiset(c.server.queues[w].work);
  }

  lemma SaturatedIsNotStranded(c: System)
    requires CanWork(c) && Saturated(c.server)
    ensures !Stranded(c)
  {
    var w :| w in c.server.queues && c.server.queues[w].concurrency > 0;
    assert c.server.queues[w].work == [] ==> Room(c.server.queues[w]) > 0;
  }

  /** Without losses and departures, and with a worker that can work, it is complete. */
  lemma QuietPhasesComplete(setup: Setup, states: seq<System>, steps: seq<Step>, i: nat)
    requires Run(setup, states, steps) && i < |states| && Quiescent(setup, states[i])
    requires states[i].phase == Analysing || states[i].phase == Equalising
    requires states[i].lossless && states[i].undisturbed && CanWork(states[i])
    ensures states[i].done == multiset(PhaseJobs(setup, states[i].phase))
  {
    RunKeeps(setup, states, steps, i);
    SaturatedIsNotStranded(states[i]);
    forall w, job | Assigned(states[i], w, job)
      ensures !Lost(states[i], w, job)
    {
      NothingLost(states[i], w, job);
    }
    CompleteExactly(setup, states, steps, i);
  }
}
