/**
 What a lost message costs: the server never sends a job again, so the job waits until its
 worker leaves or is dismissed.
 */
module Losses {
  import opened Commands
  import opened Names
  import opened Dispatch
  import opened Cluster
  import opened Accounting
  import opened Invariants
  import opened Preservation
  import Heartbeats

  /** Assigned to a registered worker, but neither sent to it, held by it nor answered by it. */
  predicate Lost(c: System, w: Identity, job: Job) {
    && w in c.server.queues && w in c.pending
    && job in c.server.queues[w].work && job !in c.pending[w].All()
  }

  /** An assigned job is not queued as well, and not done. */
  lemma AssignedOnly(setup: Setup, c: System, w: Identity, job: Job)
    requires Servable(setup) && Conserved(setup, c)
    requires w in c.server.queues && job in c.server.queues[w].work
    ensures job !in c.server.enqueued && job !in c.done
  {
    PhaseOnePerFile(setup, c.phase);
    AllWorkSplit(c.server.queues, w);
    assert job in multiset(c.server.queues[w].work);
    assert (Outstanding(c.server) + c.done)[job] <= 1;
    assert multiset(c.server.enqueued)[job] == 0;
  }

  lemma HandKeepsLost(setup: Setup, c: System, v: Identity, w: Identity, job: Job)
    requires Servable(setup) && Conserved(setup, c) && Lost(c, w, job)
    requires v in c.server.queues && v in c.pending
    ensures Lost(Hand(c, v), w, job)
  {
    AssignedOnly(setup, c, w, job);
    HandMoves(c, v);
    if v == w {
      assert job !in Taken(c.server, w);
      assert job !in multiset(Taken(c.server, w));
    }
  }

  lemma {:induction false} ServeEachKeepsLost(setup: Setup, c: System, order: seq<Identity>,
                                              w: Identity, job: Job)
    requires Servable(setup) && Core(setup, c) && Lost(c, w, job)
    requires forall v | v in order :: v in c.server.queues && v in c.pending
    ensures Lost(ServeEach(c, order), w, job)
    decreases |order|
  {
    if order != [] && c.server.enqueued != [] {
      HandKeepsLost(setup, c, order[0], w, job);
      HandKeepsCore(setup, c, order[0]);
      ServeEachKeepsLost(setup, Hand(c, order[0]), order[1..], w, job);
    }
  }

  lemma SettleKeepsLost(setup: Setup, c: System, v: Identity, answered: Job, result: JobResult,
                        w: Identity, job: Job)
    requires Servable(setup) && Core(setup, c) && Lost(c, w, job) && Fits(answered, result)
    requires v in c.server.queues && answered in c.pending[v].answered
    ensures Lost(Settled(c, v, answered, result), w, job)
  {
    SettleWork(setup, c, v, answered, result);
    if v == w {
      assert answered in c.pending[w].All();
      assert job in multiset(c.server.queues[w].work) - multiset{answered};
    }
  }

  lemma RefillKeepsLost(setup: Setup, c: System, v: Identity, answered: Job, result: JobResult,
                        w: Identity, job: Job)
    requires Servable(setup) && Core(setup, c) && Lost(c, w, job) && Fits(answered, result)
    requires v in c.server.queues && answered in c.pending[v].answered
    ensures Lost(HandIfAny(Settled(c, v, answered, result), v), w, job)
  {
    SettleKeepsLost(setup, c, v, answered, result, w, job);
    SettleConserves(setup, c, v, answered, result);
    HandKeepsLost(setup, Settled(c, v, answered, result), v, w, job);
  }

  lemma ResultKeepsLost(setup: Setup, c: System, v: Identity, answered: Job, result: JobResult,
                        w: Identity, job: Job)
    requires Servable(setup) && Core(setup, c) && Lost(c, w, job)
    requires Enabled(setup, c, Return(v, answered, result)) && v in c.server.queues
    ensures Lost(After(setup, c, Return(v, answered, result)), w, job)
  {
    AnsweredIsOutstanding(setup, c, v, answered);
    RegisteredReturn(setup, c, v, answered, result);
    StoreFrame(c, v, result);
    CoreIgnoresBooks(setup, c, Store(c, v, result));
    RefillKeepsLost(setup, Store(c, v, result), v, answered, result, w, job);
  }

  lemma ReturnKeepsLost(setup: Setup, c: System, v: Identity, answered: Job, result: JobResult,
                        w: Identity, job: Job)
    requires Servable(setup) && Core(setup, c) && Lost(c, w, job)
    requires Enabled(setup, c, Return(v, answered, result))
    ensures Lost(After(setup, c, Return(v, answered, result)), w, job)
  {
    if v in c.server.queues {
      ResultKeepsLost(setup, c, v, answered, result, w, job);
    } else {
      LateReturn(setup, c, v, answered, result);
    }
  }

  lemma ServeKeepsLost(setup: Setup, c: System, w: Identity, job: Job)
    requires Servable(setup) && Core(setup, c) && Lost(c, w, job) && Enabled(setup, c, ServeWorkers)
    ensures Lost(After(setup, c, ServeWorkers), w, job)
  {
    InOrderElements(c.server.queues.Keys);
    ServeEachKeepsLost(setup, c, InOrder(c.server.queues.Keys), w, job);
  }

  lemma CheckKeepsLost(setup: Setup, c: System, clock: Clock, end: int, w: Identity, job: Job)
    requires Enabled(setup, c, CheckHeartbeats(clock, end)) && Lost(c, w, job)
    requires w in After(setup, c, CheckHeartbeats(clock, end)).server.queues
    ensures Lost(After(setup, c, CheckHeartbeats(clock, end)), w, job)
  {
    Heartbeats.PassQueues(c.server, clock, w);
  }

  /** An assigned job's result is still missing. */
  lemma UnfinishedWhileAssigned(setup: Setup, c: System, w: Identity, job: Job)
    requires Servable(setup) && Conserved(setup, c)
    requires w in c.server.queues && job in c.server.queues[w].work
    ensures |c.done| < |setup.files|
  {
    PhaseOnePerFile(setup, c.phase);
    WorkIsOutstanding(c.server, w);
    assert job in multiset(c.server.queues[w].work);
    assert job in Outstanding(c.server);
    assert |Outstanding(c.server) + c.done| == |Outstanding(c.server)| + |c.done|;
  }

  lemma NoSwitchWhileLost(setup: Setup, c: System, w: Identity, job: Job)
    requires Servable(setup) && Conserved(setup, c) && Recorded(setup, c) && Lost(c, w, job)
    ensures !Enabled(setup, c, SwitchPhases)
  {
    UnfinishedWhileAssigned(setup, c, w, job);
  }

  /** From `c` to `c'` the job stays lost, unless its worker goes. */
  predicate StaysLost(c: System, c': System, w: Identity, job: Job) {
    Lost(c, w, job) && w in c'.server.queues ==> Lost(c', w, job)
  }

  /** No step gives a lost job another chance, save one that removes its worker. */
  lemma LostStays(setup: Setup, c: System, step: Step, w: Identity, job: Job)
    requires Servable(setup) && Invariant(setup, c) && Enabled(setup, c, step)
    ensures StaysLost(c, After(setup, c, step), w, job)
  {
    if Lost(c, w, job) && w in After(setup, c, step).server.queues {
      if step.Return? {
        ReturnKeepsLost(setup, c, step.w, step.job, step.result, w, job);
      } else if step.ServeWorkers? {
        ServeKeepsLost(setup, c, w, job);
      } else if step.CheckHeartbeats? {
        CheckKeepsLost(setup, c, step.clock, step.end, w, job);
      } else {
        NoSwitchWhileLost(setup, c, w, job);
        SmallStepKeepsLost(setup, c, step, w, job);
      }
    }
  }

  lemma SmallStepKeepsLost(setup: Setup, c: System, step: Step, w: Identity, job: Job)
    requires Enabled(setup, c, step) && Lost(c, w, job) && w in After(setup, c, step).server.queues
    requires !step.Return? && !step.ServeWorkers? && !step.CheckHeartbeats? && !step.SwitchPhases?
    ensures Lost(After(setup, c, step), w, job)
  {
  }

  lemma LostJobIsMissing(setup: Setup, c: System, w: Identity, job: Job)
    requires Servable(setup) && Conserved(setup, c) && Lost(c, w, job)
    ensures job !in c.done && c.done != PhaseTotal(setup, c.phase)
  {
    AssignedOnly(setup, c, w, job);
    WorkIsOutstanding(c.server, w);
    assert job in multiset(c.server.queues[w].work);
    assert job in Outstanding(c.server) && job in PhaseTotal(setup, c.phase);
  }

  lemma StepStaysLost(setup: Setup, states: seq<System>, steps: seq<Step>, n: nat, w: Identity, job: Job)
    requires Run(setup, states, steps) && n < |steps|
    ensures StaysLost(states[n], states[n + 1], w, job)
  {
    RunStep(setup, states, steps, n);
    LostStays(setup, states[n], steps[n], w, job);
  }

  lemma {:induction false} LostThroughout(states: seq<System>, i: nat, k: nat, w: Identity, job: Job)
    requires i <= k < |states| && Lost(states[i], w, job)
    requires forall n | i <= n < k :: StaysLost(states[n], states[n + 1], w, job)
    requires forall n | i <= n <= k :: w in states[n].server.queues
    ensures Lost(states[k], w, job)
    decreases k
  {
    if i < k {
      LostThroughout(states, i, k - 1, w, job);
      assert StaysLost(states[k - 1], states[k - 1 + 1], w, job);
    }
  }

  /**
   In every run: as long as the worker of a lost job stays registered, the job stays lost and
   the phase cannot be completed.
   */
  lemma LostJobWaitsForDeparture(setup: Setup, states: seq<System>, steps: seq<Step>,
                                 i: nat, k: nat, w: Identity, job: Job)
    requires Run(setup, states, steps) && i <= k < |states| && Lost(states[i], w, job)
    requires forall n | i <= n <= k :: w in states[n].server.queues
    ensures Lost(states[k], w, job) && job !in states[k].done
    ensures states[k].done != multiset(PhaseJobs(setup, states[k].phase))
  {
    forall n | i <= n < k
      ensures StaysLost(states[n], states[n + 1], w, job)
    {
      StepStaysLost(setup, states, steps, n, w, job);
    }
    LostThroughout(states, i, k, w, job);
    RunKeeps(setup, states, steps, k);
    LostJobIsMissing(setup, states[k], w, job);
  }

  // ---------------------------------------------------------------- the first phase

  lemma AnalysingStep(setup: Setup, c: System, step: Step, w: Identity, job: Job)
    requires Servable(setup) && Invariant(setup, c) && Enabled(setup, c, step)
    requires c.phase == Analysing && Lost(c, w, job) && step != Leave(w)
    ensures After(setup, c, step).phase == Analysing && Lost(After(setup, c, step), w, job)
  {
    NoSwitchWhileLost(setup, c, w, job);
    Heartbeats.StepFields(setup, c, step, w);
    assert Heartbeats.Registered(c, w);
    assert w in After(setup, c, step).server.queues;
    LostStays(setup, c, step, w, job);
    PhaseKept(setup, c, step);
  }

  lemma PhaseKept(setup: Setup, c: System, step: Step)
    requires Enabled(setup, c, step) && !step.SwitchPhases? && !step.ServeWorkers? && !step.Finish?
    ensures After(setup, c, step).phase == c.phase
  {
  }

  predicate Stuck(c: System, w: Identity, job: Job) {
    c.phase == Analysing && Lost(c, w, job)
  }

  predicate StuckStays(c: System, c': System, step: Step, w: Identity, job: Job) {
    Stuck(c, w, job) && !(step.Leave? && step.w == w) ==> Stuck(c', w, job)
  }

  lemma StepStaysStuck(setup: Setup, states: seq<System>, steps: seq<Step>, n: nat, w: Identity, job: Job)
    requires Run(setup, states, steps) && n < |steps|
    ensures StuckStays(states[n], states[n + 1], steps[n], w, job)
  {
    RunStep(setup, states, steps, n);
    if Stuck(states[n], w, job) && steps[n] != Leave(w) {
      AnalysingStep(setup, states[n], steps[n], w, job);
    }
  }

  lemma {:induction false} StuckThroughout(states: seq<System>, steps: seq<Step>, i: nat, k: nat,
                                           w: Identity, job: Job)
    requires |states| == |steps| + 1 && i <= k <= |steps| && Stuck(states[i], w, job)
    requires forall n | i <= n < k :: StuckStays(states[n], states[n + 1], steps[n], w, job)
    requires forall n | i <= n < k :: steps[n] != Leave(w)
    ensures Stuck(states[k], w, job)
    decreases k
  {
    if i < k {
      StuckThroughout(states, steps, i, k - 1, w, job);
      assert StuckStays(states[k - 1], states[k - 1 + 1], steps[k - 1], w, job);
    }
  }

  /**
   `receive_histograms` never looks at heartbeats, so in the first phase only a BYE, which no
   worker sends, can bring a lost job back: without one the phase lasts for ever.
   */
  lemma FirstPhaseNeverRecovers(setup: Setup, states: seq<System>, steps: seq<Step>, i: nat, k: nat,
                                w: Identity, job: Job)
    requires Run(setup, states, steps) && i <= k < |states|
    requires states[i].phase == Analysing && Lost(states[i], w, job)
    requires forall n | i <= n < k :: steps[n] != Leave(w)
    ensures states[k].phase == Analysing && Lost(states[k], w, job)
  {
    forall n | i <= n < k
      ensures StuckStays(states[n], states[n + 1], steps[n], w, job)
    {
      StepStaysStuck(setup, states, steps, n, w, job);
    }
    StuckThroughout(states, steps, i, k, w, job);
  }

  // ---------------------------------------------------------------- it does happen

  lemma FirstJobHandedOut(setup: Setup)
    requires Servable(setup)
    ensures var c := After(setup, Start(setup), Join("w", 1));
            && "w" in c.server.queues && "w" in c.pending
            && c.server.queues["w"].work == [HistogramJob(setup.files[0])]
  {
    var entered := Enter(Start(setup), "w", 1).server;
    var taken := Taken(entered, "w");
    assert entered.enqueued[0] == HistogramJob(setup.files[0]);
    assert taken == [HistogramJob(setup.files[0])];
    assert [] + taken == taken;
  }

  /** A worker that joins and loses its one message: a run like that exists for any directory. */
  lemma AMessageCanBeLost(setup: Setup)
    requires Servable(setup)
    ensures exists states, steps :: Run(setup, states, steps) && |steps| == 2
              && Lost(states[2], "w", HistogramJob(setup.files[0]))
  {
    var nothing := Pending(multiset{}, multiset{}, multiset{});
    var start := Start(setup);
    FirstJobHandedOut(setup);
    var joined := After(setup, start, Join("w", 1));
    var lost := After(setup, joined, Lose("w", nothing));
    var states, steps := [start, joined, lost], [Join("w", 1), Lose("w", nothing)];
    assert Lost(lost, "w", HistogramJob(setup.files[0])) by {
      assert nothing.All() == multiset{};
      assert lost.pending["w"] == nothing && lost.server == joined.server;
    }
    TwoSteps(setup, states, steps);
  }

  lemma TwoSteps(setup: Setup, states: seq<System>, steps: seq<Step>)
    requires Servable(setup) && |states| == 3 && |steps| == 2 && states[0] == Start(setup)
    requires Enabled(setup, states[0], steps[0]) && states[1] == After(setup, states[0], steps[0])
    requires Enabled(setup, states[1], steps[1]) && states[2] == After(setup, states[1], steps[1])
    ensures Run(setup, states, steps)
  {
    forall i | 0 <= i < |steps|
      ensures Enabled(setup, states[i], steps[i]) && states[i + 1] == After(setup, states[i], steps[i])
    {
      if i != 0 { assert i == 1; }
    }
  }
}
