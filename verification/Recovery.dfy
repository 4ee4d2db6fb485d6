/**
 From which states the server can still be brought to its end, without anybody saying BYE and
 without losing anything more.
 */
module Recovery {
  import opened Commands
  import opened Names
  import opened Dispatch
  import opened Cluster
  import opened Invariants
  import opened Preservation
  import opened Guarantees
  import opened Losses
  import opened Progress
  import opened Heartbeats

  /** Nothing is lost and nobody says BYE. */
  predicate Gentle(step: Step) {
    !step.Leave? && !step.Lose?
  }

  /** From `c` these steps can be taken, one after another. */
  ghost predicate Goes(setup: Setup, c: System, more: seq<Step>)
    decreases |more|
  {
    more == []
    || (Gentle(more[0]) && Enabled(setup, c, more[0]) && Goes(setup, After(setup, c, more[0]), more[1..]))
  }

  ghost function End(setup: Setup, c: System, more: seq<Step>): System
    requires Goes(setup, c, more)
    decreases |more|
  {
    if more == [] then c else End(setup, After(setup, c, more[0]), more[1..])
  }

  ghost predicate CanFinish(setup: Setup, c: System) {
    exists more :: Goes(setup, c, more) && End(setup, c, more).phase == Finished
  }

  lemma FinishedFinishes(setup: Setup, c: System)
    requires c.phase == Finished
    ensures CanFinish(setup, c)
  {
    assert Goes(setup, c, []) && End(setup, c, []) == c;
  }

  lemma OneMore(setup: Setup, c: System, step: Step)
    requires Gentle(step) && Enabled(setup, c, step) && CanFinish(setup, After(setup, c, step))
    ensures CanFinish(setup, c)
  {
    var more :| Goes(setup, After(setup, c, step), more)
                && End(setup, After(setup, c, step), more).phase == Finished;
    var longer := [step] + more;
    assert longer[1..] == more;
    assert Goes(setup, c, longer) && End(setup, c, longer) == End(setup, After(setup, c, step), more);
  }

  // ---------------------------------------------------------------- the loss flag

  lemma {:induction false} ServingIgnoresLoss(c: System, order: seq<Identity>, lossless: bool)
    requires forall w | w in order :: w in c.server.queues && w in c.pending
    ensures ServeEach(c.(lossless := lossless), order) == ServeEach(c, order).(lossless := lossless)
    ensures ServeEach(c, order).lossless == c.lossless
    decreases |order|
  {
    if order != [] && c.server.enqueued != [] {
      assert Hand(c.(lossless := lossless), order[0]) == Hand(c, order[0]).(lossless := lossless);
      ServingIgnoresLoss(Hand(c, order[0]), order[1..], lossless);
    }
  }

  lemma RefillingIgnoresLoss(c: System, w: Identity, lossless: bool)
    requires w in c.server.queues && w in c.pending
    ensures HandIfAny(c.(lossless := lossless), w) == HandIfAny(c, w).(lossless := lossless)
    ensures HandIfAny(c, w).lossless == c.lossless
  {
  }

  lemma StoringIgnoresLoss(c: System, w: Identity, result: JobResult, lossless: bool)
    ensures Store(c.(lossless := lossless), w, result) == Store(c, w, result).(lossless := lossless)
    ensures Store(c, w, result).lossless == c.lossless
    ensures Store(c, w, result).server.queues == c.server.queues
    ensures Store(c, w, result).pending == c.pending
  {
  }

  lemma ReceivingIgnoresLoss(c: System, w: Identity, job: Job, result: JobResult, lossless: bool)
    requires w in c.pending && (job.HistogramJob? <==> result.HistogramResult?)
    ensures Receive(c.(lossless := lossless), w, job, result)
         == Receive(c, w, job, result).(lossless := lossless)
    ensures Receive(c, w, job, result).lossless == c.lossless
  {
    var c1 := TakeAnswer(c, w, job);
    assert TakeAnswer(c.(lossless := lossless), w, job) == c1.(lossless := lossless);
    if Expected(c.phase, job) {
      StoringIgnoresLoss(c1, w, result, lossless);
      if w in c.server.queues {
        var c2 := Settle(Store(c1, w, result), w, job, result);
        RefillingIgnoresLoss(c2, w, lossless);
      }
    }
  }

  /** What was lost before makes no difference to what a step does. */
  lemma StepIgnoresLoss(setup: Setup, c: System, step: Step, lossless: bool)
    requires Enabled(setup, c, step) && Gentle(step)
    ensures Enabled(setup, c.(lossless := lossless), step)
    ensures After(setup, c.(lossless := lossless), step) == After(setup, c, step).(lossless := lossless)
    ensures After(setup, c, step).lossless == c.lossless
  {
    match step
    case Return(w, job, result) => ReceivingIgnoresLoss(c, w, job, result, lossless);
    case ServeWorkers =>
      InOrderElements(c.server.queues.Keys);
      ServingIgnoresLoss(c, InOrder(c.server.queues.Keys), lossless);
    case _ =>
  }

  lemma {:induction false} PathIgnoresLoss(setup: Setup, c: System, more: seq<Step>, lossless: bool)
    requires Goes(setup, c, more)
    ensures Goes(setup, c.(lossless := lossless), more)
    ensures End(setup, c.(lossless := lossless), more).phase == End(setup, c, more).phase
    decreases |more|
  {
    if more != [] {
      StepIgnoresLoss(setup, c, more[0], lossless);
      PathIgnoresLoss(setup, After(setup, c, more[0]), more[1..], lossless);
    }
  }

  lemma FinishingIgnoresLoss(setup: Setup, c: System)
    requires CanFinish(setup, c.(lossless := true))
    ensures CanFinish(setup, c)
  {
    var c1 := c.(lossless := true);
    var more :| Goes(setup, c1, more) && End(setup, c1, more).phase == Finished;
    PathIgnoresLoss(setup, c1, more, c.lossless);
    assert c1.(lossless := c.lossless) == c;
  }

  // ---------------------------------------------------------------- with nothing lost

  lemma {:induction false} LongerThanAll(names: set<string>) returns (name: string)
    ensures forall x | x in names :: |x| < |name|
    decreases |names|
  {
    if names == {} {
      name := "";
    } else {
      var x :| x in names;
      name := LongerThanAll(names - {x});
      if |name| <= |x| { name := x + "w"; }
    }
  }

  function Rank(phase: Phase): nat {
    match phase
    case Analysing => 3
    case Serving => 2
    case Equalising => 1
    case Finished => 0
  }

  /** A new worker takes a job out of the queue. */
  lemma JoiningTakesOne(setup: Setup, c: System, w: Identity)
    requires Contained(c) && c.server.enqueued != [] && w !in c.pending
    ensures var c' := After(setup, c, Join(w, 1));
            && Remaining(c') <= Remaining(c) && |c'.server.enqueued| < |c.server.enqueued|
            && c'.phase == c.phase
  {
    EnterIsNew(c, w, 1);
    JoinLightens(c, w, 1);
    assert Room(Enter(c, w, 1).server.queues[w]) == 1;
  }

  lemma AnalysisEnds(setup: Setup, c: System)
    requires Recorded(setup, c) && |c.done| >= |setup.files| && c.phase == Analysing
    ensures Enabled(setup, c, SwitchPhases) && After(setup, c, SwitchPhases).phase == Serving
  {
  }

  lemma EqualisationEnds(setup: Setup, c: System)
    requires Recorded(setup, c) && |c.done| >= |setup.files| && c.phase == Equalising
    ensures Enabled(setup, c, Finish) && After(setup, c, Finish).phase == Finished
  {
  }

  lemma EndOfPhase(setup: Setup, c: System) returns (step: Step)
    requires Recorded(setup, c) && |c.done| >= |setup.files|
    requires c.phase == Analysing || c.phase == Equalising
    ensures Gentle(step) && Enabled(setup, c, step)
    ensures Rank(After(setup, c, step).phase) < Rank(c.phase)
  {
    if c.phase == Analysing {
      step := SwitchPhases;
      AnalysisEnds(setup, c);
    } else {
      step := Finish;
      EqualisationEnds(setup, c);
    }
  }

  ghost predicate Lighter(c: System, c': System) {
    && c'.phase == c.phase
    && (Remaining(c') < Remaining(c)
        || (Remaining(c') == Remaining(c) && |c'.server.enqueued| < |c.server.enqueued|))
  }

  lemma UsefulIsLighter(setup: Setup, c: System, step: Step)
    requires Useful(c, step) && Enabled(setup, c, step)
    ensures Gentle(step) && Lighter(c, After(setup, c, step))
  {
    WorkStepLightens(setup, c, step);
    PhaseKept(setup, c, step);
  }

  /** Where nobody has anything to move, a new worker takes a job. */
  lemma NewcomerIsLighter(setup: Setup, c: System) returns (step: Step)
    requires Servable(setup) && Invariant(setup, c) && Truthful(setup, c) && c.lossless
    requires (c.phase == Analysing || c.phase == Equalising) && |c.done| < |setup.files|
    requires Quiescent(setup, c)
    ensures Gentle(step) && Enabled(setup, c, step) && Lighter(c, After(setup, c, step))
  {
    forall w, job | Assigned(c, w, job)
      ensures !Lost(c, w, job)
    {
      NothingLost(c, w, job);
    }
    StuckExactlyWhenStranded(setup, c);
    var w := LongerThanAll(c.pending.Keys);
    JoiningTakesOne(setup, c, w);
    step := Join(w, 1);
  }

  /** In an unfinished phase a registered worker can move something, or a new one takes a job. */
  lemma NextMove(setup: Setup, c: System) returns (step: Step)
    requires Servable(setup) && Invariant(setup, c) && Truthful(setup, c) && c.lossless
    requires (c.phase == Analysing || c.phase == Equalising) && |c.done| < |setup.files|
    ensures Gentle(step) && Enabled(setup, c, step) && Lighter(c, After(setup, c, step))
  {
    if Quiescent(setup, c) {
      step := NewcomerIsLighter(setup, c);
    } else {
      step :| Useful(c, step) && Enabled(setup, c, step);
      UsefulIsLighter(setup, c, step);
    }
  }

  ghost predicate Closer(c: System, c': System) {
    Rank(c'.phase) < Rank(c.phase) || Lighter(c, c')
  }

  lemma ServingGoesOn(setup: Setup, c: System)
    requires Contained(c) && c.phase == Serving
    ensures Enabled(setup, c, ServeWorkers) && After(setup, c, ServeWorkers).phase == Equalising
  {
  }

  lemma CloserStep(setup: Setup, c: System) returns (step: Step)
    requires Servable(setup) && Invariant(setup, c) && Truthful(setup, c) && c.lossless && c.phase != Finished
    ensures Gentle(step) && Enabled(setup, c, step) && Closer(c, After(setup, c, step))
  {
    if c.phase == Serving {
      step := ServeWorkers;
      ServingGoesOn(setup, c);
    } else if |c.done| >= |setup.files| {
      step := EndOfPhase(setup, c);
    } else {
      step := NextMove(setup, c);
    }
  }

  /** As long as nothing is lost the end can be reached. */
  lemma {:induction false} LosslessFinishes(setup: Setup, c: System)
    requires Servable(setup) && Invariant(setup, c) && Truthful(setup, c) && c.lossless
    ensures CanFinish(setup, c)
    decreases Rank(c.phase), Remaining(c), |c.server.enqueued|
  {
    if c.phase == Finished {
      FinishedFinishes(setup, c);
    } else {
      var step := CloserStep(setup, c);
      StepKeeps(setup, c, step);
      StepIgnoresLoss(setup, c, step, true);
      LosslessFinishes(setup, After(setup, c, step));
      OneMore(setup, c, step);
    }
  }

  // ---------------------------------------------------------------- after losses

  /** Nothing that is assigned is lost: the same as if nothing had been lost ever. */
  lemma CoveredUnlessLost(setup: Setup, c: System)
    requires Servable(setup) && Invariant(setup, c) && forall w, job :: !Lost(c, w, job)
    ensures Invariant(setup, c.(lossless := true))
  {
    forall w | w in c.server.queues
      ensures w in c.pending && c.pending[w].All() == multiset(c.server.queues[w].work)
    {
      ListIsUnderWay(setup, c, w);
    }
    CoreIgnoresFlags(setup, c, c.(lossless := true));
    BooksUntouched(setup, c, c.(lossless := true));
  }

  lemma ListIsUnderWay(setup: Setup, c: System, w: Identity)
    requires Servable(setup) && Core(setup, c) && w in c.server.queues
    requires forall job :: !Lost(c, w, job)
    ensures w in c.pending && c.pending[w].All() == multiset(c.server.queues[w].work)
  {
    var work, under := multiset(c.server.queues[w].work), c.pending[w].All();
    WorkOnePerFile(setup, c, w);
    forall job
      ensures under[job] == work[job]
    {
      assert under[job] <= work[job] <= 1;
      if work[job] == 1 { assert !Lost(c, w, job); }
    }
  }

  lemma WorkOnePerFile(setup: Setup, c: System, w: Identity)
    requires Servable(setup) && Core(setup, c) && w in c.server.queues
    ensures forall job :: multiset(c.server.queues[w].work)[job] <= 1
  {
    PhaseOnePerFile(setup, c.phase);
    Accounting.WorkIsOutstanding(c.server, w);
    OnePerFileSubset(multiset(c.server.queues[w].work), PhaseTotal(setup, c.phase));
  }

  lemma UnlostFinishes(setup: Setup, c: System)
    requires Servable(setup) && Invariant(setup, c) && Truthful(setup, c) && forall w, job :: !Lost(c, w, job)
    ensures CanFinish(setup, c)
  {
    CoveredUnlessLost(setup, c);
    TruthIgnoresFlags(setup, c);
    LosslessFinishes(setup, c.(lossless := true));
    FinishingIgnoresLoss(setup, c);
  }

  lemma TruthIgnoresFlags(setup: Setup, c: System)
    requires Truthful(setup, c)
    ensures Truthful(setup, c.(lossless := true))
  {
    OthersKeepTruthful(setup, c, c.(lossless := true));
  }

  /** No request has been stamped in the future. */
  ghost predicate Stamped(c: System) {
    forall w | w in c.server.queues :: c.server.queues[w].lastHeartbeatRequest <= c.now
  }

  /** A pass that looks at every worker at time `t`. */
  function PassAt(c: System, t: int): Step {
    CheckHeartbeats(map w | w in c.server.queues :: Reading(t, t), t)
  }

  /** Every worker's request is older than six seconds or open since then. */
  lemma FirstPass(setup: Setup, c: System, w: Identity)
    requires c.phase == Equalising && Stamped(c)
    ensures var t := c.now + PATIENCE;
            && Enabled(setup, c, PassAt(c, t))
            && var c' := After(setup, c, PassAt(c, t));
               c'.phase == Equalising && c'.now == t
               && (w in c'.server.queues ==>
                     !c'.server.queues[w].heartbeatReplyReceived
                     && c'.server.queues[w].lastHeartbeatRequest == t)
  {
    var t := c.now + PATIENCE;
    Heartbeats.PassQueues(c.server, PassAt(c, t).clock, w);
    if w in c.server.queues { OverdueMeans(c.server.queues[w], t); }
  }

  /** Open requests of that age are the end of a worker. */
  lemma SecondPass(setup: Setup, c: System, w: Identity)
    requires c.phase == Equalising
    requires forall x | x in c.server.queues ::
               !c.server.queues[x].heartbeatReplyReceived && c.server.queues[x].lastHeartbeatRequest == c.now
    ensures var t := c.now + PATIENCE;
            && Enabled(setup, c, PassAt(c, t)) && w !in After(setup, c, PassAt(c, t)).server.queues
  {
    var t := c.now + PATIENCE;
    Heartbeats.PassQueues(c.server, PassAt(c, t).clock, w);
    if w in c.server.queues { OverdueMeans(c.server.queues[w], t); }
  }

  /** In the second phase two passes dismiss everybody, and with them what was lost. */
  lemma EqualisingFinishes(setup: Setup, c: System)
    requires Servable(setup) && Invariant(setup, c) && Truthful(setup, c)
    requires c.phase == Equalising && Stamped(c)
    ensures CanFinish(setup, c)
  {
    var first := PassAt(c, c.now + PATIENCE);
    FirstPass(setup, c, "");
    var c1 := After(setup, c, first);
    forall w | w in c1.server.queues
      ensures !c1.server.queues[w].heartbeatReplyReceived
      ensures c1.server.queues[w].lastHeartbeatRequest == c1.now
    {
      FirstPass(setup, c, w);
    }
    StepKeeps(setup, c, first);
    DeadlineFinishes(setup, c1);
    OneMore(setup, c, first);
  }

  lemma DeadlineFinishes(setup: Setup, c: System)
    requires Servable(setup) && Invariant(setup, c) && Truthful(setup, c) && c.phase == Equalising
    requires forall w | w in c.server.queues ::
               !c.server.queues[w].heartbeatReplyReceived && c.server.queues[w].lastHeartbeatRequest == c.now
    ensures CanFinish(setup, c)
  {
    var second := PassAt(c, c.now + PATIENCE);
    SecondPass(setup, c, "");
    var c1 := After(setup, c, second);
    forall w
      ensures w !in c1.server.queues
    {
      SecondPass(setup, c, w);
    }
    StepKeeps(setup, c, second);
    UnlostFinishes(setup, c1);
    OneMore(setup, c, second);
  }

  lemma ServingFinishes(setup: Setup, c: System)
    requires Servable(setup) && Invariant(setup, c) && Truthful(setup, c) && c.phase == Serving && Stamped(c)
    ensures CanFinish(setup, c)
  {
    var c1 := After(setup, c, ServeWorkers);
    StepKeeps(setup, c, ServeWorkers);
    InOrderElements(c.server.queues.Keys);
    forall w | w in c1.server.queues
      ensures c1.server.queues[w].lastHeartbeatRequest <= c1.now
    {
      ServeEachFields(c, InOrder(c.server.queues.Keys), w);
    }
    EqualisingFinishes(setup, c1);
    OneMore(setup, c, ServeWorkers);
  }

  // ---------------------------------------------------------------- every run

  lemma RunIsStamped(setup: Setup, states: seq<System>, steps: seq<Step>, i: nat)
    requires Run(setup, states, steps) && i < |states|
    ensures Stamped(states[i])
  {
    forall w | w in states[i].server.queues
      ensures states[i].server.queues[w].lastHeartbeatRequest <= states[i].now
    {
      RunIsTimed(setup, states, steps, w);
      assert Registered(states[i], w);
      var k := LastRequest(states, steps, i, w);
      TimeIsMonotone(states, steps, w, k + 1, i);
    }
  }

  /** A path from the last state of a run makes the run longer. */
  lemma {:induction false} Continue(setup: Setup, states: seq<System>, steps: seq<Step>, more: seq<Step>)
    returns (longer: seq<System>, taken: seq<Step>)
    requires Run(setup, states, steps) && Goes(setup, states[|steps|], more)
    ensures Run(setup, longer, taken) && states <= longer && taken == steps + more
    ensures longer[|taken|] == End(setup, states[|steps|], more)
    decreases |more|
  {
    if more == [] {
      longer, taken := states, steps;
    } else {
      var next := After(setup, states[|steps|], more[0]);
      Extend(setup, states, steps, more[0], next);
      longer, taken := Continue(setup, states + [next], steps + [more[0]], more[1..]);
      assert steps + [more[0]] + more[1..] == steps + more;
    }
  }

  lemma {:induction false} PathIsGentle(setup: Setup, c: System, more: seq<Step>, n: nat)
    requires Goes(setup, c, more) && n < |more|
    ensures Gentle(more[n])
    decreases |more|
  {
    if n > 0 { PathIsGentle(setup, After(setup, c, more[0]), more[1..], n - 1); }
  }

  /** The run can be continued to its end without a BYE and without a further loss. */
  ghost predicate Finishable(setup: Setup, states: seq<System>, steps: seq<Step>) {
    exists longer: seq<System>, taken: seq<Step> ::
      && Run(setup, longer, taken) && states <= longer && steps <= taken
      && longer[|taken|].phase == Finished && forall n | |steps| <= n < |taken| :: Gentle(taken[n])
  }

  lemma CanFinishExtends(setup: Setup, states: seq<System>, steps: seq<Step>)
    requires Run(setup, states, steps) && CanFinish(setup, states[|steps|])
    ensures Finishable(setup, states, steps)
  {
    var more :| Goes(setup, states[|steps|], more) && End(setup, states[|steps|], more).phase == Finished;
    var longer, taken := Continue(setup, states, steps, more);
    forall n | |steps| <= n < |taken|
      ensures Gentle(taken[n])
    {
      PathIsGentle(setup, states[|steps|], more, n - |steps|);
    }
  }

  lemma LostInAnalysisStays(setup: Setup, states: seq<System>, steps: seq<Step>, w: Identity, job: Job)
    requires Run(setup, states, steps)
    requires states[|steps|].phase == Analysing && Lost(states[|steps|], w, job)
    ensures !Finishable(setup, states, steps)
  {
    forall longer: seq<System>, taken: seq<Step>
           | Run(setup, longer, taken) && states <= longer && steps <= taken
             && forall n | |steps| <= n < |taken| :: Gentle(taken[n])
      ensures longer[|taken|].phase == Analysing
    {
      assert longer[|steps|] == states[|steps|];
      FirstPhaseNeverRecovers(setup, longer, taken, |steps|, |taken|, w, job);
    }
  }

  /**
   Wherever a run has got to, after whatever losses, departures and dismissals: it can be brought
   to its end without a BYE or a further loss if and only if it has not lost an assigned job in
   the first phase.
   */
  lemma FinishableExactly(setup: Setup, states: seq<System>, steps: seq<Step>)
    requires Run(setup, states, steps)
    ensures Finishable(setup, states, steps) <==>
            !(states[|steps|].phase == Analysing && exists w, job :: Lost(states[|steps|], w, job))
  {
    var c := states[|steps|];
    if c.phase == Analysing && exists w, job :: Lost(c, w, job) {
      var w, job :| Lost(c, w, job);
      LostInAnalysisStays(setup, states, steps, w, job);
    } else {
      RunKeeps(setup, states, steps, |steps|);
      RunIsStamped(setup, states, steps, |steps|);
      match c.phase {
        case Analysing => UnlostFinishes(setup, c);
        case Serving => ServingFinishes(setup, c);
        case Equalising => EqualisingFinishes(setup, c);
        case Finished => FinishedFinishes(setup, c);
      }
      CanFinishExtends(setup, states, steps);
    }
  }

  /** In particular every directory has runs that finish. */
  lemma EveryDirectoryCanBeServed(setup: Setup)
    requires Servable(setup)
    ensures Finishable(setup, [Start(setup)], [])
  {
    assert forall w, job :: !Lost(Start(setup), w, job);
    FinishableExactly(setup, [Start(setup)], []);
  }
}
