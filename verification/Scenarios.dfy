/**
 Runs, step by step, in which things go wrong: a dismissal strands a job although an idle worker
 is there, and a result is made from a file that another result was written over.
 */
module Scenarios {
  import opened Config
  import opened Commands
  import opened Names
  import opened Dispatch
  import opened Cluster
  import opened Invariants
  import opened Guarantees
  import opened Recovery

  const NOTHING := Pending(multiset{}, multiset{}, multiset{})

  function Sent(work: seq<Job>): Pending {
    NOTHING.(sent := multiset(work))
  }

  /** A worker registered at time zero with room for one job, not heard of since. */
  function Silent(work: seq<Job>): WorkerData {
    WorkerData(work, 0, false, 1)
  }

  /** Worker "a" is the only one; its job, if any, is on the way to it. */
  ghost predicate Alone(c: System, work: seq<Job>, rest: seq<Job>) {
    && c.server.queues == map["a" := Silent(work)] && c.server.enqueued == rest
    && c.pending == map["a" := Sent(work)] && c.now == 0
  }

  function Next(rest: seq<Job>): nat {
    Min(1, |rest|)
  }

  // ---------------------------------------------------------------- paths

  lemma {:induction false} GoOn(setup: Setup, c: System, first: seq<Step>, second: seq<Step>)
    requires Goes(setup, c, first) && Goes(setup, End(setup, c, first), second)
    ensures Goes(setup, c, first + second)
    ensures End(setup, c, first + second) == End(setup, End(setup, c, first), second)
    decreases |first|
  {
    if first == [] {
      assert first + second == second;
    } else {
      assert (first + second)[1..] == first[1..] + second;
      GoOn(setup, After(setup, c, first[0]), first[1..], second);
    }
  }

  ghost predicate Leads(setup: Setup, c: System, step: Step, c': System) {
    Gentle(step) && Enabled(setup, c, step) && c' == After(setup, c, step)
  }

  lemma OneStep(setup: Setup, c: System, step: Step, c': System) returns (more: seq<Step>)
    requires Leads(setup, c, step, c')
    ensures Goes(setup, c, more) && End(setup, c, more) == c'
  {
    more := [step];
    assert more[1..] == [];
  }

  lemma OneStepMore(setup: Setup, c: System, more: seq<Step>, c1: System, step: Step, c2: System)
    returns (longer: seq<Step>)
    requires Goes(setup, c, more) && End(setup, c, more) == c1 && Leads(setup, c1, step, c2)
    ensures Goes(setup, c, longer) && End(setup, c, longer) == c2
  {
    var last := OneStep(setup, c1, step, c2);
    GoOn(setup, c, more, last);
    longer := more + last;
  }

  // ---------------------------------------------------------------- one job after another

  lemma FillsOne(c: System, rest: seq<Job>)
    requires c.server.queues == map["a" := Silent([])] && c.server.enqueued == rest
    requires c.pending == map["a" := NOTHING] && c.now == 0
    ensures var c' := HandIfAny(c, "a");
            && Alone(c', rest[..Next(rest)], rest[Next(rest)..])
            && c'.phase == c.phase && c'.server.histograms == c.server.histograms
            && c'.server.written == c.server.written && c'.server.equalisedCount == c.server.equalisedCount
  {
    if rest == [] {
      assert multiset(rest) == multiset{};
    } else {
      var taken := Taken(c.server, "a");
      assert taken == rest[..1];
      assert [] + taken == taken;
      assert NOTHING.sent + multiset(taken) == multiset(taken);
      assert Hand(c, "a").server.queues == map["a" := Silent(taken)];
      assert Hand(c, "a").pending == map["a" := Sent(taken)];
    }
  }

  function Holding(job: Job): Pending {
    NOTHING.(held := multiset{job})
  }

  function Answering(job: Job): Pending {
    NOTHING.(answered := multiset{job})
  }

  lemma Arrives(setup: Setup, c: System, job: Job, rest: seq<Job>)
    requires Alone(c, [job], rest)
    ensures Enabled(setup, c, Deliver("a", job))
    ensures After(setup, c, Deliver("a", job)) == c.(pending := map["a" := Holding(job)])
  {
    assert multiset([job]) == multiset{job};
    assert multiset{job} - multiset{job} == multiset{} && multiset{} + multiset{job} == multiset{job};
    assert c.pending["a" := Holding(job)] == map["a" := Holding(job)];
  }

  lemma Computes(setup: Setup, c: System, job: Job)
    requires c.pending == map["a" := Holding(job)]
    ensures Enabled(setup, c, Compute("a", job))
    ensures var made := Computation("a", job, Answer(setup.library, job, Content(setup, c.server, job.filename)));
            After(setup, c, Compute("a", job))
            == c.(pending := map["a" := Answering(job)], computed := c.computed + {made})
  {
    assert multiset{job} - multiset{job} == multiset{} && multiset{} + multiset{job} == multiset{job};
    assert c.pending["a" := Answering(job)] == map["a" := Answering(job)];
  }

  /** What the server has collected after a result for the job. */
  ghost predicate Collected(c: System, c': System, job: Job, result: JobResult) {
    && c'.phase == c.phase
    && if result.HistogramResult? then
         c'.server.histograms == c.server.histograms[job.filename := result.histogram]
         && c'.server.written == c.server.written
       else
         c'.server.written == c.server.written[OutputPath(job.filename) := result.tiff]
         && c'.server.equalisedCount == c.server.equalisedCount + 1
         && c'.server.histograms == c.server.histograms
  }

  lemma Settles(c: System, job: Job, rest: seq<Job>, result: JobResult)
    requires c.server.queues == map["a" := Silent([job])] && c.server.enqueued == rest && c.now == 0
    requires c.pending == map["a" := Answering(job)] && Fits(job, result)
    requires job.HistogramJob? ==> job.filename !in c.server.histograms
    ensures var c' := Settled(Store(c, "a", result), "a", job, result);
            && c'.server.queues == map["a" := Silent([])] && c'.server.enqueued == rest && c'.now == 0
            && c'.pending == map["a" := NOTHING] && Collected(c, c', job, result)
  {
    ComparisonsAgree(job, job, result);
    assert FindMatch([job], result) == 0;
    assert Retired([job], result) == [];
    assert multiset{job} - multiset{job} == multiset{};
    assert map["a" := Silent([job])]["a" := Silent([])] == map["a" := Silent([])];
    assert c.pending["a" := NOTHING] == map["a" := NOTHING];
  }

  lemma Returns(setup: Setup, c: System, job: Job, rest: seq<Job>, result: JobResult)
    requires c.server.queues == map["a" := Silent([job])] && c.server.enqueued == rest && c.now == 0
    requires c.pending == map["a" := Answering(job)] && Fits(job, result)
    requires job.HistogramJob? ==> job.filename !in c.server.histograms
    requires Computation("a", job, result) in c.computed && Expected(c.phase, job) && Receiving(setup, c)
    ensures Enabled(setup, c, Return("a", job, result))
    ensures var c' := After(setup, c, Return("a", job, result));
            && Alone(c', rest[..Next(rest)], rest[Next(rest)..]) && Collected(c, c', job, result)
  {
    RegisteredReturn(setup, c, "a", job, result);
    Settles(c, job, rest, result);
    FillsOne(Settled(Store(c, "a", result), "a", job, result), rest);
  }

  /** The worker receives its job, computes it and sends the result back. */
  lemma JobDone(setup: Setup, c: System, job: Job, rest: seq<Job>) returns (c': System, more: seq<Step>)
    requires Alone(c, [job], rest) && Expected(c.phase, job) && Receiving(setup, c)
    requires job.HistogramJob? ==> job.filename !in c.server.histograms
    ensures Goes(setup, c, more) && End(setup, c, more) == c'
    ensures Alone(c', rest[..Next(rest)], rest[Next(rest)..])
    ensures Collected(c, c', job, Answer(setup.library, job, Content(setup, c.server, job.filename)))
  {
    var result := Answer(setup.library, job, Content(setup, c.server, job.filename));
    Arrives(setup, c, job, rest);
    var c1 := After(setup, c, Deliver("a", job));
    more := OneStep(setup, c, Deliver("a", job), c1);
    Computes(setup, c1, job);
    var c2 := After(setup, c1, Compute("a", job));
    more := OneStepMore(setup, c, more, c1, Compute("a", job), c2);
    assert Computation("a", job, result) in c2.computed;
    Returns(setup, c2, job, rest, result);
    c' := After(setup, c2, Return("a", job, result));
    more := OneStepMore(setup, c, more, c2, Return("a", job, result), c');
  }

  // ---------------------------------------------------------------- phases

  lemma Begins(setup: Setup)
    requires setup.files != []
    ensures var c := After(setup, Start(setup), Join("a", 1));
            && Alone(c, [HistogramJob(setup.files[0])], HistogramJobs(setup.files)[1..])
            && c.phase == Analysing && c.server.histograms == map[] && c.server.written == map[]
            && c.server.equalisedCount == 0
  {
    var jobs := HistogramJobs(setup.files);
    var entered := Enter(Start(setup), "a", 1);
    assert entered.server.queues == map["a" := Silent([])];
    FillsOne(entered, jobs);
    assert jobs[..1] == [HistogramJob(setup.files[0])];
    assert HandIfAny(entered, "a") == Hand(entered, "a");
  }

  lemma OnlyName(names: set<string>, name: string)
    requires names == {name}
    ensures InOrder(names) == [name]
  {
    OrderIsUnique(names, [name]);
  }

  /** The phases are switched and the worker is served. */
  lemma SecondPhase(setup: Setup, c: System) returns (c': System, more: seq<Step>)
    requires Servable(setup) && Alone(c, [], []) && c.phase == Analysing
    requires c.server.histograms == TrueHistograms(setup)
    ensures Goes(setup, c, more) && End(setup, c, more) == c'
    ensures var plan := EqualisationJobs(setup);
            && |plan| == |setup.files| && Alone(c', plan[..1], plan[1..])
    ensures c'.phase == Equalising && c'.server.equalisedCount == 0
    ensures c'.server.written == c.server.written
  {
    PlanFollowsNames(setup);
    assert TrueHistograms(setup).Keys == set f | f in setup.files;
    DistinctCount(setup.files);
    assert |TrueHistograms(setup)| == |TrueHistograms(setup).Keys|;
    var c1 := After(setup, c, SwitchPhases);
    more := OneStep(setup, c, SwitchPhases, c1);
    assert [] + EqualisationJobs(setup) == EqualisationJobs(setup);
    assert Sent([]) == NOTHING;
    assert c1.server.enqueued == EqualisationJobs(setup) && c1.pending == map["a" := NOTHING];
    ServesA(setup, c1, EqualisationJobs(setup));
    c' := After(setup, c1, ServeWorkers);
    more := OneStepMore(setup, c, more, c1, ServeWorkers, c');
  }

  lemma ServesA(setup: Setup, c: System, plan: seq<Job>)
    requires c.server.queues == map["a" := Silent([])] && c.server.enqueued == plan && plan != []
    requires c.pending == map["a" := NOTHING] && c.now == 0 && c.phase == Serving
    ensures Enabled(setup, c, ServeWorkers)
    ensures var c' := After(setup, c, ServeWorkers);
            && Alone(c', plan[..1], plan[1..]) && c'.phase == Equalising
            && c'.server.equalisedCount == c.server.equalisedCount && c'.server.written == c.server.written
  {
    OnlyName(c.server.queues.Keys, "a");
    FillsOne(c, plan);
    var h := Hand(c, "a");
    assert HandIfAny(c, "a") == h;
    assert ServeEach(h, ["a"][1..]) == h;
    assert ServeEach(c, ["a"]) == h;
  }

  // ---------------------------------------------------------------- a stranded job

  const ANALYSE := HistogramJob("f")

  lemma AJoins(setup: Setup) returns (c: System, more: seq<Step>)
    requires setup.files != []
    ensures Goes(setup, Start(setup), more) && End(setup, Start(setup), more) == c
    ensures Alone(c, [HistogramJob(setup.files[0])], HistogramJobs(setup.files)[1..])
    ensures c.phase == Analysing && c.server.histograms == map[] && c.server.written == map[]
  {
    Begins(setup);
    c := After(setup, Start(setup), Join("a", 1));
    more := OneStep(setup, Start(setup), Join("a", 1), c);
  }

  /** The first file's equalisation job is on its way. */
  lemma FirstPhasePasses(setup: Setup) returns (c: System, more: seq<Step>, job: Job)
    requires setup.files == ["f"]
    ensures Goes(setup, Start(setup), more) && End(setup, Start(setup), more) == c
    ensures Alone(c, [job], []) && c.phase == Equalising
  {
    var c1, first := AJoins(setup);
    assert HistogramJobs(setup.files)[1..] == [];
    var c2, second := JobDone(setup, c1, ANALYSE, []);
    GoOn(setup, Start(setup), first, second);
    assert c2.server.histograms == TrueHistograms(setup);
    var c3, third := SecondPhase(setup, c2);
    GoOn(setup, Start(setup), first + second, third);
    c, more, job := c3, first + second + third, EqualisationJobs(setup)[0];
    assert EqualisationJobs(setup)[..1] == [job] && EqualisationJobs(setup)[1..] == [];
  }

  /** Worker "b" has come as well; `alive`: its first heartbeat reply has been handled. */
  ghost predicate Joined(c: System, job: Job, alive: bool) {
    && c.server.queues == map["a" := Silent([job]), "b" := Silent([]).(heartbeatReplyReceived := alive)]
    && c.server.enqueued == [] && c.phase == Equalising && c.now == 0
  }

  lemma NamesDiffer()
    ensures "a" != "b"
  {
    assert "a"[0] != "b"[0];
  }

  lemma JoinsIdle(setup: Setup, c: System, job: Job) returns (c': System)
    requires Alone(c, [job], []) && c.phase == Equalising
    ensures Leads(setup, c, Join("b", 1), c') && Joined(c', job, false)
  {
    NamesDiffer();
    var entered := Enter(c, "b", 1);
    assert Taken(entered.server, "b") == [];
    assert entered.server.queues["b"].work + Taken(entered.server, "b") == [];
    assert Hand(entered, "b").server.queues == map["a" := Silent([job]), "b" := Silent([])];
    c' := Hand(entered, "b");
  }

  lemma BJoins(setup: Setup, c: System, job: Job) returns (c': System, more: seq<Step>)
    requires Alone(c, [job], []) && c.phase == Equalising
    ensures Goes(setup, c, more) && End(setup, c, more) == c' && Joined(c', job, false)
  {
    c' := JoinsIdle(setup, c, job);
    more := OneStep(setup, c, Join("b", 1), c');
  }

  lemma BLives(setup: Setup, c: System, job: Job) returns (c': System, more: seq<Step>)
    requires Joined(c, job, false)
    ensures Goes(setup, c, more) && End(setup, c, more) == c' && Joined(c', job, true)
  {
    NamesDiffer();
    assert HeartbeatReply(c.server, "b").queues
        == map["a" := Silent([job]), "b" := Silent([]).(heartbeatReplyReceived := true)];
    c' := After(setup, c, Alive("b"));
    more := OneStep(setup, c, Alive("b"), c');
  }

  /** Nanoseconds. */
  const SECOND: int := 1_000_000_000

  const LATER := Reading(6 * SECOND, 6 * SECOND)
  const CLOCK: Clock := map["a" := LATER, "b" := LATER]

  lemma PassDismissesA(s: ServerState, job: Job)
    requires s.queues == map["a" := Silent([job]), "b" := Silent([]).(heartbeatReplyReceived := true)]
    requires s.enqueued == []
    ensures HeartbeatPass(s, CLOCK).queues == map["b" := WorkerData([], 6 * SECOND, false, 1)]
    ensures HeartbeatPass(s, CLOCK).enqueued == [job]
  {
    NamesDiffer();
    assert ExpiredWorkers(s, CLOCK) == {"a"};
    OnlyName({"a"}, "a");
    var refreshed := RefreshAll(s, CLOCK);
    assert refreshed.queues["a"].work == [job];
    assert Dismiss(refreshed, "a").queues == map["b" := WorkerData([], 6 * SECOND, false, 1)];
    assert Dismiss(refreshed, "a").enqueued == [job];
    assert DismissEach(Dismiss(refreshed, "a"), ["a"][1..]) == Dismiss(refreshed, "a");
    assert HeartbeatPass(s, CLOCK) == Dismiss(refreshed, "a");
  }

  lemma AIsDismissed(setup: Setup, c: System, job: Job)
    requires Joined(c, job, true)
    ensures Enabled(setup, c, CheckHeartbeats(CLOCK, 6 * SECOND))
    ensures var c' := After(setup, c, CheckHeartbeats(CLOCK, 6 * SECOND));
            && c'.server.queues == map["b" := WorkerData([], 6 * SECOND, false, 1)]
            && c'.server.enqueued == [job] && c'.phase == Equalising
  {
    forall w | w in c.server.queues
      ensures w in CLOCK && CLOCK[w] == LATER
    {
      assert w == "a" || w == "b";
    }
    PassDismissesA(c.server, job);
  }

  /** "a" has the only job and keeps silent, "b" is alive and has nothing. */
  lemma BothAreThere(setup: Setup) returns (c: System, more: seq<Step>, job: Job)
    requires setup.files == ["f"]
    ensures Goes(setup, Start(setup), more) && End(setup, Start(setup), more) == c && Joined(c, job, true)
  {
    var c1, first;
    c1, first, job := FirstPhasePasses(setup);
    var c2, second := BJoins(setup, c1, job);
    GoOn(setup, Start(setup), first, second);
    var third;
    c, third := BLives(setup, c2, job);
    GoOn(setup, Start(setup), first + second, third);
    more := first + second + third;
  }

  lemma StartRuns(setup: Setup)
    requires Servable(setup)
    ensures Run(setup, [Start(setup)], [])
  {
  }

  /**
   Worker "a" falls silent with the only job, "b" is alive and idle. The pass dismisses "a",
   and its job stays in the queue beside "b".
   */
  lemma DismissalCanStrandAJob(setup: Setup) returns (states: seq<System>, steps: seq<Step>)
    requires setup.files == ["f"]
    ensures Run(setup, states, steps) && |steps| > 0 && steps[|steps| - 1].CheckHeartbeats?
    ensures Saturated(states[|steps| - 1].server) && !Stranded(states[|steps| - 1])
    ensures Stranded(states[|steps|])
    ensures "b" in states[|steps|].server.queues && Room(states[|steps|].server.queues["b"]) > 0
  {
    var c, more, job := BothAreThere(setup);
    StartRuns(setup);
    states, steps := Continue(setup, [Start(setup)], [], more);
    AIsDismissed(setup, c, job);
    var pass := CheckHeartbeats(CLOCK, 6 * SECOND);
    Extend(setup, states, steps, pass, After(setup, c, pass));
    states, steps := states + [After(setup, c, pass)], steps + [pass];
  }

  // ---------------------------------------------------------------- an overwritten input

  lemma TiffNames()
    ensures Before("a", "a.tiff") && "a" != "a.tiff" && OutputPath("a") == "a.tiff"
    ensures InOrder({"a", "a.tiff"}) == ["a", "a.tiff"]
  {
    assert |"a"| != |"a.tiff"|;
    assert "a"[1..] == "" && "a.tiff"[1..] == ".tiff";
    assert Before("a", "a.tiff");
    OrderIsUnique({"a", "a.tiff"}, ["a", "a.tiff"]);
  }

  lemma TwoJobs(setup: Setup, c: System) returns (c': System, more: seq<Step>)
    requires setup.files == ["a", "a.tiff"] && c.phase == Analysing
    requires Alone(c, [HistogramJob("a")], [HistogramJob("a.tiff")])
    requires c.server.histograms == map[] && c.server.written == map[]
    ensures Goes(setup, c, more) && End(setup, c, more) == c'
    ensures Alone(c', [], []) && c'.phase == Analysing && c'.server.written == map[]
    ensures c'.server.histograms
         == map["a" := setup.Histogram("a"), "a.tiff" := setup.Histogram("a.tiff")]
  {
    TiffNames();
    var second := HistogramJob("a.tiff");
    var c2, more1 := JobDone(setup, c, HistogramJob("a"), [second]);
    assert [second][..1] == [second] && [second][1..] == [];
    assert c2.server.histograms == map["a" := setup.Histogram("a")];
    var c3, more2 := JobDone(setup, c2, second, []);
    GoOn(setup, c, more1, more2);
    c', more := c3, more1 + more2;
  }

  /** Both files are analysed one after the other. */
  lemma BothAnalysed(setup: Setup) returns (c: System, more: seq<Step>)
    requires setup.files == ["a", "a.tiff"]
    ensures Goes(setup, Start(setup), more) && End(setup, Start(setup), more) == c
    ensures Alone(c, [], []) && c.phase == Analysing && c.server.histograms == TrueHistograms(setup)
    ensures c.server.written == map[]
  {
    var c1, first := AJoins(setup);
    assert HistogramJobs(setup.files)[1..] == [HistogramJob("a.tiff")];
    var second;
    c, second := TwoJobs(setup, c1);
    GoOn(setup, Start(setup), first, second);
    more := first + second;
    assert TrueHistograms(setup) == map["a" := setup.Histogram("a"), "a.tiff" := setup.Histogram("a.tiff")];
  }

  lemma PlanOfTwo(setup: Setup)
    requires setup.files == ["a", "a.tiff"]
    ensures Servable(setup) && Sequence(setup) == ["a", "a.tiff"] && |EqualisationJobs(setup)| == 2
    ensures EqualisationJobs(setup)[0].EqualisationJob? && EqualisationJobs(setup)[0].filename == "a"
    ensures EqualisationJobs(setup)[1].EqualisationJob? && EqualisationJobs(setup)[1].filename == "a.tiff"
    ensures SequentialOutput(setup, 1)
         == setup.library.equalise(setup.contents("a.tiff"), EqualisationJobs(setup)[1].mapping)
  {
    TiffNames();
    assert (set f | f in setup.files) == {"a", "a.tiff"};
    PlannedOutput(setup, 0);
    PlannedOutput(setup, 1);
  }

  /** The second file is read after the first one's result was written over it. */
  lemma BothEqualised(setup: Setup, c: System) returns (c': System, more: seq<Step>)
    requires setup.files == ["a", "a.tiff"] && |EqualisationJobs(setup)| == 2
    requires EqualisationJobs(setup)[0].EqualisationJob? && EqualisationJobs(setup)[0].filename == "a"
    requires EqualisationJobs(setup)[1].EqualisationJob? && EqualisationJobs(setup)[1].filename == "a.tiff"
    requires Alone(c, EqualisationJobs(setup)[..1], EqualisationJobs(setup)[1..]) && c.phase == Equalising
    requires c.server.written == map[] && c.server.equalisedCount == 0
    ensures Goes(setup, c, more) && End(setup, c, more) == c'
    ensures c'.phase == Equalising && c'.server.equalisedCount == 2 && OutputPath("a.tiff") in c'.server.written
    ensures var library, jobs := setup.library, EqualisationJobs(setup);
            c'.server.written[OutputPath("a.tiff")]
            == library.equalise(library.equalise(setup.contents("a"), jobs[0].mapping), jobs[1].mapping)
  {
    TiffNames();
    var first, second := EqualisationJobs(setup)[0], EqualisationJobs(setup)[1];
    assert EqualisationJobs(setup)[..1] == [first] && EqualisationJobs(setup)[1..] == [second];
    var c1, more1 := JobDone(setup, c, first, [second]);
    assert [second][..1] == [second] && [second][1..] == [];
    assert Content(setup, c1.server, "a.tiff") == setup.library.equalise(setup.contents("a"), first.mapping);
    var more2;
    c', more2 := JobDone(setup, c1, second, []);
    GoOn(setup, c, more1, more2);
    more := more1 + more2;
  }

  /** From the start to the last result. */
  lemma BothServed(setup: Setup) returns (c: System, more: seq<Step>)
    requires setup.files == ["a", "a.tiff"]
    ensures Goes(setup, Start(setup), more) && End(setup, Start(setup), more) == c
    ensures c.phase == Equalising && c.server.equalisedCount == 2 && OutputPath("a.tiff") in c.server.written
    ensures |EqualisationJobs(setup)| == 2
    ensures EqualisationJobs(setup)[0].EqualisationJob? && EqualisationJobs(setup)[1].EqualisationJob?
    ensures var library, jobs := setup.library, EqualisationJobs(setup);
            c.server.written[OutputPath("a.tiff")]
            == library.equalise(library.equalise(setup.contents("a"), jobs[0].mapping), jobs[1].mapping)
  {
    PlanOfTwo(setup);
    var c1, first := BothAnalysed(setup);
    var c2, second := SecondPhase(setup, c1);
    GoOn(setup, Start(setup), first, second);
    var third;
    c, third := BothEqualised(setup, c2);
    GoOn(setup, Start(setup), first + second, third);
    more := first + second + third;
  }

  lemma Finishes(setup: Setup, c: System) returns (c': System)
    requires c.phase == Equalising && c.server.equalisedCount >= |setup.files|
    ensures Leads(setup, c, Finish, c')
  {
    c' := After(setup, c, Finish);
  }

  /**
   One worker equalises "a" and then "a.tiff": a finished run in which the result for the second
   is made from the result of the first, not from the file that was served.
   */
  lemma OverwritingShowsInTheOutput(setup: Setup) returns (states: seq<System>, steps: seq<Step>)
    requires setup.files == ["a", "a.tiff"]
    ensures Run(setup, states, steps) && |steps| > 0 && steps[|steps| - 1] == Finish
    ensures Sequence(setup) == ["a", "a.tiff"] && |EqualisationJobs(setup)| == 2
    ensures EqualisationJobs(setup)[0].EqualisationJob? && EqualisationJobs(setup)[1].EqualisationJob?
    ensures SequentialOutput(setup, 1)
         == setup.library.equalise(setup.contents("a.tiff"), EqualisationJobs(setup)[1].mapping)
    ensures var library, jobs, written := setup.library, EqualisationJobs(setup), states[|steps| - 1].server.written;
            && OutputPath("a.tiff") in written
            && written[OutputPath("a.tiff")]
               == library.equalise(library.equalise(setup.contents("a"), jobs[0].mapping), jobs[1].mapping)
  {
    PlanOfTwo(setup);
    var c, more := BothServed(setup);
    StartRuns(setup);
    states, steps := Continue(setup, [Start(setup)], [], more);
    var finished := Finishes(setup, c);
    Extend(setup, states, steps, Finish, finished);
    states, steps := states + [finished], steps + [Finish];
  }

  /** Images whose equalisation leaves them alone. */
  function Plain(): Setup {
    Setup(["a", "a.tiff"], f => if f == "a" then [1] else [2],
          Library(1.0, _ => seq(HISTOGRAM_SEGMENTS, _ => 0.0), (content, _) => content))
  }

  /** There the difference is visible: the second result is a copy of the first file. */
  lemma OverwritingSpoilsAResult() returns (states: seq<System>, steps: seq<Step>)
    ensures Run(Plain(), states, steps) && |steps| > 0 && steps[|steps| - 1] == Finish
    ensures |Sequence(Plain())| == 2 && Sequence(Plain())[1] == "a.tiff"
    ensures var written := states[|steps| - 1].server.written;
            && OutputPath("a.tiff") in written && written[OutputPath("a.tiff")] == [1]
            && SequentialOutput(Plain(), 1) == [2]
  {
    TiffNames();
    states, steps := OverwritingShowsInTheOutput(Plain());
  }
}
