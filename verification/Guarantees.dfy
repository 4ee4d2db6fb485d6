/**
 What holds in every run of the composed system, whoever joins, leaves, is dismissed or
 answers late, and whatever the network loses.
 */
module Guarantees {
  import opened Config
  import opened Commands
  import opened Names
  import opened Dispatch
  import opened Cluster
  import opened Accounting
  import opened Invariants
  import opened Preservation
  import Handlers
  import Matching
  import Interpolation

  // ---------------------------------------------------------------- exactly-once accounting

  predicate Assigned(c: System, w: Identity, job: Job) {
    w in c.server.queues && job in c.server.queues[w].work
  }

  lemma {:induction false} SomeoneHas(queues: map<Identity, WorkerData>, job: Job)
    requires job in AllWork(queues)
    ensures exists w :: w in queues && job in queues[w].work
    decreases |queues.Keys|
  {
    var p := Pick(queues);
    if job !in queues[p].work {
      assert (queues - {p}).Keys == queues.Keys - {p};
      SomeoneHas(queues - {p}, job);
      var w :| w in queues - {p} && job in (queues - {p})[w].work;
      assert w in queues && job in queues[w].work;
    }
  }

  lemma AssignedIsHeld(c: System, w: Identity, job: Job)
    ensures Assigned(c, w, job) ==> AllWork(c.server.queues)[job] >= 1
  {
    if Assigned(c, w, job) {
      AllWorkSplit(c.server.queues, w);
      assert job in multiset(c.server.queues[w].work);
    }
  }

  lemma TwoHolders(queues: map<Identity, WorkerData>, v: Identity, w: Identity, job: Job)
    requires v in queues && w in queues && v != w && job in queues[v].work && job in queues[w].work
    ensures AllWork(queues)[job] >= 2
  {
    AllWorkSplit(queues, v);
    AllWorkSplit(queues - {v}, w);
    assert job in multiset(queues[v].work) && job in multiset(queues[w].work);
  }

  /** Each job of the phase is queued, or one worker's, or done: one of these and only once. */
  lemma EachJobInOnePlace(setup: Setup, states: seq<System>, steps: seq<Step>, i: nat, job: Job)
    requires Run(setup, states, steps) && i < |states|
    requires job in PhaseJobs(setup, states[i].phase)
    ensures var c := states[i];
            || (job in c.server.enqueued && job !in c.done && forall w :: !Assigned(c, w, job))
            || (job !in c.server.enqueued && job !in c.done
                && exists w :: Assigned(c, w, job) && forall v | Assigned(c, v, job) :: v == w)
            || (job !in c.server.enqueued && job in c.done && forall w :: !Assigned(c, w, job))
    ensures multiset(states[i].server.enqueued)[job] <= 1 && states[i].done[job] <= 1
    ensures forall w | w in states[i].server.queues ::
              multiset(states[i].server.queues[w].work)[job] <= 1
  {
    RunKeeps(setup, states, steps, i);
    var c := states[i];
    PhaseOnePerFile(setup, c.phase);
    var total := PhaseTotal(setup, c.phase);
    assert job in total && total[job] == 1;
    assert Outstanding(c.server)[job] + c.done[job] == 1;
    var queued, held := multiset(c.server.enqueued), AllWork(c.server.queues);
    assert queued[job] + held[job] + c.done[job] == 1;
    forall w | w in c.server.queues
      ensures multiset(c.server.queues[w].work)[job] <= held[job]
    {
      AllWorkSplit(c.server.queues, w);
    }
    if held[job] == 0 {
      forall w
        ensures !Assigned(c, w, job)
      {
        AssignedIsHeld(c, w, job);
      }
    } else {
      SomeoneHas(c.server.queues, job);
      var w :| w in c.server.queues && job in c.server.queues[w].work;
      assert Assigned(c, w, job);
      forall v | Assigned(c, v, job)
        ensures v == w
      {
        if v != w { TwoHolders(c.server.queues, v, w, job); }
      }
    }
    assert job in c.server.enqueued <==> queued[job] > 0;
  }

  /** The counters the receiving loops compare with the number of files are exact. */
  lemma CountersAreExact(setup: Setup, states: seq<System>, steps: seq<Step>, i: nat)
    requires Run(setup, states, steps) && i < |states|
    ensures states[i].phase == Analysing ==> |states[i].server.histograms| == |states[i].done|
    ensures states[i].phase != Analysing ==> states[i].server.equalisedCount == |states[i].done|
    ensures |states[i].done| <= |setup.files|
    ensures |states[i].done| == |setup.files| <==> states[i].done == multiset(PhaseJobs(setup, states[i].phase))
  {
    RunKeeps(setup, states, steps, i);
    var c := states[i];
    PhaseOnePerFile(setup, c.phase);
    assert |Outstanding(c.server) + c.done| == |Outstanding(c.server)| + |c.done|;
    if |c.done| == |setup.files| {
      CardinalityOfSum(Outstanding(c.server), c.done, PhaseTotal(setup, c.phase));
    }
  }

  // ---------------------------------------------------------------- results

  lemma RegisteredResultSettles(setup: Setup, c: System, w: Identity, job: Job, result: JobResult)
    requires Servable(setup) && Core(setup, c) && Enabled(setup, c, Return(w, job, result))
    requires w in c.server.queues
    ensures After(setup, c, Return(w, job, result)).done == c.done + multiset{job}
  {
    AnsweredIsOutstanding(setup, c, w, job);
    RegisteredReturn(setup, c, w, job, result);
  }

  /**
   Whenever a result of a registered worker reaches the receiving loop, it is of the kind the
   loop expects, and `find_if` finds the job it answers and no other: the precondition of the
   visitors in module ServerProcess.
   */
  lemma ResultsAlwaysMatch(setup: Setup, states: seq<System>, steps: seq<Step>, i: nat,
                           w: Identity, job: Job, result: JobResult)
    requires Run(setup, states, steps) && i < |steps| && steps[i] == Return(w, job, result)
    requires w in states[i].server.queues
    ensures var c := states[i];
            var work := c.server.queues[w].work;
            && (c.phase == Analysing ==> result.HistogramResult?)
            && (c.phase == Equalising ==> result.EqualisationResult?)
            && FindMatch(work, result) < |work| && work[FindMatch(work, result)] == job
            && (forall k | 0 <= k < |work| && Matches(work[k], result) :: k == FindMatch(work, result))
            && states[i + 1].done == c.done + multiset{job}
  {
    RunStep(setup, states, steps, i);
    AnswerFindsJob(setup, states[i], w, job, result);
    RegisteredResultSettles(setup, states[i], w, job, result);
  }

  /**
   Whatever is sent to, held by or answered by a registered worker is in its work list; as
   long as nothing was lost, the list holds nothing else.
   */
  lemma WorkListCoversWhatIsUnderWay(setup: Setup, states: seq<System>, steps: seq<Step>, i: nat,
                                     w: Identity)
    requires Run(setup, states, steps) && i < |states| && w in states[i].server.queues
    ensures w in states[i].pending
    ensures states[i].pending[w].All() <= multiset(states[i].server.queues[w].work)
    ensures states[i].lossless ==>
              states[i].pending[w].All() == multiset(states[i].server.queues[w].work)
  {
    RunKeeps(setup, states, steps, i);
  }

  /** A file nothing is written to yields one result. */
  lemma IntactYieldsOne(setup: Setup, f: string, mapping: Histogram, tiff: seq<byte>)
    requires Servable(setup) && !IsOutput(setup, f) && MayYield(setup, f, mapping, tiff)
    ensures tiff == setup.library.equalise(setup.contents(f), mapping)
  {
    EqualisationJobsOnePerFile(setup, Serving);
    forall g | g in EqualisationJobs(setup)
      ensures f != OutputPath(g.filename)
    {
      assert g in multiset(EqualisationJobs(setup));
    }
  }

  lemma SameBytesAgain(setup: Setup, c: System, job: Job, tiff: seq<byte>)
    requires Servable(setup) && Delivered(setup, c) && c.phase != Analysing && job in PhaseTotal(setup, c.phase)
    requires job.EqualisationJob? && MayYield(setup, job.filename, job.mapping, tiff)
    ensures OutputPath(job.filename) in c.server.written && !IsOutput(setup, job.filename) ==>
              c.server.written[OutputPath(job.filename)] == tiff
  {
    assert RightlyWritten(setup, c.server.written, job);
    if OutputPath(job.filename) in c.server.written && !IsOutput(setup, job.filename) {
      IntactYieldsOne(setup, job.filename, job.mapping, c.server.written[OutputPath(job.filename)]);
      IntactYieldsOne(setup, job.filename, job.mapping, tiff);
    }
  }

  lemma LateResultIsHarmless(setup: Setup, c: System, w: Identity, job: Job, result: JobResult)
    requires Servable(setup) && Genuine(setup, c) && Delivered(setup, c) && Answers(setup, c.phase, job, result)
    requires Enabled(setup, c, Return(w, job, result)) && w !in c.server.queues
    ensures var before, after := c.server.written, After(setup, c, Return(w, job, result)).server.written;
            forall f | OutputPath(f) in before && !IsOutput(setup, f) ::
              OutputPath(f) in after && after[OutputPath(f)] == before[OutputPath(f)]
  {
    LateReturn(setup, c, w, job, result);
    if Expected(c.phase, job) && c.phase != Analysing {
      AnsweredIsPlanned(setup, c, w, job);
      SameBytesAgain(setup, c, job, result.tiff);
      forall f | OutputPath(f) in c.server.written && !IsOutput(setup, f)
        ensures OutputPath(f) == OutputPath(job.filename) ==> f == job.filename
      {
        if OutputPath(f) == OutputPath(job.filename) { OutputPathsDiffer(f, job.filename); }
      }
    }
  }

  /**
   A result of a dismissed worker only rewrites a file with the content it has, unless the
   file it was made from is itself written over.
   */
  lemma LateResultsAreHarmless(setup: Setup, states: seq<System>, steps: seq<Step>, i: nat,
                               w: Identity, job: Job, result: JobResult)
    requires Run(setup, states, steps) && i < |steps| && steps[i] == Return(w, job, result)
    requires w !in states[i].server.queues
    ensures states[i + 1].done == states[i].done
    ensures states[i + 1].server.(written := map[]) == states[i].server.(written := map[])
    ensures var before, after := states[i].server.written, states[i + 1].server.written;
            forall f | OutputPath(f) in before && !IsOutput(setup, f) ::
              OutputPath(f) in after && after[OutputPath(f)] == before[OutputPath(f)]
  {
    RunStep(setup, states, steps, i);
    LateReturn(setup, states[i], w, job, result);
    LateResultIsHarmless(setup, states[i], w, job, result);
  }

  // ---------------------------------------------------------------- phase boundaries

  lemma PlanIsOnePerFile(setup: Setup)
    requires Servable(setup)
    ensures var jobs := EqualisationJobs(setup);
            && |jobs| == |setup.files| && OnePerFile(multiset(jobs))
            && (forall j | j in jobs :: j.EqualisationJob?)
            && (forall f | f in setup.files :: exists j :: j in jobs && j.filename == f)
  {
    EqualisationJobsOnePerFile(setup, Serving);
    PlanFollowsNames(setup);
    var jobs := EqualisationJobs(setup);
    assert forall j | j in jobs :: j in multiset(jobs);
    assert forall j | j in multiset(jobs) :: j in jobs;
  }

  /**
   When `receive_histograms` returns, nothing is queued and every worker is idle (the
   assertion of line 76); the switch then queues one equalisation job per file.
   */
  lemma PhaseSwitchIsClean(setup: Setup, states: seq<System>, steps: seq<Step>, i: nat)
    requires Run(setup, states, steps) && i < |steps| && steps[i] == SwitchPhases
    ensures states[i].server.enqueued == []
    ensures forall w | w in states[i].server.queues :: states[i].server.queues[w].work == []
    ensures states[i].server.histograms == TrueHistograms(setup)
    ensures var jobs := states[i + 1].server.enqueued;
            && |jobs| == |setup.files| && OnePerFile(multiset(jobs))
            && (forall j | j in jobs :: j.EqualisationJob?)
            && (forall f | f in setup.files :: exists j :: j in jobs && j.filename == f)
            && jobs == EqualisationJobs(setup)
    ensures states[i + 1].server.equalisedCount == 0
    ensures states[i + 1].server.queues == states[i].server.queues
  {
    RunStep(setup, states, steps, i);
    AnalysisIsComplete(setup, states[i]);
    SwitchConserves(setup, states[i].server);
    PlanIsOnePerFile(setup);
  }

  /** Sorted by name: the files in the order in which they are matched to one another. */
  ghost function Sequence(setup: Setup): seq<string> {
    InOrder(set f | f in setup.files)
  }

  /** What one process would make of the k-th file if it read all files before writing any. */
  ghost function SequentialOutput(setup: Setup, k: nat): seq<byte>
    requires k < |Sequence(setup)|
  {
    var order, library := Sequence(setup), setup.library;
    library.equalise(setup.contents(order[k]),
      if k == 0 then Interpolation.IdentityTable(1024, library.quantumRange)
      else Matching.Parameters(setup.Histogram(order[k - 1]), setup.Histogram(order[k]),
                               library.quantumRange))
  }

  lemma PlannedOutput(setup: Setup, k: nat)
    requires Servable(setup) && k < |Sequence(setup)|
    ensures |Sequence(setup)| == |setup.files| == |EqualisationJobs(setup)|
    ensures var job := EqualisationJobs(setup)[k];
            && job.EqualisationJob? && job.filename == Sequence(setup)[k]
            && setup.library.equalise(setup.contents(job.filename), job.mapping) == SequentialOutput(setup, k)
  {
    var truth := TrueHistograms(setup);
    assert truth.Keys == set f | f in setup.files;
    InOrderElements(truth.Keys);
    DistinctCount(setup.files);
    var order := InOrder(truth.Keys);
    PlanAt(truth, order, |order|, k, setup.library.quantumRange);
    assert order[k] in order;
    if k > 0 { assert order[k - 1] in order; }
  }

  lemma FinishedFile(setup: Setup, c: System, k: nat)
    requires Servable(setup) && Delivered(setup, c) && c.phase == Equalising
    requires c.done == PhaseTotal(setup, c.phase) && k < |Sequence(setup)|
    ensures |EqualisationJobs(setup)| == |Sequence(setup)| && EqualisationJobs(setup)[k].EqualisationJob?
    ensures OutputPath(Sequence(setup)[k]) in c.server.written
    ensures MayYield(setup, Sequence(setup)[k], EqualisationJobs(setup)[k].mapping,
                     c.server.written[OutputPath(Sequence(setup)[k])])
    ensures !IsOutput(setup, Sequence(setup)[k]) ==>
              c.server.written[OutputPath(Sequence(setup)[k])] == SequentialOutput(setup, k)
  {
    PlannedOutput(setup, k);
    var job := EqualisationJobs(setup)[k];
    assert job in PhaseTotal(setup, c.phase) && job in c.done;
    assert RightlyWritten(setup, c.server.written, job);
    if !IsOutput(setup, job.filename) {
      IntactYieldsOne(setup, job.filename, job.mapping, c.server.written[OutputPath(job.filename)]);
    }
  }

  lemma PlaceInSequence(setup: Setup, f: string) returns (k: nat)
    requires f in setup.files
    ensures k < |Sequence(setup)| && Sequence(setup)[k] == f
  {
    InOrderElements(set g | g in setup.files);
    assert f in Sequence(setup);
    k :| k < |Sequence(setup)| && Sequence(setup)[k] == f;
  }

  /** Every served file has its result, and nothing else was written. */
  lemma FinishedPaths(setup: Setup, c: System)
    requires Servable(setup) && Delivered(setup, c) && c.phase == Equalising
    requires c.done == PhaseTotal(setup, c.phase)
    ensures forall path :: path in c.server.written <==> IsOutput(setup, path)
  {
    forall path | IsOutput(setup, path)
      ensures path in c.server.written
    {
      var f :| f in setup.files && path == OutputPath(f);
      var k := PlaceInSequence(setup, f);
      FinishedFile(setup, c, k);
    }
  }

  /**
   A finished run has written a result for every file and nothing else. It is one the file's job
   can yield, and unless the file is itself the path of another one's result, exactly the bytes
   the sequential program would have produced: no interleaving, loss, departure or late answer
   shows in the output.
   */
  lemma RunMatchesSequentialProgram(setup: Setup, states: seq<System>, steps: seq<Step>, i: nat)
    requires Run(setup, states, steps) && i < |steps| && steps[i] == Finish
    ensures forall path :: path in states[i].server.written <==> IsOutput(setup, path)
    ensures |EqualisationJobs(setup)| == |Sequence(setup)|
    ensures forall k | 0 <= k < |Sequence(setup)| ::
              && EqualisationJobs(setup)[k].EqualisationJob?
              && OutputPath(Sequence(setup)[k]) in states[i].server.written
              && MayYield(setup, Sequence(setup)[k], EqualisationJobs(setup)[k].mapping,
                          states[i].server.written[OutputPath(Sequence(setup)[k])])
    ensures forall k | 0 <= k < |Sequence(setup)| && !IsOutput(setup, Sequence(setup)[k]) ::
              states[i].server.written[OutputPath(Sequence(setup)[k])] == SequentialOutput(setup, k)
    ensures states[i].server.enqueued == []
    ensures forall w | w in states[i].server.queues :: states[i].server.queues[w].work == []
  {
    RunStep(setup, states, steps, i);
    PhaseIsOver(setup, states[i]);
    FinishedPaths(setup, states[i]);
    EqualisationJobsOnePerFile(setup, Equalising);
    PlanFollowsNames(setup);
    forall k | 0 <= k < |Sequence(setup)|
      ensures EqualisationJobs(setup)[k].EqualisationJob?
      ensures OutputPath(Sequence(setup)[k]) in states[i].server.written
      ensures MayYield(setup, Sequence(setup)[k], EqualisationJobs(setup)[k].mapping,
                       states[i].server.written[OutputPath(Sequence(setup)[k])])
      ensures !IsOutput(setup, Sequence(setup)[k]) ==>
                states[i].server.written[OutputPath(Sequence(setup)[k])] == SequentialOutput(setup, k)
    {
      FinishedFile(setup, states[i], k);
    }
  }

  /**
   Results lie beside the files they come from, so a served file is lost exactly when another
   served name plus ".tiff" is its name, as in a directory that was served before.
   */
  lemma InputsOverwritten(setup: Setup, states: seq<System>, steps: seq<Step>, i: nat, f: string)
    requires Run(setup, states, steps) && i < |states| && f in setup.files
    ensures f in states[i].server.written ==> exists g :: g in setup.files && f == g + ".tiff"
    ensures i < |steps| && steps[i] == Finish ==>
              (f in states[i].server.written <==> exists g :: g in setup.files && f == g + ".tiff")
  {
    RunKeeps(setup, states, steps, i);
    if f in states[i].server.written { assert IsOutput(setup, f); }
    if i < |steps| && steps[i] == Finish {
      RunMatchesSequentialProgram(setup, states, steps, i);
      if g :| g in setup.files && f == g + ".tiff" { assert f == OutputPath(g); }
    }
  }

  /** Each receiving loop runs until the last job of its phase is done, and no longer. */
  lemma LoopsEndExactly(setup: Setup, states: seq<System>, steps: seq<Step>, i: nat)
    requires Run(setup, states, steps) && i < |states|
    ensures var c := states[i];
            var complete := c.done == multiset(PhaseJobs(setup, c.phase));
            && (Receiving(setup, c) <==> (c.phase == Analysing || c.phase == Equalising) && !complete)
            && (Enabled(setup, c, SwitchPhases) <==> c.phase == Analysing && complete)
            && (Enabled(setup, c, Finish) <==> c.phase == Equalising && complete)
  {
    CountersAreExact(setup, states, steps, i);
  }

  lemma FinishedState(setup: Setup, c: System)
    requires Servable(setup) && Core(setup, c) && Recorded(setup, c) && Enabled(setup, c, Finish)
    ensures After(setup, c, Finish) == c.(
              server := ServerState([], map[], c.server.histograms, |setup.files|, c.server.written),
              phase := Finished)
  {
    PhaseIsOver(setup, c);
    PhaseOnePerFile(setup, c.phase);
    assert |PhaseTotal(setup, c.phase)| == |setup.files|;
  }

  /** The end leaves no worker, and nothing queued; what was collected and written stays. */
  lemma FinishDismissesEveryone(setup: Setup, states: seq<System>, steps: seq<Step>, i: nat)
    requires Run(setup, states, steps) && i < |steps| && steps[i] == Finish
    ensures states[i + 1].server.queues == map[] && states[i + 1].server.enqueued == []
    ensures states[i + 1].server.written == states[i].server.written
    ensures states[i + 1].server.histograms == states[i].server.histograms
    ensures states[i + 1].server.equalisedCount == states[i].server.equalisedCount == |setup.files|
    ensures states[i + 1].phase == Finished
  {
    RunStep(setup, states, steps, i);
    FinishedState(setup, states[i]);
    PhaseIsOver(setup, states[i]);
    PhaseOnePerFile(setup, states[i].phase);
  }

  // ---------------------------------------------------------------- saturation

  /** Work lists never outgrow the worker's concurrency, nor that 32. */
  lemma QueuesStayBounded(setup: Setup, states: seq<System>, steps: seq<Step>, i: nat, w: Identity)
    requires Run(setup, states, steps) && i < |states| && w in states[i].server.queues
    ensures |states[i].server.queues[w].work| <= states[i].server.queues[w].concurrency <= 32
  {
    RunKeeps(setup, states, steps, i);
  }

  /**
   Whenever a worker joins it is registered for as many jobs as it has threads, at most 32, and
   given the front of the queue: that many jobs, or all there are.
   */
  lemma JoiningWorkerIsFilled(setup: Setup, states: seq<System>, steps: seq<Step>, i: nat,
                              w: Identity, concurrency: nat)
    requires Run(setup, states, steps) && i < |steps| && steps[i] == Join(w, concurrency)
    ensures w !in states[i].server.queues && w in states[i + 1].server.queues
    ensures var data := states[i + 1].server.queues[w];
            && data.concurrency == (if concurrency < 32 then concurrency else 32)
            && states[i].server.enqueued == data.work + states[i + 1].server.enqueued
            && |data.work| <= data.concurrency
            && (|data.work| == data.concurrency || states[i + 1].server.enqueued == [])
  {
    RunKeeps(setup, states, steps, i);
    Handlers.HeloFills(states[i].server, w, concurrency, states[i].now);
    StepsFollowServer(setup, states[i], steps[i]);
  }

  predicate CanWork(c: System) {
    exists w :: w in c.server.queues && c.server.queues[w].concurrency > 0
  }

  lemma WorkIsLeft(s: ServerState, done: multiset<Job>, total: multiset<Job>)
    requires Outstanding(s) + done == total && |done| < |total| && s.enqueued == []
    ensures AllWork(s.queues) != multiset{}
  {
    assert |Outstanding(s) + done| == |Outstanding(s)| + |done|;
    assert Outstanding(s) == AllWork(s.queues);
  }

  /** With results missing and nothing queued, somebody has a job. */
  lemma SomeoneHasWork(setup: Setup, c: System)
    requires Servable(setup) && Conserved(setup, c) && |c.done| < |setup.files|
    requires c.server.enqueued == []
    ensures exists w :: w in c.server.queues && c.server.queues[w].work != []
  {
    PhaseOnePerFile(setup, c.phase);
    WorkIsLeft(c.server, c.done, PhaseTotal(setup, c.phase));
    var job :| job in AllWork(c.server.queues);
    SomeoneHas(c.server.queues, job);
    var w :| w in c.server.queues && job in c.server.queues[w].work;
    assert c.server.queues[w].work != [];
  }

  /**
   Without departures no worker has room while jobs are queued; so as long as results are
   missing and some worker can work, some worker has a job.
   */
  lemma UndisturbedRunsDoNotStall(setup: Setup, states: seq<System>, steps: seq<Step>, i: nat)
    requires Run(setup, states, steps) && i < |states|
    requires states[i].undisturbed && states[i].phase != Serving
    ensures Saturated(states[i].server)
    ensures |states[i].done| < |setup.files|
            && CanWork(states[i]) ==>
              exists w :: w in states[i].server.queues && states[i].server.queues[w].work != []
  {
    RunKeeps(setup, states, steps, i);
    if |states[i].done| < |setup.files| && CanWork(states[i]) { SomeoneIsBusy(setup, states[i]); }
  }

  lemma SomeoneIsBusy(setup: Setup, c: System)
    requires Servable(setup) && Conserved(setup, c) && Saturated(c.server)
    requires |c.done| < |setup.files| && CanWork(c)
    ensures exists w :: w in c.server.queues && c.server.queues[w].work != []
  {
    if c.server.enqueued == [] {
      SomeoneHasWork(setup, c);
    } else {
      var w :| w in c.server.queues && c.server.queues[w].concurrency > 0;
      assert Room(c.server.queues[w]) == 0;
    }
  }

  /**
   A departure keeps saturation exactly when no job is queued or returned, or every other
   worker is full: `dismiss_worker` and `visit_bye` put jobs back without handing them out.
   */
  lemma DepartureAndSaturation(s: ServerState, w: Identity)
    requires Saturated(s) && w in s.queues
    ensures Saturated(Dismiss(s, w)) <==> Saturated(ByeReceived(s, w))
    ensures Saturated(Dismiss(s, w)) <==>
            || (s.enqueued == [] && s.queues[w].work == [])
            || (forall x | x in s.queues && x != w :: Room(s.queues[x]) == 0)
  {
    RemovalAndSaturation(s, w, s.queues[w].work);
    RemovalAndSaturation(s, w, Reverse(s.queues[w].work));
  }

  lemma RemovalAndSaturation(s: ServerState, w: Identity, returned: seq<Job>)
    requires Saturated(s) && w in s.queues
    ensures Saturated(Remove(s, w, returned)) <==>
            || (s.enqueued == [] && returned == [])
            || (forall x | x in s.queues && x != w :: Room(s.queues[x]) == 0)
  {
    var t := Remove(s, w, returned);
    if t.enqueued != [] && Saturated(t) {
      forall x | x in s.queues && x != w
        ensures Room(s.queues[x]) == 0
      {
        assert x in t.queues;
      }
    }
  }

  /** Jobs are queued but no registered worker has any, so no answer can trigger a refill. */
  ghost predicate Stranded(c: System) {
    && (c.phase == Analysing || c.phase == Equalising) && c.server.enqueued != []
    && (forall w | w in c.server.queues :: c.server.queues[w].work == [])
  }

  lemma StrandedReturn(setup: Setup, c: System, w: Identity, job: Job, result: JobResult)
    requires Servable(setup) && Invariant(setup, c) && Stranded(c)
    requires Enabled(setup, c, Return(w, job, result))
    ensures w !in c.server.queues
    ensures var c' := After(setup, c, Return(w, job, result));
            && c'.server.(written := map[]) == c.server.(written := map[])
            && c'.done == c.done && c'.phase == c.phase
  {
    if w in c.server.queues { AnsweredIsOutstanding(setup, c, w, job); }
    LateReturn(setup, c, w, job, result);
  }

  lemma ResultsAreMissing(setup: Setup, c: System)
    requires Servable(setup) && Conserved(setup, c) && c.server.enqueued != []
    ensures |c.done| < |setup.files|
  {
    PhaseOnePerFile(setup, c.phase);
    assert |Outstanding(c.server) + c.done| == |Outstanding(c.server)| + |c.done|;
    assert |Outstanding(c.server)| == |c.server.enqueued| + |AllWork(c.server.queues)|;
  }

  lemma StrandedIsUnfinished(setup: Setup, c: System)
    requires Servable(setup) && Conserved(setup, c) && Recorded(setup, c) && Stranded(c)
    ensures !Enabled(setup, c, Finish) && !Enabled(setup, c, SwitchPhases)
  {
    ResultsAreMissing(setup, c);
  }

  /** From then on only a new worker helps: every other step leaves the jobs where they are. */
  lemma OnlyJoiningHelps(setup: Setup, c: System, step: Step)
    requires Servable(setup) && Invariant(setup, c) && Stranded(c)
    requires Enabled(setup, c, step) && !step.Join?
    ensures Stranded(After(setup, c, step)) && After(setup, c, step).done == c.done
  {
    if step.Return? {
      StrandedReturn(setup, c, step.w, step.job, step.result);
      StaysStranded(c, After(setup, c, step));
    } else {
      StrandedIsUnfinished(setup, c);
      StrandedElsewhere(setup, c, step);
    }
  }

  lemma StaysStranded(c: System, c': System)
    requires Stranded(c) && c'.phase == c.phase
    requires c'.server.(written := map[]) == c.server.(written := map[])
    ensures Stranded(c')
  {
    assert c'.server.queues == c.server.(written := map[]).queues;
    assert c'.server.enqueued == c.server.(written := map[]).enqueued;
  }

  lemma StrandedElsewhere(setup: Setup, c: System, step: Step)
    requires Stranded(c) && Enabled(setup, c, step)
    requires !step.Join? && !step.Return? && !step.SwitchPhases? && !step.Finish?
    ensures Stranded(After(setup, c, step)) && After(setup, c, step).done == c.done
  {
    if step.CheckHeartbeats? {
      DismissEachStranded(RefreshAll(c.server, step.clock), InOrder(ExpiredWorkers(c.server, step.clock)));
    }
  }

  lemma {:induction false} DismissEachStranded(s: ServerState, order: seq<Identity>)
    requires s.enqueued != [] && forall w | w in s.queues :: s.queues[w].work == []
    ensures DismissEach(s, order).enqueued != []
    ensures forall w | w in DismissEach(s, order).queues :: DismissEach(s, order).queues[w].work == []
    decreases |order|
  {
    if order != [] { DismissEachStranded(Dismiss(s, order[0]), order[1..]); }
  }
}
