/**
 What every step of the composed system keeps.
 */
module Invariants {
  import opened Config
  import opened Commands
  import opened Names
  import opened Dispatch
  import opened Cluster
  import opened Accounting

  ghost function PhaseTotal(setup: Setup, phase: Phase): multiset<Job> {
    multiset(PhaseJobs(setup, phase))
  }

  /** Every job of the phase is queued, assigned to one registered worker, or done. */
  ghost predicate Conserved(setup: Setup, c: System) {
    Outstanding(c.server) + c.done == PhaseTotal(setup, c.phase)
  }

  /** Whatever is under way for a registered worker is in its work list. */
  ghost predicate Contained(c: System) {
    forall w | w in c.server.queues ::
      w in c.pending && c.pending[w].All() <= multiset(c.server.queues[w].work)
  }

  /** A job of the current phase, or a leftover of the first. */
  ghost predicate Known(setup: Setup, phase: Phase, job: Job) {
    job in PhaseTotal(setup, phase) || job in PhaseTotal(setup, Analysing)
  }

  ghost predicate AllKnown(setup: Setup, phase: Phase, jobs: multiset<Job>) {
    forall j | j in jobs :: Known(setup, phase, j)
  }

  /** Even dismissed workers only have jobs the server made. */
  ghost predicate Genuine(setup: Setup, c: System) {
    forall w | w in c.pending :: AllKnown(setup, c.phase, c.pending[w].All())
  }

  ghost predicate Bounded(s: ServerState) {
    forall w | w in s.queues :: |s.queues[w].work| <= s.queues[w].concurrency <= MAX_WORKER_QUEUE
  }

  ghost predicate Core(setup: Setup, c: System) {
    Conserved(setup, c) && Contained(c) && Genuine(setup, c) && Bounded(c.server)
  }

  /** The results collected so far are the true ones and are counted by `done`. */
  ghost predicate Recorded(setup: Setup, c: System) {
    if c.phase == Analysing then
      && |c.server.histograms| == |c.done| && c.server.written == map[]
      && (forall j | j in c.done :: j.filename in c.server.histograms)
      && (forall f | f in c.server.histograms ::
            HistogramJob(f) in c.done && c.server.histograms[f] == setup.Histogram(f))
    else
      && c.server.histograms == TrueHistograms(setup)
      && c.server.equalisedCount == |c.done|
  }

  /** The path is where the result for some served file goes. */
  predicate IsOutput(setup: Setup, path: string) {
    exists g :: g in setup.files && path == OutputPath(g)
  }

  /**
   What equalising file `f` can yield: the equalised original, or, if results for another file
   are written to `f`, something that other job can yield, equalised again.
   */
  ghost predicate MayYield(setup: Setup, f: string, mapping: Histogram, tiff: seq<byte>)
    decreases |f|
  {
    || tiff == setup.library.equalise(setup.contents(f), mapping)
    || exists g, inner ::
         && g in EqualisationJobs(setup) && g.EqualisationJob? && f == OutputPath(g.filename)
         && MayYield(setup, g.filename, g.mapping, inner) && tiff == setup.library.equalise(inner, mapping)
  }

  /** What a job's result must be. In the first phase nothing is written, so files are intact. */
  ghost predicate Answers(setup: Setup, phase: Phase, job: Job, result: JobResult) {
    && Fits(job, result)
    && match job
       case HistogramJob(f) => phase == Analysing ==> result.histogram == setup.Histogram(f)
       case EqualisationJob(f, m) => MayYield(setup, f, m, result.tiff)
  }

  ghost predicate Backed(c: System, w: Identity, job: Job) {
    exists result :: Computation(w, job, result) in c.computed
  }

  /** Whatever workers have computed is a proper answer, and every answer has been computed. */
  ghost predicate Truthful(setup: Setup, c: System) {
    && (forall r | r in c.computed :: Answers(setup, c.phase, r.job, r.result))
    && (forall w, job | w in c.pending && job in c.pending[w].answered :: Backed(c, w, job))
  }

  /** A result that is there is one the job can yield. */
  ghost predicate RightlyWritten(setup: Setup, written: map<string, seq<byte>>, job: Job) {
    job.EqualisationJob? && OutputPath(job.filename) in written ==>
      MayYield(setup, job.filename, job.mapping, written[OutputPath(job.filename)])
  }

  /** Only results are written, every job done has been, and their contents are right. */
  ghost predicate Delivered(setup: Setup, c: System) {
    && (forall path | path in c.server.written :: IsOutput(setup, path))
    && (c.phase != Analysing ==> forall j | j in PhaseTotal(setup, c.phase) ::
          && j.EqualisationJob?
          && (j in c.done ==> OutputPath(j.filename) in c.server.written)
          && RightlyWritten(setup, c.server.written, j))
  }

  /** As long as nothing was lost, a registered worker's list is what is under way for it. */
  ghost predicate Reliable(c: System) {
    c.lossless ==> forall w | w in c.server.queues ::
      w in c.pending && c.pending[w].All() == multiset(c.server.queues[w].work)
  }

  /** No worker has room while jobs are queued. */
  ghost predicate Saturated(s: ServerState) {
    s.enqueued == [] || forall w | w in s.queues :: Room(s.queues[w]) == 0
  }

  ghost predicate Filled(c: System) {
    c.undisturbed && c.phase != Serving ==> Saturated(c.server)
  }

  ghost predicate Invariant(setup: Setup, c: System) {
    Core(setup, c) && Recorded(setup, c) && Delivered(setup, c) && Reliable(c) && Filled(c)
  }

  // ---------------------------------------------------------------- the jobs of a phase

  lemma HistogramJobsOnePerFile(setup: Setup)
    requires Servable(setup)
    ensures OnePerFile(PhaseTotal(setup, Analysing))
    ensures |PhaseTotal(setup, Analysing)| == |setup.files|
    ensures forall j | j in PhaseTotal(setup, Analysing) :: j.HistogramJob? && j.filename in setup.files
    ensures forall f | f in setup.files :: HistogramJob(f) in PhaseTotal(setup, Analysing)
  {
    var jobs := HistogramJobs(setup.files);
    DistinctIsOnePerFile(jobs);
    forall f | f in setup.files
      ensures HistogramJob(f) in jobs
    {
      var i :| 0 <= i < |setup.files| && setup.files[i] == f;
      assert jobs[i] == HistogramJob(f);
    }
  }

  lemma {:induction false} DistinctCount(files: seq<string>)
    requires forall i, k | 0 <= i < k < |files| :: files[i] != files[k]
    ensures |set f | f in files| == |files|
    decreases |files|
  {
    if files != [] {
      var last, rest := files[|files| - 1], files[..|files| - 1];
      DistinctCount(rest);
      assert files == rest + [last];
      assert (set f | f in files) == (set f | f in rest) + {last};
      assert last !in rest;
    }
  }

  /** The plan follows the files in name order. */
  lemma PlanFollowsNames(setup: Setup)
    requires Servable(setup)
    ensures var jobs, order := EqualisationJobs(setup), InOrder(TrueHistograms(setup).Keys);
            && |jobs| == |order| == |setup.files|
            && (forall k | 0 <= k < |jobs| :: jobs[k].EqualisationJob? && jobs[k].filename == order[k])
            && (forall f :: f in order <==> f in setup.files)
            && DistinctFiles(jobs)
  {
    var truth := TrueHistograms(setup);
    var jobs, order := EqualisationJobs(setup), InOrder(truth.Keys);
    InOrderElements(truth.Keys);
    assert truth.Keys == set f | f in setup.files;
    DistinctCount(setup.files);
    forall k | 0 <= k < |order|
      ensures jobs[k].EqualisationJob? && jobs[k].filename == order[k]
    {
      PlanAt(truth, order, |order|, k, setup.library.quantumRange);
    }
  }

  lemma JobsCoverFiles(jobs: seq<Job>, order: seq<string>, files: seq<string>)
    requires |jobs| == |order| && forall f :: f in order <==> f in files
    requires forall k | 0 <= k < |jobs| :: jobs[k].EqualisationJob? && jobs[k].filename == order[k]
    ensures forall j | j in multiset(jobs) :: j.EqualisationJob? && j.filename in files
    ensures forall f | f in files :: exists j :: j in multiset(jobs) && j.filename == f
  {
    forall j | j in multiset(jobs)
      ensures j.EqualisationJob? && j.filename in files
    {
      var i :| 0 <= i < |jobs| && jobs[i] == j;
      assert order[i] in order;
    }
    forall f | f in files
      ensures exists j :: j in multiset(jobs) && j.filename == f
    {
      assert f in order;
      var i :| 0 <= i < |order| && order[i] == f;
      assert jobs[i] in multiset(jobs) && jobs[i].filename == f;
    }
  }

  /** One equalisation job per file. */
  lemma EqualisationJobsOnePerFile(setup: Setup, phase: Phase)
    requires Servable(setup) && phase != Analysing
    ensures OnePerFile(PhaseTotal(setup, phase))
    ensures |PhaseTotal(setup, phase)| == |setup.files|
    ensures forall j | j in PhaseTotal(setup, phase) :: j.EqualisationJob? && j.filename in setup.files
    ensures forall f | f in setup.files ::
              exists j :: j in PhaseTotal(setup, phase) && j.filename == f
  {
    var jobs := EqualisationJobs(setup);
    PlanFollowsNames(setup);
    DistinctIsOnePerFile(jobs);
    JobsCoverFiles(jobs, InOrder(TrueHistograms(setup).Keys), setup.files);
    assert |multiset(jobs)| == |jobs|;
  }

  lemma PhaseOnePerFile(setup: Setup, phase: Phase)
    requires Servable(setup)
    ensures OnePerFile(PhaseTotal(setup, phase)) && |PhaseTotal(setup, phase)| == |setup.files|
  {
    if phase == Analysing {
      HistogramJobsOnePerFile(setup);
    } else {
      EqualisationJobsOnePerFile(setup, phase);
    }
  }

  lemma OnePerFileSubset(a: multiset<Job>, b: multiset<Job>)
    requires a <= b && OnePerFile(b)
    ensures OnePerFile(a)
  {
    forall j
      ensures a[j] <= 1
    {
      assert a[j] <= b[j] <= 1;
    }
  }

  // ---------------------------------------------------------------- handing out work

  lemma HandMoves(c: System, w: Identity)
    requires w in c.server.queues && w in c.pending
    ensures var taken := multiset(Taken(c.server, w));
            && multiset(Hand(c, w).server.queues[w].work) == multiset(c.server.queues[w].work) + taken
            && Hand(c, w).pending[w].All() == c.pending[w].All() + taken
    ensures forall j | j in Taken(c.server, w) :: j in Outstanding(c.server)
  {
    forall j | j in Taken(c.server, w)
      ensures j in Outstanding(c.server)
    {
      assert j in c.server.enqueued;
    }
  }

  lemma HandKeepsLists(c: System, w: Identity)
    requires Contained(c) && w in c.server.queues
    ensures w in c.pending && Contained(Hand(c, w))
    ensures Reliable(c) ==> Reliable(Hand(c, w))
  {
    HandMoves(c, w);
  }

  lemma HandKeepsBounded(s: ServerState, w: Identity)
    requires Bounded(s) && w in s.queues
    ensures Bounded(Transmit(s, w))
  {
  }

  lemma HandKeepsGenuine(setup: Setup, c: System, w: Identity)
    requires Genuine(setup, c) && Conserved(setup, c) && w in c.server.queues && w in c.pending
    ensures Genuine(setup, Hand(c, w))
  {
    HandMoves(c, w);
    var taken := Taken(c.server, w);
    forall j | j in taken
      ensures j in PhaseTotal(setup, c.phase)
    {
      assert j in Outstanding(c.server);
    }
    assert AllKnown(setup, c.phase, c.pending[w].All());
    assert AllKnown(setup, c.phase, Hand(c, w).pending[w].All());
  }

  lemma HandKeepsCore(setup: Setup, c: System, w: Identity)
    requires Core(setup, c) && w in c.server.queues
    ensures w in c.pending && Core(setup, Hand(c, w))
  {
    TransmitConserves(c.server, w);
    HandKeepsLists(c, w);
    HandKeepsBounded(c.server, w);
    HandKeepsGenuine(setup, c, w);
  }

  /** Filling a worker restores saturation if it was the only one with room. */
  lemma TransmitSaturates(s: ServerState, w: Identity)
    requires w in s.queues
    requires s.enqueued == [] || forall x | x in s.queues && x != w :: Room(s.queues[x]) == 0
    ensures Saturated(Transmit(s, w))
  {
    assert Transmit(s, w).enqueued != [] ==> |Taken(s, w)| == Room(s.queues[w]);
  }

  lemma HandIfAnyKeeps(setup: Setup, c: System, w: Identity)
    requires Core(setup, c) && Reliable(c) && w in c.server.queues && w in c.pending
    requires c.undisturbed ==>
               c.server.enqueued == []
               || forall x | x in c.server.queues && x != w :: Room(c.server.queues[x]) == 0
    ensures Core(setup, HandIfAny(c, w)) && Reliable(HandIfAny(c, w)) && Filled(HandIfAny(c, w))
  {
    if c.server.enqueued != [] {
      HandKeepsCore(setup, c, w);
      HandKeepsLists(c, w);
      if c.undisturbed { TransmitSaturates(c.server, w); }
    }
  }

  /** A step that leaves the results alone keeps what is said about them. */
  lemma BooksUntouched(setup: Setup, c: System, c': System)
    requires Recorded(setup, c) && Delivered(setup, c)
    requires c'.phase == c.phase && c'.done == c.done
    requires c'.server.histograms == c.server.histograms && c'.server.written == c.server.written
    requires c'.server.equalisedCount == c.server.equalisedCount
    ensures Recorded(setup, c') && Delivered(setup, c')
  {
  }

  // ---------------------------------------------------------------- joining

  lemma EnterIsNew(c: System, w: Identity, concurrency: nat)
    requires Contained(c) && w !in c.pending
    ensures w !in c.server.queues
    ensures var c', empty := Enter(c, w, concurrency), Pending(multiset{}, multiset{}, multiset{});
            && c'.server.queues == c.server.queues[
                 w := WorkerData([], c.now, false, Min(concurrency, MAX_WORKER_QUEUE))]
            && c'.pending == c.pending[w := empty] && empty.All() == multiset{}
            && c'.lossless == c.lossless
  {
  }

  lemma EnterKeepsLists(c: System, w: Identity, concurrency: nat)
    requires Contained(c) && w !in c.pending
    ensures Contained(Enter(c, w, concurrency))
    ensures Reliable(c) ==> Reliable(Enter(c, w, concurrency))
  {
    EnterIsNew(c, w, concurrency);
    var c' := Enter(c, w, concurrency);
    forall x | x in c'.server.queues
      ensures x in c'.pending && c'.pending[x].All() <= multiset(c'.server.queues[x].work)
      ensures Reliable(c) && c'.lossless ==> c'.pending[x].All() == multiset(c'.server.queues[x].work)
    {
      if x != w {
        assert c'.server.queues[x] == c.server.queues[x] && c'.pending[x] == c.pending[x];
      }
    }
  }

  lemma EnterKeepsBounded(s: ServerState, w: Identity, concurrency: nat, now: int)
    requires Bounded(s)
    ensures Bounded(Register(s, w, concurrency, now))
  {
  }

  lemma EnterKeepsCore(setup: Setup, c: System, w: Identity, concurrency: nat)
    requires Core(setup, c) && w !in c.pending
    ensures Core(setup, Enter(c, w, concurrency))
  {
    EnterIsNew(c, w, concurrency);
    EnterKeepsLists(c, w, concurrency);
    EnterKeepsBounded(c.server, w, concurrency, c.now);
    RegisterConserves(c.server, w, concurrency, c.now);
    assert Genuine(setup, Enter(c, w, concurrency));
  }

  /** A new worker is the only one that may have room. */
  lemma EnterLeavesOthersFull(c: System, w: Identity, concurrency: nat)
    requires Saturated(c.server) && w !in c.server.queues
    ensures var s := Enter(c, w, concurrency).server;
            s.enqueued == [] || forall x | x in s.queues && x != w :: Room(s.queues[x]) == 0
  {
  }

  lemma JoinKeeps(setup: Setup, c: System, w: Identity, concurrency: nat)
    requires Invariant(setup, c) && Enabled(setup, c, Join(w, concurrency))
    ensures Invariant(setup, After(setup, c, Join(w, concurrency)))
  {
    var c1 := Enter(c, w, concurrency);
    EnterIsNew(c, w, concurrency);
    EnterKeepsLists(c, w, concurrency);
    EnterKeepsCore(setup, c, w, concurrency);
    if c.undisturbed && c.phase != Serving {
      EnterLeavesOthersFull(c, w, concurrency);
      TransmitSaturates(c1.server, w);
    }
    HandKeepsCore(setup, c1, w);
    HandKeepsLists(c1, w);
    BooksUntouched(setup, c, Hand(c1, w));
  }

  // ---------------------------------------------------------------- results

  /** What a registered worker answers is a job of the running phase that is not yet done. */
  lemma AnsweredIsOutstanding(setup: Setup, c: System, w: Identity, job: Job)
    requires Servable(setup) && Core(setup, c)
    requires w in c.server.queues && job in c.pending[w].answered
    ensures job in PhaseTotal(setup, c.phase) && Expected(c.phase, job) && job !in c.done
    ensures job in c.server.queues[w].work && OnePerFile(multiset(c.server.queues[w].work))
  {
    var work := multiset(c.server.queues[w].work);
    assert job in c.pending[w].All() && job in work;
    WorkIsOutstanding(c.server, w);
    var total := PhaseTotal(setup, c.phase);
    assert job in Outstanding(c.server) && job in total;
    PhaseOnePerFile(setup, c.phase);
    assert total[job] <= 1 && Outstanding(c.server)[job] >= 1;
    if c.phase == Analysing {
      HistogramJobsOnePerFile(setup);
    } else {
      EqualisationJobsOnePerFile(setup, c.phase);
    }
    assert work <= total;
    OnePerFileSubset(work, total);
  }

  /** `find_if` never misses: a registered worker's answer meets exactly its job. */
  lemma AnswerFindsJob(setup: Setup, c: System, w: Identity, job: Job, result: JobResult)
    requires Servable(setup) && Core(setup, c) && Fits(job, result)
    requires w in c.server.queues && job in c.pending[w].answered
    ensures job in PhaseTotal(setup, c.phase) && Expected(c.phase, job) && job !in c.done
    ensures var work := c.server.queues[w].work;
            var i := FindMatch(work, result);
            && i < |work| && work[i] == job
            && (forall k | 0 <= k < |work| && Matches(work[k], result) :: k == i)
  {
    AnsweredIsOutstanding(setup, c, w, job);
    ComparisonsAgree(job, job, result);
    FindsTheJob(c.server.queues[w].work, job, result);
  }

  /** Taking an answer off the wire and its job off the list. */
  function Settled(c: System, w: Identity, job: Job, result: JobResult): System
    requires w in c.server.queues && w in c.pending
  {
    Settle(TakeAnswer(c, w, job), w, job, result)
  }

  lemma SettleConserves(setup: Setup, c: System, w: Identity, job: Job, result: JobResult)
    requires Servable(setup) && Core(setup, c) && Fits(job, result)
    requires w in c.server.queues && job in c.pending[w].answered
    ensures Conserved(setup, Settled(c, w, job, result))
  {
    AnswerFindsJob(setup, c, w, job, result);
    RetireAccounts(c.server, w, result);
    assert Settled(c, w, job, result).server == Retire(c.server, w, result);
  }

  lemma SettleWork(setup: Setup, c: System, w: Identity, job: Job, result: JobResult)
    requires Servable(setup) && Core(setup, c) && Fits(job, result)
    requires w in c.server.queues && job in c.pending[w].answered
    ensures var c' := Settled(c, w, job, result);
            && c'.pending[w].All() == c.pending[w].All() - multiset{job}
            && multiset(c'.server.queues[w].work) == multiset(c.server.queues[w].work) - multiset{job}
            && |c'.server.queues[w].work| == |c.server.queues[w].work| - 1
  {
    AnswerFindsJob(setup, c, w, job, result);
    SettledWork(c, w, job, result);
  }

  lemma SettledWork(c: System, w: Identity, job: Job, result: JobResult)
    requires w in c.server.queues && w in c.pending && job in c.pending[w].answered
    requires var work := c.server.queues[w].work;
             FindMatch(work, result) < |work| && work[FindMatch(work, result)] == job
    ensures var c' := Settled(c, w, job, result);
            && c'.pending[w].All() == c.pending[w].All() - multiset{job}
            && multiset(c'.server.queues[w].work) == multiset(c.server.queues[w].work) - multiset{job}
            && |c'.server.queues[w].work| == |c.server.queues[w].work| - 1
  {
    RetiredAccounts(c.server.queues[w].work, result);
  }

  lemma SettleKeepsLists(setup: Setup, c: System, w: Identity, job: Job, result: JobResult)
    requires Servable(setup) && Core(setup, c) && Fits(job, result)
    requires w in c.server.queues && job in c.pending[w].answered
    ensures Contained(Settled(c, w, job, result))
    ensures Reliable(c) ==> Reliable(Settled(c, w, job, result))
  {
    SettleWork(setup, c, w, job, result);
    ShorterListsKeep(c, Settled(c, w, job, result), w, multiset{job});
  }

  lemma FewerStillCovered(under: multiset<Job>, work: multiset<Job>, dropped: multiset<Job>)
    requires under <= work
    ensures under - dropped <= work - dropped
  {
  }

  /** Dropping the same jobs from a worker's list and from what is under way for it. */
  lemma ShorterListsKeep(c: System, c': System, w: Identity, dropped: multiset<Job>)
    requires Contained(c) && w in c.server.queues && w in c.pending
    requires c'.server.queues.Keys == c.server.queues.Keys && c'.pending.Keys == c.pending.Keys
    requires c'.lossless == c.lossless
    requires c'.pending[w].All() == c.pending[w].All() - dropped
    requires multiset(c'.server.queues[w].work) == multiset(c.server.queues[w].work) - dropped
    requires forall x | x in c.server.queues && x != w ::
               c'.server.queues[x] == c.server.queues[x] && c'.pending[x] == c.pending[x]
    ensures Contained(c')
    ensures Reliable(c) ==> Reliable(c')
  {
    FewerStillCovered(c.pending[w].All(), multiset(c.server.queues[w].work), dropped);
  }

  lemma SettleKeepsBounded(setup: Setup, c: System, w: Identity, job: Job, result: JobResult)
    requires Servable(setup) && Core(setup, c) && Fits(job, result)
    requires w in c.server.queues && job in c.pending[w].answered
    ensures Bounded(Settled(c, w, job, result).server)
  {
    SettleWork(setup, c, w, job, result);
  }

  lemma SettleKeepsGenuine(setup: Setup, c: System, w: Identity, job: Job, result: JobResult)
    requires Genuine(setup, c) && w in c.server.queues && w in c.pending
    ensures Genuine(setup, Settled(c, w, job, result))
  {
    var c' := Settled(c, w, job, result);
    assert forall j | j in c'.pending[w].All() :: j in c.pending[w].All();
    assert AllKnown(setup, c.phase, c.pending[w].All());
    assert AllKnown(setup, c.phase, c'.pending[w].All());
  }

  lemma SettleKeepsCore(setup: Setup, c: System, w: Identity, job: Job, result: JobResult)
    requires Servable(setup) && Core(setup, c) && Fits(job, result)
    requires w in c.server.queues && job in c.pending[w].answered
    ensures Core(setup, Settled(c, w, job, result))
    ensures Reliable(c) ==> Reliable(Settled(c, w, job, result))
  {
    SettleConserves(setup, c, w, job, result);
    SettleKeepsLists(setup, c, w, job, result);
    SettleKeepsBounded(setup, c, w, job, result);
    SettleKeepsGenuine(setup, c, w, job, result);
  }

  lemma SettleLeavesOthersFull(c: System, w: Identity, job: Job, result: JobResult)
    requires w in c.server.queues && w in c.pending && Saturated(c.server)
    ensures var s := Settled(c, w, job, result).server;
            s.enqueued == [] || forall x | x in s.queues && x != w :: Room(s.queues[x]) == 0
  {
  }

  /** Only the lists, the messages and `done` matter to the accounting. */
  lemma CoreIgnoresBooks(setup: Setup, c: System, c': System)
    requires c'.server.enqueued == c.server.enqueued && c'.server.queues == c.server.queues
    requires c'.pending == c.pending && c'.done == c.done && c'.phase == c.phase
    requires c'.lossless == c.lossless
    ensures Core(setup, c) ==> Core(setup, c')
    ensures Reliable(c) ==> Reliable(c')
  {
  }

  lemma StoreCommutes(c: System, w: Identity, job: Job, result: JobResult)
    requires w in c.pending
    ensures Store(TakeAnswer(c, w, job), w, result) == TakeAnswer(Store(c, w, result), w, job)
    ensures Store(c, w, result).server.queues == c.server.queues
  {
  }

  /** The state of the books once a registered worker's result is in. */
  ghost predicate BooksAdvanced(setup: Setup, c: System, c': System, job: Job, result: JobResult) {
    && c'.phase == c.phase && c'.done == c.done + multiset{job}
    && if c.phase == Analysing then
         result.HistogramResult?
         && c'.server.histograms == c.server.histograms[job.filename := result.histogram]
         && c'.server.written == c.server.written
       else
         result.EqualisationResult? && c'.server.histograms == c.server.histograms
         && c'.server.equalisedCount == c.server.equalisedCount + 1
         && c'.server.written == c.server.written[OutputPath(job.filename) := result.tiff]
  }

  lemma NotYetRecorded(setup: Setup, c: System, job: Job)
    requires Servable(setup) && Recorded(setup, c) && c.phase == Analysing
    requires job in PhaseTotal(setup, c.phase) && job !in c.done
    ensures job.HistogramJob? && job.filename !in c.server.histograms
  {
    HistogramJobsOnePerFile(setup);
    assert job == HistogramJob(job.filename);
  }

  /** One more true histogram, of a file that had none. */
  lemma OneMoreHistogram(setup: Setup, c: System, c': System, f: string)
    requires c.phase == Analysing && Recorded(setup, c) && c'.phase == c.phase
    requires f !in c.server.histograms && c'.done == c.done + multiset{HistogramJob(f)}
    requires c'.server.histograms == c.server.histograms[f := setup.Histogram(f)]
    requires c'.server.written == c.server.written
    ensures Recorded(setup, c')
  {
  }

  lemma AdvancedKeepsRecorded(setup: Setup, c: System, c': System, job: Job, result: JobResult)
    requires Servable(setup) && Recorded(setup, c) && BooksAdvanced(setup, c, c', job, result)
    requires job in PhaseTotal(setup, c.phase) && job !in c.done
    requires Answers(setup, c.phase, job, result)
    ensures Recorded(setup, c')
  {
    if c.phase == Analysing {
      NotYetRecorded(setup, c, job);
      assert job == HistogramJob(job.filename);
      OneMoreHistogram(setup, c, c', job.filename);
    }
  }

  /** Writing an answer to a planned job leaves every other result alone. */
  lemma WriteKeepsContents(setup: Setup, before: map<string, seq<byte>>, job: Job, tiff: seq<byte>, j: Job)
    requires j.EqualisationJob? && RightlyWritten(setup, before, j) && job.EqualisationJob?
    requires j.filename == job.filename ==> j == job
    requires MayYield(setup, job.filename, job.mapping, tiff)
    ensures RightlyWritten(setup, before[OutputPath(job.filename) := tiff], j)
  {
    if OutputPath(j.filename) == OutputPath(job.filename) { OutputPathsDiffer(j.filename, job.filename); }
  }

  /** Writing a result keeps every file's content right. */
  lemma WriteKeepsDelivered(setup: Setup, c: System, c': System, job: Job, tiff: seq<byte>)
    requires Servable(setup) && Delivered(setup, c) && c'.phase == c.phase != Analysing
    requires job in PhaseTotal(setup, c.phase) && job.EqualisationJob?
    requires MayYield(setup, job.filename, job.mapping, tiff)
    requires c'.server.written == c.server.written[OutputPath(job.filename) := tiff]
    requires c'.done == c.done || c'.done == c.done + multiset{job}
    ensures Delivered(setup, c')
  {
    EqualisationJobsOnePerFile(setup, c.phase);
    assert IsOutput(setup, OutputPath(job.filename));
    forall j | j in PhaseTotal(setup, c'.phase)
      ensures j.EqualisationJob? && (j in c'.done ==> OutputPath(j.filename) in c'.server.written)
      ensures RightlyWritten(setup, c'.server.written, j)
    {
      WriteKeepsContents(setup, c.server.written, job, tiff, j);
    }
  }

  lemma AdvancedKeepsDelivered(setup: Setup, c: System, c': System, job: Job, result: JobResult)
    requires Servable(setup) && Delivered(setup, c) && BooksAdvanced(setup, c, c', job, result)
    requires job in PhaseTotal(setup, c.phase) && Expected(c.phase, job)
    requires Answers(setup, c.phase, job, result)
    ensures Delivered(setup, c')
  {
    if c.phase != Analysing { WriteKeepsDelivered(setup, c, c', job, result.tiff); }
  }

  lemma FewerPendingGenuine(setup: Setup, c: System, w: Identity, left: Pending)
    requires Genuine(setup, c) && w in c.pending && left.All() <= c.pending[w].All()
    ensures Genuine(setup, c.(pending := c.pending[w := left]))
  {
    assert forall j | j in left.All() :: j in c.pending[w].All();
    assert AllKnown(setup, c.phase, c.pending[w].All());
    assert AllKnown(setup, c.phase, left.All());
  }

  lemma FewerPendingContained(c: System, w: Identity, left: Pending)
    requires Contained(c) && w in c.pending && left.All() <= c.pending[w].All()
    ensures Contained(c.(pending := c.pending[w := left]))
    ensures Reliable(c) && (left.All() == c.pending[w].All() || w !in c.server.queues) ==>
              Reliable(c.(pending := c.pending[w := left]))
  {
  }

  /** Messages that move on or disappear leave the accounting alone. */
  lemma PendingShrinks(setup: Setup, c: System, w: Identity, left: Pending)
    requires Core(setup, c) && w in c.pending && left.All() <= c.pending[w].All()
    ensures var c' := c.(pending := c.pending[w := left]);
            && Core(setup, c')
            && (Reliable(c) && (left.All() == c.pending[w].All() || w !in c.server.queues) ==>
                  Reliable(c'))
  {
    FewerPendingGenuine(setup, c, w, left);
    FewerPendingContained(c, w, left);
  }

  lemma TakeAnswerKeeps(setup: Setup, c: System, w: Identity, job: Job)
    requires Invariant(setup, c) && w in c.pending && w !in c.server.queues
    ensures Invariant(setup, TakeAnswer(c, w, job))
  {
    var p := c.pending[w];
    PendingShrinks(setup, c, w, p.(answered := p.answered - multiset{job}));
    BooksUntouched(setup, c, TakeAnswer(c, w, job));
  }

  lemma LateWriteKeeps(setup: Setup, c: System, w: Identity, job: Job, result: JobResult)
    requires Servable(setup) && Invariant(setup, c) && c.phase != Analysing
    requires w in c.pending && w !in c.server.queues && job.EqualisationJob?
    requires job in PhaseTotal(setup, c.phase) && Answers(setup, c.phase, job, result)
    ensures Invariant(setup, Store(c, w, result))
  {
    var c' := Store(c, w, result);
    CoreIgnoresBooks(setup, c, c');
    WriteKeepsDelivered(setup, c, c', job, result.tiff);
  }

  /** Whatever a worker answers to an equalisation job is in the current plan. */
  lemma AnsweredIsPlanned(setup: Setup, c: System, w: Identity, job: Job)
    requires Servable(setup) && Genuine(setup, c) && w in c.pending && job in c.pending[w].answered
    requires job.EqualisationJob?
    ensures job in PhaseTotal(setup, c.phase)
  {
    HistogramJobsOnePerFile(setup);
    assert job in c.pending[w].All();
    assert AllKnown(setup, c.phase, c.pending[w].All());
  }

  lemma LateReturn(setup: Setup, c: System, w: Identity, job: Job, result: JobResult)
    requires Enabled(setup, c, Return(w, job, result)) && w !in c.server.queues
    ensures var c' := After(setup, c, Return(w, job, result));
            && c' == (if Expected(c.phase, job) && c.phase != Analysing
                      then Store(TakeAnswer(c, w, job), w, result)
                      else TakeAnswer(c, w, job))
            && c'.done == c.done && c'.phase == c.phase
            && c'.server.(written := map[]) == c.server.(written := map[])
  {
  }

  /** A result of a dismissed worker changes no accounting; a late TIFF rewrites the same bytes. */
  lemma LateResultKeeps(setup: Setup, c: System, w: Identity, job: Job, result: JobResult)
    requires Servable(setup) && Invariant(setup, c) && Enabled(setup, c, Return(w, job, result))
    requires Answers(setup, c.phase, job, result)
    requires w !in c.server.queues
    ensures Invariant(setup, After(setup, c, Return(w, job, result)))
  {
    LateReturn(setup, c, w, job, result);
    TakeAnswerKeeps(setup, c, w, job);
    if Expected(c.phase, job) && c.phase != Analysing {
      AnsweredIsPlanned(setup, c, w, job);
      LateWriteKeeps(setup, TakeAnswer(c, w, job), w, job, result);
    }
  }

  lemma StoreAdvancesBooks(setup: Setup, c: System, w: Identity, job: Job, result: JobResult)
    requires w in c.server.queues && w in c.pending && Expected(c.phase, job) && Fits(job, result)
    requires c.phase == Analysing ==> job.filename !in c.server.histograms
    ensures Store(c, w, result).server.queues == c.server.queues
    ensures BooksAdvanced(setup, c, Settled(Store(c, w, result), w, job, result), job, result)
  {
  }

  lemma ResultKeepsBooks(setup: Setup, c: System, w: Identity, job: Job, result: JobResult)
    requires Servable(setup) && Recorded(setup, c) && Delivered(setup, c)
    requires w in c.server.queues && w in c.pending && Answers(setup, c.phase, job, result)
    requires job in PhaseTotal(setup, c.phase) && Expected(c.phase, job) && job !in c.done
    ensures Store(c, w, result).server.queues == c.server.queues
    ensures var c' := Settled(Store(c, w, result), w, job, result);
            Recorded(setup, c') && Delivered(setup, c')
  {
    if c.phase == Analysing { NotYetRecorded(setup, c, job); }
    StoreAdvancesBooks(setup, c, w, job, result);
    var c' := Settled(Store(c, w, result), w, job, result);
    AdvancedKeepsRecorded(setup, c, c', job, result);
    AdvancedKeepsDelivered(setup, c, c', job, result);
  }

  /** A registered worker's result: store it, settle its job, fill the worker again. */
  lemma RegisteredReturn(setup: Setup, c: System, w: Identity, job: Job, result: JobResult)
    requires Enabled(setup, c, Return(w, job, result)) && w in c.server.queues && Expected(c.phase, job)
    ensures var c1 := Store(c, w, result);
            && w in c1.server.queues && w in Settled(c1, w, job, result).pending
            && After(setup, c, Return(w, job, result)) == HandIfAny(Settled(c1, w, job, result), w)
            && c1.server.queues == c.server.queues && c1.server.enqueued == c.server.enqueued
            && c1.pending == c.pending
  {
    StoreCommutes(c, w, job, result);
  }

  lemma ResultKeepsLists(setup: Setup, c: System, w: Identity, job: Job, result: JobResult)
    requires Servable(setup) && Core(setup, c) && Reliable(c) && Filled(c) && c.phase != Serving
    requires w in c.server.queues && w in c.pending && job in c.pending[w].answered && Fits(job, result)
    ensures var c' := HandIfAny(Settled(c, w, job, result), w);
            Core(setup, c') && Reliable(c') && Filled(c')
  {
    SettleKeepsCore(setup, c, w, job, result);
    if c.undisturbed { SettleLeavesOthersFull(c, w, job, result); }
    HandIfAnyKeeps(setup, Settled(c, w, job, result), w);
  }

  lemma HandLeavesBooks(c: System, w: Identity)
    requires w in c.server.queues && w in c.pending
    ensures var c' := HandIfAny(c, w);
            && c'.phase == c.phase && c'.done == c.done
            && c'.server.histograms == c.server.histograms && c'.server.written == c.server.written
            && c'.server.equalisedCount == c.server.equalisedCount
  {
  }

  /** What `Store` leaves alone. */
  lemma StoreFrame(c: System, w: Identity, result: JobResult)
    ensures var c1 := Store(c, w, result);
            && c1.server.enqueued == c.server.enqueued && c1.server.queues == c.server.queues
            && c1.pending == c.pending && c1.done == c.done && c1.phase == c.phase
            && c1.lossless == c.lossless && c1.undisturbed == c.undisturbed
  {
  }

  lemma ListsIgnoreBooks(setup: Setup, c: System, c': System)
    requires Core(setup, c) && Reliable(c) && Filled(c)
    requires c'.server.enqueued == c.server.enqueued && c'.server.queues == c.server.queues
    requires c'.pending == c.pending && c'.done == c.done && c'.phase == c.phase
    requires c'.lossless == c.lossless && c'.undisturbed == c.undisturbed
    ensures Core(setup, c') && Reliable(c') && Filled(c')
  {
    CoreIgnoresBooks(setup, c, c');
  }

  lemma RefilledKeepsLists(setup: Setup, c: System, w: Identity, job: Job, result: JobResult)
    requires Servable(setup) && Core(setup, c) && Reliable(c) && Filled(c) && c.phase != Serving
    requires w in c.server.queues && w in c.pending && job in c.pending[w].answered && Fits(job, result)
    ensures Store(c, w, result).server.queues == c.server.queues && Store(c, w, result).pending == c.pending
    ensures var c' := HandIfAny(Settled(Store(c, w, result), w, job, result), w);
            Core(setup, c') && Reliable(c') && Filled(c')
  {
    StoreFrame(c, w, result);
    ListsIgnoreBooks(setup, c, Store(c, w, result));
    ResultKeepsLists(setup, Store(c, w, result), w, job, result);
  }

  lemma RefilledKeepsBooks(setup: Setup, c: System, w: Identity)
    requires Recorded(setup, c) && Delivered(setup, c) && w in c.server.queues && w in c.pending
    ensures Recorded(setup, HandIfAny(c, w)) && Delivered(setup, HandIfAny(c, w))
  {
    HandLeavesBooks(c, w);
    BooksUntouched(setup, c, HandIfAny(c, w));
  }

  lemma ResultKeeps(setup: Setup, c: System, w: Identity, job: Job, result: JobResult)
    requires Servable(setup) && Invariant(setup, c) && Enabled(setup, c, Return(w, job, result))
    requires Answers(setup, c.phase, job, result)
    requires w in c.server.queues
    ensures Invariant(setup, After(setup, c, Return(w, job, result)))
  {
    AnsweredIsOutstanding(setup, c, w, job);
    RegisteredReturn(setup, c, w, job, result);
    RefilledKeepsLists(setup, c, w, job, result);
    ResultKeepsBooks(setup, c, w, job, result);
    RefilledKeepsBooks(setup, Settled(Store(c, w, result), w, job, result), w);
  }
}
