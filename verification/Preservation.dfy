/**
 Every step keeps the invariant, so every state of every run has it.
 */
module Preservation {
  import opened Config
  import opened Commands
  import opened Names
  import opened Dispatch
  import opened Cluster
  import opened Accounting
  import opened Invariants

  // ---------------------------------------------------------------- heartbeats

  /** Only heartbeat fields differ. */
  ghost predicate SameAssignments(s: ServerState, t: ServerState) {
    && t.enqueued == s.enqueued && t.queues.Keys == s.queues.Keys
    && (forall w | w in s.queues ::
          t.queues[w].work == s.queues[w].work && t.queues[w].concurrency == s.queues[w].concurrency)
    && t.histograms == s.histograms && t.written == s.written
    && t.equalisedCount == s.equalisedCount
  }

  lemma HeartbeatFieldsKeep(setup: Setup, c: System, t: ServerState)
    requires Invariant(setup, c) && SameAssignments(c.server, t)
    ensures Invariant(setup, c.(server := t))
  {
    SameWork(c.server.queues, t.queues);
    BooksUntouched(setup, c, c.(server := t));
  }

  lemma ReplyKeepsAssignments(s: ServerState, w: Identity)
    ensures SameAssignments(s, HeartbeatReply(s, w))
  {
  }

  lemma AliveKeeps(setup: Setup, c: System, w: Identity)
    requires Invariant(setup, c)
    ensures Invariant(setup, After(setup, c, Alive(w)))
  {
    ReplyKeepsAssignments(c.server, w);
    var t := HeartbeatReply(c.server, w);
    HeartbeatFieldsKeep(setup, c, t);
    assert After(setup, c, Alive(w)) == c.(server := t);
  }

  lemma RemoveKeeps(setup: Setup, c: System, w: Identity, returned: seq<Job>)
    requires Core(setup, c) && Reliable(c) && w in c.server.queues
    requires multiset(returned) == multiset(c.server.queues[w].work)
    ensures var c' := c.(server := Remove(c.server, w, returned));
            Core(setup, c') && Reliable(c')
  {
    RemoveConserves(c.server, w, returned);
  }

  lemma {:induction false} DismissEachKeeps(setup: Setup, c: System, order: seq<Identity>)
    requires Core(setup, c) && Reliable(c)
    ensures var s := DismissEach(c.server, order);
            && Core(setup, c.(server := s)) && Reliable(c.(server := s))
            && s.histograms == c.server.histograms && s.written == c.server.written
            && s.equalisedCount == c.server.equalisedCount
    decreases |order|
  {
    if order == [] {
      assert c.(server := c.server) == c;
    } else {
      var w := order[0];
      var c1 := c.(server := Dismiss(c.server, w));
      if w in c.server.queues {
        RemoveKeeps(setup, c, w, c.server.queues[w].work);
      } else {
        assert c1 == c;
      }
      DismissEachKeeps(setup, c1, order[1..]);
      assert c1.(server := DismissEach(c1.server, order[1..]))
          == c.(server := DismissEach(c.server, order));
    }
  }

  /** What the lists and messages of a step must satisfy, given that it leaves the results alone. */
  lemma Reassemble(setup: Setup, c: System, c': System)
    requires Recorded(setup, c) && Delivered(setup, c)
    requires Core(setup, c') && Reliable(c') && Filled(c')
    requires c'.phase == c.phase && c'.done == c.done
    requires c'.server.histograms == c.server.histograms && c'.server.written == c.server.written
    requires c'.server.equalisedCount == c.server.equalisedCount
    ensures Invariant(setup, c')
  {
    BooksUntouched(setup, c, c');
  }

  lemma NoneExpired(s: ServerState, clock: Clock)
    requires ExpiredWorkers(s, clock) == {}
    ensures HeartbeatPass(s, clock) == RefreshAll(s, clock)
  {
    assert InOrder({}) == [];
  }

  lemma RefreshKeepsAssignments(s: ServerState, clock: Clock)
    ensures SameAssignments(s, RefreshAll(s, clock))
  {
  }

  lemma CheckHeartbeatsKeepsCore(setup: Setup, c: System, clock: Clock)
    requires Invariant(setup, c) && c.phase == Equalising
    ensures var c' := c.(server := HeartbeatPass(c.server, clock));
            && Core(setup, c') && Reliable(c')
            && c'.server.histograms == c.server.histograms && c'.server.written == c.server.written
            && c'.server.equalisedCount == c.server.equalisedCount
  {
    var refreshed := RefreshAll(c.server, clock);
    RefreshKeepsAssignments(c.server, clock);
    HeartbeatFieldsKeep(setup, c, refreshed);
    DismissEachKeeps(setup, c.(server := refreshed), InOrder(ExpiredWorkers(c.server, clock)));
    assert c.(server := refreshed).(server := HeartbeatPass(c.server, clock))
        == c.(server := HeartbeatPass(c.server, clock));
  }

  /** A pass that dismisses nobody moves no job. */
  lemma QuietCheckKeepsSaturated(s: ServerState, clock: Clock)
    requires Saturated(s) && ExpiredWorkers(s, clock) == {}
    ensures Saturated(HeartbeatPass(s, clock))
  {
    NoneExpired(s, clock);
  }

  lemma CheckHeartbeatsKeeps(setup: Setup, c: System, clock: Clock, end: int)
    requires Invariant(setup, c) && Enabled(setup, c, CheckHeartbeats(clock, end))
    ensures Invariant(setup, After(setup, c, CheckHeartbeats(clock, end)))
  {
    var quiet := c.undisturbed && ExpiredWorkers(c.server, clock) == {};
    CheckHeartbeatsKeepsCore(setup, c, clock);
    var c1 := c.(server := HeartbeatPass(c.server, clock));
    BooksUntouched(setup, c, c1);
    if quiet { QuietCheckKeepsSaturated(c.server, clock); }
    ClearFlags(setup, c1, quiet, c.lossless);
    TickKeeps(setup, c1.(undisturbed := quiet), end);
  }

  /** Clearing a flag weakens what is claimed; keeping `undisturbed` needs saturation. */
  lemma ClearFlags(setup: Setup, c: System, undisturbed: bool, lossless: bool)
    requires Core(setup, c) && Recorded(setup, c) && Delivered(setup, c) && Reliable(c)
    requires (lossless ==> c.lossless) && (undisturbed && c.phase != Serving ==> Saturated(c.server))
    ensures Invariant(setup, c.(undisturbed := undisturbed, lossless := lossless))
  {
    var c' := c.(undisturbed := undisturbed, lossless := lossless);
    CoreIgnoresFlags(setup, c, c');
    BooksUntouched(setup, c, c');
  }

  lemma LeaveKeeps(setup: Setup, c: System, w: Identity)
    requires Invariant(setup, c) && Enabled(setup, c, Leave(w))
    ensures Invariant(setup, After(setup, c, Leave(w)))
  {
    var work := c.server.queues[w].work;
    ReverseKeepsJobs(work);
    RemoveKeeps(setup, c, w, Reverse(work));
    var c1 := c.(server := ByeReceived(c.server, w));
    BooksUntouched(setup, c, c1);
    ClearFlags(setup, c1, false, c.lossless);
    assert c1.(undisturbed := false, lossless := c.lossless) == After(setup, c, Leave(w));
  }

  /** Flags are not part of the accounting; losing nothing more keeps `lossless` meaningful. */
  lemma CoreIgnoresFlags(setup: Setup, c: System, c': System)
    requires c'.server == c.server && c'.pending == c.pending && c'.done == c.done
    requires c'.phase == c.phase
    ensures Core(setup, c) ==> Core(setup, c')
    ensures Reliable(c) && c'.lossless == c.lossless ==> Reliable(c')
  {
  }

  // ---------------------------------------------------------------- messages

  lemma MoveKeeps(setup: Setup, c: System, w: Identity, left: Pending)
    requires Invariant(setup, c) && w in c.pending && left.All() == c.pending[w].All()
    ensures Invariant(setup, c.(pending := c.pending[w := left]))
  {
    PendingShrinks(setup, c, w, left);
    Reassemble(setup, c, c.(pending := c.pending[w := left]));
  }

  lemma LoseKeeps(setup: Setup, c: System, w: Identity, left: Pending)
    requires Invariant(setup, c) && w in c.pending && left.All() <= c.pending[w].All()
    ensures Invariant(setup, c.(pending := c.pending[w := left], lossless := false))
  {
    FewerPendingGenuine(setup, c, w, left);
    FewerPendingContained(c, w, left);
    var c1 := c.(pending := c.pending[w := left], lossless := false);
    CoreIgnoresFlags(setup, c.(pending := c.pending[w := left]), c1);
    Reassemble(setup, c, c1);
  }

  function HandedOver(p: Pending, job: Job): (q: Pending)
    requires job in p.sent
    ensures q.All() == p.All()
  {
    p.(sent := p.sent - multiset{job}, held := p.held + multiset{job})
  }

  function Computed(p: Pending, job: Job): (q: Pending)
    requires job in p.held
    ensures q.All() == p.All()
  {
    p.(held := p.held - multiset{job}, answered := p.answered + multiset{job})
  }

  lemma DeliverKeeps(setup: Setup, c: System, w: Identity, job: Job)
    requires Invariant(setup, c) && w in c.pending && job in c.pending[w].sent
    ensures Invariant(setup, After(setup, c, Deliver(w, job)))
  {
    var p := c.pending[w];
    MoveKeeps(setup, c, w, HandedOver(p, job));
    assert After(setup, c, Deliver(w, job)) == c.(pending := c.pending[w := HandedOver(p, job)]);
  }

  lemma ComputeKeeps(setup: Setup, c: System, w: Identity, job: Job)
    requires Invariant(setup, c) && w in c.pending && job in c.pending[w].held
    ensures Invariant(setup, After(setup, c, Compute(w, job)))
  {
    var p := c.pending[w];
    MoveKeeps(setup, c, w, Computed(p, job));
    var c1, c2 := c.(pending := c.pending[w := Computed(p, job)]), After(setup, c, Compute(w, job));
    assert c2 == c1.(computed := c2.computed);
    CoreIgnoresFlags(setup, c1, c2);
    BooksUntouched(setup, c1, c2);
  }

  /** A path that was written to holds what the job of some file can yield. */
  lemma WrittenIsYielded(setup: Setup, c: System, path: string) returns (g: Job)
    requires Servable(setup) && Delivered(setup, c) && c.phase != Analysing && path in c.server.written
    ensures g in EqualisationJobs(setup) && g.EqualisationJob? && path == OutputPath(g.filename)
    ensures MayYield(setup, g.filename, g.mapping, c.server.written[path])
  {
    assert IsOutput(setup, path);
    var f :| f in setup.files && path == OutputPath(f);
    EqualisationJobsOnePerFile(setup, c.phase);
    g :| g in PhaseTotal(setup, c.phase) && g.filename == f;
    assert RightlyWritten(setup, c.server.written, g);
  }

  /** Equalising whatever a file holds is something its job can yield. */
  lemma ContentYields(setup: Setup, c: System, f: string, mapping: Histogram)
    requires Servable(setup) && Delivered(setup, c) && c.phase != Analysing
    ensures MayYield(setup, f, mapping, setup.library.equalise(Content(setup, c.server, f), mapping))
  {
    if f in c.server.written {
      var g := WrittenIsYielded(setup, c, f);
    }
  }

  /** A held job is of the running phase, or a leftover of the first. */
  lemma HeldIsKnown(setup: Setup, c: System, w: Identity, job: Job)
    requires Servable(setup) && Genuine(setup, c) && w in c.pending && job in c.pending[w].held
    ensures job.EqualisationJob? ==> c.phase != Analysing
  {
    assert job in c.pending[w].All();
    assert AllKnown(setup, c.phase, c.pending[w].All());
    HistogramJobsOnePerFile(setup);
  }

  lemma ComputedIsProper(setup: Setup, c: System, w: Identity, job: Job)
    requires Servable(setup) && Invariant(setup, c) && w in c.pending && job in c.pending[w].held
    ensures Answers(setup, c.phase, job,
                    Answer(setup.library, job, Content(setup, c.server, job.filename)))
  {
    HeldIsKnown(setup, c, w, job);
    if job.EqualisationJob? { ContentYields(setup, c, job.filename, job.mapping); }
  }

  /** No identity has more answers on the way than before. */
  ghost predicate FewerAnswers(c: System, c': System) {
    forall w, job | w in c'.pending && job in c'.pending[w].answered ::
      w in c.pending && job in c.pending[w].answered
  }

  lemma FewerStillFewer(a: System, b: System, c: System)
    requires FewerAnswers(a, b) && FewerAnswers(b, c)
    ensures FewerAnswers(a, c)
  {
  }

  lemma HandComputesNothing(c: System, w: Identity)
    requires w in c.server.queues && w in c.pending
    ensures Hand(c, w).computed == c.computed && Hand(c, w).phase == c.phase && FewerAnswers(c, Hand(c, w))
  {
  }

  lemma {:induction false} ServingComputesNothing(c: System, order: seq<Identity>)
    requires forall w | w in order :: w in c.server.queues && w in c.pending
    ensures ServeEach(c, order).computed == c.computed && FewerAnswers(c, ServeEach(c, order))
    decreases |order|
  {
    if order != [] && c.server.enqueued != [] {
      HandComputesNothing(c, order[0]);
      ServingComputesNothing(Hand(c, order[0]), order[1..]);
      FewerStillFewer(c, Hand(c, order[0]), ServeEach(c, order));
    }
  }

  lemma TakingComputesNothing(c: System, w: Identity, job: Job)
    requires w in c.pending
    ensures var c' := TakeAnswer(c, w, job);
            c'.computed == c.computed && c'.phase == c.phase && FewerAnswers(c, c')
  {
  }

  /** What the receiving loop does after it has taken the message. */
  lemma SettlingComputesNothing(c: System, w: Identity, job: Job, result: JobResult)
    requires w in c.server.queues && w in c.pending
    ensures var c' := HandIfAny(Settle(Store(c, w, result), w, job, result), w);
            c'.computed == c.computed && c'.phase == c.phase && FewerAnswers(c, c')
  {
    var c1 := Settle(Store(c, w, result), w, job, result);
    assert c1.computed == c.computed && c1.phase == c.phase && c1.pending == c.pending;
    if c1.server.enqueued != [] { HandComputesNothing(c1, w); }
  }

  lemma ReceivingComputesNothing(c: System, w: Identity, job: Job, result: JobResult)
    requires w in c.pending && (job.HistogramJob? <==> result.HistogramResult?)
    ensures var c' := Receive(c, w, job, result);
            c'.computed == c.computed && c'.phase == c.phase && FewerAnswers(c, c')
  {
    var c1 := TakeAnswer(c, w, job);
    TakingComputesNothing(c, w, job);
    if Expected(c.phase, job) && w in c.server.queues {
      SettlingComputesNothing(c1, w, job, result);
      FewerStillFewer(c, c1, Receive(c, w, job, result));
    }
  }

  /** Only a computation adds to what was computed, and no step goes back to the first phase. */
  lemma ComputedFrame(setup: Setup, c: System, step: Step)
    requires Enabled(setup, c, step) && !step.Compute?
    ensures After(setup, c, step).computed == c.computed
    ensures After(setup, c, step).phase == Analysing ==> c.phase == Analysing
    ensures FewerAnswers(c, After(setup, c, step))
  {
    match step
    case ServeWorkers =>
      InOrderElements(c.server.queues.Keys);
      ServingComputesNothing(c, InOrder(c.server.queues.Keys));
    case Return(w, job, result) => ReceivingComputesNothing(c, w, job, result);
    case _ =>
  }

  lemma ComputeKeepsTruthful(setup: Setup, c: System, w: Identity, job: Job)
    requires Servable(setup) && Invariant(setup, c) && Truthful(setup, c)
    requires w in c.pending && job in c.pending[w].held
    ensures Truthful(setup, After(setup, c, Compute(w, job)))
  {
    ComputedIsProper(setup, c, w, job);
    var c' := After(setup, c, Compute(w, job));
    var made := Computation(w, job, Answer(setup.library, job, Content(setup, c.server, job.filename)));
    assert c'.computed == c.computed + {made};
    forall v, other | v in c'.pending && other in c'.pending[v].answered
      ensures Backed(c', v, other)
    {
      if v == w && other == job {
        assert made in c'.computed;
      } else {
        assert Backed(c, v, other);
        var result :| Computation(v, other, result) in c.computed;
        assert Computation(v, other, result) in c'.computed;
      }
    }
  }

  lemma TruthfulKeeps(setup: Setup, c: System, step: Step)
    requires Servable(setup) && Invariant(setup, c) && Truthful(setup, c) && Enabled(setup, c, step)
    ensures Truthful(setup, After(setup, c, step))
  {
    if step.Compute? {
      ComputeKeepsTruthful(setup, c, step.w, step.job);
    } else {
      ComputedFrame(setup, c, step);
      OthersKeepTruthful(setup, c, After(setup, c, step));
    }
  }

  lemma OthersKeepTruthful(setup: Setup, c: System, c': System)
    requires Truthful(setup, c) && c'.computed == c.computed && FewerAnswers(c, c')
    requires c'.phase == Analysing ==> c.phase == Analysing
    ensures Truthful(setup, c')
  {
    forall w, job | w in c'.pending && job in c'.pending[w].answered
      ensures Backed(c', w, job)
    {
      assert Backed(c, w, job);
    }
  }

  // ---------------------------------------------------------------- phases

  lemma CardinalityOfSum(a: multiset<Job>, b: multiset<Job>, total: multiset<Job>)
    requires a + b == total && |b| >= |total|
    ensures a == multiset{} && b == total
  {
    assert |a + b| == |a| + |b|;
    assert |a| == 0;
  }

  lemma EmptyList(work: seq<Job>)
    ensures multiset(work) == multiset{} ==> work == []
  {
    assert |multiset(work)| == |work|;
  }

  /** Once as many results as files are in, nothing is queued and every worker is idle. */
  lemma PhaseIsOver(setup: Setup, c: System)
    requires Servable(setup) && Core(setup, c) && |c.done| >= |setup.files|
    ensures c.done == PhaseTotal(setup, c.phase)
    ensures c.server.enqueued == [] && forall w | w in c.server.queues :: c.server.queues[w].work == []
    ensures forall w | w in c.server.queues :: c.pending[w].All() == multiset{}
  {
    PhaseOnePerFile(setup, c.phase);
    CardinalityOfSum(Outstanding(c.server), c.done, PhaseTotal(setup, c.phase));
    EmptyList(c.server.enqueued);
    forall w | w in c.server.queues
      ensures c.server.queues[w].work == []
    {
      WorkIsOutstanding(c.server, w);
      EmptyList(c.server.queues[w].work);
    }
  }

  lemma AnalysisIsComplete(setup: Setup, c: System)
    requires Servable(setup) && Invariant(setup, c)
    requires c.phase == Analysing && |c.server.histograms| >= |setup.files|
    ensures c.server.histograms == TrueHistograms(setup)
    ensures c.done == PhaseTotal(setup, Analysing)
    ensures c.server.enqueued == [] && forall w | w in c.server.queues :: c.server.queues[w].work == []
  {
    PhaseIsOver(setup, c);
    AllRecorded(setup, c);
  }

  lemma SameHistograms(setup: Setup, histograms: map<string, Histogram>)
    requires forall f :: f in histograms <==> f in setup.files
    requires forall f | f in histograms :: histograms[f] == setup.Histogram(f)
    ensures histograms == TrueHistograms(setup)
  {
  }

  lemma AllRecorded(setup: Setup, c: System)
    requires Servable(setup) && Recorded(setup, c) && c.phase == Analysing
    requires c.done == PhaseTotal(setup, Analysing)
    ensures c.server.histograms == TrueHistograms(setup)
  {
    HistogramJobsOnePerFile(setup);
    forall f
      ensures f in c.server.histograms <==> f in setup.files
    {
      if f in setup.files { assert HistogramJob(f) in c.done; }
      if f in c.server.histograms { assert HistogramJob(f) in c.done; }
    }
    SameHistograms(setup, c.server.histograms);
  }

  lemma {:induction false} IdleOutstanding(s: ServerState)
    requires forall w | w in s.queues :: s.queues[w].work == []
    ensures Outstanding(s) == multiset(s.enqueued)
    decreases |s.queues.Keys|
  {
    if s.queues != map[] {
      var w := Pick(s.queues);
      assert (s.queues - {w}).Keys == s.queues.Keys - {w};
      IdleOutstanding(s.(queues := s.queues - {w}));
    }
  }

  lemma SwitchConserves(setup: Setup, s: ServerState)
    requires s.enqueued == [] && forall w | w in s.queues :: s.queues[w].work == []
    requires s.histograms == TrueHistograms(setup)
    ensures var t := SwitchPhase(s, setup.library.quantumRange);
            t.enqueued == EqualisationJobs(setup) && Outstanding(t) == PhaseTotal(setup, Serving)
  {
    var t := SwitchPhase(s, setup.library.quantumRange);
    assert [] + EqualisationJobs(setup) == EqualisationJobs(setup);
    IdleOutstanding(t);
  }

  /** Everything known in the first phase stays known. */
  lemma KnownStays(setup: Setup, c: System, c': System)
    requires Genuine(setup, c) && c.phase == Analysing && c'.pending == c.pending
    ensures Genuine(setup, c')
  {
    forall w | w in c'.pending
      ensures AllKnown(setup, c'.phase, c'.pending[w].All())
    {
      assert AllKnown(setup, c.phase, c.pending[w].All());
    }
  }

  lemma SwitchKeepsCore(setup: Setup, c: System)
    requires Servable(setup) && Invariant(setup, c) && Enabled(setup, c, SwitchPhases)
    ensures Core(setup, After(setup, c, SwitchPhases)) && Reliable(After(setup, c, SwitchPhases))
  {
    AnalysisIsComplete(setup, c);
    SwitchConserves(setup, c.server);
    KnownStays(setup, c, After(setup, c, SwitchPhases));
  }

  lemma NothingDelivered(setup: Setup, c: System)
    requires Servable(setup) && c.phase != Analysing && c.server.written == map[] && c.done == multiset{}
    ensures Delivered(setup, c)
  {
    EqualisationJobsOnePerFile(setup, c.phase);
    forall j | j in PhaseTotal(setup, c.phase)
      ensures RightlyWritten(setup, c.server.written, j)
    {
    }
  }

  lemma SwitchKeepsBooks(setup: Setup, c: System)
    requires Servable(setup) && Delivered(setup, c) && Recorded(setup, c)
    requires Enabled(setup, c, SwitchPhases) && c.server.histograms == TrueHistograms(setup)
    ensures Recorded(setup, After(setup, c, SwitchPhases))
    ensures Delivered(setup, After(setup, c, SwitchPhases))
  {
    NothingDelivered(setup, After(setup, c, SwitchPhases));
  }

  lemma SwitchKeeps(setup: Setup, c: System)
    requires Servable(setup) && Invariant(setup, c) && Enabled(setup, c, SwitchPhases)
    ensures Invariant(setup, After(setup, c, SwitchPhases))
  {
    SwitchKeepsCore(setup, c);
    AnalysisIsComplete(setup, c);
    SwitchKeepsBooks(setup, c);
  }

  lemma {:induction false} ServeEachKeeps(setup: Setup, c: System, order: seq<Identity>)
    requires Core(setup, c) && Reliable(c)
    requires forall w | w in order :: w in c.server.queues && w in c.pending
    requires forall w | w in c.server.queues && w !in order :: Room(c.server.queues[w]) == 0
    ensures var c' := ServeEach(c, order);
            && Core(setup, c') && Reliable(c') && Saturated(c'.server)
            && c'.phase == c.phase && c'.done == c.done
            && c'.undisturbed == c.undisturbed && c'.lossless == c.lossless && c'.now == c.now
            && c'.server.histograms == c.server.histograms
            && c'.server.written == c.server.written
            && c'.server.equalisedCount == c.server.equalisedCount
    decreases |order|
  {
    if order != [] && c.server.enqueued != [] {
      var w := order[0];
      HandKeepsCore(setup, c, w);
      HandKeepsLists(c, w);
      var c1 := Hand(c, w);
      if c1.server.enqueued != [] {
        assert |Taken(c.server, w)| == Room(c.server.queues[w]);
        forall x | x in c1.server.queues && x !in order[1..]
          ensures Room(c1.server.queues[x]) == 0
        {
          if x != w { assert x !in order; }
        }
        ServeEachKeeps(setup, c1, order[1..]);
      }
    }
  }

  /** The two phase names that share the second phase's jobs. */
  lemma PhaseRenamed(setup: Setup, c: System, c': System)
    requires Core(setup, c) && Recorded(setup, c) && Delivered(setup, c) && Reliable(c)
    requires c.phase != Analysing && c'.phase != Analysing && c' == c.(phase := c'.phase)
    ensures Core(setup, c') && Recorded(setup, c') && Delivered(setup, c') && Reliable(c')
  {
    assert PhaseTotal(setup, c.phase) == PhaseTotal(setup, c'.phase);
    forall w | w in c'.pending
      ensures AllKnown(setup, c'.phase, c'.pending[w].All())
    {
      assert AllKnown(setup, c.phase, c.pending[w].All());
    }
  }

  lemma ServeKeeps(setup: Setup, c: System)
    requires Invariant(setup, c) && Enabled(setup, c, ServeWorkers)
    ensures Invariant(setup, After(setup, c, ServeWorkers))
  {
    var order := InOrder(c.server.queues.Keys);
    InOrderElements(c.server.queues.Keys);
    ServeEachKeeps(setup, c, order);
    var c1 := ServeEach(c, order);
    BooksUntouched(setup, c, c1);
    PhaseRenamed(setup, c1, c1.(phase := Equalising));
  }

  lemma FinishKeepsCore(setup: Setup, c: System)
    requires Servable(setup) && Core(setup, c) && |c.done| >= |setup.files|
    ensures Core(setup, c.(server := DismissAll(c.server)))
    ensures DismissAll(c.server).enqueued == []
  {
    PhaseIsOver(setup, c);
    IdleOutstanding(c.server);
    IdleOutstanding(DismissAll(c.server));
  }

  lemma FinishKeeps(setup: Setup, c: System)
    requires Servable(setup) && Invariant(setup, c) && Enabled(setup, c, Finish)
    ensures Invariant(setup, After(setup, c, Finish))
  {
    FinishKeepsCore(setup, c);
    var c1 := c.(server := DismissAll(c.server));
    BooksUntouched(setup, c, c1);
    PhaseRenamed(setup, c1, c1.(phase := Finished));
  }

  // ---------------------------------------------------------------- every run

  lemma StartHolds(setup: Setup)
    requires Servable(setup)
    ensures Invariant(setup, Start(setup))
  {
    IdleOutstanding(Start(setup).server);
  }

  lemma TickKeeps(setup: Setup, c: System, now: int)
    requires Invariant(setup, c)
    ensures Invariant(setup, c.(now := now))
  {
    CoreIgnoresFlags(setup, c, c.(now := now));
    BooksUntouched(setup, c, c.(now := now));
  }

  /** No step of the composed system breaks the invariant. */
  lemma StepKeepsInvariant(setup: Setup, c: System, step: Step)
    requires Servable(setup) && Invariant(setup, c) && Truthful(setup, c) && Enabled(setup, c, step)
    ensures Invariant(setup, After(setup, c, step))
  {
    match step
    case Tick(now) => TickKeeps(setup, c, now);
    case Join(w, concurrency) => JoinKeeps(setup, c, w, concurrency);
    case Alive(w) => AliveKeeps(setup, c, w);
    case Deliver(w, job) => DeliverKeeps(setup, c, w, job);
    case Compute(w, job) => ComputeKeeps(setup, c, w, job);
    case Lose(w, left) => LoseKeeps(setup, c, w, left);
    case Return(w, job, result) =>
      if w in c.server.queues {
        ResultKeeps(setup, c, w, job, result);
      } else {
        LateResultKeeps(setup, c, w, job, result);
      }
    case Leave(w) => LeaveKeeps(setup, c, w);
    case CheckHeartbeats(clock, end) => CheckHeartbeatsKeeps(setup, c, clock, end);
    case SwitchPhases => SwitchKeeps(setup, c);
    case ServeWorkers => ServeKeeps(setup, c);
    case Finish => FinishKeeps(setup, c);
  }

  /** And none makes a computed result wrong. */
  lemma StepKeeps(setup: Setup, c: System, step: Step)
    requires Servable(setup) && Invariant(setup, c) && Truthful(setup, c) && Enabled(setup, c, step)
    ensures Invariant(setup, After(setup, c, step)) && Truthful(setup, After(setup, c, step))
  {
    StepKeepsInvariant(setup, c, step);
    TruthfulKeeps(setup, c, step);
  }

  /** What a run says about one of its steps. */
  lemma RunStep(setup: Setup, states: seq<System>, steps: seq<Step>, i: nat)
    requires Run(setup, states, steps) && i < |steps|
    ensures Servable(setup) && Invariant(setup, states[i]) && Truthful(setup, states[i])
    ensures Enabled(setup, states[i], steps[i]) && states[i + 1] == After(setup, states[i], steps[i])
  {
    RunKeeps(setup, states, steps, i);
  }

  /** Hence every state of every run has it. */
  lemma {:induction false} RunKeeps(setup: Setup, states: seq<System>, steps: seq<Step>, i: nat)
    requires Run(setup, states, steps) && i < |states|
    ensures Invariant(setup, states[i]) && Truthful(setup, states[i])
    decreases i
  {
    if i == 0 {
      StartHolds(setup);
    } else {
      RunKeeps(setup, states, steps, i - 1);
      StepKeeps(setup, states[i - 1], steps[i - 1]);
    }
  }
}
