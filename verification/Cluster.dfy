/**
 The server composed with its workers and the network: one system whose steps interleave.
 Assumed of the environment: a connection uses a fresh identity and says HELO once
 (src/worker.cpp:94-130), messages may be lost but are neither duplicated nor invented, a
 worker answers only jobs it received, and the phase switch is one step.
 */
module Cluster {
  import opened Config
  import opened Commands
  import opened Names
  import opened Dispatch

  /** The image operations, which depend on the bytes of the file and the mapping only. */
  datatype Library = Library(
    quantumRange: real,
    histogram: seq<byte> -> Histogram,
    equalise: (seq<byte>, Histogram) -> seq<byte>)

  /** The files of the served directory in listing order, and what they contain at the start. */
  datatype Setup = Setup(files: seq<string>, contents: string -> seq<byte>, library: Library) {
    function Histogram(f: string): Histogram {
      library.histogram(contents(f))
    }
  }

  /** A directory lists a name once; without any file `serve_work` is undefined. */
  predicate Servable(setup: Setup) {
    && setup.files != []
    && (forall i, k | 0 <= i < k < |setup.files| :: setup.files[i] != setup.files[k])
  }

  datatype Phase = Analysing | Serving | Equalising | Finished

  /** Jobs of one identity: in a message to it, held by it, in a message answering them. */
  datatype Pending = Pending(sent: multiset<Job>, held: multiset<Job>, answered: multiset<Job>) {
    function All(): multiset<Job> {
      sent + held + answered
    }
  }

  /**
   `pending` has an entry for every identity that ever said HELO, dismissed or not; `done`
   holds the jobs of the current phase whose result was accounted for. `undisturbed`: no BYE
   or dismissal so far. `lossless`: nothing lost so far. `computed`: what workers made of jobs,
   of the bytes each file had when it was read.
   */
  datatype System = System(
    server: ServerState,
    phase: Phase,
    now: int,
    pending: map<Identity, Pending>,
    done: multiset<Job>,
    undisturbed: bool,
    lossless: bool,
    computed: set<Computation>)

  datatype Computation = Computation(w: Identity, job: Job, result: JobResult)

  datatype Step =
    | Tick(now: int)
    | Join(w: Identity, concurrency: nat)
    | Alive(w: Identity)
    | Deliver(w: Identity, job: Job)
    | Compute(w: Identity, job: Job)
    | Return(w: Identity, job: Job, result: JobResult)
    | Lose(w: Identity, left: Pending)
    | Leave(w: Identity)
    | CheckHeartbeats(clock: Clock, end: int)
    | SwitchPhases
    | ServeWorkers
    | Finish

  // ---------------------------------------------------------------- jobs and answers

  /** The bytes of a file: what was written to it last, or what it held at the start. */
  function Content(setup: Setup, s: ServerState, filename: string): seq<byte> {
    if filename in s.written then s.written[filename] else setup.contents(filename)
  }

  /** What a worker makes of the bytes it reads (`RunningWorkerCommandVisitor`). */
  function Answer(library: Library, job: Job, content: seq<byte>): JobResult {
    match job
    case HistogramJob(f) => HistogramResult(f, library.histogram(content))
    case EqualisationJob(f, m) => EqualisationResult(f, library.equalise(content, m))
  }

  function HistogramJobs(files: seq<string>): seq<Job> {
    seq(|files|, i requires 0 <= i < |files| => HistogramJob(files[i]))
  }

  function TrueHistograms(setup: Setup): map<string, Histogram> {
    map f | f in setup.files :: setup.Histogram(f)
  }

  /** The second phase's jobs if every file was analysed. */
  ghost function EqualisationJobs(setup: Setup): seq<Job> {
    PlanJobs(TrueHistograms(setup), setup.library.quantumRange)
  }

  ghost function PhaseJobs(setup: Setup, phase: Phase): seq<Job> {
    if phase == Analysing then HistogramJobs(setup.files) else EqualisationJobs(setup)
  }

  function Start(setup: Setup): System {
    System(ServerState(HistogramJobs(setup.files), map[], map[], 0, map[]),
           Analysing, 0, map[], multiset{}, true, true, {})
  }

  // ---------------------------------------------------------------- building blocks

  /** The server fills worker `w`; every job handed out is now in a message to `w`. */
  function Hand(c: System, w: Identity): System
    requires w in c.server.queues && w in c.pending
  {
    var p := c.pending[w];
    c.(server := Transmit(c.server, w),
       pending := c.pending[w := p.(sent := p.sent + multiset(Taken(c.server, w)))])
  }

  function HandIfAny(c: System, w: Identity): System
    requires w in c.server.queues && w in c.pending
  {
    if c.server.enqueued == [] then c else Hand(c, w)
  }

  function Enter(c: System, w: Identity, concurrency: nat): System {
    c.(server := Register(c.server, w, concurrency, c.now),
       pending := c.pending[w := Pending(multiset{}, multiset{}, multiset{})])
  }

  /** A registered worker's answer to `job` is accounted for. */
  function Settle(c: System, w: Identity, job: Job, result: JobResult): System
    requires w in c.server.queues
  {
    c.(server := Retire(c.server, w, result), done := c.done + multiset{job})
  }

  function TakeAnswer(c: System, w: Identity, job: Job): System
    requires w in c.pending
  {
    var p := c.pending[w];
    c.(pending := c.pending[w := p.(answered := p.answered - multiset{job})])
  }

  /** What the receiving loop stores before it looks at the worker's queue. */
  function Store(c: System, w: Identity, result: JobResult): System {
    if result.EqualisationResult? then
      var s := WriteTiff(c.server, result);
      c.(server := if w in s.queues then s.(equalisedCount := s.equalisedCount + 1) else s)
    else if w in c.server.queues then c.(server := Record(c.server, result))
    else c
  }

  predicate Expected(phase: Phase, job: Job) {
    if phase == Analysing then job.HistogramJob? else job.EqualisationJob?
  }

  /** A result message reaches the running receiving loop. */
  function Receive(c: System, w: Identity, job: Job, result: JobResult): System
    requires w in c.pending && (job.HistogramJob? <==> result.HistogramResult?)
  {
    var c1 := TakeAnswer(c, w, job);
    if !Expected(c.phase, job) then c1
    else
      var c2 := Store(c1, w, result);
      if w !in c2.server.queues then c2 else HandIfAny(Settle(c2, w, job, result), w)
  }

  function ServeEach(c: System, order: seq<Identity>): System
    requires forall w | w in order :: w in c.server.queues && w in c.pending
    decreases |order|
  {
    if order == [] || c.server.enqueued == [] then c
    else ServeEach(Hand(c, order[0]), order[1..])
  }

  // ---------------------------------------------------------------- steps

  /** The loop of `receive_histograms` or `receive_equalised` is still running. */
  predicate Receiving(setup: Setup, c: System) {
    || (c.phase == Analysing && |c.server.histograms| < |setup.files|)
    || (c.phase == Equalising && c.server.equalisedCount < |setup.files|)
  }

  ghost predicate Enabled(setup: Setup, c: System, step: Step) {
    match step
    case Tick(now) => c.now <= now
    case Join(w, _) => w !in c.pending
    case Alive(_) => true
    case Deliver(w, job) => w in c.pending && job in c.pending[w].sent
    case Compute(w, job) => w in c.pending && job in c.pending[w].held
    case Return(w, job, result) =>
      && Receiving(setup, c) && w in c.pending && job in c.pending[w].answered
      && Computation(w, job, result) in c.computed && Fits(job, result)
    case Lose(w, left) =>
      && w in c.pending && left.sent <= c.pending[w].sent
      && left.held <= c.pending[w].held && left.answered <= c.pending[w].answered
    case Leave(w) => Receiving(setup, c) && w in c.server.queues
    case CheckHeartbeats(clock, end) =>
      && c.phase == Equalising && c.now <= end
      && (forall w | w in c.server.queues ::
            w in clock && c.now <= clock[w].checked <= clock[w].stamped <= end)
    case SwitchPhases => c.phase == Analysing && |c.server.histograms| >= |setup.files|
    case ServeWorkers => c.phase == Serving && c.server.queues.Keys <= c.pending.Keys
    case Finish => c.phase == Equalising && c.server.equalisedCount >= |setup.files|
  }

  ghost function After(setup: Setup, c: System, step: Step): System
    requires Enabled(setup, c, step)
  {
    match step
    case Tick(now) => c.(now := now)
    case Join(w, concurrency) => Hand(Enter(c, w, concurrency), w)
    case Alive(w) => c.(server := HeartbeatReply(c.server, w))
    case Deliver(w, job) =>
      var p := c.pending[w];
      c.(pending := c.pending[w := p.(sent := p.sent - multiset{job}, held := p.held + multiset{job})])
    case Compute(w, job) =>
      var p := c.pending[w];
      c.(pending := c.pending[
           w := p.(held := p.held - multiset{job}, answered := p.answered + multiset{job})],
         computed := c.computed
                    + {Computation(w, job, Answer(setup.library, job, Content(setup, c.server, job.filename)))})
    case Return(w, job, result) => Receive(c, w, job, result)
    case Lose(w, left) => c.(pending := c.pending[w := left], lossless := false)
    case Leave(w) => c.(server := ByeReceived(c.server, w), undisturbed := false)
    case CheckHeartbeats(clock, end) =>
      c.(server := HeartbeatPass(c.server, clock), now := end,
         undisturbed := c.undisturbed && ExpiredWorkers(c.server, clock) == {})
    case SwitchPhases =>
      c.(server := SwitchPhase(c.server, setup.library.quantumRange), phase := Serving,
         done := multiset{})
    case ServeWorkers =>
      InOrderElements(c.server.queues.Keys);
      ServeEach(c, InOrder(c.server.queues.Keys)).(phase := Equalising)
    case Finish => c.(server := DismissAll(c.server), phase := Finished)
  }

  /** A run: every step is enabled where it is taken and leads to the next state. */
  ghost predicate Run(setup: Setup, states: seq<System>, steps: seq<Step>) {
    && Servable(setup) && |states| == |steps| + 1 && states[0] == Start(setup)
    && forall i | 0 <= i < |steps| :: Enabled(setup, states[i], steps[i])
         && states[i + 1] == After(setup, states[i], steps[i])
  }

  /** A run goes on with any enabled step. */
  lemma Extend(setup: Setup, states: seq<System>, steps: seq<Step>, step: Step, next: System)
    requires Run(setup, states, steps)
    requires Enabled(setup, states[|steps|], step) && After(setup, states[|steps|], step) == next
    ensures Run(setup, states + [next], steps + [step])
  {
    var longer, taken := states + [next], steps + [step];
    forall i | 0 <= i < |taken|
      ensures Enabled(setup, longer[i], taken[i]) && longer[i + 1] == After(setup, longer[i], taken[i])
    {
      if i < |steps| { assert longer[i] == states[i] && longer[i + 1] == states[i + 1]; }
    }
  }

  // ---------------------------------------------------------------- the class does these steps

  lemma SettleFollowsVisitor(c: System, w: Identity, job: Job, result: JobResult)
    requires w in c.server.queues && w in c.pending
    ensures HandIfAny(Settle(c, w, job, result), w).server == Refill(Retire(c.server, w, result), w)
  {
  }

  lemma HistogramResultFollowsVisitor(c: System, w: Identity, job: Job, result: JobResult)
    requires w in c.pending && c.phase == Analysing && job.HistogramJob? && result.HistogramResult?
    ensures Receive(c, w, job, result).server == HistogramResultReceived(c.server, w, result)
  {
    if w in c.server.queues {
      SettleFollowsVisitor(Store(TakeAnswer(c, w, job), w, result), w, job, result);
    }
  }

  lemma EqualisationResultFollowsVisitor(c: System, w: Identity, job: Job, result: JobResult)
    requires w in c.pending && c.phase != Analysing && job.EqualisationJob? && result.EqualisationResult?
    ensures Receive(c, w, job, result).server == EqualisationResultReceived(c.server, w, result)
  {
    if w in c.server.queues {
      SettleFollowsVisitor(Store(TakeAnswer(c, w, job), w, result), w, job, result);
    }
  }

  /** Receiving a result changes the server as the visitors of module ServerProcess do. */
  lemma ReceiveFollowsVisitors(c: System, w: Identity, job: Job, result: JobResult)
    requires w in c.pending && (job.HistogramJob? <==> result.HistogramResult?)
    ensures Receive(c, w, job, result).server ==
            if !Expected(c.phase, job) then c.server
            else if c.phase == Analysing then HistogramResultReceived(c.server, w, result)
            else EqualisationResultReceived(c.server, w, result)
  {
    if Expected(c.phase, job) {
      if c.phase == Analysing {
        HistogramResultFollowsVisitor(c, w, job, result);
      } else {
        EqualisationResultFollowsVisitor(c, w, job, result);
      }
    }
  }

  lemma {:induction false} ServeFollowsLoop(c: System, order: seq<Identity>)
    requires forall w | w in order :: w in c.server.queues && w in c.pending
    ensures ServeEach(c, order).server == ServeInTurn(c.server, order)
    decreases |order|
  {
    if order != [] && c.server.enqueued != [] { ServeFollowsLoop(Hand(c, order[0]), order[1..]); }
  }

  /** The server operation each step stands for. */
  ghost function ServerAfter(setup: Setup, c: System, step: Step): ServerState
    requires Enabled(setup, c, step)
  {
    match step
    case Join(w, concurrency) => HeloReceived(c.server, w, concurrency, c.now)
    case Alive(w) => HeartbeatReply(c.server, w)
    case Return(w, job, result) =>
      if !Expected(c.phase, job) then c.server
      else if c.phase == Analysing then HistogramResultReceived(c.server, w, result)
      else EqualisationResultReceived(c.server, w, result)
    case Leave(w) => ByeReceived(c.server, w)
    case CheckHeartbeats(clock, _) => HeartbeatPass(c.server, clock)
    case SwitchPhases => SwitchPhase(c.server, setup.library.quantumRange)
    case ServeWorkers => Serve(c.server)
    case Finish => DismissAll(c.server)
    case _ => c.server
  }

  /** Every step changes the server as the method of module ServerProcess it stands for. */
  lemma StepsFollowServer(setup: Setup, c: System, step: Step)
    requires Enabled(setup, c, step)
    ensures After(setup, c, step).server == ServerAfter(setup, c, step)
  {
    if step.Return? { ReceiveFollowsVisitors(c, step.w, step.job, step.result); }
    if step == ServeWorkers {
      InOrderElements(c.server.queues.Keys);
      ServeFollowsLoop(c, InOrder(c.server.queues.Keys));
    }
  }
}
