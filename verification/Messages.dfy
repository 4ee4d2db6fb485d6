/**
 What the server sends in every step of the composed system, and that this is what its workers
 then have under way: the messages of module ServerProcess seen from module Cluster.
 */
module Messages {
  import opened Commands
  import opened Names
  import opened Dispatch
  import opened ServerProcess
  import opened Cluster
  import opened Heartbeats
  import Handlers

  /** The messages of the method each step stands for. */
  ghost function Sends(setup: Setup, c: System, step: Step): seq<Envelope>
    requires Enabled(setup, c, step)
  {
    match step
    case Join(w, concurrency) => HeloMessages(c.server, w, concurrency, c.now)
    case Return(w, job, result) => if Expected(c.phase, job) then ResultMessages(c.server, w, result) else []
    case CheckHeartbeats(clock, _) => PassMessages(c.server, clock)
    case ServeWorkers => WorkServed(c.server)
    case Finish => FarewellMessages(c.server)
    case _ => []
  }

  // ---------------------------------------------------------------- lists of messages

  lemma {:induction false} JobMessagesAt(w: Identity, jobs: seq<Job>)
    ensures |JobMessages(w, jobs)| == |jobs|
    ensures forall k | 0 <= k < |jobs| :: JobMessages(w, jobs)[k] == Envelope(WorkSocket, w, JobCommand(jobs[k]))
    decreases |jobs|
  {
    if jobs != [] {
      var rest := jobs[..|jobs| - 1];
      JobMessagesAt(w, rest);
      assert forall k | 0 <= k < |rest| :: JobMessages(w, jobs)[k] == JobMessages(w, rest)[k];
    }
  }

  lemma {:induction false} ByeMessagesAt(workers: seq<Identity>)
    ensures |ByeMessages(workers)| == |workers|
    ensures forall k | 0 <= k < |workers| :: ByeMessages(workers)[k] == Envelope(WorkSocket, workers[k], Bye)
    decreases |workers|
  {
    if workers != [] {
      var rest := workers[..|workers| - 1];
      ByeMessagesAt(rest);
      assert forall k | 0 <= k < |rest| :: ByeMessages(workers)[k] == ByeMessages(rest)[k];
    }
  }

  /**
   The requests among some workers go to those whose reply was received and whose last request
   is at least six seconds old when they are looked at, and are the only messages.
   */
  lemma {:induction false} RequestsExactly(s: ServerState, clock: Clock, order: seq<Identity>, e: Envelope)
    requires forall w | w in order :: w in s.queues && w in clock
    ensures e in RequestMessages(s, clock, order) <==>
            && e == Envelope(CommunicationSocket, e.to, Heartbeat(Request)) && e.to in order
            && s.queues[e.to].heartbeatReplyReceived
            && clock[e.to].checked - s.queues[e.to].lastHeartbeatRequest >= 6_000_000_000
    decreases |order|
  {
    if order != [] {
      var rest, last := order[..|order| - 1], order[|order| - 1];
      assert order == rest + [last];
      assert last in order && forall w | w in rest :: w in order;
      RequestsExactly(s, clock, rest, e);
      OverdueMeans(s.queues[last], clock[last].checked);
    }
  }

  lemma ByeMessagesExactly(workers: seq<Identity>, e: Envelope)
    ensures e in ByeMessages(workers) <==> e == Envelope(WorkSocket, e.to, Bye) && e.to in workers
  {
    ByeMessagesAt(workers);
    if e.to in workers {
      var k :| 0 <= k < |workers| && workers[k] == e.to;
      assert ByeMessages(workers)[k] == Envelope(WorkSocket, e.to, Bye);
    }
  }

  /** A pass sends requests and BYEs. */
  lemma PassSends(s: ServerState, clock: Clock)
    requires s.queues.Keys <= clock.Keys
    ensures forall e :: e in PassMessages(s, clock) <==>
              || (e == Envelope(CommunicationSocket, e.to, Heartbeat(Request)) && Handlers.Due(s, clock, e.to))
              || (e == Envelope(WorkSocket, e.to, Bye) && e.to in ExpiredWorkers(s, clock))
  {
    var order, expired := InOrder(s.queues.Keys), InOrder(ExpiredWorkers(s, clock));
    InOrderElements(s.queues.Keys);
    InOrderElements(ExpiredWorkers(s, clock));
    forall e: Envelope
      ensures e in HeartbeatRequests(s, clock) <==>
              e == Envelope(CommunicationSocket, e.to, Heartbeat(Request)) && Handlers.Due(s, clock, e.to)
      ensures e in ByeMessages(expired) <==> e == Envelope(WorkSocket, e.to, Bye) && e.to in expired
    {
      RequestsExactly(s, clock, order, e);
      ByeMessagesExactly(expired, e);
    }
  }

  lemma JobMessagesOnly(w: Identity, jobs: seq<Job>)
    ensures forall e | e in JobMessages(w, jobs) :: e.socket == WorkSocket && e.to == w && e.command.JobCommand?
  {
    JobMessagesAt(w, jobs);
  }

  lemma {:induction false} ServeMessagesOnly(s: ServerState, order: seq<Identity>)
    requires forall w | w in order :: w in s.queues
    ensures forall e | e in ServeMessages(s, order) ::
              e.socket == WorkSocket && e.to in order && e.command.JobCommand?
    decreases |order|
  {
    if order != [] && s.enqueued != [] {
      JobMessagesOnly(order[0], Taken(s, order[0]));
      ServeMessagesOnly(Transmit(s, order[0]), order[1..]);
    }
  }

  lemma JobMessagesInOrder(w: Identity, jobs: seq<Job>)
    ensures JobMessages(w, jobs)
         == seq(|jobs|, k requires 0 <= k < |jobs| => Envelope(WorkSocket, w, JobCommand(jobs[k])))
  {
    JobMessagesAt(w, jobs);
  }

  /** A new worker is answered, asked for a sign of life and given its first jobs, in this order. */
  lemma HeloSends(s: ServerState, w: Identity, concurrency: nat, now: int)
    requires w !in s.queues
    ensures var jobs := HeloReceived(s, w, concurrency, now).queues[w].work;
            HeloMessages(s, w, concurrency, now)
            == [Envelope(CommunicationSocket, w, Ehlo), Envelope(CommunicationSocket, w, Heartbeat(Request))]
               + seq(|jobs|, k requires 0 <= k < |jobs| => Envelope(WorkSocket, w, JobCommand(jobs[k])))
  {
    var registered := Register(s, w, concurrency, now);
    var taken := Taken(registered, w);
    assert HeloReceived(s, w, concurrency, now).queues[w].work == taken;
    JobMessagesInOrder(w, taken);
  }

  /** At the end BYE goes to every worker once, in the order of the names. */
  lemma FarewellSends(s: ServerState, order: seq<Identity>)
    requires Increasing(order) && forall w :: w in order <==> w in s.queues
    ensures FarewellMessages(s)
         == seq(|order|, k requires 0 <= k < |order| => Envelope(WorkSocket, order[k], Bye))
  {
    OrderIsUnique(s.queues.Keys, order);
    ByeMessagesAt(order);
  }

  /** Those of some workers that are due. */
  function DueOf(s: ServerState, clock: Clock, order: seq<Identity>): seq<Identity> {
    if order == [] then []
    else
      var last := order[|order| - 1];
      DueOf(s, clock, order[..|order| - 1]) + if Handlers.Due(s, clock, last) then [last] else []
  }

  lemma {:induction false} DueInOrder(s: ServerState, clock: Clock, order: seq<Identity>)
    requires Increasing(order)
    ensures Increasing(DueOf(s, clock, order))
    ensures forall w :: w in DueOf(s, clock, order) <==> w in order && Handlers.Due(s, clock, w)
    decreases |order|
  {
    if order != [] {
      var rest, last := order[..|order| - 1], order[|order| - 1];
      assert order == rest + [last];
      DueInOrder(s, clock, rest);
      forall x | x in DueOf(s, clock, rest)
        ensures Before(x, last)
      {
        var k :| 0 <= k < |rest| && rest[k] == x;
        assert order[k] == x;
      }
    }
  }

  lemma {:induction false} RequestsTo(s: ServerState, clock: Clock, order: seq<Identity>)
    requires forall w | w in order :: w in s.queues && w in clock
    ensures var due := DueOf(s, clock, order);
            RequestMessages(s, clock, order)
            == seq(|due|, k requires 0 <= k < |due| => Envelope(CommunicationSocket, due[k], Heartbeat(Request)))
    decreases |order|
  {
    if order != [] {
      var last := order[|order| - 1];
      RequestsTo(s, clock, order[..|order| - 1]);
      OverdueMeans(s.queues[last], clock[last].checked);
    }
  }

  lemma RequestsInOrder(s: ServerState, clock: Clock, due: seq<Identity>)
    requires s.queues.Keys <= clock.Keys
    requires Increasing(due) && forall w :: w in due <==> w in s.queues && Handlers.Due(s, clock, w)
    ensures HeartbeatRequests(s, clock)
         == seq(|due|, k requires 0 <= k < |due| => Envelope(CommunicationSocket, due[k], Heartbeat(Request)))
  {
    var order := InOrder(s.queues.Keys);
    InOrderElements(s.queues.Keys);
    InOrderIncreases(s.queues.Keys);
    RequestsTo(s, clock, order);
    DueInOrder(s, clock, order);
    var names := set w | w in due;
    OrderIsUnique(names, due);
    OrderIsUnique(names, DueOf(s, clock, order));
  }

  /**
   A pass sends one request to every worker that is due and then one BYE to every silent one,
   each time in the order of the names, and nothing else.
   */
  lemma PassSendsExactly(s: ServerState, clock: Clock, due: seq<Identity>, silent: seq<Identity>)
    requires s.queues.Keys <= clock.Keys
    requires Increasing(due) && forall w :: w in due <==> w in s.queues && Handlers.Due(s, clock, w)
    requires Increasing(silent) && forall w :: w in silent <==> w in s.queues && Handlers.Silent(s, clock, w)
    ensures PassMessages(s, clock)
         == seq(|due|, k requires 0 <= k < |due| => Envelope(CommunicationSocket, due[k], Heartbeat(Request)))
            + seq(|silent|, k requires 0 <= k < |silent| => Envelope(WorkSocket, silent[k], Bye))
  {
    RequestsInOrder(s, clock, due);
    Handlers.WhoIsSilent(s, clock, silent);
    ByesInOrder(s, clock, silent);
  }

  lemma ByesInOrder(s: ServerState, clock: Clock, silent: seq<Identity>)
    requires silent == InOrder(ExpiredWorkers(s, clock))
    ensures ByeMessages(InOrder(ExpiredWorkers(s, clock)))
         == seq(|silent|, k requires 0 <= k < |silent| => Envelope(WorkSocket, silent[k], Bye))
  {
    ByeMessagesAt(silent);
  }

  // ---------------------------------------------------------------- jobs on their way

  /** The jobs sent to one worker, in order. */
  function JobsTo(messages: seq<Envelope>, w: Identity): seq<Job> {
    if messages == [] then []
    else
      var last := messages[|messages| - 1];
      JobsTo(messages[..|messages| - 1], w)
      + if last.socket == WorkSocket && last.to == w && last.command.JobCommand? then [last.command.job] else []
  }

  /** The jobs sent to anybody. */
  function JobsIn(messages: seq<Envelope>): seq<Job> {
    if messages == [] then []
    else
      var last := messages[|messages| - 1];
      JobsIn(messages[..|messages| - 1])
      + if last.socket == WorkSocket && last.command.JobCommand? then [last.command.job] else []
  }

  lemma {:induction false} JobsAppend(a: seq<Envelope>, b: seq<Envelope>, w: Identity)
    ensures JobsTo(a + b, w) == JobsTo(a, w) + JobsTo(b, w)
    ensures JobsIn(a + b) == JobsIn(a) + JobsIn(b)
    decreases |b|
  {
    if b == [] {
      assert a + b == a;
    } else {
      assert (a + b)[..|a + b| - 1] == a + b[..|b| - 1];
      JobsAppend(a, b[..|b| - 1], w);
    }
  }

  lemma {:induction false} JobsOfJobMessages(v: Identity, jobs: seq<Job>, w: Identity)
    ensures JobsTo(JobMessages(v, jobs), w) == (if v == w then jobs else [])
    ensures JobsIn(JobMessages(v, jobs)) == jobs
    decreases |jobs|
  {
    if jobs != [] {
      var rest := jobs[..|jobs| - 1];
      assert jobs == rest + [jobs[|jobs| - 1]];
      assert JobMessages(v, jobs)[..|jobs| - 1] == JobMessages(v, rest) by { JobMessagesAt(v, rest); }
      JobsOfJobMessages(v, rest, w);
    }
  }

  lemma {:induction false} NoJobs(messages: seq<Envelope>, w: Identity)
    requires forall e | e in messages :: !e.command.JobCommand?
    ensures JobsTo(messages, w) == [] && JobsIn(messages) == []
    decreases |messages|
  {
    if messages != [] { NoJobs(messages[..|messages| - 1], w); }
  }

  lemma FarewellHasNoJobs(s: ServerState, w: Identity)
    ensures JobsTo(FarewellMessages(s), w) == [] && JobsIn(FarewellMessages(s)) == []
  {
    forall e | e in FarewellMessages(s)
      ensures !e.command.JobCommand?
    {
      ByeMessagesExactly(InOrder(s.queues.Keys), e);
    }
    NoJobs(FarewellMessages(s), w);
  }

  /** From `c` to `c'` jobs only move: off the front of the queue, to the workers they are sent to. */
  ghost predicate Carried(c: System, c': System, messages: seq<Envelope>, w: Identity) {
    && c.server.enqueued == JobsIn(messages) + c'.server.enqueued
    && (w in c.pending ==>
          w in c'.pending && c'.pending[w].sent == c.pending[w].sent + multiset(JobsTo(messages, w)))
    && (w in c.server.queues ==>
          w in c'.server.queues
          && c'.server.queues[w].work == c.server.queues[w].work + JobsTo(messages, w))
  }

  lemma NothingCarried(c: System, w: Identity)
    ensures Carried(c, c, [], w)
  {
    assert c.server.enqueued == JobsIn([]) + c.server.enqueued;
    if w in c.server.queues { assert c.server.queues[w].work == c.server.queues[w].work + JobsTo([], w); }
  }

  lemma CarriedOn(a: System, b: System, c: System, first: seq<Envelope>, second: seq<Envelope>, w: Identity)
    requires Carried(a, b, first, w) && Carried(b, c, second, w)
    ensures Carried(a, c, first + second, w)
  {
    JobsAppend(first, second, w);
    Append(JobsIn(first), JobsIn(second), c.server.enqueued);
    if w in a.server.queues { Append(a.server.queues[w].work, JobsTo(first, w), JobsTo(second, w)); }
  }

  lemma HandCarries(c: System, v: Identity, w: Identity)
    requires v in c.server.queues && v in c.pending
    ensures Carried(c, Hand(c, v), JobMessages(v, Taken(c.server, v)), w)
  {
    var taken := Taken(c.server, v);
    JobsOfJobMessages(v, taken, w);
    QueueSplits(c.server, v);
    if w in c.server.queues && v != w { assert c.server.queues[w].work == c.server.queues[w].work + []; }
  }

  lemma QueueSplits(s: ServerState, v: Identity)
    requires v in s.queues
    ensures s.enqueued == Taken(s, v) + Transmit(s, v).enqueued
  {
  }

  lemma {:induction false} ServeCarries(c: System, order: seq<Identity>, w: Identity)
    requires forall v | v in order :: v in c.server.queues && v in c.pending
    ensures Carried(c, ServeEach(c, order), ServeMessages(c.server, order), w)
    decreases |order|
  {
    if order == [] || c.server.enqueued == [] {
      NothingCarried(c, w);
    } else {
      HandCarries(c, order[0], w);
      ServeCarries(Hand(c, order[0]), order[1..], w);
      CarriedOn(c, Hand(c, order[0]), ServeEach(c, order),
                JobMessages(order[0], Taken(c.server, order[0])),
                ServeMessages(Hand(c, order[0]).server, order[1..]), w);
    }
  }

  /** A worker's list before it is given anything: without the job it has just answered. */
  function Kept(c: System, step: Step, w: Identity): seq<Job> {
    if w !in c.server.queues then []
    else if step.Return? && step.w == w && Expected(c.phase, step.job)
    then Retired(c.server.queues[w].work, step.result)
    else c.server.queues[w].work
  }

  function SentTo(c: System, w: Identity): multiset<Job> {
    if w in c.pending then c.pending[w].sent else multiset{}
  }

  /**
   The jobs a step sends are the front of the queue, in order; each goes to the end of the list
   of the worker it is sent to, and is then under way to it.
   */
  ghost predicate Accounted(c: System, c': System, step: Step, messages: seq<Envelope>, w: Identity) {
    && (step.Leave? || step.CheckHeartbeats? || step.SwitchPhases? ==> JobsIn(messages) == [])
    && (!step.Leave? && !step.CheckHeartbeats? && !step.SwitchPhases? ==>
          c.server.enqueued == JobsIn(messages) + c'.server.enqueued)
    && (w in c'.pending && !((step.Deliver? || step.Lose?) && step.w == w) ==>
          c'.pending[w].sent == SentTo(c, w) + multiset(JobsTo(messages, w)))
    && (w in c'.server.queues ==> c'.server.queues[w].work == Kept(c, step, w) + JobsTo(messages, w))
  }

  lemma GreetingHasNoJobs(v: Identity, rest: seq<Envelope>, w: Identity)
    ensures var greeting := [Envelope(CommunicationSocket, v, Ehlo),
                             Envelope(CommunicationSocket, v, Heartbeat(Request))];
            JobsTo(greeting + rest, w) == JobsTo(rest, w) && JobsIn(greeting + rest) == JobsIn(rest)
  {
    var greeting := [Envelope(CommunicationSocket, v, Ehlo), Envelope(CommunicationSocket, v, Heartbeat(Request))];
    NoJobs(greeting, w);
    JobsAppend(greeting, rest, w);
  }

  lemma EnterIsNew(c: System, v: Identity, concurrency: nat, w: Identity)
    requires v !in c.pending
    ensures var entered := Enter(c, v, concurrency);
            && v in entered.server.queues && v in entered.pending && entered.server.enqueued == c.server.enqueued
            && (w in entered.pending ==> entered.pending[w].sent == SentTo(c, w))
            && (w in entered.server.queues ==>
                  entered.server.queues[w].work == if w in c.server.queues then c.server.queues[w].work else [])
            && entered.pending.Keys == c.pending.Keys + {v}
            && entered.server.queues.Keys == c.server.queues.Keys + {v}
  {
  }

  lemma HandKeys(c: System, v: Identity)
    requires v in c.server.queues && v in c.pending
    ensures Hand(c, v).server.queues.Keys == c.server.queues.Keys
    ensures Hand(c, v).pending.Keys == c.pending.Keys
  {
  }

  lemma JoinCarried(c: System, entered: System, c': System, step: Step, messages: seq<Envelope>, w: Identity)
    requires step.Join? && Carried(entered, c', messages, w) && entered.server.enqueued == c.server.enqueued
    requires w in entered.pending ==> entered.pending[w].sent == SentTo(c, w)
    requires w in entered.server.queues ==> entered.server.queues[w].work == Kept(c, step, w)
    requires c'.server.queues.Keys == entered.server.queues.Keys && c'.pending.Keys == entered.pending.Keys
    ensures Accounted(c, c', step, messages, w)
  {
  }

  lemma JoinIs(setup: Setup, c: System, step: Step)
    requires Enabled(setup, c, step) && step.Join?
    ensures var entered := Enter(c, step.w, step.concurrency);
            && After(setup, c, step) == Hand(entered, step.w)
            && Sends(setup, c, step) == HeloMessages(c.server, step.w, step.concurrency, c.now)
  {
  }

  lemma JoinAccounts(setup: Setup, c: System, step: Step, w: Identity)
    requires Enabled(setup, c, step) && step.Join?
    ensures Accounted(c, After(setup, c, step), step, Sends(setup, c, step), w)
  {
    var entered := Enter(c, step.w, step.concurrency);
    var messages := HeloMessages(c.server, step.w, step.concurrency, c.now);
    EnterIsNew(c, step.w, step.concurrency, w);
    HandCarries(entered, step.w, w);
    HandKeys(entered, step.w);
    GreetingHasNoJobs(step.w, JobMessages(step.w, Taken(entered.server, step.w)), w);
    JoinCarried(c, entered, Hand(entered, step.w), step, messages, w);
    JoinIs(setup, c, step);
  }

  /** A registered worker's result, up to the point where the worker is filled again. */
  function Settled(c: System, w: Identity, job: Job, result: JobResult): System
    requires w in c.server.queues && w in c.pending
  {
    Settle(Store(TakeAnswer(c, w, job), w, result), w, job, result)
  }

  /** `s` is `c` but for a job that left a list. */
  predicate Alike(c: System, s: System, step: Step) {
    && s.server.enqueued == c.server.enqueued
    && s.server.queues.Keys == c.server.queues.Keys && s.pending.Keys == c.pending.Keys
    && (forall v | v in c.server.queues :: s.server.queues[v].work == Kept(c, step, v))
    && (forall v | v in c.pending :: s.pending[v].sent == c.pending[v].sent)
  }

  lemma SettledIsAlike(c: System, step: Step)
    requires step.Return? && step.w in c.server.queues && step.w in c.pending && Expected(c.phase, step.job)
    ensures Alike(c, Settled(c, step.w, step.job, step.result), step)
  {
    var stored := Store(TakeAnswer(c, step.w, step.job), step.w, step.result);
    StoredServer(c, step.w, step.job, step.result);
    SettledServer(stored, step.w, step.job, step.result);
  }

  lemma StoredServer(c: System, w: Identity, job: Job, result: JobResult)
    requires w in c.pending
    ensures var stored := Store(TakeAnswer(c, w, job), w, result);
            && stored.server.enqueued == c.server.enqueued && stored.server.queues == c.server.queues
            && stored.pending == c.pending[w := c.pending[w].(answered := c.pending[w].answered - multiset{job})]
  {
  }

  lemma SettledServer(c: System, w: Identity, job: Job, result: JobResult)
    requires w in c.server.queues
    ensures var settled := Settle(c, w, job, result);
            && settled.server.enqueued == c.server.enqueued && settled.pending == c.pending
            && settled.server.queues
               == c.server.queues[w := c.server.queues[w].(work := Retired(c.server.queues[w].work, result))]
  {
  }

  lemma CarriedAccounts(c: System, s: System, c': System, step: Step, messages: seq<Envelope>, w: Identity)
    requires step.Return? && Alike(c, s, step) && Carried(s, c', messages, w)
    requires c'.server.queues.Keys == c.server.queues.Keys && c'.pending.Keys == c.pending.Keys
    ensures Accounted(c, c', step, messages, w)
  {
  }

  lemma HandIfAnyCarries(c: System, v: Identity, w: Identity)
    requires v in c.server.queues && v in c.pending
    ensures Carried(c, HandIfAny(c, v), JobMessages(v, Taken(c.server, v)), w)
    ensures HandIfAny(c, v).server.queues.Keys == c.server.queues.Keys
    ensures HandIfAny(c, v).pending.Keys == c.pending.Keys
  {
    HandCarries(c, v, w);
    if c.server.enqueued == [] { NothingCarried(c, w); }
  }

  lemma ReturnSends(setup: Setup, c: System, step: Step)
    requires Enabled(setup, c, step) && step.Return?
    requires Expected(c.phase, step.job) && step.w in c.server.queues
    ensures var s := Settled(c, step.w, step.job, step.result);
            && After(setup, c, step) == HandIfAny(s, step.w)
            && Sends(setup, c, step) == JobMessages(step.w, Taken(s.server, step.w))
  {
    var s := Settled(c, step.w, step.job, step.result);
    assert Taken(s.server, step.w) == Taken(Retire(c.server, step.w, step.result), step.w);
  }

  lemma SettledAccounts(setup: Setup, c: System, step: Step, w: Identity)
    requires Enabled(setup, c, step) && step.Return?
    requires Expected(c.phase, step.job) && step.w in c.server.queues
    ensures Accounted(c, After(setup, c, step), step, Sends(setup, c, step), w)
  {
    var s := Settled(c, step.w, step.job, step.result);
    SettledIsAlike(c, step);
    HandIfAnyCarries(s, step.w, w);
    ReturnSends(setup, c, step);
    CarriedAccounts(c, s, HandIfAny(s, step.w), step, JobMessages(step.w, Taken(s.server, step.w)), w);
  }

  lemma ReturnAccounts(setup: Setup, c: System, step: Step, w: Identity)
    requires Enabled(setup, c, step) && step.Return?
    ensures Accounted(c, After(setup, c, step), step, Sends(setup, c, step), w)
  {
    if Expected(c.phase, step.job) && step.w in c.server.queues {
      SettledAccounts(setup, c, step, w);
    } else {
      NothingCarried(c, w);
    }
  }

  lemma PassAccounts(setup: Setup, c: System, step: Step, w: Identity)
    requires Enabled(setup, c, step) && step.CheckHeartbeats?
    ensures Accounted(c, After(setup, c, step), step, Sends(setup, c, step), w)
  {
    PassSends(c.server, step.clock);
    NoJobs(Sends(setup, c, step), w);
    PassQueues(c.server, step.clock, w);
  }

  lemma ServeAccounts(setup: Setup, c: System, step: Step, w: Identity)
    requires Enabled(setup, c, step) && step.ServeWorkers?
    ensures Accounted(c, After(setup, c, step), step, Sends(setup, c, step), w)
  {
    InOrderElements(c.server.queues.Keys);
    var order := InOrder(c.server.queues.Keys);
    ServeCarries(c, order, w);
    ServeEachFields(c, order, w);
  }

  lemma JobsSentAreUnderWay(setup: Setup, c: System, step: Step, w: Identity)
    requires Enabled(setup, c, step)
    ensures Accounted(c, After(setup, c, step), step, Sends(setup, c, step), w)
  {
    match step
    case Join(_, _) => JoinAccounts(setup, c, step, w);
    case Return(_, _, _) => ReturnAccounts(setup, c, step, w);
    case CheckHeartbeats(_, _) => PassAccounts(setup, c, step, w);
    case ServeWorkers => ServeAccounts(setup, c, step, w);
    case Finish => FarewellHasNoJobs(c.server, w); NothingCarried(c, w);
    case _ => NothingCarried(c, w);
  }

  // ---------------------------------------------------------------- who is told what

  /**
   EHLO for a worker that joins, a heartbeat request for one that joins or is due in a pass, BYE
   for one that is dismissed.
   */
  predicate ToBeTold(c: System, c': System, step: Step, e: Envelope) {
    || (e == Envelope(CommunicationSocket, e.to, Ehlo) && step.Join? && step.w == e.to)
    || (e == Envelope(CommunicationSocket, e.to, Heartbeat(Request))
        && ((step.Join? && step.w == e.to)
            || (step.CheckHeartbeats? && Handlers.Due(c.server, step.clock, e.to))))
    || (e == Envelope(WorkSocket, e.to, Bye) && !step.Leave?
        && e.to in c.server.queues && e.to !in c'.server.queues)
  }

  lemma PassTells(setup: Setup, c: System, step: Step, e: Envelope)
    requires Enabled(setup, c, step) && step.CheckHeartbeats?
    ensures e in Sends(setup, c, step) <==> ToBeTold(c, After(setup, c, step), step, e)
  {
    PassSends(c.server, step.clock);
    PassQueues(c.server, step.clock, e.to);
  }

  lemma JobsOnly(setup: Setup, c: System, step: Step, e: Envelope)
    requires Enabled(setup, c, step) && (step.Return? || step.ServeWorkers?) && !e.command.JobCommand?
    ensures e !in Sends(setup, c, step)
  {
    if step.Return? {
      if step.w in c.server.queues {
        JobMessagesOnly(step.w, Taken(Retire(c.server, step.w, step.result), step.w));
      }
    } else {
      InOrderElements(c.server.queues.Keys);
      ServeMessagesOnly(c.server, InOrder(c.server.queues.Keys));
    }
  }

  lemma JoinTells(setup: Setup, c: System, step: Step, e: Envelope)
    requires Enabled(setup, c, step) && step.Join? && !e.command.JobCommand?
    ensures e in Sends(setup, c, step) <==>
            e == Envelope(CommunicationSocket, step.w, Ehlo)
            || e == Envelope(CommunicationSocket, step.w, Heartbeat(Request))
  {
    JobMessagesOnly(step.w, Taken(Register(c.server, step.w, step.concurrency, c.now), step.w));
  }

  /** Besides jobs, the server sends that and nothing else. */
  lemma ToldExactly(setup: Setup, c: System, step: Step, e: Envelope)
    requires Enabled(setup, c, step) && !e.command.JobCommand?
    ensures e in Sends(setup, c, step) <==> ToBeTold(c, After(setup, c, step), step, e)
  {
    StepFields(setup, c, step, e.to);
    match step
    case Join(_, _) => JoinTells(setup, c, step, e);
    case Return(_, _, _) => JobsOnly(setup, c, step, e);
    case CheckHeartbeats(_, _) => PassTells(setup, c, step, e);
    case ServeWorkers => JobsOnly(setup, c, step, e);
    case Finish =>
      InOrderElements(c.server.queues.Keys);
      ByeMessagesExactly(InOrder(c.server.queues.Keys), e);
    case _ =>
  }

  /** What module Heartbeats calls a request is one on the wire. */
  lemma RequestsAreSent(setup: Setup, states: seq<System>, steps: seq<Step>, k: nat, w: Identity)
    requires Run(setup, states, steps) && k < |steps|
    ensures Enabled(setup, states[k], steps[k])
    ensures RequestAt(states, steps, k, w)
            <==> Envelope(CommunicationSocket, w, Heartbeat(Request)) in Sends(setup, states[k], steps[k])
  {
    ToldExactly(setup, states[k], steps[k], Envelope(CommunicationSocket, w, Heartbeat(Request)));
    if steps[k].CheckHeartbeats? && w in states[k].server.queues {
      OverdueMeans(states[k].server.queues[w], steps[k].clock[w].checked);
    }
  }
}
