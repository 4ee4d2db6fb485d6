/**
 The `Server` class of src/server.cpp and its visitors: the real fields, changed in place.
 Each method is proved to do to the fields what module Dispatch says, and to send exactly the
 messages its contract lists.
 */
module ServerProcess {
  import opened Config
  import opened Commands
  import opened Names
  import opened Dispatch
  import Interpolation
  import Matching

  datatype Socket = WorkSocket | CommunicationSocket

  datatype Envelope = Envelope(socket: Socket, to: Identity, command: Command)

  /** One JOB message per handed-out job, in order. */
  function JobMessages(w: Identity, jobs: seq<Job>): seq<Envelope> {
    if jobs == [] then []
    else JobMessages(w, jobs[..|jobs| - 1]) + [Envelope(WorkSocket, w, JobCommand(jobs[|jobs| - 1]))]
  }

  function ByeMessages(workers: seq<Identity>): seq<Envelope> {
    if workers == [] then []
    else ByeMessages(workers[..|workers| - 1]) + [Envelope(WorkSocket, workers[|workers| - 1], Bye)]
  }

  function RequestTo(w: Identity, data: WorkerData, at: Reading): seq<Envelope> {
    if data.heartbeatReplyReceived && Overdue(data, at.checked)
    then [Envelope(CommunicationSocket, w, Heartbeat(Request))] else []
  }

  /** The heartbeat requests a pass over the workers sends. */
  function RequestMessages(s: ServerState, clock: Clock, workers: seq<Identity>): seq<Envelope>
    requires forall w | w in workers :: w in s.queues
  {
    if workers == [] then []
    else
      var w := workers[|workers| - 1];
      assert forall x | x in workers[..|workers| - 1] :: x in workers;
      RequestMessages(s, clock, workers[..|workers| - 1]) + RequestTo(w, s.queues[w], At(clock, w))
  }

  /** The JOB messages of the serving loop. */
  function ServeMessages(s: ServerState, order: seq<Identity>): seq<Envelope>
    requires forall w | w in order :: w in s.queues
    decreases |order|
  {
    if order == [] || s.enqueued == [] then []
    else JobMessages(order[0], Taken(s, order[0])) + ServeMessages(Transmit(s, order[0]), order[1..])
  }

  ghost function HeartbeatRequests(s: ServerState, clock: Clock): seq<Envelope> {
    InOrderElements(s.queues.Keys);
    RequestMessages(s, clock, InOrder(s.queues.Keys))
  }

  ghost function WorkServed(s: ServerState): seq<Envelope> {
    InOrderElements(s.queues.Keys);
    ServeMessages(s, InOrder(s.queues.Keys))
  }

  /** The answer to HELO and the first jobs. */
  function HeloMessages(s: ServerState, w: Identity, concurrency: nat, now: int): seq<Envelope> {
    [Envelope(CommunicationSocket, w, Ehlo), Envelope(CommunicationSocket, w, Heartbeat(Request))]
    + JobMessages(w, Taken(Register(s, w, concurrency, now), w))
  }

  /** The jobs a registered worker is given for its result. */
  function ResultMessages(s: ServerState, w: Identity, result: JobResult): seq<Envelope> {
    if w !in s.queues then [] else JobMessages(w, Taken(Retire(s, w, result), w))
  }

  ghost function PassMessages(s: ServerState, clock: Clock): seq<Envelope> {
    HeartbeatRequests(s, clock) + ByeMessages(InOrder(ExpiredWorkers(s, clock)))
  }

  ghost function FarewellMessages(s: ServerState): seq<Envelope> {
    ByeMessages(InOrder(s.queues.Keys))
  }

  /** The scan of `std::find_if`. */
  method FindIf(queue: seq<Job>, result: JobResult) returns (i: nat)
    ensures i == FindMatch(queue, result)
  {
    i := 0;
    while i < |queue| && !Matches(queue[i], result)
      invariant 0 <= i <= |queue|
      invariant forall k | 0 <= k < i :: !Matches(queue[k], result)
    {
      i := i + 1;
    }
    FirstMatch(queue, result, i);
  }

  class Server {
    var enqueuedWork: seq<Job>
    var workerQueues: map<Identity, WorkerData>
    var histogramResults: map<string, Histogram>
    var equalisedCount: nat
    var files: map<string, seq<byte>>
    var sent: seq<Envelope>

    ghost function State(): ServerState
      reads this
    {
      ServerState(enqueuedWork, workerQueues, histogramResults, equalisedCount, files)
    }

    /** One histogram job per regular file of the directory, in listing order. */
    constructor (directory: seq<string>)
      ensures State() == ServerState(seq(|directory|, i requires 0 <= i < |directory| =>
                                           HistogramJob(directory[i])), map[], map[], 0, map[])
      ensures sent == []
    {
      enqueuedWork, workerQueues, histogramResults := [], map[], map[];
      equalisedCount, files, sent := 0, map[], [];
      new;
      for i := 0 to |directory|
        invariant State() == ServerState(seq(i, k requires 0 <= k < i => HistogramJob(directory[k])),
                                         map[], map[], 0, map[])
        invariant sent == []
      {
        enqueuedWork := enqueuedWork + [HistogramJob(directory[i])];
      }
    }

    method TransmitWork(w: Identity)
      requires w in workerQueues
      modifies `enqueuedWork, `workerQueues, `sent
      ensures State() == Transmit(old(State()), w)
      ensures sent == old(sent) + JobMessages(w, Taken(old(State()), w))
    {
      ghost var s := State();
      ghost var n := 0;
      while |workerQueues[w].work| < workerQueues[w].concurrency && enqueuedWork != []
        invariant n <= |Taken(s, w)| && w in workerQueues
        invariant State() == Fed(s, w, n)
        invariant sent == old(sent) + JobMessages(w, s.enqueued[..n])
        decreases |enqueuedWork|
      {
        FedIsPartOfTransmit(s, w, n);
        var workItem := enqueuedWork[0];
        JobMessagesSnoc(w, s.enqueued, n);
        Append(old(sent), JobMessages(w, s.enqueued[..n]), [Envelope(WorkSocket, w, JobCommand(workItem))]);
        enqueuedWork := enqueuedWork[1..];
        sent := sent + [Envelope(WorkSocket, w, JobCommand(workItem))];
        workerQueues := workerQueues[w := workerQueues[w].(work := workerQueues[w].work + [workItem])];
        n := n + 1;
      }
      FedIsPartOfTransmit(s, w, n);
    }

    /** `ServerCommunicationVisitor::visit_helo` */
    method VisitHelo(w: Identity, concurrency: uint32, now: int)
      modifies this
      ensures State() == HeloReceived(old(State()), w, concurrency, now)
      ensures sent == old(sent) + HeloMessages(old(State()), w, concurrency, now)
    {
      var newWorkerData := WorkerData([], now, false, Min(concurrency, MAX_WORKER_QUEUE));
      if w !in workerQueues {
        workerQueues := workerQueues[w := newWorkerData];
      }
      sent := sent + [Envelope(CommunicationSocket, w, Ehlo)];
      sent := sent + [Envelope(CommunicationSocket, w, Heartbeat(Request))];
      TransmitWork(w);
    }

    /** Erasing what the scan found. */
    method EraseMatch(w: Identity, result: JobResult)
      requires w in workerQueues
      requires FindMatch(workerQueues[w].work, result) < |workerQueues[w].work|
      modifies this`workerQueues
      ensures State() == Retire(old(State()), w, result)
    {
      var queue := workerQueues[w].work;
      var i := FindIf(queue, result);
      assert Retired(queue, result) == queue[..i] + queue[i + 1..];
      workerQueues := workerQueues[w := workerQueues[w].(work := queue[..i] + queue[i + 1..])];
    }

    /** A registered worker's result must answer one of the jobs it was given. */
    method VisitHistogramResult(w: Identity, result: JobResult)
      requires result.HistogramResult?
      requires w in workerQueues ==>
                 FindMatch(workerQueues[w].work, result) < |workerQueues[w].work|
      modifies this
      ensures State() == HistogramResultReceived(old(State()), w, result)
      ensures sent == old(sent) + ResultMessages(old(State()), w, result)
    {
      if w in workerQueues {
        if result.filename !in histogramResults {
          histogramResults := histogramResults[result.filename := result.histogram];
        }
        EraseMatch(w, result);
        if enqueuedWork != [] {
          TransmitWork(w);
        }
      }
    }

    /** The file is written even for an unregistered worker. */
    method VisitEqualisationResult(w: Identity, result: JobResult)
      requires result.EqualisationResult?
      requires w in workerQueues ==>
                 FindMatch(workerQueues[w].work, result) < |workerQueues[w].work|
      modifies this
      ensures State() == EqualisationResultReceived(old(State()), w, result)
      ensures sent == old(sent) + ResultMessages(old(State()), w, result)
    {
      files := files[OutputPath(result.filename) := result.tiff];
      if w in workerQueues {
        equalisedCount := equalisedCount + 1;
        EraseMatch(w, result);
        if enqueuedWork != [] {
          TransmitWork(w);
        }
      }
    }

    /** Undefined for an unregistered worker: `erase` is then given the end iterator. */
    method VisitBye(w: Identity)
      requires w in workerQueues
      modifies `enqueuedWork, `workerQueues
      ensures State() == ByeReceived(old(State()), w)
    {
      ghost var s := State();
      assert s.queues[w := s.queues[w].(work := s.queues[w].work)] == s.queues;
      while workerQueues[w].work != []
        invariant w in workerQueues
        invariant workerQueues == s.queues[w := s.queues[w].(work := workerQueues[w].work)]
        invariant enqueuedWork + Reverse(workerQueues[w].work) == s.enqueued + Reverse(s.queues[w].work)
        decreases |workerQueues[w].work|
      {
        var jobs := workerQueues[w].work;
        var job := jobs[|jobs| - 1];
        PopBack(enqueuedWork, jobs);
        UpdateTwice(s.queues, w, workerQueues[w], s.queues[w].(work := jobs[..|jobs| - 1]));
        enqueuedWork := enqueuedWork + [job];
        workerQueues := workerQueues[w := workerQueues[w].(work := jobs[..|jobs| - 1])];
      }
      workerQueues := workerQueues - {w};
      assert workerQueues == s.queues - {w};
    }

    method DismissWorker(w: Identity)
      modifies `enqueuedWork, `workerQueues, `sent
      ensures State() == Dismiss(old(State()), w)
      ensures sent == old(sent) + [Envelope(WorkSocket, w, Bye)]
    {
      if w in workerQueues {
        var work := workerQueues[w].work;
        for i := 0 to |work|
          modifies `enqueuedWork
          invariant enqueuedWork == old(enqueuedWork) + work[..i]
        {
          enqueuedWork := enqueuedWork + [work[i]];
          assert work[..i + 1] == work[..i] + [work[i]];
        }
        assert work[..|work|] == work;
        workerQueues := workerQueues - {w};
      }
      sent := sent + [Envelope(WorkSocket, w, Bye)];
    }

    method DismissWorkers()
      modifies `workerQueues, `sent
      ensures State() == DismissAll(old(State())) && workerQueues == map[]
      ensures sent == old(sent) + FarewellMessages(old(State()))
    {
      var order := Sorted(workerQueues.Keys);
      for i := 0 to |order|
        modifies `sent
        invariant sent == old(sent) + ByeMessages(order[..i])
      {
        ByeMessagesSnoc(order, i);
        sent := sent + [Envelope(WorkSocket, order[i], Bye)];
      }
      assert order[..|order|] == order;
      workerQueues := map[];
    }

    /** What `send_heartbeats` does about one worker. */
    method CheckWorker(w: Identity, at: Reading) returns (expired: bool)
      requires w in workerQueues
      modifies `workerQueues, `sent
      ensures workerQueues == old(workerQueues)[w := Refreshed(old(workerQueues)[w], at)]
      ensures expired == Expired(old(workerQueues)[w], at)
      ensures sent == old(sent) + RequestTo(w, old(workerQueues)[w], at)
      ensures var was, due := old(workerQueues)[w],
                              at.checked - old(workerQueues)[w].lastHeartbeatRequest >= 6_000_000_000;
              if due && was.heartbeatReplyReceived then
                && sent == old(sent) + [Envelope(CommunicationSocket, w, Heartbeat(Request))] && !expired
                && workerQueues == old(workerQueues)[
                     w := was.(heartbeatReplyReceived := false, lastHeartbeatRequest := at.stamped)]
              else sent == old(sent) && workerQueues == old(workerQueues) && expired == due
    {
      OverdueMeans(workerQueues[w], at.checked);
      expired := false;
      var data := workerQueues[w];
      if !data.heartbeatReplyReceived && Overdue(data, at.checked) {
        expired := true;
      } else if data.heartbeatReplyReceived && Overdue(data, at.checked) {
        sent := sent + [Envelope(CommunicationSocket, w, Heartbeat(Request))];
        workerQueues := workerQueues[
          w := data.(heartbeatReplyReceived := false, lastHeartbeatRequest := at.stamped)];
      }
    }

    /** The first loop of `send_heartbeats`: request again, and note who has expired. */
    method CheckWorkers(clock: Clock, order: seq<Identity>) returns (dismissed: seq<Identity>)
      requires Distinct(order) && forall w | w in order :: w in workerQueues
      modifies `workerQueues, `sent
      ensures workerQueues == RefreshedUpTo(old(State()), order, |order|, clock)
      ensures dismissed == ExpiredUpTo(old(State()), order, |order|, clock)
      ensures sent == old(sent) + RequestMessages(old(State()), clock, order)
    {
      ghost var s := State();
      dismissed := [];
      var i := 0;
      while i < |order|
        invariant 0 <= i <= |order|
        invariant workerQueues == RefreshedUpTo(s, order, i, clock)
        invariant dismissed == ExpiredUpTo(s, order, i, clock)
        invariant sent == old(sent) + RequestMessages(s, clock, order[..i])
      {
        var w := order[i];
        RequestMessagesSnoc(s, clock, order, i);
        StillToRefresh(s, order, i, i, clock);
        UpToSnoc(s, order, i, clock);
        Append(old(sent), RequestMessages(s, clock, order[..i]), RequestTo(w, s.queues[w], At(clock, w)));
        var expired := CheckWorker(w, At(clock, w));
        if expired {
          dismissed := dismissed + [w];
        }
        i := i + 1;
      }
      assert order[..|order|] == order;
    }

    /** The second loop of `send_heartbeats`. */
    method DismissExpired(dismissed: seq<Identity>)
      modifies `enqueuedWork, `workerQueues, `sent
      ensures State() == DismissEach(old(State()), dismissed)
      ensures sent == old(sent) + ByeMessages(dismissed)
    {
      ghost var target := DismissEach(State(), dismissed);
      assert dismissed[0..] == dismissed;
      for i := 0 to |dismissed|
        invariant DismissEach(State(), dismissed[i..]) == target
        invariant sent == old(sent) + ByeMessages(dismissed[..i])
      {
        assert dismissed[i..][1..] == dismissed[i + 1..];
        ByeMessagesSnoc(dismissed, i);
        Append(old(sent), ByeMessages(dismissed[..i]), [Envelope(WorkSocket, dismissed[i], Bye)]);
        DismissWorker(dismissed[i]);
      }
      assert dismissed[..|dismissed|] == dismissed;
    }

    method SendHeartbeats(clock: Clock)
      modifies `enqueuedWork, `workerQueues, `sent
      ensures State() == HeartbeatPass(old(State()), clock)
      ensures sent == old(sent) + PassMessages(old(State()), clock)
    {
      var order := Sorted(workerQueues.Keys);
      Append(sent, HeartbeatRequests(State(), clock), ByeMessages(InOrder(ExpiredWorkers(State(), clock))));
      WholePass(State(), order, clock);
      var dismissed := CheckWorkers(clock, order);
      DismissExpired(dismissed);
    }

    /** `ServerCommunicationVisitor::visit_heartbeat` */
    method VisitHeartbeat(w: Identity, kind: HeartbeatType)
      modifies this
      ensures State() == if kind == Request then old(State()) else HeartbeatReply(old(State()), w)
      ensures sent == old(sent) +
                      if kind == Request then [Envelope(CommunicationSocket, w, Heartbeat(Reply))] else []
    {
      match kind
      case Request =>
        sent := sent + [Envelope(CommunicationSocket, w, Heartbeat(Reply))];
      case Reply =>
        if w !in workerQueues {
          return;
        }
        workerQueues := workerQueues[w := workerQueues[w].(heartbeatReplyReceived := true)];
    }

    /** `serve_work` between the phases; an empty directory has no first histogram. */
    method PlanEqualisation(quantumRange: real)
      requires histogramResults != map[]
      modifies `enqueuedWork, `equalisedCount
      ensures State() == SwitchPhase(old(State()), quantumRange)
    {
      var order := Sorted(histogramResults.Keys);
      InOrderElements(histogramResults.Keys);
      assert order != [] by {
        var x :| x in histogramResults;
        assert x in order;
      }
      PushPlan(order, quantumRange);
      equalisedCount := 0;
    }

    /** Its loop over neighbouring entries of the result map. */
    method PushPlan(order: seq<string>, quantumRange: real)
      requires order != [] && forall x | x in order :: x in histogramResults
      modifies `enqueuedWork
      ensures enqueuedWork
           == old(enqueuedWork) + PlanUpTo(histogramResults, order, |order|, quantumRange)
    {
      var identity := Interpolation.IdentityEqualisationMapping(HISTOGRAM_SEGMENTS, quantumRange);
      enqueuedWork := enqueuedWork + [EqualisationJob(order[0], identity)];
      var previous, current := 0, 1;
      while current != |order|
        invariant 1 <= current <= |order| && previous == current - 1
        invariant histogramResults == old(histogramResults)
        invariant enqueuedWork
               == old(enqueuedWork) + PlanUpTo(histogramResults, order, current, quantumRange)
      {
        assert order[previous] in order && order[current] in order;
        var parameters := Matching.GetEqualisationParameters(
          histogramResults[order[previous]], histogramResults[order[current]], quantumRange);
        Append(old(enqueuedWork), PlanUpTo(histogramResults, order, current, quantumRange),
               [EqualisationJob(order[current], parameters)]);
        enqueuedWork := enqueuedWork + [EqualisationJob(order[current], parameters)];
        previous := current;
        current := current + 1;
      }
    }

    /** The serving loop at the start of `receive_equalised`. */
    method ServeExistingWorkers()
      modifies `enqueuedWork, `workerQueues, `sent
      ensures State() == Serve(old(State()))
      ensures sent == old(sent) + WorkServed(old(State()))
    {
      var order := Sorted(workerQueues.Keys);
      InOrderElements(workerQueues.Keys);
      ServeInOrder(order);
    }

    /** The loop itself. */
    method ServeInOrder(order: seq<Identity>)
      requires forall w | w in order :: w in workerQueues
      modifies `enqueuedWork, `workerQueues, `sent
      ensures State() == ServeInTurn(old(State()), order)
      ensures sent == old(sent) + ServeMessages(old(State()), order)
    {
      ghost var target, messages := ServeInTurn(State(), order), sent + ServeMessages(State(), order);
      assert order[0..] == order;
      var i := 0;
      while i < |order| && enqueuedWork != []
        invariant 0 <= i <= |order|
        invariant Remaining(State(), sent, order[i..], target, messages)
      {
        ServeNext(State(), sent, order, i, target, messages);
        TransmitWork(order[i]);
        i := i + 1;
      }
      ServeDone(State(), sent, order[i..], target, messages);
    }
  }

  // ---------------------------------------------------------------- facts for the loops

  lemma {:induction false} FirstMatch(work: seq<Job>, result: JobResult, i: nat)
    requires i <= |work| && forall k | 0 <= k < i :: !Matches(work[k], result)
    requires i < |work| ==> Matches(work[i], result)
    ensures FindMatch(work, result) == i
  {
    assert FindMatch(work, result) >= i;
    assert i < |work| ==> FindMatch(work, result) <= i;
  }

  lemma Append<T>(a: seq<T>, b: seq<T>, c: seq<T>)
    ensures a + (b + c) == a + b + c
  {
  }

  lemma UpdateTwice<K, V>(m: map<K, V>, k: K, x: V, y: V)
    ensures m[k := x][k := y] == m[k := y]
  {
  }

  /** One pass of the loop in `transmit_work`. */
  function FeedOne(s: ServerState, w: Identity): ServerState
    requires w in s.queues && s.enqueued != []
  {
    SetWork(s, w, s.queues[w].work + [s.enqueued[0]]).(enqueued := s.enqueued[1..])
  }

  /** The server after `n` passes. */
  function Fed(s: ServerState, w: Identity, n: nat): (t: ServerState)
    requires w in s.queues && n <= |s.enqueued|
    ensures w in t.queues && |t.enqueued| == |s.enqueued| - n
  {
    if n == 0 then s else FeedOne(Fed(s, w, n - 1), w)
  }

  lemma {:induction false} FedIs(s: ServerState, w: Identity, n: nat)
    requires w in s.queues && n <= |s.enqueued|
    ensures Fed(s, w, n)
         == SetWork(s, w, s.queues[w].work + s.enqueued[..n]).(enqueued := s.enqueued[n..])
    decreases n
  {
    var work := s.queues[w].work;
    if n == 0 {
      assert work + s.enqueued[..0] == work;
      assert s.queues[w := s.queues[w].(work := work)] == s.queues;
    } else {
      FedIs(s, w, n - 1);
      assert s.enqueued[..n] == s.enqueued[..n - 1] + [s.enqueued[n - 1]];
      Append(work, s.enqueued[..n - 1], [s.enqueued[n - 1]]);
      UpdateTwice(s.queues, w, Fed(s, w, n - 1).queues[w], Fed(s, w, n).queues[w]);
    }
  }

  /** The loop's guard holds exactly until everything that fits has been handed out. */
  lemma FedIsPartOfTransmit(s: ServerState, w: Identity, n: nat)
    requires w in s.queues && n <= |Taken(s, w)|
    ensures var t := Fed(s, w, n);
            && (|t.queues[w].work| < t.queues[w].concurrency && t.enqueued != [] <==> n < |Taken(s, w)|)
            && (n < |Taken(s, w)| ==> t.enqueued[0] == s.enqueued[n])
            && (n == |Taken(s, w)| ==> t == Transmit(s, w) && s.enqueued[..n] == Taken(s, w))
  {
    FedIs(s, w, n);
  }

  lemma JobMessagesSnoc(w: Identity, jobs: seq<Job>, n: nat)
    requires n < |jobs|
    ensures JobMessages(w, jobs[..n + 1])
         == JobMessages(w, jobs[..n]) + [Envelope(WorkSocket, w, JobCommand(jobs[n]))]
  {
    assert jobs[..n + 1][..n] == jobs[..n];
  }

  lemma ByeMessagesSnoc(workers: seq<Identity>, i: nat)
    requires i < |workers|
    ensures ByeMessages(workers[..i + 1])
         == ByeMessages(workers[..i]) + [Envelope(WorkSocket, workers[i], Bye)]
  {
    assert workers[..i + 1][..i] == workers[..i];
  }

  lemma RequestMessagesSnoc(s: ServerState, clock: Clock, workers: seq<Identity>, i: nat)
    requires i < |workers| && forall w | w in workers :: w in s.queues
    ensures workers[i] in workers
    ensures RequestMessages(s, clock, workers[..i + 1])
         == RequestMessages(s, clock, workers[..i]) + RequestTo(workers[i], s.queues[workers[i]], At(clock, workers[i]))
  {
    assert workers[..i + 1][..i] == workers[..i];
  }

  lemma PopBack(enqueued: seq<Job>, jobs: seq<Job>)
    requires jobs != []
    ensures enqueued + Reverse(jobs)
         == enqueued + [jobs[|jobs| - 1]] + Reverse(jobs[..|jobs| - 1])
  {
    Append(enqueued, [jobs[|jobs| - 1]], Reverse(jobs[..|jobs| - 1]));
  }

  predicate Distinct(order: seq<Identity>) {
    forall i, k | 0 <= i < k < |order| :: order[i] != order[k]
  }

  /** The worker map once the first `i` workers have been looked at. */
  ghost function RefreshedUpTo(s: ServerState, order: seq<Identity>, i: nat, clock: Clock)
    : (queues: map<Identity, WorkerData>)
    requires i <= |order| && forall w | w in order :: w in s.queues
    ensures queues.Keys == s.queues.Keys
  {
    if i == 0 then s.queues
    else
      assert order[i - 1] in order;
      RefreshedUpTo(s, order, i - 1, clock)[order[i - 1] := Refreshed(s.queues[order[i - 1]], At(clock, order[i - 1]))]
  }

  /** The expired ones of the first `i` workers. */
  ghost function ExpiredUpTo(s: ServerState, order: seq<Identity>, i: nat, clock: Clock): seq<Identity>
    requires i <= |order| && forall w | w in order :: w in s.queues
  {
    if i == 0 then []
    else
      assert order[i - 1] in order;
      ExpiredUpTo(s, order, i - 1, clock)
      + if Expired(s.queues[order[i - 1]], At(clock, order[i - 1])) then [order[i - 1]] else []
  }

  lemma UpToSnoc(s: ServerState, order: seq<Identity>, i: nat, clock: Clock)
    requires i < |order| && forall w | w in order :: w in s.queues
    ensures var w := order[i];
            && w in s.queues
            && RefreshedUpTo(s, order, i + 1, clock)
               == RefreshedUpTo(s, order, i, clock)[w := Refreshed(s.queues[w], At(clock, w))]
            && ExpiredUpTo(s, order, i + 1, clock)
               == ExpiredUpTo(s, order, i, clock) + (if Expired(s.queues[w], At(clock, w)) then [w] else [])
  {
    assert order[i] in order;
  }

  lemma {:induction false} StillToRefresh(s: ServerState, order: seq<Identity>, i: nat, k: nat, clock: Clock)
    requires i <= k < |order| && Distinct(order) && forall w | w in order :: w in s.queues
    ensures order[k] in s.queues && RefreshedUpTo(s, order, i, clock)[order[k]] == s.queues[order[k]]
    decreases i
  {
    assert order[k] in order;
    if i > 0 {
      StillToRefresh(s, order, i - 1, k, clock);
    }
  }

  lemma {:induction false} RefreshedAt(s: ServerState, order: seq<Identity>, i: nat, k: nat, clock: Clock)
    requires k < i <= |order| && Distinct(order) && forall w | w in order :: w in s.queues
    ensures order[k] in s.queues
    ensures RefreshedUpTo(s, order, i, clock)[order[k]] == Refreshed(s.queues[order[k]], At(clock, order[k]))
    decreases i
  {
    assert order[k] in order;
    if k < i - 1 {
      RefreshedAt(s, order, i - 1, k, clock);
    }
  }

  lemma AllRefreshed(s: ServerState, order: seq<Identity>, clock: Clock)
    requires Distinct(order) && forall w :: w in order <==> w in s.queues
    ensures RefreshedUpTo(s, order, |order|, clock) == RefreshAll(s, clock).queues
  {
    forall w | w in s.queues
      ensures RefreshedUpTo(s, order, |order|, clock)[w] == Refreshed(s.queues[w], At(clock, w))
    {
      assert w in order;
      var k :| 0 <= k < |order| && order[k] == w;
      RefreshedAt(s, order, |order|, k, clock);
    }
  }

  lemma {:induction false} ExpiredInOrder(s: ServerState, order: seq<Identity>, i: nat, clock: Clock)
    requires i <= |order| && Increasing(order) && forall w | w in order :: w in s.queues
    ensures Increasing(ExpiredUpTo(s, order, i, clock))
    ensures forall x :: x in ExpiredUpTo(s, order, i, clock) <==>
                        x in order[..i] && x in s.queues && Expired(s.queues[x], At(clock, x))
    decreases i
  {
    if i > 0 {
      ExpiredInOrder(s, order, i - 1, clock);
      var w := order[i - 1];
      assert w in order;
      assert order[..i] == order[..i - 1] + [w];
      forall x | x in ExpiredUpTo(s, order, i - 1, clock)
        ensures Before(x, w)
      {
        var k :| 0 <= k < i - 1 && order[k] == x;
      }
    }
  }

  lemma AllExpired(s: ServerState, order: seq<Identity>, clock: Clock)
    requires order == InOrder(s.queues.Keys)
    requires forall w | w in order :: w in s.queues
    ensures ExpiredUpTo(s, order, |order|, clock) == InOrder(ExpiredWorkers(s, clock))
  {
    InOrderElements(s.queues.Keys);
    InOrderIncreases(s.queues.Keys);
    ExpiredInOrder(s, order, |order|, clock);
    assert order[..|order|] == order;
    OrderIsUnique(ExpiredWorkers(s, clock), ExpiredUpTo(s, order, |order|, clock));
  }

  /** Serving the rest of the workers leads to this state and these messages. */
  ghost predicate Remaining(s: ServerState, sent: seq<Envelope>, rest: seq<Identity>,
                            target: ServerState, messages: seq<Envelope>)
  {
    && (forall w | w in rest :: w in s.queues)
    && ServeInTurn(s, rest) == target && sent + ServeMessages(s, rest) == messages
  }

  lemma ServeDone(s: ServerState, sent: seq<Envelope>, rest: seq<Identity>, target: ServerState,
                  messages: seq<Envelope>)
    requires Remaining(s, sent, rest, target, messages) && (rest == [] || s.enqueued == [])
    ensures s == target && sent == messages
  {
    assert sent + [] == sent;
  }

  /** One pass of the serving loop. */
  lemma ServeNext(s: ServerState, sent: seq<Envelope>, order: seq<Identity>, i: nat, target: ServerState,
                  messages: seq<Envelope>)
    requires i < |order| && s.enqueued != [] && Remaining(s, sent, order[i..], target, messages)
    ensures order[i] in s.queues
    ensures Remaining(Transmit(s, order[i]), sent + JobMessages(order[i], Taken(s, order[i])), order[i + 1..],
                      target, messages)
  {
    assert order[i] in order[i..];
    assert order[i..][1..] == order[i + 1..];
    assert forall w | w in order[i + 1..] :: w in order[i..];
    Append(sent, JobMessages(order[i], Taken(s, order[i])), ServeMessages(Transmit(s, order[i]), order[i + 1..]));
  }

  /** Looking at every worker in name order refreshes and expires all that `HeartbeatPass` does. */
  lemma WholePass(s: ServerState, order: seq<Identity>, clock: Clock)
    requires order == InOrder(s.queues.Keys)
    ensures Distinct(order) && forall w :: w in order <==> w in s.queues
    ensures RefreshedUpTo(s, order, |order|, clock) == RefreshAll(s, clock).queues
    ensures ExpiredUpTo(s, order, |order|, clock) == InOrder(ExpiredWorkers(s, clock))
  {
    InOrderElements(s.queues.Keys);
    AllRefreshed(s, order, clock);
    AllExpired(s, order, clock);
  }
}
