/**
 Heartbeats over timed runs: who is dismissed, and how soon. The clock never goes back; a pass
 of `send_heartbeats` takes time and reads the clock for every worker.
 */
module Heartbeats {
  import opened Commands
  import opened Names
  import opened Dispatch
  import opened Cluster
  import opened Preservation
  import Handlers

  /** Six seconds: the first whole number of seconds above the interval, in nanoseconds. */
  const PATIENCE: int := 6_000_000_000

  predicate Registered(c: System, w: Identity) {
    w in c.server.queues
  }

  function Data(c: System, w: Identity): WorkerData
    requires Registered(c, w)
  {
    c.server.queues[w]
  }

  // ---------------------------------------------------------------- single steps

  /** A pass dismisses exactly the expired workers and refreshes the others. */
  lemma PassQueues(s: ServerState, clock: Clock, w: Identity)
    ensures w in HeartbeatPass(s, clock).queues <==> w in s.queues && !Expired(s.queues[w], At(clock, w))
    ensures w in HeartbeatPass(s, clock).queues ==>
              HeartbeatPass(s, clock).queues[w] == Refreshed(s.queues[w], At(clock, w))
  {
    var expired := ExpiredWorkers(s, clock);
    InOrderElements(expired);
    Handlers.DismissEachQueues(RefreshAll(s, clock), InOrder(expired));
    assert (set x | x in InOrder(expired)) == expired;
    assert HeartbeatPass(s, clock).queues == RefreshAll(s, clock).queues - expired;
  }

  /** The heartbeat fields of a worker before and after a step. */
  ghost predicate FieldsKept(c: System, c': System, w: Identity) {
    Registered(c, w) && Registered(c', w) ==>
      && Data(c', w).lastHeartbeatRequest == Data(c, w).lastHeartbeatRequest
      && Data(c', w).heartbeatReplyReceived == Data(c, w).heartbeatReplyReceived
  }

  lemma HandFields(c: System, v: Identity, w: Identity)
    requires v in c.server.queues && v in c.pending
    ensures Registered(Hand(c, v), w) <==> Registered(c, w)
    ensures FieldsKept(c, Hand(c, v), w)
  {
  }

  lemma {:induction false} ServeEachFields(c: System, order: seq<Identity>, w: Identity)
    requires forall x | x in order :: x in c.server.queues && x in c.pending
    ensures Registered(ServeEach(c, order), w) <==> Registered(c, w)
    ensures FieldsKept(c, ServeEach(c, order), w)
    ensures ServeEach(c, order).now == c.now && ServeEach(c, order).pending.Keys == c.pending.Keys
    decreases |order|
  {
    if order != [] && c.server.enqueued != [] {
      HandFields(c, order[0], w);
      ServeEachFields(Hand(c, order[0]), order[1..], w);
    }
  }

  lemma SettleFields(c: System, v: Identity, job: Job, result: JobResult, w: Identity)
    requires v in c.server.queues
    ensures Registered(Settle(c, v, job, result), w) <==> Registered(c, w)
    ensures FieldsKept(c, Settle(c, v, job, result), w)
  {
  }

  lemma ReceiveFields(c: System, v: Identity, job: Job, result: JobResult, w: Identity)
    requires v in c.pending && (job.HistogramJob? <==> result.HistogramResult?)
    ensures var c' := Receive(c, v, job, result);
            && (Registered(c', w) <==> Registered(c, w)) && FieldsKept(c, c', w)
            && c'.now == c.now && c'.pending.Keys == c.pending.Keys
  {
    var c2 := Store(TakeAnswer(c, v, job), v, result);
    assert c2.server.queues == c.server.queues && c2.now == c.now;
    if Expected(c.phase, job) && v in c2.server.queues {
      var c3 := Settle(c2, v, job, result);
      SettleFields(c2, v, job, result, w);
      if c3.server.enqueued != [] { HandFields(c3, v, w); }
    }
  }

  /** Time passes and identities stay known. */
  lemma StepIsMonotone(setup: Setup, c: System, step: Step)
    requires Enabled(setup, c, step)
    ensures c.now <= After(setup, c, step).now && c.pending.Keys <= After(setup, c, step).pending.Keys
  {
    if step.Return? { ReceiveFields(c, step.w, step.job, step.result, step.w); }
    if step == ServeWorkers {
      InOrderElements(c.server.queues.Keys);
      ServeEachFields(c, InOrder(c.server.queues.Keys), "");
    }
  }

  /** Who comes and goes, and what happens to the heartbeat fields of those who stay. */
  lemma StepFields(setup: Setup, c: System, step: Step, w: Identity)
    requires Enabled(setup, c, step)
    ensures var c' := After(setup, c, step);
            && (step != Alive(w) && !step.CheckHeartbeats? ==> FieldsKept(c, c', w))
            && (Registered(c', w) && !Registered(c, w) ==>
                  step.Join? && step.w == w && Data(c', w).lastHeartbeatRequest == c.now
                  && !Data(c', w).heartbeatReplyReceived)
            && (step.Join? && step.w == w ==> Registered(c', w))
            && (Registered(c, w) && !Registered(c', w) ==>
                  step == Leave(w) || step.CheckHeartbeats? || step == Finish)
  {
    match step
    case Return(v, job, result) => ReceiveFields(c, v, job, result, w);
    case ServeWorkers =>
      InOrderElements(c.server.queues.Keys);
      ServeEachFields(c, InOrder(c.server.queues.Keys), w);
    case CheckHeartbeats(clock, _) => PassQueues(c.server, clock, w);
    case Join(v, concurrency) => HandFields(Enter(c, v, concurrency), v, w);
    case _ =>
  }

  // ---------------------------------------------------------------- runs

  /** Everything the timing arguments need to know about a step. */
  ghost predicate TimedStep(c: System, c': System, step: Step, w: Identity) {
    && c.now <= c'.now && c.pending.Keys <= c'.pending.Keys
    && (step != Alive(w) && !step.CheckHeartbeats? ==> FieldsKept(c, c', w))
    && (step == Alive(w) && Registered(c, w) ==>
          Registered(c', w) && Data(c', w) == Data(c, w).(heartbeatReplyReceived := true))
    && (step.CheckHeartbeats? ==>
          && (Registered(c', w) <==> Registered(c, w) && !Expired(Data(c, w), At(step.clock, w)))
          && (Registered(c', w) ==> Data(c', w) == Refreshed(Data(c, w), At(step.clock, w)))
          && (Registered(c, w) ==>
                c.now <= At(step.clock, w).checked <= At(step.clock, w).stamped <= c'.now))
    && (Registered(c', w) && !Registered(c, w) ==>
          step.Join? && step.w == w && w !in c.pending
          && Data(c', w).lastHeartbeatRequest == c.now && !Data(c', w).heartbeatReplyReceived)
    && (step.Join? && step.w == w ==> Registered(c', w) && !Registered(c, w))
  }

  ghost predicate Timed(states: seq<System>, steps: seq<Step>, w: Identity) {
    && |states| == |steps| + 1 && !Registered(states[0], w)
    && forall k | 0 <= k < |steps| :: TimedStep(states[k], states[k + 1], steps[k], w)
  }

  lemma StepIsTimed(setup: Setup, c: System, step: Step, w: Identity)
    requires Enabled(setup, c, step) && c.server.queues.Keys <= c.pending.Keys
    ensures TimedStep(c, After(setup, c, step), step, w)
  {
    StepIsMonotone(setup, c, step);
    StepFields(setup, c, step, w);
    if step.CheckHeartbeats? { PassQueues(c.server, step.clock, w); }
  }

  lemma RunIsTimed(setup: Setup, states: seq<System>, steps: seq<Step>, w: Identity)
    requires Run(setup, states, steps)
    ensures Timed(states, steps, w)
  {
    forall k | 0 <= k < |steps|
      ensures TimedStep(states[k], states[k + 1], steps[k], w)
    {
      RunKeeps(setup, states, steps, k);
      StepIsTimed(setup, states[k], steps[k], w);
    }
  }

  lemma {:induction false} TimeIsMonotone(states: seq<System>, steps: seq<Step>, w: Identity, i: nat, k: nat)
    requires Timed(states, steps, w) && i <= k < |states|
    ensures states[i].now <= states[k].now && states[i].pending.Keys <= states[k].pending.Keys
    decreases k
  {
    if i < k {
      TimeIsMonotone(states, steps, w, i, k - 1);
      assert TimedStep(states[k - 1], states[k], steps[k - 1], w);
    }
  }

  /** Step `k` sends worker `w` a heartbeat request. */
  ghost predicate RequestAt(states: seq<System>, steps: seq<Step>, k: nat, w: Identity)
    requires |states| == |steps| + 1
  {
    && k < |steps|
    && ((steps[k].Join? && steps[k].w == w)
        || (steps[k].CheckHeartbeats? && Registered(states[k], w)
            && Data(states[k], w).heartbeatReplyReceived
            && Overdue(Data(states[k], w), At(steps[k].clock, w).checked)))
  }

  /** When that request is stamped. */
  function RequestTime(states: seq<System>, steps: seq<Step>, k: nat, w: Identity): int
    requires |states| == |steps| + 1 && k < |steps|
  {
    if steps[k].CheckHeartbeats? then At(steps[k].clock, w).stamped else states[k].now
  }

  ghost predicate RepliedBetween(steps: seq<Step>, w: Identity, k: nat, i: nat)
    requires i <= |steps|
  {
    exists n :: k < n < i && steps[n] == Alive(w)
  }

  /**
   At any time a registered worker's fields tell the truth: the timestamp is that of the last
   request sent to it, and the flag says whether a reply was handled since.
   */
  lemma {:induction false} LastRequest(states: seq<System>, steps: seq<Step>, i: nat,
                                       w: Identity) returns (k: nat)
    requires Timed(states, steps, w) && i < |states| && Registered(states[i], w)
    ensures k < i && RequestAt(states, steps, k, w)
    ensures Data(states[i], w).lastHeartbeatRequest == RequestTime(states, steps, k, w) <= states[k + 1].now
    ensures forall n | k < n <= i :: Registered(states[n], w)
    ensures Data(states[i], w).heartbeatReplyReceived <==> RepliedBetween(steps, w, k, i)
    decreases i
  {
    var c, step := states[i - 1], steps[i - 1];
    assert TimedStep(c, states[i], step, w);
    if !Registered(c, w) || (step.CheckHeartbeats? && RequestAt(states, steps, i - 1, w)) {
      k := i - 1;
    } else {
      k := LastRequest(states, steps, i - 1, w);
      RepliedUpTo(steps, w, k, i - 1);
    }
  }

  lemma RepliedUpTo(steps: seq<Step>, w: Identity, k: nat, i: nat)
    requires k < i < |steps|
    ensures RepliedBetween(steps, w, k, i + 1) <==> RepliedBetween(steps, w, k, i) || steps[i] == Alive(w)
  {
    if RepliedBetween(steps, w, k, i) {
      var n :| k < n < i && steps[n] == Alive(w);
      assert k < n < i + 1;
    }
    if steps[i] == Alive(w) { assert k < i < i + 1; }
  }

  /**
   A pass dismisses a worker exactly when its last request is at least six seconds old and no
   reply to it was handled.
   */
  lemma DismissedExactlyWhenSilent(setup: Setup, states: seq<System>, steps: seq<Step>, i: nat,
                                   w: Identity) returns (k: nat)
    requires Run(setup, states, steps) && i < |steps|
    requires steps[i].CheckHeartbeats? && Registered(states[i], w)
    ensures k < i && RequestAt(states, steps, k, w) && forall n | k < n <= i :: Registered(states[n], w)
    ensures !Registered(states[i + 1], w) <==>
            && At(steps[i].clock, w).checked - RequestTime(states, steps, k, w) >= PATIENCE
            && !RepliedBetween(steps, w, k, i)
  {
    RunIsTimed(setup, states, steps, w);
    k := LastRequest(states, steps, i, w);
    assert TimedStep(states[i], states[i + 1], steps[i], w);
    OverdueMeans(Data(states[i], w), At(steps[i].clock, w).checked);
  }

  // ---------------------------------------------------------------- how soon

  ghost predicate SilentFrom(steps: seq<Step>, a: nat, w: Identity) {
    forall n | a <= n < |steps| :: steps[n] != Alive(w)
  }

  ghost predicate CheckedWithin(states: seq<System>, steps: seq<Step>, a: nat, x: int, gap: int)
    requires |states| == |steps| + 1
  {
    exists p :: a <= p < |steps| && steps[p].CheckHeartbeats?
                && x <= states[p].now && states[p + 1].now <= x + gap
  }

  /** Every stretch of `gap` nanoseconds contains a whole pass. */
  ghost predicate ChecksEvery(states: seq<System>, steps: seq<Step>, a: nat, gap: int)
    requires |states| == |steps| + 1 && a <= |steps|
  {
    forall x :: states[a].now <= x && x + gap <= states[|steps|].now ==>
      CheckedWithin(states, steps, a, x, gap)
  }

  /** A known identity that is gone does not come back. */
  lemma {:induction false} GoneForGood(states: seq<System>, steps: seq<Step>,
                                       a: nat, i: nat, k: nat, w: Identity)
    requires Timed(states, steps, w) && a <= i <= k < |states| && w in states[a].pending
    requires Registered(states[k], w)
    ensures Registered(states[i], w)
    decreases k
  {
    if i < k {
      TimeIsMonotone(states, steps, w, a, k - 1);
      assert TimedStep(states[k - 1], states[k], steps[k - 1], w);
      GoneForGood(states, steps, a, i, k - 1, w);
    }
  }

  /** An unanswered request stays unanswered, and is not repeated. */
  lemma {:induction false} StaysUnanswered(states: seq<System>, steps: seq<Step>,
                                           i: nat, k: nat, w: Identity)
    requires Timed(states, steps, w) && i <= k < |states| && SilentFrom(steps, i, w)
    requires forall n | i <= n <= k :: Registered(states[n], w)
    requires !Data(states[i], w).heartbeatReplyReceived
    ensures !Data(states[k], w).heartbeatReplyReceived
    ensures Data(states[k], w).lastHeartbeatRequest == Data(states[i], w).lastHeartbeatRequest
    decreases k
  {
    if i < k {
      StaysUnanswered(states, steps, i, k - 1, w);
      assert TimedStep(states[k - 1], states[k], steps[k - 1], w);
    }
  }

  /** A silent worker's timestamp is that of the start, or its request is open. */
  lemma {:induction false} AnsweredOrAskedAgain(states: seq<System>, steps: seq<Step>,
                                                i: nat, k: nat, w: Identity)
    requires Timed(states, steps, w) && i <= k < |states| && SilentFrom(steps, i, w)
    requires forall n | i <= n <= k :: Registered(states[n], w)
    requires Data(states[i], w).lastHeartbeatRequest <= states[i].now
    ensures Data(states[k], w).lastHeartbeatRequest <= states[k].now
    ensures Data(states[k], w).heartbeatReplyReceived ==>
              Data(states[k], w).lastHeartbeatRequest == Data(states[i], w).lastHeartbeatRequest
    decreases k
  {
    if i < k {
      AnsweredOrAskedAgain(states, steps, i, k - 1, w);
      assert TimedStep(states[k - 1], states[k], steps[k - 1], w);
    }
  }

  /** A pass that comes late enough leaves the worker gone, or with an open request. */
  lemma LatePass(states: seq<System>, steps: seq<Step>, a: nat, p: nat, w: Identity)
    requires Timed(states, steps, w) && a <= p < |steps| && SilentFrom(steps, a, w)
    requires steps[p].CheckHeartbeats? && states[p].now >= states[a].now + PATIENCE
    requires forall n | a <= n <= p + 1 :: Registered(states[n], w)
    ensures !Data(states[p + 1], w).heartbeatReplyReceived
    ensures Data(states[p + 1], w).lastHeartbeatRequest <= states[p + 1].now
  {
    var k := LastRequest(states, steps, a, w);
    TimeIsMonotone(states, steps, w, k + 1, a);
    AnsweredOrAskedAgain(states, steps, a, p, w);
    assert TimedStep(states[p], states[p + 1], steps[p], w);
    OverdueMeans(Data(states[p], w), At(steps[p].clock, w).checked);
  }

  /** Once its request has been open for long enough, the next pass dismisses the worker. */
  lemma OpenRequestExpires(states: seq<System>, steps: seq<Step>, i: nat, q: nat, w: Identity)
    requires Timed(states, steps, w) && i <= q < |steps| && SilentFrom(steps, i, w)
    requires forall n | i <= n <= q :: Registered(states[n], w)
    requires !Data(states[i], w).heartbeatReplyReceived && steps[q].CheckHeartbeats?
    requires states[q].now - Data(states[i], w).lastHeartbeatRequest >= PATIENCE
    ensures !Registered(states[q + 1], w)
  {
    StaysUnanswered(states, steps, i, q, w);
    assert TimedStep(states[q], states[q + 1], steps[q], w);
    OverdueMeans(Data(states[q], w), At(steps[q].clock, w).checked);
  }

  /** The pass a stretch of `gap` nanoseconds contains. */
  lemma PassWithin(states: seq<System>, steps: seq<Step>, a: nat, x: int, gap: int) returns (p: nat)
    requires |states| == |steps| + 1 && a <= |steps| && ChecksEvery(states, steps, a, gap)
    requires states[a].now <= x && x + gap <= states[|steps|].now
    ensures a <= p < |steps| && steps[p].CheckHeartbeats?
    ensures x <= states[p].now && states[p + 1].now <= x + gap
  {
    assert CheckedWithin(states, steps, a, x, gap);
    p :| a <= p < |steps| && steps[p].CheckHeartbeats?
         && x <= states[p].now && states[p + 1].now <= x + gap;
  }

  /** Two passes far enough apart, and the silent worker is gone. */
  lemma TwoPasses(states: seq<System>, steps: seq<Step>, a: nat, p: nat, q: nat, w: Identity)
    requires Timed(states, steps, w) && a <= p < q < |steps| && SilentFrom(steps, a, w)
    requires steps[p].CheckHeartbeats? && states[p].now >= states[a].now + PATIENCE
    requires steps[q].CheckHeartbeats? && states[q].now >= states[p + 1].now + PATIENCE
    requires forall n | a <= n <= q :: Registered(states[n], w)
    ensures !Registered(states[q + 1], w)
  {
    LatePass(states, steps, a, p, w);
    OpenRequestExpires(states, steps, p + 1, q, w);
  }

  /**
   If a worker's replies stop and passes come at least every `gap`, the worker is gone after
   two intervals and two gaps.
   */
  lemma SilentWorkerIsDismissed(setup: Setup, states: seq<System>, steps: seq<Step>, a: nat, gap: int,
                                w: Identity)
    requires Run(setup, states, steps) && a <= |steps| && w in states[a].pending
    requires gap >= 0 && SilentFrom(steps, a, w) && ChecksEvery(states, steps, a, gap)
    requires states[|steps|].now >= states[a].now + 2 * (PATIENCE + gap)
    ensures !Registered(states[|steps|], w)
  {
    RunIsTimed(setup, states, steps, w);
    var last := |steps|;
    if Registered(states[last], w) {
      forall n | a <= n <= last
        ensures Registered(states[n], w)
      {
        GoneForGood(states, steps, a, n, last, w);
      }
      var p := PassWithin(states, steps, a, states[a].now + PATIENCE, gap);
      var q := PassWithin(states, steps, a, states[a].now + gap + 2 * PATIENCE, gap);
      if q <= p { TimeIsMonotone(states, steps, w, q, p + 1); }
      TwoPasses(states, steps, a, p, q, w);
    }
  }
}
