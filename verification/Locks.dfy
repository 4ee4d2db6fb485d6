/**
 The two recursive mutexes of src/server.cpp. `transmit_work` and `visit_bye` lock them in the
 opposite order from `dismiss_worker`; what prevents a deadlock is that every call path
 already holds `worker_mutex`.
 */
module Locks {

  datatype Mutex = WorkMutex | WorkerMutex

  datatype Op = Acquire(mutex: Mutex) | Release(mutex: Mutex)

  // ---------------------------------------------------------------- what the code locks

  /** A scope guarded by `unique_lock`. */
  function Within(mutex: Mutex, body: seq<Op>): seq<Op> {
    [Acquire(mutex)] + body + [Release(mutex)]
  }

  function Repeat(body: seq<Op>, n: nat): seq<Op> {
    if n == 0 then [] else body + Repeat(body, n - 1)
  }

  function TransmitWork(): seq<Op> {
    Within(WorkMutex, Within(WorkerMutex, []))
  }

  function DismissWorker(): seq<Op> {
    Within(WorkerMutex, Within(WorkMutex, []))
  }

  /** The outermost critical sections of the main, communication and receiving threads. */
  datatype Section =
    | HeloReceived              // run_communication_service, visit_helo, transmit_work
    | HeartbeatReplyReceived    // run_communication_service, visit_heartbeat
    | MessageIgnored            // either receiving loop, a handler that does nothing
    | ResultReceived(refill: bool)
    | ByeReceived
    | ServingLoop(workers: nat)
    | HeartbeatPass(dismissed: nat)
    | WorkersDismissed

  function Ops(section: Section): seq<Op> {
    match section
    case HeloReceived => Within(WorkerMutex, TransmitWork())
    case HeartbeatReplyReceived => Within(WorkerMutex, Within(WorkerMutex, []))
    case MessageIgnored => Within(WorkerMutex, [])
    case ResultReceived(refill) => Within(WorkerMutex, if refill then TransmitWork() else [])
    case ByeReceived => Within(WorkerMutex, Within(WorkMutex, Within(WorkerMutex, [])))
    case ServingLoop(n) => Within(WorkerMutex, Repeat(TransmitWork(), n))
    case HeartbeatPass(n) => Within(WorkerMutex, Repeat(DismissWorker(), n))
    case WorkersDismissed => Within(WorkerMutex, Within(WorkMutex, []))
  }

  lemma BodiesLock()
    ensures Within(WorkerMutex, []) == [Acquire(WorkerMutex), Release(WorkerMutex)]
    ensures TransmitWork() == [Acquire(WorkMutex), Acquire(WorkerMutex), Release(WorkerMutex), Release(WorkMutex)]
    ensures DismissWorker() == [Acquire(WorkerMutex), Acquire(WorkMutex), Release(WorkMutex), Release(WorkerMutex)]
  {
    assert Within(WorkerMutex, []) == [Acquire(WorkerMutex), Release(WorkerMutex)];
    assert Within(WorkMutex, []) == [Acquire(WorkMutex), Release(WorkMutex)];
  }

  lemma FourWithin(mutex: Mutex, a: Op, b: Op, c: Op, d: Op)
    ensures Within(mutex, [a, b, c, d]) == [Acquire(mutex), a, b, c, d, Release(mutex)]
  {
  }

  lemma RepeatWithin(body: seq<Op>, n: nat)
    ensures Within(WorkerMutex, Repeat(body, n + 1))
         == [Acquire(WorkerMutex)] + body + Within(WorkerMutex, Repeat(body, n))[1..]
  {
    assert Within(WorkerMutex, Repeat(body, n))[1..] == Repeat(body, n) + [Release(WorkerMutex)];
  }

  /** The lock operations of every section, one by one. */
  lemma SectionsLock()
    ensures Ops(HeloReceived) == Ops(ByeReceived) == Ops(ResultReceived(true))
         == [Acquire(WorkerMutex), Acquire(WorkMutex), Acquire(WorkerMutex),
             Release(WorkerMutex), Release(WorkMutex), Release(WorkerMutex)]
    ensures Ops(ResultReceived(false)) == Ops(MessageIgnored) == [Acquire(WorkerMutex), Release(WorkerMutex)]
    ensures Ops(HeartbeatReplyReceived) == [Acquire(WorkerMutex), Acquire(WorkerMutex),
                                            Release(WorkerMutex), Release(WorkerMutex)]
    ensures Ops(WorkersDismissed) == [Acquire(WorkerMutex), Acquire(WorkMutex),
                                      Release(WorkMutex), Release(WorkerMutex)]
  {
    BodiesLock();
    FourWithin(WorkerMutex, Acquire(WorkMutex), Acquire(WorkerMutex), Release(WorkerMutex), Release(WorkMutex));
    assert Within(WorkerMutex, Within(WorkerMutex, []))
        == [Acquire(WorkerMutex), Acquire(WorkerMutex), Release(WorkerMutex), Release(WorkerMutex)];
  }

  /** A loop adds one body for each pass. */
  lemma LoopsLock(n: nat)
    ensures Ops(ServingLoop(0)) == Ops(HeartbeatPass(0)) == [Acquire(WorkerMutex), Release(WorkerMutex)]
    ensures Ops(ServingLoop(n + 1))
         == [Acquire(WorkerMutex)]
            + [Acquire(WorkMutex), Acquire(WorkerMutex), Release(WorkerMutex), Release(WorkMutex)]
            + Ops(ServingLoop(n))[1..]
    ensures Ops(HeartbeatPass(n + 1))
         == [Acquire(WorkerMutex)]
            + [Acquire(WorkerMutex), Acquire(WorkMutex), Release(WorkMutex), Release(WorkerMutex)]
            + Ops(HeartbeatPass(n))[1..]
  {
    BodiesLock();
    RepeatWithin(TransmitWork(), n);
    RepeatWithin(DismissWorker(), n);
  }

  /** A thread enters its critical sections one after another. */
  function Program(sections: seq<Section>): seq<Op> {
    if sections == [] then [] else Ops(sections[0]) + Program(sections[1..])
  }

  // ---------------------------------------------------------------- threads and mutexes

  /** What a thread still has to do and how deeply it holds each mutex. */
  datatype Thread = Thread(todo: seq<Op>, work: nat, worker: nat) {
    function Depth(mutex: Mutex): nat {
      if mutex == WorkMutex then work else worker
    }

    function SetDepth(mutex: Mutex, depth: nat): Thread {
      if mutex == WorkMutex then this.(work := depth) else this.(worker := depth)
    }
  }

  /** A recursive mutex admits its owner again and anyone while it is free. */
  predicate Free(threads: seq<Thread>, t: nat, mutex: Mutex) {
    forall u | 0 <= u < |threads| && u != t :: threads[u].Depth(mutex) == 0
  }

  predicate CanStep(threads: seq<Thread>, t: nat) {
    && t < |threads| && threads[t].todo != []
    && match threads[t].todo[0]
       case Acquire(m) => Free(threads, t, m)
       case Release(m) => threads[t].Depth(m) > 0
  }

  function Step(threads: seq<Thread>, t: nat): seq<Thread>
    requires CanStep(threads, t)
  {
    var thread := threads[t];
    var rest := thread.(todo := thread.todo[1..]);
    threads[t := match thread.todo[0]
                 case Acquire(m) => rest.SetDepth(m, thread.Depth(m) + 1)
                 case Release(m) => rest.SetDepth(m, thread.Depth(m) - 1)]
  }

  function Start(programs: seq<seq<Section>>): seq<Thread> {
    seq(|programs|, t requires 0 <= t < |programs| => Thread(Program(programs[t]), 0, 0))
  }

  predicate Execution(programs: seq<seq<Section>>, states: seq<seq<Thread>>, schedule: seq<nat>) {
    && |states| == |schedule| + 1 && states[0] == Start(programs)
    && forall i | 0 <= i < |schedule| ::
         CanStep(states[i], schedule[i]) && states[i + 1] == Step(states[i], schedule[i])
  }

  // ---------------------------------------------------------------- the discipline

  /**
   From these depths, the operations take `work_mutex` only under `worker_mutex`, give
   `worker_mutex` up only without `work_mutex`, and end holding nothing.
   */
  predicate Disciplined(todo: seq<Op>, work: nat, worker: nat) {
    && (work > 0 ==> worker > 0)
    && if todo == [] then work == 0 && worker == 0
       else match todo[0]
         case Acquire(m) =>
           if m == WorkMutex then worker > 0 && Disciplined(todo[1..], work + 1, worker)
           else Disciplined(todo[1..], work, worker + 1)
         case Release(m) =>
           if m == WorkMutex then work > 0 && Disciplined(todo[1..], work - 1, worker)
           else worker > 0 && Disciplined(todo[1..], work, worker - 1)
  }

  lemma Guarded(mutex: Mutex, body: seq<Op>, rest: seq<Op>)
    ensures (Within(mutex, body) + rest)[0] == Acquire(mutex)
    ensures (Within(mutex, body) + rest)[1..] == body + ([Release(mutex)] + rest)
  {
  }

  lemma TransmitDisciplined(rest: seq<Op>, work: nat, worker: nat)
    requires worker > 0 && Disciplined(rest, work, worker)
    ensures Disciplined(TransmitWork() + rest, work, worker)
  {
    var inner := [Release(WorkMutex)] + rest;
    Guarded(WorkMutex, Within(WorkerMutex, []), rest);
    Guarded(WorkerMutex, [], inner);
    assert ([Release(WorkerMutex)] + inner)[1..] == inner && inner[1..] == rest;
    assert [] + ([Release(WorkerMutex)] + inner) == [Release(WorkerMutex)] + inner;
    assert Disciplined([Release(WorkerMutex)] + inner, work + 1, worker + 1);
    assert Disciplined(Within(WorkerMutex, []) + inner, work + 1, worker);
  }

  lemma DismissDisciplined(rest: seq<Op>, work: nat, worker: nat)
    requires Disciplined(rest, work, worker)
    ensures Disciplined(DismissWorker() + rest, work, worker)
  {
    var inner := [Release(WorkerMutex)] + rest;
    Guarded(WorkerMutex, Within(WorkMutex, []), rest);
    Guarded(WorkMutex, [], inner);
    assert ([Release(WorkMutex)] + inner)[1..] == inner && inner[1..] == rest;
    assert [] + ([Release(WorkMutex)] + inner) == [Release(WorkMutex)] + inner;
    assert Disciplined([Release(WorkMutex)] + inner, work + 1, worker + 1);
    assert Disciplined(Within(WorkMutex, []) + inner, work, worker + 1);
  }

  lemma {:induction false} RepeatDisciplined(transmit: bool, n: nat, rest: seq<Op>, worker: nat)
    requires worker > 0 && Disciplined(rest, 0, worker)
    ensures Disciplined(Repeat(if transmit then TransmitWork() else DismissWorker(), n) + rest, 0, worker)
    decreases n
  {
    var body := if transmit then TransmitWork() else DismissWorker();
    if n == 0 {
      assert Repeat(body, 0) + rest == rest;
    } else {
      RepeatDisciplined(transmit, n - 1, rest, worker);
      assert Repeat(body, n) + rest == body + (Repeat(body, n - 1) + rest);
      if transmit {
        TransmitDisciplined(Repeat(body, n - 1) + rest, 0, worker);
      } else {
        DismissDisciplined(Repeat(body, n - 1) + rest, 0, worker);
      }
    }
  }

  lemma NestedWorkerDisciplined(rest: seq<Op>, work: nat, worker: nat)
    requires Disciplined(rest, work, worker)
    ensures Disciplined(Within(WorkerMutex, []) + rest, work, worker)
  {
    Guarded(WorkerMutex, [], rest);
    assert [] + ([Release(WorkerMutex)] + rest) == [Release(WorkerMutex)] + rest;
    assert ([Release(WorkerMutex)] + rest)[1..] == rest;
    assert Disciplined([Release(WorkerMutex)] + rest, work, worker + 1);
  }

  lemma UnderWork(body: seq<Op>, rest: seq<Op>, worker: nat)
    requires worker > 0 && Disciplined(body + ([Release(WorkMutex)] + rest), 1, worker)
    ensures Disciplined(Within(WorkMutex, body) + rest, 0, worker)
  {
    Guarded(WorkMutex, body, rest);
  }

  /** The body of every outermost section is disciplined once `worker_mutex` is held. */
  lemma BodyDisciplined(section: Section, rest: seq<Op>)
    requires Disciplined(rest, 0, 1)
    ensures exists body :: Ops(section) == Within(WorkerMutex, body) && Disciplined(body + rest, 0, 1)
  {
    assert [] + rest == rest;
    match section
    case HeloReceived => TransmitDisciplined(rest, 0, 1);
    case HeartbeatReplyReceived => NestedWorkerDisciplined(rest, 0, 1);
    case MessageIgnored =>
    case ResultReceived(_) => TransmitDisciplined(rest, 0, 1);
    case ByeReceived =>
      ReleaseWork(rest);
      NestedWorkerDisciplined([Release(WorkMutex)] + rest, 1, 1);
      UnderWork(Within(WorkerMutex, []), rest, 1);
    case ServingLoop(n) => RepeatDisciplined(true, n, rest, 1);
    case HeartbeatPass(n) => RepeatDisciplined(false, n, rest, 1);
    case WorkersDismissed =>
      ReleaseWork(rest);
      assert [] + ([Release(WorkMutex)] + rest) == [Release(WorkMutex)] + rest;
      UnderWork([], rest, 1);
  }

  lemma ReleaseWork(rest: seq<Op>)
    requires Disciplined(rest, 0, 1)
    ensures Disciplined([Release(WorkMutex)] + rest, 1, 1)
  {
    assert ([Release(WorkMutex)] + rest)[1..] == rest;
  }

  lemma {:induction false} ProgramDisciplined(sections: seq<Section>)
    ensures Disciplined(Program(sections), 0, 0)
    decreases |sections|
  {
    if sections != [] {
      var rest := Program(sections[1..]);
      ProgramDisciplined(sections[1..]);
      var tail := [Release(WorkerMutex)] + rest;
      assert tail[1..] == rest;
      assert Disciplined(tail, 0, 1);
      BodyDisciplined(sections[0], tail);
      var body :| Ops(sections[0]) == Within(WorkerMutex, body) && Disciplined(body + tail, 0, 1);
      Guarded(WorkerMutex, body, rest);
    }
  }

  // ---------------------------------------------------------------- every execution

  /** Threads keep to the discipline and a mutex has at most one owner. */
  predicate Safe(threads: seq<Thread>) {
    && (forall t | 0 <= t < |threads| ::
          Disciplined(threads[t].todo, threads[t].work, threads[t].worker))
    && (forall t, u | 0 <= t < u < |threads| ::
          && (threads[t].work == 0 || threads[u].work == 0)
          && (threads[t].worker == 0 || threads[u].worker == 0))
  }

  lemma StepSafe(threads: seq<Thread>, t: nat)
    requires Safe(threads) && CanStep(threads, t)
    ensures Safe(Step(threads, t))
  {
  }

  lemma {:induction false} ExecutionSafe(programs: seq<seq<Section>>, states: seq<seq<Thread>>,
                                         schedule: seq<nat>, i: nat)
    requires Execution(programs, states, schedule) && i < |states|
    ensures Safe(states[i])
    decreases i
  {
    if i == 0 {
      forall t | 0 <= t < |programs|
        ensures Disciplined(states[0][t].todo, 0, 0)
      {
        ProgramDisciplined(programs[t]);
      }
    } else {
      ExecutionSafe(programs, states, schedule, i - 1);
      StepSafe(states[i - 1], schedule[i - 1]);
    }
  }

  lemma SomeoneCanStep(threads: seq<Thread>, t: nat) returns (u: nat)
    requires Safe(threads) && t < |threads| && threads[t].todo != []
    ensures CanStep(threads, u)
  {
    if v :| 0 <= v < |threads| && threads[v].worker > 0 {
      u := v;
    } else {
      u := t;
    }
  }

  /**
   In every execution of any number of threads, each working through any critical sections:
   who holds `work_mutex` holds `worker_mutex`, and while anyone has something left to do,
   someone can go on.
   */
  lemma NoDeadlock(programs: seq<seq<Section>>, states: seq<seq<Thread>>, schedule: seq<nat>, i: nat)
    requires Execution(programs, states, schedule) && i < |states|
    ensures forall t | 0 <= t < |states[i]| && states[i][t].work > 0 :: states[i][t].worker > 0
    ensures (exists t: nat :: CanStep(states[i], t))
            || (forall t | 0 <= t < |states[i]| :: states[i][t].todo == [])
  {
    ExecutionSafe(programs, states, schedule, i);
    var threads := states[i];
    if t :| 0 <= t < |threads| && threads[t].todo != [] {
      var u := SomeoneCanStep(threads, t);
    }
  }

  /** Without the outer lock the two textual orders do lead to a circular wait. */
  lemma BareOrdersDeadlock()
    ensures var threads := [Thread(TransmitWork(), 0, 0), Thread(DismissWorker(), 0, 0)];
            && CanStep(threads, 0) && CanStep(Step(threads, 0), 1)
            && var stuck := Step(Step(threads, 0), 1);
               stuck[0].todo != [] && stuck[1].todo != [] && forall t: nat :: !CanStep(stuck, t)
  {
    var threads := [Thread(TransmitWork(), 0, 0), Thread(DismissWorker(), 0, 0)];
    BodiesLock();
    var stuck := Step(Step(threads, 0), 1);
    assert stuck[0].work == 1 && stuck[1].worker == 1;
    assert !Free(stuck, 0, WorkerMutex) && !Free(stuck, 1, WorkMutex);
  }
}
