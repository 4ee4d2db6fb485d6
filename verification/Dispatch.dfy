/**
 The server's bookkeeping (src/server.hpp, src/server.cpp) as values: what each handler makes
 of the queue of unassigned jobs, the map of workers and the collected results.
 */
module Dispatch {
  import opened Config
  import opened Commands
  import opened Names
  import Matching
  import Interpolation

  type Identity = string

  /** `WorkerData`; timestamps count nanoseconds. */
  datatype WorkerData = WorkerData(
    work: seq<Job>,
    lastHeartbeatRequest: int,
    heartbeatReplyReceived: bool,
    concurrency: nat)

  /**
   `enqueued_work`, `worker_queues`, the result map of `receive_histograms`, the counter of
   `receive_equalised` and the TIFF files written so far, by path.
   */
  datatype ServerState = ServerState(
    enqueued: seq<Job>,
    queues: map<Identity, WorkerData>,
    histograms: map<string, Histogram>,
    equalisedCount: nat,
    written: map<string, seq<byte>>)

  // ---------------------------------------------------------------- handing out work

  function Room(data: WorkerData): nat {
    if |data.work| < data.concurrency then data.concurrency - |data.work| else 0
  }

  /** The jobs `transmit_work` takes from the front of the queue for worker `w`. */
  function Taken(s: ServerState, w: Identity): seq<Job>
    requires w in s.queues
  {
    s.enqueued[..Min(Room(s.queues[w]), |s.enqueued|)]
  }

  function SetWork(s: ServerState, w: Identity, work: seq<Job>): ServerState
    requires w in s.queues
  {
    s.(queues := s.queues[w := s.queues[w].(work := work)])
  }

  /** `transmit_work`: fill the worker's queue up to its concurrency. */
  function Transmit(s: ServerState, w: Identity): ServerState
    requires w in s.queues
  {
    SetWork(s, w, s.queues[w].work + Taken(s, w)).(enqueued := s.enqueued[|Taken(s, w)|..])
  }

  /** The registering half of `visit_helo`; `map::insert` keeps an existing entry. */
  function Register(s: ServerState, w: Identity, concurrency: nat, now: int): ServerState {
    if w in s.queues then s
    else s.(queues := s.queues[w := WorkerData([], now, false, Min(concurrency, MAX_WORKER_QUEUE))])
  }

  function HeloReceived(s: ServerState, w: Identity, concurrency: nat, now: int): ServerState {
    Transmit(Register(s, w, concurrency, now), w)
  }

  // ---------------------------------------------------------------- results

  /** `std::find_if`: the first matching job, or the end. */
  function FindMatch(work: seq<Job>, result: JobResult): (i: nat)
    ensures i <= |work|
    ensures i < |work| ==> Matches(work[i], result)
    ensures forall k | 0 <= k < i :: !Matches(work[k], result)
  {
    if work == [] || Matches(work[0], result) then 0 else 1 + FindMatch(work[1..], result)
  }

  /** Erasing the match; without one the source is undefined and the work is left alone here. */
  function Retired(work: seq<Job>, result: JobResult): seq<Job> {
    var i := FindMatch(work, result);
    if i == |work| then work else work[..i] + work[i + 1..]
  }

  function Retire(s: ServerState, w: Identity, result: JobResult): ServerState
    requires w in s.queues
  {
    SetWork(s, w, Retired(s.queues[w].work, result))
  }

  function Refill(s: ServerState, w: Identity): ServerState
    requires w in s.queues
  {
    if s.enqueued == [] then s else Transmit(s, w)
  }

  /** `map::insert`: the first histogram of a file stays. */
  function Record(s: ServerState, result: JobResult): ServerState
    requires result.HistogramResult?
  {
    if result.filename in s.histograms then s
    else s.(histograms := s.histograms[result.filename := result.histogram])
  }

  /** `ServerHistogramCommandVisitor::visit_histogram_result` */
  function HistogramResultReceived(s: ServerState, w: Identity, result: JobResult): ServerState
    requires result.HistogramResult?
  {
    if w !in s.queues then s else Refill(Retire(Record(s, result), w, result), w)
  }

  /** Results are written beside the files they come from. */
  function OutputPath(filename: string): string {
    filename + ".tiff"
  }

  lemma OutputPathsDiffer(f: string, g: string)
    requires OutputPath(f) == OutputPath(g)
    ensures f == g
  {
    assert f == OutputPath(f)[..|f|];
  }

  function WriteTiff(s: ServerState, result: JobResult): ServerState
    requires result.EqualisationResult?
  {
    s.(written := s.written[OutputPath(result.filename) := result.tiff])
  }

  /** `ServerEqualisationCommandVisitor::visit_equalisation_result` */
  function EqualisationResultReceived(s: ServerState, w: Identity, result: JobResult): ServerState
    requires result.EqualisationResult?
  {
    var s1 := WriteTiff(s, result);
    if w !in s.queues then s1
    else Refill(Retire(s1.(equalisedCount := s1.equalisedCount + 1), w, result), w)
  }

  // ---------------------------------------------------------------- losing workers

  function Reverse(work: seq<Job>): seq<Job> {
    if work == [] then [] else [work[|work| - 1]] + Reverse(work[..|work| - 1])
  }

  function Remove(s: ServerState, w: Identity, returned: seq<Job>): ServerState {
    s.(enqueued := s.enqueued + returned, queues := s.queues - {w})
  }

  /** `visit_bye`: the worker's jobs go back last first. */
  function ByeReceived(s: ServerState, w: Identity): ServerState
    requires w in s.queues
  {
    Remove(s, w, Reverse(s.queues[w].work))
  }

  /** `dismiss_worker`: the worker's jobs go back first to last. */
  function Dismiss(s: ServerState, w: Identity): ServerState {
    if w in s.queues then Remove(s, w, s.queues[w].work) else s
  }

  function DismissEach(s: ServerState, order: seq<Identity>): ServerState
    decreases |order|
  {
    if order == [] then s else DismissEach(Dismiss(s, order[0]), order[1..])
  }

  // ---------------------------------------------------------------- heartbeats

  /** `duration_cast<seconds>` truncates towards zero. */
  function WholeSeconds(nanoseconds: int): int {
    if nanoseconds >= 0 then nanoseconds / 1_000_000_000 else -((-nanoseconds) / 1_000_000_000)
  }

  predicate Overdue(data: WorkerData, now: int) {
    WholeSeconds(now - data.lastHeartbeatRequest) > MAX_HEARTBEAT_INTERVAL
  }

  /** More than five whole seconds: at least six seconds, in nanoseconds. */
  lemma OverdueMeans(data: WorkerData, now: int)
    ensures Overdue(data, now) <==> now - data.lastHeartbeatRequest >= 6_000_000_000
  {
  }

  /** When a pass looks at a worker, and the later reading it stamps a new request with. */
  datatype Reading = Reading(checked: int, stamped: int)

  type Clock = map<Identity, Reading>

  function At(clock: Clock, w: Identity): Reading {
    if w in clock then clock[w] else Reading(0, 0)
  }

  predicate Expired(data: WorkerData, at: Reading) {
    !data.heartbeatReplyReceived && Overdue(data, at.checked)
  }

  /** Asking again once the interval has passed since an answered request. */
  function Refreshed(data: WorkerData, at: Reading): WorkerData {
    if data.heartbeatReplyReceived && Overdue(data, at.checked)
    then data.(heartbeatReplyReceived := false, lastHeartbeatRequest := at.stamped)
    else data
  }

  function ExpiredWorkers(s: ServerState, clock: Clock): set<Identity> {
    set w | w in s.queues && Expired(s.queues[w], At(clock, w))
  }

  function RefreshAll(s: ServerState, clock: Clock): ServerState {
    s.(queues := map w | w in s.queues :: Refreshed(s.queues[w], At(clock, w)))
  }

  /** `send_heartbeats` */
  ghost function HeartbeatPass(s: ServerState, clock: Clock): ServerState {
    DismissEach(RefreshAll(s, clock), InOrder(ExpiredWorkers(s, clock)))
  }

  function HeartbeatReply(s: ServerState, w: Identity): ServerState {
    if w !in s.queues then s
    else s.(queues := s.queues[w := s.queues[w].(heartbeatReplyReceived := true)])
  }

  // ---------------------------------------------------------------- phases

  /** The mapping of the k-th file: identity for the first, matched to its predecessor after. */
  function PlannedMapping(histograms: map<string, Histogram>, order: seq<string>, k: nat,
                          quantumRange: real): Histogram
    requires k < |order| && forall x | x in order :: x in histograms
  {
    if k == 0 then Interpolation.IdentityTable(HISTOGRAM_SEGMENTS, quantumRange)
    else Matching.Parameters(histograms[order[k - 1]], histograms[order[k]], quantumRange)
  }

  /** Jobs for the first `k` entries of the result map. */
  function PlanUpTo(histograms: map<string, Histogram>, order: seq<string>, k: nat,
                    quantumRange: real): (plan: seq<Job>)
    requires k <= |order| && forall x | x in order :: x in histograms
    ensures |plan| == k
  {
    if k == 0 then []
    else PlanUpTo(histograms, order, k - 1, quantumRange)
         + [EqualisationJob(order[k - 1], PlannedMapping(histograms, order, k - 1, quantumRange))]
  }

  lemma {:induction false} PlanAt(histograms: map<string, Histogram>, order: seq<string>, n: nat,
                                  k: nat, quantumRange: real)
    requires k < n <= |order| && forall x | x in order :: x in histograms
    ensures PlanUpTo(histograms, order, n, quantumRange)[k]
         == EqualisationJob(order[k], PlannedMapping(histograms, order, k, quantumRange))
    decreases n
  {
    if k < n - 1 { PlanAt(histograms, order, n - 1, k, quantumRange); }
  }

  /** The jobs `serve_work` pushes between the phases, in the order of the result map. */
  ghost function PlanJobs(histograms: map<string, Histogram>, quantumRange: real): seq<Job> {
    var order := InOrder(histograms.Keys);
    InOrderElements(histograms.Keys);
    PlanUpTo(histograms, order, |order|, quantumRange)
  }

  ghost function SwitchPhase(s: ServerState, quantumRange: real): ServerState {
    s.(enqueued := s.enqueued + PlanJobs(s.histograms, quantumRange), equalisedCount := 0)
  }

  /** The serving loop at the start of `receive_equalised`; it stops at an empty queue. */
  function ServeInTurn(s: ServerState, order: seq<Identity>): ServerState
    requires forall w | w in order :: w in s.queues
    decreases |order|
  {
    if order == [] || s.enqueued == [] then s
    else ServeInTurn(Transmit(s, order[0]), order[1..])
  }

  ghost function Serve(s: ServerState): ServerState {
    InOrderElements(s.queues.Keys);
    ServeInTurn(s, InOrder(s.queues.Keys))
  }

  /** `dismiss_workers` */
  function DismissAll(s: ServerState): ServerState {
    s.(queues := map[])
  }
}
