/**
 What the handlers of module Dispatch do to the queue, the work lists and the collected results,
 told by positions and contents, with the numbers of src/config.hpp written out.
 */
module Handlers {
  import opened Config
  import opened Commands
  import opened Names
  import opened Dispatch

  // ---------------------------------------------------------------- handing out work

  /**
   `t` is `s` after worker `w` was given `moved`: the front of the queue, at the end of its list;
   it stops where the queue is empty or the list full, and goes no further than that.
   */
  ghost predicate FilledFrom(s: ServerState, t: ServerState, w: Identity, moved: seq<Job>) {
    && w in s.queues && w in t.queues
    && s.enqueued == moved + t.enqueued
    && t.queues[w] == s.queues[w].(work := s.queues[w].work + moved)
    && t.queues - {w} == s.queues - {w}
    && t.(enqueued := s.enqueued, queues := s.queues) == s
    && (t.enqueued == [] || |t.queues[w].work| >= t.queues[w].concurrency)
    && (moved == [] || |t.queues[w].work| <= t.queues[w].concurrency)
  }

  /** What is left when one key is set apart, and that key's value, make up the map. */
  lemma SameMap<V>(a: map<Identity, V>, b: map<Identity, V>, w: Identity)
    requires w in a && w in b && a[w] == b[w] && a - {w} == b - {w}
    ensures a == b
  {
    forall x
      ensures x in a <==> x in b
      ensures x in a && x in b ==> a[x] == b[x]
    {
      if x != w {
        assert x in a <==> x in a - {w};
        assert x in b <==> x in b - {w};
        assert x in a - {w} && x in b - {w} ==> (a - {w})[x] == (b - {w})[x];
      }
    }
  }

  lemma TransmitFills(s: ServerState, w: Identity)
    requires w in s.queues
    ensures FilledFrom(s, Transmit(s, w), w, Taken(s, w))
  {
    assert Transmit(s, w).queues - {w} == s.queues - {w};
  }

  /** Filling a worker means just that. */
  lemma TransmitExactly(s: ServerState, w: Identity, t: ServerState)
    requires w in s.queues
    ensures t == Transmit(s, w) <==> exists moved :: FilledFrom(s, t, w, moved)
  {
    TransmitFills(s, w);
    if moved :| FilledFrom(s, t, w, moved) {
      var u, taken := Transmit(s, w), Taken(s, w);
      assert |moved| == |taken|;
      assert moved == s.enqueued[..|moved|] == taken;
      assert t.enqueued == s.enqueued[|moved|..] == u.enqueued;
      SameMap(t.queues, u.queues, w);
    }
  }

  /**
   A new worker gets the first jobs of the queue: as many as it has threads, as there are jobs
   and as 32, whichever is least. One that is already known is only filled up.
   */
  lemma HeloFills(s: ServerState, w: Identity, concurrency: nat, now: int)
    ensures var t := HeloReceived(s, w, concurrency, now);
            if w in s.queues then t == Transmit(s, w)
            else
              && w in t.queues && t.queues - {w} == s.queues
              && t.(enqueued := s.enqueued, queues := s.queues) == s
              && s.enqueued == t.queues[w].work + t.enqueued
              && (var n := |t.queues[w].work|;
                  && n <= concurrency && n <= 32 && n <= |s.enqueued|
                  && (n == concurrency || n == 32 || n == |s.enqueued|))
              && t.queues[w].concurrency == (if concurrency < 32 then concurrency else 32)
              && t.queues[w].lastHeartbeatRequest == now && !t.queues[w].heartbeatReplyReceived
  {
    if w !in s.queues {
      var t := HeloReceived(s, w, concurrency, now);
      TransmitFills(Register(s, w, concurrency, now), w);
      assert t.queues[w].work == Taken(Register(s, w, concurrency, now), w);
      assert t.queues - {w} == s.queues;
    }
  }

  /** How many jobs the first `k` workers have room for. */
  function RoomUpTo(s: ServerState, order: seq<Identity>, k: nat): nat
    requires k <= |order| && forall w | w in order :: w in s.queues
  {
    if k == 0 then 0
    else
      assert order[k - 1] in order;
      var data := s.queues[order[k - 1]];
      RoomUpTo(s, order, k - 1)
      + if |data.work| < data.concurrency then data.concurrency - |data.work| else 0
  }

  /** Where the share of the k-th worker begins in the queue. */
  function ShareStart(s: ServerState, order: seq<Identity>, k: nat): (start: nat)
    requires k <= |order| && forall w | w in order :: w in s.queues
    ensures start <= |s.enqueued|
  {
    Min(RoomUpTo(s, order, k), |s.enqueued|)
  }

  lemma {:induction false} RoomGrows(s: ServerState, order: seq<Identity>, i: nat, k: nat)
    requires i <= k <= |order| && forall w | w in order :: w in s.queues
    ensures RoomUpTo(s, order, i) <= RoomUpTo(s, order, k)
    decreases k
  {
    if i < k { RoomGrows(s, order, i, k - 1); }
  }

  /** The queue is dealt out front to back: each worker's share follows the one before it. */
  ghost predicate Dealt(s: ServerState, t: ServerState, order: seq<Identity>, n: nat)
    requires n <= |order| && forall w | w in order :: w in s.queues
  {
    && t.enqueued == s.enqueued[ShareStart(s, order, n)..]
    && t.(enqueued := s.enqueued, queues := s.queues) == s
    && t.queues.Keys == s.queues.Keys
    && (forall k | 0 <= k < n ::
          && order[k] in s.queues && order[k] in t.queues
          && ShareStart(s, order, k) <= ShareStart(s, order, k + 1)
          && t.queues[order[k]] == s.queues[order[k]].(
               work := s.queues[order[k]].work
                       + s.enqueued[ShareStart(s, order, k)..ShareStart(s, order, k + 1)]))
    && (forall w | w in s.queues && w !in order[..n] :: t.queues[w] == s.queues[w])
  }

  lemma TransmitNothing(s: ServerState, w: Identity)
    requires w in s.queues && s.enqueued == []
    ensures Transmit(s, w) == s
  {
    var work := s.queues[w].work;
    assert work + Taken(s, w) == work;
    assert s.queues[w := s.queues[w].(work := work)] == s.queues;
  }

  lemma {:induction false} ServeSnoc(s: ServerState, order: seq<Identity>, w: Identity)
    requires w in s.queues && forall v | v in order :: v in s.queues
    ensures w in ServeInTurn(s, order).queues
    ensures ServeInTurn(s, order + [w]) == Transmit(ServeInTurn(s, order), w)
    decreases |order|
  {
    if s.enqueued == [] {
      TransmitNothing(s, w);
    } else if order == [] {
      assert (order + [w])[1..] == [];
    } else {
      assert (order + [w])[1..] == order[1..] + [w];
      ServeSnoc(Transmit(s, order[0]), order[1..], w);
    }
  }

  lemma NextShare(s: ServerState, u: ServerState, order: seq<Identity>, n: nat)
    requires n < |order| && forall w | w in order :: w in s.queues
    requires order[n] in order && order[n] in u.queues && u.queues[order[n]] == s.queues[order[n]]
    requires u.enqueued == s.enqueued[ShareStart(s, order, n)..]
    ensures ShareStart(s, order, n) <= ShareStart(s, order, n + 1)
    ensures Taken(u, order[n]) == s.enqueued[ShareStart(s, order, n)..ShareStart(s, order, n + 1)]
    ensures Transmit(u, order[n]).enqueued == s.enqueued[ShareStart(s, order, n + 1)..]
  {
    var from, to := ShareStart(s, order, n), ShareStart(s, order, n + 1);
    RoomGrows(s, order, n, n + 1);
    assert |Taken(u, order[n])| == to - from;
    assert Taken(u, order[n]) == s.enqueued[from..to];
    assert Transmit(u, order[n]).enqueued == s.enqueued[to..];
  }

  /** The share of the next worker. */
  lemma DealNext(s: ServerState, u: ServerState, order: seq<Identity>, n: nat)
    requires n < |order| && forall w | w in order :: w in s.queues
    requires forall i, k | 0 <= i < k < |order| :: order[i] != order[k]
    requires Dealt(s, u, order, n) && order[n] in u.queues
    ensures Dealt(s, Transmit(u, order[n]), order, n + 1)
  {
    var w, t := order[n], Transmit(u, order[n]);
    assert w in order && w !in order[..n];
    NextShare(s, u, order, n);
    assert order[..n + 1] == order[..n] + [w];
  }

  lemma {:induction false} ServeDeals(s: ServerState, order: seq<Identity>, n: nat)
    requires n <= |order| && forall w | w in order :: w in s.queues
    requires forall i, k | 0 <= i < k < |order| :: order[i] != order[k]
    ensures Dealt(s, ServeInTurn(s, order[..n]), order, n)
    decreases n
  {
    if n > 0 {
      ServeDeals(s, order, n - 1);
      assert order[n - 1] in order;
      assert order[..n] == order[..n - 1] + [order[n - 1]];
      ServeSnoc(s, order[..n - 1], order[n - 1]);
      DealNext(s, ServeInTurn(s, order[..n - 1]), order, n - 1);
    }
  }

  /** Serving the existing workers deals the queue out to them in the order of their names. */
  lemma ServeDealsOut(s: ServerState, order: seq<Identity>)
    requires Increasing(order) && forall w :: w in order <==> w in s.queues
    ensures Dealt(s, Serve(s), order, |order|)
  {
    OrderIsUnique(s.queues.Keys, order);
    InOrderElements(s.queues.Keys);
    ServeDeals(s, order, |order|);
    assert order[..|order|] == order;
  }

  // ---------------------------------------------------------------- results

  lemma FirstAmong(before: seq<Job>, job: Job, after: seq<Job>, result: JobResult)
    requires Matches(job, result) && forall k | 0 <= k < |before| :: !Matches(before[k], result)
    ensures Retired(before + [job] + after, result) == before + after
  {
    var work, i := before + [job] + after, FindMatch(before + [job] + after, result);
    assert work[|before|] == job;
    assert forall k | 0 <= k < |before| :: work[k] == before[k];
    assert i == |before|;
    assert work[..i] == before && work[i + 1..] == after;
  }

  /**
   A registered worker's histogram is kept unless the file has one; the first job it fits leaves
   the worker's list, the others stay in order, and the worker is filled up.
   */
  lemma HistogramResultSettles(s: ServerState, w: Identity, result: JobResult, before: seq<Job>,
                               job: Job, after: seq<Job>) returns (moved: seq<Job>)
    requires w in s.queues && s.queues[w].work == before + [job] + after && result.HistogramResult?
    requires Fits(job, result) && forall k | 0 <= k < |before| :: !Fits(before[k], result)
    ensures var settled := s.(histograms := map[result.filename := result.histogram] + s.histograms,
                              queues := s.queues[w := s.queues[w].(work := before + after)]);
            FilledFrom(settled, HistogramResultReceived(s, w, result), w, moved)
  {
    var settled := s.(histograms := map[result.filename := result.histogram] + s.histograms,
                      queues := s.queues[w := s.queues[w].(work := before + after)]);
    SettledWork(s, w, result, before, job, after);
    assert Record(s, result).histograms == settled.histograms;
    assert Retire(Record(s, result), w, result) == settled;
    moved := RefillFills(settled, w);
  }

  lemma SettledWork(s: ServerState, w: Identity, result: JobResult, before: seq<Job>, job: Job,
                    after: seq<Job>)
    requires w in s.queues && s.queues[w].work == before + [job] + after
    requires Fits(job, result) && forall k | 0 <= k < |before| :: !Fits(before[k], result)
    ensures Retired(s.queues[w].work, result) == before + after
  {
    ComparisonsAgree(job, job, result);
    forall k | 0 <= k < |before|
      ensures !Matches(before[k], result)
    {
      ComparisonsAgree(before[k], job, result);
    }
    FirstAmong(before, job, after, result);
  }

  lemma RefillFills(s: ServerState, w: Identity) returns (moved: seq<Job>)
    requires w in s.queues
    ensures FilledFrom(s, Refill(s, w), w, moved)
  {
    moved := Taken(s, w);
    if s.enqueued == [] { TransmitNothing(s, w); }
    TransmitFills(s, w);
  }

  /**
   An equalised image is written to the file's name plus ".tiff", over whatever is there. For a
   registered worker the counter grows by one and its job is settled in the same way.
   */
  lemma EqualisationResultSettles(s: ServerState, w: Identity, result: JobResult, before: seq<Job>,
                                  job: Job, after: seq<Job>) returns (moved: seq<Job>)
    requires w in s.queues && s.queues[w].work == before + [job] + after && result.EqualisationResult?
    requires Fits(job, result) && forall k | 0 <= k < |before| :: !Fits(before[k], result)
    ensures var settled := s.(written := s.written[result.filename + ".tiff" := result.tiff],
                              equalisedCount := s.equalisedCount + 1,
                              queues := s.queues[w := s.queues[w].(work := before + after)]);
            FilledFrom(settled, EqualisationResultReceived(s, w, result), w, moved)
  {
    var settled := s.(written := s.written[result.filename + ".tiff" := result.tiff],
                      equalisedCount := s.equalisedCount + 1,
                      queues := s.queues[w := s.queues[w].(work := before + after)]);
    SettledWork(s, w, result, before, job, after);
    moved := RefillFills(settled, w);
  }

  /** A stranger's histogram is ignored; a stranger's image is written and nothing else happens. */
  lemma StrangersResult(s: ServerState, w: Identity, result: JobResult)
    requires w !in s.queues
    ensures result.HistogramResult? ==> HistogramResultReceived(s, w, result) == s
    ensures result.EqualisationResult? ==>
              EqualisationResultReceived(s, w, result)
              == s.(written := s.written[result.filename + ".tiff" := result.tiff])
  {
  }

  // ---------------------------------------------------------------- losing workers

  lemma {:induction false} ReverseLength(work: seq<Job>)
    ensures |Reverse(work)| == |work|
    decreases |work|
  {
    if work != [] { ReverseLength(work[..|work| - 1]); }
  }

  lemma {:induction false} ReverseAt(work: seq<Job>, k: nat)
    requires k < |work|
    ensures |Reverse(work)| == |work| && Reverse(work)[k] == work[|work| - 1 - k]
    decreases |work|
  {
    ReverseLength(work);
    if k > 0 { ReverseAt(work[..|work| - 1], k - 1); }
  }

  /** The queue grows at its end by these jobs, the worker is gone and nothing else changes. */
  ghost predicate Gone(s: ServerState, t: ServerState, w: Identity, returned: seq<Job>) {
    && w !in t.queues && t.queues == s.queues - {w}
    && t.enqueued == s.enqueued + returned
    && t.(enqueued := s.enqueued, queues := s.queues) == s
  }

  /** After BYE the worker's jobs lie behind the queued ones, last first. */
  lemma ByeReturnsLastFirst(s: ServerState, w: Identity) returns (returned: seq<Job>)
    requires w in s.queues
    ensures Gone(s, ByeReceived(s, w), w, returned) && |returned| == |s.queues[w].work|
    ensures forall k | 0 <= k < |returned| :: returned[k] == s.queues[w].work[|returned| - 1 - k]
  {
    returned := Reverse(s.queues[w].work);
    ReverseLength(s.queues[w].work);
    forall k | 0 <= k < |returned|
      ensures returned[k] == s.queues[w].work[|returned| - 1 - k]
    {
      ReverseAt(s.queues[w].work, k);
    }
  }

  /** After a dismissal they lie there first to last; dismissing a stranger changes nothing. */
  lemma DismissReturnsFirstToLast(s: ServerState, w: Identity)
    ensures w in s.queues ==> Gone(s, Dismiss(s, w), w, s.queues[w].work)
    ensures w !in s.queues ==> Dismiss(s, w) == s
  {
  }

  /** The work of some workers, one list after the other. */
  function WorkOf(s: ServerState, order: seq<Identity>): seq<Job>
    requires forall w | w in order :: w in s.queues
  {
    if order == [] then []
    else
      var last := order[|order| - 1];
      assert forall w | w in order[..|order| - 1] :: w in order;
      WorkOf(s, order[..|order| - 1]) + s.queues[last].work
  }

  /**
   Whom a pass dismisses: the workers without a reply whose last request is at least six
   seconds old when they are looked at.
   */
  predicate Silent(s: ServerState, clock: Clock, w: Identity) {
    && w in s.queues && w in clock && !s.queues[w].heartbeatReplyReceived
    && clock[w].checked - s.queues[w].lastHeartbeatRequest >= 6_000_000_000
  }

  /** Whom it asks again: those with a reply to a request as old as that. */
  predicate Due(s: ServerState, clock: Clock, w: Identity) {
    && w in s.queues && w in clock && s.queues[w].heartbeatReplyReceived
    && clock[w].checked - s.queues[w].lastHeartbeatRequest >= 6_000_000_000
  }

  lemma {:induction false} DismissSnoc(s: ServerState, order: seq<Identity>, w: Identity)
    ensures DismissEach(s, order + [w]) == Dismiss(DismissEach(s, order), w)
    decreases |order|
  {
    if order == [] {
      assert (order + [w])[1..] == [];
    } else {
      assert (order + [w])[1..] == order[1..] + [w];
      DismissSnoc(Dismiss(s, order[0]), order[1..], w);
    }
  }

  /** Dismissing some workers removes just these. */
  lemma {:induction false} DismissEachQueues(s: ServerState, order: seq<Identity>)
    ensures DismissEach(s, order).queues == s.queues - (set w | w in order)
    ensures DismissEach(s, order).(enqueued := s.enqueued, queues := s.queues) == s
    decreases |order|
  {
    if order != [] {
      DismissEachQueues(Dismiss(s, order[0]), order[1..]);
      assert order == [order[0]] + order[1..];
      assert (set w | w in order) == {order[0]} + (set w | w in order[1..]);
      assert Dismiss(s, order[0]).queues == s.queues - {order[0]};
    }
  }

  lemma {:induction false} DismissEachReturns(s: ServerState, order: seq<Identity>)
    requires forall w | w in order :: w in s.queues
    requires forall i, k | 0 <= i < k < |order| :: order[i] != order[k]
    ensures DismissEach(s, order).enqueued == s.enqueued + WorkOf(s, order)
    decreases |order|
  {
    if order == [] {
      assert s.enqueued + WorkOf(s, order) == s.enqueued;
    } else {
      var rest, last := order[..|order| - 1], order[|order| - 1];
      assert order == rest + [last];
      DismissEachReturns(s, rest);
      DismissEachQueues(s, rest);
      DismissSnoc(s, rest, last);
      assert last in order && last !in rest;
      assert s.enqueued + (WorkOf(s, rest) + s.queues[last].work)
          == s.enqueued + WorkOf(s, rest) + s.queues[last].work;
    }
  }

  lemma {:induction false} SameLists(s: ServerState, t: ServerState, order: seq<Identity>)
    requires forall w | w in order :: w in s.queues && w in t.queues && s.queues[w].work == t.queues[w].work
    ensures WorkOf(s, order) == WorkOf(t, order)
    decreases |order|
  {
    if order != [] { SameLists(s, t, order[..|order| - 1]); }
  }

  lemma RefreshedMeans(s: ServerState, clock: Clock, w: Identity)
    requires w in s.queues && w in clock
    ensures Expired(s.queues[w], At(clock, w)) <==> Silent(s, clock, w)
    ensures Refreshed(s.queues[w], At(clock, w))
         == if Due(s, clock, w)
            then s.queues[w].(heartbeatReplyReceived := false, lastHeartbeatRequest := clock[w].stamped)
            else s.queues[w]
  {
    OverdueMeans(s.queues[w], clock[w].checked);
  }

  /** The refreshed workers, without the silent ones. */
  function Checked(s: ServerState, clock: Clock): map<Identity, WorkerData> {
    map w | w in s.queues && !Silent(s, clock, w) ::
      if Due(s, clock, w)
      then s.queues[w].(heartbeatReplyReceived := false, lastHeartbeatRequest := clock[w].stamped)
      else s.queues[w]
  }

  lemma WhoIsSilent(s: ServerState, clock: Clock, silent: seq<Identity>)
    requires s.queues.Keys <= clock.Keys && Increasing(silent)
    requires forall w :: w in silent <==> w in s.queues && Silent(s, clock, w)
    ensures silent == InOrder(ExpiredWorkers(s, clock))
    ensures forall i, k | 0 <= i < k < |silent| :: silent[i] != silent[k]
  {
    forall w | w in s.queues
      ensures Expired(s.queues[w], At(clock, w)) <==> Silent(s, clock, w)
    {
      RefreshedMeans(s, clock, w);
    }
    OrderIsUnique(ExpiredWorkers(s, clock), silent);
    InOrderElements(ExpiredWorkers(s, clock));
  }

  lemma RefreshedExactly(s: ServerState, clock: Clock, silent: seq<Identity>)
    requires s.queues.Keys <= clock.Keys
    requires forall w :: w in silent <==> w in s.queues && Silent(s, clock, w)
    ensures RefreshAll(s, clock).queues - (set w | w in silent) == Checked(s, clock)
  {
    forall w | w in s.queues
      ensures w in Checked(s, clock) ==> Checked(s, clock)[w] == RefreshAll(s, clock).queues[w]
    {
      RefreshedMeans(s, clock, w);
    }
  }

  /**
   A heartbeat pass: the silent workers are gone, their jobs lie behind the queued ones in the
   order of their names, and the workers it asked again carry the time of the new request.
   */
  lemma PassExactly(s: ServerState, clock: Clock, silent: seq<Identity>)
    requires s.queues.Keys <= clock.Keys && Increasing(silent)
    requires forall w :: w in silent <==> w in s.queues && Silent(s, clock, w)
    ensures HeartbeatPass(s, clock)
         == s.(enqueued := s.enqueued + WorkOf(s, silent), queues := Checked(s, clock))
  {
    var refreshed := RefreshAll(s, clock);
    WhoIsSilent(s, clock, silent);
    DismissEachReturns(refreshed, silent);
    DismissEachQueues(refreshed, silent);
    SameLists(s, refreshed, silent);
    RefreshedExactly(s, clock, silent);
  }
}
