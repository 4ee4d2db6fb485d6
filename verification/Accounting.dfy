/**
 Where the jobs are: the queue and the workers together hold the outstanding jobs, and no
 server operation but settling a result changes them.
 */
module Accounting {
  import opened Commands
  import opened Names
  import opened Dispatch

  ghost function Pick<V>(entries: map<Identity, V>): (w: Identity)
    requires entries != map[]
    ensures w in entries
  {
    var w :| w in entries;
    w
  }

  /** The jobs assigned to any registered worker. */
  ghost function AllWork(queues: map<Identity, WorkerData>): multiset<Job>
    decreases |queues.Keys|
  {
    if queues == map[] then multiset{}
    else
      var w := Pick(queues);
      assert (queues - {w}).Keys == queues.Keys - {w};
      multiset(queues[w].work) + AllWork(queues - {w})
  }

  ghost function Outstanding(s: ServerState): multiset<Job> {
    multiset(s.enqueued) + AllWork(s.queues)
  }

  lemma {:induction false} AllWorkSplit(queues: map<Identity, WorkerData>, w: Identity)
    requires w in queues
    ensures AllWork(queues) == multiset(queues[w].work) + AllWork(queues - {w})
    decreases |queues.Keys|
  {
    var p := Pick(queues);
    if p != w {
      assert (queues - {p}).Keys == queues.Keys - {p};
      assert (queues - {w}).Keys == queues.Keys - {w};
      AllWorkSplit(queues - {p}, w);
      AllWorkSplit(queues - {w}, p);
      assert queues - {p} - {w} == queues - {w} - {p};
      SwapSums(multiset(queues[p].work), multiset(queues[w].work), AllWork(queues - {p} - {w}));
    }
  }

  lemma SwapSums(a: multiset<Job>, b: multiset<Job>, c: multiset<Job>)
    ensures a + (b + c) == b + (a + c)
  {
  }

  lemma AllWorkUpdate(queues: map<Identity, WorkerData>, w: Identity, data: WorkerData)
    ensures AllWork(queues[w := data]) == multiset(data.work) + AllWork(queues - {w})
  {
    AllWorkSplit(queues[w := data], w);
    assert queues[w := data] - {w} == queues - {w};
  }

  lemma {:induction false} SameWork(a: map<Identity, WorkerData>, b: map<Identity, WorkerData>)
    requires a.Keys == b.Keys && forall w | w in a :: a[w].work == b[w].work
    ensures AllWork(a) == AllWork(b)
    decreases |a.Keys|
  {
    if a != map[] {
      var w := Pick(a);
      assert (a - {w}).Keys == a.Keys - {w} == (b - {w}).Keys;
      SameWork(a - {w}, b - {w});
      AllWorkSplit(b, w);
    } else {
      assert b == map[];
    }
  }

  lemma WorkIsOutstanding(s: ServerState, w: Identity)
    requires w in s.queues
    ensures multiset(s.queues[w].work) <= Outstanding(s)
  {
    AllWorkSplit(s.queues, w);
  }

  // ---------------------------------------------------------------- server operations

  lemma SetWorkAccounts(s: ServerState, w: Identity, work: seq<Job>)
    requires w in s.queues
    ensures var rest := AllWork(s.queues - {w});
            && AllWork(s.queues) == multiset(s.queues[w].work) + rest
            && AllWork(SetWork(s, w, work).queues) == multiset(work) + rest
  {
    AllWorkUpdate(s.queues, w, s.queues[w].(work := work));
    AllWorkSplit(s.queues, w);
  }

  lemma TransmitConserves(s: ServerState, w: Identity)
    requires w in s.queues
    ensures Outstanding(Transmit(s, w)) == Outstanding(s)
  {
    var taken, work := Taken(s, w), s.queues[w].work;
    SetWorkAccounts(s, w, work + taken);
    assert Transmit(s, w).queues == SetWork(s, w, work + taken).queues;
    assert s.enqueued == taken + s.enqueued[|taken|..];
  }

  lemma RegisterConserves(s: ServerState, w: Identity, concurrency: nat, now: int)
    ensures Outstanding(Register(s, w, concurrency, now)) == Outstanding(s)
  {
    if w !in s.queues {
      AllWorkUpdate(s.queues, w, Register(s, w, concurrency, now).queues[w]);
      assert s.queues - {w} == s.queues;
    }
  }

  lemma WithoutOne(work: seq<Job>, i: nat)
    requires i < |work|
    ensures multiset(work[..i] + work[i + 1..]) + multiset{work[i]} == multiset(work)
  {
    assert work == work[..i] + [work[i]] + work[i + 1..];
  }

  lemma RetiredAccounts(work: seq<Job>, result: JobResult)
    requires FindMatch(work, result) < |work|
    ensures multiset(Retired(work, result)) + multiset{work[FindMatch(work, result)]} == multiset(work)
    ensures |Retired(work, result)| == |work| - 1
  {
    var i := FindMatch(work, result);
    assert Retired(work, result) == work[..i] + work[i + 1..];
    WithoutOne(work, i);
  }

  lemma RetireAccounts(s: ServerState, w: Identity, result: JobResult)
    requires w in s.queues && FindMatch(s.queues[w].work, result) < |s.queues[w].work|
    ensures Outstanding(Retire(s, w, result))
            + multiset{s.queues[w].work[FindMatch(s.queues[w].work, result)]} == Outstanding(s)
  {
    var work := s.queues[w].work;
    SetWorkAccounts(s, w, Retired(work, result));
    RetiredAccounts(work, result);
    assert Retire(s, w, result).queues == SetWork(s, w, Retired(work, result)).queues;
  }

  lemma RemoveConserves(s: ServerState, w: Identity, returned: seq<Job>)
    requires w in s.queues && multiset(returned) == multiset(s.queues[w].work)
    ensures Outstanding(Remove(s, w, returned)) == Outstanding(s)
  {
    AllWorkSplit(s.queues, w);
  }

  lemma {:induction false} ReverseKeepsJobs(work: seq<Job>)
    ensures multiset(Reverse(work)) == multiset(work)
    decreases |work|
  {
    if work != [] {
      ReverseKeepsJobs(work[..|work| - 1]);
      assert work == work[..|work| - 1] + [work[|work| - 1]];
    }
  }

  lemma {:induction false} DismissEachConserves(s: ServerState, order: seq<Identity>)
    ensures Outstanding(DismissEach(s, order)) == Outstanding(s)
    decreases |order|
  {
    if order != [] {
      if order[0] in s.queues { RemoveConserves(s, order[0], s.queues[order[0]].work); }
      DismissEachConserves(Dismiss(s, order[0]), order[1..]);
    }
  }

  lemma HeartbeatPassConserves(s: ServerState, clock: Clock)
    ensures Outstanding(HeartbeatPass(s, clock)) == Outstanding(s)
  {
    SameWork(s.queues, RefreshAll(s, clock).queues);
    DismissEachConserves(RefreshAll(s, clock), InOrder(ExpiredWorkers(s, clock)));
  }

  // ---------------------------------------------------------------- one job per file

  predicate DistinctFiles(jobs: seq<Job>) {
    forall i, k | 0 <= i < k < |jobs| :: jobs[i].filename != jobs[k].filename
  }

  /** No job occurs twice and no file has two jobs. */
  ghost predicate OnePerFile(jobs: multiset<Job>) {
    && (forall j :: jobs[j] <= 1)
    && (forall j, k | j in jobs && k in jobs && j.filename == k.filename :: j == k)
  }

  lemma {:induction false} DistinctIsOnePerFile(jobs: seq<Job>)
    requires DistinctFiles(jobs)
    ensures OnePerFile(multiset(jobs))
    decreases |jobs|
  {
    if jobs != [] {
      var last, rest := jobs[|jobs| - 1], jobs[..|jobs| - 1];
      assert jobs == rest + [last];
      DistinctIsOnePerFile(rest);
      forall j: Job | j in multiset(rest)
        ensures j.filename != last.filename
      {
        var i :| 0 <= i < |rest| && rest[i] == j;
      }
    }
  }

  /** The answer to an assigned job finds that job, and only that one. */
  lemma FindsTheJob(work: seq<Job>, job: Job, result: JobResult)
    requires job in work && Matches(job, result) && OnePerFile(multiset(work))
    ensures var i := FindMatch(work, result);
            && i < |work| && work[i] == job
            && (forall k | 0 <= k < |work| && Matches(work[k], result) :: k == i)
  {
    var i :| 0 <= i < |work| && work[i] == job;
    forall k | 0 <= k < |work| && Matches(work[k], result)
      ensures k == i
    {
      ComparisonsAgree(work[k], job, result);
      ComparisonsAgree(job, job, result);
      assert work[k] in multiset(work) && work[i] in multiset(work);
      if k != i { TwiceInSequence(work, k, i); }
    }
    assert FindMatch(work, result) <= i;
  }

  lemma TwiceInSequence(work: seq<Job>, k: nat, i: nat)
    requires k < |work| && i < |work| && k != i && work[k] == work[i]
    ensures multiset(work)[work[i]] >= 2
  {
    var lo, hi := if k < i then k else i, if k < i then i else k;
    assert work == work[..lo] + [work[lo]] + work[lo + 1..hi] + [work[hi]] + work[hi + 1..];
  }
}
