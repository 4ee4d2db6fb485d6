/**
 The commands exchanged by the server and its workers (src/protocol.hpp) and the
 `operator==` family that matches a job with the result that answers it.
 */
module Commands {
  import opened Config

  datatype HeartbeatType = Request | Reply

  datatype Job =
    | HistogramJob(filename: string)
    | EqualisationJob(filename: string, mapping: Histogram)
  {
    /** `job_type` */
    function Tag(): string {
      match this
      case HistogramJob(_) => "HISTOGRAM"
      case EqualisationJob(_, _) => "EQUALISATION"
    }
  }

  datatype JobResult =
    | HistogramResult(filename: string, histogram: Histogram)
    | EqualisationResult(filename: string, tiff: seq<byte>)
  {
    /** `result_type` */
    function Tag(): string {
      match this
      case HistogramResult(_, _) => "HISTOGRAM"
      case EqualisationResult(_, _) => "EQUALISATION"
    }
  }

  datatype Command =
    | Helo(concurrency: uint32)
    | Ehlo
    | JobCommand(job: Job)
    | ResultCommand(result: JobResult)
    | Heartbeat(kind: HeartbeatType)
    | Bye

  /** Outcome of a `dynamic_cast` to a reference: a wrong class throws `std::bad_cast`. */
  datatype Comparison = Compared(equal: bool) | BadCast

  /** `WorkerJobCommand == WorkerResultCommand`: tags first, then the class, then the name. */
  function JobEqualsResult(job: Job, result: JobResult): Comparison {
    if job.Tag() != result.Tag() then Compared(false)
    else match (job, result)
      case (HistogramJob(f), HistogramResult(g, _)) => Compared(f == g)
      case (EqualisationJob(f, _), EqualisationResult(g, _)) => Compared(f == g)
      case _ => BadCast
  }

  /** `WorkerResultCommand == WorkerJobCommand` */
  function ResultEqualsJob(result: JobResult, job: Job): Comparison {
    if result.Tag() != job.Tag() then Compared(false)
    else match (result, job)
      case (HistogramResult(f, _), HistogramJob(g)) => Compared(f == g)
      case (EqualisationResult(f, _), EqualisationJob(g, _)) => Compared(f == g)
      case _ => BadCast
  }

  /** `WorkerJobCommand == WorkerJobCommand` */
  function JobEqualsJob(a: Job, b: Job): Comparison {
    if a.Tag() != b.Tag() then Compared(false)
    else match (a, b)
      case (HistogramJob(f), HistogramJob(g)) => Compared(f == g)
      case (EqualisationJob(f, _), EqualisationJob(g, _)) => Compared(f == g)
      case _ => BadCast
  }

  /** The predicate handed to `std::find_if`. */
  predicate Matches(job: Job, result: JobResult) {
    JobEqualsResult(job, result) == Compared(true)
  }

  /** The result is for this job: same kind, same file. */
  predicate Fits(job: Job, result: JobResult) {
    (job.HistogramJob? <==> result.HistogramResult?) && job.filename == result.filename
  }

  lemma TagsDiffer()
    ensures "HISTOGRAM" != "EQUALISATION"
  {
    assert |"HISTOGRAM"| != |"EQUALISATION"|;
  }

  /**
   No comparison throws, the two directions agree, and equality means "same kind, same
   file" whatever the payload; so two jobs are equal exactly when some result matches both.
   */
  lemma ComparisonsAgree(a: Job, b: Job, result: JobResult)
    ensures JobEqualsResult(a, result) == ResultEqualsJob(result, a) != BadCast
    ensures JobEqualsJob(a, b) != BadCast
    ensures Matches(a, result) <==> Fits(a, result)
    ensures Fits(a, result) <==>
            a.HistogramJob? == result.HistogramResult? && a.filename == result.filename
    ensures Matches(a, result) ==> (JobEqualsJob(a, b) == Compared(true) <==> Matches(b, result))
  {
    TagsDiffer();
  }
}
