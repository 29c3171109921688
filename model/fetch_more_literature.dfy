/**
 * The handler that schedules more fetching: at the paper limit the job
 * completes; below it the job is queued for fetching and the result
 * records the fetch intent with its reason.
 */
module FetchMoreLiterature {
  import opened Common
  import opened Jobs
  import opened DecisionHandlerBase
  import SD = StrategicDownload

  /** The decision's `measurements` member: missing, null, or a dict of strings. */
  datatype Measurements = Absent | NullValue | Dict(entries: map<string, string>)

  /** The part of the decision the handler reads. */
  datatype DecisionResult = DecisionResult(decisionLabel: Option<string>, measurements: Measurements)

  const DefaultReason := "Insufficient evidence; need more data"

  /** The message of the exception `None.get(...)` raises. */
  const NoneGetError := "'NoneType' object has no attribute 'get'"

  /** The fetch reason; None when the measurements are null and reading them raises. */
  function Reason(m: Measurements): (r: Option<string>)
    ensures r.None? <==> m.NullValue?
    ensures m.Absent? ==> r == Some(DefaultReason)
    ensures m.Dict? && "reason_for_fetch" !in m.entries ==> r == Some(DefaultReason)
    ensures m.Dict? && "reason_for_fetch" in m.entries ==> r == Some(m.entries["reason_for_fetch"])
  {
    match m
    case Absent => Some(DefaultReason)
    case NullValue => None
    case Dict(entries) =>
      Some(if "reason_for_fetch" in entries then entries["reason_for_fetch"] else DefaultReason)
  }

  /** The status the handler gives the job. */
  function NextStatus(count: nat, maxPapers: int): (s: string)
    ensures s == "COMPLETED" <==> count >= maxPapers
    ensures s == "FETCH_QUEUED" <==> count < maxPapers
  {
    if count >= maxPapers then "COMPLETED" else "FETCH_QUEUED"
  }

  function ErrorResult(e: string): HandlerResult
  {
    HandlerResult("error", "Failed to queue fetch task: " + e, Some("notify_user"), NoData)
  }

  /**
   * `handle`. `failure` is the message of an exception the database raises
   * while counting, if it does. Below the limit the job is queued (and the
   * queueing committed) before the measurements are read, so null
   * measurements give an error result for a job that stays queued.
   */
  method Handle(jobId: nat, decision: DecisionResult, ledger: seq<Evidence>, job: Job?, maxPapers: int,
                failure: Option<string>)
    returns (r: HandlerResult)
    modifies job
    ensures failure.Some? ==> r == ErrorResult(failure.value) && (job != null ==> job.status == old(job.status))
    ensures failure.None? && job == null ==> r == NotFound(jobId)
    ensures failure.None? && job != null ==>
      (var count := PaperCount(ledger, jobId);
       var reason := Reason(decision.measurements);
       job.status == NextStatus(count, maxPapers)
       && (count >= maxPapers ==> r == MaxPapersResult(count, maxPapers))
       && (count < maxPapers && reason.Some? ==>
             r == HandlerResult("deferred", "Fetch task queued: " + reason.value, Some("show_status_update"),
                                FetchIntent(jobId, decision.decisionLabel, reason.value, count, maxPapers)))
       && (count < maxPapers && reason.None? ==> r == ErrorResult(NoneGetError)))
  {
    if failure.Some? {
      return ErrorResult(failure.value);
    }
    var count := PaperCount(ledger, jobId);
    if job == null {
      return NotFound(jobId);
    }
    if count >= maxPapers {
      job.SetStatus("COMPLETED");
      return MaxPapersResult(count, maxPapers);
    }
    job.SetStatus("FETCH_QUEUED");
    var reason := Reason(decision.measurements);
    if reason.None? {
      return ErrorResult(NoneGetError);
    }
    r := HandlerResult("deferred", "Fetch task queued: " + reason.value, Some("show_status_update"),
                       FetchIntent(jobId, decision.decisionLabel, reason.value, count, maxPapers));
  }

  /**
   * The handler and the strategic download gate agree on a job without
   * unprocessed papers: both complete it at the limit and queue it for
   * fetching below.
   */
  lemma AgreesWithDownloadGate(total: nat, maxPapers: int)
    ensures NextStatus(total, maxPapers) == SD.NextStatus(0, total, maxPapers)
  {
  }
}
