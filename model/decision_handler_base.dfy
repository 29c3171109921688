/**
 * What the decision handlers share: their structured result and the
 * job's paper ledger (`JobPaperEvidence` rows), which they only count.
 */
module DecisionHandlerBase {
  import opened Common

  /** The `data` a handler attaches to its result. */
  datatype Data =
    | NoData
    | StatusUpdate(undownloadedCount: nat, totalPapers: nat, maxPapers: int, finalStatus: string)
    | MaxPapersReached(currentPaperCount: nat, maxPapers: int, reason: string)
    | FetchIntent(jobId: nat, decisionLabel: Option<string>, reason: string, currentPaperCount: nat, maxPapers: int)

  /** `HandlerResult`: status is "ok", "error" or "deferred". */
  datatype HandlerResult = HandlerResult(status: string, message: string, nextAction: Option<string>, data: Data)

  /** A `JobPaperEvidence` row: the job it belongs to and whether the paper was processed. */
  datatype Evidence = Evidence(jobId: nat, evaluated: bool)

  /** The number of ledger rows of a job. */
  function PaperCount(ledger: seq<Evidence>, jobId: nat): nat
  {
    if ledger == [] then 0
    else PaperCount(ledger[..|ledger| - 1], jobId) + (if ledger[|ledger| - 1].jobId == jobId then 1 else 0)
  }

  /** The number of ledger rows of a job not yet evaluated. */
  function UnevaluatedCount(ledger: seq<Evidence>, jobId: nat): nat
  {
    if ledger == [] then 0
    else
      var e := ledger[|ledger| - 1];
      UnevaluatedCount(ledger[..|ledger| - 1], jobId) + (if e.jobId == jobId && !e.evaluated then 1 else 0)
  }

  /**
   * The unevaluated rows are some of the job's rows, and there are none
   * exactly when every row of the job was evaluated.
   */
  lemma {:induction false} CountsSpec(ledger: seq<Evidence>, jobId: nat)
    ensures UnevaluatedCount(ledger, jobId) <= PaperCount(ledger, jobId) <= |ledger|
    ensures UnevaluatedCount(ledger, jobId) == 0
      <==> forall i :: 0 <= i < |ledger| && ledger[i].jobId == jobId ==> ledger[i].evaluated
  {
    if ledger != [] {
      var p := ledger[..|ledger| - 1];
      CountsSpec(p, jobId);
      assert forall i :: 0 <= i < |p| ==> p[i] == ledger[i];
    }
  }

  /** The result for a job that does not exist. */
  function NotFound(jobId: nat): HandlerResult
  {
    HandlerResult("error", "Job " + NatToString(jobId) + " not found", Some("notify_user"), NoData)
  }

  /** The result for a job that reached the paper limit. */
  function MaxPapersResult(count: nat, maxPapers: int): HandlerResult
  {
    HandlerResult(
      "ok",
      "Maximum papers limit reached (" + NatToString(count) + "/" + IntToString(maxPapers) + "). Job completed.",
      Some("show_termination_reason"),
      MaxPapersReached(count, maxPapers, "System reached maximum number of papers for this job"))
  }
}
