/**
 * The strategic download gate: a job with unprocessed papers in its
 * ledger is queued for download; otherwise it completes at the paper
 * limit and is queued for fetching below it.
 */
module StrategicDownload {
  import opened Common
  import opened Jobs
  import opened DecisionHandlerBase

  /** The status the gate gives the job. */
  function NextStatus(undownloaded: nat, total: nat, maxPapers: int): (s: string)
  {
    if undownloaded > 0 then "DOWNLOAD_QUEUED"
    else if total >= maxPapers then "COMPLETED"
    else "FETCH_QUEUED"
  }

  /**
   * Unprocessed papers win over the paper limit; without them the job
   * completes exactly when the limit is reached and is otherwise queued
   * for fetching.
   */
  lemma NextStatusSpec(undownloaded: nat, total: nat, maxPapers: int)
    ensures var s := NextStatus(undownloaded, total, maxPapers);
      (s == "DOWNLOAD_QUEUED" <==> undownloaded > 0)
      && (s == "COMPLETED" <==> undownloaded == 0 && total >= maxPapers)
      && (s == "FETCH_QUEUED" <==> undownloaded == 0 && total < maxPapers)
  {
  }

  /** The result that goes with the status. */
  function GateResult(undownloaded: nat, total: nat, maxPapers: int): (r: HandlerResult)
  {
    var s := NextStatus(undownloaded, total, maxPapers);
    if s == "DOWNLOAD_QUEUED" then
      HandlerResult(
        "deferred",
        "Strategic Growth detected. Found " + NatToString(undownloaded) + " papers to extract. Marked DOWNLOAD_QUEUED.",
        Some("show_status_update"),
        StatusUpdate(undownloaded, total, maxPapers, s))
    else if s == "COMPLETED" then MaxPapersResult(total, maxPapers)
    else
      HandlerResult(
        "deferred",
        "Strategic Growth detected but no undownloaded papers in ledger. Falling back to FETCH_QUEUED (current: "
        + NatToString(total) + "/" + IntToString(maxPapers) + " papers)",
        Some("show_status_update"),
        StatusUpdate(undownloaded, total, maxPapers, s))
  }

  /**
   * A queued job gets a "deferred" result whose final status is the one
   * set; a completed job gets "ok" with the max-papers outcome.
   */
  lemma GateResultSpec(undownloaded: nat, total: nat, maxPapers: int)
    ensures var s, r := NextStatus(undownloaded, total, maxPapers), GateResult(undownloaded, total, maxPapers);
      (r.status == "deferred" <==> s != "COMPLETED")
      && (r.status == "ok" <==> s == "COMPLETED")
      && (s != "COMPLETED" ==> r.data.StatusUpdate? && r.data.finalStatus == s)
      && (s == "COMPLETED" ==> r.data == MaxPapersReached(total, maxPapers, r.data.reason))
  {
    var s, r := NextStatus(undownloaded, total, maxPapers), GateResult(undownloaded, total, maxPapers);
    assert "ok"[0] != "deferred"[0];
    if undownloaded > 0 {
      assert s == "DOWNLOAD_QUEUED" && s[0] != "COMPLETED"[0];
      assert r.status == "deferred";
    } else if total >= maxPapers {
      assert r.status == "ok";
    } else {
      assert s == "FETCH_QUEUED" && s[0] != "COMPLETED"[0];
      assert r.status == "deferred";
    }
  }

  /**
   * `handle`. `failure` is the message of an exception the database
   * raises while counting, if it does.
   */
  method Handle(jobId: nat, ledger: seq<Evidence>, job: Job?, maxPapers: int, failure: Option<string>)
    returns (r: HandlerResult)
    modifies job
    ensures failure.Some? ==>
      (r == HandlerResult("error", "StrategicDownloadHandler failed: " + failure.value, Some("notify_user"), NoData)
       && (job != null ==> job.status == old(job.status)))
    ensures failure.None? && job == null ==> r == NotFound(jobId)
    ensures failure.None? && job != null ==>
      (var u, t := UnevaluatedCount(ledger, jobId), PaperCount(ledger, jobId);
       job.status == NextStatus(u, t, maxPapers) && r == GateResult(u, t, maxPapers))
  {
    if failure.Some? {
      return HandlerResult("error", "StrategicDownloadHandler failed: " + failure.value, Some("notify_user"), NoData);
    }
    var undownloaded := UnevaluatedCount(ledger, jobId);
    var total := PaperCount(ledger, jobId);
    if job == null {
      return NotFound(jobId);
    }
    if undownloaded > 0 {
      job.SetStatus("DOWNLOAD_QUEUED");
    } else if total >= maxPapers {
      job.SetStatus("COMPLETED");
    } else {
      job.SetStatus("FETCH_QUEUED");
    }
    r := GateResult(undownloaded, total, maxPapers);
  }
}
