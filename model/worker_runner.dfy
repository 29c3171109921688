/**
 * The app's worker: one call handles the stage a job's status names,
 * writes the next status and puts the job back on the work queue; a loop
 * takes ids off the queue and runs a stage for each. The services, the
 * cache and the database reads a stage depends on are represented by
 * their outcomes (an `Env`), the queue by a sequence of job ids.
 */
module WorkerRunner {
  import opened Common
  import opened Jobs
  import ST = StageTasks

  // ---------------------------------------------------------------------
  // The status dispatch
  // ---------------------------------------------------------------------

  /** The branches of `process_job_stage`, in the order its tests run. */
  datatype Branch =
    | Ingesting | Extracting | Compressing | Sanitizing | Merging | Reasoning | Deciding
    | Evaluating | Fetching | Handling | Pausing | Finishing | Unknown

  /** The status that selects a branch. */
  function BranchStatus(b: Branch): Option<string>
  {
    match b
    case Ingesting => Some("READY_TO_INGEST")
    case Extracting => Some("INGESTED")
    case Compressing => Some("TRIPLES_EXTRACTED")
    case Sanitizing => Some("STRUCTURAL_GRAPH_BUILT")
    case Merging => Some("GRAPH_SANITIZED")
    case Reasoning => Some("GRAPH_SEMANTIC_MERGED")
    case Deciding => Some("PATH_REASONING_DONE")
    case Evaluating => Some("DECISION_MADE")
    case Fetching => Some("FETCH_QUEUED")
    case Handling => Some("RUNNING_HANDLERS")
    case Pausing => Some("NEED_MORE_INPUT")
    case Finishing => Some("DONE")
    case Unknown => None
  }

  /** The `if`/`elif` chain on `job.status`. */
  function BranchOf(status: string): Branch
  {
    if status == "READY_TO_INGEST" then Ingesting
    else if status == "INGESTED" then Extracting
    else if status == "TRIPLES_EXTRACTED" then Compressing
    else if status == "STRUCTURAL_GRAPH_BUILT" then Sanitizing
    else if status == "GRAPH_SANITIZED" then Merging
    else if status == "GRAPH_SEMANTIC_MERGED" then Reasoning
    else if status == "PATH_REASONING_DONE" then Deciding
    else if status == "DECISION_MADE" then Evaluating
    else if status == "FETCH_QUEUED" then Fetching
    else if status == "RUNNING_HANDLERS" then Handling
    else if status == "NEED_MORE_INPUT" then Pausing
    else if status == "DONE" then Finishing
    else Unknown
  }

  /** A status reaches a named branch exactly when it is that branch's status. */
  lemma BranchOfStatus(status: string)
    ensures BranchOf(status) != Unknown ==> BranchStatus(BranchOf(status)) == Some(status)
    ensures BranchOf(status) == Unknown ==> forall b :: b != Unknown ==> BranchStatus(b) != Some(status)
  {
    if BranchOf(status) == Unknown {
      forall b | b != Unknown ensures BranchStatus(b) != Some(status) {
        if BranchStatus(b) == Some(status) {
          BranchOfNamed(b);
        }
      }
    }
  }

  /** Every named branch is reached from its own status: the tests never shadow one another. */
  lemma BranchOfNamed(b: Branch)
    requires b != Unknown
    ensures BranchOf(BranchStatus(b).value) == b
  {
    if b.Ingesting? || b.Extracting? || b.Compressing? || b.Sanitizing? || b.Merging? || b.Reasoning? {
      BranchOfEarly(b);
    } else {
      BranchOfLate(b);
    }
  }

  /** The first six checks: each status differs from the ones compared before it. */
  lemma BranchOfEarly(b: Branch)
    requires b.Ingesting? || b.Extracting? || b.Compressing? || b.Sanitizing? || b.Merging? || b.Reasoning?
    ensures BranchOf(BranchStatus(b).value) == b
  {
    var s := BranchStatus(b).value;
    match b {
      case Ingesting =>
      case Extracting =>
        assert s[0] != 'R';
      case Compressing =>
        assert s[0] != 'R' && s[0] != 'I';
      case Sanitizing =>
        assert s[0] != 'R' && s[0] != 'I' && s[0] != 'T';
      case Merging =>
        assert s[0] != 'R' && s[0] != 'I' && s[0] != 'T' && s[0] != 'S';
      case Reasoning =>
        assert s[0] != 'R' && s[0] != 'I' && s[0] != 'T' && s[0] != 'S' && |s| != |"GRAPH_SANITIZED"|;
    }
  }

  /** The last six checks: each status differs from the ones compared before it. */
  lemma BranchOfLate(b: Branch)
    requires b.Deciding? || b.Evaluating? || b.Fetching? || b.Handling? || b.Pausing? || b.Finishing?
    ensures BranchOf(BranchStatus(b).value) == b
  {
    var s := BranchStatus(b).value;
    match b {
      case Deciding =>
        assert s[0] == 'P';
      case Evaluating =>
        assert s[0] == 'D';
      case Fetching =>
        assert s[0] == 'F';
      case Handling =>
        assert s[0] == 'R' && s[1] != "READY_TO_INGEST"[1];
      case Pausing =>
        assert s[0] == 'N';
      case Finishing =>
        assert s[0] == 'D' && s[1] != "DECISION_MADE"[1];
    }
  }

  // ---------------------------------------------------------------------
  // What a branch does
  // ---------------------------------------------------------------------

  /**
   * What a stage met: its service's exception message (`failure`), whether
   * the cached or persisted graph it loads was there (`graphFound`),
   * whether the semantic graph was persisted (`persisted`), whether the
   * job has a decision row (`decisionFound`), how many hypotheses passed
   * the filter and how many sources the fetch created (`passedCount`,
   * `sourcesCreated`), whether the fetched sources are ready
   * (`sourcesReady`) and the status the handlers left (`handlerStatus`).
   */
  datatype Env = Env(
    failure: Option<string>,
    graphFound: bool,
    persisted: bool,
    decisionFound: bool,
    passedCount: nat,
    sourcesCreated: nat,
    sourcesReady: bool,
    handlerStatus: Option<string>)

  /** A branch's effect: the status it writes (None: left as it was) and the id it queues. */
  datatype Effect = Effect(write: Option<string>, requeue: Option<int>)

  const NoEffect := Effect(None, None)

  /** A status written without queueing anything. */
  function Stop(status: string): Effect { Effect(Some(status), None) }

  /** A status written, then the job queued again. */
  function Advance(status: string, id: int): Effect { Effect(Some(status), Some(id)) }

  /**
   * The effect of each branch. A raising service leaves the status as it
   * was, except in ingestion and fetching, where it marks the job FAILED;
   * a missing graph marks it FAILED, except before the handlers, which run
   * on an empty graph. The runner writes no status after the handlers: the
   * one they wrote stands.
   */
  function BranchEffect(b: Branch, jobId: int, env: Env): Effect
  {
    match b
    case Ingesting => if env.failure.None? then Advance("INGESTED", jobId) else Stop("FAILED")
    case Extracting => if env.failure.None? then Advance("TRIPLES_EXTRACTED", jobId) else NoEffect
    case Compressing => if env.failure.None? then Advance("STRUCTURAL_GRAPH_BUILT", jobId) else NoEffect
    case Sanitizing =>
      if !env.graphFound then Stop("FAILED")
      else if env.failure.Some? then NoEffect
      else Advance("GRAPH_SANITIZED", jobId)
    case Merging =>
      if !env.graphFound then Stop("FAILED")
      else if env.failure.Some? then NoEffect
      else if !env.persisted then Stop("FAILED")
      else Advance("GRAPH_SEMANTIC_MERGED", jobId)
    case Reasoning =>
      if !env.graphFound then Stop("FAILED")
      else if env.failure.Some? then NoEffect
      else Advance("PATH_REASONING_DONE", 6)
    case Deciding =>
      if !env.graphFound then Stop("FAILED")
      else if env.failure.Some? then NoEffect
      else Advance("DECISION_MADE", jobId)
    case Evaluating =>
      if !env.decisionFound || env.failure.Some? then NoEffect
      else Advance("RUNNING_HANDLERS", jobId)
    case Fetching =>
      if !env.graphFound then Stop("FAILED")
      else if env.passedCount == 0 then Stop("GRAPH_SEMANTIC_MERGED")
      else if env.failure.Some? then Stop("FAILED")
      else if env.sourcesCreated == 0 then Stop("DECISION_MADE")
      else if env.sourcesReady then Advance("READY_TO_INGEST", jobId)
      else NoEffect
    case Handling =>
      if !env.decisionFound || env.failure.Some? then NoEffect
      else Effect(env.handlerStatus, Some(jobId))
    case Pausing => NoEffect
    case Finishing => NoEffect
    case Unknown => NoEffect
  }

  /** `process_job_stage` on a job's status; a missing job (None) is left alone. */
  function StageEffect(status: Option<string>, jobId: int, env: Env): Effect
  {
    if status.None? then NoEffect else BranchEffect(BranchOf(status.value), jobId, env)
  }

  /** A missing job, a paused job, a finished job and an unknown status are left alone. */
  lemma LeftAlone(status: Option<string>, jobId: int, env: Env)
    requires status.None? || status == Some("NEED_MORE_INPUT") || status == Some("DONE")
      || (status.Some? && BranchOf(status.value) == Unknown)
    ensures StageEffect(status, jobId, env) == NoEffect
  {
    if status == Some("NEED_MORE_INPUT") {
      BranchOfNamed(Pausing);
    } else if status == Some("DONE") {
      BranchOfNamed(Finishing);
    }
  }

  /** Ingestion ends INGESTED (and queued again) or FAILED, by whether the service raised. */
  lemma IngestionOutcome(jobId: int, env: Env)
    ensures StageEffect(Some("READY_TO_INGEST"), jobId, env) ==
      if env.failure.None? then Advance("INGESTED", jobId) else Stop("FAILED")
  {
  }

  /**
   * After a graph was found, a raising service leaves the status of the
   * extracting, compressing, sanitizing, merging, reasoning and deciding
   * branches unchanged and queues nothing; fetching marks the job FAILED.
   */
  lemma RaisingKeepsStatus(b: Branch, jobId: int, env: Env)
    requires b in {Extracting, Compressing, Sanitizing, Merging, Reasoning, Deciding}
    requires env.graphFound && env.failure.Some?
    ensures BranchEffect(b, jobId, env) == NoEffect
    ensures env.passedCount > 0 ==> BranchEffect(Fetching, jobId, env) == Stop("FAILED")
  {
  }

  /** A graph missing from the cache or the database marks the job FAILED and queues nothing. */
  lemma MissingGraphFails(b: Branch, jobId: int, env: Env)
    requires b in {Sanitizing, Merging, Reasoning, Deciding, Fetching}
    requires !env.graphFound
    ensures BranchEffect(b, jobId, env) == Stop("FAILED")
  {
  }

  /**
   * Fetching with the graph found and no exception: no passed hypothesis
   * goes back to GRAPH_SEMANTIC_MERGED, no source created to DECISION_MADE,
   * ready sources to READY_TO_INGEST with the job queued, and unready ones
   * keep FETCH_QUEUED.
   */
  lemma FetchRouting(jobId: int, env: Env)
    requires env.graphFound
    ensures var e := StageEffect(Some("FETCH_QUEUED"), jobId, env);
      && (env.passedCount == 0 ==> e == Stop("GRAPH_SEMANTIC_MERGED"))
      && (env.passedCount > 0 && env.failure.None? && env.sourcesCreated == 0 ==> e == Stop("DECISION_MADE"))
      && (env.passedCount > 0 && env.failure.None? && env.sourcesCreated > 0 ==>
            e == (if env.sourcesReady then Advance("READY_TO_INGEST", jobId) else NoEffect))
  {
    BranchOfNamed(Fetching);
  }

  /**
   * Running the handlers: without a decision row, or when they raise, the
   * job is left alone; otherwise the status they wrote stands and the job
   * is queued again, even when it is a paused or final status.
   */
  lemma HandlingOutcome(jobId: int, env: Env)
    ensures var e := StageEffect(Some("RUNNING_HANDLERS"), jobId, env);
      && (!env.decisionFound || env.failure.Some? ==> e == NoEffect)
      && (env.decisionFound && env.failure.None? ==> e.write == env.handlerStatus && e.requeue == Some(jobId))
  {
    BranchOfNamed(Handling);
  }

  /** Path reasoning queues job 6, whichever job it ran for. */
  lemma ReasoningQueuesSix(jobId: int, env: Env)
    requires env.graphFound && env.failure.None?
    ensures StageEffect(Some("GRAPH_SEMANTIC_MERGED"), jobId, env) == Advance("PATH_REASONING_DONE", 6)
  {
    BranchOfNamed(Reasoning);
  }

  /**
   * On success the runner moves a job along the same statuses as the
   * chained tasks: from each input status of the main line, from INGESTED
   * to DECISION_MADE, it writes the output status the matching task writes.
   */
  lemma AgreesWithStageTasks(i: nat, jobId: int, env: Env)
    requires 1 <= i <= 7
    requires env.graphFound && env.failure.None? && env.persisted && env.decisionFound
    ensures StageEffect(ST.InputStatus(ST.MainLine[i]), jobId, env).write == ST.OutputStatus(ST.MainLine[i])
  {
    var stage := ST.MainLine[i];
    if i == 1 { AgreesAt(stage, Extracting, jobId, env); }
    else if i == 2 { AgreesAt(stage, Compressing, jobId, env); }
    else if i == 3 { AgreesAt(stage, Sanitizing, jobId, env); }
    else if i == 4 { AgreesAt(stage, Merging, jobId, env); }
    else if i == 5 { AgreesAt(stage, Reasoning, jobId, env); }
    else if i == 6 { AgreesAt(stage, Deciding, jobId, env); }
    else { AgreesAt(stage, Evaluating, jobId, env); }
  }

  /** A stage whose input status selects branch `b`, which writes the stage's output status. */
  lemma AgreesAt(stage: ST.Stage, b: Branch, jobId: int, env: Env)
    requires b != Unknown && ST.InputStatus(stage) == BranchStatus(b)
    requires BranchEffect(b, jobId, env).write == ST.OutputStatus(stage)
    ensures StageEffect(ST.InputStatus(stage), jobId, env).write == ST.OutputStatus(stage)
  {
    BranchOfNamed(b);
  }

  // ---------------------------------------------------------------------
  // The worker
  // ---------------------------------------------------------------------

  /** The job's status, None when there is no job. */
  function StatusOf(job: Job?): Option<string>
    reads job
  {
    if job == null then None else Some(job.status)
  }

  /** A job's status after an effect. */
  function After(status: string, e: Effect): string
  {
    if e.write.Some? then e.write.value else status
  }

  /** What an effect queues. */
  function Queued(e: Effect): seq<int>
  {
    if e.requeue.Some? then [e.requeue.value] else []
  }

  /** `start_worker` run for a bounded number of turns: job 1's status and the queue afterwards. */
  function Turns(status: Option<string>, queue: seq<int>, envs: seq<Env>): (r: (Option<string>, seq<int>))
    ensures status.None? ==> r.0.None?
    decreases |envs|
  {
    if envs == [] || queue == [] then (status, queue)
    else
      var e := StageEffect(status, 1, envs[0]);
      var next := if status.Some? then Some(After(status.value, e)) else None;
      Turns(next, queue[1..] + Queued(e), envs[1..])
  }

  /** One turn of `Turns`: the stage runs on the status and the queue loses its head. */
  lemma TurnsStep(status: Option<string>, queue: seq<int>, envs: seq<Env>)
    requires envs != [] && queue != []
    ensures var e := StageEffect(status, 1, envs[0]);
      Turns(status, queue, envs)
        == Turns(if status.Some? then Some(After(status.value, e)) else None, queue[1..] + Queued(e), envs[1..])
  {
  }

  /** The worker process: the work queue it reads and writes. */
  class Worker {
    var queue: seq<int>

    constructor()
      ensures queue == []
    {
      queue := [];
    }

    /** `process_job_stage(job_id)`; `job` is the job's row, or null. */
    method ProcessJobStage(jobId: int, job: Job?, env: Env)
      modifies this, job
      ensures var e := StageEffect(old(StatusOf(job)), jobId, env);
        && (job != null ==> job.status == After(old(job.status), e))
        && queue == old(queue) + Queued(e)
    {
      if job == null {
        return;
      }
      var e := BranchEffect(BranchOf(job.status), jobId, env);
      if e.write.Some? {
        job.SetStatus(e.write.value);
      }
      if e.requeue.Some? {
        queue := queue + [e.requeue.value];
      }
    }

    /**
     * `start_worker`: job 1 is queued, then each turn takes the next id off
     * the queue and runs a stage of job 1, whatever the id was. `job1` is
     * job 1's row and `envs` what each turn's stage meets; the loop ends
     * when the turns run out, or the queue is empty (where `get` would
     * block).
     */
    method StartWorker(job1: Job?, envs: seq<Env>)
      modifies this, job1
      ensures var r := Turns(old(StatusOf(job1)), old(queue) + [1], envs);
        && (job1 != null ==> Some(job1.status) == r.0)
        && queue == r.1
    {
      ghost var target := Turns(StatusOf(job1), queue + [1], envs);
      queue := queue + [1];
      var i := 0;
      while i < |envs| && queue != []
        invariant 0 <= i <= |envs|
        invariant target == Turns(StatusOf(job1), queue, envs[i..])
        decreases |envs| - i
      {
        Turn(job1, envs, i);
        i := i + 1;
      }
    }

    /** One turn of `start_worker`: take the next id off the queue and run a stage of job 1. */
    method Turn(job1: Job?, envs: seq<Env>, i: nat)
      requires i < |envs| && queue != []
      modifies this, job1
      ensures Turns(StatusOf(job1), queue, envs[i + 1..]) == old(Turns(StatusOf(job1), queue, envs[i..]))
    {
      TurnsStep(StatusOf(job1), queue, envs[i..]);
      assert envs[i..][1..] == envs[i + 1..];
      queue := queue[1..];
      ProcessJobStage(1, job1, envs[i]);
    }
  }

  /** Every id the worker queues is the job's own or 6. */
  lemma QueuedIds(status: Option<string>, jobId: int, env: Env)
    ensures forall id :: id in Queued(StageEffect(status, jobId, env)) ==> id == jobId || id == 6
  {
  }
}
