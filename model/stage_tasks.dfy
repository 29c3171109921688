/**
 * The back end's pipeline as chained tasks. Each task handles one stage of
 * a job: it checks that the job is in the stage's input status, runs the
 * stage's service, writes the stage's output status and schedules the next
 * task. The services, the broker of tasks and the database are outside the
 * model: a service is represented by whether it raised (and with what
 * message), the broker by the list of scheduled tasks, and the rows a task
 * reads or writes by sequences and objects.
 */
module StageTasks {
  import opened Common
  import opened Jobs
  import opened SignalEvaluation
  import opened SignalStore
  import opened SignalApplier

  // ---------------------------------------------------------------------
  // Stages and their statuses
  // ---------------------------------------------------------------------

  /** The stages that run on a job once its text has been extracted. */
  datatype Stage =
    | Ingest | Triples | StructuralGraph | Sanitization | SemanticMerging
    | PathReasoning | Decision | SignalEvaluation | Handlers | Fetch | Download

  /** The status a stage's guard demands; ingestion has no guard. */
  function InputStatus(s: Stage): Option<string>
  {
    match s
    case Ingest => None
    case Triples => Some("INGESTED")
    case StructuralGraph => Some("TRIPLES_EXTRACTED")
    case Sanitization => Some("STRUCTURAL_GRAPH_BUILT")
    case SemanticMerging => Some("GRAPH_SANITIZED")
    case PathReasoning => Some("GRAPH_SEMANTIC_MERGED")
    case Decision => Some("PATH_REASONING_DONE")
    case SignalEvaluation => Some("DECISION_MADE")
    case Handlers => Some("RUNNING_HANDLERS")
    case Fetch => Some("FETCH_QUEUED")
    case Download => Some("DOWNLOAD_QUEUED")
  }

  /** The status a successful stage writes; handlers and fetch decide theirs. */
  function OutputStatus(s: Stage): Option<string>
  {
    match s
    case Ingest => Some("INGESTED")
    case Triples => Some("TRIPLES_EXTRACTED")
    case StructuralGraph => Some("STRUCTURAL_GRAPH_BUILT")
    case Sanitization => Some("GRAPH_SANITIZED")
    case SemanticMerging => Some("GRAPH_SEMANTIC_MERGED")
    case PathReasoning => Some("PATH_REASONING_DONE")
    case Decision => Some("DECISION_MADE")
    case SignalEvaluation => Some("RUNNING_HANDLERS")
    case Handlers => None
    case Fetch => None
    case Download => Some("READY_TO_INGEST")
  }

  /** The next task a successful stage chains; handlers and fetch decide theirs. */
  function Successor(s: Stage): Option<Stage>
  {
    match s
    case Ingest => Some(Triples)
    case Triples => Some(StructuralGraph)
    case StructuralGraph => Some(Sanitization)
    case Sanitization => Some(SemanticMerging)
    case SemanticMerging => Some(PathReasoning)
    case PathReasoning => Some(Decision)
    case Decision => Some(SignalEvaluation)
    case SignalEvaluation => Some(Handlers)
    case Handlers => None
    case Fetch => None
    case Download => Some(Ingest)
  }

  /** The cached or persisted graph a stage loads first, and the error when it is missing. */
  function MissingGraphError(s: Stage): Option<string>
  {
    match s
    case Sanitization => Some("Structural graph not found in cache")
    case SemanticMerging => Some("Sanitized graph not found in cache")
    case PathReasoning => Some("Semantic graph not found for reasoning")
    case Fetch => Some("Semantic graph missing for fetch")
    case _ => None
  }

  /** The stages whose task is a guard, one service call and a fixed transition. */
  predicate Linear(s: Stage)
  {
    s.Triples? || s.StructuralGraph? || s.Sanitization? || s.SemanticMerging?
    || s.PathReasoning? || s.Decision? || s.SignalEvaluation? || s.Download?
  }

  /** The main line of the pipeline, from ingestion to the handlers. */
  const MainLine: seq<Stage> :=
    [Ingest, Triples, StructuralGraph, Sanitization, SemanticMerging, PathReasoning, Decision, SignalEvaluation, Handlers]

  /**
   * Along the main line each stage chains the next one and writes exactly
   * the status the next one's guard demands, so successful stages carry a
   * job from INGESTED to RUNNING_HANDLERS one status at a time; a download
   * leads back to ingestion through READY_TO_INGEST.
   */
  lemma MainLineChains()
    ensures forall i :: 0 <= i < |MainLine| - 1 ==>
      Successor(MainLine[i]) == Some(MainLine[i + 1]) && OutputStatus(MainLine[i]) == InputStatus(MainLine[i + 1])
    ensures OutputStatus(MainLine[0]) == Some("INGESTED")
    ensures OutputStatus(MainLine[|MainLine| - 2]) == Some("RUNNING_HANDLERS")
    ensures Successor(Download) == Some(Ingest) && OutputStatus(Download) == Some("READY_TO_INGEST")
  {
    forall i | 0 <= i < |MainLine| - 1
      ensures Successor(MainLine[i]) == Some(MainLine[i + 1]) && OutputStatus(MainLine[i]) == InputStatus(MainLine[i + 1])
    {
      if i == 0 {} else if i == 1 {} else if i == 2 {} else if i == 3 {}
      else if i == 4 {} else if i == 5 {} else if i == 6 {} else {}
    }
  }

  /** No two guarded stages demand the same status: a job is ready for at most one of them. */
  lemma GuardsDistinct(a: Stage, b: Stage)
    requires InputStatus(a).Some? && InputStatus(a) == InputStatus(b)
    ensures a == b
  {
    var x, y := InputStatus(a).value, InputStatus(b).value;
    assert x[0] == y[0] && |x| == |y|;
    if a.SemanticMerging? || a.PathReasoning? {
      assert x[7] == y[7];
    }
    if a.SignalEvaluation? || a.Download? {
      assert x[1] == y[1];
    }
  }

  // ---------------------------------------------------------------------
  // What a task does
  // ---------------------------------------------------------------------

  /** How a task ended: it returned early, finished, or raised (and is retried). */
  datatype TaskOutcome = Skipped | Completed | Raised(error: string)

  /**
   * A task's effect on its job: the status it writes (None: the status is
   * left as it was), the next task it chains, and how it ended.
   */
  datatype Effect = Effect(write: Option<string>, next: Option<Stage>, outcome: TaskOutcome)

  /** Nothing written, nothing chained. */
  const Untouched := Effect(None, None, Skipped)

  /** A job's status after an effect. */
  function After(status: string, e: Effect): string
  {
    if e.write.Some? then e.write.value else status
  }

  /**
   * A linear stage. `status` is the job's status, None when the job does
   * not exist; `graphFound` says whether the graph the stage loads first
   * is there; `failure` is the message of the stage's service when it raised.
   */
  function LinearEffect(s: Stage, status: Option<string>, graphFound: bool, failure: Option<string>): Effect
    requires Linear(s)
  {
    if status.None? || status != InputStatus(s) then Untouched
    else if !graphFound && MissingGraphError(s).Some? then Effect(None, None, Raised(MissingGraphError(s).value))
    else if failure.Some? then Effect(None, None, Raised(failure.value))
    else Effect(OutputStatus(s), Successor(s), Completed)
  }

  /**
   * A linear stage writes a status only to a job in its input status, and
   * then exactly its output status, chaining its successor; a job in any
   * other status, or a missing one, is left alone with nothing chained; a
   * raising service leaves the status for the retry.
   */
  lemma LinearEffectSpec(s: Stage, status: Option<string>, graphFound: bool, failure: Option<string>)
    requires Linear(s)
    ensures var e := LinearEffect(s, status, graphFound, failure);
      && (e.write.Some? <==> status == InputStatus(s) && (graphFound || MissingGraphError(s).None?) && failure.None?)
      && (e.write.Some? ==> e.write == OutputStatus(s) && e.next == Successor(s) && e.outcome == Completed)
      && (e.write.None? ==> e.next.None?)
      && (status != InputStatus(s) ==> e == Untouched)
      && (e.outcome.Raised? <==> status == InputStatus(s) && (e.write.None?))
  {
  }

  /**
   * Ingestion has no status guard. A raising ingestion marks the job
   * FAILED only once its retries are used up.
   */
  function IngestEffect(status: Option<string>, failure: Option<string>, retries: nat, maxRetries: nat): (e: Effect)
    ensures e.write.Some? ==> e.write == Some("INGESTED") || e.write == Some("FAILED")
  {
    if status.None? then Untouched
    else if failure.None? then Effect(Some("INGESTED"), Some(Triples), Completed)
    else Effect(if retries >= maxRetries then Some("FAILED") else None, None, Raised(failure.value))
  }

  /** FAILED is written exactly when ingestion raised on its last allowed attempt. */
  lemma IngestFailsOnlyWhenExhausted(status: Option<string>, failure: Option<string>, retries: nat, maxRetries: nat)
    ensures var e := IngestEffect(status, failure, retries, maxRetries);
      (e.write == Some("FAILED") <==> status.Some? && failure.Some? && retries >= maxRetries)
      && (e.write == Some("INGESTED") <==> status.Some? && failure.None?)
  {
    assert "FAILED"[0] != "INGESTED"[0];
  }

  /** The unprocessed fetched sources of a job are what the fetch check counts. */
  datatype Source = Source(jobId: int, sourceType: string, sourceRef: string, rawText: string, processed: bool)

  /** A source the fetch check counts: this job's, not yet processed, of a fetched type. */
  predicate FetchedPending(src: Source, jobId: int)
  {
    src.jobId == jobId && !src.processed && src.sourceType in {"paper_abstract", "api_text"}
  }

  /** The count the readiness query returns. */
  function CountFetchedPending(sources: seq<Source>, jobId: int): (n: nat)
    ensures n <= |sources|
  {
    if sources == [] then 0
    else CountFetchedPending(sources[..|sources| - 1], jobId)
         + (if FetchedPending(sources[|sources| - 1], jobId) then 1 else 0)
  }

  /** `verify_fetch_sources_ready` */
  predicate SourcesReady(sources: seq<Source>, jobId: int)
  {
    CountFetchedPending(sources, jobId) > 0
  }

  /** Ready exactly when some unprocessed abstract or API source of the job exists. */
  lemma {:induction false} SourcesReadySpec(sources: seq<Source>, jobId: int)
    ensures SourcesReady(sources, jobId) <==> exists src :: src in sources && FetchedPending(src, jobId)
  {
    if sources != [] {
      var pre := sources[..|sources| - 1];
      SourcesReadySpec(pre, jobId);
      assert sources == pre + [sources[|sources| - 1]];
      if SourcesReady(pre, jobId) {
        var src :| src in pre && FetchedPending(src, jobId);
        assert src in sources;
      }
      if !FetchedPending(sources[|sources| - 1], jobId) {
        forall src | src in sources && FetchedPending(src, jobId) ensures src in pre {
        }
      }
    }
  }

  /**
   * The fetch stage. After the fetch service ran, a job with fetched
   * sources waiting goes back to ingestion; otherwise it goes back to the
   * decision stage to reconsider.
   */
  function FetchEffect(status: Option<string>, graphFound: bool, failure: Option<string>,
                       sources: seq<Source>, jobId: int): Effect
  {
    if status != Some("FETCH_QUEUED") then Untouched
    else if !graphFound then Effect(None, None, Raised("Semantic graph missing for fetch"))
    else if failure.Some? then Effect(None, None, Raised(failure.value))
    else if SourcesReady(sources, jobId) then Effect(Some("READY_TO_INGEST"), Some(Ingest), Completed)
    else Effect(Some("PATH_REASONING_DONE"), Some(Decision), Completed)
  }

  /**
   * A completed fetch leaves the job either READY_TO_INGEST with ingestion
   * chained, exactly when fetched sources are waiting, or
   * PATH_REASONING_DONE with the decision chained.
   */
  lemma FetchEffectSpec(status: Option<string>, graphFound: bool, failure: Option<string>,
                        sources: seq<Source>, jobId: int)
    ensures var e := FetchEffect(status, graphFound, failure, sources, jobId);
      && (status != Some("FETCH_QUEUED") ==> e == Untouched)
      && (e.outcome == Completed <==> status == Some("FETCH_QUEUED") && graphFound && failure.None?)
      && (e.outcome == Completed ==>
            ((e.write == Some("READY_TO_INGEST") && e.next == Some(Ingest))
             <==> (exists src :: src in sources && FetchedPending(src, jobId))))
      && (e.outcome == Completed && !(exists src :: src in sources && FetchedPending(src, jobId)) ==>
            e.write == Some("PATH_REASONING_DONE") && e.next == Some(Decision))
      && (e.outcome != Completed ==> e.write.None? && e.next.None?)
  {
    SourcesReadySpec(sources, jobId);
  }

  /** What the handler stage does after the handler ran, by the job's new status. */
  datatype Route = ChainFetch | ChainDownload | Paused | Unhandled

  /** The statuses in which the job waits without a next task. */
  predicate PauseStatus(status: string)
  {
    status == "COMPLETED" || status == "WAITING_FOR_USER" || status == "NEEDS_EXPERT_REVIEW"
    || status == "NEED_MORE_INPUT" || status == "MANUAL_REVIEW"
  }

  /** The routing on the status the handler left. */
  function RouteOf(status: string): Route
  {
    if status == "FETCH_QUEUED" then ChainFetch
    else if status == "DOWNLOAD_QUEUED" then ChainDownload
    else if PauseStatus(status) then Paused
    else Unhandled
  }

  /** The next task a route chains. */
  function RouteNext(r: Route): Option<Stage>
  {
    match r
    case ChainFetch => Some(Fetch)
    case ChainDownload => Some(Download)
    case _ => None
  }

  /**
   * FETCH_QUEUED chains the fetch and DOWNLOAD_QUEUED the download; the
   * five waiting statuses chain nothing; any other status halts the chain.
   */
  lemma RouteSpec(status: string)
    ensures RouteNext(RouteOf(status)) == Some(Fetch) <==> status == "FETCH_QUEUED"
    ensures RouteNext(RouteOf(status)) == Some(Download) <==> status == "DOWNLOAD_QUEUED"
    ensures PauseStatus(status) ==> RouteOf(status) == Paused
    ensures RouteOf(status) == Unhandled <==>
      status != "FETCH_QUEUED" && status != "DOWNLOAD_QUEUED" && !PauseStatus(status)
  {
    if PauseStatus(status) {
      assert status[0] != 'F' && status[0] != 'D';
    }
  }

  /**
   * The handler stage. `decisionFound` says whether the job has a decision
   * row; `handled` is the status the handler left the job in, or the
   * message it raised with.
   */
  function HandlersEffect(status: Option<string>, decisionFound: bool, handled: Outcome<string>): Effect
  {
    if status != Some("RUNNING_HANDLERS") || !decisionFound then Untouched
    else if handled.Failure? then Effect(None, None, Raised(handled.error))
    else Effect(Some(handled.value), RouteNext(RouteOf(handled.value)), Completed)
  }

  /** `mark_ready_stage`: READY_TO_INGEST for an existing job; ingestion is chained in any case. */
  function MarkReadyEffect(status: Option<string>): (e: Effect)
    ensures e.next == Some(Ingest)
    ensures e.write.Some? <==> status.Some?
    ensures e.write.Some? ==> e.write.value == "READY_TO_INGEST"
  {
    Effect(if status.Some? then Some("READY_TO_INGEST") else None, Some(Ingest), Completed)
  }

  // ---------------------------------------------------------------------
  // Stage tasks, on the job row and the broker
  // ---------------------------------------------------------------------

  /** A scheduled task: `stage.delay(job_id)`. */
  datatype Task = Task(stage: Stage, jobId: int)

  /** The broker: every task scheduled so far, in order. */
  class Broker {
    var scheduled: seq<Task>

    constructor()
      ensures scheduled == []
    {
      scheduled := [];
    }

    /** `.delay(job_id)` */
    method Delay(t: Task)
      modifies this
      ensures scheduled == old(scheduled) + [t]
    {
      scheduled := scheduled + [t];
    }
  }

  /** Every task an effect schedules for a job. */
  function Chained(e: Effect, jobId: int): seq<Task>
  {
    if e.next.Some? then [Task(e.next.value, jobId)] else []
  }

  /** The job's status, None when there is no job. */
  function StatusOf(job: Job?): Option<string>
    reads job
  {
    if job == null then None else Some(job.status)
  }

  /** Carries out an effect on the job and the broker. */
  method Apply(e: Effect, jobId: int, job: Job?, broker: Broker)
    requires e.write.Some? ==> job != null
    modifies job, broker
    ensures job != null ==> job.status == After(old(job.status), e)
    ensures broker.scheduled == old(broker.scheduled) + Chained(e, jobId)
  {
    if e.write.Some? {
      job.SetStatus(e.write.value);
    }
    if e.next.Some? {
      broker.Delay(Task(e.next.value, jobId));
    }
  }

  /**
   * The linear tasks: `triple_stage`, `structural_graph_stage`,
   * `sanitization_stage`, `semantic_merging_stage`, `path_reasoning_stage`,
   * `decision_stage` and `download_stage` (and the transition of
   * `signal_evaluation_stage`, whose signal work is SignalStage below).
   */
  method RunLinear(s: Stage, jobId: int, job: Job?, graphFound: bool, failure: Option<string>, broker: Broker)
    returns (outcome: TaskOutcome)
    requires Linear(s)
    modifies job, broker
    ensures var e := LinearEffect(s, old(StatusOf(job)), graphFound, failure);
      && outcome == e.outcome
      && (job != null ==> job.status == After(old(job.status), e))
      && broker.scheduled == old(broker.scheduled) + Chained(e, jobId)
  {
    var e := LinearEffect(s, StatusOf(job), graphFound, failure);
    Apply(e, jobId, job, broker);
    outcome := e.outcome;
  }

  /** `ingest_stage`, on its `retries`-th attempt out of `maxRetries`. */
  method RunIngest(jobId: int, job: Job?, failure: Option<string>, retries: nat, maxRetries: nat, broker: Broker)
    returns (outcome: TaskOutcome)
    modifies job, broker
    ensures var e := IngestEffect(old(StatusOf(job)), failure, retries, maxRetries);
      && outcome == e.outcome
      && (job != null ==> job.status == After(old(job.status), e))
      && broker.scheduled == old(broker.scheduled) + Chained(e, jobId)
  {
    var e := IngestEffect(StatusOf(job), failure, retries, maxRetries);
    Apply(e, jobId, job, broker);
    outcome := e.outcome;
  }

  /** `fetch_stage`; `sources` is the source table after the fetch service ran. */
  method RunFetch(jobId: int, job: Job?, graphFound: bool, failure: Option<string>, sources: seq<Source>, broker: Broker)
    returns (outcome: TaskOutcome)
    modifies job, broker
    ensures var e := FetchEffect(old(StatusOf(job)), graphFound, failure, sources, jobId);
      && outcome == e.outcome
      && (job != null ==> job.status == After(old(job.status), e))
      && broker.scheduled == old(broker.scheduled) + Chained(e, jobId)
  {
    var e := FetchEffect(StatusOf(job), graphFound, failure, sources, jobId);
    Apply(e, jobId, job, broker);
    outcome := e.outcome;
  }

  /** `handler_execution_stage` */
  method RunHandlers(jobId: int, job: Job?, decisionFound: bool, handled: Outcome<string>, broker: Broker)
    returns (outcome: TaskOutcome)
    modifies job, broker
    ensures var e := HandlersEffect(old(StatusOf(job)), decisionFound, handled);
      && outcome == e.outcome
      && (job != null ==> job.status == After(old(job.status), e))
      && broker.scheduled == old(broker.scheduled) + Chained(e, jobId)
  {
    var e := HandlersEffect(StatusOf(job), decisionFound, handled);
    Apply(e, jobId, job, broker);
    outcome := e.outcome;
  }

  /** `mark_ready_stage` */
  method MarkReady(jobId: int, job: Job?, broker: Broker)
    modifies job, broker
    ensures job != null ==> job.status == "READY_TO_INGEST"
    ensures broker.scheduled == old(broker.scheduled) + [Task(Ingest, jobId)]
  {
    var e := MarkReadyEffect(StatusOf(job));
    Apply(e, jobId, job, broker);
  }

  // ---------------------------------------------------------------------
  // Extraction and classification, on their tables
  // ---------------------------------------------------------------------

  /** A `ConversationMessage` row. */
  datatype Message = Message(jobId: int, role: string, messageType: string, content: string)

  /** The rows the extraction and classification tasks add. */
  class Store {
    var sources: seq<Source>
    var messages: seq<Message>

    constructor()
      ensures sources == [] && messages == []
    {
      sources := [];
      messages := [];
    }

    /**
     * `extract_stage`. `fileFound` says whether the file row exists and
     * `extracted` is the extractor's text or the message it raised with.
     * Non-blank text becomes one unprocessed PDF source named after the
     * file; blank text adds nothing.
     */
    method Extract(jobId: int, fileId: int, fileFound: bool, extracted: Outcome<string>)
      returns (outcome: TaskOutcome)
      modifies this
      ensures messages == old(messages)
      ensures outcome == Completed <==> fileFound && extracted.Success? && Strip(extracted.value) != ""
      ensures outcome == Completed ==>
        sources == old(sources) + [Source(jobId, "pdf_text", "file:" + IntToString(fileId), extracted.value, false)]
      ensures outcome != Completed ==> sources == old(sources)
      ensures outcome.Raised? <==> fileFound && extracted.Failure?
    {
      if !fileFound {
        return Skipped;
      }
      if extracted.Failure? {
        return Raised(extracted.error);
      }
      var text := extracted.value;
      if Strip(text) == "" {
        return Skipped;
      }
      sources := sources + [Source(jobId, "pdf_text", "file:" + IntToString(fileId), text, false)];
      outcome := Completed;
    }

    /**
     * `classify_stage`: the stripped message is stored as a text message
     * and classified; `classified` is the classifier's label or the message
     * it raised with, which rolls the stored message back. Message ids are
     * row numbers from 1.
     */
    method Classify(jobId: int, text: string, role: string, classified: Outcome<string>)
      returns (result: Outcome<(nat, string)>)
      modifies this
      ensures sources == old(sources)
      ensures classified.Failure? ==> messages == old(messages) && result == Failure(classified.error)
      ensures classified.Success? ==>
        && messages == old(messages) + [Message(jobId, role, "text", Strip(text))]
        && result == Success((|messages|, classified.value))
    {
      if classified.Failure? {
        return Failure(classified.error);
      }
      messages := messages + [Message(jobId, role, "text", Strip(text))];
      result := Success((|messages|, classified.value));
    }
  }

  // ---------------------------------------------------------------------
  // Signal evaluation
  // ---------------------------------------------------------------------

  /** A `DecisionResult` row: its job, creation time and measurements. */
  datatype DecisionRecord = DecisionRecord(jobId: int, createdAt: int, measurements: Option<Snapshot>)

  /** A decision of the job, created strictly before `bound` when a bound is given. */
  predicate Before(d: DecisionRecord, jobId: int, bound: Option<int>)
  {
    d.jobId == jobId && (bound.None? || d.createdAt < bound.value)
  }

  /**
   * The job's latest decision (before `bound`): the query ordered by
   * creation time, newest first, and its first row. Among rows created at
   * the same time the earliest in the table is taken.
   */
  function Latest(records: seq<DecisionRecord>, jobId: int, bound: Option<int>): (r: Option<DecisionRecord>)
    ensures r.None? <==> forall d :: d in records ==> !Before(d, jobId, bound)
    ensures r.Some? ==> r.value in records && Before(r.value, jobId, bound)
    ensures r.Some? ==> forall d :: d in records && Before(d, jobId, bound) ==> d.createdAt <= r.value.createdAt
  {
    if records == [] then None
    else
      var pre := records[..|records| - 1];
      var d := records[|records| - 1];
      assert forall x :: x in records <==> x in pre || x == d by {
        assert records == pre + [d];
      }
      var rest := Latest(pre, jobId, bound);
      if Before(d, jobId, bound) && (rest.None? || d.createdAt > rest.value.createdAt) then Some(d)
      else rest
  }

  /** The position of the first query row with the given id, over the ids alone. */
  function IndexOf(ids: seq<int>, id: int): (r: Option<nat>)
    ensures r.Some? ==> r.value < |ids| && ids[r.value] == id
  {
    if ids == [] then None
    else if ids[0] == id then Some(0)
    else
      var rest := IndexOf(ids[1..], id);
      if rest.None? then None else Some(rest.value + 1)
  }

  /** The query lookup depends only on the rows' ids. */
  lemma {:induction false} QueryIndexByIds(queries: seq<SearchQuery>, ids: seq<int>, id: int)
    requires |ids| == |queries| && forall k :: 0 <= k < |queries| ==> queries[k].id == ids[k]
    ensures QueryIndex(queries, id) == IndexOf(ids, id)
  {
    if queries != [] && queries[0].id != id {
      QueryIndexByIds(queries[1..], ids[1..], id);
    }
  }

  /**
   * The signal the stage applies: none without a current decision, without
   * pending runs or without a decision before the oldest pending run
   * (`anchor`, the last of the newest-first list); otherwise the
   * classification of the change from that earlier decision's
   * measurements to the current one's.
   */
  function SignalFor(records: seq<DecisionRecord>, jobId: int, anchor: Option<int>, c: SignalConfig): Option<(int, string)>
  {
    var current := Latest(records, jobId, None);
    if current.None? || anchor.None? then None
    else
      var before := Latest(records, jobId, anchor);
      if before.None? then None
      else Some(ClassifySignal(MeasurementDelta(before.value.measurements, current.value.measurements, c), c))
  }

  /** The creation time of the oldest pending run, the last of the list. */
  function AnchorOf(pending: seq<SearchQueryRun>): Option<int>
    reads pending
  {
    if pending == [] then None else Some(pending[|pending| - 1].createdAt)
  }

  /** One call of the loop, with the query ids as a ghost snapshot. */
  method ApplyOne(run: SearchQueryRun, value: int, newStatus: string,
                  queries: seq<SearchQuery>, ghost ids: seq<int>, c: SignalConfig, now: int)
    requires |ids| == |queries| && forall k :: 0 <= k < |queries| ==> queries[k].id == ids[k]
    modifies run, queries
    ensures forall k :: 0 <= k < |queries| ==> queries[k].id == ids[k]
    ensures run.searchQueryId == old(run.searchQueryId) && run.createdAt == old(run.createdAt)
    ensures IndexOf(ids, run.searchQueryId).Some? ==>
      run.signalDelta == Some(value) && queries[IndexOf(ids, run.searchQueryId).value].status == newStatus
    ensures IndexOf(ids, run.searchQueryId).None? ==> run.signalDelta == old(run.signalDelta)
    ensures forall k :: 0 <= k < |queries| ==> queries[k].status == old(queries[k].status) || queries[k].status == newStatus
  {
    QueryIndexByIds(queries, ids, run.searchQueryId);
    ghost var idx := QueryIndex(queries, run.searchQueryId);
    ApplySignalResult(run, value, newStatus, queries, c, now);
    forall k | 0 <= k < |queries|
      ensures queries[k].id == ids[k]
      ensures queries[k].status == old(queries[k].status) || queries[k].status == newStatus
    {
      assert queries[k] in queries;
      if idx.Some? && queries[k] == queries[idx.value] {
        assert queries[k].status == newStatus;
      }
    }
  }

  /**
   * The loop of `signal_evaluation_stage`: the same value and status go to
   * every pending run. Every run whose query exists records the value, and
   * that query the status.
   */
  method ApplyToAll(pending: seq<SearchQueryRun>, value: int, newStatus: string,
                    queries: seq<SearchQuery>, ghost ids: seq<int>, c: SignalConfig, now: int)
    requires forall a, b :: 0 <= a < b < |pending| ==> pending[a] != pending[b]
    requires |ids| == |queries| && forall k :: 0 <= k < |queries| ==> queries[k].id == ids[k]
    modifies pending, queries
    ensures forall k :: 0 <= k < |queries| ==> queries[k].id == ids[k]
    ensures forall j :: 0 <= j < |pending| ==>
      pending[j].searchQueryId == old(pending[j].searchQueryId) && pending[j].createdAt == old(pending[j].createdAt)
    ensures forall j :: 0 <= j < |pending| ==> Signalled(pending[j], ids, value, newStatus, queries)
    ensures forall j :: 0 <= j < |pending| && IndexOf(ids, pending[j].searchQueryId).None? ==>
      pending[j].signalDelta == old(pending[j].signalDelta)
  {
    for i := 0 to |pending|
      invariant forall k :: 0 <= k < |queries| ==> queries[k].id == ids[k]
      invariant forall j :: 0 <= j < |pending| ==>
        pending[j].searchQueryId == old(pending[j].searchQueryId) && pending[j].createdAt == old(pending[j].createdAt)
      invariant forall j :: 0 <= j < |pending| && (i <= j || IndexOf(ids, pending[j].searchQueryId).None?) ==>
        pending[j].signalDelta == old(pending[j].signalDelta)
      invariant forall j :: 0 <= j < i ==> Signalled(pending[j], ids, value, newStatus, queries)
    {
      ApplyOne(pending[i], value, newStatus, queries, ids, c, now);
    }
  }

  /** A run that has its query records the value, and its query the status. */
  predicate Signalled(run: SearchQueryRun, ids: seq<int>, value: int, newStatus: string, queries: seq<SearchQuery>)
    reads run, queries
  {
    var k := IndexOf(ids, run.searchQueryId);
    k.Some? ==> run.signalDelta == Some(value) && k.value < |queries| && queries[k.value].status == newStatus
  }

  /**
   * `signal_evaluation_stage`. `records` is the decision table, `pending`
   * what the pending-run query returned (newest first) and `queries` the
   * query table. For a job in DECISION_MADE the signal, when there is one,
   * goes to every pending run; the job then moves to RUNNING_HANDLERS and
   * the handlers are chained, with or without a signal.
   */
  method RunSignalEvaluation(jobId: int, job: Job?, records: seq<DecisionRecord>, pending: seq<SearchQueryRun>,
                             queries: seq<SearchQuery>, c: SignalConfig, now: int, broker: Broker)
    returns (outcome: TaskOutcome)
    requires forall a, b :: 0 <= a < b < |pending| ==> pending[a] != pending[b]
    modifies job, broker, pending, queries
    ensures var e := LinearEffect(SignalEvaluation, old(StatusOf(job)), true, None);
      && outcome == e.outcome
      && (job != null ==> job.status == After(old(job.status), e))
      && broker.scheduled == old(broker.scheduled) + Chained(e, jobId)
    ensures var signal := SignalFor(records, jobId, old(AnchorOf(pending)), c);
      && (old(StatusOf(job)) == Some("DECISION_MADE") && signal.Some? ==>
            forall j :: 0 <= j < |pending| && old(QueryIndex(queries, pending[j].searchQueryId)).Some? ==>
              pending[j].signalDelta == Some(signal.value.0)
              && queries[old(QueryIndex(queries, pending[j].searchQueryId)).value].status == signal.value.1)
      && (old(StatusOf(job)) != Some("DECISION_MADE") || signal.None? ==>
            (forall j :: 0 <= j < |pending| ==> unchanged(pending[j]))
            && forall k :: 0 <= k < |queries| ==> unchanged(queries[k]))
  {
    if StatusOf(job) != Some("DECISION_MADE") {
      return Skipped;
    }
    var signal := SignalFor(records, jobId, AnchorOf(pending), c);
    if signal.Some? {
      ghost var ids := seq(|queries|, k requires 0 <= k < |queries| reads queries => queries[k].id);
      forall j | 0 <= j < |pending|
        ensures QueryIndex(queries, pending[j].searchQueryId) == IndexOf(ids, pending[j].searchQueryId)
      {
        QueryIndexByIds(queries, ids, pending[j].searchQueryId);
      }
      ApplyToAll(pending, signal.value.0, signal.value.1, queries, ids, c, now);
    }
    var e := LinearEffect(SignalEvaluation, StatusOf(job), true, None);
    Apply(e, jobId, job, broker);
    outcome := e.outcome;
  }

  /**
   * `signal_evaluation_stage` as written: the signal is computed and applied
   * to the pending runs and their queries inside a session that is closed
   * without a commit, so every write of the applier is discarded; only the
   * move to RUNNING_HANDLERS, made in a session that commits, persists.
   */
  method RunSignalEvaluationAsWritten(jobId: int, job: Job?, records: seq<DecisionRecord>, pending: seq<SearchQueryRun>,
                                      queries: seq<SearchQuery>, c: SignalConfig, now: int, broker: Broker)
    returns (outcome: TaskOutcome)
    modifies job, broker
    ensures var e := LinearEffect(SignalEvaluation, old(StatusOf(job)), true, None);
      && outcome == e.outcome
      && (job != null ==> job.status == After(old(job.status), e))
      && broker.scheduled == old(broker.scheduled) + Chained(e, jobId)
    ensures forall j :: 0 <= j < |pending| ==> unchanged(pending[j])
    ensures forall k :: 0 <= k < |queries| ==> unchanged(queries[k])
  {
    if StatusOf(job) != Some("DECISION_MADE") {
      return Skipped;
    }
    // The uncommitted session's writes never reach the rows.
    var signal := SignalFor(records, jobId, AnchorOf(pending), c);
    var e := LinearEffect(SignalEvaluation, StatusOf(job), true, None);
    Apply(e, jobId, job, broker);
    outcome := e.outcome;
  }

  /** A configuration with one measurement, enough to exhibit a signal. */
  const OneWeight := SignalConfig(1.0, -1.0, 10, -20, [("passed_hypothesis_count", 1.0)],
                                  map["passed_hypothesis_count" := 100.0])

  /** The decisions of the example: 0 passed hypotheses at time 1, 200 at time 3. */
  const ExampleRecords := [DecisionRecord(7, 1, Some(map["passed_hypothesis_count" := 0.0])),
                           DecisionRecord(7, 3, Some(map["passed_hypothesis_count" := 200.0]))]

  /** A run created at time 2 is signalled "reusable" (delta 2.0). */
  lemma ExampleSignal()
    ensures SignalFor(ExampleRecords, 7, Some(2), OneWeight) == Some((1, "reusable"))
  {
    var name := "passed_hypothesis_count";
    var prev := map[name := 0.0];
    var curr := map[name := 200.0];
    assert name in prev && name in curr;
    assert Contribution(prev, curr, name, 1.0, MaxDelta(OneWeight, name)) == 2.0;
    assert OneWeight.weights[..0] == [];
    assert DeltaSum(prev, curr, OneWeight.weights, OneWeight) == 2.0;
    assert Latest(ExampleRecords, 7, None) == Some(ExampleRecords[1]) by {
      assert ExampleRecords[..1] == [ExampleRecords[0]];
    }
    assert Latest(ExampleRecords, 7, Some(2)) == Some(ExampleRecords[0]) by {
      assert ExampleRecords[..1] == [ExampleRecords[0]];
    }
  }

  /**
   * A DECISION_MADE job whose passed-hypothesis count went from 0 to 200
   * between the decision before its one pending run and its latest
   * decision: the delta 2.0 reaches the positive threshold. As written the
   * run keeps no signal; as corrected it records 1 and its query becomes
   * reusable.
   */
  method SignalLostExample() returns (asWritten: Option<int>, corrected: Option<int>, status: string)
    ensures asWritten == None
    ensures corrected == Some(1) && status == "reusable"
  {
    var records := ExampleRecords;
    ExampleSignal();

    var job := new Job("DECISION_MADE");
    var run := new SearchQueryRun(1, 5, 2);
    var query := new SearchQuery(5, "done");
    var broker := new Broker();
    var _ := RunSignalEvaluationAsWritten(7, job, records, [run], [query], OneWeight, 10, broker);
    asWritten := run.signalDelta;

    var job' := new Job("DECISION_MADE");
    var run' := new SearchQueryRun(1, 5, 2);
    var query' := new SearchQuery(5, "done");
    var broker' := new Broker();
    var _ := RunSignalEvaluation(7, job', records, [run'], [query'], OneWeight, 10, broker');
    corrected := run'.signalDelta;
    status := query'.status;
  }

  /** With no pending run there is no signal, whatever the decisions. */
  lemma NoPendingNoSignal(records: seq<DecisionRecord>, jobId: int, c: SignalConfig)
    ensures SignalFor(records, jobId, None, c).None?
  {
  }

  /**
   * The signal compares against the latest decision strictly before the
   * anchor run: when the job has a current decision and one before the
   * anchor, the signal is the classification of their measurements' change.
   */
  lemma SignalForSpec(records: seq<DecisionRecord>, jobId: int, anchor: int, c: SignalConfig)
    ensures var s := SignalFor(records, jobId, Some(anchor), c);
      && (s.Some? <==> exists d :: d in records && d.jobId == jobId && d.createdAt < anchor)
      && (s.Some? ==>
            exists before, current ::
              before in records && before.jobId == jobId && before.createdAt < anchor
              && (forall d :: d in records && d.jobId == jobId && d.createdAt < anchor ==> d.createdAt <= before.createdAt)
              && current in records && current.jobId == jobId
              && (forall d :: d in records && d.jobId == jobId ==> d.createdAt <= current.createdAt)
              && s.value == ClassifySignal(MeasurementDelta(before.measurements, current.measurements, c), c))
  {
    var s := SignalFor(records, jobId, Some(anchor), c);
    var before := Latest(records, jobId, Some(anchor));
    var current := Latest(records, jobId, None);
    if before.Some? {
      assert Before(before.value, jobId, None);
    }
    if exists d :: d in records && d.jobId == jobId && d.createdAt < anchor {
      var d :| d in records && d.jobId == jobId && d.createdAt < anchor;
      assert Before(d, jobId, Some(anchor));
    }
  }
}
