/**
 * The handler for a research seed: the seed's entities become the end
 * points of a first ("vanguard") search query and the entities between
 * them its focus areas, and the job is queued for fetching. A seed with
 * neither entities nor a topic is rejected.
 *
 * As written, the handler passes an `entities` keyword that
 * `get_or_create_search_query` does not accept, so every accepted seed
 * raises a TypeError before the query or the job is touched;
 * `HandleAsWritten` models that and `Handle` the evidently intended call.
 */
module ResearchSeed {
  import opened Common
  import opened Jobs
  import QO = QueryOrchestrator

  /** A payload member: missing, JSON null, or a string. */
  datatype Member = Missing | Null | Str(s: string)

  /** The seed payload the classifier extracted. */
  datatype Seed = Seed(entities: seq<string>, domain: Option<string>, topic: Member)

  /** `ClassifierHandlerResult`; the job-state updates it can carry are never set here. */
  datatype HandlerResult = HandlerResult(status: string, message: string, actionTaken: string, nextStep: Option<string>)

  /** `payload.get("topic", "General Research")`: the default applies only when the member is missing. */
  function TopicOf(m: Member): (t: Option<string>)
    ensures m.Missing? ==> t == Some("General Research")
    ensures m.Null? <==> t.None?
  {
    match m
    case Missing => Some("General Research")
    case Null => None
    case Str(s) => Some(s)
  }

  /** `not entities and not topic` */
  predicate Rejected(seed: Seed)
  {
    seed.entities == [] && !Truthy(TopicOf(seed.topic))
  }

  /** A seed is rejected only when it names no entity and its topic is null or empty. */
  lemma RejectedSpec(seed: Seed)
    ensures Rejected(seed) <==> seed.entities == [] && (seed.topic.Null? || seed.topic == Str(""))
    ensures seed.topic.Missing? ==> !Rejected(seed)
  {
  }

  /** The end points and focus areas: `(source, target, focus_areas)`. */
  function Endpoints(entities: seq<string>, topic: Option<string>): (Option<string>, Option<string>, seq<string>)
  {
    var n := |entities|;
    (if n > 0 then Some(entities[0]) else topic,
     if n > 1 then Some(entities[n - 1]) else topic,
     if n > 2 then entities[1..n - 1] else [])
  }

  /**
   * The first entity is the source and the last the target, the topic
   * standing in for a missing one; the focus areas are the entities
   * strictly between them. With two or more entities, source, focus areas
   * and target are the entities in order.
   */
  lemma EndpointsSpec(entities: seq<string>, topic: Option<string>)
    ensures var (source, target, focus) := Endpoints(entities, topic);
      var n := |entities|;
      (n == 0 ==> source == topic && target == topic && focus == [])
      && (n == 1 ==> source == Some(entities[0]) && target == topic && focus == [])
      && (n >= 2 ==> source.Some? && target.Some? && [source.value] + focus + [target.value] == entities)
      && |focus| == (if n > 2 then n - 2 else 0)
      && (forall x :: x in focus ==> x in entities)
  {
    var n := |entities|;
    if n >= 2 {
      var focus := Endpoints(entities, topic).2;
      assert focus == entities[1..n - 1];
      assert [entities[0]] + entities[1..n - 1] + [entities[n - 1]] == entities;
    }
  }

  /** `str(x)` of an end point: a string as it is, `None` as "None". */
  function PyStr(o: Option<string>): string
  {
    if o.Some? then o.value else "None"
  }

  /** The minimal hypothesis the query is created for. */
  function SeedHypothesis(seed: Seed): QO.Hypothesis
  {
    var (source, target, _) := Endpoints(seed.entities, TopicOf(seed.topic));
    QO.Hypothesis(PyStr(source), PyStr(target), seed.domain)
  }

  const RejectResult :=
    HandlerResult("insufficient_data", "Please provide a valid research topic or entities.", "rejected_seed",
                  Some("request_clarification"))

  /** The parameters of `get_or_create_search_query`. */
  const GetOrCreateParameters: set<string> :=
    {"hypothesis", "job_id", "session", "query_text", "focus_areas", "config"}

  /** The keyword arguments the handler passes to it. */
  const SeedCallKeywords: set<string> := {"focus_areas", "entities"}

  /** As written, the call that creates the vanguard query is rejected: `entities` is no parameter. */
  lemma SeedCallRejected()
    ensures SeedCallKeywords - GetOrCreateParameters == {"entities"}
  {
    assert "entities" in SeedCallKeywords - GetOrCreateParameters;
  }

  /**
   * `handle` as written: a rejected seed gets the rejection; any other
   * seed raises at the query call, before the query table or the job is
   * changed.
   */
  method HandleAsWritten(seed: Seed) returns (r: Outcome<HandlerResult>)
    ensures Rejected(seed) ==> r == Success(RejectResult)
    ensures !Rejected(seed) ==> r.Failure?
  {
    if Rejected(seed) {
      return Success(RejectResult);
    }
    SeedCallRejected();
    return Failure("TypeError: get_or_create_search_query() got an unexpected keyword argument 'entities'");
  }

  /**
   * `handle` with the query call it evidently intends: an accepted seed
   * gets (or finds) the query for its end points with its focus areas, the
   * job, when it exists, is queued for fetching, and the result is "ok".
   * The success message stops before the query's database id, which the model does not have.
   */
  method Handle(jobId: nat, seed: Seed, job: Job?, queries: QO.QueryStore, cfg: QO.Config, digest: string -> string)
    returns (r: HandlerResult)
    modifies queries, job
    ensures Rejected(seed) ==>
      (r == RejectResult && queries.rows == old(queries.rows)
       && (job != null ==> job.status == old(job.status)))
    ensures !Rejected(seed) ==>
      (r.status == "ok" && r.actionTaken == "vanguard_ignited" && r.nextStep == Some("wait_for_fetch")
       && (job != null ==> job.status == "FETCH_QUEUED")
       && old(queries.rows) <= queries.rows
       && QO.Find(queries.rows, jobId, QO.Signature(SeedHypothesis(seed), cfg, digest)).Some?)
    ensures !Rejected(seed) ==>
      var focus := Endpoints(seed.entities, TopicOf(seed.topic)).2;
      var found := QO.Find(old(queries.rows), jobId, QO.Signature(SeedHypothesis(seed), cfg, digest));
      && (found.Some? ==> queries.rows == old(queries.rows))
      && (found.None? ==>
            queries.rows == old(queries.rows) + [QO.NewQuery(SeedHypothesis(seed), jobId, "", focus, cfg, digest)])
  {
    if Rejected(seed) {
      return RejectResult;
    }
    var topic := TopicOf(seed.topic);
    var (source, target, focus) := Endpoints(seed.entities, topic);
    var h := QO.Hypothesis(PyStr(source), PyStr(target), seed.domain);
    var q := queries.GetOrCreate(h, jobId, "", focus, cfg, digest);
    if job != null {
      job.SetStatus("FETCH_QUEUED");
    }
    r := HandlerResult("ok", "Research ignited for " + PyStr(source) + " and " + PyStr(target) + ".",
                       "vanguard_ignited", Some("wait_for_fetch"));
  }
}
