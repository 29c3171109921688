/**
 * The presentation worker: a pipeline event is narrated by filling the
 * prompt template for its (phase, status) and asking a model for an
 * explanation, which is merged into the event before it is published on
 * the user's channel. The template loader, the model call and the
 * publication transport are parameters or left out; a template is given
 * as the sequence of literal text and named fields that
 * `string.Formatter.parse` yields.
 */
module PresentationWorker {
  import opened Common

  // ---------------------------------------------------------------------
  // Events
  // ---------------------------------------------------------------------

  /** A JSON value of an event, with `str()` of a number, flag or composite already rendered. */
  datatype Value = Null | Text(s: string) | Int(i: int) | Flag(b: bool) | Other(shown: string, truthy: bool)

  /** Python truthiness of a value. */
  predicate IsTruthy(v: Value)
  {
    match v
    case Null => false
    case Text(s) => s != ""
    case Int(i) => i != 0
    case Flag(b) => b
    case Other(_, t) => t
  }

  /** `str(v)`, as an f-string or `format_map` renders it. */
  function Render(v: Value): string
  {
    match v
    case Null => "None"
    case Text(s) => s
    case Int(i) => IntToString(i)
    case Flag(b) => if b then "True" else "False"
    case Other(shown, _) => shown
  }

  /**
   * An event: its top-level members, and the `result` and `metric`
   * dictionaries after `or {}` (a missing or falsy member is empty).
   */
  datatype Event = Event(fields: map<string, Value>, result: map<string, Value>, metric: map<string, Value>)

  /** `d.get(k, default)` */
  function GetOr(d: map<string, Value>, k: string, default: Value): Value
  {
    if k in d then d[k] else default
  }

  /** `d.get(k) or default` */
  function GetOrElse(d: map<string, Value>, k: string, default: Value): (v: Value)
    ensures IsTruthy(v) || v == default
  {
    if k in d && IsTruthy(d[k]) then d[k] else default
  }

  // ---------------------------------------------------------------------
  // `_get_prompt_filename`
  // ---------------------------------------------------------------------

  /** `_PROMPT_MAP` */
  const PromptMap: map<(string, Option<string>), string> :=
    map[("CREATION", None) := "presentation_creation.txt",
        ("INGESTION", None) := "presentation_ingestion.txt",
        ("TRIPLES", None) := "presentation_triples.txt",
        ("GRAPH", None) := "presentation_graph.txt",
        ("PATHREASONING", None) := "presentation_path_reasoning.txt",
        ("DECISION", None) := "presentation_decision.txt",
        ("DECISION", Some("haltconfident")) := "presentation_decision_haltconfident.txt",
        ("DECISION", Some("nohypo")) := "presentation_decision_nohypo.txt",
        ("DECISION", Some("found")) := "presentation_decision_found.txt",
        ("DECISION", Some("notfound")) := "presentation_decision_notfound.txt",
        ("DECISION", Some("insufficientsignal")) := "presentation_decision_insufficientsignal.txt",
        ("FETCH", None) := "presentation_fetch.txt",
        ("DOWNLOAD", None) := "presentation_download.txt"]

  /** `_get_prompt_filename` */
  function PromptFilename(phase: string, status: Option<string>): (r: Option<string>)
  {
    if (phase, status) in PromptMap then Some(PromptMap[(phase, status)])
    else if status.Some? && (phase, None) in PromptMap then Some(PromptMap[(phase, None)])
    else None
  }

  /**
   * The exact (phase, status) entry wins; failing that, a status that is
   * not None falls back to the phase's own entry; with no status there is
   * no fallback. Whatever is found is an entry of the map for the phase.
   */
  lemma PromptFilenameSpec(phase: string, status: Option<string>)
    ensures var r := PromptFilename(phase, status);
      ((phase, status) in PromptMap ==> r == Some(PromptMap[(phase, status)]))
      && ((phase, status) !in PromptMap && status.Some? ==>
            r == (if (phase, None) in PromptMap then Some(PromptMap[(phase, None)]) else None))
      && ((phase, status) !in PromptMap && status.None? ==> r == None)
      && (r.Some? ==> exists st :: (phase, st) in PromptMap && PromptMap[(phase, st)] == r.value)
  {
  }

  /** An unexpected decision sub-status is narrated with the generic decision prompt. */
  lemma UnknownDecisionStatusFallsBack(status: string)
    requires status !in {"haltconfident", "nohypo", "found", "notfound", "insufficientsignal"}
    ensures PromptFilename("DECISION", Some(status)) == Some("presentation_decision.txt")
  {
    assert ("DECISION", Some(status)) !in PromptMap;
  }

  // ---------------------------------------------------------------------
  // `_build_prompt`
  // ---------------------------------------------------------------------

  /** The context keys read from `result`, with their defaults. */
  const ResultKeys: seq<(string, Value)> :=
    [("content_types", Text("")), ("total_ingested", Int(0)), ("paper_count", Int(0)),
     ("upload_count", Int(0)), ("abstract_only_count", Int(0)),
     ("total_triples", Int(0)), ("blocks_processed", Int(0)), ("avg_triples_per_block", Text("N/A")),
     ("node_count", Int(0)), ("edge_count", Int(0)), ("graph_version", Int(1)), ("semantic_merges", Int(0)),
     ("hypothesis_count", Int(0)), ("passed_count", Int(0)), ("hubs_suppressed", Int(0)),
     ("decision_label", Text("")), ("top_hypothesis", Text("none")), ("top_k_count", Int(0)),
     ("is_dominant", Flag(false)),
     ("conclusion", Text("")), ("dominant_hypothesis", Text("")), ("max_confidence", Int(0)),
     ("papers_used", Int(0)), ("total_cycles", Int(1)),
     ("reason", Text("")),
     ("source", Text("")), ("target", Text("")), ("verification_result", Text("")),
     ("graph_size", Int(0)), ("growth_score", Int(0)), ("next_step", Text("need more input")),
     ("searches_run", Int(0)), ("queries_created", Int(0)), ("papers_retrieved", Int(0)),
     ("papers_downloaded", Int(0)), ("error_count", Int(0)), ("final_evidence", Text(""))]

  /** The context keys read from `metric`, with their defaults. */
  const MetricKeys: seq<(string, Value)> :=
    [("total_blocks", Int(0)), ("llms_used", Text("")), ("measurements_summary", Text("")),
     ("impact_score_range", Text("N/A")), ("other_metrics", Text(""))]

  /** Each key of `keys`, read from `d` with its default and rendered. */
  function Lookups(d: map<string, Value>, keys: seq<(string, Value)>): (m: map<string, string>)
    ensures forall k :: k in m <==> exists j :: 0 <= j < |keys| && keys[j].0 == k
  {
    if keys == [] then map[]
    else
      var rest := Lookups(d, keys[1..]);
      assert forall j :: 1 <= j < |keys| ==> keys[1..][j - 1] == keys[j];
      rest[keys[0].0 := Render(GetOr(d, keys[0].0, keys[0].1))]
  }

  /** The members of the context read from the event itself. */
  function EventMembers(e: Event): map<string, string>
  {
    map["job_id" := Render(GetOr(e.fields, "job_id", Text(""))),
        "phase" := Render(GetOr(e.fields, "phase", Text(""))),
        "status" := Render(GetOrElse(e.fields, "status", Text(""))),
        "next_action" := Render(GetOrElse(e.fields, "next_action", Text("pending"))),
        "error_reason" := Render(GetOrElse(e.fields, "error_reason", Text("none"))),
        "job_type" := Render(GetOrElse(e.fields, "job_type", GetOr(e.result, "job_type", Text("discovery"))))]
  }

  /** The substitution context of `_build_prompt`, every value rendered. */
  function Context(e: Event): map<string, string>
  {
    Lookups(e.result, ResultKeys) + Lookups(e.metric, MetricKeys) + EventMembers(e)
  }

  /**
   * The context's defaults: a missing or falsy status reads "", a missing
   * or falsy next action "pending", a missing or falsy error reason
   * "none", and a truthy member is rendered as it is.
   */
  lemma ContextDefaults(e: Event)
    ensures var c := Context(e);
      (!("status" in e.fields && IsTruthy(e.fields["status"])) ==> c["status"] == "")
      && (!("next_action" in e.fields && IsTruthy(e.fields["next_action"])) ==> c["next_action"] == "pending")
      && (!("error_reason" in e.fields && IsTruthy(e.fields["error_reason"])) ==> c["error_reason"] == "none")
      && ("status" in e.fields && IsTruthy(e.fields["status"]) ==> c["status"] == Render(e.fields["status"]))
      && ("job_id" !in e.fields ==> c["job_id"] == "")
  {
    var m := EventMembers(e);
    assert "status"[0] != "job_type"[0] && "status"[0] != "error_reason"[0] && "status"[0] != "next_action"[0];
    assert "next_action"[0] != "job_type"[0] && "next_action"[0] != "error_reason"[0];
    assert "error_reason"[0] != "job_type"[0];
    assert "job_id"[4] != "job_type"[4];
    assert m["job_id"] == Render(GetOr(e.fields, "job_id", Text("")));
    assert m["status"] == Render(GetOrElse(e.fields, "status", Text("")));
    assert m["next_action"] == Render(GetOrElse(e.fields, "next_action", Text("pending")));
    assert m["error_reason"] == Render(GetOrElse(e.fields, "error_reason", Text("none")));
  }

  /** A piece of a template: literal text or a named replacement field. */
  datatype Piece = Lit(text: string) | Field(name: string)

  /** `template.format_map(context)`: None when a field is missing (the KeyError). */
  function FormatMap(t: seq<Piece>, ctx: map<string, string>): (r: Option<string>)
    ensures r.None? <==> exists j :: 0 <= j < |t| && t[j].Field? && t[j].name !in ctx
  {
    if t == [] then Some("")
    else
      var rest := FormatMap(t[1..], ctx);
      assert forall j :: 1 <= j < |t| ==> t[1..][j - 1] == t[j];
      match t[0]
      case Lit(s) => if rest.Some? then Some(s + rest.value) else None
      case Field(n) => if n in ctx && rest.Some? then Some(ctx[n] + rest.value) else None
  }

  /** The partial fill: each field missing from the context becomes the literal `[name]`. */
  function FillMissing(t: seq<Piece>, ctx: map<string, string>): (r: seq<Piece>)
    ensures |r| == |t|
    ensures forall j :: 0 <= j < |r| ==> r[j].Field? ==> r[j].name in ctx
  {
    if t == [] then []
    else
      var head := if t[0].Field? && t[0].name !in ctx then Lit("[" + t[0].name + "]") else t[0];
      [head] + FillMissing(t[1..], ctx)
  }

  /** `_build_prompt` */
  function BuildPrompt(template: seq<Piece>, e: Event): string
  {
    var ctx := Context(e);
    var filled := FormatMap(template, ctx);
    if filled.Some? then filled.value
    else FormatMap(FillMissing(template, ctx), ctx).value
  }

  /** Each piece, with a known field replaced by its value and an unknown one by `[name]`. */
  function Placeholders(t: seq<Piece>, ctx: map<string, string>): string
  {
    if t == [] then ""
    else
      (match t[0]
       case Lit(s) => s
       case Field(n) => if n in ctx then ctx[n] else "[" + n + "]")
      + Placeholders(t[1..], ctx)
  }

  /** When every field is known, the plain fill and the placeholder reading agree. */
  lemma {:induction false} FormatMapPlaceholders(t: seq<Piece>, ctx: map<string, string>)
    requires FormatMap(t, ctx).Some?
    ensures FormatMap(t, ctx).value == Placeholders(t, ctx)
  {
    if t != [] {
      FormatMapPlaceholders(t[1..], ctx);
    }
  }

  /** The partial fill reads the same as the placeholder reading of the original. */
  lemma {:induction false} FillMissingPlaceholders(t: seq<Piece>, ctx: map<string, string>)
    ensures FormatMap(FillMissing(t, ctx), ctx).Some?
    ensures FormatMap(FillMissing(t, ctx), ctx).value == Placeholders(t, ctx)
  {
    if t != [] {
      FillMissingPlaceholders(t[1..], ctx);
      var f := FillMissing(t, ctx);
      assert f[1..] == FillMissing(t[1..], ctx);
    }
  }

  /**
   * The prompt is the template with every known field replaced by its
   * context value and every unknown one by `[name]`, whether or not the
   * first fill raised.
   */
  lemma BuildPromptSpec(template: seq<Piece>, e: Event)
    ensures BuildPrompt(template, e) == Placeholders(template, Context(e))
  {
    var ctx := Context(e);
    if FormatMap(template, ctx).Some? {
      FormatMapPlaceholders(template, ctx);
    } else {
      FillMissingPlaceholders(template, ctx);
    }
  }

  // ---------------------------------------------------------------------
  // `_call_llm`, `_publish_to_sse` and the event task
  // ---------------------------------------------------------------------

  /** `_call_llm`: the stripped reply, or "" for a failed call or a blank reply. */
  function CallLlm(prompt: string, generate: string -> Outcome<string>): (r: string)
    ensures generate(prompt).Failure? ==> r == ""
    ensures r != "" ==> r == Strip(generate(prompt).value)
  {
    var reply := generate(prompt);
    if reply.Success? && Strip(reply.value) != "" then Strip(reply.value) else ""
  }

  /** `(event.get("phase") or "").upper()`; a phase that is not a string counts as missing. */
  function PhaseOf(e: Event): string
  {
    if "phase" in e.fields && e.fields["phase"].Text? then Upper(e.fields["phase"].s) else ""
  }

  /** The status, lowercased when truthy; a status that is not a string counts as missing. */
  function StatusOf(e: Event): (r: Option<string>)
    ensures r.Some? ==> Lower(r.value) == r.value
  {
    if "status" in e.fields && e.fields["status"].Text? then
      var s := e.fields["status"].s;
      LowerIdempotent(s);
      Some(if s != "" then Lower(s) else s)
    else None
  }

  /** The channel an event is published on: `user:{user_id}`, user 1 by default. */
  function Channel(e: Event): (c: string)
    ensures "user_id" !in e.fields ==> c == "user:1"
  {
    "user:" + Render(GetOr(e.fields, "user_id", Int(1)))
  }

  /** The explanation the event task merges into the event. */
  function Explanation(e: Event, loadPrompt: string -> Option<seq<Piece>>, generate: string -> Outcome<string>): string
  {
    Narrate(PromptFilename(PhaseOf(e), StatusOf(e)), e, loadPrompt, generate)
  }

  /** The explanation once the prompt file for the event has been looked up. */
  function Narrate(filename: Option<string>, e: Event, loadPrompt: string -> Option<seq<Piece>>,
                   generate: string -> Outcome<string>): string
  {
    if filename.Some? && filename.value != "" then
      var template := loadPrompt(filename.value);
      if template.Some? && template.value != [] then CallLlm(BuildPrompt(template.value, e), generate)
      else ""
    else ""
  }

  /**
   * There is an explanation only when a prompt file exists for the event,
   * its template is not empty and the model answered with something other
   * than blanks; it is then the model's stripped answer to the filled
   * template (whose text BuildPromptSpec gives).
   */
  lemma NarrateSpec(filename: Option<string>, e: Event, loadPrompt: string -> Option<seq<Piece>>,
                    generate: string -> Outcome<string>)
    ensures var x := Narrate(filename, e, loadPrompt, generate);
      (filename.None? ==> x == "")
      && (filename.Some? && (loadPrompt(filename.value).None? || loadPrompt(filename.value) == Some([])) ==> x == "")
      && (x != "" ==>
            filename.Some? && loadPrompt(filename.value).Some?
            && generate(BuildPrompt(loadPrompt(filename.value).value, e)).Success?
            && x == Strip(generate(BuildPrompt(loadPrompt(filename.value).value, e)).value))
  {
  }

  /** An event whose phase has no prompt file gets an empty explanation. */
  lemma {:induction false} UnknownPhaseIsSilent(e: Event, loadPrompt: string -> Option<seq<Piece>>,
                                                generate: string -> Outcome<string>)
    requires forall st :: (PhaseOf(e), st) !in PromptMap
    ensures Explanation(e, loadPrompt, generate) == ""
  {
    assert (PhaseOf(e), StatusOf(e)) !in PromptMap;
    assert (PhaseOf(e), None) !in PromptMap;
    NarrateSpec(None, e, loadPrompt, generate);
  }

  /** A published message: the channel and the event as sent. */
  datatype Publication = Publication(channel: string, event: map<string, Value>)

  /**
   * `process_presentation_event`: the event always gets an `explanation`
   * member, "" when there is nothing to say, and is then published on
   * its user's channel. `fields` is the event dictionary the event task mutates.
   */
  class EventTask {
    var fields: map<string, Value>

    constructor(fields0: map<string, Value>)
      ensures fields == fields0
    {
      fields := fields0;
    }

    method Process(result: map<string, Value>, metric: map<string, Value>,
                   loadPrompt: string -> Option<seq<Piece>>, generate: string -> Outcome<string>)
      returns (p: Publication)
      modifies this
      ensures var e := Event(old(fields), result, metric);
        fields == old(fields)["explanation" := Text(Explanation(e, loadPrompt, generate))]
        && p == Publication(Channel(e), fields)
    {
      var e := Event(fields, result, metric);
      var explanation := Explanation(e, loadPrompt, generate);
      fields := fields["explanation" := Text(explanation)];
      p := Publication(Channel(e), fields);
    }
  }
}
