/**
 * The triple extractor of the application layer: the language model answers
 * with a JSON document, which is accepted only when it is an object whose
 * `triples` member is a list of objects with exactly the keys `subject`,
 * `predicate` and `object`, each a non-blank string. The model's answer and
 * what `json.loads` makes of it are parameters.
 */
module AppTripleExtraction {
  import opened Common
  import T = TripleExtraction

  /** A decoded JSON value (numbers are kept only as far as validation needs). */
  datatype Json =
    | JNull
    | JBool(b: bool)
    | JNum(n: int)
    | JStr(s: string)
    | JArr(items: seq<Json>)
    | JObj(fields: map<string, Json>)

  /** The keys of a triple object, in the order they are checked. */
  const FieldNames: seq<string> := ["subject", "predicate", "object"]

  /** A member value the schema accepts: a string that is not blank. */
  predicate GoodValue(v: Json)
  {
    v.JStr? && !IsBlank(v.s)
  }

  /** One entry of `triples` as the schema demands it. */
  predicate IsTripleItem(item: Json)
  {
    item.JObj? && item.fields.Keys == {"subject", "predicate", "object"}
    && forall j :: 0 <= j < |FieldNames| ==> GoodValue(item.fields[FieldNames[j]])
  }

  /** The whole schema: `{"triples": [item, ...]}`, other members allowed. */
  predicate ValidSchema(parsed: Json)
  {
    parsed.JObj? && "triples" in parsed.fields && parsed.fields["triples"].JArr?
    && forall i :: 0 <= i < |parsed.fields["triples"].items| ==> IsTripleItem(parsed.fields["triples"].items[i])
  }

  /** The checks `_validate` runs on one entry. */
  method ValidateItem(item: Json) returns (ok: bool)
    ensures ok == IsTripleItem(item)
  {
    if !item.JObj? {
      return false;
    }
    if item.fields.Keys != {"subject", "predicate", "object"} {
      return false;
    }
    var j := 0;
    while j < |FieldNames|
      invariant 0 <= j <= |FieldNames|
      invariant forall j' :: 0 <= j' < j ==> GoodValue(item.fields[FieldNames[j']])
    {
      var v := item.fields[FieldNames[j]];
      if !v.JStr? || IsBlank(v.s) {
        return false;
      }
      j := j + 1;
    }
    return true;
  }

  /** `_validate` */
  method Validate(parsed: Json) returns (ok: bool)
    ensures ok == ValidSchema(parsed)
  {
    if !parsed.JObj? {
      return false;
    }
    if "triples" !in parsed.fields {
      return false;
    }
    var triples := parsed.fields["triples"];
    if !triples.JArr? {
      return false;
    }
    var i := 0;
    while i < |triples.items|
      invariant 0 <= i <= |triples.items|
      invariant forall i' :: 0 <= i' < i ==> IsTripleItem(triples.items[i'])
    {
      var itemOk := ValidateItem(triples.items[i]);
      if !itemOk {
        return false;
      }
      i := i + 1;
    }
    return true;
  }

  /** An empty list of triples is a valid answer. */
  lemma EmptyListValid(others: map<string, Json>)
    ensures ValidSchema(JObj(others["triples" := JArr([])]))
  {
  }

  /** The JSON object a triple is written as. */
  function ToItem(t: T.Triple): Json
  {
    JObj(map["subject" := JStr(t.subject), "predicate" := JStr(t.pred), "object" := JStr(t.obj)])
  }

  /** The triple an accepted entry stands for. */
  function FromItem(item: Json): (t: T.Triple)
    requires IsTripleItem(item)
    ensures !IsBlank(t.subject) && !IsBlank(t.pred) && !IsBlank(t.obj)
    ensures ToItem(t) == item
  {
    assert GoodValue(item.fields[FieldNames[0]]);
    assert GoodValue(item.fields[FieldNames[1]]);
    assert GoodValue(item.fields[FieldNames[2]]);
    var t := T.Triple(item.fields["subject"].s, item.fields["predicate"].s, item.fields["object"].s);
    assert item.fields.Keys == ToItem(t).fields.Keys;
    t
  }

  /**
   * A triple is accepted exactly when none of its fields is blank, and an
   * accepted entry reads back as the triple it was written from.
   */
  lemma ItemRoundTrip(t: T.Triple)
    ensures IsTripleItem(ToItem(t)) <==> !IsBlank(t.subject) && !IsBlank(t.pred) && !IsBlank(t.obj)
    ensures IsTripleItem(ToItem(t)) ==> FromItem(ToItem(t)) == t
  {
    var m := ToItem(t).fields;
    assert m[FieldNames[0]] == JStr(t.subject);
    assert m[FieldNames[1]] == JStr(t.pred);
    assert m[FieldNames[2]] == JStr(t.obj);
  }

  /** Every triple the backend parser accepts passes this schema too. */
  lemma ParsedTripleAccepted(t: T.Triple)
    requires T.ValidTriple(t)
    ensures IsTripleItem(ToItem(t))
  {
    ItemRoundTrip(t);
  }

  /**
   * What `extract` returns, given the model's answer (`None` when the call
   * raised) and what `json.loads` makes of it (`None` when it raised): the
   * decoded document itself when it passes validation.
   */
  function ExtractSpec(raw: Option<string>, decoded: Option<Json>): (r: Option<Json>)
    ensures r.Some? ==> ValidSchema(r.value) && decoded == Some(r.value)
    ensures r.Some? ==> raw.Some? && raw.value != []
  {
    if raw.None? || raw.value == [] then None
    else if decoded.None? then None
    else if !ValidSchema(decoded.value) then None
    else decoded
  }

  /** `extract` */
  method Extract(raw: Option<string>, decoded: Option<Json>) returns (r: Option<Json>)
    ensures r == ExtractSpec(raw, decoded)
  {
    if raw.None? || raw.value == [] {
      return None;
    }
    if decoded.None? {
      return None;
    }
    var ok := Validate(decoded.value);
    if !ok {
      return None;
    }
    return decoded;
  }

  /** The triples of an accepted answer. */
  function Triples(parsed: Json): (ts: seq<T.Triple>)
    requires ValidSchema(parsed)
    ensures |ts| == |parsed.fields["triples"].items|
    ensures forall i :: 0 <= i < |ts| ==> ToItem(ts[i]) == parsed.fields["triples"].items[i]
  {
    var items := parsed.fields["triples"].items;
    seq(|items|, i requires 0 <= i < |items| => FromItem(items[i]))
  }
}
