/**
 * Structural projection: every stored triple is reduced to a short
 * (subject, relation, object) handle, and the triples are grouped by that
 * handle into a deterministic projected graph. The language model's
 * analyses (named entities, noun chunks, verb lemmas) are inputs.
 */
module Structural {
  import opened Common
  import opened Sorting
  import opened EvidenceGraph

  // ---------------------------------------------------------------------
  // `_extract_acronym`: the first `(` run of two or more A-Z/0-9, an
  // optional `s`, then `)`
  // ---------------------------------------------------------------------

  predicate IsAcronymChar(c: char) { 'A' <= c <= 'Z' || '0' <= c <= '9' }

  /** The end of the greedy run of acronym characters starting at `j`. */
  function RunEnd(s: string, j: nat): (e: nat)
    requires j <= |s|
    ensures j <= e <= |s|
    ensures forall m :: j <= m < e ==> IsAcronymChar(s[m])
    ensures e == |s| || !IsAcronymChar(s[e])
    decreases |s| - j
  {
    if j < |s| && IsAcronymChar(s[j]) then RunEnd(s, j + 1) else j
  }

  /** The pattern matches at position `i`. */
  predicate AcronymAt(s: string, i: nat)
  {
    && i < |s| && s[i] == '('
    && var e := RunEnd(s, i + 1);
       && e - (i + 1) >= 2
       && ((e < |s| && s[e] == ')') || (e + 1 < |s| && s[e] == 's' && s[e + 1] == ')'))
  }

  /** The leftmost position at or after `i` where the pattern matches. */
  function FirstAcronym(s: string, i: nat): (r: Option<nat>)
    requires i <= |s|
    ensures r.None? <==> forall j :: i <= j < |s| ==> !AcronymAt(s, j)
    ensures r.Some? ==> i <= r.value < |s| && AcronymAt(s, r.value)
    ensures r.Some? ==> forall j :: i <= j < r.value ==> !AcronymAt(s, j)
    decreases |s| - i
  {
    if i == |s| then None
    else if AcronymAt(s, i) then Some(i)
    else FirstAcronym(s, i + 1)
  }

  /** `_extract_acronym`: group 1 of the leftmost match, else "". */
  function ExtractAcronym(text: string): (r: string)
  {
    match FirstAcronym(text, 0)
    case None => ""
    case Some(i) => text[i + 1..RunEnd(text, i + 1)]
  }

  /**
   * The acronym is "" iff the pattern matches nowhere; otherwise it is the
   * run inside the leftmost match: two or more A-Z/0-9 characters.
   */
  lemma ExtractAcronymSpec(text: string)
    ensures ExtractAcronym(text) == "" <==> forall j :: 0 <= j < |text| ==> !AcronymAt(text, j)
    ensures ExtractAcronym(text) != "" ==>
      && |ExtractAcronym(text)| >= 2
      && (forall m :: 0 <= m < |ExtractAcronym(text)| ==> IsAcronymChar(ExtractAcronym(text)[m]))
      && exists i :: 0 <= i < |text| && AcronymAt(text, i) && (forall j :: 0 <= j < i ==> !AcronymAt(text, j))
           && ExtractAcronym(text) == text[i + 1..RunEnd(text, i + 1)]
  {
    var f := FirstAcronym(text, 0);
    if f.Some? {
      var i := f.value;
      var r := text[i + 1..RunEnd(text, i + 1)];
      assert forall m :: 0 <= m < |r| ==> r[m] == text[i + 1 + m];
    }
  }

  /** `(` + run + optional `s` + `)` at the start of a text is found there. */
  lemma AcronymRoundTrip(run: string, plural: bool, rest: string)
    requires |run| >= 2 && forall m :: 0 <= m < |run| ==> IsAcronymChar(run[m])
    ensures ExtractAcronym("(" + run + (if plural then "s" else "") + ")" + rest) == run
  {
    var t := "(" + run + (if plural then "s" else "") + ")" + rest;
    RunEndOver(t, 1, run);
    assert AcronymAt(t, 0);
    assert t[1..|run| + 1] == run;
  }

  lemma RunEndOver(t: string, j: nat, run: string)
    requires j + |run| < |t| && t[j..j + |run|] == run && !IsAcronymChar(t[j + |run|])
    requires forall m :: 0 <= m < |run| ==> IsAcronymChar(run[m])
    ensures RunEnd(t, j) == j + |run|
    decreases |run|
  {
    if run != [] {
      assert t[j] == run[0];
      assert t[j + 1..j + |run|] == run[1..];
      RunEndOver(t, j + 1, run[1..]);
    }
  }

  // ---------------------------------------------------------------------
  // `project_predicate`
  // ---------------------------------------------------------------------

  /** `PREDICATE_MAP`, in its insertion order. */
  const PredicateMap: seq<(string, string)> := [
    ("use", "used_for"), ("utilize", "used_for"), ("apply", "used_for"),
    ("evaluate", "evaluated_by"), ("measure", "measured_by"),
    ("show", "demonstrates"), ("demonstrate", "demonstrates"),
    ("lead", "causes"), ("cause", "causes"), ("result", "results_in"),
    ("improve", "improves"), ("increase", "increases"), ("decrease", "decreases"),
    ("compare", "compares"), ("propose", "proposes"), ("introduce", "introduces"),
    ("develop", "develops"), ("train", "training"), ("generate", "generates"),
    ("produce", "produces"), ("suggest", "suggests"), ("find", "finds"),
    ("observe", "observes"), ("relate", "related_to"), ("associate", "related_to"),
    ("contain", "contains"), ("include", "includes")]

  /** `key` occurs in `txt` at position `i`. */
  predicate OccursAt(key: string, txt: string, i: nat)
  {
    i + |key| <= |txt| && txt[i..i + |key|] == key
  }

  /** Python's `key in txt`. */
  predicate IsSubstring(key: string, txt: string)
  {
    exists i: nat | i <= |txt| :: OccursAt(key, txt, i)
  }

  /**
   * The entry the longest-first scan stops at among the first `n` entries:
   * a matching key of greatest length, the earliest of those on a tie (the
   * sort by length is stable).
   */
  function LongestMatch(entries: seq<(string, string)>, n: nat, txt: string): (r: Option<nat>)
    requires n <= |entries|
    ensures r.None? <==> forall m :: 0 <= m < n ==> !IsSubstring(entries[m].0, txt)
    ensures r.Some? ==> r.value < n && IsSubstring(entries[r.value].0, txt)
    ensures r.Some? ==> forall m :: 0 <= m < n && IsSubstring(entries[m].0, txt) ==> |entries[m].0| <= |entries[r.value].0|
    ensures r.Some? ==> forall m :: 0 <= m < r.value && IsSubstring(entries[m].0, txt) ==> |entries[m].0| < |entries[r.value].0|
  {
    if n == 0 then None
    else
      var b := LongestMatch(entries, n - 1, txt);
      if IsSubstring(entries[n - 1].0, txt) && (b.None? || |entries[n - 1].0| > |entries[b.value].0|)
      then Some(n - 1)
      else b
  }

  /** `PREDICATE_MAP[lemma]` when the lemma is a key. */
  function LookupRelation(entries: seq<(string, string)>, key: string): (r: Option<string>)
    ensures r.None? <==> forall m :: 0 <= m < |entries| ==> entries[m].0 != key
    ensures r.Some? ==> exists m :: 0 <= m < |entries| && entries[m] == (key, r.value)
  {
    if entries == [] then None
    else if entries[0].0 == key then Some(entries[0].1)
    else
      var r := LookupRelation(entries[1..], key);
      assert r.Some? ==> exists m :: 0 <= m < |entries[1..]| && entries[1..][m] == (key, r.value);
      r
  }

  /**
   * What the language model reports for one triple. A `Failure` is an
   * exception from the model (for instance when it is not installed).
   */
  datatype Analysis = Analysis(
    subjectHandle: Outcome<string>,
    /** The first verb or auxiliary's lemma, `None` when the text has no verb. */
    verbLemma: Outcome<Option<string>>,
    objectHandle: Outcome<string>)

  /** `project_predicate` */
  function ProjectPredicate(text: string, verbLemma: Outcome<Option<string>>): (r: Outcome<string>)
  {
    if text == [] then Success("related_to")
    else
      match LongestMatch(PredicateMap, |PredicateMap|, Lower(text))
      case Some(j) => Success(PredicateMap[j].1)
      case None =>
        match verbLemma
        case Failure(e) => Failure(e)
        case Success(None) => Success("related_to")
        case Success(Some(v)) =>
          var lemmaText := Lower(v);
          match LookupRelation(PredicateMap, lemmaText)
          case Some(rel) => Success(rel)
          case None => Success(lemmaText)
  }

  /**
   * An empty predicate is `related_to`; a predicate containing some map
   * key maps to the relation of a longest such key, without consulting the
   * language model.
   */
  lemma ProjectPredicateSpec(text: string, verbLemma: Outcome<Option<string>>)
    ensures text == [] ==> ProjectPredicate(text, verbLemma) == Success("related_to")
    ensures text != [] && (exists m :: 0 <= m < |PredicateMap| && IsSubstring(PredicateMap[m].0, Lower(text))) ==>
      exists j :: 0 <= j < |PredicateMap|
        && IsSubstring(PredicateMap[j].0, Lower(text))
        && ProjectPredicate(text, verbLemma) == Success(PredicateMap[j].1)
        && forall m :: 0 <= m < |PredicateMap| && IsSubstring(PredicateMap[m].0, Lower(text)) ==>
             |PredicateMap[m].0| <= |PredicateMap[j].0|
    ensures text != [] && ProjectPredicate(text, verbLemma).Failure? ==> verbLemma.Failure?
  {
    if text != [] {
      var b := LongestMatch(PredicateMap, |PredicateMap|, Lower(text));
      if b.Some? {
        assert IsSubstring(PredicateMap[b.value].0, Lower(text));
      }
    }
  }

  // ---------------------------------------------------------------------
  // Projecting one triple
  // ---------------------------------------------------------------------

  /** `project_subject`: "" for an empty text, then the acronym, then the model's handle. */
  function ProjectSubject(text: string, handle: Outcome<string>): (r: Outcome<string>)
    ensures text == [] ==> r == Success("")
    ensures text != [] && ExtractAcronym(text) != [] ==> r == Success(ExtractAcronym(text))
    ensures r.Failure? ==> handle.Failure?
  {
    if text == [] then Success("")
    else
      var acr := ExtractAcronym(text);
      if acr != [] then Success(acr) else handle
  }

  /** `project_object`: "" for an empty text, else the model's handle. */
  function ProjectObject(text: string, handle: Outcome<string>): (r: Outcome<string>)
    ensures text == [] ==> r == Success("")
    ensures r.Failure? ==> handle.Failure?
  {
    if text == [] then Success("") else handle
  }

  /** A stored triple: its texts (`None` for NULL), ids, and the model's analysis. */
  datatype RawTriple = RawTriple(
    id: nat, subject: Option<string>, pred: Option<string>, obj: Option<string>,
    blockId: Option<nat>, sourceId: Option<nat>, analysis: Analysis)

  type Key = (string, string, string)

  /** A triple after projection: its key, or `None` when a projection raised. */
  datatype ProjRow = ProjRow(id: nat, key: Option<Key>, blockId: Option<nat>, sourceId: Option<nat>)

  function ProjectRow(t: RawTriple): (r: ProjRow)
    ensures r.id == t.id && r.blockId == t.blockId && r.sourceId == t.sourceId
    ensures t.subject.None? && t.pred.None? && t.obj.None? ==> r.key == Some(("", "related_to", ""))
    ensures r.key.None? ==>
      t.analysis.subjectHandle.Failure? || t.analysis.verbLemma.Failure? || t.analysis.objectHandle.Failure?
  {
    var ps := ProjectSubject(Get(t.subject, ""), t.analysis.subjectHandle);
    var pp := ProjectPredicate(Get(t.pred, ""), t.analysis.verbLemma);
    var po := ProjectObject(Get(t.obj, ""), t.analysis.objectHandle);
    var key := if ps.Success? && pp.Success? && po.Success? then Some((ps.value, pp.value, po.value)) else None;
    ProjRow(t.id, key, t.blockId, t.sourceId)
  }

  function ProjectRows(ts: seq<RawTriple>): (ps: seq<ProjRow>)
    ensures |ps| == |ts|
  {
    if ts == [] then [] else ProjectRows(ts[..|ts| - 1]) + [ProjectRow(ts[|ts| - 1])]
  }

  lemma {:induction false} ProjectRowsAt(ts: seq<RawTriple>, i: nat)
    requires i < |ts|
    ensures ProjectRows(ts)[i] == ProjectRow(ts[i])
  {
    if i < |ts| - 1 {
      ProjectRowsAt(ts[..|ts| - 1], i);
    }
  }

  // ---------------------------------------------------------------------
  // Specification of the grouping, over the projected rows
  // ---------------------------------------------------------------------

  /** The keys of the rows whose projection succeeded. */
  function KeySet(ps: seq<ProjRow>): set<Key>
  {
    if ps == [] then {}
    else
      var r := ps[|ps| - 1];
      KeySet(ps[..|ps| - 1]) + if r.key.Some? then {r.key.value} else {}
  }

  /** The triple ids projected to `k`. */
  function Ids(ps: seq<ProjRow>, k: Key): set<nat>
  {
    if ps == [] then {}
    else
      var r := ps[|ps| - 1];
      Ids(ps[..|ps| - 1], k) + if r.key == Some(k) then {r.id} else {}
  }

  /** The present block ids of the triples projected to `k`. */
  function BlockIds(ps: seq<ProjRow>, k: Key): set<nat>
  {
    if ps == [] then {}
    else
      var r := ps[|ps| - 1];
      BlockIds(ps[..|ps| - 1], k) + if r.key == Some(k) && r.blockId.Some? then {r.blockId.value} else {}
  }

  /** The present source ids of the triples projected to `k`. */
  function SourceIds(ps: seq<ProjRow>, k: Key): set<nat>
  {
    if ps == [] then {}
    else
      var r := ps[|ps| - 1];
      SourceIds(ps[..|ps| - 1], k) + if r.key == Some(k) && r.sourceId.Some? then {r.sourceId.value} else {}
  }

  /** A key is projected iff some row has it; an id is under `k` iff some row with key `k` has it. */
  lemma {:induction false} SpecMembers(ps: seq<ProjRow>, k: Key)
    ensures k in KeySet(ps) <==> exists j :: 0 <= j < |ps| && ps[j].key == Some(k)
    ensures forall x :: x in Ids(ps, k) <==> exists j :: 0 <= j < |ps| && ps[j].key == Some(k) && ps[j].id == x
  {
    if ps != [] {
      var pre := ps[..|ps| - 1];
      SpecMembers(pre, k);
      assert forall j :: 0 <= j < |pre| ==> pre[j] == ps[j];
    }
  }

  /** The accumulated metadata of one projected key. */
  datatype Meta = Meta(support: int, tripleIds: set<nat>, blockIds: set<nat>, sourceIds: set<nat>)

  /** The metadata the rows call for under `k`: the support counts distinct triple ids. */
  function Expected(ps: seq<ProjRow>, k: Key): Meta
  {
    Meta(|Ids(ps, k)|, Ids(ps, k), BlockIds(ps, k), SourceIds(ps, k))
  }

  /** One more row changes only the sets of its own key, by its ids. */
  lemma SpecStep(ps: seq<ProjRow>, r: ProjRow, k: Key)
    ensures Ids(ps + [r], k) == Ids(ps, k) + if r.key == Some(k) then {r.id} else {}
    ensures BlockIds(ps + [r], k) == BlockIds(ps, k) + if r.key == Some(k) && r.blockId.Some? then {r.blockId.value} else {}
    ensures SourceIds(ps + [r], k) == SourceIds(ps, k) + if r.key == Some(k) && r.sourceId.Some? then {r.sourceId.value} else {}
  {
    assert (ps + [r])[..|ps|] == ps;
  }

  /** One more row adds its key, if it has one, to the keys seen. */
  lemma KeySetStep(ps: seq<ProjRow>, r: ProjRow)
    ensures KeySet(ps + [r]) == KeySet(ps) + if r.key.Some? then {r.key.value} else {}
  {
    assert (ps + [r])[..|ps|] == ps;
  }

  // ---------------------------------------------------------------------
  // The grouping loop of `project_structural_graph`
  // ---------------------------------------------------------------------

  /** The projected dictionary holds, per key, the metadata the rows call for. */
  ghost predicate Describes(projected: map<Key, Meta>, ps: seq<ProjRow>)
  {
    && projected.Keys == KeySet(ps)
    && forall k :: k in projected ==> projected[k] == Expected(ps, k)
  }

  /**
   * The loop over the job's triples: a triple whose projection raises is
   * skipped; otherwise its key's entry is created when new, the support
   * grows only for a triple id not seen under that key, and the present
   * block and source ids are recorded.
   */
  method GroupProjections(triples: seq<RawTriple>) returns (projected: map<Key, Meta>)
    ensures Describes(projected, ProjectRows(triples))
  {
    ghost var ps := ProjectRows(triples);
    projected := map[];
    for i := 0 to |triples|
      invariant Describes(projected, ps[..i])
    {
      var r := ProjectAt(triples, i, ps);
      PrefixSnoc(ps, i);
      projected := AddProjection(projected, ps[..i], r);
    }
    assert ps[..|triples|] == ps;
  }

  lemma PrefixSnoc<T>(s: seq<T>, i: nat)
    requires i < |s|
    ensures s[..i + 1] == s[..i] + [s[i]]
  {
    assert s[..i + 1] == s[..i] + [s[i]];
  }

  /** The projections of the triple at `i`. */
  method ProjectAt(triples: seq<RawTriple>, i: nat, ghost ps: seq<ProjRow>) returns (r: ProjRow)
    requires i < |triples| && ps == ProjectRows(triples)
    ensures r == ps[i]
  {
    r := ProjectRow(triples[i]);
    ProjectRowsAt(triples, i);
  }

  /** One pass of the loop. */
  method AddProjection(projected: map<Key, Meta>, ghost pre: seq<ProjRow>, r: ProjRow) returns (projected': map<Key, Meta>)
    requires Describes(projected, pre)
    ensures Describes(projected', pre + [r])
  {
    if r.key.None? {
      SkipPreserves(projected, pre, r);
      projected' := projected;
    } else {
      var key := r.key.value;
      var meta := if key in projected then projected[key] else Meta(0, {}, {}, {});
      RecordPreserves(projected, pre, r);
      projected' := projected[key := Record(meta, r)];
    }
  }

  /** A row whose projection raised changes nothing the rows call for. */
  lemma SkipPreserves(projected: map<Key, Meta>, pre: seq<ProjRow>, r: ProjRow)
    requires Describes(projected, pre) && r.key.None?
    ensures Describes(projected, pre + [r])
  {
    KeySetStep(pre, r);
    forall k | k in projected ensures projected[k] == Expected(pre + [r], k) {
      ExpectedStep(pre, r, k);
    }
  }

  /** Recording a projected row into its key's entry, created empty when new. */
  lemma RecordPreserves(projected: map<Key, Meta>, pre: seq<ProjRow>, r: ProjRow)
    requires Describes(projected, pre) && r.key.Some?
    ensures var key := r.key.value;
      var meta := if key in projected then projected[key] else Meta(0, {}, {}, {});
      Describes(projected[key := Record(meta, r)], pre + [r])
  {
    var key := r.key.value;
    var meta := if key in projected then projected[key] else Meta(0, {}, {}, {});
    if key !in projected {
      NoKeyNoIds(pre, key);
    }
    assert meta == Expected(pre, key);
    var np := projected[key := Record(meta, r)];
    KeySetStep(pre, r);
    assert np.Keys == KeySet(pre + [r]);
    forall k | k in np ensures np[k] == Expected(pre + [r], k) {
      ExpectedStep(pre, r, k);
      if k != key {
        assert np[k] == projected[k];
      }
    }
  }

  /** The updates of one row to its key's metadata. */
  function Record(meta: Meta, r: ProjRow): Meta
  {
    var m1 := if r.id !in meta.tripleIds then meta.(tripleIds := meta.tripleIds + {r.id}, support := meta.support + 1) else meta;
    var m2 := if r.blockId.Some? then m1.(blockIds := m1.blockIds + {r.blockId.value}) else m1;
    if r.sourceId.Some? then m2.(sourceIds := m2.sourceIds + {r.sourceId.value}) else m2
  }

  /** One more row records itself into its own key's expected metadata and leaves the others. */
  lemma ExpectedStep(pre: seq<ProjRow>, r: ProjRow, k: Key)
    ensures Expected(pre + [r], k) == if r.key == Some(k) then Record(Expected(pre, k), r) else Expected(pre, k)
  {
    SpecStep(pre, r, k);
    var ids := Ids(pre, k);
    if r.key == Some(k) {
      if r.id !in ids {
        assert |ids + {r.id}| == |ids| + 1;
      } else {
        assert ids + {r.id} == ids;
      }
    } else {
      assert Ids(pre + [r], k) == ids;
    }
  }

  /** A key no row has carries no ids. */
  lemma NoKeyNoIds(ps: seq<ProjRow>, k: Key)
    requires k !in KeySet(ps)
    ensures Ids(ps, k) == {} && BlockIds(ps, k) == {} && SourceIds(ps, k) == {}
    decreases |ps|
  {
    if ps != [] {
      NoKeyNoIds(ps[..|ps| - 1], k);
    }
  }

  // ---------------------------------------------------------------------
  // The deterministic output of `project_structural_graph`
  // ---------------------------------------------------------------------

  /** Python's `<=` on `(subject, predicate, object)` tuples. */
  predicate KeyLe(a: Key, b: Key)
  {
    && LexLe(a.0, b.0)
    && (a.0 == b.0 ==> LexLe(a.1, b.1) && (a.1 == b.1 ==> LexLe(a.2, b.2)))
  }

  lemma KeyLeTotal(a: Key, b: Key)
    ensures KeyLe(a, b) || KeyLe(b, a)
  {
    LexLeTotal(a.0, b.0);
    LexLeTotal(a.1, b.1);
    LexLeTotal(a.2, b.2);
  }

  predicate SortedKeys(s: seq<Key>)
  {
    forall i :: 0 <= i < |s| - 1 ==> KeyLe(s[i], s[i + 1])
  }

  function InsertKey(s: seq<Key>, x: Key): (r: seq<Key>)
    requires SortedKeys(s)
    ensures SortedKeys(r)
    ensures multiset(r) == multiset(s) + multiset{x}
    ensures r[0] == x || (s != [] && r[0] == s[0])
  {
    if s == [] then [x]
    else if KeyLe(x, s[0]) then [x] + s
    else
      KeyLeTotal(x, s[0]);
      assert s == [s[0]] + s[1..];
      [s[0]] + InsertKey(s[1..], x)
  }

  /** `sorted(projected)`: the keys of a map in tuple order, each once. */
  method SortedKeysOf(keys: set<Key>) returns (r: seq<Key>)
    ensures SortedKeys(r)
    ensures |r| == |keys|
    ensures forall k :: k in r <==> k in keys
  {
    r := [];
    var rest := keys;
    while rest != {}
      invariant SortedKeys(r)
      invariant rest <= keys
      invariant forall k :: k in keys <==> k in r || k in rest
      invariant forall k :: k in r ==> k !in rest
      invariant |r| + |rest| == |keys|
      decreases |rest|
    {
      var x :| x in rest;
      var r' := InsertKey(r, x);
      assert forall k :: k in r' <==> k in multiset(r') by {
        assert forall k :: k in r' <==> k in multiset(r');
      }
      assert forall k :: k in r' <==> k in r || k == x by {
        assert forall k :: k in multiset(r') <==> k in multiset(r) || k == x;
      }
      r := r';
      rest := rest - {x};
    }
  }

  datatype StructEdge = StructEdge(
    subject: string, pred: string, obj: string, support: int,
    tripleIds: seq<int>, blockIds: seq<int>, sourceIds: seq<int>)

  datatype StructGraph = StructGraph(nodes: seq<string>, edges: seq<StructEdge>)

  datatype StructuralResult = StructuralResult(
    jobId: int, totalTriples: nat, projectedGroups: nat, graph: StructGraph)

  function EdgeKey(e: StructEdge): Key
  {
    (e.subject, e.pred, e.obj)
  }

  /** An edge shows its key, its support and each id set as an ascending list. */
  ghost predicate EdgeRenders(e: StructEdge, k: Key, m: Meta)
  {
    && EdgeKey(e) == k
    && e.support == m.support
    && StrictlyIncreasing(e.tripleIds) && (forall y :: y in e.tripleIds <==> y in m.tripleIds)
    && StrictlyIncreasing(e.blockIds) && (forall y :: y in e.blockIds <==> y in m.blockIds)
    && StrictlyIncreasing(e.sourceIds) && (forall y :: y in e.sourceIds <==> y in m.sourceIds)
  }

  method RenderEdge(k: Key, m: Meta) returns (e: StructEdge)
    ensures EdgeRenders(e, k, m)
  {
    var tids := SortedIds(m.tripleIds);
    var bids := SortedIds(m.blockIds);
    var sids := SortedIds(m.sourceIds);
    e := StructEdge(k.0, k.1, k.2, m.support, tids, bids, sids);
  }

  /** A node is the subject or the object of some projected key. */
  ghost predicate IsEndpoint(projected: map<Key, Meta>, n: string)
  {
    exists k :: k in projected && (k.0 == n || k.2 == n)
  }

  /**
   * The graph lists every projected key once as an edge, in tuple order, and
   * its nodes are exactly the keys' subjects and objects, sorted.
   */
  ghost predicate GraphRenders(g: StructGraph, projected: map<Key, Meta>)
  {
    && |g.edges| == |projected|
    && (forall i :: 0 <= i < |g.edges| ==> EdgeKey(g.edges[i]) in projected)
    && (forall i :: 0 <= i < |g.edges| ==> EdgeRenders(g.edges[i], EdgeKey(g.edges[i]), projected[EdgeKey(g.edges[i])]))
    && (forall k :: k in projected ==> exists i :: 0 <= i < |g.edges| && EdgeKey(g.edges[i]) == k)
    && (forall i :: 0 <= i < |g.edges| - 1 ==> KeyLe(EdgeKey(g.edges[i]), EdgeKey(g.edges[i + 1])))
    && SortedStrings(g.nodes)
    && (forall n :: n in g.nodes <==> IsEndpoint(projected, n))
  }

  /** The loop over the sorted keys: one edge per key, and the endpoints seen. */
  method RenderEdges(projected: map<Key, Meta>, ks: seq<Key>) returns (edges: seq<StructEdge>, nodes: set<string>)
    requires forall k :: k in ks ==> k in projected
    ensures |edges| == |ks|
    ensures forall j :: 0 <= j < |ks| ==> EdgeKey(edges[j]) == ks[j]
    ensures forall j :: 0 <= j < |ks| ==> EdgeKey(edges[j]) in projected
    ensures forall j :: 0 <= j < |ks| ==> EdgeRenders(edges[j], EdgeKey(edges[j]), projected[EdgeKey(edges[j])])
    ensures forall n :: n in nodes <==> exists j :: 0 <= j < |ks| && (ks[j].0 == n || ks[j].2 == n)
  {
    nodes := {};
    edges := [];
    for i := 0 to |ks|
      invariant |edges| == i
      invariant forall j :: 0 <= j < i ==> EdgeKey(edges[j]) == ks[j]
      invariant forall j :: 0 <= j < i ==> EdgeRenders(edges[j], ks[j], projected[ks[j]])
      invariant forall n :: n in nodes <==> exists j :: 0 <= j < i && (ks[j].0 == n || ks[j].2 == n)
    {
      var k := ks[i];
      nodes := nodes + {k.0, k.2};
      var e := RenderEdge(k, projected[k]);
      edges := edges + [e];
    }
  }

  /** Every key of the map has its edge. */
  lemma EdgesCover(projected: map<Key, Meta>, ks: seq<Key>, edges: seq<StructEdge>)
    requires |edges| == |ks| && forall k :: k in ks <==> k in projected
    requires forall j :: 0 <= j < |ks| ==> EdgeKey(edges[j]) == ks[j]
    ensures forall k :: k in projected ==> exists i :: 0 <= i < |edges| && EdgeKey(edges[i]) == k
  {
    forall k | k in projected ensures exists i :: 0 <= i < |edges| && EdgeKey(edges[i]) == k {
      var i :| 0 <= i < |ks| && ks[i] == k;
      assert EdgeKey(edges[i]) == k;
    }
  }

  /** The endpoints of the listed keys are those of the map. */
  lemma NodesCover(projected: map<Key, Meta>, ks: seq<Key>, nodes: set<string>)
    requires forall k :: k in ks <==> k in projected
    requires forall n :: n in nodes <==> exists j :: 0 <= j < |ks| && (ks[j].0 == n || ks[j].2 == n)
    ensures forall n :: n in nodes <==> IsEndpoint(projected, n)
  {
    forall n ensures n in nodes <==> IsEndpoint(projected, n) {
      if n in nodes {
        var j :| 0 <= j < |ks| && (ks[j].0 == n || ks[j].2 == n);
        assert ks[j] in projected;
      }
      if IsEndpoint(projected, n) {
        var k :| k in projected && (k.0 == n || k.2 == n);
        var j :| 0 <= j < |ks| && ks[j] == k;
      }
    }
  }

  method RenderStructuralGraph(projected: map<Key, Meta>) returns (g: StructGraph)
    ensures GraphRenders(g, projected)
  {
    var ks := SortedKeysOf(projected.Keys);
    var edges, nodes := RenderEdges(projected, ks);
    EdgesCover(projected, ks, edges);
    NodesCover(projected, ks, nodes);
    var names := SortedNames(nodes);
    g := StructGraph(names, edges);
  }

  /** The whole result for one job's stored triples. */
  ghost predicate StructuralDescribes(r: StructuralResult, jobId: int, triples: seq<RawTriple>)
  {
    var ps := ProjectRows(triples);
    && r.jobId == jobId
    && r.totalTriples == |triples|
    && r.projectedGroups == |KeySet(ps)|
    && exists projected :: Describes(projected, ps) && GraphRenders(r.graph, projected)
  }

  method ProjectStructuralGraph(jobId: int, triples: seq<RawTriple>) returns (r: StructuralResult)
    ensures StructuralDescribes(r, jobId, triples)
  {
    var projected := GroupProjections(triples);
    var g := RenderStructuralGraph(projected);
    r := StructuralResult(jobId, |triples|, |projected|, g);
  }
}
