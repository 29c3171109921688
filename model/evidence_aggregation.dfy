/**
 * Evidence aggregation: the triples of a job are normalized, grouped by
 * their normalized (subject, predicate, object), and the groups whose
 * support reaches the threshold become the edges of a confidence-weighted
 * graph. The rows read from the database are the input.
 */
module EvidenceAggregation {
  import opened Common
  import opened TripleNormalizer
  import opened Sorting
  import opened EvidenceGraph

  /** A stored triple; a component that is not a string is `None`. */
  datatype TripleRow = TripleRow(
    subject: Option<string>, pred: Option<string>, obj: Option<string>,
    blockId: nat, sourceId: Option<nat>)

  type Key = (string, string, string)

  /** A row after normalization: its key, or `None` when a component normalized to "". */
  datatype NormRow = NormRow(key: Option<Key>, blockId: nat, sourceId: Option<nat>)

  function NormalizeRow(row: TripleRow): (n: NormRow)
    ensures n.blockId == row.blockId && n.sourceId == row.sourceId
  {
    var k := NormalizeTriple(row.subject, row.pred, row.obj);
    NormRow(if k.0 != "" && k.1 != "" && k.2 != "" then Some(k) else None, row.blockId, row.sourceId)
  }

  function NormalizeRows(rows: seq<TripleRow>): (ns: seq<NormRow>)
    ensures |ns| == |rows|
  {
    if rows == [] then [] else NormalizeRows(rows[..|rows| - 1]) + [NormalizeRow(rows[|rows| - 1])]
  }

  // ---------------------------------------------------------------------
  // Specification, over the normalized rows
  // ---------------------------------------------------------------------

  /** The rows skipped because a component normalized to "". */
  function Errors(ns: seq<NormRow>): (n: nat)
    ensures n <= |ns|
  {
    if ns == [] then 0
    else Errors(ns[..|ns| - 1]) + (if ns[|ns| - 1].key.None? then 1 else 0)
  }

  /** The distinct keys, in order of first appearance. */
  function GroupKeys(ns: seq<NormRow>): (r: seq<Key>)
  {
    if ns == [] then []
    else
      var pre := GroupKeys(ns[..|ns| - 1]);
      var key := ns[|ns| - 1].key;
      if key.Some? && key.value !in pre then pre + [key.value] else pre
  }

  /** The number of rows with key `k`. */
  function Support(ns: seq<NormRow>, k: Key): nat
  {
    if ns == [] then 0
    else Support(ns[..|ns| - 1], k) + (if ns[|ns| - 1].key == Some(k) then 1 else 0)
  }

  /** The block ids of the rows with key `k`. */
  function Blocks(ns: seq<NormRow>, k: Key): set<nat>
  {
    if ns == [] then {}
    else
      var n := ns[|ns| - 1];
      Blocks(ns[..|ns| - 1], k) + (if n.key == Some(k) then {n.blockId} else {})
  }

  /** The source ids (those present) of the rows with key `k`. */
  function Sources(ns: seq<NormRow>, k: Key): set<nat>
  {
    if ns == [] then {}
    else
      var n := ns[|ns| - 1];
      Sources(ns[..|ns| - 1], k) + (if n.key == Some(k) && n.sourceId.Some? then {n.sourceId.value} else {})
  }

  /** The keys whose support reaches the threshold, in order. */
  function Qualifying(keys: seq<Key>, ns: seq<NormRow>, threshold: int): (r: seq<Key>)
    ensures |r| <= |keys|
    ensures forall k :: k in r <==> k in keys && Support(ns, k) >= threshold
  {
    if keys == [] then []
    else
      var k := keys[|keys| - 1];
      Qualifying(keys[..|keys| - 1], ns, threshold) + (if Support(ns, k) >= threshold then [k] else [])
  }

  /** The support of `keys` summed. */
  function SumSupport(keys: seq<Key>, ns: seq<NormRow>): nat
  {
    if keys == [] then 0 else SumSupport(keys[..|keys| - 1], ns) + Support(ns, keys[|keys| - 1])
  }

  // ---------------------------------------------------------------------
  // Properties of the specification
  // ---------------------------------------------------------------------

  /** The group keys are distinct, and a key is one iff some row has it. */
  lemma {:induction false} GroupKeysSpec(ns: seq<NormRow>)
    ensures Distinct(GroupKeys(ns))
    ensures forall k :: k in GroupKeys(ns) <==> exists i :: 0 <= i < |ns| && ns[i].key == Some(k)
  {
    if ns != [] {
      var pre := ns[..|ns| - 1];
      GroupKeysSpec(pre);
      var n := ns[|ns| - 1];
      if n.key.Some? {
        DistinctSnoc(GroupKeys(pre), n.key.value);
      }
      forall k ensures k in GroupKeys(ns) <==> exists i :: 0 <= i < |ns| && ns[i].key == Some(k) {
        if exists i :: 0 <= i < |pre| && pre[i].key == Some(k) {
          var i :| 0 <= i < |pre| && pre[i].key == Some(k);
          assert ns[i] == pre[i];
        }
        if exists i :: 0 <= i < |ns| && ns[i].key == Some(k) {
          var i :| 0 <= i < |ns| && ns[i].key == Some(k);
          if i < |pre| { assert pre[i] == ns[i]; }
        }
      }
    }
  }

  /** A key has positive support iff it is a group key. */
  lemma {:induction false} SupportPositive(ns: seq<NormRow>, k: Key)
    ensures Support(ns, k) > 0 <==> k in GroupKeys(ns)
  {
    if ns != [] {
      SupportPositive(ns[..|ns| - 1], k);
    }
  }

  lemma SumSupportSnoc(keys: seq<Key>, ns: seq<NormRow>, k: Key)
    ensures SumSupport(keys + [k], ns) == SumSupport(keys, ns) + Support(ns, k)
  {
    assert (keys + [k])[..|keys|] == keys;
  }

  /** One more row adds one to the summed support of distinct keys holding its key, and nothing otherwise. */
  lemma {:induction false} SumSupportStep(keys: seq<Key>, pre: seq<NormRow>, n: NormRow)
    requires Distinct(keys)
    ensures SumSupport(keys, pre + [n]) == SumSupport(keys, pre) + (if n.key.Some? && n.key.value in keys then 1 else 0)
  {
    var ns := pre + [n];
    assert ns[..|ns| - 1] == pre;
    if keys != [] {
      var ks := keys[..|keys| - 1];
      var last := keys[|keys| - 1];
      assert keys == ks + [last];
      DistinctSnoc(ks, last);
      SumSupportStep(ks, pre, n);
    }
  }

  /** Every row is either counted in exactly one group's support or counted as an error. */
  lemma {:induction false} RowsAccounted(ns: seq<NormRow>)
    ensures SumSupport(GroupKeys(ns), ns) + Errors(ns) == |ns|
  {
    if ns != [] {
      var pre := ns[..|ns| - 1];
      var n := ns[|ns| - 1];
      assert ns == pre + [n];
      RowsAccounted(pre);
      GroupKeysSpec(pre);
      SumSupportStep(GroupKeys(pre), pre, n);
      if n.key.Some? && n.key.value !in GroupKeys(pre) {
        SumSupportSnoc(GroupKeys(pre), ns, n.key.value);
        SupportPositive(pre, n.key.value);
        assert Support(ns, n.key.value) == 1;
      }
    }
  }

  lemma {:induction false} QualifyingDistinct(keys: seq<Key>, ns: seq<NormRow>, threshold: int)
    requires Distinct(keys)
    ensures Distinct(Qualifying(keys, ns, threshold))
  {
    if keys != [] {
      var ks := keys[..|keys| - 1];
      var last := keys[|keys| - 1];
      assert keys == ks + [last];
      DistinctSnoc(ks, last);
      QualifyingDistinct(ks, ns, threshold);
      DistinctSnoc(Qualifying(ks, ns, threshold), last);
    }
  }

  // ---------------------------------------------------------------------
  // `aggregate_evidence_for_job`
  // ---------------------------------------------------------------------

  /**
   * The threshold argument: a caller's int, or the default, which is the
   * environment variable's raw value, a string or nothing.
   */
  datatype ThresholdArg = IntArg(n: int) | StrArg(s: string) | NoneArg

  /** The dictionary `aggregate_evidence_for_job` returns. */
  datatype AggregationResult = AggregationResult(
    jobId: int, threshold: ThresholdArg, totalTriples: nat, evidenceGroups: nat,
    filteredGroups: nat, errors: nat, graph: GraphDict)

  /** The state of one evidence group, and the state the rows `ns` call for under key `k`. */
  datatype GroupState = GroupState(count: int, blockIds: set<nat>, sourceIds: set<nat>)

  function Expected(ns: seq<NormRow>, k: Key): GroupState
  {
    GroupState(Support(ns, k), Blocks(ns, k), Sources(ns, k))
  }

  function Recorded(st: GroupState, n: NormRow): GroupState
  {
    GroupState(st.count + 1, st.blockIds + {n.blockId},
      if n.sourceId.Some? then st.sourceIds + {n.sourceId.value} else st.sourceIds)
  }

  /** One more row changes only the expected state under its own key, by recording it. */
  lemma ExpectedStep(pre: seq<NormRow>, n: NormRow, k: Key)
    ensures Expected(pre + [n], k) == if n.key == Some(k) then Recorded(Expected(pre, k), n) else Expected(pre, k)
  {
    assert (pre + [n])[..|pre|] == pre;
  }

  /** One more row: an unusable one adds an error, a new key joins the group keys. */
  lemma KeysStep(pre: seq<NormRow>, n: NormRow)
    ensures GroupKeys(pre + [n]) == if n.key.Some? && n.key.value !in GroupKeys(pre) then GroupKeys(pre) + [n.key.value] else GroupKeys(pre)
    ensures Errors(pre + [n]) == Errors(pre) + if n.key.None? then 1 else 0
  {
    assert (pre + [n])[..|pre|] == pre;
  }

  /** The groups built so far describe `ns`: one distinct group per key, holding the expected state. */
  ghost predicate GroupsDescribe(groups: map<Key, EvidenceGroup>, keys: seq<Key>, ns: seq<NormRow>)
    reads groups.Values
  {
    && (forall k :: k in groups <==> k in keys)
    && (forall k1, k2 :: k1 in groups && k2 in groups && k1 != k2 ==> groups[k1] != groups[k2])
    && (forall k :: k in groups ==>
          && groups[k].Valid()
          && groups[k].subject == k.0 && groups[k].pred == k.1 && groups[k].obj == k.2
          && GroupState(groups[k].count, groups[k].blockIds, groups[k].sourceIds) == Expected(ns, k))
  }

  /** The grouping loop: one evidence group per normalized key, unusable rows counted as errors. */
  method GroupRows(rows: seq<TripleRow>) returns (keys: seq<Key>, groups: map<Key, EvidenceGroup>, errors: nat)
    ensures keys == GroupKeys(NormalizeRows(rows)) && errors == Errors(NormalizeRows(rows))
    ensures GroupsDescribe(groups, keys, NormalizeRows(rows))
    ensures forall g :: g in groups.Values ==> fresh(g)
  {
    ghost var ns := NormalizeRows(rows);
    keys, groups, errors := [], map[], 0;
    for i := 0 to |rows|
      invariant keys == GroupKeys(ns[..i]) && errors == Errors(ns[..i])
      invariant GroupsDescribe(groups, keys, ns[..i])
      invariant forall g :: g in groups.Values ==> fresh(g)
    {
      var n := NormalizeAt(rows, i, ns);
      PrefixSnoc(ns, i);
      keys, groups, errors := AddRow(keys, groups, errors, ns[..i], n);
    }
    assert ns[..|rows|] == ns;
  }

  lemma PrefixSnoc<T>(s: seq<T>, i: nat)
    requires i < |s|
    ensures s[..i + 1] == s[..i] + [s[i]]
  {
    assert s[..i + 1] == s[..i] + [s[i]];
  }

  /** `normalize_triple` on the row at `i`. */
  method NormalizeAt(rows: seq<TripleRow>, i: nat, ghost ns: seq<NormRow>) returns (n: NormRow)
    requires i < |rows| && ns == NormalizeRows(rows)
    ensures n == ns[i]
  {
    n := NormalizeRow(rows[i]);
    NormalizeRowsAt(rows, i);
  }

  lemma {:induction false} NormalizeRowsAt(rows: seq<TripleRow>, i: nat)
    requires i < |rows|
    ensures NormalizeRows(rows)[i] == NormalizeRow(rows[i])
  {
    if i < |rows| - 1 {
      NormalizeRowsAt(rows[..|rows| - 1], i);
    }
  }

  /** One pass of the grouping loop: an unusable row is an error, otherwise its group records it. */
  method AddRow(keys: seq<Key>, groups: map<Key, EvidenceGroup>, errors: nat, ghost pre: seq<NormRow>, n: NormRow)
    returns (keys': seq<Key>, groups': map<Key, EvidenceGroup>, errors': nat)
    requires keys == GroupKeys(pre) && errors == Errors(pre)
    requires GroupsDescribe(groups, keys, pre)
    modifies groups.Values
    ensures keys' == GroupKeys(pre + [n]) && errors' == Errors(pre + [n])
    ensures GroupsDescribe(groups', keys', pre + [n])
    ensures forall g :: g in groups'.Values ==> g in groups.Values || fresh(g)
  {
    KeysStep(pre, n);
    if n.key.None? {
      keys', groups', errors' := keys, groups, errors + 1;
      forall k | k in groups ensures Expected(pre + [n], k) == Expected(pre, k) {
        ExpectedStep(pre, n, k);
      }
    } else {
      var key := n.key.value;
      keys', groups', errors' := keys, groups, errors;
      if key !in groups {
        SupportPositive(pre, key);
        keys', groups' := NewGroup(keys, groups, pre, key);
      }
      RecordIn(keys', groups', pre, n);
    }
  }

  /** A fresh, empty group for a key no row has had yet. */
  method NewGroup(keys: seq<Key>, groups: map<Key, EvidenceGroup>, ghost pre: seq<NormRow>, key: Key)
    returns (keys': seq<Key>, groups': map<Key, EvidenceGroup>)
    requires GroupsDescribe(groups, keys, pre)
    requires key !in groups && Support(pre, key) == 0
    ensures keys' == keys + [key] && key in groups' && fresh(groups'[key])
    ensures GroupsDescribe(groups', keys', pre)
    ensures forall g :: g in groups'.Values ==> g in groups.Values || fresh(g)
  {
    NoSupportNoIds(pre, key);
    var g := new EvidenceGroup(key.0, key.1, key.2);
    groups' := groups[key := g];
    keys' := keys + [key];
  }

  /** `add_evidence` on the group of the row's key; the other groups keep their state. */
  method RecordIn(keys: seq<Key>, groups: map<Key, EvidenceGroup>, ghost pre: seq<NormRow>, n: NormRow)
    requires n.key.Some? && n.key.value in groups
    requires GroupsDescribe(groups, keys, pre)
    modifies groups[n.key.value]
    ensures GroupsDescribe(groups, keys, pre + [n])
  {
    var key := n.key.value;
    groups[key].AddEvidence(n.blockId, n.sourceId);
    forall k | k in groups
      ensures GroupState(groups[k].count, groups[k].blockIds, groups[k].sourceIds) == Expected(pre + [n], k)
    {
      ExpectedStep(pre, n, k);
    }
  }

  /** A key without support has no block and no source ids. */
  lemma {:induction false} NoSupportNoIds(ns: seq<NormRow>, k: Key)
    requires Support(ns, k) == 0
    ensures Blocks(ns, k) == {} && Sources(ns, k) == {}
  {
    if ns != [] {
      NoSupportNoIds(ns[..|ns| - 1], k);
    }
  }

  // ---------------------------------------------------------------------
  // The graph the qualifying groups build
  // ---------------------------------------------------------------------

  /** The edge a qualifying key contributes: its predicate, object, support and group. */
  function ToEdge(k: Key, ns: seq<NormRow>, groups: map<Key, EvidenceGroup>): Edge
    requires k in groups
  {
    Edge(k.1, k.2, Support(ns, k), groups[k])
  }

  /** The subjects of `qs`, distinct, in order of first appearance. */
  function Subjects(qs: seq<Key>): seq<string>
  {
    if qs == [] then []
    else
      var pre := Subjects(qs[..|qs| - 1]);
      var s := qs[|qs| - 1].0;
      if s in pre then pre else pre + [s]
  }

  /** Every subject and object of `qs`. */
  function Endpoints(qs: seq<Key>): set<string>
  {
    if qs == [] then {} else Endpoints(qs[..|qs| - 1]) + {qs[|qs| - 1].0, qs[|qs| - 1].2}
  }

  /** The keys of `qs` whose subject is `s`, in order. */
  function KeysWithSubject(qs: seq<Key>, s: string): (r: seq<Key>)
    ensures forall k :: k in r <==> k in qs && k.0 == s
  {
    if qs == [] then []
    else
      var pre := qs[..|qs| - 1];
      assert qs == pre + [qs[|qs| - 1]];
      KeysWithSubject(pre, s) + if qs[|qs| - 1].0 == s then [qs[|qs| - 1]] else []
  }

  function EdgesFor(ks: seq<Key>, ns: seq<NormRow>, groups: map<Key, EvidenceGroup>): (es: seq<Edge>)
    requires forall k :: k in ks ==> k in groups
    ensures |es| == |ks|
    ensures forall j :: 0 <= j < |ks| ==> es[j] == ToEdge(ks[j], ns, groups)
  {
    seq(|ks|, j requires 0 <= j < |ks| => ToEdge(ks[j], ns, groups))
  }

  /** The adjacency that adding the edges of `qs` one by one builds. */
  function Adjacency(qs: seq<Key>, ns: seq<NormRow>, groups: map<Key, EvidenceGroup>): map<string, seq<Edge>>
    requires forall k :: k in qs ==> k in groups
  {
    if qs == [] then map[]
    else
      var pre := Adjacency(qs[..|qs| - 1], ns, groups);
      var k := qs[|qs| - 1];
      pre[k.0 := (if k.0 in pre then pre[k.0] else []) + [ToEdge(k, ns, groups)]]
  }

  /** One more qualifying key: the step of each graph specification function. */
  lemma GraphStep(qs: seq<Key>, k: Key, ns: seq<NormRow>, groups: map<Key, EvidenceGroup>)
    requires forall x :: x in qs + [k] ==> x in groups
    ensures Subjects(qs + [k]) == if k.0 in Subjects(qs) then Subjects(qs) else Subjects(qs) + [k.0]
    ensures Endpoints(qs + [k]) == Endpoints(qs) + {k.0, k.2}
    ensures var pre := Adjacency(qs, ns, groups);
      Adjacency(qs + [k], ns, groups) == pre[k.0 := (if k.0 in pre then pre[k.0] else []) + [ToEdge(k, ns, groups)]]
  {
    assert (qs + [k])[..|qs|] == qs;
  }

  /** The subjects are distinct, and a subject is one iff some key has it. */
  lemma {:induction false} SubjectsSpec(qs: seq<Key>)
    ensures Distinct(Subjects(qs))
    ensures forall s :: s in Subjects(qs) <==> exists k :: k in qs && k.0 == s
  {
    if qs != [] {
      var pre := qs[..|qs| - 1];
      var last := qs[|qs| - 1];
      assert qs == pre + [last];
      SubjectsSpec(pre);
      DistinctSnoc(Subjects(pre), last.0);
      forall s ensures s in Subjects(qs) <==> exists k :: k in qs && k.0 == s {
        if exists k :: k in pre && k.0 == s {
          var k :| k in pre && k.0 == s;
          assert k in qs;
        }
      }
    }
  }

  /** A string is an endpoint iff it is the subject or the object of some key. */
  lemma {:induction false} EndpointsSpec(qs: seq<Key>)
    ensures forall x :: x in Endpoints(qs) <==> exists k :: k in qs && (k.0 == x || k.2 == x)
  {
    if qs != [] {
      var pre := qs[..|qs| - 1];
      var last := qs[|qs| - 1];
      assert qs == pre + [last];
      EndpointsSpec(pre);
      forall x ensures x in Endpoints(qs) <==> exists k :: k in qs && (k.0 == x || k.2 == x) {
        if exists k :: k in pre && (k.0 == x || k.2 == x) {
          var k :| k in pre && (k.0 == x || k.2 == x);
          assert k in qs;
        }
      }
    }
  }

  /**
   * The adjacency has one entry per subject, and the entry of `s` lists
   * the edges of the keys with subject `s`, in the order of `qs`.
   */
  lemma {:induction false} AdjacencySpec(qs: seq<Key>, ns: seq<NormRow>, groups: map<Key, EvidenceGroup>)
    requires forall k :: k in qs ==> k in groups
    ensures forall s :: s in Adjacency(qs, ns, groups) <==> s in Subjects(qs)
    ensures forall s :: s in Adjacency(qs, ns, groups) ==>
      KeysWithSubject(qs, s) != [] && Adjacency(qs, ns, groups)[s] == EdgesFor(KeysWithSubject(qs, s), ns, groups)
  {
    if qs != [] {
      var pre := qs[..|qs| - 1];
      var k := qs[|qs| - 1];
      assert qs == pre + [k];
      AdjacencySpec(pre, ns, groups);
      GraphStep(pre, k, ns, groups);
      var adj := Adjacency(pre, ns, groups);
      forall s | s in Adjacency(qs, ns, groups)
        ensures KeysWithSubject(qs, s) != [] && Adjacency(qs, ns, groups)[s] == EdgesFor(KeysWithSubject(qs, s), ns, groups)
      {
        KeysWithSubjectStep(pre, k, s);
        if s == k.0 {
          var ks := KeysWithSubject(pre, s);
          if s !in adj {
            NoSubjectNoKeys(pre, s);
          }
          EdgesForSnoc(ks, k, ns, groups);
        }
      }
    }
  }

  lemma KeysWithSubjectStep(qs: seq<Key>, k: Key, s: string)
    ensures KeysWithSubject(qs + [k], s) == KeysWithSubject(qs, s) + if k.0 == s then [k] else []
  {
    assert (qs + [k])[..|qs|] == qs;
  }

  lemma EdgesForSnoc(ks: seq<Key>, k: Key, ns: seq<NormRow>, groups: map<Key, EvidenceGroup>)
    requires forall x :: x in ks + [k] ==> x in groups
    ensures EdgesFor(ks + [k], ns, groups) == EdgesFor(ks, ns, groups) + [ToEdge(k, ns, groups)]
  {
    assert EdgesFor(ks + [k], ns, groups) == EdgesFor(ks, ns, groups) + [ToEdge(k, ns, groups)];
  }

  lemma {:induction false} NoSubjectNoKeys(qs: seq<Key>, s: string)
    requires s !in Subjects(qs)
    ensures KeysWithSubject(qs, s) == []
  {
    if qs != [] {
      NoSubjectNoKeys(qs[..|qs| - 1], s);
    }
  }

  /** The qualifying keys among the first `i + 1` keys. */
  lemma QualifyingStep(keys: seq<Key>, ns: seq<NormRow>, t: int, i: nat)
    requires i < |keys|
    ensures Qualifying(keys[..i + 1], ns, t)
      == Qualifying(keys[..i], ns, t) + if Support(ns, keys[i]) >= t then [keys[i]] else []
  {
    assert keys[..i + 1][..i] == keys[..i];
  }

  /**
   * The graph-building loop: each group whose count reaches the threshold
   * becomes an edge; the graph then holds exactly the qualifying groups.
   */
  method BuildGraph(keys: seq<Key>, groups: map<Key, EvidenceGroup>, ghost ns: seq<NormRow>, t: int)
    returns (graph: ConfidenceWeightedGraph, filtered: nat)
    requires GroupsDescribe(groups, keys, ns)
    ensures fresh(graph) && graph.Valid() && graph.threshold == t
    ensures var qs := Qualifying(keys, ns, t);
      && filtered == |qs| == graph.edgesCount
      && graph.subjects == Subjects(qs)
      && graph.nodes == Endpoints(qs)
      && graph.adjacency == Adjacency(qs, ns, groups)
  {
    graph := new ConfidenceWeightedGraph(t);
    filtered := 0;
    for i := 0 to |keys|
      invariant GraphHolds(graph, Qualifying(keys[..i], ns, t), ns, groups, t, filtered)
    {
      QualifyingStep(keys, ns, t, i);
      AddIfQualifying(graph, keys[i], groups, keys, ns, t, Qualifying(keys[..i], ns, t));
      if groups[keys[i]].count >= t {
        filtered := filtered + 1;
      }
    }
    assert keys[..|keys|] == keys;
  }

  /** The graph holds exactly the edges of `qs`. */
  ghost predicate GraphHolds(graph: ConfidenceWeightedGraph, qs: seq<Key>, ns: seq<NormRow>,
                             groups: map<Key, EvidenceGroup>, t: int, filtered: int)
    reads graph
  {
    && (forall k :: k in qs ==> k in groups)
    && graph.Valid() && graph.threshold == t
    && filtered == |qs| == graph.edgesCount
    && graph.subjects == Subjects(qs)
    && graph.nodes == Endpoints(qs)
    && graph.adjacency == Adjacency(qs, ns, groups)
  }

  /** One pass of the graph-building loop over the group of `k`. */
  method AddIfQualifying(graph: ConfidenceWeightedGraph, k: Key, groups: map<Key, EvidenceGroup>,
                         ghost keys: seq<Key>, ghost ns: seq<NormRow>, t: int, ghost qs: seq<Key>)
    requires GroupsDescribe(groups, keys, ns) && k in keys
    requires GraphHolds(graph, qs, ns, groups, t, graph.edgesCount)
    modifies graph
    ensures var qs' := qs + if Support(ns, k) >= t then [k] else [];
      GraphHolds(graph, qs', ns, groups, t, graph.edgesCount)
    ensures graph.edgesCount == old(graph.edgesCount) + if groups[k].count >= t then 1 else 0
  {
    var g := groups[k];
    assert g.subject == k.0 && g.pred == k.1 && g.obj == k.2 && g.count == Support(ns, k);
    if g.count >= t {
      GraphStep(qs, k, ns, groups);
      assert k.0 in graph.adjacency <==> k.0 in Subjects(qs);
    } else {
      assert qs + [] == qs;
    }
    graph.AddEdgeFromGroup(g);
  }

  // ---------------------------------------------------------------------
  // The threshold and the whole job
  // ---------------------------------------------------------------------

  /** `count >= threshold`: an int compares, a string or `None` raises a TypeError. */
  function MeetsThreshold(count: int, t: ThresholdArg): (r: Option<bool>)
    ensures r.None? <==> !t.IntArg?
    ensures r.Some? ==> (r.value <==> count >= t.n)
  {
    match t
    case IntArg(n) => Some(count >= n)
    case _ => None
  }

  /** The default as written: the raw value of `MINIMUM_EDGE_SUPPORT`, never an int. */
  function DefaultThresholdAsWritten(env: Option<string>): (t: ThresholdArg)
    ensures !t.IntArg?
  {
    if env.Some? then StrArg(env.value) else NoneArg
  }

  /** The default the documentation describes: the variable's number when it is one, else 2. */
  function IntendedDefaultThreshold(env: Option<string>): (n: nat)
    ensures env.None? ==> n == 2
  {
    if env.Some? && env.value != [] && IsDigits(env.value) then DigitsValue(env.value) else 2
  }

  /** As written, the default threshold makes every comparison raise. */
  lemma DefaultThresholdRaises(env: Option<string>, count: int)
    ensures MeetsThreshold(count, DefaultThresholdAsWritten(env)).None?
  {
  }

  /** The intended default compares, and reads back the number the variable spells. */
  lemma {:induction false} IntendedDefaultCompares(m: nat, count: int)
    ensures MeetsThreshold(count, IntArg(IntendedDefaultThreshold(Some(NatToString(m))))) == Some(count >= m)
  {
    DigitsValueOfString(m);
  }

  /**
   * What a job's result states about its normalized rows `ns`: it fails
   * exactly when a non-int threshold meets a group; otherwise it counts the
   * rows, groups and errors, and its graph holds exactly the groups whose
   * support reaches the threshold (none when no group was compared).
   */
  ghost predicate JobResult(r: Outcome<AggregationResult>, jobId: int, total: nat, ns: seq<NormRow>, threshold: ThresholdArg)
  {
    && (r.Failure? <==> !threshold.IntArg? && GroupKeys(ns) != [])
    && (r.Success? ==>
         var a := r.value;
         && a.jobId == jobId && a.threshold == threshold
         && a.totalTriples == total
         && a.evidenceGroups == |GroupKeys(ns)|
         && a.errors == Errors(ns)
         && a.graph.edges == a.filteredGroups
         && (!threshold.IntArg? ==> a.filteredGroups == 0 && a.graph.nodes == [] && a.graph.adjacency == [])
         && (threshold.IntArg? ==>
               var qs := Qualifying(GroupKeys(ns), ns, threshold.n);
               && a.filteredGroups == |qs|
               && a.graph.threshold == threshold.n
               && GraphDescribes(a.graph, qs, ns)))
  }

  /**
   * `aggregate_evidence_for_job` on the job's stored triples: each row
   * is normalized and grouped; each group reaching the threshold becomes an
   * edge. A non-int threshold raises on the first group compared.
   */
  method AggregateEvidenceForJob(jobId: int, rows: seq<TripleRow>, threshold: ThresholdArg)
    returns (r: Outcome<AggregationResult>)
    ensures JobResult(r, jobId, |rows|, NormalizeRows(rows), threshold)
  {
    var keys, groups, errors := GroupRows(rows);
    r := AggregateGroups(jobId, |rows|, keys, groups, errors, NormalizeRows(rows), threshold);
  }

  /** There are at most as many groups plus errors as there are rows. */
  lemma GroupsAndErrorsBound(ns: seq<NormRow>)
    ensures |GroupKeys(ns)| + Errors(ns) <= |ns|
  {
    RowsAccounted(ns);
    SupportAtLeastOne(GroupKeys(ns), ns);
  }

  /** Distinct group keys each have support at least one. */
  lemma {:induction false} SupportAtLeastOne(keys: seq<Key>, ns: seq<NormRow>)
    requires forall k :: k in keys ==> k in GroupKeys(ns)
    ensures SumSupport(keys, ns) >= |keys|
  {
    if keys != [] {
      var last := keys[|keys| - 1];
      assert last in keys;
      SupportPositive(ns, last);
      assert forall k :: k in keys[..|keys| - 1] ==> k in keys;
      SupportAtLeastOne(keys[..|keys| - 1], ns);
    }
  }

  /** The thresholding and graph building that follow the grouping loop. */
  method AggregateGroups(jobId: int, total: nat, keys: seq<Key>, groups: map<Key, EvidenceGroup>, errors: nat,
                         ghost ns: seq<NormRow>, threshold: ThresholdArg)
    returns (r: Outcome<AggregationResult>)
    requires keys == GroupKeys(ns) && errors == Errors(ns)
    requires GroupsDescribe(groups, keys, ns)
    ensures JobResult(r, jobId, total, ns, threshold)
  {
    if !threshold.IntArg? {
      if keys != [] {
        assert MeetsThreshold(groups[keys[0]].count, threshold).None?;
        return Failure("TypeError: '>=' not supported between int and " + if threshold.StrArg? then "str" else "NoneType");
      }
      var graph := new ConfidenceWeightedGraph(0);
      var d := graph.ToDict();
      return Success(AggregationResult(jobId, threshold, total, |keys|, 0, errors, d));
    }
    var t := threshold.n;
    var graph, filtered := BuildGraph(keys, groups, ns, t);
    var d := RenderGraph(graph, Qualifying(keys, ns, t), ns, groups);
    r := Success(AggregationResult(jobId, threshold, total, |keys|, filtered, errors, d));
  }

  /** The rendered entry of subject `s` lists the edges of the keys `ks`, in order. */
  ghost predicate EntryDescribes(x: (string, seq<EdgeDict>), s: string, ks: seq<Key>, ns: seq<NormRow>)
  {
    && x.0 == s
    && |x.1| == |ks|
    && forall j :: 0 <= j < |ks| ==>
         x.1[j].pred == ks[j].1 && x.1[j].obj == ks[j].2
         && x.1[j].support == x.1[j].evidence.support == Support(ns, ks[j])
  }

  /**
   * The rendered graph holds exactly the qualifying keys `qs`: one edge
   * each, their endpoints as the sorted nodes, and one entry per subject in
   * order of first appearance.
   */
  ghost predicate GraphDescribes(d: GraphDict, qs: seq<Key>, ns: seq<NormRow>)
  {
    && d.edges == |qs|
    && SortedStrings(d.nodes)
    && (forall x :: x in d.nodes <==> exists k :: k in qs && (k.0 == x || k.2 == x))
    && |d.adjacency| == |Subjects(qs)|
    && forall i :: 0 <= i < |d.adjacency| ==>
         EntryDescribes(d.adjacency[i], Subjects(qs)[i], KeysWithSubject(qs, Subjects(qs)[i]), ns)
  }

  /** `graph.to_dict()` of a graph holding exactly the edges of `qs`. */
  method RenderGraph(graph: ConfidenceWeightedGraph, ghost qs: seq<Key>, ghost ns: seq<NormRow>,
                     ghost groups: map<Key, EvidenceGroup>) returns (d: GraphDict)
    requires GraphHolds(graph, qs, ns, groups, graph.threshold, graph.edgesCount)
    requires forall k :: k in qs ==> k in groups && groups[k].count == Support(ns, k)
    ensures d.threshold == graph.threshold
    ensures GraphDescribes(d, qs, ns)
  {
    SubjectsSpec(qs);
    EndpointsSpec(qs);
    d := graph.ToDict();
    EntriesRendered(graph, d, qs, ns, groups);
  }

  /** Each rendered entry lists the qualifying keys of its subject. */
  lemma EntriesRendered(graph: ConfidenceWeightedGraph, d: GraphDict, qs: seq<Key>, ns: seq<NormRow>,
                        groups: map<Key, EvidenceGroup>)
    requires GraphHolds(graph, qs, ns, groups, graph.threshold, graph.edgesCount)
    requires forall k :: k in qs ==> k in groups && groups[k].count == Support(ns, k)
    requires |d.adjacency| == |graph.subjects|
    requires forall i :: 0 <= i < |graph.subjects| ==> graph.AdjacencyEntry(d.adjacency[i], graph.subjects[i])
    ensures forall i :: 0 <= i < |d.adjacency| ==>
      EntryDescribes(d.adjacency[i], Subjects(qs)[i], KeysWithSubject(qs, Subjects(qs)[i]), ns)
  {
    AdjacencySpec(qs, ns, groups);
    forall i | 0 <= i < |d.adjacency|
      ensures EntryDescribes(d.adjacency[i], Subjects(qs)[i], KeysWithSubject(qs, Subjects(qs)[i]), ns)
    {
      var s := Subjects(qs)[i];
      assert graph.AdjacencyEntry(d.adjacency[i], s);
      var ks := KeysWithSubject(qs, s);
      var es := graph.adjacency[s];
      assert es == EdgesFor(ks, ns, groups);
      var x := d.adjacency[i];
      assert Rendered(es, x.1);
      forall j | 0 <= j < |ks|
        ensures x.1[j].pred == ks[j].1 && x.1[j].obj == ks[j].2
          && x.1[j].support == x.1[j].evidence.support == Support(ns, ks[j])
      {
        assert es[j] == ToEdge(ks[j], ns, groups);
        assert ks[j] in qs;
      }
    }
  }
}
