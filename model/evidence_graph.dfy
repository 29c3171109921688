/**
 * The in-memory evidence graph: evidence groups count how often one
 * normalized triple was seen (and in which blocks and sources), and the
 * confidence-weighted graph keeps an adjacency list of the groups whose
 * support reaches its threshold.
 */
module EvidenceGraph {
  import opened Common
  import opened Sorting

  /** `EvidenceGroup.to_dict()`. */
  datatype GroupDict = GroupDict(
    subject: string, pred: string, obj: string, support: int,
    blockIds: seq<int>, sourceIds: seq<int>)

  /** `sorted(list(s))` for a set of ids. */
  method SortedIds(s: set<nat>) returns (r: seq<int>)
    ensures StrictlyIncreasing(r)
    ensures forall y :: y in r <==> y in s
  {
    r := [];
    var rest := s;
    while rest != {}
      invariant StrictlyIncreasing(r)
      invariant rest <= s
      invariant forall y :: y in s <==> y in r || y in rest
      decreases |rest|
    {
      var x :| x in rest;
      r := InsertUnique(r, x);
      rest := rest - {x};
    }
  }

  /** `sorted(list(s))` for a set of names. */
  method SortedNames(s: set<string>) returns (r: seq<string>)
    ensures SortedStrings(r)
    ensures |r| == |s|
    ensures forall y :: y in r <==> y in s
  {
    r := [];
    var rest := s;
    while rest != {}
      invariant SortedStrings(r)
      invariant rest <= s
      invariant forall y :: y in s <==> y in r || y in rest
      invariant forall y :: y in r ==> y !in rest
      invariant |r| + |rest| == |s|
      decreases |rest|
    {
      var x :| x in rest;
      var r' := InsertString(r, x);
      assert forall y :: y in r' <==> y in multiset(r') by {
        assert forall y :: y in r' <==> y in multiset(r');
      }
      assert forall y :: y in r' <==> y in r || y == x by {
        assert forall y :: y in multiset(r') <==> y in multiset(r) || y == x;
      }
      r := r';
      rest := rest - {x};
    }
  }

  class EvidenceGroup {
    const subject: string
    const pred: string
    const obj: string
    var count: int
    var blockIds: set<nat>
    var sourceIds: set<nat>

    /** Every block and source was recorded by some evidence call. */
    predicate Valid()
      reads this
    {
      0 <= count && |blockIds| <= count && |sourceIds| <= count
    }

    constructor (s: string, p: string, o: string)
      ensures subject == s && pred == p && obj == o
      ensures count == 0 && blockIds == {} && sourceIds == {}
      ensures Valid()
    {
      subject, pred, obj := s, p, o;
      count := 0;
      blockIds, sourceIds := {}, {};
    }

    /** `add_evidence`; a missing source id is `None`. */
    method AddEvidence(blockId: nat, sourceId: Option<nat>)
      requires Valid()
      modifies this
      ensures Valid()
      ensures count == old(count) + 1
      ensures blockIds == old(blockIds) + {blockId}
      ensures sourceIds == if sourceId.Some? then old(sourceIds) + {sourceId.value} else old(sourceIds)
    {
      count := count + 1;
      blockIds := blockIds + {blockId};
      if sourceId.Some? {
        sourceIds := sourceIds + {sourceId.value};
      }
    }

    /** `to_dict`: the support is the count, the id lists the sorted ids. */
    method ToDict() returns (d: GroupDict)
      ensures d.subject == subject && d.pred == pred && d.obj == obj && d.support == count
      ensures StrictlyIncreasing(d.blockIds) && forall y :: y in d.blockIds <==> y in blockIds
      ensures StrictlyIncreasing(d.sourceIds) && forall y :: y in d.sourceIds <==> y in sourceIds
    {
      var b := SortedIds(blockIds);
      var s := SortedIds(sourceIds);
      d := GroupDict(subject, pred, obj, count, b, s);
    }
  }

  /** One adjacency entry: predicate, object, the support at insertion, and the group. */
  datatype Edge = Edge(pred: string, obj: string, support: int, group: EvidenceGroup)

  /** The number of edges listed under `subjects`. */
  function TotalEdges(subjects: seq<string>, adjacency: map<string, seq<Edge>>): nat
    requires forall s :: s in subjects ==> s in adjacency
  {
    if subjects == [] then 0
    else
      var last := subjects[|subjects| - 1];
      TotalEdges(subjects[..|subjects| - 1], adjacency) + |adjacency[last]|
  }

  /** Lengthening one listed subject's edges by one adds one to the total. */
  lemma {:induction false} TotalEdgesAppend(subjects: seq<string>, adjacency: map<string, seq<Edge>>, k: string, e: Edge)
    requires forall s :: s in subjects ==> s in adjacency
    requires Distinct(subjects) && k in subjects
    ensures TotalEdges(subjects, adjacency[k := adjacency[k] + [e]]) == TotalEdges(subjects, adjacency) + 1
  {
    var pre := subjects[..|subjects| - 1];
    var last := subjects[|subjects| - 1];
    assert subjects == pre + [last];
    DistinctSnoc(pre, last);
    if last == k {
      TotalEdgesOther(pre, adjacency, k, adjacency[k] + [e]);
    } else {
      TotalEdgesAppend(pre, adjacency, k, e);
    }
  }

  /** Changing a subject that is not listed leaves the total unchanged. */
  lemma {:induction false} TotalEdgesOther(subjects: seq<string>, adjacency: map<string, seq<Edge>>, k: string, es: seq<Edge>)
    requires forall s :: s in subjects ==> s in adjacency
    requires k !in subjects
    ensures TotalEdges(subjects, adjacency[k := es]) == TotalEdges(subjects, adjacency)
  {
    if subjects != [] {
      TotalEdgesOther(subjects[..|subjects| - 1], adjacency, k, es);
    }
  }

  /** The graph invariant over the fields' values. */
  ghost predicate Consistent(subjects: seq<string>, adjacency: map<string, seq<Edge>>, nodes: set<string>, edgesCount: int)
  {
    && Distinct(subjects)
    && (forall s :: s in adjacency <==> s in subjects)
    && (forall s :: s in adjacency ==> s in nodes)
    && (forall s, i :: s in adjacency && 0 <= i < |adjacency[s]| ==> adjacency[s][i].obj in nodes)
    && edgesCount == TotalEdges(subjects, adjacency)
  }

  /** Appending an edge to a subject already in the adjacency keeps the invariant. */
  lemma AppendKnown(subjects: seq<string>, adjacency: map<string, seq<Edge>>, nodes: set<string>, edgesCount: int, e: Edge, k: string)
    requires Consistent(subjects, adjacency, nodes, edgesCount) && k in adjacency
    ensures Consistent(subjects, adjacency[k := adjacency[k] + [e]], nodes + {k, e.obj}, edgesCount + 1)
  {
    TotalEdgesAppend(subjects, adjacency, k, e);
    var adj: map<string, seq<Edge>> := adjacency[k := adjacency[k] + [e]];
    forall s: string, i: int | s in adj && 0 <= i < |adj[s]| ensures adj[s][i].obj in nodes + {k, e.obj} {
      if s == k && i == |adjacency[k]| {
      } else if s == k {
        assert adj[s][i] == adjacency[k][i];
      }
    }
  }

  /** Starting the list of a new subject keeps the invariant. */
  lemma AppendNew(subjects: seq<string>, adjacency: map<string, seq<Edge>>, nodes: set<string>, edgesCount: int, e: Edge, k: string)
    requires Consistent(subjects, adjacency, nodes, edgesCount) && k !in adjacency
    ensures Consistent(subjects + [k], adjacency[k := [e]], nodes + {k, e.obj}, edgesCount + 1)
  {
    DistinctSnoc(subjects, k);
    var adj: map<string, seq<Edge>> := adjacency[k := [e]];
    TotalEdgesOther(subjects, adjacency, k, [e]);
    assert (subjects + [k])[..|subjects|] == subjects;
    assert TotalEdges(subjects + [k], adj) == TotalEdges(subjects, adj) + 1;
    forall s: string, i: int | s in adj && 0 <= i < |adj[s]| ensures adj[s][i].obj in nodes + {k, e.obj} {
      if s != k {
        assert adj[s] == adjacency[s];
      }
    }
  }

  /** `to_dict()` of one adjacency entry. */
  datatype EdgeDict = EdgeDict(pred: string, obj: string, support: int, evidence: GroupDict)

  /** `ConfidenceWeightedGraph.to_dict()`; the adjacency in insertion order of its subjects. */
  datatype GraphDict = GraphDict(
    threshold: int, nodes: seq<string>, edges: int, adjacency: seq<(string, seq<EdgeDict>)>)

  class ConfidenceWeightedGraph {
    const threshold: int
    /** The adjacency's keys, in the order they were first appended to. */
    var subjects: seq<string>
    var adjacency: map<string, seq<Edge>>
    var nodes: set<string>
    var edgesCount: int

    /**
     * The adjacency's keys are its listed subjects; every subject and
     * object is a node; `edges_count` is the total adjacency length.
     */
    ghost predicate Valid()
      reads this
    {
      Consistent(subjects, adjacency, nodes, edgesCount)
    }

    constructor (threshold: int)
      ensures this.threshold == threshold
      ensures subjects == [] && adjacency == map[] && nodes == {} && edgesCount == 0
      ensures Valid()
    {
      this.threshold := threshold;
      subjects, adjacency, nodes, edgesCount := [], map[], {}, 0;
    }

    /** `get_node_neighbors`: the outgoing edges of `node`, none for an unknown node. */
    function Neighbors(node: string): (r: seq<Edge>)
      reads this
      ensures node !in adjacency ==> r == []
      ensures node in adjacency ==> r == adjacency[node]
    {
      if node in adjacency then adjacency[node] else []
    }

    /**
     * `add_edge_from_group`: below the threshold nothing changes; otherwise
     * the edge is appended to the subject's list, both endpoints become
     * nodes and the edge count grows by one.
     */
    method AddEdgeFromGroup(group: EvidenceGroup)
      requires Valid()
      modifies this
      ensures Valid()
      ensures group.count < threshold ==>
        subjects == old(subjects) && adjacency == old(adjacency) && nodes == old(nodes) && edgesCount == old(edgesCount)
      ensures group.count >= threshold ==>
        && adjacency == old(adjacency)[group.subject := old(Neighbors(group.subject))
                                          + [Edge(group.pred, group.obj, group.count, group)]]
        && subjects == (if group.subject in old(adjacency) then old(subjects) else old(subjects) + [group.subject])
        && nodes == old(nodes) + {group.subject, group.obj}
        && edgesCount == old(edgesCount) + 1
    {
      if group.count < threshold {
        return;
      }
      var e := Edge(group.pred, group.obj, group.count, group);
      var k := group.subject;
      if k in adjacency {
        AppendKnown(subjects, adjacency, nodes, edgesCount, e, k);
        adjacency := adjacency[k := adjacency[k] + [e]];
      } else {
        assert Neighbors(k) + [e] == [e];
        AppendNew(subjects, adjacency, nodes, edgesCount, e, k);
        subjects := subjects + [k];
        adjacency := adjacency[k := [e]];
      }
      nodes := nodes + {k, group.obj};
      edgesCount := edgesCount + 1;
    }

    /** `to_dict`: sorted nodes, the edge count, and each subject's entries with their group's evidence. */
    method ToDict() returns (d: GraphDict)
      requires Valid()
      ensures d.threshold == threshold && d.edges == edgesCount
      ensures SortedStrings(d.nodes) && |d.nodes| == |nodes| && forall y :: y in d.nodes <==> y in nodes
      ensures |d.adjacency| == |subjects|
      ensures forall i :: 0 <= i < |subjects| ==> AdjacencyEntry(d.adjacency[i], subjects[i])
    {
      var names := SortedNames(nodes);
      var adj: seq<(string, seq<EdgeDict>)> := [];
      for i := 0 to |subjects|
        invariant |adj| == i
        invariant forall k :: 0 <= k < i ==> AdjacencyEntry(adj[k], subjects[k])
      {
        var entries := EntriesOf(adjacency[subjects[i]]);
        adj := adj + [(subjects[i], entries)];
      }
      d := GraphDict(threshold, names, edgesCount, adj);
    }

    /** The rendering of `subject`'s entries. */
    ghost predicate AdjacencyEntry(x: (string, seq<EdgeDict>), subject: string)
      reads this, set s, j | s in adjacency && 0 <= j < |adjacency[s]| :: adjacency[s][j].group
    {
      && subject in adjacency
      && x.0 == subject
      && Rendered(adjacency[subject], x.1)
    }
  }

  /** `ds` renders `es` entry by entry. */
  ghost predicate Rendered(es: seq<Edge>, ds: seq<EdgeDict>)
    reads set j | 0 <= j < |es| :: es[j].group
  {
    |ds| == |es| &&
    forall j :: 0 <= j < |ds| ==>
      ds[j].pred == es[j].pred && ds[j].obj == es[j].obj && ds[j].support == es[j].support
      && ds[j].evidence.support == es[j].group.count
  }

  /** The entries of one subject, each with its group's `to_dict()`. */
  method EntriesOf(es: seq<Edge>) returns (ds: seq<EdgeDict>)
    ensures Rendered(es, ds)
  {
    ds := [];
    for j := 0 to |es|
      invariant |ds| == j
      invariant forall k :: 0 <= k < j ==>
        ds[k].pred == es[k].pred && ds[k].obj == es[k].obj && ds[k].support == es[k].support
        && ds[k].evidence.support == es[k].group.count
    {
      var g := es[j].group.ToDict();
      ds := ds + [EdgeDict(es[j].pred, es[j].obj, es[j].support, g)];
    }
  }
}
