/**
 * The grouping half of the indirect-path measurements: hypotheses grouped
 * by their (source, target) pair in first-seen order, the number of
 * distinct paths per pair, and the pair with the highest mean confidence.
 */
module IndirectGroups {
  import opened Common

  /** `filter_reason` as the rejection summary reads it. */
  datatype Reason =
    | ReasonMissing
    | ReasonNone
    | ReasonDict(keys: seq<string>)
    | ReasonList(items: seq<string>)
    | ReasonStr(s: string)
    | ReasonOther(repr: string)

  /**
   * A hypothesis dict with the keys these measurements read; `path` is
   * `None` when the key is absent and `confidence` is 0 when it is absent.
   */
  datatype PathHyp = PathHyp(
    source: Option<string>,
    target: Option<string>,
    path: Option<seq<string>>,
    confidence: real,
    passedFilter: bool,
    filterReason: Reason)

  type Pair = (string, string)

  /** `h.get("path", [])` */
  function PathOf(h: PathHyp): seq<string>
  {
    if h.path.Some? then h.path.value else []
  }

  /** The grouping key, present only when both endpoints are truthy. */
  function KeyOf(h: PathHyp): (r: Option<Pair>)
    ensures r.Some? <==> Truthy(h.source) && Truthy(h.target)
    ensures r.Some? ==> r.value == (h.source.value, h.target.value)
  {
    if Truthy(h.source) && Truthy(h.target) then Some((h.source.value, h.target.value)) else None
  }

  datatype Group = Group(pair: Pair, members: seq<PathHyp>)

  /** The hypotheses of `hs` whose key is `p`, in input order. */
  function WithPair(hs: seq<PathHyp>, p: Pair): (r: seq<PathHyp>)
    ensures forall h :: h in r ==> h in hs && KeyOf(h) == Some(p)
    ensures r == [] <==> forall h :: h in hs ==> KeyOf(h) != Some(p)
  {
    if hs == [] then []
    else
      var h := hs[|hs| - 1];
      WithPair(hs[..|hs| - 1], p) + (if KeyOf(h) == Some(p) then [h] else [])
  }

  /** Position of the group for `p`, or -1 (the dict lookup). */
  function IndexOfPair(groups: seq<Group>, p: Pair): (r: int)
    ensures -1 <= r < |groups|
    ensures r >= 0 ==> groups[r].pair == p
    ensures r == -1 <==> forall i :: 0 <= i < |groups| ==> groups[i].pair != p
  {
    if groups == [] then -1
    else if groups[|groups| - 1].pair == p then |groups| - 1
    else IndexOfPair(groups[..|groups| - 1], p)
  }

  /** `groups.get(p, [])` */
  function Lookup(groups: seq<Group>, p: Pair): seq<PathHyp>
  {
    var i := IndexOfPair(groups, p);
    if i >= 0 then groups[i].members else []
  }

  /** `groups[key].append(h)` on a `defaultdict(list)`. */
  function AddToGroup(groups: seq<Group>, p: Pair, h: PathHyp): (r: seq<Group>)
    ensures |r| >= |groups| && |r| >= 1
    ensures forall i :: 0 <= i < |groups| ==> r[i].pair == groups[i].pair
    ensures forall i :: |groups| <= i < |r| ==> r[i].pair == p
  {
    var i := IndexOfPair(groups, p);
    if i >= 0 then groups[i := Group(p, groups[i].members + [h])]
    else groups + [Group(p, [h])]
  }

  /** `_group_by_source_target`, as a left fold over the hypotheses. */
  function GroupsOf(hs: seq<PathHyp>): seq<Group>
  {
    if hs == [] then []
    else
      var h := hs[|hs| - 1];
      var prev := GroupsOf(hs[..|hs| - 1]);
      if KeyOf(h).Some? then AddToGroup(prev, KeyOf(h).value, h) else prev
  }

  predicate PairsDistinct(groups: seq<Group>)
  {
    forall i, j :: 0 <= i < j < |groups| ==> groups[i].pair != groups[j].pair
  }

  predicate MembersNonEmpty(groups: seq<Group>)
  {
    forall i :: 0 <= i < |groups| ==> groups[i].members != []
  }

  lemma {:induction false} SamePairsSameIndex(a: seq<Group>, b: seq<Group>, q: Pair)
    requires |a| == |b| && forall i :: 0 <= i < |a| ==> a[i].pair == b[i].pair
    ensures IndexOfPair(a, q) == IndexOfPair(b, q)
  {
    if a != [] {
      SamePairsSameIndex(a[..|a| - 1], b[..|b| - 1], q);
    }
  }

  /** Adding to a group extends the lookup of that pair by one and no other. */
  lemma AddToGroupLookup(groups: seq<Group>, p: Pair, h: PathHyp, q: Pair)
    ensures Lookup(AddToGroup(groups, p, h), q) == Lookup(groups, q) + (if q == p then [h] else [])
  {
    var r := AddToGroup(groups, p, h);
    var i := IndexOfPair(groups, p);
    if i >= 0 {
      SamePairsSameIndex(r, groups, q);
    } else {
      assert r[..|groups|] == groups;
      if q != p {
        assert IndexOfPair(r, q) == IndexOfPair(groups, q);
      }
    }
  }

  lemma AddToGroupShape(groups: seq<Group>, p: Pair, h: PathHyp)
    requires PairsDistinct(groups) && MembersNonEmpty(groups)
    ensures PairsDistinct(AddToGroup(groups, p, h)) && MembersNonEmpty(AddToGroup(groups, p, h))
  {
  }

  /** In distinct groups, the lookup of a group's own pair finds that group. */
  lemma LookupOwnPair(groups: seq<Group>, i: nat)
    requires PairsDistinct(groups) && i < |groups|
    ensures Lookup(groups, groups[i].pair) == groups[i].members
  {
    var k := IndexOfPair(groups, groups[i].pair);
    assert k >= 0;
  }

  lemma {:induction false} GroupsLookup(hs: seq<PathHyp>)
    ensures PairsDistinct(GroupsOf(hs)) && MembersNonEmpty(GroupsOf(hs))
    ensures forall q :: Lookup(GroupsOf(hs), q) == WithPair(hs, q)
  {
    if hs != [] {
      var pre := hs[..|hs| - 1];
      var h := hs[|hs| - 1];
      GroupsLookup(pre);
      if KeyOf(h).Some? {
        AddToGroupShape(GroupsOf(pre), KeyOf(h).value, h);
        forall q ensures Lookup(GroupsOf(hs), q) == WithPair(hs, q) {
          AddToGroupLookup(GroupsOf(pre), KeyOf(h).value, h, q);
        }
      }
    }
  }

  /**
   * The groups are exactly the keyed pairs, once each, and each group holds
   * every hypothesis with that pair, in input order; hypotheses with a falsy
   * endpoint are in no group.
   */
  lemma GroupsSpec(hs: seq<PathHyp>)
    ensures PairsDistinct(GroupsOf(hs))
    ensures forall p :: (exists i :: 0 <= i < |GroupsOf(hs)| && GroupsOf(hs)[i].pair == p)
                        <==> (exists h :: h in hs && KeyOf(h) == Some(p))
    ensures forall i :: 0 <= i < |GroupsOf(hs)| ==>
              GroupsOf(hs)[i].members == WithPair(hs, GroupsOf(hs)[i].pair) && GroupsOf(hs)[i].members != []
  {
    var gs := GroupsOf(hs);
    GroupsLookup(hs);
    forall i | 0 <= i < |gs| ensures gs[i].members == WithPair(hs, gs[i].pair) {
      LookupOwnPair(gs, i);
    }
    forall p ensures (exists i :: 0 <= i < |gs| && gs[i].pair == p) <==> (exists h :: h in hs && KeyOf(h) == Some(p)) {
      GroupOfPair(hs, p);
    }
  }

  /** A pair has a group exactly when some hypothesis has that pair. */
  lemma GroupOfPair(hs: seq<PathHyp>, p: Pair)
    ensures (exists i :: 0 <= i < |GroupsOf(hs)| && GroupsOf(hs)[i].pair == p)
            <==> (exists h :: h in hs && KeyOf(h) == Some(p))
  {
    var gs := GroupsOf(hs);
    GroupsLookup(hs);
    var k := IndexOfPair(gs, p);
    assert Lookup(gs, p) == WithPair(hs, p);
    if k >= 0 {
      assert gs[k].members != [];
      var h := WithPair(hs, p)[0];
      assert h in hs && KeyOf(h) == Some(p);
      assert GroupsOf(hs)[k].pair == p;
    } else {
      assert WithPair(hs, p) == [];
    }
  }

  /** There are no groups exactly when no hypothesis has two truthy endpoints. */
  lemma {:induction false} GroupsEmpty(hs: seq<PathHyp>)
    ensures GroupsOf(hs) == [] <==> forall h :: h in hs ==> KeyOf(h).None?
  {
    if hs != [] {
      var pre := hs[..|hs| - 1];
      assert hs == pre + [hs[|hs| - 1]];
      GroupsEmpty(pre);
    }
  }

  /** `_group_by_source_target`: one pass appending to a dict of lists. */
  method GroupBySourceTarget(hs: seq<PathHyp>) returns (groups: seq<Group>)
    ensures groups == GroupsOf(hs)
  {
    groups := [];
    for i := 0 to |hs|
      invariant groups == GroupsOf(hs[..i])
    {
      var h := hs[i];
      assert hs[..i + 1][..i] == hs[..i];
      var key := KeyOf(h);
      if key.Some? {
        groups := AddToGroup(groups, key.value, h);
      }
    }
    assert hs[..|hs|] == hs;
  }

  // ---------------------------------------------------------------------
  // Paths per pair
  // ---------------------------------------------------------------------

  /** `set(tuple(h.get("path", [])) for h in hs if "path" in h)` */
  function DistinctPaths(hs: seq<PathHyp>): (r: set<seq<string>>)
    ensures forall p :: p in r <==> exists h :: h in hs && h.path == Some(p)
  {
    set h | h in hs && h.path.Some? :: h.path.value
  }

  /** There are no more distinct paths than hypotheses. */
  lemma {:induction false} DistinctPathsBound(hs: seq<PathHyp>)
    ensures |DistinctPaths(hs)| <= |hs|
  {
    if hs != [] {
      var pre := hs[..|hs| - 1];
      var h := hs[|hs| - 1];
      assert hs == pre + [h];
      DistinctPathsBound(pre);
      if h.path.Some? && h.path.value !in DistinctPaths(pre) {
        assert DistinctPaths(hs) == DistinctPaths(pre) + {h.path.value};
      } else {
        assert DistinctPaths(hs) == DistinctPaths(pre);
      }
    }
  }

  /** One entry of `_paths_per_pair`: distinct paths, with a floor of 1. */
  function PathCount(g: Group): (r: nat)
    ensures r >= 1
    ensures g.members != [] ==> r <= |g.members|
    ensures r == if DistinctPaths(g.members) == {} then 1 else |DistinctPaths(g.members)|
  {
    DistinctPathsBound(g.members);
    var n := |DistinctPaths(g.members)|;
    if n > 0 then n else 1
  }

  function PathsPerPair(groups: seq<Group>): (r: seq<nat>)
    ensures |r| == |groups|
    ensures forall i :: 0 <= i < |groups| ==> r[i] == PathCount(groups[i])
  {
    if groups == [] then [] else PathsPerPair(groups[..|groups| - 1]) + [PathCount(groups[|groups| - 1])]
  }

  // ---------------------------------------------------------------------
  // Dominant pair
  // ---------------------------------------------------------------------

  function Confidences(hs: seq<PathHyp>): (r: seq<real>)
    ensures |r| == |hs|
    ensures forall i :: 0 <= i < |hs| ==> r[i] == hs[i].confidence
  {
    if hs == [] then [] else Confidences(hs[..|hs| - 1]) + [hs[|hs| - 1].confidence]
  }

  /** Mean confidence of a group with members. */
  function MeanConfidence(g: Group): real
    requires g.members != []
  {
    SumReals(Confidences(g.members)) / |g.members| as real
  }

  /** The mean of each group, `None` for a group without confidences. */
  function GroupMeans(groups: seq<Group>): (r: seq<Option<real>>)
    ensures |r| == |groups|
    ensures forall i :: 0 <= i < |groups| ==>
      r[i] == if groups[i].members != [] then Some(MeanConfidence(groups[i])) else None
  {
    if groups == [] then []
    else
      var g := groups[|groups| - 1];
      GroupMeans(groups[..|groups| - 1]) + [if g.members != [] then Some(MeanConfidence(g)) else None]
  }

  /**
   * The scan of `_find_dominant_pair` as a left fold over the means: a later
   * mean replaces the current one only when strictly higher, starting from -1.0.
   */
  function FirstMax(ms: seq<Option<real>>): (r: Option<nat>)
    ensures r.Some? ==> r.value < |ms| && ms[r.value].Some?
  {
    if ms == [] then None
    else
      var prev := FirstMax(ms[..|ms| - 1]);
      var best := if prev.Some? then ms[prev.value].value else -1.0;
      var m := ms[|ms| - 1];
      if m.Some? && m.value > best then Some(|ms| - 1) else prev
  }

  lemma {:induction false} FirstMaxSpec(ms: seq<Option<real>>)
    ensures var r := FirstMax(ms);
      && (r.Some? ==>
            && ms[r.value].value > -1.0
            && (forall j :: 0 <= j < |ms| && ms[j].Some? ==> ms[j].value <= ms[r.value].value)
            && (forall j :: 0 <= j < r.value && ms[j].Some? ==> ms[j].value < ms[r.value].value))
      && (r.None? <==> forall j :: 0 <= j < |ms| && ms[j].Some? ==> ms[j].value <= -1.0)
  {
    if ms != [] {
      var pre := ms[..|ms| - 1];
      FirstMaxSpec(pre);
      assert forall j :: 0 <= j < |pre| ==> pre[j] == ms[j];
    }
  }

  function DominantIndex(groups: seq<Group>): (r: Option<nat>)
    ensures r.Some? ==> r.value < |groups| && groups[r.value].members != []
  {
    FirstMax(GroupMeans(groups))
  }

  /**
   * The dominant pair has a mean above -1.0 that no group exceeds and that
   * every earlier group falls short of, so the first pair wins ties; there
   * is none only when every mean is at most -1.0.
   */
  lemma DominantSpec(groups: seq<Group>)
    ensures var r := DominantIndex(groups);
      && (r.Some? ==>
            && MeanConfidence(groups[r.value]) > -1.0
            && (forall j :: 0 <= j < |groups| && groups[j].members != [] ==>
                  MeanConfidence(groups[j]) <= MeanConfidence(groups[r.value]))
            && (forall j :: 0 <= j < r.value && groups[j].members != [] ==>
                  MeanConfidence(groups[j]) < MeanConfidence(groups[r.value])))
      && (r.None? <==> forall j :: 0 <= j < |groups| && groups[j].members != [] ==> MeanConfidence(groups[j]) <= -1.0)
  {
    var ms := GroupMeans(groups);
    FirstMaxSpec(ms);
    assert forall j :: 0 <= j < |groups| && groups[j].members != [] ==> ms[j].value == MeanConfidence(groups[j]);
  }

  /** `_find_dominant_pair`: the loop keeping the best mean seen so far. */
  method FindDominantPair(groups: seq<Group>) returns (dominant: Option<Pair>)
    ensures DominantIndex(groups).None? ==> dominant.None?
    ensures DominantIndex(groups).Some? ==> dominant == Some(groups[DominantIndex(groups).value].pair)
  {
    var maxConfidence := -1.0;
    var index: Option<nat> := None;
    ghost var ms := GroupMeans(groups);
    for i := 0 to |groups|
      invariant index == FirstMax(ms[..i])
      invariant index.Some? ==> index.value < i && ms[index.value].Some? && maxConfidence == ms[index.value].value
      invariant index.None? ==> maxConfidence == -1.0
    {
      assert ms[..i + 1][..i] == ms[..i];
      var g := groups[i];
      if g.members != [] {
        var meanConf := SumReals(Confidences(g.members)) / |g.members| as real;
        assert ms[i] == Some(meanConf);
        if meanConf > maxConfidence {
          maxConfidence := meanConf;
          index := Some(i);
        }
      }
    }
    assert ms[..|groups|] == ms;
    dominant := if index.Some? then Some(groups[index.value].pair) else None;
  }
}
