/**
 * Grouped top-k lead selection (backend/app/fetching/selection.py,
 * `select_top_diverse_leads` when the hypotheses are given): leads are the
 * passed hypotheses and those rejected by the evidence rule alone; they are
 * grouped by (source, target), each group keeps its first highest-confidence
 * member as leader and is "passed" if any member passed, and up to k
 * leaders are returned, passed groups first, each tier by descending group
 * confidence.
 */
module LeadSelection {
  import opened Common
  import opened Sorting
  import opened Hypotheses

  /** An entry of the `groups` dict. */
  datatype Group = Group(source: string, target: string, confidence: int, passed: bool, leader: Hypothesis)

  function PairOf(g: Group): (string, string) { (g.source, g.target) }

  /** A hypothesis the loop keeps: truthy endpoints, and passed or promising. */
  predicate Lead(h: Hypothesis)
  {
    h.source != "" && h.target != "" && (h.passedFilter || OnlyEvidenceRejected(h))
  }

  predicate LeadFor(h: Hypothesis, s: string, t: string)
  {
    Lead(h) && h.source == s && h.target == t
  }

  predicate PairsDistinct(gs: seq<Group>)
  {
    forall i, j :: 0 <= i < j < |gs| ==> PairOf(gs[i]) != PairOf(gs[j])
  }

  /** The position of pair (s, t) in the dict, if present. */
  function FindGroup(gs: seq<Group>, s: string, t: string): (r: Option<nat>)
    ensures r.None? <==> forall i :: 0 <= i < |gs| ==> PairOf(gs[i]) != (s, t)
    ensures r.Some? ==> r.value < |gs| && PairOf(gs[r.value]) == (s, t)
  {
    if gs == [] then None
    else if PairOf(gs[0]) == (s, t) then Some(0)
    else
      match FindGroup(gs[1..], s, t)
      case None => None
      case Some(k) => Some(k + 1)
  }

  /** `groups.get((s, t))` */
  function GroupFor(gs: seq<Group>, s: string, t: string): Option<Group>
  {
    match FindGroup(gs, s, t)
    case None => None
    case Some(i) => Some(gs[i])
  }

  lemma GroupForAt(gs: seq<Group>, i: nat, s: string, t: string)
    requires PairsDistinct(gs) && i < |gs| && PairOf(gs[i]) == (s, t)
    ensures GroupFor(gs, s, t) == Some(gs[i])
  {
  }

  /** The group a lead opens. */
  function NewGroup(h: Hypothesis): Group
  {
    Group(h.source, h.target, h.confidence, h.passedFilter, h)
  }

  /** A later member: the group becomes passed if it passed, and it takes the lead only with a strictly higher confidence. */
  function Join(g: Group, h: Hypothesis): Group
  {
    var better := h.confidence > g.confidence;
    g.(passed := g.passed || h.passedFilter,
       confidence := if better then h.confidence else g.confidence,
       leader := if better then h else g.leader)
  }

  /** One iteration of the grouping loop. */
  function AddLead(gs: seq<Group>, h: Hypothesis): seq<Group>
  {
    if !Lead(h) then gs
    else
      match FindGroup(gs, h.source, h.target)
      case None => gs + [NewGroup(h)]
      case Some(i) => gs[i := Join(gs[i], h)]
  }

  /** The `groups` dict, in insertion order, after the loop over `hs`. */
  function GroupsOf(hs: seq<Hypothesis>): seq<Group>
  {
    if hs == [] then [] else AddLead(GroupsOf(hs[..|hs| - 1]), hs[|hs| - 1])
  }

  /** One iteration keeps pairs unique and changes only the group of the lead's own pair. */
  lemma AddLeadSpec(gs: seq<Group>, h: Hypothesis, s: string, t: string)
    requires PairsDistinct(gs)
    ensures PairsDistinct(AddLead(gs, h))
    ensures GroupFor(AddLead(gs, h), s, t) ==
              if !LeadFor(h, s, t) then GroupFor(gs, s, t)
              else if GroupFor(gs, s, t).None? then Some(NewGroup(h))
              else Some(Join(GroupFor(gs, s, t).value, h))
  {
    var r := AddLead(gs, h);
    if Lead(h) {
      match FindGroup(gs, h.source, h.target)
      case None =>
        assert r == gs + [NewGroup(h)];
        assert PairsDistinct(r);
        var i := |gs|;
        if (h.source, h.target) == (s, t) {
          GroupForAt(r, i, s, t);
        } else {
          match FindGroup(gs, s, t)
          case None =>
            assert forall k :: 0 <= k < |r| ==> PairOf(r[k]) != (s, t);
          case Some(k) =>
            GroupForAt(r, k, s, t);
        }
      case Some(i) =>
        assert PairsDistinct(r);
        if (h.source, h.target) == (s, t) {
          GroupForAt(r, i, s, t);
        } else {
          match FindGroup(gs, s, t)
          case None =>
            assert forall k :: 0 <= k < |r| ==> PairOf(r[k]) != (s, t);
          case Some(k) =>
            GroupForAt(r, k, s, t);
        }
    }
  }

  lemma {:induction false} GroupsOfDistinct(hs: seq<Hypothesis>)
    ensures PairsDistinct(GroupsOf(hs))
  {
    if hs != [] {
      GroupsOfDistinct(hs[..|hs| - 1]);
      AddLeadSpec(GroupsOf(hs[..|hs| - 1]), hs[|hs| - 1], "", "");
    }
  }

  /** Some lead of `hs` has pair (s, t). */
  predicate HasLead(hs: seq<Hypothesis>, s: string, t: string)
  {
    exists j :: 0 <= j < |hs| && LeadFor(hs[j], s, t)
  }

  /** Some lead of `hs` with pair (s, t) passed. */
  predicate HasPassedLead(hs: seq<Hypothesis>, s: string, t: string)
  {
    exists j :: 0 <= j < |hs| && LeadFor(hs[j], s, t) && hs[j].passedFilter
  }

  /**
   * `hs[li]` is the leader of pair (s, t): every member's confidence is at
   * most its own, and every earlier member's is strictly lower.
   */
  predicate LeaderAt(hs: seq<Hypothesis>, s: string, t: string, li: int)
  {
    && 0 <= li < |hs| && LeadFor(hs[li], s, t)
    && (forall j :: 0 <= j < |hs| && LeadFor(hs[j], s, t) ==> hs[j].confidence <= hs[li].confidence)
    && (forall j :: 0 <= j < li && LeadFor(hs[j], s, t) ==> hs[j].confidence < hs[li].confidence)
  }

  /** A pair has a group iff some lead has that pair, and the group carries that pair. */
  lemma {:induction false} GroupsOfHas(hs: seq<Hypothesis>, s: string, t: string)
    ensures GroupFor(GroupsOf(hs), s, t).Some? <==> HasLead(hs, s, t)
    ensures GroupFor(GroupsOf(hs), s, t).Some? ==> PairOf(GroupFor(GroupsOf(hs), s, t).value) == (s, t)
  {
    if hs != [] {
      var pre := hs[..|hs| - 1];
      var h := hs[|hs| - 1];
      GroupsOfHas(pre, s, t);
      GroupsOfDistinct(pre);
      AddLeadSpec(GroupsOf(pre), h, s, t);
      if HasLead(hs, s, t) && !LeadFor(h, s, t) {
        var j :| 0 <= j < |hs| && LeadFor(hs[j], s, t);
        assert LeadFor(pre[j], s, t);
      }
      if HasLead(pre, s, t) {
        var j :| 0 <= j < |pre| && LeadFor(pre[j], s, t);
        assert LeadFor(hs[j], s, t);
      }
      if LeadFor(h, s, t) {
        assert LeadFor(hs[|hs| - 1], s, t);
      }
    }
  }

  /** A group is passed iff one of its members passed. */
  lemma {:induction false} GroupsOfPassed(hs: seq<Hypothesis>, s: string, t: string)
    ensures GroupFor(GroupsOf(hs), s, t).Some? ==>
              (GroupFor(GroupsOf(hs), s, t).value.passed <==> HasPassedLead(hs, s, t))
  {
    if hs != [] {
      var pre := hs[..|hs| - 1];
      var h := hs[|hs| - 1];
      GroupsOfPassed(pre, s, t);
      GroupsOfHas(pre, s, t);
      GroupsOfDistinct(pre);
      AddLeadSpec(GroupsOf(pre), h, s, t);
      if HasPassedLead(hs, s, t) && !(LeadFor(h, s, t) && h.passedFilter) {
        var j :| 0 <= j < |hs| && LeadFor(hs[j], s, t) && hs[j].passedFilter;
        assert LeadFor(pre[j], s, t) && pre[j].passedFilter;
      }
      if HasPassedLead(pre, s, t) {
        var j :| 0 <= j < |pre| && LeadFor(pre[j], s, t) && pre[j].passedFilter;
        assert LeadFor(hs[j], s, t) && hs[j].passedFilter;
      }
      if LeadFor(h, s, t) && h.passedFilter {
        assert LeadFor(hs[|hs| - 1], s, t) && hs[|hs| - 1].passedFilter;
      }
    }
  }

  /** A group's leader is the first member of highest confidence, and the group's confidence is the leader's. */
  lemma {:induction false} GroupsOfLeader(hs: seq<Hypothesis>, s: string, t: string)
    ensures GroupFor(GroupsOf(hs), s, t).Some? ==>
              var g := GroupFor(GroupsOf(hs), s, t).value;
              g.confidence == g.leader.confidence && exists li :: LeaderAt(hs, s, t, li) && hs[li] == g.leader
  {
    if hs != [] {
      var pre := hs[..|hs| - 1];
      var h := hs[|hs| - 1];
      assert hs == pre + [h];
      GroupsOfLeader(pre, s, t);
      GroupsOfHas(pre, s, t);
      GroupsOfDistinct(pre);
      AddLeadSpec(GroupsOf(pre), h, s, t);
      var old_ := GroupFor(GroupsOf(pre), s, t);
      if LeadFor(h, s, t) {
        if old_.None? {
          LeaderLast(pre, h, s, t);
          assert hs[|pre|] == h;
        } else {
          var g := old_.value;
          var li :| LeaderAt(pre, s, t, li) && pre[li] == g.leader;
          if h.confidence > g.confidence {
            LeaderLast(pre, h, s, t);
            assert hs[|pre|] == h;
          } else {
            LeaderKept(pre, h, s, t, li);
            assert hs[li] == pre[li];
          }
        }
      } else if old_.Some? {
        var g := old_.value;
        var li :| LeaderAt(pre, s, t, li) && pre[li] == g.leader;
        LeaderKept(pre, h, s, t, li);
        assert hs[li] == pre[li];
      }
    }
  }

  /** A new last member leads its pair when it beats every earlier member. */
  lemma LeaderLast(pre: seq<Hypothesis>, h: Hypothesis, s: string, t: string)
    requires LeadFor(h, s, t)
    requires forall j :: 0 <= j < |pre| && LeadFor(pre[j], s, t) ==> pre[j].confidence < h.confidence
    ensures LeaderAt(pre + [h], s, t, |pre|)
  {
    var hs := pre + [h];
    assert forall j :: 0 <= j < |pre| ==> hs[j] == pre[j];
  }

  /** An earlier leader stays the leader when the new last member does not beat it. */
  lemma LeaderKept(pre: seq<Hypothesis>, h: Hypothesis, s: string, t: string, li: nat)
    requires LeaderAt(pre, s, t, li)
    requires LeadFor(h, s, t) ==> h.confidence <= pre[li].confidence
    ensures LeaderAt(pre + [h], s, t, li)
  {
    var hs := pre + [h];
    assert forall j :: 0 <= j < |pre| ==> hs[j] == pre[j];
  }

  // ---------------------------------------------------------------------
  // Tiers, ranking and the top-k fill
  // ---------------------------------------------------------------------

  /** The groups of one tier, in dict order. */
  function Tier(gs: seq<Group>, passed: bool): (r: seq<Group>)
    ensures forall g :: g in r <==> g in gs && g.passed == passed
  {
    if gs == [] then []
    else
      var g := gs[|gs| - 1];
      assert gs == gs[..|gs| - 1] + [g];
      Tier(gs[..|gs| - 1], passed) + (if g.passed == passed then [g] else [])
  }

  /** `key=lambda x: x["group_confidence"]` */
  function GroupKey(g: Group): real { g.confidence as real }

  /** The first `n` elements, or all of them (`for g in ...: if len(selected) >= k: break`). */
  function Take(gs: seq<Group>, n: int): (r: seq<Group>)
    ensures |r| == if n <= 0 then 0 else Min(n, |gs|)
    ensures r == gs[..|r|]
  {
    if n <= 0 then [] else if n >= |gs| then gs else gs[..n]
  }

  /** A tier ranked by descending group confidence, ties in dict order (`list.sort(..., reverse=True)`). */
  function Ranked(gs: seq<Group>, passed: bool): seq<Group>
  {
    SortDesc(Tier(gs, passed), GroupKey)
  }

  /** Up to k groups of `p`, then groups of `l` while room remains. */
  function Fill(p: seq<Group>, l: seq<Group>, k: int): seq<Group>
  {
    var a := Take(p, k);
    if |a| < k then a + Take(l, k - |a|) else a
  }

  /** Passed groups by descending confidence, then the low-confidence ones if room remains. */
  function SelectedGroups(hs: seq<Hypothesis>, k: int): seq<Group>
  {
    var gs := GroupsOf(hs);
    Fill(Ranked(gs, true), Ranked(gs, false), k)
  }

  /** `[g["leader_hypo"] for g in selected_groups]` */
  function Leaders(gs: seq<Group>): (r: seq<Hypothesis>)
    ensures |r| == |gs|
    ensures forall i :: 0 <= i < |gs| ==> r[i] == gs[i].leader
  {
    if gs == [] then [] else Leaders(gs[..|gs| - 1]) + [gs[|gs| - 1].leader]
  }

  /** What `select_top_diverse_leads` returns for a given list. */
  function Selection(hs: seq<Hypothesis>, k: int): seq<Hypothesis>
  {
    if hs == [] then [] else Leaders(SelectedGroups(hs, k))
  }

  /** A ranked tier holds exactly the dict's groups of that tier, sorted, with distinct pairs. */
  lemma RankedTier(gs: seq<Group>, passed: bool)
    requires PairsDistinct(gs)
    ensures forall g :: g in Ranked(gs, passed) <==> g in gs && g.passed == passed
    ensures SortedDesc(Ranked(gs, passed), GroupKey)
    ensures PairsDistinct(Ranked(gs, passed))
    ensures |Ranked(gs, passed)| == |Tier(gs, passed)|
  {
    var r := Ranked(gs, passed);
    forall g ensures g in r <==> g in gs && g.passed == passed {
      assert g in r <==> g in multiset(r);
      assert g in Tier(gs, passed) <==> g in multiset(Tier(gs, passed));
    }
    TierDistinct(gs, passed);
    DistinctPermutation(Tier(gs, passed), r);
    forall i, j | 0 <= i < j < |r| ensures PairOf(r[i]) != PairOf(r[j]) {
      SameGroupPair(gs, r[i], r[j]);
    }
  }

  /** A prefix of a passed tier followed by a prefix of a low-confidence tier. */
  lemma ConcatTiers(p: seq<Group>, l: seq<Group>, m: nat, n: nat)
    requires forall g :: g in p ==> g.passed
    requires forall g :: g in l ==> !g.passed
    requires SortedDesc(p, GroupKey) && SortedDesc(l, GroupKey)
    requires PairsDistinct(p) && PairsDistinct(l)
    requires forall i, j :: 0 <= i < |p| && 0 <= j < |l| ==> PairOf(p[i]) != PairOf(l[j])
    requires m <= |p| && n <= |l|
    ensures var sel := p[..m] + l[..n];
      && (forall i :: 0 <= i < |sel| ==> sel[i] in p || sel[i] in l)
      && (forall i, j :: 0 <= i < j < |sel| && sel[j].passed ==> sel[i].passed)
      && (forall i, j :: 0 <= i < j < |sel| && sel[i].passed == sel[j].passed ==> sel[i].confidence >= sel[j].confidence)
      && PairsDistinct(sel)
  {
    var sel := p[..m] + l[..n];
    forall i | 0 <= i < |sel| ensures sel[i] in p || sel[i] in l {
      if i < m { assert sel[i] == p[i]; } else { assert sel[i] == l[i - m]; }
    }
    forall i, j | 0 <= i < j < |sel|
      ensures sel[j].passed ==> sel[i].passed
      ensures sel[i].passed == sel[j].passed ==> sel[i].confidence >= sel[j].confidence
      ensures PairOf(sel[i]) != PairOf(sel[j])
    {
      if j < m {
        assert sel[i] == p[i] && sel[j] == p[j];
        assert GroupKey(p[i]) >= GroupKey(p[j]);
      } else if i >= m {
        assert sel[i] == l[i - m] && sel[j] == l[j - m];
        assert GroupKey(l[i - m]) >= GroupKey(l[j - m]);
      } else {
        assert sel[i] == p[i] && sel[j] == l[j - m];
      }
    }
  }

  /**
   * Filling from a passed tier and then a low-confidence tier gives at
   * most k groups, each from one of them, passed ones first, each tier in
   * its ranked order, and no pair twice.
   */
  lemma FillSpec(p: seq<Group>, l: seq<Group>, k: int)
    requires forall g :: g in p ==> g.passed
    requires forall g :: g in l ==> !g.passed
    requires SortedDesc(p, GroupKey) && SortedDesc(l, GroupKey)
    requires PairsDistinct(p) && PairsDistinct(l)
    requires forall i, j :: 0 <= i < |p| && 0 <= j < |l| ==> PairOf(p[i]) != PairOf(l[j])
    ensures var sel := Fill(p, l, k);
      && |sel| <= Max(k, 0) && |sel| <= |p| + |l|
      && (forall i :: 0 <= i < |sel| ==> sel[i] in p || sel[i] in l)
      && (forall i, j :: 0 <= i < j < |sel| && sel[j].passed ==> sel[i].passed)
      && (forall i, j :: 0 <= i < j < |sel| && sel[i].passed == sel[j].passed ==> sel[i].confidence >= sel[j].confidence)
      && PairsDistinct(sel)
  {
    var a := Take(p, k);
    if |a| < k {
      var b := Take(l, k - |a|);
      ConcatTiers(p, l, |a|, |b|);
    } else {
      ConcatTiers(p, l, |a|, 0);
      assert Fill(p, l, k) == p[..|a|] + l[..0];
    }
  }

  /**
   * The selected groups are groups of the dict, at most k of them and at
   * most one per group; every passed group precedes every low-confidence
   * group; within a tier group confidences do not increase; and no two
   * share a (source, target) pair.
   */
  lemma SelectedGroupsSpec(hs: seq<Hypothesis>, k: int)
    ensures var sel := SelectedGroups(hs, k);
      && |sel| <= Max(k, 0) && |sel| <= |GroupsOf(hs)|
      && (forall i :: 0 <= i < |sel| ==> sel[i] in GroupsOf(hs))
      && (forall i, j :: 0 <= i < j < |sel| && sel[j].passed ==> sel[i].passed)
      && (forall i, j :: 0 <= i < j < |sel| && sel[i].passed == sel[j].passed ==> sel[i].confidence >= sel[j].confidence)
      && PairsDistinct(sel)
  {
    var gs := GroupsOf(hs);
    GroupsOfDistinct(hs);
    RankedTier(gs, true);
    RankedTier(gs, false);
    TierSize(gs);
    var p := Ranked(gs, true);
    var l := Ranked(gs, false);
    forall i, j | 0 <= i < |p| && 0 <= j < |l| ensures PairOf(p[i]) != PairOf(l[j]) {
      SameGroupPair(gs, p[i], l[j]);
    }
    FillSpec(p, l, k);
  }

  /** Two groups of a pair-distinct dict with the same pair are the same group. */
  lemma SameGroupPair(gs: seq<Group>, g1: Group, g2: Group)
    requires PairsDistinct(gs) && g1 in gs && g2 in gs
    ensures PairOf(g1) == PairOf(g2) ==> g1 == g2
  {
    var i :| 0 <= i < |gs| && gs[i] == g1;
    var j :| 0 <= j < |gs| && gs[j] == g2;
    if i < j {
      assert PairOf(gs[i]) != PairOf(gs[j]);
    } else if j < i {
      assert PairOf(gs[j]) != PairOf(gs[i]);
    }
  }

  lemma {:induction false} TierDistinct(gs: seq<Group>, passed: bool)
    requires PairsDistinct(gs)
    ensures Distinct(Tier(gs, passed))
  {
    if gs != [] {
      var pre := gs[..|gs| - 1];
      var g := gs[|gs| - 1];
      assert PairsDistinct(pre) by {
        forall i, j | 0 <= i < j < |pre| ensures PairOf(pre[i]) != PairOf(pre[j]) {
          assert pre[i] == gs[i] && pre[j] == gs[j];
        }
      }
      TierDistinct(pre, passed);
      if g.passed == passed {
        forall i | 0 <= i < |pre| ensures pre[i] != g {
          assert pre[i] == gs[i];
          assert PairOf(gs[i]) != PairOf(gs[|gs| - 1]);
        }
        DistinctSnoc(Tier(pre, passed), g);
      }
    }
  }

  lemma {:induction false} TierSize(gs: seq<Group>)
    ensures |Tier(gs, true)| + |Tier(gs, false)| == |gs|
  {
    if gs != [] {
      TierSize(gs[..|gs| - 1]);
    }
  }

  /** Every group of the dict is led by a hypothesis of its own pair. */
  lemma GroupLeaderPair(hs: seq<Hypothesis>, g: Group)
    requires g in GroupsOf(hs)
    ensures (g.leader.source, g.leader.target) == PairOf(g)
  {
    GroupsOfDistinct(hs);
    var idx :| 0 <= idx < |GroupsOf(hs)| && GroupsOf(hs)[idx] == g;
    GroupForAt(GroupsOf(hs), idx, g.source, g.target);
    GroupsOfLeader(hs, g.source, g.target);
  }

  /**
   * The result is empty for an empty input, has at most k leaders and at
   * most one per group, and no two leaders share a (source, target) pair.
   */
  lemma SelectionSpec(hs: seq<Hypothesis>, k: int)
    ensures hs == [] ==> Selection(hs, k) == []
    ensures |Selection(hs, k)| <= Max(k, 0)
    ensures |Selection(hs, k)| <= |GroupsOf(hs)|
    ensures forall i, j :: 0 <= i < j < |Selection(hs, k)| ==>
              (Selection(hs, k)[i].source, Selection(hs, k)[i].target) != (Selection(hs, k)[j].source, Selection(hs, k)[j].target)
  {
    if hs != [] {
      SelectedGroupsSpec(hs, k);
      var sel := SelectedGroups(hs, k);
      var r := Selection(hs, k);
      forall i | 0 <= i < |sel| ensures (r[i].source, r[i].target) == PairOf(sel[i]) {
        GroupLeaderPair(hs, sel[i]);
      }
    }
  }

  // ---------------------------------------------------------------------
  // The procedure
  // ---------------------------------------------------------------------

  /** The grouping loop: the `groups` dict after every hypothesis has been seen. */
  method GroupLeads(hypos: seq<Hypothesis>) returns (groups: seq<Group>)
    ensures groups == GroupsOf(hypos)
    ensures PairsDistinct(groups)
  {
    groups := [];
    for i := 0 to |hypos|
      invariant groups == GroupsOf(hypos[..i])
    {
      assert hypos[..i + 1][..i] == hypos[..i];
      var h := hypos[i];
      assert GroupsOf(hypos[..i + 1]) == AddLead(groups, h);
      if h.source == "" || h.target == "" {
        continue;
      }
      var isPassed := h.passedFilter;
      var isPromising := false;
      if !isPassed && h.filterReason.Some? && |h.filterReason.value| > 0 {
        var reasons := h.filterReason.value;
        if |reasons| == 1 && EvidenceThreshold in reasons {
          isPromising := true;
        }
      }
      if h.filterReason.Some? {
        SingleKey(h.filterReason.value, EvidenceThreshold);
      }
      if !isPassed && !isPromising {
        continue;
      }
      var found := FindGroup(groups, h.source, h.target);
      if found.None? {
        groups := groups + [NewGroup(h)];
      } else {
        var j := found.value;
        var g := groups[j];
        if isPassed {
          g := g.(passed := true);
        }
        if h.confidence > g.confidence {
          g := g.(confidence := h.confidence, leader := h);
        }
        groups := groups[j := g];
      }
    }
    assert hypos[..|hypos|] == hypos;
    GroupsOfDistinct(hypos);
  }

  /** The split into `passed_groups` and `low_conf_groups`, in dict order. */
  method SplitTiers(groups: seq<Group>) returns (passedGroups: seq<Group>, lowConfGroups: seq<Group>)
    ensures passedGroups == Tier(groups, true)
    ensures lowConfGroups == Tier(groups, false)
  {
    passedGroups := [];
    lowConfGroups := [];
    for i := 0 to |groups|
      invariant passedGroups == Tier(groups[..i], true)
      invariant lowConfGroups == Tier(groups[..i], false)
    {
      assert groups[..i + 1][..i] == groups[..i];
      if groups[i].passed {
        passedGroups := passedGroups + [groups[i]];
      } else {
        lowConfGroups := lowConfGroups + [groups[i]];
      }
    }
    assert groups[..|groups|] == groups;
  }

  /** The two fill loops: passed groups while fewer than k are selected, then low-confidence ones. */
  method FillTopK(passedGroups: seq<Group>, lowConfGroups: seq<Group>, k: int) returns (selected: seq<Group>)
    ensures selected == Fill(passedGroups, lowConfGroups, k)
  {
    selected := [];
    for i := 0 to |passedGroups|
      invariant selected == passedGroups[..i]
      invariant i == 0 || i <= k
    {
      if |selected| >= k {
        break;
      }
      selected := selected + [passedGroups[i]];
    }
    assert selected == Take(passedGroups, k);
    if |selected| < k {
      ghost var a := selected;
      for i := 0 to |lowConfGroups|
        invariant selected == a + lowConfGroups[..i]
        invariant i == 0 || |selected| <= k
      {
        if |selected| >= k {
          break;
        }
        selected := selected + [lowConfGroups[i]];
      }
      assert selected == a + Take(lowConfGroups, k - |a|);
    }
  }

  /** `select_top_diverse_leads(session, job_id, k, hypotheses)` with the hypotheses given. */
  method SelectTopDiverseLeads(hypos: seq<Hypothesis>, k: int) returns (leads: seq<Hypothesis>)
    ensures leads == Selection(hypos, k)
  {
    if |hypos| == 0 {
      return [];
    }
    var groups := GroupLeads(hypos);
    var passedGroups, lowConfGroups := SplitTiers(groups);
    passedGroups := SortDesc(passedGroups, GroupKey);
    lowConfGroups := SortDesc(lowConfGroups, GroupKey);
    var selected := FillTopK(passedGroups, lowConfGroups, k);
    leads := Leaders(selected);
  }
}
