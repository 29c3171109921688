/**
 * The ordered duplicate-detection hierarchy: a candidate paper is checked
 * against the stored papers by DOI, then by external identifiers, then by
 * content fingerprint, and the first hit is reported. The stored papers are
 * given in the order the database returns them; the candidate's fingerprint
 * (a hash of its normalized content) is a parameter.
 */
module DuplicateDetection {
  import opened Common
  import F = Fingerprinting

  /** A stored `Paper` row, as far as detection and persistence use it; no external ids is the empty map. */
  datatype StoredPaper = StoredPaper(
    id: int, title: string, doi: Option<string>, externalIds: map<string, string>,
    fingerprint: Option<string>, source: string)

  /** A candidate paper; `externalIds` keeps the order of the candidate's dictionary. */
  datatype Candidate = Candidate(
    title: Option<string>, doi: Option<string>, externalIds: seq<(string, string)>, source: Option<string>)

  datatype MatchType = DoiMatch | ExternalIdMatch | FingerprintMatch

  /** `DuplicateDetectionResult` */
  datatype Detection = Detection(
    isDuplicate: bool, matchType: Option<MatchType>, matchedPaperId: Option<int>, confidence: real, reason: string)

  const NoDuplicate: Detection := Detection(false, None, None, 0.0, "No duplicate detected")

  // ---------------------------------------------------------------------
  // DOI
  // ---------------------------------------------------------------------

  /** `Paper.doi.ilike(doi)` for a DOI without pattern characters: equal up to letter case. */
  predicate DoiHit(p: StoredPaper, doi: string)
  {
    p.doi.Some? && Lower(p.doi.value) == doi
  }

  /** The first stored paper whose DOI matches. */
  function FirstDoiHit(papers: seq<StoredPaper>, doi: string): (r: Option<nat>)
    ensures r.Some? ==> (r.value < |papers| && DoiHit(papers[r.value], doi)
      && forall j :: 0 <= j < r.value ==> !DoiHit(papers[j], doi))
    ensures r.None? ==> forall j :: 0 <= j < |papers| ==> !DoiHit(papers[j], doi)
  {
    if papers == [] then None
    else if DoiHit(papers[0], doi) then Some(0)
    else
      var r := FirstDoiHit(papers[1..], doi);
      assert forall j :: 1 <= j < |papers| ==> papers[j] == papers[1..][j - 1];
      if r.None? then None else Some(r.value + 1)
  }

  /** The DOI a candidate is looked up by: stripped and lowercased, when it has one. */
  function DoiKey(c: Candidate): Option<string>
  {
    if c.doi.None? || c.doi.value == [] then None else Some(Lower(Strip(c.doi.value)))
  }

  /** `check_doi_duplicate` */
  function CheckDoi(c: Candidate, papers: seq<StoredPaper>): (r: Option<Detection>)
    ensures r.Some? ==> (DoiKey(c).Some? && r.value.isDuplicate && r.value.matchType == Some(DoiMatch)
      && r.value.confidence == 1.0
      && exists j :: 0 <= j < |papers| && DoiHit(papers[j], DoiKey(c).value) && r.value.matchedPaperId == Some(papers[j].id))
    ensures r.None? <==> DoiKey(c).None? || forall j :: 0 <= j < |papers| ==> !DoiHit(papers[j], DoiKey(c).value)
  {
    match DoiKey(c)
    case None => None
    case Some(doi) =>
      match FirstDoiHit(papers, doi)
      case None => None
      case Some(i) => Some(Detection(true, Some(DoiMatch), Some(papers[i].id), 1.0, "DOI match: " + doi))
  }

  // ---------------------------------------------------------------------
  // External identifiers
  // ---------------------------------------------------------------------

  /** The candidate's value as compared: stripped and lowercased. */
  function IdKey(v: string): string
  {
    Lower(Strip(v))
  }

  /** `paper.external_ids.get(id_type, "")`, lowercased. */
  function StoredValue(p: StoredPaper, idType: string): string
  {
    if idType in p.externalIds then Lower(p.externalIds[idType]) else ""
  }

  /**
   * A hit of one candidate identifier on one stored paper, as the check is
   * written: only an empty value is skipped, so a value of whitespace alone
   * becomes "" and equals the default of a paper lacking that id type.
   */
  predicate ExtHitAsWritten(id: (string, string), p: StoredPaper)
  {
    id.1 != [] && p.externalIds != map[] && StoredValue(p, id.0) == IdKey(id.1)
  }

  /** A hit as evidently intended: a value that is blank once stripped is skipped too. */
  predicate ExtHit(id: (string, string), p: StoredPaper)
  {
    IdKey(id.1) != [] && p.externalIds != map[] && StoredValue(p, id.0) == IdKey(id.1)
  }

  /** A whitespace-only identifier "matches" a paper that does not have that identifier at all. */
  lemma AsWrittenBlankIdMatches()
    ensures ExtHitAsWritten(("pmid", " "), StoredPaper(7, "", None, map["arxiv" := "2101.00001"], None, "arxiv"))
    ensures !ExtHit(("pmid", " "), StoredPaper(7, "", None, map["arxiv" := "2101.00001"], None, "arxiv"))
  {
    var m := map["arxiv" := "2101.00001"];
    assert "arxiv" in m;
    assert Strip(" ") == "" by {
      StripBlank(" ");
    }
  }

  /** The corrected hit is the written one restricted to non-blank values. */
  lemma ExtHitRefines(id: (string, string), p: StoredPaper)
    ensures ExtHit(id, p) <==> ExtHitAsWritten(id, p) && !IsBlank(id.1)
  {
    StripBlank(id.1);
  }

  /** `(k, j)` is the first hit in the scan order: identifiers outside, stored papers inside. */
  predicate FirstExtHit(ids: seq<(string, string)>, papers: seq<StoredPaper>, k: int, j: int)
  {
    0 <= k < |ids| && 0 <= j < |papers| && ExtHit(ids[k], papers[j])
    && NoExtHitBefore(ids, papers, k)
    && (forall j' :: 0 <= j' < j ==> !ExtHit(ids[k], papers[j']))
  }

  /** No identifier before index `k` hits any stored paper. */
  predicate NoExtHitBefore(ids: seq<(string, string)>, papers: seq<StoredPaper>, k: int)
  {
    forall k', j' :: 0 <= k' < k && k' < |ids| && 0 <= j' < |papers| ==> !ExtHit(ids[k'], papers[j'])
  }

  function ExtDetection(id: (string, string), p: StoredPaper): Detection
  {
    Detection(true, Some(ExternalIdMatch), Some(p.id), 0.95, "External ID match: " + id.0 + "=" + IdKey(id.1))
  }

  /** A hit after a clean prefix of identifiers is the first hit, so not every identifier misses. */
  lemma FirstHitFound(ids: seq<(string, string)>, papers: seq<StoredPaper>, k: int, j: int)
    requires 0 <= k < |ids| && 0 <= j < |papers| && ExtHit(ids[k], papers[j])
    requires NoExtHitBefore(ids, papers, k)
    requires forall j' :: 0 <= j' < j ==> !ExtHit(ids[k], papers[j'])
    ensures FirstExtHit(ids, papers, k, j)
    ensures !NoExtHitBefore(ids, papers, |ids|)
  {
  }

  /** An identifier that hits no stored paper extends the clean prefix by one. */
  lemma NoHitExtends(ids: seq<(string, string)>, papers: seq<StoredPaper>, k: int)
    requires 0 <= k < |ids| && NoExtHitBefore(ids, papers, k)
    requires forall j :: 0 <= j < |papers| ==> !ExtHit(ids[k], papers[j])
    ensures NoExtHitBefore(ids, papers, k + 1)
  {
  }

  /** `check_external_id_duplicate` (with blank values skipped) */
  method CheckExternalId(ids: seq<(string, string)>, papers: seq<StoredPaper>) returns (r: Option<Detection>)
    ensures r.None? <==> NoExtHitBefore(ids, papers, |ids|)
    ensures r.Some? ==> exists k, j :: FirstExtHit(ids, papers, k, j) && r.value == ExtDetection(ids[k], papers[j])
  {
    var k := 0;
    while k < |ids|
      invariant 0 <= k <= |ids|
      invariant NoExtHitBefore(ids, papers, k)
    {
      var hit := ScanPapers(ids[k], papers);
      if hit.Some? {
        FirstHitFound(ids, papers, k, hit.value);
        r := Some(ExtDetection(ids[k], papers[hit.value]));
        return;
      }
      NoHitExtends(ids, papers, k);
      k := k + 1;
    }
    return None;
  }

  /** The inner loop: the first stored paper one identifier hits. */
  method ScanPapers(id: (string, string), papers: seq<StoredPaper>) returns (hit: Option<nat>)
    ensures hit.Some? ==> (hit.value < |papers| && ExtHit(id, papers[hit.value])
      && forall j :: 0 <= j < hit.value ==> !ExtHit(id, papers[j]))
    ensures hit.None? ==> forall j :: 0 <= j < |papers| ==> !ExtHit(id, papers[j])
  {
    var (idType, raw) := id;
    if raw == [] {
      return None;
    }
    var idValue := IdKey(raw);
    if idValue == [] {
      return None;
    }
    var j := 0;
    while j < |papers|
      invariant 0 <= j <= |papers|
      invariant forall j' :: 0 <= j' < j ==> !ExtHit(id, papers[j'])
    {
      var p := papers[j];
      if p.externalIds != map[] && StoredValue(p, idType) == idValue {
        return Some(j);
      }
      j := j + 1;
    }
    return None;
  }

  // ---------------------------------------------------------------------
  // Fingerprint
  // ---------------------------------------------------------------------

  /** A stored paper with a fingerprint that matches the candidate's. */
  predicate FpHit(fp: string, p: StoredPaper, threshold: real)
  {
    p.fingerprint.Some? && F.FingerprintsMatch(fp, p.fingerprint.value, threshold)
  }

  /** `check_fingerprint_duplicate`, given the candidate's fingerprint. */
  method CheckFingerprint(fp: string, papers: seq<StoredPaper>, threshold: real) returns (r: Option<Detection>)
    ensures r.None? <==> fp == [] || forall j :: 0 <= j < |papers| ==> !FpHit(fp, papers[j], threshold)
    ensures r.Some? ==> exists j :: (0 <= j < |papers| && FpHit(fp, papers[j], threshold)
      && (forall j' :: 0 <= j' < j ==> !FpHit(fp, papers[j'], threshold))
      && r.value == Detection(true, Some(FingerprintMatch), Some(papers[j].id), 0.90, "Content fingerprint match"))
  {
    if fp == [] {
      return None;
    }
    var j := 0;
    while j < |papers|
      invariant 0 <= j <= |papers|
      invariant forall j' :: 0 <= j' < j ==> !FpHit(fp, papers[j'], threshold)
    {
      var p := papers[j];
      if p.fingerprint.Some? && F.FingerprintsMatch(fp, p.fingerprint.value, threshold) {
        return Some(Detection(true, Some(FingerprintMatch), Some(p.id), 0.90, "Content fingerprint match"));
      }
      j := j + 1;
    }
    return None;
  }

  // ---------------------------------------------------------------------
  // The hierarchy
  // ---------------------------------------------------------------------

  predicate AnyExtHit(ids: seq<(string, string)>, papers: seq<StoredPaper>)
  {
    exists k, j :: 0 <= k < |ids| && 0 <= j < |papers| && ExtHit(ids[k], papers[j])
  }

  predicate AnyFpHit(fp: string, papers: seq<StoredPaper>, threshold: real)
  {
    fp != [] && exists j :: 0 <= j < |papers| && FpHit(fp, papers[j], threshold)
  }

  /**
   * `check_duplicate`: the DOI result when there is one; else an external
   * id hit; else a fingerprint hit; else no duplicate. A lower level is
   * reported only when every level above it found nothing.
   */
  method CheckDuplicate(c: Candidate, fp: string, papers: seq<StoredPaper>, threshold: real) returns (r: Detection)
    ensures CheckDoi(c, papers).Some? ==> r == CheckDoi(c, papers).value
    ensures r.matchType == Some(ExternalIdMatch) ==> CheckDoi(c, papers).None? && AnyExtHit(c.externalIds, papers)
    ensures r.matchType == Some(FingerprintMatch) ==>
      CheckDoi(c, papers).None? && !AnyExtHit(c.externalIds, papers) && AnyFpHit(fp, papers, threshold)
    ensures r.isDuplicate <==>
      CheckDoi(c, papers).Some? || AnyExtHit(c.externalIds, papers) || AnyFpHit(fp, papers, threshold)
    ensures r.isDuplicate ==> r.matchType.Some? && r.matchedPaperId.Some?
    ensures !r.isDuplicate ==> r == NoDuplicate
  {
    var doi := CheckDoi(c, papers);
    if doi.Some? {
      return doi.value;
    }
    var ext := CheckExternalId(c.externalIds, papers);
    if ext.Some? {
      return ext.value;
    }
    var byFp := CheckFingerprint(fp, papers, threshold);
    if byFp.Some? {
      return byFp.value;
    }
    return NoDuplicate;
  }

  // ---------------------------------------------------------------------
  // `persist_paper`
  // ---------------------------------------------------------------------

  /** The candidate's identifiers as the stored dictionary (a later entry wins). */
  function IdMap(ids: seq<(string, string)>): (m: map<string, string>)
    ensures forall k :: 0 <= k < |ids| ==> ids[k].0 in m
  {
    if ids == [] then map[]
    else
      var m := IdMap(ids[..|ids| - 1]);
      m[ids[|ids| - 1].0 := ids[|ids| - 1].1]
  }

  /** The row `persist_paper` adds, with the id the flush assigns. */
  function PersistedRow(c: Candidate, fp: string, id: int): (p: StoredPaper)
    ensures p.title == Get(c.title, "") && p.source == Get(c.source, "unknown")
    ensures p.doi == c.doi && p.fingerprint == Some(fp) && p.id == id
  {
    StoredPaper(id, Get(c.title, ""), c.doi, IdMap(c.externalIds), Some(fp), Get(c.source, "unknown"))
  }

  /**
   * Once stored, a candidate with a trimmed DOI is caught by the DOI check,
   * and one with a fingerprint by the fingerprint check, when submitted again.
   */
  lemma PersistedIsDuplicate(c: Candidate, fp: string, papers: seq<StoredPaper>, id: int, threshold: real)
    ensures c.doi.Some? && c.doi.value != [] && Strip(c.doi.value) == c.doi.value ==>
      CheckDoi(c, papers + [PersistedRow(c, fp, id)]).Some?
    ensures fp != [] && threshold <= 1.0 ==> AnyFpHit(fp, papers + [PersistedRow(c, fp, id)], threshold)
  {
    var all := papers + [PersistedRow(c, fp, id)];
    var last := |all| - 1;
    assert all[last] == PersistedRow(c, fp, id);
    if c.doi.Some? && c.doi.value != [] && Strip(c.doi.value) == c.doi.value {
      assert DoiHit(all[last], DoiKey(c).value);
    }
    if fp != [] && threshold <= 1.0 {
      F.MatchSpec(fp, fp, threshold);
      assert FpHit(fp, all[last], threshold);
    }
  }
}
