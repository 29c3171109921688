/**
 * The finite decision space: the eight labels a decision provider may
 * return, the lookup from a label string back to its member, and the set
 * of all labels.
 */
module DecisionSpace {
  import opened Common

  datatype Decision =
    | Undecided
    | InsufficientSignal
    | HaltConfident
    | HaltNoHypothesis
    | AskDomainExpert
    | AskUserInput
    | FetchMoreLiterature
    | StrategicDownloadTargeted

  /** `decision.value` */
  function Value(d: Decision): string
  {
    match d
    case Undecided => "undecided"
    case InsufficientSignal => "insufficient_signal"
    case HaltConfident => "halt_confident"
    case HaltNoHypothesis => "halt_no_hypothesis"
    case AskDomainExpert => "ask_domain_expert"
    case AskUserInput => "ask_user_input"
    case FetchMoreLiterature => "fetch_more_literature"
    case StrategicDownloadTargeted => "strategic_download_targeted"
  }

  /** `for decision in Decision`: the members in declaration order. */
  const Members: seq<Decision> := [
    Undecided, InsufficientSignal, HaltConfident, HaltNoHypothesis,
    AskDomainExpert, AskUserInput, FetchMoreLiterature, StrategicDownloadTargeted]

  /** Every member is enumerated, once, and no two members share a value. */
  lemma MembersComplete(d: Decision)
    ensures d in Members
    ensures Distinct(Members)
    ensures forall e :: Value(e) == Value(d) ==> e == d
  {
  }

  /** The first member of `ds` whose value is `v`. */
  function FirstWithValue(ds: seq<Decision>, v: string): (r: Option<Decision>)
    ensures r.Some? ==> r.value in ds && Value(r.value) == v
    ensures r.None? <==> forall d :: d in ds ==> Value(d) != v
  {
    if ds == [] then None
    else if Value(ds[0]) == v then Some(ds[0])
    else FirstWithValue(ds[1..], v)
  }

  /** The lookup `Decision(key)` on an already normalized key. */
  function FromKey(key: string): (r: Outcome<Decision>)
    ensures r.Success? <==> exists d :: Value(d) == key
    ensures r.Success? ==> Value(r.value) == key
    ensures r.Failure? ==> r.error == "Unknown decision: " + key
  {
    match FirstWithValue(Members, key)
    case Some(d) => Success(d)
    case None =>
      assert forall d :: Value(d) != key by {
        forall d ensures Value(d) != key { MembersComplete(d); }
      }
      Failure("Unknown decision: " + key)
  }

  /** `decision_from_string(s)`; `Failure` is the `ValueError`. */
  function FromString(s: string): (r: Outcome<Decision>)
    ensures r.Success? <==> exists d :: Value(d) == Lower(Strip(s))
    ensures r.Success? ==> Value(r.value) == Lower(Strip(s))
    ensures r.Failure? ==> r.error == "Unknown decision: " + Lower(Strip(s))
  {
    FromKey(Lower(Strip(s)))
  }

  /** A label: non-empty, lowercase letters and underscores only. */
  predicate IsLabel(v: string)
  {
    v != [] && forall c :: c in v ==> IsLowerChar(c) || c == '_'
  }

  lemma LabelNormal(v: string)
    requires IsLabel(v)
    ensures Lower(Strip(v)) == v
  {
    assert v[0] in v && v[|v| - 1] in v;
    StripTrimmed(v);
    assert forall i :: 0 <= i < |v| ==> v[i] in v;
    assert Lower(v) == v;
  }

  lemma OpeningValuesAreLabels()
    ensures IsLabel("undecided") && IsLabel("insufficient_signal")
  {
  }

  lemma HaltValuesAreLabels()
    ensures IsLabel("halt_confident") && IsLabel("halt_no_hypothesis")
  {
  }

  lemma AskValuesAreLabels()
    ensures IsLabel("ask_domain_expert") && IsLabel("ask_user_input")
  {
  }

  lemma FetchValuesAreLabels()
    ensures IsLabel("fetch_more_literature") && IsLabel("strategic_download_targeted")
  {
  }

  lemma ValueIsLabel(d: Decision)
    ensures IsLabel(Value(d))
  {
    OpeningValuesAreLabels();
    HaltValuesAreLabels();
    AskValuesAreLabels();
    FetchValuesAreLabels();
  }

  /** Every member's value maps back to that member. */
  lemma RoundTrip(d: Decision)
    ensures FromString(Value(d)) == Success(d)
  {
    ValueIsLabel(d);
    LabelNormal(Value(d));
    assert FromString(Value(d)) == FromKey(Value(d));
    MembersComplete(d);
  }

  /** Surrounding whitespace and letter case do not change the lookup. */
  lemma CaseAndSpaceInsensitive(s: string)
    ensures FromString(s) == FromString(Lower(Strip(s)))
  {
    var key := Lower(Strip(s));
    StripLowerIdempotent(s);
    assert FromString(key) == FromKey(Lower(Strip(key))) == FromKey(key);
  }

  /** `all_decisions()`: the set of the members' values. */
  function AllDecisions(): (r: set<string>)
    ensures forall v :: v in r <==> exists d :: Value(d) == v
  {
    var r := set d | d in Members :: Value(d);
    assert forall d :: Value(d) in r by {
      forall d ensures Value(d) in r { MembersComplete(d); }
    }
    r
  }
}
