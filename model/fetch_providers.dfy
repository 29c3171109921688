/**
 * The application's paper providers: lookup by name, without regard to
 * letter case, and selection for a domain, preferring the domain's own
 * provider when it is enabled and otherwise taking the first enabled one.
 */
module FetchProviders {
  import opened Common

  /** The provider classes. */
  datatype Provider = Arxiv | CrossRef | PubMed | SemanticScholar

  /** The name each provider is registered under. */
  function NameOf(p: Provider): string
  {
    match p
    case Arxiv => "arxiv"
    case CrossRef => "crossref"
    case PubMed => "pubmed"
    case SemanticScholar => "semantic_scholar"
  }

  /** The registry `get_provider` consults. */
  const Registry: map<string, Provider> :=
    map["arxiv" := Arxiv, "crossref" := CrossRef, "pubmed" := PubMed, "semantic_scholar" := SemanticScholar]

  /** `get_provider`: the provider registered under the lowercased name, if any. */
  function GetProvider(name: string): (r: Option<Provider>)
    ensures r.Some? <==> Lower(name) in Registry
    ensures r.Some? ==> NameOf(r.value) == Lower(name)
  {
    var key := Lower(name);
    if key in Registry then Some(Registry[key]) else None
  }

  /** Every provider is found under its own name, in any letter case. */
  lemma GetProviderByName(p: Provider, name: string)
    requires Lower(name) == NameOf(p)
    ensures GetProvider(name) == Some(p)
  {
  }

  /** Lookup ignores letter case. */
  lemma GetProviderIgnoresCase(name: string)
    ensures GetProvider(Lower(name)) == GetProvider(name)
  {
    LowerIdempotent(name);
  }

  /** The provider each domain prefers. */
  const DomainMapping: map<string, string> :=
    map["biomedical" := "pubmed", "biology" := "pubmed", "medicine" := "pubmed",
        "computer_science" := "arxiv", "physics" := "arxiv", "mathematics" := "arxiv",
        "chemistry" := "crossref", "engineering" := "crossref"]

  /** The preferred provider's name: none for a missing or empty domain or an unmapped one. */
  function Preferred(domain: Option<string>): (r: Option<string>)
    ensures r.Some? <==> domain.Some? && domain.value != "" && domain.value in DomainMapping
    ensures r.Some? ==> r.value in Registry
  {
    if domain.Some? && domain.value != "" && domain.value in DomainMapping then Some(DomainMapping[domain.value])
    else None
  }

  /** The preferred names are registry keys as they stand. */
  lemma PreferredIsLower(domain: Option<string>)
    requires Preferred(domain).Some?
    ensures Lower(Preferred(domain).value) == Preferred(domain).value
  {
    var n := Preferred(domain).value;
    assert n == "pubmed" || n == "arxiv" || n == "crossref";
    assert IsLowerString(n);
    LowerOfLowerString(n);
  }

  /** `select_provider_for_domain` */
  function SelectProvider(domain: Option<string>, enabled: seq<string>): (r: Option<Provider>)
  {
    var preferred := Preferred(domain);
    if preferred.Some? && preferred.value in enabled then GetProvider(preferred.value)
    else if enabled != [] then GetProvider(enabled[0])
    else None
  }

  /**
   * The domain's preferred provider is chosen exactly when it is enabled;
   * otherwise the first enabled name is looked up, also when there is no
   * domain; with nothing enabled there is no provider; and whatever is
   * chosen was enabled under its name.
   */
  lemma SelectProviderSpec(domain: Option<string>, enabled: seq<string>)
    ensures var preferred := Preferred(domain);
      var r := SelectProvider(domain, enabled);
      (preferred.Some? && preferred.value in enabled ==> r.Some? && NameOf(r.value) == preferred.value)
      && (!(preferred.Some? && preferred.value in enabled) && enabled != [] ==> r == GetProvider(enabled[0]))
      && (domain.None? && enabled != [] ==> r == GetProvider(enabled[0]))
      && (enabled == [] ==> r.None?)
      && (r.Some? ==> exists k :: 0 <= k < |enabled| && Lower(enabled[k]) == NameOf(r.value))
  {
    var preferred := Preferred(domain);
    var r := SelectProvider(domain, enabled);
    if preferred.Some? && preferred.value in enabled {
      var k :| 0 <= k < |enabled| && enabled[k] == preferred.value;
      PreferredIsLower(domain);
      assert Lower(enabled[k]) == NameOf(r.value);
    } else if r.Some? {
      assert Lower(enabled[0]) == NameOf(r.value);
    }
  }
}
