/**
 * The registry of model providers: ids are lowercased when a provider
 * registers and when one is looked up. The dictionary keeps its keys in
 * insertion order, which `list_providers` returns; registering an id
 * again replaces the class but keeps the id's place.
 */
module LlmProviderRegistry {
  import opened Common

  /** `ProviderRegistry`; provider classes are named by strings. */
  class ProviderRegistry {
    var providers: map<string, string>
    /** The keys of `providers` in insertion order. */
    var order: seq<string>

    /** The order lists each key once, and every key is a lowercased id. */
    ghost predicate Valid()
      reads this
    {
      Distinct(order)
      && (forall k :: k in providers <==> k in order)
      && (forall k :: k in providers ==> Lower(k) == k)
    }

    constructor()
      ensures providers == map[] && order == [] && Valid()
    {
      providers := map[];
      order := [];
    }

    /** `register(provider_id)` applied to a class: registers it under the lowercased id and returns it. */
    method Register(providerId: string, c: string) returns (r: string)
      modifies this
      ensures r == c
      ensures providers == old(providers)[Lower(providerId) := c]
      ensures Lower(providerId) in old(providers) ==> order == old(order)
      ensures Lower(providerId) !in old(providers) ==> order == old(order) + [Lower(providerId)]
      ensures old(Valid()) ==> Valid()
      ensures GetProviderClass(providerId) == Some(c)
    {
      var key := Lower(providerId);
      LowerIdempotent(providerId);
      if key !in providers {
        if Valid() {
          DistinctSnoc(order, key);
        }
        order := order + [key];
      }
      providers := providers[key := c];
      r := c;
    }

    /** `get_provider_class` */
    function GetProviderClass(providerId: string): (r: Option<string>)
      reads this
      ensures r.Some? <==> Lower(providerId) in providers
      ensures r.Some? ==> r.value == providers[Lower(providerId)]
    {
      if Lower(providerId) in providers then Some(providers[Lower(providerId)]) else None
    }

    /** `list_providers`: each registered id once, in registration order. */
    method ListProviders() returns (ids: seq<string>)
      requires Valid()
      ensures ids == order
      ensures Distinct(ids) && forall k :: k in ids <==> GetProviderClass(k).Some? && Lower(k) == k
    {
      ids := order;
      forall k | k in ids
        ensures GetProviderClass(k).Some?
      {
        assert Lower(k) == k;
      }
      forall k | GetProviderClass(k).Some? && Lower(k) == k
        ensures k in ids
      {
      }
    }
  }

  /** Lookup ignores letter case. */
  lemma GetProviderClassIgnoresCase(registry: ProviderRegistry, providerId: string)
    ensures registry.GetProviderClass(Lower(providerId)) == registry.GetProviderClass(providerId)
  {
    LowerIdempotent(providerId);
  }
}
