/**
 * The registry of classifier handlers: labels are uppercased both when a
 * handler is registered and when one is looked up, so lookup ignores
 * letter case. The handlers live in one dictionary shared by the class;
 * here it is the state of a `HandlerRegistry` object.
 */
module InputHandlerRegistry {
  import opened Common

  /** `HandlerRegistry`; handler classes are named by strings. */
  class HandlerRegistry {
    var handlers: map<string, string>

    /** Every key is an uppercased label. */
    predicate Valid()
      reads this
    {
      forall k :: k in handlers ==> Upper(k) == k
    }

    constructor()
      ensures handlers == map[] && Valid()
    {
      handlers := map[];
    }

    /** `register` */
    method Register(name: string, c: string)
      modifies this
      ensures handlers == old(handlers)[Upper(name) := c]
      ensures old(Valid()) ==> Valid()
      ensures forall l :: Upper(l) == Upper(name) ==> GetHandler(l) == Some(c)
    {
      UpperIdempotent(name);
      handlers := handlers[Upper(name) := c];
    }

    /** `get_handler` */
    function GetHandler(name: string): (r: Option<string>)
      reads this
      ensures r.Some? <==> Upper(name) in handlers
      ensures r.Some? ==> r.value == handlers[Upper(name)]
    {
      if Upper(name) in handlers then Some(handlers[Upper(name)]) else None
    }

    /** `all_labels` */
    function AllLabels(): (r: set<string>)
      reads this
      ensures Valid() ==> forall l :: l in r <==> Upper(l) == l && GetHandler(l).Some?
    {
      handlers.Keys
    }
  }

  /** Lookup ignores letter case: a label and its uppercase find the same handler. */
  lemma GetHandlerIgnoresCase(registry: HandlerRegistry, name: string)
    ensures registry.GetHandler(Upper(name)) == registry.GetHandler(name)
  {
    UpperIdempotent(name);
  }

  /** `register_classifier_handler(label)` applied to a class: registers it and returns it unchanged. */
  method RegisterClassifierHandler(registry: HandlerRegistry, name: string, c: string) returns (r: string)
    modifies registry
    ensures r == c
    ensures registry.handlers == old(registry.handlers)[Upper(name) := c]
    ensures registry.GetHandler(name) == Some(c)
  {
    registry.Register(name, c);
    r := c;
  }

  /** `get_handler_for_label` */
  method GetHandlerForLabel(registry: HandlerRegistry, name: string) returns (r: Option<string>)
    ensures r == registry.GetHandler(name)
    ensures r.None? <==> Upper(name) !in registry.AllLabels()
  {
    r := registry.GetHandler(name);
  }
}
