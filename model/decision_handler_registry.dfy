/**
 * The registry of decision handlers: decision labels map to handler
 * classes, only subclasses of `Handler` are accepted, and registering a
 * label again replaces its class.
 */
module DecisionHandlerRegistry {
  import opened Common

  /** A handler class: its name and whether it subclasses `Handler`. */
  datatype HandlerClass = HandlerClass(name: string, subclassesHandler: bool)

  /** `handlers.get(label)` */
  function Lookup(handlers: map<string, HandlerClass>, decisionLabel: string): (r: Option<HandlerClass>)
    ensures r.Some? <==> decisionLabel in handlers
    ensures r.Some? ==> r.value == handlers[decisionLabel]
  {
    if decisionLabel in handlers then Some(handlers[decisionLabel]) else None
  }

  /** After registering `c` under `label`, `label` finds `c` and every other label what it found before. */
  lemma LookupAfterRegister(handlers: map<string, HandlerClass>, decisionLabel: string, c: HandlerClass, other: string)
    ensures Lookup(handlers[decisionLabel := c], decisionLabel) == Some(c)
    ensures other != decisionLabel ==> Lookup(handlers[decisionLabel := c], other) == Lookup(handlers, other)
  {
  }

  /** `HandlerRegistry` */
  class HandlerRegistry {
    var handlers: map<string, HandlerClass>

    /** Every registered class subclasses `Handler`. */
    predicate Valid()
      reads this
    {
      forall l :: l in handlers ==> handlers[l].subclassesHandler
    }

    constructor()
      ensures handlers == map[] && Valid()
    {
      handlers := map[];
    }

    /**
     * `register`: a class that is not a `Handler` is refused with the
     * ValueError's message and nothing changes; otherwise the label maps to
     * the class, replacing any earlier one.
     */
    method Register(decisionLabel: string, c: HandlerClass) returns (error: Option<string>)
      modifies this
      ensures !c.subclassesHandler ==> error == Some(c.name + " must subclass Handler") && handlers == old(handlers)
      ensures c.subclassesHandler ==> error == None && handlers == old(handlers)[decisionLabel := c]
      ensures old(Valid()) ==> Valid()
    {
      if !c.subclassesHandler {
        return Some(c.name + " must subclass Handler");
      }
      handlers := handlers[decisionLabel := c];
      error := None;
    }

    /** `get` */
    function Get(decisionLabel: string): (r: Option<HandlerClass>)
      reads this
      ensures r.Some? <==> decisionLabel in handlers
      ensures Valid() && r.Some? ==> r.value.subclassesHandler
    {
      Lookup(handlers, decisionLabel)
    }

    /** `all_labels` */
    function AllLabels(): (r: set<string>)
      reads this
      ensures forall l :: l in r <==> Get(l).Some?
    {
      handlers.Keys
    }
  }

  /** `register_handler`: registration in the given (global) registry. */
  method RegisterHandler(registry: HandlerRegistry, decisionLabel: string, c: HandlerClass) returns (error: Option<string>)
    modifies registry
    ensures c.subclassesHandler ==> error == None && registry.Get(decisionLabel) == Some(c)
    ensures !c.subclassesHandler ==> error.Some? && registry.handlers == old(registry.handlers)
    ensures c.subclassesHandler ==> registry.handlers == old(registry.handlers)[decisionLabel := c]
    ensures !c.subclassesHandler ==> error == Some(c.name + " must subclass Handler")
    ensures old(registry.Valid()) ==> registry.Valid()
  {
    error := registry.Register(decisionLabel, c);
  }

  /** `get_handler_for_decision` */
  method GetHandlerForDecision(registry: HandlerRegistry, decisionLabel: string) returns (r: Option<HandlerClass>)
    ensures r == registry.Get(decisionLabel)
    ensures r.None? <==> decisionLabel !in registry.AllLabels()
  {
    r := registry.Get(decisionLabel);
  }
}
