/**
 * The JSON shapes the graph phases pass to each other: a node dict of a
 * sanitized or semantic graph, an edge dict, and a graph holding both lists.
 * Keys that are absent are modelled explicitly where the code distinguishes
 * an absent key from a present one.
 */
module GraphTypes {
  import opened Common

  /** A dict value as read with `.get(key)`: absent, present and `None`, or a string. */
  datatype Attr = Missing | Null | Str(s: string)
  {
    /** `d.get(key)` compared with a string. */
    predicate Is(v: string) { Str? && s == v }

    /** `d.get(key, default)` for a string default. */
    function Or(default: string): Option<string>
    {
      match this
      case Missing => Some(default)
      case Null => None
      case Str(v) => Some(v)
    }
  }

  /**
   * An entry of a graph's "nodes" list. `NotDict` stands for any entry that
   * is not a dict (every phase skips those). `text` is "" when the key is
   * absent or falsy.
   */
  datatype SemNode =
    | NodeDict(text: string, ntype: Attr, aliases: seq<string>)
    | NotDict

  /**
   * An entry of a graph's "edges" list. `None` stands for an absent or
   * `None` key. An edge without "support" is built with support 1.
   */
  datatype SemEdge = SemEdge(
    subject: Option<string>,
    pred: Option<string>,
    obj: Option<string>,
    support: int,
    tripleIds: seq<int>,
    sourceIds: seq<int>,
    blockIds: seq<int>)

  datatype SemanticGraph = SemanticGraph(nodes: seq<SemNode>, edges: seq<SemEdge>)

  /** The node classes of graph sanitization ("concept", "entity", ...). */
  datatype NodeClass = Concept | Entity | Metadata | Citation | Noise

  /** `edge.get(key, "")` for an endpoint or predicate. */
  function OrEmpty(o: Option<string>): string
  {
    if o.Some? then o.value else ""
  }
}
