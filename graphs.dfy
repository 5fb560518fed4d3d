/**
 * The station graph shared by the builder and the route search: each source
 * node maps to a dict, in insertion order, from destination node to the cost
 * token scraped for that connection.  Costs stay text until the search
 * converts them with `int()`.
 */
module Graphs {
  import opened Wrappers
  import opened PyDict

  type Graph = map<string, Dict<string>>

  /** Every adjacency list is a real dict: no destination twice. */
  predicate WellFormed(g: Graph) {
    forall a {:trigger UniqueKeys(g[a])} | a in g :: UniqueKeys(g[a])
  }

  /** `graph.get(node, {})`, in iteration order. */
  function Neighbours(g: Graph, node: string): Dict<string> {
    if node in g then g[node] else []
  }

  predicate HasEdge(g: Graph, a: string, b: string) {
    a in g && b in Keys(g[a])
  }

  /** The cost token of edge `a -> b`, if there is one. */
  function EdgeCost(g: Graph, a: string, b: string): (r: Option<string>)
    ensures r.Some? <==> HasEdge(g, a, b)
  {
    if a in g then
      GetFinds(g[a], b);
      Get(g[a], b)
    else None
  }
}
