/**
 * `find_all_routes`: a depth-first search from `source` that records every
 * path reaching `destination` together with the sum of its edge costs.
 * Each branch gets its own path, cost and visited set; the routes found are
 * appended to one list shared by all branches.  The current node joins the
 * visited set only when its children are built, so a self-loop `X -> X` can
 * be taken once.
 */
module RouteEnumerator {
  import opened Wrappers
  import opened Graphs
  import opened IntParse

  datatype Route = Route(path: seq<string>, cost: int)

  /** `int(edge_cost)` raised `ValueError` on this cost token. */
  datatype CostError = BadCost(token: string)

  /** Keys of the graph the search may still expand below `current`: the first part of the termination measure. */
  function Unvisited(g: Graph, visited: set<string>, current: string): nat {
    |g.Keys - (visited + {current})|
  }

  /**
   * Entering a node outside `visited + {current}` never leaves more keys of
   * the graph to expand, and leaves fewer when it is another key of the graph.
   */
  lemma UnvisitedShrinks(g: Graph, visited: set<string>, current: string, next: string)
    requires next !in visited
    ensures Unvisited(g, visited + {current}, next) <= Unvisited(g, visited, current)
    ensures next != current && next in g ==> Unvisited(g, visited + {current}, next) < Unvisited(g, visited, current)
  {
    var before := g.Keys - (visited + {current});
    assert g.Keys - (visited + {current} + {next}) == before - {next};
  }

  /** `acc` followed by the routes of `rest`, or the error `rest` raised. */
  function Prepend(acc: seq<Route>, rest: Result<seq<Route>, CostError>): Result<seq<Route>, CostError> {
    match rest
    case Ok(found) => Ok(acc + found)
    case Err(e) => Err(e)
  }

  lemma PrependNothing(rest: Result<seq<Route>, CostError>)
    ensures Prepend([], rest) == rest
  {
    if rest.Ok? {
      assert [] + rest.value == rest.value;
    }
  }

  lemma PrependTwice(acc: seq<Route>, found: seq<Route>, rest: Result<seq<Route>, CostError>)
    ensures Prepend(acc, Prepend(found, rest)) == Prepend(acc + found, rest)
  {
    if rest.Ok? {
      assert acc + (found + rest.value) == (acc + found) + rest.value;
    }
  }

  /** What `dfs(current, path, cost, visited)` appends to the shared list, or the error it raises. */
  function Explore(g: Graph, destination: string, current: string, path: seq<string>, cost: int, visited: set<string>)
    : Result<seq<Route>, CostError>
    decreases Unvisited(g, visited, current), if current in g then 1 else 0, if current in visited then 0 else 1, 1, 0
  {
    if current == destination then Ok([Route(path, cost)])
    else ExploreFrom(g, destination, current, path, cost, visited, 0)
  }

  /** The loop of `dfs` over `graph.get(current, {}).items()`, from the `i`-th neighbour on. */
  function ExploreFrom(g: Graph, destination: string, current: string, path: seq<string>, cost: int, visited: set<string>, i: nat)
    : Result<seq<Route>, CostError>
    requires i <= |Neighbours(g, current)|
    decreases Unvisited(g, visited, current), if current in g then 1 else 0, if current in visited then 0 else 1, 0, |Neighbours(g, current)| - i
  {
    if i == |Neighbours(g, current)| then Ok([])
    else
      var (next, token) := Neighbours(g, current)[i];
      if next in visited then ExploreFrom(g, destination, current, path, cost, visited, i + 1)
      else match ParseInt(token)
        case None => Err(BadCost(token))
        case Some(edgeCost) =>
          UnvisitedShrinks(g, visited, current, next);
          match Explore(g, destination, next, path + [next], cost + edgeCost, visited + {current})
          case Err(e) => Err(e)
          case Ok(found) => Prepend(found, ExploreFrom(g, destination, current, path, cost, visited, i + 1))
  }

  /** `find_all_routes(graph, source, destination)`. */
  function AllRoutes(g: Graph, source: string, destination: string): Result<seq<Route>, CostError> {
    if source in g then Explore(g, destination, source, [source], 0, {}) else Ok([])
  }

  /** The state `find_all_routes` shares with its nested `dfs`. */
  class RouteSearch {
    const graph: Graph
    const destination: string
    /** `all_routes`. */
    var allRoutes: seq<Route>

    constructor (graph: Graph, destination: string)
      ensures this.graph == graph && this.destination == destination && allRoutes == []
    {
      this.graph := graph;
      this.destination := destination;
      allRoutes := [];
    }

    /** `dfs`: appends the routes below `current` to `allRoutes`, or raises. */
    method Dfs(current: string, path: seq<string>, cost: int, visited: set<string>) returns (outcome: Outcome<CostError>)
      modifies this
      decreases Unvisited(graph, visited, current), if current in graph then 1 else 0, if current in visited then 0 else 1, 1
      ensures outcome.Pass? <==> Explore(graph, destination, current, path, cost, visited).Ok?
      ensures outcome.Pass? ==> allRoutes == old(allRoutes) + Explore(graph, destination, current, path, cost, visited).value
      ensures outcome.Fail? ==> Explore(graph, destination, current, path, cost, visited) == Err(outcome.error)
    {
      if current == destination {
        allRoutes := allRoutes + [Route(path, cost)];
        return Pass;
      }
      var nextDestinations := Neighbours(graph, current);
      ghost var start, found := allRoutes, [];
      PrependNothing(ExploreFrom(graph, destination, current, path, cost, visited, 0));
      for i := 0 to |nextDestinations|
        invariant allRoutes == start + found
        invariant ExploreFrom(graph, destination, current, path, cost, visited, 0)
          == Prepend(found, ExploreFrom(graph, destination, current, path, cost, visited, i))
      {
        ghost var before := allRoutes;
        var step := Visit(current, path, cost, visited, i);
        if step.Fail? {
          return step;
        }
        ghost var added := allRoutes[|before|..];
        PrependTwice(found, added, ExploreFrom(graph, destination, current, path, cost, visited, i + 1));
        assert allRoutes == before + added;
        found := found + added;
      }
      return Pass;
    }

    /**
     * One turn of the loop in `dfs`, for the `i`-th neighbour of `current`:
     * skipped when visited, raises when `int()` rejects its cost, and
     * otherwise recurses with the longer path, the higher cost and `current`
     * added to the visited set.  What it appends comes in front of the rest
     * of the loop's routes.
     */
    method Visit(current: string, path: seq<string>, cost: int, visited: set<string>, i: nat) returns (outcome: Outcome<CostError>)
      requires i < |Neighbours(graph, current)|
      modifies this
      decreases Unvisited(graph, visited, current), if current in graph then 1 else 0, if current in visited then 0 else 1, 0
      ensures outcome.Pass? ==> |old(allRoutes)| <= |allRoutes| && allRoutes[..|old(allRoutes)|] == old(allRoutes)
      ensures outcome.Pass? ==>
                ExploreFrom(graph, destination, current, path, cost, visited, i)
                == Prepend(allRoutes[|old(allRoutes)|..], ExploreFrom(graph, destination, current, path, cost, visited, i + 1))
      ensures outcome.Fail? ==> ExploreFrom(graph, destination, current, path, cost, visited, i) == Err(outcome.error)
    {
      var (nextDest, edgeCost) := Neighbours(graph, current)[i];
      if nextDest in visited {
        PrependNothing(ExploreFrom(graph, destination, current, path, cost, visited, i + 1));
        assert allRoutes[|allRoutes|..] == [] && allRoutes[..|allRoutes|] == allRoutes;
        return Pass;
      }
      var newPath := path + [nextDest];
      var parsed := ParseInt(edgeCost);
      if parsed.None? {
        return Fail(BadCost(edgeCost));
      }
      var newCost := cost + parsed.value;
      var newVisited := visited + {current};
      UnvisitedShrinks(graph, visited, current, nextDest);
      ghost var before := allRoutes;
      outcome := Dfs(nextDest, newPath, newCost, newVisited);
      if outcome.Pass? {
        assert allRoutes[|before|..] == Explore(graph, destination, nextDest, newPath, newCost, newVisited).value;
      }
    }
  }

  /** `find_all_routes`: a fresh shared list, one `dfs` from the source if it is a key of the graph. */
  method FindAllRoutes(graph: Graph, source: string, destination: string) returns (r: Result<seq<Route>, CostError>)
    ensures r == AllRoutes(graph, source, destination)
  {
    var search := new RouteSearch(graph, destination);
    if source in graph {
      var outcome := search.Dfs(source, [source], 0, {});
      if outcome.Fail? {
        return Err(outcome.error);
      }
      ghost var found := Explore(graph, destination, source, [source], 0, {}).value;
      assert [] + found == found;
    } else {
      assert search.allRoutes == [];
    }
    return Ok(search.allRoutes);
  }
}
