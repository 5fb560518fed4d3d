/**
 * What `find_all_routes` returns, stated against the graph alone: exactly the
 * walks from the source that stop at their first visit to the destination and
 * repeat a node only through a self-loop taken once, each with the sum of its
 * edge costs; and it raises exactly when some walk it explores from the
 * source, whether or not that walk reaches the destination, crosses a cost
 * that `int()` rejects.
 */
module RouteProperties {
  import opened Wrappers
  import opened PyDict
  import opened Graphs
  import opened IntParse
  import opened RouteEnumerator

  /** A node occurs twice only as two neighbours: the self-loop the late `visited` update lets through. */
  predicate RepeatsOnlyAdjacent(p: seq<string>) {
    forall i, j | 0 <= i < j < |p| && j != i + 1 :: p[i] != p[j]
  }

  /** The search leaves `p[k]` along an edge: `p[k]` is not the destination and `p[k] -> p[k + 1]` is an edge. */
  predicate Step(g: Graph, destination: string, p: seq<string>, k: nat)
    requires k + 1 < |p|
  {
    p[k] != destination && HasEdge(g, p[k], p[k + 1])
  }

  /**
   * A path the search can stand on: it starts at a key of the graph,
   * and each further node is reached along an edge from a node that is not
   * the destination, and is none of the nodes before its predecessor (which
   * were in `visited` when it was considered).
   */
  predicate Walk(g: Graph, destination: string, p: seq<string>)
    decreases |p|
  {
    if |p| <= 1 then |p| == 1 && p[0] in g
    else
      && Walk(g, destination, p[..|p| - 1])
      && Step(g, destination, p, |p| - 2)
      && p[|p| - 1] !in p[..|p| - 2]
  }

  /** A route `find_all_routes(g, source, destination)` must report. */
  predicate IsRoute(g: Graph, source: string, destination: string, p: seq<string>) {
    Walk(g, destination, p) && p[0] == source && p[|p| - 1] == destination
  }

  /** The sum of `int(graph[a][b])` over the edges of `p`, or `None` if an edge is missing or its cost is not an integer. */
  function PathCost(g: Graph, p: seq<string>): Option<int>
    decreases |p|
  {
    if |p| <= 1 then Some(0)
    else match (PathCost(g, p[..|p| - 1]), EdgeCost(g, p[|p| - 2], p[|p| - 1]))
      case (Some(c), Some(token)) =>
        (match ParseInt(token)
         case Some(e) => Some(c + e)
         case None => None)
      case _ => None
  }

  /** The last edge of `p` exists and `int()` rejects its cost. */
  predicate BadLastEdge(g: Graph, p: seq<string>) {
    |p| >= 2 &&
    match EdgeCost(g, p[|p| - 2], p[|p| - 1])
    case Some(token) => ParseInt(token).None?
    case None => false
  }

  function Elements(s: seq<string>): set<string> {
    set x | x in s
  }

  /** The path and visited set of a call `dfs(current, path, cost, visited)`. */
  predicate SearchPosition(g: Graph, destination: string, current: string, path: seq<string>, visited: set<string>) {
    && Walk(g, destination, path)
    && path[|path| - 1] == current
    && visited == Elements(path[..|path| - 1])
  }

  /** The arguments of a call `dfs(current, path, cost, visited)`. */
  predicate SearchState(g: Graph, destination: string, current: string, path: seq<string>, cost: int, visited: set<string>) {
    SearchPosition(g, destination, current, path, visited) && PathCost(g, path) == Some(cost)
  }

  predicate Extends(path: seq<string>, q: seq<string>) {
    |path| <= |q| && q[..|path|] == path
  }

  /** `q` continues `path` to the destination. */
  predicate Completes(g: Graph, destination: string, path: seq<string>, q: seq<string>) {
    Extends(path, q) && Walk(g, destination, q) && q[|q| - 1] == destination
  }

  /** `q` continues `path` and its last edge carries a cost `int()` rejects. */
  predicate ReachesBadCost(g: Graph, destination: string, path: seq<string>, q: seq<string>) {
    |path| < |q| && Extends(path, q) && Walk(g, destination, q) && BadLastEdge(g, q)
  }

  /** The neighbours of `current` from the `i`-th on. */
  function Later(g: Graph, current: string, i: nat): set<string>
    requires i <= |Neighbours(g, current)|
  {
    set k | i <= k < |Neighbours(g, current)| :: Neighbours(g, current)[k].0
  }

  /** How many times `q` occurs as a route's path in `rs`. */
  function Count(rs: seq<Route>, q: seq<string>): nat {
    if rs == [] then 0 else (if rs[0].path == q then 1 else 0) + Count(rs[1..], q)
  }

  lemma {:induction false} CountAppend(a: seq<Route>, b: seq<Route>, q: seq<string>)
    ensures Count(a + b, q) == Count(a, q) + Count(b, q)
  {
    if a == [] {
      assert a + b == b;
    } else {
      assert (a + b)[1..] == a[1..] + b;
      CountAppend(a[1..], b, q);
    }
  }

  lemma {:induction false} CountMember(rs: seq<Route>, r: Route)
    requires r in rs
    ensures Count(rs, r.path) >= 1
  {
    if rs[0] != r {
      CountMember(rs[1..], r);
    }
  }

  lemma ExtendsByOne(path: seq<string>, next: string, q: seq<string>)
    ensures Extends(path + [next], q) <==> Extends(path, q) && |path| < |q| && q[|path|] == next
  {
    if Extends(path, q) && |path| < |q| && q[|path|] == next {
      assert q[..|path| + 1] == q[..|path|] + [q[|path|]];
    }
  }

  lemma {:induction false} WalkPrefix(g: Graph, destination: string, q: seq<string>, m: nat)
    requires Walk(g, destination, q) && 1 <= m <= |q|
    ensures Walk(g, destination, q[..m])
    decreases |q|
  {
    if m < |q| {
      WalkPrefix(g, destination, q[..|q| - 1], m);
      assert q[..|q| - 1][..m] == q[..m];
    } else {
      assert q[..m] == q;
    }
  }

  /** Every node of a walk but the last is left along an edge, and is not the destination. */
  lemma WalkStep(g: Graph, destination: string, q: seq<string>, k: nat)
    requires Walk(g, destination, q) && k < |q|
    ensures k + 1 < |q| ==> Step(g, destination, q, k)
  {
    if k + 1 < |q| {
      WalkPrefix(g, destination, q, k + 2);
      var w := q[..k + 2];
      assert Step(g, destination, w, k);
      assert w[k] == q[k] && w[k + 1] == q[k + 1];
    }
  }

  /** A walk that continues `path` leaves `path`'s last node, so that node is not the destination. */
  lemma PassesOnlyTo(g: Graph, destination: string, path: seq<string>, q: seq<string>)
    requires |path| >= 1
    ensures Extends(path, q) && |path| < |q| && Walk(g, destination, q) ==> path[|path| - 1] != destination
  {
    if Extends(path, q) && |path| < |q| && Walk(g, destination, q) {
      WalkStep(g, destination, q, |path| - 1);
      assert q[|path| - 1] == path[|path| - 1];
    }
  }

  /** A continuation of `path + [next]` that is one node longer ends with the edge `path`'s last node to `next`. */
  lemma OneStepFurther(path: seq<string>, next: string, q: seq<string>)
    requires |path| >= 1 && Extends(path + [next], q)
    ensures |q| == |path| + 1 ==> q[|q| - 2] == path[|path| - 1] && q[|q| - 1] == next
  {
    if |q| == |path| + 1 {
      assert q[|q| - 2] == (path + [next])[|path| - 1];
    }
  }

  /** `Later(i)` is the `i`-th neighbour and, disjointly, `Later(i + 1)`. */
  lemma LaterStep(g: Graph, current: string, i: nat)
    requires WellFormed(g) && i < |Neighbours(g, current)|
    ensures Later(g, current, i) == {Neighbours(g, current)[i].0} + Later(g, current, i + 1)
    ensures Neighbours(g, current)[i].0 !in Later(g, current, i + 1)
  {
    assert current in g && UniqueKeys(g[current]);
  }

  /** A neighbour of the last node is in `Later(0)`. */
  lemma EdgeIsLater(g: Graph, current: string, next: string)
    requires HasEdge(g, current, next)
    ensures next in Later(g, current, 0)
  {
    KeysAt(g[current]);
    var k :| 0 <= k < |Keys(g[current])| && Keys(g[current])[k] == next;
    assert Neighbours(g, current)[k].0 == next;
  }

  /** A node already in `visited` cannot come next on a walk through `path`. */
  lemma VisitedCannotFollow(g: Graph, destination: string, path: seq<string>, q: seq<string>, visited: set<string>)
    requires |path| >= 1 && visited == Elements(path[..|path| - 1])
    requires Extends(path, q) && |path| < |q| && Walk(g, destination, q)
    ensures q[|path|] !in visited
  {
    WalkPrefix(g, destination, q, |path| + 1);
    assert q[..|path| + 1][..|path| - 1] == path[..|path| - 1];
  }

  /** The call `dfs` makes on `next` from `current` is lower in the termination measure of `Explore`. */
  predicate Deeper(g: Graph, visited: set<string>, current: string, next: string) {
    var (u, u') := (Unvisited(g, visited, current), Unvisited(g, visited + {current}, next));
    var (k, k') := (if current in g then 1 else 0, if next in g then 1 else 0);
    var (v, v') := (if current in visited then 0 else 1, if next in visited + {current} then 0 else 1);
    u' < u || (u' == u && (k' < k || (k' == k && v' < v)))
  }

  lemma NeighbourDeeper(g: Graph, visited: set<string>, current: string, i: nat)
    requires i < |Neighbours(g, current)| && Neighbours(g, current)[i].0 !in visited
    ensures Deeper(g, visited, current, Neighbours(g, current)[i].0)
  {
    UnvisitedShrinks(g, visited, current, Neighbours(g, current)[i].0);
  }

  /** Moving to the `i`-th neighbour, if not yet visited, keeps a walk. */
  lemma {:induction false} ChildWalk(g: Graph, destination: string, current: string, path: seq<string>, visited: set<string>, i: nat)
    requires WellFormed(g) && SearchPosition(g, destination, current, path, visited) && current != destination
    requires i < |Neighbours(g, current)| && Neighbours(g, current)[i].0 !in visited
    ensures SearchPosition(g, destination, Neighbours(g, current)[i].0, path + [Neighbours(g, current)[i].0], visited + {current})
    ensures EdgeCost(g, current, Neighbours(g, current)[i].0) == Some(Neighbours(g, current)[i].1)
  {
    var next := Neighbours(g, current)[i].0;
    var p := path + [next];
    assert current in g;
    KeysAt(g[current]);
    GetAt(g[current], i);
    assert p[..|p| - 1] == path;
    assert p[..|p| - 2] == path[..|path| - 1];
    assert Step(g, destination, p, |p| - 2);
    assert path == path[..|path| - 1] + [current];
    assert visited + {current} == Elements(path);
  }

  /** The arguments of the recursive `dfs` call are again a search state. */
  lemma ChildState(g: Graph, destination: string, current: string, path: seq<string>, cost: int, visited: set<string>, i: nat, edgeCost: int)
    requires WellFormed(g) && SearchState(g, destination, current, path, cost, visited) && current != destination
    requires i < |Neighbours(g, current)| && Neighbours(g, current)[i].0 !in visited
    requires ParseInt(Neighbours(g, current)[i].1) == Some(edgeCost)
    ensures SearchState(g, destination, Neighbours(g, current)[i].0, path + [Neighbours(g, current)[i].0],
                        cost + edgeCost, visited + {current})
  {
    var (next, token) := Neighbours(g, current)[i];
    ChildWalk(g, destination, current, path, visited, i);
    PathCostStep(g, path, next, cost, token, edgeCost);
  }

  /** Extending a path by one edge adds that edge's cost. */
  lemma PathCostStep(g: Graph, path: seq<string>, next: string, cost: int, token: string, edgeCost: int)
    requires |path| >= 1 && PathCost(g, path) == Some(cost)
    requires EdgeCost(g, path[|path| - 1], next) == Some(token) && ParseInt(token) == Some(edgeCost)
    ensures PathCost(g, path + [next]) == Some(cost + edgeCost)
  {
    var p := path + [next];
    assert p[..|p| - 1] == path;
  }

  /** Two indicators of exclusive conditions add up to the indicator of their disjunction. */
  lemma Indicators(a: nat, b: nat, x: bool, y: bool, z: bool)
    requires a == (if x then 1 else 0) && b == (if y then 1 else 0)
    requires z <==> x || y
    requires !(x && y)
    ensures a + b == if z then 1 else 0
  {
  }

  /** `dfs` reports every completion of its path exactly once. */
  lemma {:induction false} ExploreCounts(g: Graph, destination: string, current: string, path: seq<string>, cost: int, visited: set<string>)
    requires WellFormed(g) && SearchPosition(g, destination, current, path, visited)
    ensures Explore(g, destination, current, path, cost, visited).Ok? ==>
      forall q :: Count(Explore(g, destination, current, path, cost, visited).value, q)
                  == if Completes(g, destination, path, q) then 1 else 0
    decreases Unvisited(g, visited, current), if current in g then 1 else 0, if current in visited then 0 else 1, 1, 0
  {
    var r := Explore(g, destination, current, path, cost, visited);
    if current == destination {
      forall q ensures Count(r.value, q) == if Completes(g, destination, path, q) then 1 else 0 {
        assert Count(r.value, q) == if q == path then 1 else 0;
        if Completes(g, destination, path, q) {
          WalkStep(g, destination, q, |path| - 1);
          assert q[|path| - 1] == path[|path| - 1];
          assert q == path by {
            assert q[..|path|] == path;
          }
        }
      }
    } else {
      ExploreFromCounts(g, destination, current, path, cost, visited, 0);
      forall q | Completes(g, destination, path, q)
        ensures |path| < |q| && q[|path|] in Later(g, current, 0)
      {
        assert q[|path| - 1] == path[|path| - 1];
        assert |q| != |path| by {
          assert q[..|path|] == path;
        }
        WalkStep(g, destination, q, |path| - 1);
        EdgeIsLater(g, current, q[|path|]);
      }
    }
  }

  /** `q` completes `path` through a neighbour of `current` from the `i`-th on. */
  predicate CompletesThrough(g: Graph, destination: string, current: string, path: seq<string>, i: nat, q: seq<string>)
    requires i <= |Neighbours(g, current)|
  {
    Completes(g, destination, path, q) && |path| < |q| && q[|path|] in Later(g, current, i)
  }

  /** The loop over the neighbours from the `i`-th on reports every completion through them exactly once. */
  lemma {:induction false} ExploreFromCounts(g: Graph, destination: string, current: string, path: seq<string>, cost: int, visited: set<string>, i: nat)
    requires WellFormed(g) && SearchPosition(g, destination, current, path, visited) && current != destination
    requires i <= |Neighbours(g, current)|
    ensures ExploreFrom(g, destination, current, path, cost, visited, i).Ok? ==>
      forall q :: Count(ExploreFrom(g, destination, current, path, cost, visited, i).value, q)
                  == if CompletesThrough(g, destination, current, path, i, q) then 1 else 0
    decreases Unvisited(g, visited, current), if current in g then 1 else 0, if current in visited then 0 else 1, 0, |Neighbours(g, current)| - i, 1
  {
    if i < |Neighbours(g, current)| {
      ExploreFromCounts(g, destination, current, path, cost, visited, i + 1);
      var rest := ExploreFrom(g, destination, current, path, cost, visited, i + 1);
      var (next, token) := Neighbours(g, current)[i];
      if next in visited {
        SkipVisitedCounts(g, destination, current, path, cost, visited, i, rest);
      } else if ParseInt(token).Some? {
        ParsedCounts(g, destination, current, path, cost, visited, i, rest);
      }
    }
  }

  /** A visited neighbour adds no route and no completion. */
  lemma SkipVisitedCounts(g: Graph, destination: string, current: string, path: seq<string>, cost: int, visited: set<string>, i: nat,
                          rest: Result<seq<Route>, CostError>)
    requires WellFormed(g) && SearchPosition(g, destination, current, path, visited) && current != destination
    requires i < |Neighbours(g, current)| && Neighbours(g, current)[i].0 in visited
    requires rest == ExploreFrom(g, destination, current, path, cost, visited, i + 1)
    requires rest.Ok? ==> forall q :: Count(rest.value, q) == if CompletesThrough(g, destination, current, path, i + 1, q) then 1 else 0
    ensures ExploreFrom(g, destination, current, path, cost, visited, i).Ok? ==>
      forall q :: Count(ExploreFrom(g, destination, current, path, cost, visited, i).value, q)
                  == if CompletesThrough(g, destination, current, path, i, q) then 1 else 0
  {
    LaterStep(g, current, i);
    forall q ensures CompletesThrough(g, destination, current, path, i, q) == CompletesThrough(g, destination, current, path, i + 1, q) {
      if Completes(g, destination, path, q) && |path| < |q| {
        VisitedCannotFollow(g, destination, path, q, visited);
      }
    }
  }

  /** A neighbour not yet visited whose cost parses: the recursive call, then the loop over the later neighbours. */
  lemma ParsedCounts(g: Graph, destination: string, current: string, path: seq<string>, cost: int, visited: set<string>, i: nat,
                     rest: Result<seq<Route>, CostError>)
    requires WellFormed(g) && SearchPosition(g, destination, current, path, visited) && current != destination
    requires i < |Neighbours(g, current)| && Neighbours(g, current)[i].0 !in visited
    requires ParseInt(Neighbours(g, current)[i].1).Some?
    requires rest == ExploreFrom(g, destination, current, path, cost, visited, i + 1)
    requires rest.Ok? ==> forall q :: Count(rest.value, q) == if CompletesThrough(g, destination, current, path, i + 1, q) then 1 else 0
    ensures ExploreFrom(g, destination, current, path, cost, visited, i).Ok? ==>
      forall q :: Count(ExploreFrom(g, destination, current, path, cost, visited, i).value, q)
                  == if CompletesThrough(g, destination, current, path, i, q) then 1 else 0
    decreases Unvisited(g, visited, current), if current in g then 1 else 0, if current in visited then 0 else 1, 0, |Neighbours(g, current)| - i, 0
  {
    var (next, token) := Neighbours(g, current)[i];
    var edgeCost := ParseInt(token).value;
    ChildWalk(g, destination, current, path, visited, i);
    ChildCounts(g, destination, current, visited, i, next, path + [next], cost + edgeCost);
    NextCounts(g, destination, current, path, cost, visited, i, next, edgeCost,
               Explore(g, destination, next, path + [next], cost + edgeCost, visited + {current}), rest);
  }

  /** A neighbour whose cost parses adds the routes through it before those through later neighbours. */
  lemma NextCounts(g: Graph, destination: string, current: string, path: seq<string>, cost: int, visited: set<string>, i: nat,
                   next: string, edgeCost: int, below: Result<seq<Route>, CostError>, rest: Result<seq<Route>, CostError>)
    requires WellFormed(g) && i < |Neighbours(g, current)| && Neighbours(g, current)[i].0 == next && next !in visited
    requires ParseInt(Neighbours(g, current)[i].1) == Some(edgeCost)
    requires rest == ExploreFrom(g, destination, current, path, cost, visited, i + 1)
    requires rest.Ok? ==> forall q :: Count(rest.value, q) == if CompletesThrough(g, destination, current, path, i + 1, q) then 1 else 0
    requires below == Explore(g, destination, next, path + [next], cost + edgeCost, visited + {current})
    requires below.Ok? ==> forall q :: Count(below.value, q) == if Completes(g, destination, path + [next], q) then 1 else 0
    ensures ExploreFrom(g, destination, current, path, cost, visited, i).Ok? ==>
      forall q :: Count(ExploreFrom(g, destination, current, path, cost, visited, i).value, q)
                  == if CompletesThrough(g, destination, current, path, i, q) then 1 else 0
  {
    LaterStep(g, current, i);
    if below.Ok? && rest.Ok? {
      forall q ensures Count(below.value + rest.value, q) == if CompletesThrough(g, destination, current, path, i, q) then 1 else 0 {
        CountAppend(below.value, rest.value, q);
        ExtendsByOne(path, next, q);
        var first := Completes(g, destination, path + [next], q);
        var later := CompletesThrough(g, destination, current, path, i + 1, q);
        assert first <==> Completes(g, destination, path, q) && |path| < |q| && q[|path|] == next;
        Indicators(Count(below.value, q), Count(rest.value, q), first, later, CompletesThrough(g, destination, current, path, i, q));
      }
    }
  }

  /** The recursive `dfs` call on the `i`-th neighbour reports every completion of the longer path exactly once. */
  lemma ChildCounts(g: Graph, destination: string, current: string, visited: set<string>, i: nat, next: string, path: seq<string>, cost: int)
    requires WellFormed(g) && SearchPosition(g, destination, next, path, visited + {current}) && current != destination
    requires i < |Neighbours(g, current)| && Neighbours(g, current)[i].0 == next && next !in visited
    ensures Explore(g, destination, next, path, cost, visited + {current}).Ok? ==>
      forall q :: Count(Explore(g, destination, next, path, cost, visited + {current}).value, q) == if Completes(g, destination, path, q) then 1 else 0
    decreases Unvisited(g, visited, current), if current in g then 1 else 0, if current in visited then 0 else 1, 0, 0, 0
  {
    NeighbourDeeper(g, visited, current, i);
    ExploreCounts(g, destination, next, path, cost, visited + {current});
  }

  /** Every route in `rs` carries the cost of its path. */
  predicate CostsMatch(g: Graph, rs: seq<Route>) {
    forall r | r in rs :: PathCost(g, r.path) == Some(r.cost)
  }

  /** `dfs` reports each route with the sum of the costs along it. */
  lemma {:induction false} ExploreCosts(g: Graph, destination: string, current: string, path: seq<string>, cost: int, visited: set<string>)
    requires WellFormed(g) && SearchState(g, destination, current, path, cost, visited)
    ensures Explore(g, destination, current, path, cost, visited).Ok? ==>
      CostsMatch(g, Explore(g, destination, current, path, cost, visited).value)
    decreases Unvisited(g, visited, current), if current in g then 1 else 0, if current in visited then 0 else 1, 1, 0, 0
  {
    if current != destination {
      ExploreFromCosts(g, destination, current, path, cost, visited, 0);
    }
  }

  lemma {:induction false} ExploreFromCosts(g: Graph, destination: string, current: string, path: seq<string>, cost: int, visited: set<string>, i: nat)
    requires WellFormed(g) && SearchState(g, destination, current, path, cost, visited) && current != destination
    requires i <= |Neighbours(g, current)|
    ensures ExploreFrom(g, destination, current, path, cost, visited, i).Ok? ==>
      CostsMatch(g, ExploreFrom(g, destination, current, path, cost, visited, i).value)
    decreases Unvisited(g, visited, current), if current in g then 1 else 0, if current in visited then 0 else 1, 0, |Neighbours(g, current)| - i, 1
  {
    if i < |Neighbours(g, current)| {
      ExploreFromCosts(g, destination, current, path, cost, visited, i + 1);
      var (next, token) := Neighbours(g, current)[i];
      if next !in visited && ParseInt(token).Some? {
        ChildState(g, destination, current, path, cost, visited, i, ParseInt(token).value);
        ChildCosts(g, destination, current, visited, i, next, path + [next], cost + ParseInt(token).value);
      }
    }
  }

  lemma ChildCosts(g: Graph, destination: string, current: string, visited: set<string>, i: nat, next: string, path: seq<string>, cost: int)
    requires WellFormed(g) && SearchState(g, destination, next, path, cost, visited + {current}) && current != destination
    requires i < |Neighbours(g, current)| && Neighbours(g, current)[i].0 == next && next !in visited
    ensures Explore(g, destination, next, path, cost, visited + {current}).Ok? ==>
      CostsMatch(g, Explore(g, destination, next, path, cost, visited + {current}).value)
    decreases Unvisited(g, visited, current), if current in g then 1 else 0, if current in visited then 0 else 1, 0, 0, 0
  {
    NeighbourDeeper(g, visited, current, i);
    ExploreCosts(g, destination, next, path, cost, visited + {current});
  }

  /** `q` continues `path` through a neighbour of `current` from the `i`-th on, to an edge whose cost `int()` rejects. */
  predicate BadThrough(g: Graph, destination: string, current: string, path: seq<string>, i: nat, q: seq<string>)
    requires i <= |Neighbours(g, current)|
  {
    ReachesBadCost(g, destination, path, q) && q[|path|] in Later(g, current, i)
  }

  /** Every walk the search would explore and whose last cost `int()` rejects makes `dfs` raise. */
  lemma {:induction false} ExploreRaises(g: Graph, destination: string, current: string, path: seq<string>, cost: int, visited: set<string>,
                                         q: seq<string>)
    requires WellFormed(g) && SearchPosition(g, destination, current, path, visited)
    requires ReachesBadCost(g, destination, path, q)
    ensures Explore(g, destination, current, path, cost, visited).Err?
    decreases Unvisited(g, visited, current), if current in g then 1 else 0, if current in visited then 0 else 1, 1, 0, 0
  {
    PassesOnlyTo(g, destination, path, q);
    WalkStep(g, destination, q, |path| - 1);
    assert q[|path| - 1] == path[|path| - 1];
    EdgeIsLater(g, current, q[|path|]);
    ExploreFromRaises(g, destination, current, path, cost, visited, 0, q);
  }

  lemma {:induction false} ExploreFromRaises(g: Graph, destination: string, current: string, path: seq<string>, cost: int, visited: set<string>,
                                             i: nat, q: seq<string>)
    requires WellFormed(g) && SearchPosition(g, destination, current, path, visited) && current != destination
    requires i < |Neighbours(g, current)| && BadThrough(g, destination, current, path, i, q)
    ensures ExploreFrom(g, destination, current, path, cost, visited, i).Err?
    decreases Unvisited(g, visited, current), if current in g then 1 else 0, if current in visited then 0 else 1, 0, |Neighbours(g, current)| - i, 1
  {
    LaterStep(g, current, i);
    if q[|path|] == Neighbours(g, current)[i].0 {
      RaisesThrough(g, destination, current, path, cost, visited, i, q);
    } else {
      ExploreFromRaises(g, destination, current, path, cost, visited, i + 1, q);
    }
  }

  /** A walk to a bad cost that passes through the `i`-th neighbour makes the loop raise there. */
  lemma {:induction false} RaisesThrough(g: Graph, destination: string, current: string, path: seq<string>, cost: int, visited: set<string>,
                      i: nat, q: seq<string>)
    requires WellFormed(g) && SearchPosition(g, destination, current, path, visited) && current != destination
    requires i < |Neighbours(g, current)| && ReachesBadCost(g, destination, path, q) && q[|path|] == Neighbours(g, current)[i].0
    ensures ExploreFrom(g, destination, current, path, cost, visited, i).Err?
    decreases Unvisited(g, visited, current), if current in g then 1 else 0, if current in visited then 0 else 1, 0, |Neighbours(g, current)| - i, 0
  {
    VisitedCannotFollow(g, destination, path, q, visited);
    ExploreFromFirst(g, destination, current, path, cost, visited, i);
    if ParseInt(Neighbours(g, current)[i].1).Some? {
      var next, token := Neighbours(g, current)[i].0, Neighbours(g, current)[i].1;
      ChildWalk(g, destination, current, path, visited, i);
      BadCostBeyond(g, destination, path, next, token, q);
      ChildRaises(g, destination, current, visited, i, next, path + [next], cost + ParseInt(token).value, q);
    }
  }

  /** The loop raises at a neighbour not yet visited whose cost does not parse, or whose recursive call raises. */
  lemma ExploreFromFirst(g: Graph, destination: string, current: string, path: seq<string>, cost: int, visited: set<string>, i: nat)
    requires i < |Neighbours(g, current)| && Neighbours(g, current)[i].0 !in visited
    ensures ParseInt(Neighbours(g, current)[i].1).None? ==> ExploreFrom(g, destination, current, path, cost, visited, i).Err?
    ensures ParseInt(Neighbours(g, current)[i].1).Some? &&
      Explore(g, destination, Neighbours(g, current)[i].0, path + [Neighbours(g, current)[i].0],
              cost + ParseInt(Neighbours(g, current)[i].1).value, visited + {current}).Err?
      ==> ExploreFrom(g, destination, current, path, cost, visited, i).Err?
  {
  }

  /** A walk to a bad cost through an edge whose cost parses goes on past that edge. */
  lemma BadCostBeyond(g: Graph, destination: string, path: seq<string>, next: string, token: string, q: seq<string>)
    requires |path| >= 1 && ReachesBadCost(g, destination, path, q) && q[|path|] == next
    requires EdgeCost(g, path[|path| - 1], next) == Some(token) && ParseInt(token).Some?
    ensures ReachesBadCost(g, destination, path + [next], q)
  {
    ExtendsByOne(path, next, q);
    OneStepFurther(path, next, q);
  }

  /** The recursive call on the `i`-th neighbour raises on a walk to a bad cost that continues its path. */
  lemma ChildRaises(g: Graph, destination: string, current: string, visited: set<string>, i: nat, next: string, path: seq<string>, cost: int,
                    q: seq<string>)
    requires WellFormed(g) && SearchPosition(g, destination, next, path, visited + {current}) && current != destination
    requires i < |Neighbours(g, current)| && Neighbours(g, current)[i].0 == next && next !in visited
    requires ReachesBadCost(g, destination, path, q)
    ensures Explore(g, destination, next, path, cost, visited + {current}).Err?
    decreases Unvisited(g, visited, current), if current in g then 1 else 0, if current in visited then 0 else 1, 0, 0, 0
  {
    NeighbourDeeper(g, visited, current, i);
    ExploreRaises(g, destination, next, path, cost, visited + {current}, q);
  }

  /** When `dfs` raises, some walk it explores ends in a cost `int()` rejects. */
  lemma {:induction false} ExploreRaisesOnly(g: Graph, destination: string, current: string, path: seq<string>, cost: int, visited: set<string>)
    returns (q: seq<string>)
    requires WellFormed(g) && SearchPosition(g, destination, current, path, visited)
    requires Explore(g, destination, current, path, cost, visited).Err?
    ensures ReachesBadCost(g, destination, path, q)
    decreases Unvisited(g, visited, current), if current in g then 1 else 0, if current in visited then 0 else 1, 1, 0, 0
  {
    q := ExploreFromRaisesOnly(g, destination, current, path, cost, visited, 0);
  }

  lemma {:induction false} ExploreFromRaisesOnly(g: Graph, destination: string, current: string, path: seq<string>, cost: int, visited: set<string>,
                                                 i: nat)
    returns (q: seq<string>)
    requires WellFormed(g) && SearchPosition(g, destination, current, path, visited) && current != destination
    requires i <= |Neighbours(g, current)| && ExploreFrom(g, destination, current, path, cost, visited, i).Err?
    ensures BadThrough(g, destination, current, path, i, q)
    decreases Unvisited(g, visited, current), if current in g then 1 else 0, if current in visited then 0 else 1, 0, |Neighbours(g, current)| - i, 1
  {
    var (next, token) := Neighbours(g, current)[i];
    LaterStep(g, current, i);
    if next in visited {
      q := ExploreFromRaisesOnly(g, destination, current, path, cost, visited, i + 1);
    } else if ParseInt(token).None? {
      ChildWalk(g, destination, current, path, visited, i);
      q := path + [next];
      assert q[..|path|] == path;
    } else if Explore(g, destination, next, path + [next], cost + ParseInt(token).value, visited + {current}).Err? {
      ChildWalk(g, destination, current, path, visited, i);
      q := ChildRaisesOnly(g, destination, current, visited, i, next, path + [next], cost + ParseInt(token).value);
      ExtendsByOne(path, next, q);
    } else {
      q := ExploreFromRaisesOnly(g, destination, current, path, cost, visited, i + 1);
    }
  }

  lemma ChildRaisesOnly(g: Graph, destination: string, current: string, visited: set<string>, i: nat, next: string, path: seq<string>, cost: int)
    returns (q: seq<string>)
    requires WellFormed(g) && SearchPosition(g, destination, next, path, visited + {current}) && current != destination
    requires i < |Neighbours(g, current)| && Neighbours(g, current)[i].0 == next && next !in visited
    requires Explore(g, destination, next, path, cost, visited + {current}).Err?
    ensures ReachesBadCost(g, destination, path, q)
    decreases Unvisited(g, visited, current), if current in g then 1 else 0, if current in visited then 0 else 1, 0, 0, 0
  {
    NeighbourDeeper(g, visited, current, i);
    q := ExploreRaisesOnly(g, destination, next, path, cost, visited + {current});
  }
}
