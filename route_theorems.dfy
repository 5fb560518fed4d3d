/**
 * What a caller of `find_all_routes(graph, source, destination)` can rely on,
 * from the properties of one `dfs` call: which routes come back, how often,
 * with which cost, and when the search raises instead.
 */
module RouteTheorems {
  import opened Wrappers
  import opened Graphs
  import opened IntParse
  import opened RouteEnumerator
  import opened RouteProperties

  /** A walk is never empty and starts at a key of the graph. */
  lemma {:induction false} WalkStarts(g: Graph, destination: string, p: seq<string>)
    requires Walk(g, destination, p)
    ensures |p| >= 1 && p[0] in g
    decreases |p|
  {
    if |p| > 1 {
      WalkStarts(g, destination, p[..|p| - 1]);
    }
  }

  /** The first call, `dfs(source, [source], 0, set())`. */
  lemma StartState(g: Graph, destination: string, source: string)
    requires source in g
    ensures SearchState(g, destination, source, [source], 0, {})
  {
    assert [source][..0] == [];
  }

  /** Continuing `[source]` to the destination is the same as being a route from `source`. */
  lemma CompletesFromSource(g: Graph, source: string, destination: string, q: seq<string>)
    ensures Completes(g, destination, [source], q) <==> IsRoute(g, source, destination, q)
  {
    if Walk(g, destination, q) {
      WalkStarts(g, destination, q);
      assert q[0] == source <==> q[..1] == [source];
    }
  }

  /** `find_all_routes` returns every route exactly once, and nothing that is not a route. */
  lemma RoutesExactlyOnce(g: Graph, source: string, destination: string)
    requires WellFormed(g) && AllRoutes(g, source, destination).Ok?
    ensures forall q :: Count(AllRoutes(g, source, destination).value, q)
                        == if IsRoute(g, source, destination, q) then 1 else 0
  {
    if source in g {
      StartState(g, destination, source);
      ExploreCounts(g, destination, source, [source], 0, {});
      forall q ensures Completes(g, destination, [source], q) <==> IsRoute(g, source, destination, q) {
        CompletesFromSource(g, source, destination, q);
      }
    } else {
      forall q ensures !IsRoute(g, source, destination, q) {
        if Walk(g, destination, q) {
          WalkStarts(g, destination, q);
        }
      }
    }
  }

  /** Every route returned is a route of the graph, and its cost is the sum of the costs along it. */
  lemma ReturnedRoutes(g: Graph, source: string, destination: string)
    requires WellFormed(g) && AllRoutes(g, source, destination).Ok?
    ensures forall r | r in AllRoutes(g, source, destination).value ::
      IsRoute(g, source, destination, r.path) && PathCost(g, r.path) == Some(r.cost)
  {
    var rs := AllRoutes(g, source, destination).value;
    RoutesExactlyOnce(g, source, destination);
    forall r | r in rs ensures IsRoute(g, source, destination, r.path) {
      CountMember(rs, r);
    }
    if source in g {
      StartState(g, destination, source);
      ExploreCosts(g, destination, source, [source], 0, {});
    }
  }

  /** A route starts at the source and meets the destination only at its end. */
  lemma RouteShape(g: Graph, source: string, destination: string, p: seq<string>)
    requires IsRoute(g, source, destination, p)
    ensures |p| >= 1 && p[0] == source && p[|p| - 1] == destination
    ensures forall k | 0 <= k < |p| - 1 :: p[k] != destination
  {
    WalkStarts(g, destination, p);
    forall k | 0 <= k < |p| - 1 ensures p[k] != destination {
      WalkStep(g, destination, p, k);
    }
  }

  /** `find_all_routes` raises exactly when some walk from the source ends in an edge whose cost `int()` rejects. */
  lemma RaisesExactly(g: Graph, source: string, destination: string)
    requires WellFormed(g)
    ensures AllRoutes(g, source, destination).Err? <==>
      source in g && exists q :: ReachesBadCost(g, destination, [source], q)
  {
    if source in g {
      StartState(g, destination, source);
      if AllRoutes(g, source, destination).Err? {
        var q := ExploreRaisesOnly(g, destination, source, [source], 0, {});
      }
      if exists q :: ReachesBadCost(g, destination, [source], q) {
        var q :| ReachesBadCost(g, destination, [source], q);
        ExploreRaises(g, destination, source, [source], 0, {}, q);
      }
    }
  }

  /** The last node of `p` is none of the nodes before its predecessor, and `p` without it repeats only adjacently. */
  lemma RepeatsStep(p: seq<string>)
    requires |p| >= 2
    ensures RepeatsOnlyAdjacent(p) <==> RepeatsOnlyAdjacent(p[..|p| - 1]) && p[|p| - 1] !in p[..|p| - 2]
  {
    var n := |p|;
    var front := p[..n - 1];
    if RepeatsOnlyAdjacent(p) {
      forall i, j | 0 <= i < j < |front| && j != i + 1 ensures front[i] != front[j] {
        assert front[i] == p[i] && front[j] == p[j];
      }
      forall i | 0 <= i < n - 2 ensures p[i] != p[n - 1] {
      }
    }
    if RepeatsOnlyAdjacent(front) && p[n - 1] !in p[..n - 2] {
      forall i, j | 0 <= i < j < n && j != i + 1 ensures p[i] != p[j] {
        if j < n - 1 {
          assert front[i] == p[i] && front[j] == p[j];
        } else {
          assert p[..n - 2][i] == p[i];
        }
      }
    }
  }

  /**
   * The paths the search explores, stated without recursion: from a key of
   * the graph, along edges that never leave the destination, and
   * repeating a node only as two neighbours (a self-loop).
   */
  lemma {:induction false} WalkCharacterized(g: Graph, destination: string, p: seq<string>)
    ensures Walk(g, destination, p) <==>
      && |p| >= 1 && p[0] in g
      && (forall k | 0 <= k < |p| - 1 :: Step(g, destination, p, k))
      && RepeatsOnlyAdjacent(p)
    decreases |p|
  {
    if |p| >= 2 {
      var front := p[..|p| - 1];
      WalkCharacterized(g, destination, front);
      RepeatsStep(p);
      assert front[0] == p[0];
      assert forall k | 0 <= k < |front| - 1 :: Step(g, destination, front, k) == Step(g, destination, p, k);
    }
  }

  /** Without self-loops every route is a simple path. */
  lemma SimpleWithoutSelfLoops(g: Graph, destination: string, p: seq<string>)
    requires Walk(g, destination, p) && forall a :: !HasEdge(g, a, a)
    ensures forall i, j | 0 <= i < j < |p| :: p[i] != p[j]
  {
    WalkCharacterized(g, destination, p);
    forall i, j | 0 <= i < j < |p| ensures p[i] != p[j] {
      if j == i + 1 {
        assert Step(g, destination, p, i);
      }
    }
  }

  /** A source that is not a key of the graph gives no route, even to itself; a key that is the destination gives the one-node route. */
  lemma SourceHandling(g: Graph, source: string, destination: string)
    ensures source !in g ==> AllRoutes(g, source, destination) == Ok([])
    ensures source in g && source == destination ==> AllRoutes(g, source, destination) == Ok([Route([source], 0)])
  {
  }

  /** A graph whose one node `X` has an edge to itself before its edge to `Y`. */
  const SelfLoop: Graph := map["X" := [("X", "1"), ("Y", "2")]]

  /** After the self-loop `X, X`, `X` counts as visited: only `Y` is left. */
  lemma AfterSelfLoop()
    ensures Explore(SelfLoop, "Y", "X", ["X", "X"], 1, {"X"}) == Ok([Route(["X", "X", "Y"], 3)])
  {
    ParseDigit('2');
    var loop := Route(["X", "X", "Y"], 3);
    assert Neighbours(SelfLoop, "X") == [("X", "1"), ("Y", "2")];
    assert ["X", "X"] + ["Y"] == ["X", "X", "Y"] && {"X"} + {"X"} == {"X"};
    assert [loop] + [] == [loop];
    assert ExploreFrom(SelfLoop, "Y", "X", ["X", "X"], 1, {"X"}, 2) == Ok([]);
    assert Explore(SelfLoop, "Y", "Y", ["X", "X", "Y"], 3, {"X"}) == Ok([loop]);
    assert ExploreFrom(SelfLoop, "Y", "X", ["X", "X"], 1, {"X"}, 1) == Ok([loop]);
  }

  /** The self-loop `X -> X` is taken once: `X, X, Y` is found before `X, Y`. */
  lemma SelfLoopTakenOnce()
    ensures AllRoutes(SelfLoop, "X", "Y") == Ok([Route(["X", "X", "Y"], 3), Route(["X", "Y"], 2)])
  {
    ParseDigit('1');
    ParseDigit('2');
    AfterSelfLoop();
    var loop := Route(["X", "X", "Y"], 3);
    var direct := Route(["X", "Y"], 2);
    assert Neighbours(SelfLoop, "X") == [("X", "1"), ("Y", "2")];
    assert ["X"] + ["X"] == ["X", "X"] && ["X"] + ["Y"] == ["X", "Y"] && {} + {"X"} == {"X"};
    assert [direct] + [] == [direct] && [loop] + [direct] == [loop, direct];
    assert Explore(SelfLoop, "Y", "Y", ["X", "Y"], 2, {"X"}) == Ok([direct]);
    assert ExploreFrom(SelfLoop, "Y", "X", ["X"], 0, {}, 2) == Ok([]);
    assert ExploreFrom(SelfLoop, "Y", "X", ["X"], 0, {}, 1) == Ok([direct]);
    assert ExploreFrom(SelfLoop, "Y", "X", ["X"], 0, {}, 0) == Ok([loop, direct]);
  }
}
