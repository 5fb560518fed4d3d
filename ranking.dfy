/**
 * The ranking `find_routes` applies to the result of `find_all_routes`:
 * `sorted(routes, key=lambda x: x[1])[:10]`.  Python's `sorted` is stable,
 * so routes of equal cost keep the order in which the search found them.
 */
module Ranking {
  import opened Wrappers
  import opened Graphs
  import opened RouteEnumerator
  import opened RouteProperties
  import opened RouteTheorems

  /** How many routes the window lists: the slice `[:10]`. */
  const Shown := 10

  predicate SortedByCost(rs: seq<Route>) {
    forall i, j | 0 <= i < j < |rs| :: rs[i].cost <= rs[j].cost
  }

  /** The routes of `rs` that cost `c`, in their order in `rs`. */
  function WithCost(rs: seq<Route>, c: int): seq<Route> {
    if rs == [] then [] else (if rs[0].cost == c then [rs[0]] else []) + WithCost(rs[1..], c)
  }

  /** Puts `r` in front of the first route that costs at least as much. */
  function Insert(r: Route, rs: seq<Route>): seq<Route> {
    if rs == [] || r.cost <= rs[0].cost then [r] + rs
    else [rs[0]] + Insert(r, rs[1..])
  }

  /** `sorted(routes, key=lambda x: x[1])`, as an insertion sort from the back. */
  function SortByCost(rs: seq<Route>): seq<Route> {
    if rs == [] then [] else Insert(rs[0], SortByCost(rs[1..]))
  }

  /** `sorted(routes, key=lambda x: x[1])[:10]`. */
  function Rank(rs: seq<Route>): seq<Route> {
    var sorted := SortByCost(rs);
    sorted[..if |sorted| < Shown then |sorted| else Shown]
  }

  /** `find_routes` up to the display: every route, ranked, or the error the search raised. */
  function TopRoutes(g: Graph, source: string, destination: string): Result<seq<Route>, CostError> {
    match AllRoutes(g, source, destination)
    case Ok(routes) => Ok(Rank(routes))
    case Err(e) => Err(e)
  }

  lemma {:induction false} WithCostAppend(a: seq<Route>, b: seq<Route>, c: int)
    ensures WithCost(a + b, c) == WithCost(a, c) + WithCost(b, c)
  {
    if a == [] {
      assert a + b == b;
    } else {
      var head := if a[0].cost == c then [a[0]] else [];
      assert (a + b)[0] == a[0] && (a + b)[1..] == a[1..] + b;
      WithCostAppend(a[1..], b, c);
      assert WithCost(a + b, c) == head + (WithCost(a[1..], c) + WithCost(b, c));
      assert WithCost(a, c) == head + WithCost(a[1..], c);
    }
  }

  lemma {:induction false} InsertPermutes(r: Route, rs: seq<Route>)
    ensures multiset(Insert(r, rs)) == multiset(rs) + multiset{r}
  {
    if rs != [] && r.cost > rs[0].cost {
      InsertPermutes(r, rs[1..]);
      assert rs == [rs[0]] + rs[1..];
    }
  }

  lemma {:induction false} InsertLength(r: Route, rs: seq<Route>)
    ensures |Insert(r, rs)| == |rs| + 1
  {
    if rs != [] && r.cost > rs[0].cost {
      InsertLength(r, rs[1..]);
    }
  }

  /** `Insert` into routes sorted by cost keeps them sorted; its first route is `r` or the old first route. */
  lemma {:induction false} InsertSorted(r: Route, rs: seq<Route>)
    requires SortedByCost(rs)
    ensures SortedByCost(Insert(r, rs))
    ensures Insert(r, rs)[0] == if rs == [] || r.cost <= rs[0].cost then r else rs[0]
  {
    if rs != [] && r.cost > rs[0].cost {
      var rest := Insert(r, rs[1..]);
      InsertSorted(r, rs[1..]);
      InsertLength(r, rs[1..]);
      var out := Insert(r, rs);
      assert out == [rs[0]] + rest;
      assert rs[0].cost <= rest[0].cost;
      forall i, j | 0 <= i < j < |out| ensures out[i].cost <= out[j].cost {
        if i == 0 {
          assert out[j] == rest[j - 1];
          assert rest[0].cost <= rest[j - 1].cost;
        } else {
          assert out[i] == rest[i - 1] && out[j] == rest[j - 1];
        }
      }
    }
  }

  /** `Insert` puts `r` first among the routes of its cost. */
  lemma {:induction false} InsertStable(r: Route, rs: seq<Route>, c: int)
    ensures WithCost(Insert(r, rs), c) == WithCost([r] + rs, c)
  {
    if rs != [] && r.cost > rs[0].cost {
      InsertStable(r, rs[1..], c);
      assert ([rs[0]] + Insert(r, rs[1..]))[1..] == Insert(r, rs[1..]);
      assert ([r] + rs[1..])[1..] == rs[1..];
      assert ([r] + rs)[1..] == rs;
    }
  }

  /** `SortByCost` keeps the routes: a permutation of its input. */
  lemma {:induction false} SortByCostPermutes(rs: seq<Route>)
    ensures multiset(SortByCost(rs)) == multiset(rs)
    ensures |SortByCost(rs)| == |rs|
  {
    if rs != [] {
      SortByCostPermutes(rs[1..]);
      InsertPermutes(rs[0], SortByCost(rs[1..]));
      InsertLength(rs[0], SortByCost(rs[1..]));
      assert rs == [rs[0]] + rs[1..];
    }
  }

  lemma {:induction false} SortByCostSorted(rs: seq<Route>)
    ensures SortedByCost(SortByCost(rs))
  {
    if rs != [] {
      SortByCostSorted(rs[1..]);
      InsertSorted(rs[0], SortByCost(rs[1..]));
    }
  }

  /** `SortByCost` is stable: the routes of each cost come in their order in the input. */
  lemma {:induction false} SortByCostStable(rs: seq<Route>, c: int)
    ensures WithCost(SortByCost(rs), c) == WithCost(rs, c)
  {
    if rs != [] {
      SortByCostStable(rs[1..], c);
      InsertStable(rs[0], SortByCost(rs[1..]), c);
      assert ([rs[0]] + SortByCost(rs[1..]))[1..] == SortByCost(rs[1..]);
    }
  }

  /** A sequence sorted by cost that keeps each cost's routes in the order of `t` is determined by `t`: a stable sort has one result. */
  lemma {:induction false} StableSortUnique(s: seq<Route>, t: seq<Route>)
    requires SortedByCost(s) && SortedByCost(t)
    requires forall c :: WithCost(s, c) == WithCost(t, c)
    ensures s == t
    decreases |s|
  {
    HasOwnCost(s);
    HasOwnCost(t);
    if s != [] && t != [] {
      SameFirst(s, t);
      DropFirstAll(s, t);
      StableSortUnique(s[1..], t[1..]);
      assert s == [s[0]] + s[1..] && t == [t[0]] + t[1..];
    }
  }

  /** Dropping the same first route from two sequences sorted by cost keeps them sorted, with equal routes of each cost. */
  lemma DropFirstAll(s: seq<Route>, t: seq<Route>)
    requires SortedByCost(s) && SortedByCost(t) && s != [] && t != [] && s[0] == t[0]
    requires forall c :: WithCost(s, c) == WithCost(t, c)
    ensures SortedByCost(s[1..]) && SortedByCost(t[1..])
    ensures forall c :: WithCost(s[1..], c) == WithCost(t[1..], c)
  {
    forall c ensures WithCost(s[1..], c) == WithCost(t[1..], c) {
      DropFirst(s, t, c);
    }
  }

  /** Two sequences sorted by cost with the same routes of each cost, in the same order, start with the same route. */
  lemma SameFirst(s: seq<Route>, t: seq<Route>)
    requires SortedByCost(s) && SortedByCost(t) && s != [] && t != []
    requires WithCost(s, s[0].cost) == WithCost(t, s[0].cost) && WithCost(s, t[0].cost) == WithCost(t, t[0].cost)
    ensures s[0] == t[0]
  {
    HasOwnCost(s);
    HasOwnCost(t);
    var r := InWithCost(t, s[0].cost);
    var r' := InWithCost(s, t[0].cost);
    assert s[0].cost == t[0].cost;
    assert WithCost(s, s[0].cost)[0] == s[0] && WithCost(t, s[0].cost)[0] == t[0];
  }

  /** Dropping the same first route from both keeps their routes of each cost equal. */
  lemma DropFirst(s: seq<Route>, t: seq<Route>, c: int)
    requires s != [] && t != [] && s[0] == t[0] && WithCost(s, c) == WithCost(t, c)
    ensures WithCost(s[1..], c) == WithCost(t[1..], c)
  {
    if c == s[0].cost {
      assert WithCost(s[1..], c) == WithCost(s, c)[1..];
      assert WithCost(t[1..], c) == WithCost(t, c)[1..];
    } else {
      assert WithCost(s, c) == WithCost(s[1..], c) && WithCost(t, c) == WithCost(t[1..], c);
    }
  }

  /**
   * `SortByCost` is Python's stable sort by cost: the one sequence that is
   * sorted by cost and lists the routes of each cost in their input order.
   */
  lemma SortByCostIsStableSort(rs: seq<Route>, t: seq<Route>)
    requires SortedByCost(t) && forall c :: WithCost(t, c) == WithCost(rs, c)
    ensures t == SortByCost(rs)
  {
    SortByCostSorted(rs);
    forall c ensures WithCost(SortByCost(rs), c) == WithCost(t, c) {
      SortByCostStable(rs, c);
    }
    StableSortUnique(SortByCost(rs), t);
  }

  /** The first route's cost lists at least that route. */
  lemma HasOwnCost(s: seq<Route>)
    ensures s != [] ==> WithCost(s, s[0].cost) != []
  {
  }

  /** A route that `WithCost(s, c)` lists is a route of `s` that costs `c`. */
  lemma {:induction false} InWithCost(s: seq<Route>, c: int) returns (r: Route)
    requires WithCost(s, c) != []
    ensures r in s && r.cost == c
  {
    if s[0].cost == c {
      r := s[0];
    } else {
      r := InWithCost(s[1..], c);
    }
  }

  /** The ranking lists `min(10, n)` routes, cheapest first, each of them one of `rs`. */
  lemma RankSorted(rs: seq<Route>)
    ensures |Rank(rs)| == if |rs| < Shown then |rs| else Shown
    ensures SortedByCost(Rank(rs))
    ensures multiset(Rank(rs)) <= multiset(rs)
  {
    var sorted := SortByCost(rs);
    SortByCostPermutes(rs);
    SortByCostSorted(rs);
    assert sorted == Rank(rs) + sorted[|Rank(rs)|..];
  }

  /** Routes of equal cost are listed in the order the search found them. */
  lemma RankKeepsOrder(rs: seq<Route>, c: int)
    ensures WithCost(Rank(rs), c) <= WithCost(rs, c)
  {
    var sorted := SortByCost(rs);
    SortByCostStable(rs, c);
    assert sorted == Rank(rs) + sorted[|Rank(rs)|..];
    WithCostAppend(Rank(rs), sorted[|Rank(rs)|..], c);
  }

  /** Every route the ranking leaves out costs at least as much as every route it lists. */
  lemma RankCheapest(rs: seq<Route>)
    ensures forall r, k | r in multiset(rs) - multiset(Rank(rs)) && k in Rank(rs) :: k.cost <= r.cost
  {
    var sorted := SortByCost(rs);
    SortByCostPermutes(rs);
    SortByCostSorted(rs);
    var n := |Rank(rs)|;
    Remainder(sorted, n);
    SortedSplit(sorted, n);
  }

  /** Taking a prefix off leaves the multiset of the suffix. */
  lemma Remainder(s: seq<Route>, n: nat)
    requires n <= |s|
    ensures multiset(s) - multiset(s[..n]) == multiset(s[n..])
  {
    assert s == s[..n] + s[n..];
  }

  /** In a sequence sorted by cost, nothing after position `n` is cheaper than anything before it. */
  lemma SortedSplit(s: seq<Route>, n: nat)
    requires SortedByCost(s) && n <= |s|
    ensures forall r, k | r in multiset(s[n..]) && k in s[..n] :: k.cost <= r.cost
  {
    forall r: Route, k: Route | r in multiset(s[n..]) && k in s[..n] ensures k.cost <= r.cost {
      var j :| 0 <= j < |s[n..]| && s[n..][j] == r;
      var i :| 0 <= i < n && s[..n][i] == k;
      assert s[i] == k && s[n + j] == r;
    }
  }

  /**
   * What the window lists for a search that does not raise: routes of the
   * graph with their costs, cheapest first, and no route the graph has that
   * is left out costs less than one that is listed.
   */
  lemma TopRoutesCheapest(g: Graph, source: string, destination: string)
    requires WellFormed(g) && TopRoutes(g, source, destination).Ok?
    ensures var top := TopRoutes(g, source, destination).value;
      && SortedByCost(top)
      && (forall r | r in top :: IsRoute(g, source, destination, r.path) && PathCost(g, r.path) == Some(r.cost))
      && forall p, k | IsRoute(g, source, destination, p) && k in top && (forall r | r in top :: r.path != p) ::
           PathCost(g, p).Some? && k.cost <= PathCost(g, p).value
  {
    var all := AllRoutes(g, source, destination).value;
    var top := Rank(all);
    RankSorted(all);
    RankCheapest(all);
    RoutesExactlyOnce(g, source, destination);
    ReturnedRoutes(g, source, destination);
    forall r | r in top ensures r in all {
      assert r in multiset(top);
    }
    forall p, k | IsRoute(g, source, destination, p) && k in top && (forall r | r in top :: r.path != p)
      ensures PathCost(g, p).Some? && k.cost <= PathCost(g, p).value
    {
      assert Count(all, p) == 1;
      var found := Listed(all, p);
      assert found !in top;
      assert found in multiset(all) - multiset(top);
    }
  }

  /** A path that `all` counts is the path of one of its routes. */
  lemma {:induction false} Listed(all: seq<Route>, p: seq<string>) returns (r: Route)
    requires Count(all, p) >= 1
    ensures r in all && r.path == p
  {
    if all[0].path == p {
      r := all[0];
    } else {
      r := Listed(all[1..], p);
    }
  }
}
