/**
 * The example `routing_graph` at the foot of the script, searched from `A`
 * to `D`: the order `find_all_routes` finds the routes in, and the order the
 * ranking lists them in, where the two routes of cost 5 keep their order.
 */
module SampleGraph {
  import opened Wrappers
  import opened IntParse
  import opened Graphs
  import opened RouteEnumerator
  import opened Ranking

  /** `routing_graph`, each cost as the text `int()` later reads. */
  const Sample: Graph := map[
    "A" := [("B", "2"), ("C", "3")],
    "B" := [("A", "2"), ("C", "1"), ("D", "4")],
    "C" := [("A", "3"), ("B", "1"), ("D", "2")],
    "D" := [("B", "4"), ("C", "2")]
  ]

  lemma SmallCosts()
    ensures ParseInt("1") == Some(1) && ParseInt("2") == Some(2)
    ensures ParseInt("3") == Some(3) && ParseInt("4") == Some(4)
  {
    ParseDigit('1');
    ParseDigit('2');
    ParseDigit('3');
    ParseDigit('4');
  }

  /** Below `A, B, C`: `A` and `B` are visited, so only `D` is left. */
  lemma BelowABC()
    ensures Explore(Sample, "D", "C", ["A", "B", "C"], 3, {"A", "B"}) == Ok([Route(["A", "B", "C", "D"], 5)])
  {
    SmallCosts();
    var abcd := Route(["A", "B", "C", "D"], 5);
    assert Neighbours(Sample, "C") == [("A", "3"), ("B", "1"), ("D", "2")];
    assert ["A", "B", "C"] + ["D"] == ["A", "B", "C", "D"];
    assert {"A", "B"} + {"C"} == {"A", "B", "C"};
    assert [abcd] + [] == [abcd];
    assert Explore(Sample, "D", "D", ["A", "B", "C", "D"], 5, {"A", "B", "C"}) == Ok([abcd]);
    assert ExploreFrom(Sample, "D", "C", ["A", "B", "C"], 3, {"A", "B"}, 3) == Ok([]);
    assert ExploreFrom(Sample, "D", "C", ["A", "B", "C"], 3, {"A", "B"}, 2) == Ok([abcd]);
    assert ExploreFrom(Sample, "D", "C", ["A", "B", "C"], 3, {"A", "B"}, 0) == Ok([abcd]);
  }

  /** Below `A, C, B`: `A` and `C` are visited, so only `D` is left. */
  lemma BelowACB()
    ensures Explore(Sample, "D", "B", ["A", "C", "B"], 4, {"A", "C"}) == Ok([Route(["A", "C", "B", "D"], 8)])
  {
    SmallCosts();
    var acbd := Route(["A", "C", "B", "D"], 8);
    assert Neighbours(Sample, "B") == [("A", "2"), ("C", "1"), ("D", "4")];
    assert ["A", "C", "B"] + ["D"] == ["A", "C", "B", "D"];
    assert {"A", "C"} + {"B"} == {"A", "B", "C"};
    assert [acbd] + [] == [acbd];
    assert Explore(Sample, "D", "D", ["A", "C", "B", "D"], 8, {"A", "B", "C"}) == Ok([acbd]);
    assert ExploreFrom(Sample, "D", "B", ["A", "C", "B"], 4, {"A", "C"}, 3) == Ok([]);
    assert ExploreFrom(Sample, "D", "B", ["A", "C", "B"], 4, {"A", "C"}, 2) == Ok([acbd]);
    assert ExploreFrom(Sample, "D", "B", ["A", "C", "B"], 4, {"A", "C"}, 0) == Ok([acbd]);
  }

  /** At `A, B`, from the third neighbour on: straight to `D`. */
  lemma BToD()
    ensures ExploreFrom(Sample, "D", "B", ["A", "B"], 2, {"A"}, 2) == Ok([Route(["A", "B", "D"], 6)])
  {
    SmallCosts();
    var abd := Route(["A", "B", "D"], 6);
    assert Neighbours(Sample, "B") == [("A", "2"), ("C", "1"), ("D", "4")];
    assert ["A", "B"] + ["D"] == ["A", "B", "D"];
    assert {"A"} + {"B"} == {"A", "B"};
    assert [abd] + [] == [abd];
    assert Explore(Sample, "D", "D", ["A", "B", "D"], 6, {"A", "B"}) == Ok([abd]);
    assert ExploreFrom(Sample, "D", "B", ["A", "B"], 2, {"A"}, 3) == Ok([]);
  }

  /** Below `A, B`: on to `C` and then `D`, then straight to `D`. */
  lemma ThroughB()
    ensures Explore(Sample, "D", "B", ["A", "B"], 2, {"A"})
            == Ok([Route(["A", "B", "C", "D"], 5), Route(["A", "B", "D"], 6)])
  {
    SmallCosts();
    BelowABC();
    BToD();
    var abcd := Route(["A", "B", "C", "D"], 5);
    var abd := Route(["A", "B", "D"], 6);
    assert Neighbours(Sample, "B") == [("A", "2"), ("C", "1"), ("D", "4")];
    assert ["A", "B"] + ["C"] == ["A", "B", "C"];
    assert {"A"} + {"B"} == {"A", "B"};
    assert [abcd] + [abd] == [abcd, abd];
    assert ExploreFrom(Sample, "D", "B", ["A", "B"], 2, {"A"}, 1) == Ok([abcd, abd]);
    assert ExploreFrom(Sample, "D", "B", ["A", "B"], 2, {"A"}, 0) == Ok([abcd, abd]);
  }

  /** At `A, C`, from the third neighbour on: straight to `D`. */
  lemma CToD()
    ensures ExploreFrom(Sample, "D", "C", ["A", "C"], 3, {"A"}, 2) == Ok([Route(["A", "C", "D"], 5)])
  {
    SmallCosts();
    var acd := Route(["A", "C", "D"], 5);
    assert Neighbours(Sample, "C") == [("A", "3"), ("B", "1"), ("D", "2")];
    assert ["A", "C"] + ["D"] == ["A", "C", "D"];
    assert {"A"} + {"C"} == {"A", "C"};
    assert [acd] + [] == [acd];
    assert Explore(Sample, "D", "D", ["A", "C", "D"], 5, {"A", "C"}) == Ok([acd]);
    assert ExploreFrom(Sample, "D", "C", ["A", "C"], 3, {"A"}, 3) == Ok([]);
  }

  /** Below `A, C`: on to `B` and then `D`, then straight to `D`. */
  lemma ThroughC()
    ensures Explore(Sample, "D", "C", ["A", "C"], 3, {"A"})
            == Ok([Route(["A", "C", "B", "D"], 8), Route(["A", "C", "D"], 5)])
  {
    SmallCosts();
    BelowACB();
    CToD();
    var acbd := Route(["A", "C", "B", "D"], 8);
    var acd := Route(["A", "C", "D"], 5);
    assert Neighbours(Sample, "C") == [("A", "3"), ("B", "1"), ("D", "2")];
    assert ["A", "C"] + ["B"] == ["A", "C", "B"];
    assert {"A"} + {"C"} == {"A", "C"};
    assert [acbd] + [acd] == [acbd, acd];
    assert ExploreFrom(Sample, "D", "C", ["A", "C"], 3, {"A"}, 1) == Ok([acbd, acd]);
    assert ExploreFrom(Sample, "D", "C", ["A", "C"], 3, {"A"}, 0) == Ok([acbd, acd]);
  }

  /** From `A` to `D` the search finds four routes, and the ranking lists the two of cost 5 in the order found. */
  lemma SampleRoutes()
    ensures AllRoutes(Sample, "A", "D") == Ok([
      Route(["A", "B", "C", "D"], 5), Route(["A", "B", "D"], 6),
      Route(["A", "C", "B", "D"], 8), Route(["A", "C", "D"], 5)])
    ensures TopRoutes(Sample, "A", "D") == Ok([
      Route(["A", "B", "C", "D"], 5), Route(["A", "C", "D"], 5),
      Route(["A", "B", "D"], 6), Route(["A", "C", "B", "D"], 8)])
  {
    SmallCosts();
    ThroughB();
    AToC();
    var abcd, abd := Route(["A", "B", "C", "D"], 5), Route(["A", "B", "D"], 6);
    var acbd, acd := Route(["A", "C", "B", "D"], 8), Route(["A", "C", "D"], 5);
    assert Neighbours(Sample, "A") == [("B", "2"), ("C", "3")];
    assert ["A"] + ["B"] == ["A", "B"];
    assert {} + {"A"} == {"A"};
    assert [abcd, abd] + [acbd, acd] == [abcd, abd, acbd, acd];
    assert ExploreFrom(Sample, "D", "A", ["A"], 0, {}, 0) == Ok([abcd, abd, acbd, acd]);
    SampleRanking();
  }

  /** At `A`, from the second neighbour on: the routes through `C`. */
  lemma AToC()
    ensures ExploreFrom(Sample, "D", "A", ["A"], 0, {}, 1) == Ok([Route(["A", "C", "B", "D"], 8), Route(["A", "C", "D"], 5)])
  {
    SmallCosts();
    ThroughC();
    var acbd, acd := Route(["A", "C", "B", "D"], 8), Route(["A", "C", "D"], 5);
    assert Neighbours(Sample, "A") == [("B", "2"), ("C", "3")];
    assert ["A"] + ["C"] == ["A", "C"];
    assert {} + {"A"} == {"A"};
    assert [acbd, acd] + [] == [acbd, acd];
    assert ExploreFrom(Sample, "D", "A", ["A"], 0, {}, 2) == Ok([]);
  }

  /** The stable sort by cost moves `A, C, D` up behind `A, B, C, D`, the other route of cost 5. */
  lemma SampleRanking()
    ensures Rank([Route(["A", "B", "C", "D"], 5), Route(["A", "B", "D"], 6),
                  Route(["A", "C", "B", "D"], 8), Route(["A", "C", "D"], 5)])
            == [Route(["A", "B", "C", "D"], 5), Route(["A", "C", "D"], 5),
                Route(["A", "B", "D"], 6), Route(["A", "C", "B", "D"], 8)]
  {
    var abcd, abd := Route(["A", "B", "C", "D"], 5), Route(["A", "B", "D"], 6);
    var acbd, acd := Route(["A", "C", "B", "D"], 8), Route(["A", "C", "D"], 5);
    var found := [abcd, abd, acbd, acd];
    assert found[1..] == [abd, acbd, acd] && found[2..] == [acbd, acd] && found[3..] == [acd];
    assert SortByCost([acd]) == [acd];
    assert Insert(acbd, [acd]) == [acd, acbd];
    assert Insert(abd, [acbd]) == [abd, acbd];
    assert Insert(abd, [acd, acbd]) == [acd, abd, acbd];
    assert Insert(abcd, [acd, abd, acbd]) == [abcd, acd, abd, acbd];
    assert SortByCost(found[2..]) == [acd, acbd];
    assert SortByCost(found[1..]) == [acd, abd, acbd];
    assert SortByCost(found) == [abcd, acd, abd, acbd];
    assert Rank(found) == [abcd, acd, abd, acbd];
  }
}
