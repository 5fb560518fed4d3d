/**
 * The cell-folding loop of `gather_stations`.  The page's `td` elements
 * come in groups of three: a station cell, a line cell, and a destinations
 * cell whose links alternate destination station and destination line and
 * whose markup carries one cost per destination.  Each completed group
 * writes one graph entry `"<line> - <station>" -> {destination: cost}`.
 */
module GraphBuilder {
  import opened Wrappers
  import opened PyDict
  import opened Graphs
  import opened CostScanner

  /** One `td` element: its rendered markup and the `title` of each of its links, in order. */
  datatype Cell = Cell(markup: string, titles: seq<string>)

  /**
   * `cost[int(j/2)]` ran past the cost tokens: cell `cell`, link `link`
   * (Python raises `IndexError` and no graph is built).
   */
  datatype BuildError = MissingCost(cell: nat, link: nat)

  /** What `gather_stations` produces: the graph and the names it appended to `train_stations`. */
  datatype Stations = Stations(graph: Graph, stations: seq<string>)

  /** The variables the loop carries from one cell to the next. */
  datatype State = State(graph: Graph, source: string, sourceStation: string, stations: seq<string>)

  const Initial: State := State(map[], "", "", [])

  /** The node name `"<line> - <station>"`. */
  function NodeName(line: string, station: string): string {
    line + " - " + station
  }

  /** The title of the last link, or `otherwise` when there is no link (the variable keeps its value). */
  function Last(titles: seq<string>, otherwise: string): string {
    if titles == [] then otherwise else titles[|titles| - 1]
  }

  /** The names a line cell appends to `train_stations`, one per link. */
  function LineNames(titles: seq<string>, station: string): seq<string> {
    if titles == [] then [] else LineNames(titles[..|titles| - 1], station) + [NodeName(titles[|titles| - 1], station)]
  }

  /** The destination node named by links `2m` (station) and `2m + 1` (line). */
  function PairKey(titles: seq<string>, m: nat): string
    requires 2 * m + 1 < |titles|
  {
    NodeName(titles[2 * m + 1], titles[2 * m])
  }

  /** The destination names of the first `n` link pairs, in link order. */
  function PairKeys(titles: seq<string>, n: nat): (ks: seq<string>)
    requires 2 * n <= |titles|
  {
    seq(n, m requires 0 <= m < n => PairKey(titles, m))
  }

  /** `dest_dict` after the first `n` link pairs, pair `m` costing `tokens[m]`. */
  function PutPairs(titles: seq<string>, tokens: seq<string>, n: nat): Dict<string>
    requires 2 * n <= |titles| && n <= |tokens|
  {
    FromPairs(PairKeys(titles, n), tokens[..n])
  }

  /** The dict a destinations cell writes, or the error of its first pair without a cost. */
  function DestDict(i: nat, titles: seq<string>, tokens: seq<string>): Result<Dict<string>, BuildError> {
    if |titles| / 2 <= |tokens| then Ok(PutPairs(titles, tokens, |titles| / 2))
    else Err(MissingCost(i, 2 * |tokens| + 1))
  }

  /** What cell `i` does to the loop's variables; its role is `i % 3`. */
  function CellStep(st: State, i: nat, c: Cell): Result<State, BuildError> {
    if i % 3 == 0 then
      Ok(st.(sourceStation := Last(c.titles, st.sourceStation)))
    else if i % 3 == 1 then
      var names := LineNames(c.titles, st.sourceStation);
      var source := if c.titles == [] then st.source else NodeName(Last(c.titles, ""), st.sourceStation);
      Ok(st.(source := source, stations := st.stations + names))
    else
      match DestDict(i, c.titles, ExtractBetween(c.markup))
      case Err(e) => Err(e)
      case Ok(d) => Ok(st.(graph := st.graph[st.source := d]))
  }

  /** The loop's variables after the given cells. */
  function Fold(cells: seq<Cell>): Result<State, BuildError> {
    if cells == [] then Ok(Initial)
    else match Fold(cells[..|cells| - 1])
      case Err(e) => Err(e)
      case Ok(st) => CellStep(st, |cells| - 1, cells[|cells| - 1])
  }

  /** `gather_stations` on an already parsed page. */
  function Gather(cells: seq<Cell>): Result<Stations, BuildError> {
    match Fold(cells)
    case Err(e) => Err(e)
    case Ok(st) => Ok(Stations(st.graph, st.stations))
  }

  /** Once a prefix has raised, the whole page raises the same error. */
  lemma {:induction false} FoldErrorSticks(cells: seq<Cell>, n: nat)
    requires n <= |cells| && Fold(cells[..n]).Err?
    ensures Fold(cells) == Fold(cells[..n])
    decreases |cells| - n
  {
    if n < |cells| {
      assert cells[..n + 1][..n] == cells[..n];
      FoldErrorSticks(cells, n + 1);
    } else {
      assert cells[..n] == cells;
    }
  }

  /**
   * A completed group of three cells writes exactly one entry, under the
   * key built from the last link of the line cell and the last link of the
   * station cell; a cell without links leaves its variable as it was.  A
   * repeated key replaces the earlier entry.
   */
  lemma {:induction false} GroupWritesEntry(prefix: seq<Cell>, st: State, a: Cell, b: Cell, c: Cell)
    requires |prefix| % 3 == 0 && Fold(prefix) == Ok(st)
    ensures
      var station := Last(a.titles, st.sourceStation);
      var key := if b.titles == [] then st.source else NodeName(Last(b.titles, ""), station);
      var tokens := ExtractBetween(c.markup);
      Fold(prefix + [a, b, c]) ==
        if |c.titles| / 2 <= |tokens| then
          Ok(State(st.graph[key := PutPairs(c.titles, tokens, |c.titles| / 2)], key, station, st.stations + LineNames(b.titles, station)))
        else Err(MissingCost(|prefix| + 2, 2 * |tokens| + 1))
  {
    GroupKey(prefix, st, a, b);
    GroupRoles(|prefix|);
    FoldSnoc(prefix + [a, b], c);
    assert prefix + [a, b] + [c] == prefix + [a, b, c];
    DestinationsStep(Fold(prefix + [a, b]).value, |prefix| + 2, c);
  }

  /** A destinations cell writes its dict under the current source, or raises. */
  lemma DestinationsStep(st: State, i: nat, c: Cell)
    requires i % 3 == 2
    ensures var tokens := ExtractBetween(c.markup);
      CellStep(st, i, c) ==
        if |c.titles| / 2 <= |tokens| then Ok(st.(graph := st.graph[st.source := PutPairs(c.titles, tokens, |c.titles| / 2)]))
        else Err(MissingCost(i, 2 * |tokens| + 1))
  {
  }

  /** The station cell and the line cell of a group choose the key the group writes under. */
  lemma GroupKey(prefix: seq<Cell>, st: State, a: Cell, b: Cell)
    requires |prefix| % 3 == 0 && Fold(prefix) == Ok(st)
    ensures
      var station := Last(a.titles, st.sourceStation);
      var key := if b.titles == [] then st.source else NodeName(Last(b.titles, ""), station);
      Fold(prefix + [a, b]) == Ok(State(st.graph, key, station, st.stations + LineNames(b.titles, station)))
  {
    GroupRoles(|prefix|);
    FoldSnoc(prefix, a);
    FoldSnoc(prefix + [a], b);
    assert prefix + [a] + [b] == prefix + [a, b];
  }

  lemma GroupRoles(n: nat)
    requires n % 3 == 0
    ensures (n + 1) % 3 == 1 && (n + 2) % 3 == 2
  {
    var q := n / 3;
    assert n == 3 * q;
  }

  /** The fold takes one more cell at the end. */
  lemma FoldSnoc(cells: seq<Cell>, c: Cell)
    ensures Fold(cells + [c]) == match Fold(cells) case Err(e) => Err(e) case Ok(st) => CellStep(st, |cells|, c)
  {
    assert (cells + [c])[..|cells|] == cells;
  }

  /** Any cells after the last complete group write no entry and raise no error. */
  lemma TrailingCellsWriteNothing(cells: seq<Cell>, rest: seq<Cell>)
    requires |cells| % 3 == 0 && |rest| < 3
    ensures Fold(cells + rest).Ok? <==> Fold(cells).Ok?
    ensures Fold(cells).Ok? ==> Fold(cells + rest).value.graph == Fold(cells).value.graph
  {
    GroupRoles(|cells|);
    if |rest| == 1 {
      assert cells + rest == cells + [rest[0]];
      FoldSnoc(cells, rest[0]);
    } else if |rest| == 2 {
      assert cells + rest == (cells + [rest[0]]) + [rest[1]];
      FoldSnoc(cells, rest[0]);
      FoldSnoc(cells + [rest[0]], rest[1]);
    } else {
      assert cells + rest == cells;
    }
  }

  /** Cell `i` is a destinations cell with more link pairs than cost tokens. */
  predicate Overfull(cells: seq<Cell>, i: nat) {
    i < |cells| && i % 3 == 2 && |cells[i].titles| / 2 > |ExtractBetween(cells[i].markup)|
  }

  /**
   * Building fails exactly when some destinations cell has more link pairs
   * than cost tokens; the error names the first such cell and the odd link
   * whose pair has no token.
   */
  lemma {:induction false} GatherFailsIff(cells: seq<Cell>)
    ensures Gather(cells).Err? <==> exists i :: Overfull(cells, i)
    ensures Gather(cells).Err? ==>
      var e := Gather(cells).error;
      && Overfull(cells, e.cell)
      && (forall i | 0 <= i < e.cell :: !Overfull(cells, i))
      && e.link == 2 * |ExtractBetween(cells[e.cell].markup)| + 1
  {
    if cells != [] {
      var init := cells[..|cells| - 1];
      GatherFailsIff(init);
      assert forall i | 0 <= i < |init| :: Overfull(init, i) == Overfull(cells, i);
      if Fold(init).Err? {
        assert Gather(init).Err?;
      } else {
        assert forall i | 0 <= i < |init| :: !Overfull(cells, i);
        assert Fold(cells).Err? <==> Overfull(cells, |cells| - 1);
      }
    }
  }

  /**
   * The dict a destinations cell writes: its keys are exactly the pair
   * names, and a pair name not repeated by a later pair maps to its own
   * cost token.
   */
  lemma DestinationEntries(titles: seq<string>, tokens: seq<string>, n: nat)
    requires 2 * n <= |titles| && n <= |tokens|
    ensures |PutPairs(titles, tokens, n)| <= n
    ensures forall k :: k in Keys(PutPairs(titles, tokens, n)) <==> k in PairKeys(titles, n)
    ensures forall m | 0 <= m < n && AssignedLastAt(PairKeys(titles, n), m) ::
      Get(PutPairs(titles, tokens, n), PairKey(titles, m)) == Some(tokens[m])
  {
    var ks := PairKeys(titles, n);
    FromPairsKeys(ks, tokens[..n]);
    forall m | 0 <= m < n && AssignedLastAt(ks, m)
      ensures Get(PutPairs(titles, tokens, n), PairKey(titles, m)) == Some(tokens[m])
    {
      FromPairsValues(ks, tokens[..n], m);
      assert ks[m] == PairKey(titles, m) && tokens[..n][m] == tokens[m];
    }
  }

  /** Every adjacency list the builder writes is a real dict, so the route search may use the graph. */
  lemma {:induction false} GatherBuildsDicts(cells: seq<Cell>)
    ensures Fold(cells).Ok? ==> WellFormed(Fold(cells).value.graph)
  {
    if cells != [] {
      var init := cells[..|cells| - 1];
      GatherBuildsDicts(init);
      if Fold(init).Ok? && (|cells| - 1) % 3 == 2 {
        var c := cells[|cells| - 1];
        var tokens := ExtractBetween(c.markup);
        if |c.titles| / 2 <= |tokens| {
          var n := |c.titles| / 2;
          FromPairsKeys(PairKeys(c.titles, n), tokens[..n]);
        }
      }
    }
  }

  /** A destinations cell with two link pairs but one cost raises at its fourth link. */
  lemma TooFewCosts()
    ensures Gather([Cell("", ["Alpha"]), Cell("", ["Red"]), Cell("$1,234", ["Beta", "Red", "Gamma", "Blue"])])
      == Err(MissingCost(2, 3))
  {
    var a, b, c := Cell("", ["Alpha"]), Cell("", ["Red"]), Cell("$1,234", ["Beta", "Red", "Gamma", "Blue"]);
    SingleCost();
    assert |ExtractBetween(c.markup)| == 1 && |c.titles| / 2 == 2;
    GroupWritesEntry([], Initial, a, b, c);
    assert [] + [a, b, c] == [a, b, c];
  }

  /** A destinations cell without links still writes an entry, with an empty dict. */
  lemma EmptyDestinations()
    ensures Gather([Cell("", ["Alpha"]), Cell("", ["Red"]), Cell("", [])])
      == Ok(Stations(map["Red - Alpha" := []], ["Red - Alpha"]))
  {
    var a, b, c := Cell("", ["Alpha"]), Cell("", ["Red"]), Cell("", []);
    NoDollarNoTokens("");
    GroupWritesEntry([], Initial, a, b, c);
    assert [] + [a, b, c] == [a, b, c];
    assert PutPairs(c.titles, [], 0) == [];
    assert ["Red"][..0] == [] && NodeName("Red", "Alpha") == "Red - Alpha";
    assert LineNames(["Red"], "Alpha") == ["Red - Alpha"];
    assert [] + ["Red - Alpha"] == ["Red - Alpha"];
  }

  /**
   * The loop of `gather_stations`.  `dest_dict` is empty whenever a cell
   * starts (it is reset after every destinations cell), so it is a local of
   * `DestinationLinks`, the link loop of a destinations cell.
   */
  method GatherStations(cells: seq<Cell>) returns (r: Result<Stations, BuildError>)
    ensures r == Gather(cells)
  {
    var st := Initial;
    for i := 0 to |cells|
      invariant Fold(cells[..i]) == Ok(st)
    {
      assert cells[..i + 1][..i] == cells[..i];
      var next := VisitCell(st, i, cells[i]);
      if next.Err? {
        FoldErrorSticks(cells, i + 1);
        return Err(next.error);
      }
      st := next.value;
    }
    assert cells[..|cells|] == cells;
    r := Ok(Stations(st.graph, st.stations));
  }

  /**
   * One turn of the outer loop.  The source tests the cell's role inside the
   * loop over its links; the role is fixed for the whole cell, so here it
   * picks one of three link loops instead.
   */
  method VisitCell(st: State, i: nat, cell: Cell) returns (r: Result<State, BuildError>)
    ensures r == CellStep(st, i, cell)
  {
    if i % 3 == 0 {
      var sourceStation := StationLinks(cell.titles, st.sourceStation);
      r := Ok(st.(sourceStation := sourceStation));
    } else if i % 3 == 1 {
      var source, stations := LineLinks(cell.titles, st.source, st.sourceStation, st.stations);
      r := Ok(st.(source := source, stations := stations));
    } else {
      var cost := ExtractBetween(cell.markup);
      var destDict := DestinationLinks(i, cell.titles, cost);
      match destDict
      case Err(e) =>
        r := Err(e);
      case Ok(d) =>
        r := Ok(st.(graph := st.graph[st.source := d]));
    }
  }

  /** Links of a station cell: `source_station = station.get('title')` for each. */
  method StationLinks(titles: seq<string>, sourceStation: string) returns (station: string)
    ensures station == Last(titles, sourceStation)
  {
    station := sourceStation;
    for j := 0 to |titles|
      invariant station == Last(titles[..j], sourceStation)
    {
      station := titles[j];
    }
    assert titles[..|titles|] == titles;
  }

  /** Links of a line cell: each appends a node name to `train_stations` and becomes `source`. */
  method LineLinks(titles: seq<string>, source: string, sourceStation: string, stations: seq<string>)
    returns (source': string, stations': seq<string>)
    ensures source' == if titles == [] then source else NodeName(Last(titles, ""), sourceStation)
    ensures stations' == stations + LineNames(titles, sourceStation)
  {
    source', stations' := source, stations;
    for j := 0 to |titles|
      invariant source' == if j == 0 then source else NodeName(titles[j - 1], sourceStation)
      invariant stations' == stations + LineNames(titles[..j], sourceStation)
    {
      assert titles[..j + 1][..j] == titles[..j];
      stations' := stations' + [NodeName(titles[j], sourceStation)];
      source' := NodeName(titles[j], sourceStation);
    }
    assert titles[..|titles|] == titles;
  }

  /**
   * Links of a destinations cell: an even link names the destination
   * station, the odd link after it the line, and pair `j / 2` takes cost
   * token `j / 2`.
   */
  method DestinationLinks(i: nat, titles: seq<string>, cost: seq<string>) returns (r: Result<Dict<string>, BuildError>)
    ensures r == DestDict(i, titles, cost)
  {
    var destDict: Dict<string> := [];
    var destStation := "";
    ghost var pairs: nat := 0;
    for j := 0 to |titles|
      invariant j == 2 * pairs || j == 2 * pairs + 1
      invariant pairs <= |cost| && destDict == PutPairs(titles, cost, pairs)
      invariant j == 2 * pairs + 1 ==> destStation == titles[j - 1]
    {
      var title := titles[j];
      if j % 2 == 0 {
        destStation := title;
      }
      if j % 2 == 1 {
        var dest := NodeName(title, destStation);
        assert j / 2 == pairs && dest == PairKey(titles, pairs);
        if j / 2 >= |cost| {
          assert j == 2 * |cost| + 1 && |titles| / 2 > |cost|;
          return Err(MissingCost(i, j));
        }
        assert PairKeys(titles, pairs + 1)[..pairs] == PairKeys(titles, pairs);
        assert cost[..pairs + 1][..pairs] == cost[..pairs];
        destDict := Put(destDict, dest, cost[j / 2]);
      }
      pairs := if j % 2 == 1 then pairs + 1 else pairs;
    }
    assert pairs == |titles| / 2;
    r := Ok(destDict);
  }
}
