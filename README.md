# Underspace train travel guide: route core

`train_guide.py` builds a station graph from the wiki's train-travel table.
It lists every route between two stations and shows the ten cheapest.
This project models the four parts of it that are program logic rather than
GUI, network or file handling, and proves what each of them does:

- **The cost-token scanner** `extract_between` (`CostScanner`). It is a
  hand-written scanner for the one regular expression the program uses,
  `\$(.*?),(.{3})`, applied with `re.findall`. Matches are taken left to
  right and never overlap. The lazy group is as short as possible and `.`
  stops at a line feed. Each token is the two groups joined, so the dollar
  sign and the comma are dropped.
- **The graph builder**, the cell loop of `gather_stations` (`GraphBuilder`).
  - Each `td` is a `Cell`: its markup plus the `title` of each of its links.
  - Cell `i` plays role `i % 3`: station, line or destinations.
  - Node names are `"<line> - <station>"`.
  - Every third cell writes one entry, possibly an empty dict.
  - A repeated key replaces the earlier entry.
  - A link pair without a cost token raises `IndexError`, which is modelled as
    `MissingCost`.
  - The cost tokens stay text.
  - `Gather`, a fold of `CellStep`, states what a page builds.
    `GatherStations` is the loop, with one link loop per cell role, proved to
    build the same.
- **The route enumerator** `find_all_routes` and its nested `dfs`
  (`RouteEnumerator`, `RouteProperties`, `RouteTheorems`).
  - `Explore` and `ExploreFrom` give what one `dfs` call appends, or the
    `ValueError` that `int()` raises on a cost token, modelled as `BadCost`.
  - The class `RouteSearch` holds the shared `all_routes` list. Its recursive
    `Dfs` method is proved to append exactly `Explore`'s routes. The body of
    its loop is the method `Visit`, which makes the recursive call.
  - The theorems state the result against the graph alone. `find_all_routes`
    returns each `IsRoute` path exactly once and nothing else, each with the
    sum of its edge costs.
  - `IsRoute` is a walk from the source that meets the destination only at
    its end. It repeats a node only as two neighbours: the late
    `visited | {current}` lets a self-loop be taken once.
  - The search raises exactly when some walk it explores from the source,
    whether or not that walk reaches the destination, crosses a cost that
    `int()` rejects (with `int()` as `IntParse` models it).
- **The ranking** `sorted(routes, key=lambda x: x[1])[:10]` (`Ranking`).
  - It is a stable insertion sort by cost. The model proves it is a
    permutation, sorted and stable, and that it is the only sequence with
    those properties.
  - Then the first `Shown = 10` routes are taken. No route left out is cheaper
    than one that is listed.

`PyDict` models an insertion-ordered Python dict as a list of pairs with
unique keys. `Graphs` models the graph: a map from node to such a dict of
cost tokens. `IntParse` models `int()` on text: the whitespace `int()` strips
is removed from both ends (ASCII tab, line feed, vertical tab, form feed,
carriage return and space, and Unicode whitespace above U+007F), then an
optional sign and decimal digits follow, with single underscores allowed
between digits. `SampleGraph` works the model through the
script's example `routing_graph` (the script defines it but never searches
it).

Behaviours of the code worth noting:

- A destinations cell without links writes an entry with an empty dict; it is
  not skipped (`GraphBuilder.EmptyDestinations`).
- Too few cost tokens raise an index error at the lookup `cost[int(j/2)]`.
- Cost tokens are not converted while building. A bad token makes the route
  search raise instead (`RouteTheorems.RaisesExactly`).
- On the example graph, the two routes of cost 5 keep their discovery order:
  `A, B, C, D` comes before `A, C, D` (`SampleGraph.SampleRoutes`).

## Model

| member | source | states |
|---|---|---|
| CostScanner.LazyLength | train_guide.py:68 | the lazy group `(.*?)` takes the shortest length from `k` on that lets `,` and three more characters follow; `None` exactly when no length does |
| CostScanner.MatchPrefix | train_guide.py:68-70 | a match starts with `$`, consumes at least five characters and yields a token two characters shorter than what it consumes, with no line feed |
| CostScanner.MatchPrefixIsLazyMatch | train_guide.py:68-70 | a match at the start exists exactly when the pattern matches there with some group length; it uses the shortest such length, and its token is the two groups joined |
| CostScanner.ExtractBetween | train_guide.py:66-70 | `findall` yields at most one token per dollar sign, each at least three characters long and free of line feeds |
| CostScanner.NoDollarNoTokens | train_guide.py:66-70 | text without a dollar sign yields no token |
| CostScanner.SkipsTextWithoutDollar | train_guide.py:69 | markup without a dollar sign in front of the costs does not change the tokens |
| CostScanner.MatchSpelled | train_guide.py:68 | `$<head>,<three characters>` followed by anything matches once and gives back the token |
| CostScanner.ScanRender | train_guide.py:66-70 | costs written one after another are read back one token each, in order (round trip) |
| CostScanner.SingleCost | train_guide.py:66-70 | `"$1,234"` gives `["1234"]` |
| CostScanner.SecondGroupIgnored | train_guide.py:66-70 | `"$1,234,567"` gives only `["1234"]` |
| IntParse.ParseShow | train_guide.py:141 | `int(str(n)) == n` for every integer |
| IntParse.ParseDigits | train_guide.py:141 | a non-empty run of ASCII digits reads as its decimal value |
| IntParse.ParseNegative | train_guide.py:141 | a minus sign in front of digits negates their value |
| IntParse.LeadingSpaceIgnored | train_guide.py:141 | whitespace that `int()` strips, in front of a token, does not change what `int()` reads, or whether it raises |
| IntParse.TrailingSpaceIgnored | train_guide.py:141 | whitespace that `int()` strips, after a token, does not change what `int()` reads, or whether it raises |
| IntParse.PaddedCosts | train_guide.py:141 | `" 1000"` reads as 1000 and `"150 "` as 150 |
| IntParse.GroupedCost | train_guide.py:141 | `"1_000"` reads as 1000 |
| IntParse.RejectedCosts | train_guide.py:141 | `"1__000"`, `"_1"` and `"1,5"` raise |
| IntParse.SeparatorNotStripped | train_guide.py:141 | the ASCII separator U+001C is not stripped, so a token starting with it raises |
| PyDict.PutGet | train_guide.py:101 | after `d[k] = v`, `k` holds `v` and every other key keeps its value |
| PyDict.PutKeys | train_guide.py:101 | `d[k] = v` keeps the key order and appends a new key at the end |
| PyDict.FromPairsKeys | train_guide.py:96-101 | assigning pairs in order gives a dict whose keys are exactly the assigned keys, each once |
| PyDict.FromPairsValues | train_guide.py:96-101 | a key assigned for the last time at step `m` holds the `m`-th value |
| Graphs.EdgeCost | train_guide.py:137-141 | an edge's cost token exists exactly when the edge does |
| GraphBuilder.GatherStations | train_guide.py:80-105 | the loop over the cells returns the graph and station names of the fold `Gather`, or its first error |
| GraphBuilder.VisitCell | train_guide.py:88-104 | one cell updates the loop's variables as its role `i % 3` says |
| GraphBuilder.StationLinks | train_guide.py:90-92 | a station cell leaves `source_station` at its last link's title, or unchanged without links |
| GraphBuilder.LineLinks | train_guide.py:90-95 | a line cell appends one node name per link and makes the last one `source` |
| GraphBuilder.DestinationLinks | train_guide.py:96-101 | a destinations cell builds the dict of its link pairs and tokens, or raises at link `2 * tokens + 1` |
| GraphBuilder.FoldErrorSticks | train_guide.py:101 | once a cell raises, the whole page raises that error |
| GraphBuilder.GroupWritesEntry | train_guide.py:87-104 | a group of three cells writes one entry under `"<last line title> - <last station title>"`, holding the pairs' dict, replacing any earlier entry, or raises |
| GraphBuilder.GroupKey | train_guide.py:91-95 | the station and line cells of a group set the key and append the line names |
| GraphBuilder.TrailingCellsWriteNothing | train_guide.py:102-104 | one or two cells after the last complete group write nothing and raise nothing |
| GraphBuilder.GatherFailsIff | train_guide.py:101 | building fails exactly when some destinations cell has more link pairs than tokens; the error names the first such cell and its first link without a token |
| GraphBuilder.DestinationEntries | train_guide.py:96-101 | the written dict's keys are exactly the pair names, and a name not repeated later maps to its own token |
| GraphBuilder.GatherBuildsDicts | train_guide.py:101-103 | every adjacency list written has distinct keys |
| GraphBuilder.TooFewCosts | train_guide.py:101 | two link pairs with one cost token raise at the fourth link |
| GraphBuilder.EmptyDestinations | train_guide.py:102-104 | a destinations cell without links writes an empty dict |
| RouteEnumerator.UnvisitedShrinks | train_guide.py:139-143 | entering an unvisited neighbour never increases the keys of the graph left to expand and decreases them unless it is a self-loop or not a key of the graph |
| RouteEnumerator.RouteSearch.constructor | train_guide.py:145 | the shared list starts empty |
| RouteEnumerator.RouteSearch.Dfs | train_guide.py:132-143 | `dfs` appends to the shared list exactly the routes `Explore` gives, or raises exactly its error |
| RouteEnumerator.RouteSearch.Visit | train_guide.py:138-143 | one turn of `dfs`'s loop keeps the list's earlier entries, and what it appends comes in front of the rest of the loop's routes; when it raises, the loop from that neighbour on raises the same error |
| RouteEnumerator.FindAllRoutes | train_guide.py:130-148 | `find_all_routes` returns `AllRoutes`: the search from the source if it is a key of the graph, otherwise nothing |
| RouteProperties.ExploreCounts | train_guide.py:133-143 | one `dfs` call reports every completion of its path exactly once |
| RouteProperties.ExploreCosts | train_guide.py:140-143 | every route `dfs` reports carries the sum of the costs along its path |
| RouteProperties.ExploreRaises | train_guide.py:138-143 | a walk below the call that ends in a bad cost makes the call raise |
| RouteProperties.ExploreRaisesOnly | train_guide.py:138-143 | a call that raises has such a walk below it |
| RouteProperties.ChildWalk | train_guide.py:139-142 | the arguments of the recursive call again describe a walk, with `visited` being the path before its last node |
| RouteProperties.WalkStep | train_guide.py:133-139 | every node of a walk but the last is left along an edge and is not the destination |
| RouteTheorems.RoutesExactlyOnce | train_guide.py:130-148 | every route of the graph is returned exactly once, and nothing else |
| RouteTheorems.ReturnedRoutes | train_guide.py:140-147 | every returned route is a route of the graph, and its cost is its path's cost |
| RouteTheorems.RouteShape | train_guide.py:133-135 | a route starts at the source, ends at the destination and meets it nowhere earlier |
| RouteTheorems.RaisesExactly | train_guide.py:141 | the search raises exactly when some walk from the source reaches a cost that `int()`, as `IntParse.ParseInt` models it, rejects |
| RouteTheorems.WalkCharacterized | train_guide.py:139-142 | the walks searched, without recursion: from a key of the graph, along edges, never leaving the destination, repeating a node only adjacently |
| RouteTheorems.SimpleWithoutSelfLoops | train_guide.py:139-142 | without self-loops every route is a simple path |
| RouteTheorems.SourceHandling | train_guide.py:146-147 | a source that is not a key of the graph gives no route, even to itself; a key of the graph that is the destination gives the one-node route of cost 0 |
| RouteTheorems.SelfLoopTakenOnce | train_guide.py:142 | with a self-loop `X -> X`, the route `X, X, Y` is found, before `X, Y` |
| RouteTheorems.CompletesFromSource | train_guide.py:147 | the completions of `[source]` are exactly the routes from the source |
| Ranking.InsertPermutes | train_guide.py:120 | inserting a route adds exactly that route |
| Ranking.InsertSorted | train_guide.py:120 | inserting into routes sorted by cost keeps them sorted |
| Ranking.InsertStable | train_guide.py:120 | an inserted route goes in front of the routes of its cost |
| Ranking.SortByCostPermutes | train_guide.py:120 | the sort is a permutation of the routes |
| Ranking.SortByCostSorted | train_guide.py:120 | the sort orders the routes by non-decreasing cost |
| Ranking.SortByCostStable | train_guide.py:120 | routes of equal cost keep their input order |
| Ranking.StableSortUnique | train_guide.py:120 | two sequences sorted by cost with the same routes of each cost in the same order are equal |
| Ranking.SortByCostIsStableSort | train_guide.py:120 | the sort is the one sequence that is sorted by cost and keeps each cost's routes in input order |
| Ranking.RankSorted | train_guide.py:120 | the ranking lists `min(10, n)` routes, cheapest first, each one of the input |
| Ranking.RankKeepsOrder | train_guide.py:120 | the listed routes of each cost come in discovery order |
| Ranking.RankCheapest | train_guide.py:120 | every route left out costs at least as much as every route listed |
| Ranking.TopRoutesCheapest | train_guide.py:117-120 | the listed routes are routes of the graph with their costs, sorted, and no route of the graph left out is cheaper than one listed |
| SampleGraph.SampleRoutes | train_guide.py:153-158 | on the example graph from `A` to `D` the search finds four routes in neighbour order, and the ranking lists `A, B, C, D` and `A, C, D` (both 5), then `A, B, D` (6) and `A, C, B, D` (8) |
| SampleGraph.SampleRanking | train_guide.py:120 | the stable sort moves `A, C, D` up behind the other route of cost 5 |

## Left out

- The tkinter GUI (`setup_gui`, the widgets, the main loop) and the display side of `find_routes`: the "Please select both source and destination" message, "No routes found" and the text it prints.
- `update_train_list_from_wiki`, which fetches the wiki page over the network and caches it on disk, and the file read in `gather_stations`: I/O.
- BeautifulSoup: each `td` is given as its markup and its link titles. The model does not cover HTML parsing, the rendering `str(station_html)`, or a link without a `title` (whose `None` raises `TypeError` once the title is joined into a node name).
- `locale.setlocale` and the `{cost:n}` formatting of costs, and the `screeninfo` monitor query: presentation only.
- Python's general `re` engine: only the one fixed pattern is modelled.
- IntParse.ParseInt: reads ASCII digits only. `int()` also accepts the other Unicode decimal digits (Arabic-Indic or full-width digits, say); on a cost token holding them the model raises `BadCost` where the program reads a number. The tokens come from wiki markup, and the Unicode digit tables are left out to keep the model small. Nor does it model the limit of 4300 digits that Python 3.11 and later put on `int()` of a string (`sys.get_int_max_str_digits()`): the model reads longer digit runs, where the program raises `ValueError`.
- The module-level `train_stations` list: modelled only as the `stations` output of the builder, since it is appended to and never read.
- The order of the graph's top-level keys: the model uses a map, since the GUI sorts the node names and the search only looks keys up.
- The example `routing_graph` holds integer costs. `SampleGraph` gives them as the digit strings the builder would produce, which `int()` reads back to the same numbers.
- `RouteSearch.Dfs` and `FindAllRoutes` model Python's recursion depth as unbounded; a `RecursionError` on very long paths is not modelled.
