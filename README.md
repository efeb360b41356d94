# Railway connection solver: a verified model

The system answers connection problems over a railway timetable. A problem row gives:

- an origin station and a destination station;
- a timetable file;
- a change time in minutes;
- a cost function: `stops`, `timeintrain`, `price` or `arrivaltime HH:MM:SS`.

The answer is a connection string such as `T : 1 -> 5 ; U : 1 -> 2` together with a cost. The cost is an integer, `inf` when the destination cannot be reached, or a `DD:HH:MM:SS` duration for `arrivaltime`.

The model covers the pipeline behind one answer:

- Loading a timetable: stops are sorted by `islno` and times are rolled over midnight. A station index maps each station to its `(train, stop index)` occurrences.
- Three graph builders, one for each Dijkstra metric:
  - stations for `stops`;
  - `(train, idx)` states for `timeintrain`;
  - `(train, idx, used)` states for `price`, where `used` counts the segments paid on the current train and saturates at 10.
- A generic Dijkstra search over a successor function.
- A specialised arrival-time search. Departures are rolled forward in whole days, and the next arrival is pushed by one day when it falls before the departure.
- Reconstructing the path through the predecessor map.
- Formatting: consecutive segments on the same train are merged into rides.
- The driver: parsing the change time and the cost function, the super-source wrapper used by `timeintrain` and `price`, the duration text, the cost column text, and the schedule cache.

Conventions of the model:

- Times are integer seconds from the base date 2000-01-01 00:00. A clock time of day lies in `[0, 86400)`.
- A timetable is a map from train id to its stop list, plus the sequence of train ids in file order. Python's dicts iterate in insertion order, and the sequence models that order.
- The heap `heapq` is a multiset of `(cost, node)` entries. A pop takes some entry of least cost.
- Python exceptions (`ValueError`, `IndexError`, `KeyError` on a bad row) become `Err` results, except where noted under "## Left out".

Files and modules:

| file | module |
|---|---|
| `wrappers.dfy` | `Wrappers`: `Option` and `Result` |
| `text.dfy` | `Text`: Python string helpers (`strip`, `split`, `int()`, decimal and `02d` rendering) |
| `timetable.dfy` | `Timetable`: stops, schedules, the station index, time parsing, overnight normalisation |
| `paths.dfy` | `Paths`: edges, paths and their costs and labels |
| `graphs.dfy` | `Graphs`: the three graph builders and the super-source wrapper |
| `search_books.dfy` | `SearchBooks`: the invariant of the generic Dijkstra |
| `search.dfy` | `Search`: `dijkstra`, `reconstruct_path`, list reversal |
| `arrival.dfy` | `Arrival`: `roll_forward` and `dijkstra_arrivaltime` |
| `formatter.dfy` | `Formatter`: `build_connection_string` |
| `solver.dfy` | `Solver`: `_solve_single`, the schedule cache, the cost text |

## Model

| member | source | states |
|---|---|---|
| Timetable.BuildStationIndex | schedule_utils.py:80-86 | The built index lists, for each station, exactly the occurrences `(t, i)` whose stop `trains[t][i]` is at that station, in train-then-index order. |
| Timetable.AddTrain | schedule_utils.py:84-85 | One pass of the inner loop appends to every station's list exactly that train's occurrences at that station, in stop order, and leaves the earlier entries in place. |
| Timetable.OccurrencesMember | schedule_utils.py:80-86 | `(t, i)` is listed under station `s` if and only if `t` is a train of the schedule, `i` is one of its stop indices and that stop is at `s`. |
| Timetable.OccurrencesOrdered | schedule_utils.py:83-85 | A station's list is strictly ordered by the train's position in file order and then by stop index, so every stop appears exactly once. |
| Timetable.IndexOfValid | schedule_utils.py:80-86 | Every indexed occurrence is an existing stop of the schedule, listed under its own station. |
| Timetable.ParseFields | schedule_utils.py:13 | `map(int, t.split(":"))` succeeds only when every field parses, and then yields one integer per field, in order. |
| Timetable.ClockSeconds | schedule_utils.py:13 | The model of `datetime(2000, 1, 1, *fields)` accepts exactly one to three non-negative fields with hour < 24, minute < 60 and second < 60, and then gives a time of day in `[0, 86400)`. Four or more fields are under "## Left out". |
| Timetable.ParseTime | schedule_utils.py:11-13 | `_parse_time` strips blanks and then single quotes; a time it accepts lies within the day. |
| Timetable.ParseHhmmss | schedule_utils.py:16-22 | `parse_hhmmss` strips blanks only; a time it accepts lies within the day. |
| Timetable.ClockTextValue | schedule_utils.py:13 | The text `HH:MM:SS` of a valid clock time denotes `H*3600 + M*60 + S` seconds. |
| Timetable.ClockTextRoundTrip | schedule_utils.py:11-22 | `parse_hhmmss("HH:MM:SS")`, `_parse_time("HH:MM:SS")` and `_parse_time("'HH:MM:SS'")` all give `H*3600 + M*60 + S`. |
| Timetable.SortByIslnoSorts | schedule_utils.py:54 | `stops.sort(key=islno)` gives a list ordered by islno and a permutation of the input. |
| Timetable.RollDepartsAfterArrival | schedule_utils.py:65-71 | For a stop with clock times, one step of the overnight fix never leaves the departure before the arrival. |
| Timetable.FixOvernightShape | schedule_utils.py:55-75 | The fix keeps every stop's islno and station. The first stop keeps its raw times, because the offset starts at zero. The day offset never decreases and grows by at most one day per stop. Each later arrival is its raw value plus the current offset. Each departure is its raw value plus the offset, or one day more. |
| Timetable.FixOvernightDepartsAfterArrival | schedule_utils.py:69-71 | For clock-time input, every stop after the first departs no earlier than it arrives. |
| Timetable.FixOvernightRidesForward | schedule_utils.py:28-29 | With clock-time input and no dwell that crosses midnight, each stop arrives no earlier than the stop before it departs. This is the docstring's non-decreasing promise under its precondition. |
| Timetable.SortedStopsFrom | schedule_utils.py:54 | Sorting keeps the per-stop conditions of the input: clock times, and dwells within one day. |
| Timetable.FixTrain | schedule_utils.py:55-75 | The in-place loop over one train's stop array leaves exactly the overnight-fixed list in the array. |
| Timetable.NormalisedSorted | schedule_utils.py:53-75 | After normalisation, a train's stops are still ordered by islno. |
| Timetable.NormaliseTrain | schedule_utils.py:54-75 | One train's stops are sorted and then fixed overnight. |
| Timetable.NormaliseSchedule | schedule_utils.py:52-77 | Every train's stop list is normalised. The train ids and their file order are unchanged. |
| Text.Split | schedule_utils.py:13 | `str.split(":")` gives at least one part, no part contains the separator, and joining the parts with it gives back the text. |
| Text.SplitJoin | schedule_utils.py:13 | Splitting a join of separator-free parts gives back the parts. |
| Text.Words | solver.py:33 | `str.split()` yields only non-empty words without blanks. |
| Text.WordsCons | solver.py:33 | A word followed by a text that starts with a blank splits into that word and the words of the rest. |
| Text.NatToString | solver.py:114 | Decimal rendering gives digits only, with no leading zero, that denote the number. |
| Text.Pad2 | solver.py:114 | `{n:02d}` of a number below 100 is two digits that denote it. |
| Text.ParseInt | solver.py:28 | `int(s)` accepts only a text that is not blank. |
| Text.IntToStringRoundTrip | solver.py:28 | `int(str(n)) == n` for every integer, including negative ones. |
| Text.Pad2RoundTrip | solver.py:114 | `int(f"{n:02d}") == n` for `0 <= n < 100`. |
| Paths.PathSnoc | search.py:24-25 | Extending a path by an edge that leaves its end gives a path to the edge's target, whose cost includes the edge's weight. |
| Paths.PathDataSnoc | search.py:37-41 | The labels of a path grow by the edge's label when it has one. |
| Paths.PrefixCost | search.py:5-31 | With non-negative weights, a prefix of a path costs no more than the path. |
| Search.Dijkstra | search.py:5-31 | `dist[start] == 0` and `prev[start] == (None, None)`. The `prev` map is a tree of recorded edges whose distances are path costs from `start`. A returned goal satisfies `is_goal`, and its distance is no greater than the cost of any path to any goal. `None` means no path reaches a goal. |
| SearchBooks.InitInv | search.py:13-15 | The initial maps, with `dist = {start: 0}`, `prev = {start: (None, None)}` and the queue `[(0, start)]`, satisfy the search invariant. |
| SearchBooks.PopStale | search.py:18-20 | Popping an entry whose cost is not the recorded distance and skipping it keeps the invariant. |
| SearchBooks.PopLive | search.py:18-24 | Popping a live entry that is not a goal marks a new node as expanded and starts its relaxation with the invariant intact. |
| SearchBooks.Lowered | search.py:26-28 | Recording a strictly lower distance, or a first one, lets no recorded distance grow. |
| SearchBooks.RelaxEdge | search.py:24-29 | Relaxing one more edge only on strict improvement keeps the invariant. |
| SearchBooks.GoalBound | search.py:17-22 | A least queue entry costs no more than any path to a goal. So the goal popped first is optimal. |
| SearchBooks.Unreachable | search.py:31 | When the queue is empty, no path from the start reaches a goal. |
| SearchBooks.TreePath | search.py:34-43 | For every node recorded in `prev` there is a path from the start that ends there, costs its recorded distance, and spells the labels collected back through `prev`. |
| SearchBooks.TreeIsShaped | search.py:34-43 | Following the `prev` links from any recorded node reaches the start, with no cycle. |
| Search.RelaxAll | search.py:24-29 | The loop over a node's successors records exactly what relaxing the successors one by one records. |
| Search.WalkFromParent | search.py:37-41 | The walk back from a recorded node makes one pass to its parent, collecting the node's own label, and then walks back from the parent. |
| Search.ReversedCons | search.py:42 | Reversing a list moves its first element to the end. |
| Search.Reversed | search.py:42 | The reversal of a list holds its elements in the opposite order. |
| Search.ReverseInPlace | search.py:42 | `path.reverse()` leaves the reversed contents in the array. |
| Search.Repeats | search.py:37-41 | A walk through `prev` longer than the map has entries visits some node twice. |
| Search.Diverges | search.py:37-41 | Once a walk back through `prev` has run as many steps as the map has entries, it never stops. |
| Search.TreeStops | search.py:37-41 | On a tree-shaped `prev`, the walk back has stopped within as many steps as the map has entries. |
| Search.ReconstructPath | search.py:34-43 | The result is the non-None labels collected until the walk stops, in order from start to goal. `None` means the walk never stops. On a tree-shaped `prev` the result is defined and equals the labels along the tree path. |
| Arrival.RollForward | search.py:69-73 | `roll_forward(base, target)` is at least `base` and at least `target`. It lies a whole number of days after `target`. It is `target` itself, or within one day above `base`. |
| Arrival.RollForwardLeast | search.py:69-73 | No whole number of days that brings `target` up to `base` gives an earlier instant than `roll_forward`: it is the least one. |
| Arrival.RideFrom | search.py:92-103 | A ride from an occurrence ends in the next stop's state, labelled with that segment. It arrives at the raw arrival, or one day later exactly when the raw arrival is before the rolled departure. |
| Arrival.ArrivalAfter | search.py:99-100 | `if arr_raw < dep: arr_raw += day` raises when `dep` is None. Otherwise it gives the raw arrival or one day after it. |
| Arrival.RouteSnoc | search.py:141-194 | Boarding once more, on the same train or as a transfer at the current station, extends a route. |
| Arrival.OfferAllInv | search.py:84-113 | The seed and transfer loops keep the invariant. They skip the state itself and occurrences with no following stop, and they cover every other occurrence of the list. |
| Arrival.PopStaleInv | search.py:127-129 | Skipping a popped entry whose cost is not the recorded elapsed time keeps the invariant. |
| Arrival.LiveStep | search.py:126-194 | Popping a live state and expanding it keeps the invariant, and strictly decreases the termination measure. |
| Arrival.SeedsInv | search.py:84-113 | The books after the seeding loop satisfy the invariant, and every origin occurrence with a following stop has had its seed recorded. |
| Arrival.Outcome | search.py:104-107 | In every recorded state, the elapsed time plus the start instant is its raw arrival or one day after it. That arrival is the one of the ride into the state boarded no earlier than the start instant (no parent), the parent's raw-or-next-day arrival (the continue move) or that arrival plus the change time (a transfer). It carries the segment of the ride into it, its parent is a recorded state it can be boarded from (`None` only for a seed), and some route reaches it. |
| Arrival.NoRouteLeft | search.py:126-196 | When the queue empties and every recorded state has been expanded, no route reaches the destination. |
| Arrival.DijkstraArrivalTime | search.py:46-196 | Every recorded state's elapsed time plus the start instant is its arrival instant: the raw arrival, or one day later. That arrival is the one of the ride into the state boarded no earlier than the start instant when it has no parent, the parent's raw-or-next-day arrival for the continue move, and that arrival plus the change time for a transfer. Each recorded state has a parent it can be boarded from, and every boardable origin occurrence has its seed recorded. A returned goal is a recorded stop at the destination that some route reaches. `None` means no route reaches the destination. |
| Arrival.ExpandState | search.py:135-194 | Called with `now` the state's recorded arrival and `earliest == now + change`, expanding a state records exactly the continue move boarded no earlier than `now`. It then records the rides of the occurrences listed at its station boarded no earlier than `earliest`, skipping the state itself and occurrences with no following stop. |
| Arrival.ExpandInv | search.py:135-194 | Expanding a state at its recorded arrival, with transfers waiting the change time on top, keeps the search invariant, leaves the state fully expanded and does not raise the termination measure. |
| Arrival.PopReady | search.py:138 | The recorded arrival of a popped state is its raw arrival or one day later, which is what its continue move may wait for. |
| Arrival.BoardingOf | search.py:92-103 | The ride from an occurrence boarded at an instant its parent allows ends in a state whose arrival is tied to that parent as the invariant requires. |
| Arrival.RouteSegsSnoc | search.py:157-161 | One more ride adds its segment at the end of a route's segment list. |
| Arrival.OfferRides | search.py:84-113 | The loop over a list of occurrences records exactly the rides the definition offers, in order. |
| Graphs.BuildStopsAdjacency | graph_builder.py:19-39 | The adjacency holds, for every station, exactly the edges of its consecutive stop pairs, in train-then-index order. A station is a key only when it has an edge. |
| Graphs.AddTrainEdges | graph_builder.py:22-39 | One train's pairs `(i, i+1)` append one edge each to `adj[station_i]`, with the other lists unchanged. |
| Graphs.AllEdgesMember | graph_builder.py:21-39 | An edge leaves station `a` if and only if it is `a -> station_{i+1}` with cost 1 and label `(t, islno_i, islno_{i+1})`, for a pair of some train `t` whose stop `i` is at `a`. |
| Graphs.StopsEdges | graph_builder.py:41-42 | The successor list `adj.get(node, [])` of a station holds exactly its segment edges. |
| Graphs.StopsDeadEnd | graph_builder.py:41-42 | A station that no segment leaves has no successors and is no key of `adj`. |
| Graphs.BuildGraphStops | graph_builder.py:4-46 | The graph is the adjacency of the schedule, and the start and goal are exactly the origin and the destination. |
| Graphs.TimeEdges | graph_builder.py:53-73 | A ride edge from `(t, idx)` exists if and only if `idx + 1 < len(stops)`. It leads to `(t, idx+1)`, costs `arr[idx+1] - dep[idx]` and carries that segment's label. The transfer edges lead to exactly the other occurrences of the station, at cost 0 with label None. No edge leads back to the state itself. |
| Graphs.TransfersMember | graph_builder.py:67-72 | A transfer edge exists exactly for each occurrence of the station other than the current state. |
| Graphs.TransfersCount | graph_builder.py:67-72 | There is one transfer edge per other occurrence: the list's length minus the copies of the current state. |
| Graphs.TimeGoals | graph_builder.py:76-78 | The goal set is exactly the occurrences of the destination. |
| Graphs.PriceEdges | graph_builder.py:102-138 | The ride edge from `(t, idx, used)` exists if and only if there is a next stop. It leads to `(t, idx+1, min(used+1, 10))` at cost 1 when `used < 10` and 0 otherwise. Transfers lead to every other occurrence of the station with `used = 0`, at cost 0, never back to the state itself. |
| Graphs.PriceUsedBounded | graph_builder.py:113-117 | From a state with `0 <= used <= 10`, every edge stays within that range and costs 0 or 1. |
| Graphs.PriceStarts | graph_builder.py:141-143 | The start states are the origin occurrences, in order, each with `used = 0`. |
| Graphs.PriceGoals | graph_builder.py:145-149 | The goal set is exactly the destination occurrences paired with every `used` in 0..10. |
| Graphs.RideCost | graph_builder.py:109-128 | `k` consecutive segments on one train form a path to `(t, idx+k, min(used+k, 10))` costing `min(k, 10 - used)`. |
| Graphs.FifteenSegments | graph_builder.py:111-117 | Fifteen segments on one train, starting with nothing paid, cost 10. |
| Graphs.LiftAll | solver.py:74-75 | Away from the super source, the wrapper yields exactly the builder's edges. |
| Graphs.StartEdges | solver.py:70-73 | From `("SOURCE",)` the wrapper yields each start node, in order, at cost 0 with label None. |
| Graphs.ThroughSourceKeeps | solver.py:67-76 | A path from a start node, prefixed by the edge from the super source, ends at the same node with the same cost and the same labels. |
| Graphs.LiftPath | solver.py:67-76 | Every path from a start node is a path from the super source in the wrapped graph. |
| Graphs.UnwrapPath | solver.py:67-76 | Every non-empty path from the super source is a start node's path in the builder's graph, prefixed by the source edge. |
| Graphs.WrapClosed | solver.py:67-76 | The wrapped graph has a finite set of nodes closed under successors, with non-negative weights, when the builder's graph has one. |
| Graphs.StopsClosed | graph_builder.py:41-42 | The stations of the timetable and the origin form a finite node set closed under the successor function, with non-negative weights. |
| Graphs.NormalisedRidesForward | schedule_utils.py:52-75 | In a normalised timetable built from clock times with no dwell past midnight, every segment arrives no earlier than it departs. |
| Graphs.TimeClosed | graph_builder.py:53-73 | The occurrences of the timetable are closed under the time-in-train successors, with non-negative weights, when rides run forward. |
| Graphs.PriceClosed | graph_builder.py:102-138 | The price states with `0 <= used <= 10` are closed under the price successors, with non-negative weights. |
| Formatter.BuildConnectionString | formatter.py:4-26 | The loop's result is the rendering of the merged rides of the segments. |
| Formatter.MergedBounds | formatter.py:13-21 | No segments give no rides. There are never more rides than segments, and one ride per break plus one. The first ride leaves where the first segment leaves. The last ride arrives where the last segment arrives. |
| Formatter.MergedMaximal | formatter.py:15-20 | No two neighbouring rides pass the merge test. |
| Formatter.MergedChain | formatter.py:15-17 | Segments on one train, each starting where the previous one stopped, merge into one ride from the first islno to the last. |
| Formatter.MergedUnjoined | formatter.py:18-20 | Segments no two neighbours of which pass the merge test are kept as they are. |
| Formatter.MergedIdempotent | formatter.py:13-21 | Merging merged rides changes nothing. |
| Formatter.RenderEmpty | formatter.py:10-11 | No segments give the empty string. |
| Formatter.RenderExample | formatter.py:23-26 | `[(T,1,3), (T,3,5), (U,1,2)]` renders as `T : 1 -> 5 ; U : 1 -> 2`. |
| Solver.SearchSingle | solver.py:54-60 | `dijkstra` from a single start, then reconstruction and formatting. The answer is `("", inf)` exactly when no goal is reachable. Otherwise it is the least path cost to a goal and the connection string of a path attaining it. |
| Solver.SearchWrapped | solver.py:67-85 | The search from the super source over the wrapped graph answers for the start list: the least cost from any start to any goal with its connection, or `("", inf)` when none is reachable. |
| Solver.LiftGoal | solver.py:77-78 | A start's path seen through the super source keeps its cost, and it ends at a wrapped goal exactly when it ends at a goal. |
| Solver.SolveStops | solver.py:42-60 | `stops` answers the least number of segments from the origin station to the destination station, and a connection attaining it, or `("", inf)`. |
| Solver.SolveTimeInTrain | solver.py:62-85 | `timeintrain` answers the least time in trains from any origin occurrence to any destination occurrence, or `("", inf)`. |
| Solver.SolvePrice | solver.py:117-141 | `price` answers the least ticket price from any origin occurrence with nothing paid to any destination state, or `("", inf)`. |
| Solver.DurationDivmod | solver.py:110-113 | For every total, negative ones included, the three `divmod` steps give hours below 24, minutes and seconds below 60, and fields that add back up to the total. |
| Solver.DurationTextFields | solver.py:110-114 | The `DD:HH:MM:SS` text splits into four two-digit fields. Their values are `d, h, m, s` with `h < 24` and `m, s < 60`, and `d*86400 + h*3600 + m*60 + s` is the total. |
| Solver.ArrivalInfinite | solver.py:102-103 | The `arrivaltime` answer is `("", inf)` if and only if no route reaches the destination. |
| Solver.WalkRoute | search.py:34-43 | On the books the arrival search returns, the walk back from a recorded state, once reversed, is the segment list of a route that starts at an origin occurrence, boards each later ride from where the previous one arrived, ends in that state, and whose last ride was boarded from the state's recorded parent. |
| Solver.ClockAnswer | solver.py:105-115 | A route to a stop at the destination, with its elapsed time and its rendered segments, gives a `DD:HH:MM:SS` answer. |
| Solver.SolveArrival | solver.py:87-115 | The answer is `("", inf)` exactly when no route exists. Otherwise there is a route from an origin occurrence, each ride boarded where the previous one arrived, to a stop at the destination. The connection is that route's segments, merged and rendered. The cost is the duration text of the elapsed time to that stop, whose arrival is its raw one or one day later and is that of the last ride boarded as its parent allows. |
| Solver.ChangeSeconds | solver.py:28 | The change time is an integer number of minutes times 60, and fails exactly when the model's `int()` (`Text.ParseInt`) fails. |
| Solver.ChangeSecondsOf | solver.py:28 | A change time written as `m` minutes is `m * 60` seconds. |
| Solver.Leading | solver.py:33-35 | `parts[0]` fails exactly when there is no word. The optional second word is `parts[1]`. |
| Solver.ParseCostFunctionName | solver.py:32-35 | A single word selects that metric with no start time. |
| Solver.ParseCostFunctionPair | solver.py:32-35 | `name time` selects the metric `name` with start time `time`. |
| Solver.ParseCostFunctionBlank | solver.py:32-34 | A blank cost function has no first word, so `parts[0]` raises. |
| Solver.CostTextRoundTrip | solver.py:162-167 | A numeric cost is written as text that reads back as the same integer. Infinity is written as `inf`, which is no integer. |
| Solver.ScheduleCache.constructor | solver.py:150 | The cache starts empty, over any reader of well-formed files, including files with a dwell across midnight. |
| Solver.ScheduleCache.Get | solver.py:15-21 | A name already cached returns its entry unchanged, with no new read. Otherwise the file is read, normalised and indexed once, and only that entry is added. |
| Solver.LoadedFit | solver.py:37-39 | A timetable loaded from a Readable file (stop numbers in order, clock times of one day, dwells across midnight allowed) has a valid station index; when no dwell of the file crosses midnight its rides also run forward. |
| Solver.Dispatch | solver.py:41-145 | Each metric name runs its search on any loaded timetable with a valid index. `timeintrain` answers the least time in trains when every ride arrives no earlier than it departs, and is an error otherwise. `arrivaltime` without a time, or with a time that does not parse, and an unknown name are errors. |
| Solver.SolveSingle | solver.py:24-145 | A change time that is not an integer, or a blank cost function, fails with the cache untouched. Otherwise the stripped schedule name is fetched through the cache, which changes at most that entry. The answer is what the stripped stations and the parsed metric dispatch to, for every metric and every readable file, midnight-crossing dwells included. |
| Arrival.RollForwardAsWritten | search.py:69-73 | `roll_forward` as written has no body and returns None. |
| Arrival.SeedRaisesAsWritten | search.py:97-100 | With the function as written, seeding any origin occurrence that has a following stop raises a TypeError at `arr_raw < dep`. With the docstring's function, the same step gives the ride's arrival. |
| Arrival.ArrivalCanPrecedeDeparture | search.py:99-100 | With the one-day rule, a ride can arrive before its rolled-forward departure when the departure was rolled by more than a day. |

## Left out

- File and CSV I/O are not modelled: `_load_problems`, the writer in `solve_problems` and the CSV read in `load_schedule`. Reading a timetable file is the function `read` of `Solver.ScheduleCache`. A problem row is the datatype `Solver.Problem`.
- `main.py`, `verify.py` and the `force_schedule` override of `solve_problems` are not part of this model.
- `datetime`, `timedelta` and `.timestamp()` are replaced by integer seconds from the base date. Time zones and daylight saving are ignored.
- Float costs are integers, and `float("inf")` is the `Infinite` cost.
- Timetable.ClockSeconds, Timetable.ParseTime and Timetable.ParseHhmmss: `_parse_time` and `parse_hhmmss` with four or more colon fields are modelled as failures. `datetime` takes a fourth field as microseconds (so `10:00:00:5` is accepted) and rejects only more fields.
- Text.ParseInt: Python's `int()` also accepts underscores between digits (`int("1_0") == 10`) and non-ASCII decimal digits. The model accepts only ASCII digits and returns `None` for those texts.
- The `heapq` tie-break between entries of equal cost (by node) is not modelled: a pop takes some least entry. The contracts therefore say "a least-cost goal" and not which one.
- Python generators in `graph_wrap` are functions returning sequences.
- Looking up a station the index does not hold gives an empty list in both Python (the index is a `defaultdict`) and the model (`Timetable.Lookup`). The key that Python's `defaultdict` inserts on that lookup is not modelled, because nothing reads it back.
- Solver.SolveTimeInTrain: requires that rides run forward (arrival no earlier than the departure before it). That holds for a timetable loaded from clock times whose dwells do not cross midnight (Solver.LoadedFit). Without it, `arr - dep` could be negative, and Dijkstra's optimality does not hold.
- Solver.Dispatch: `timeintrain` on a loaded timetable where some ride arrives before it departs (possible only after a dwell across midnight) is an error in the model. The source runs `dijkstra` on a negative edge there, which can return a cost that is not the least, or loop forever when the negative edge closes a cycle of negative cost.
- Solver.ScheduleCache.constructor: requires every file to be readable (`Solver.Readable`: stop numbers in order, clock times of one day; dwells across midnight are allowed). A malformed file, which makes `load_schedule` raise, is not modelled.
- Arrival.DijkstraArrivalTime: ties each recorded arrival to a ride boarded at its parent's raw arrival or one day after it (plus the change time for a transfer). It does not say which of the two the parent had when it was expanded, since the parent's record can be lowered afterwards.
- Solver.SolveArrival: the arrival times along the route are not chained ride by ride. Only the last ride is tied to the parent's raw-or-next-day arrival.
- Solver.SolveArrival: states where the answer comes from, not that it is the earliest arrival. Because of the one-day rule (`Arrival.ArrivalCanPrecedeDeparture`), elapsed times are not monotone along a route, so the search need not find the earliest one.
- Solver.SolveArrival: a `prev` walk that never ends loops for ever in Python. The model returns an error instead; with one-day arrivals this case is not excluded.
- Solver.Dispatch: the error text of an unknown metric quotes the metric name rather than the whole stripped cost function. The error messages are not part of any contract.
- Formatter.BuildConnectionString: the input segment dicts are copied in Python (`dict(seg)`). Datatype values in the model cannot be mutated, so that no mutation reaches the input holds by construction.

## Findings

| source | as written | input that shows it | evidently intended | confidence | as-written member | corrected member |
|---|---|---|---|---|---|---|
| search.py:69-73 | `roll_forward` has only a docstring, so it returns `None`. `arr_raw < dep` at search.py:99 then raises `TypeError` for the first origin occurrence that has a following stop. | any `arrivaltime` problem whose origin has a train with a later stop | roll `target_ts` forward in 24-hour steps to the least instant that is at least `base_ts` | not executed | Arrival.SeedRaisesAsWritten | Arrival.RollForwardLeast |
