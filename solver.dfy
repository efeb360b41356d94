/**
 * `solver.py`: one problem row is parsed, its timetable fetched through the
 * schedule cache, and the search of its cost function run; the answer is
 * the connection string and the cost as written to the output file.
 */
module Solver {
  import opened Wrappers
  import opened Text
  import opened Timetable
  import opened Paths
  import SearchBooks
  import opened Search
  import opened Arrival
  import opened Graphs
  import opened Formatter

  // ---------------------------------------------------------------------
  // Answers
  // ---------------------------------------------------------------------

  /** The second element returned by `_solve_single`: a number, `float("inf")`, or the `DD:HH:MM:SS` text. */
  datatype Cost = Number(n: int) | Infinite | Clock(text: string)

  datatype Answer = Answer(connection: string, cost: Cost)

  /**
   * Path `p` from one of `starts` reaches a goal at cost `cost` and spells
   * the segments `segs`, and no path from a start to a goal is cheaper.
   */
  ghost predicate Best<N(!new)>(succ: N -> seq<Edge<N>>, starts: seq<N>, isGoal: N -> bool, cost: int, segs: seq<Segment>)
  {
    && (exists s, p :: s in starts && IsPath(succ, s, p) && isGoal(End(s, p)) && PathCost(p) == cost && PathData(p) == segs)
    && (forall s, p :: s in starts && IsPath(succ, s, p) && isGoal(End(s, p)) ==> cost <= PathCost(p))
  }

  /** No path from a start reaches a goal. */
  ghost predicate NoPath<N(!new)>(succ: N -> seq<Edge<N>>, starts: seq<N>, isGoal: N -> bool)
  {
    forall s, p :: s in starts && IsPath(succ, s, p) ==> !isGoal(End(s, p))
  }

  /**
   * What a Dijkstra-based branch of `_solve_single` answers: `("", inf)`
   * when no goal can be reached, otherwise the least cost of reaching one
   * and the connection string of a path attaining it.
   */
  ghost predicate SearchAnswer<N(!new)>(succ: N -> seq<Edge<N>>, starts: seq<N>, isGoal: N -> bool, a: Answer)
  {
    match a.cost
    case Infinite => a.connection == "" && NoPath(succ, starts, isGoal)
    case Number(c) => exists segs :: Best(succ, starts, isGoal, c, segs) && a.connection == Render(Merged(segs))
    case Clock(_) => false
  }

  /**
   * `dijkstra(graph_wrap, start_node, is_goal)` followed by
   * `reconstruct_path` and `build_connection_string`, as the `stops`
   * branch runs them (solver.py:54-60).
   */
  method SearchSingle<N(==, !new)>(succ: N -> seq<Edge<N>>, start: N, isGoal: N -> bool, ghost nodes: set<N>)
    returns (a: Answer)
    requires start in nodes && Closed(succ, nodes)
    ensures SearchAnswer(succ, [start], isGoal, a)
  {
    var prev, dist, goal;
    ghost var rank;
    prev, dist, goal, rank := Dijkstra(succ, start, isGoal, nodes);
    if goal.None? {
      forall s, p | s in [start] && IsPath(succ, s, p) ensures !isGoal(End(s, p)) {
        assert s == start;
      }
      return Answer("", Infinite);
    }
    var g := goal.value;
    SearchBooks.TreeIsShaped(succ, start, dist, prev, rank);
    var path := ReconstructPath(prev, g, rank);
    SearchBooks.TreePath(succ, start, dist, prev, rank, g);
    var conn := BuildConnectionString(path.value);
    a := Answer(conn, Number(dist[g]));
    forall s, q | s in [start] && IsPath(succ, s, q) && isGoal(End(s, q)) ensures dist[g] <= PathCost(q) {
      assert s == start;
    }
    assert start in [start];
    assert Best(succ, [start], isGoal, dist[g], path.value);
  }

  /** The goal test of `graph_wrap`'s states: the super source is no goal. */
  function WrapGoal<N>(isGoal: N -> bool): Wrapped<N> -> bool
  {
    (w: Wrapped<N>) => w.Node? && isGoal(w.n)
  }

  /**
   * The `timeintrain` and `price` branches (solver.py:67-85, 121-141):
   * `dijkstra` from the super source over `graph_wrap`, then the path and
   * its connection string. The answer is stated on the graph itself.
   */
  method SearchWrapped<N(==, !new)>(succ: N -> seq<Edge<N>>, starts: seq<N>, isGoal: N -> bool, ghost nodes: set<N>)
    returns (a: Answer)
    requires Closed(succ, nodes) && forall s :: s in starts ==> s in nodes
    ensures SearchAnswer(succ, starts, isGoal, a)
  {
    var w := WrapGraph(succ, starts);
    var wGoal := WrapGoal(isGoal);
    WrapClosed(succ, starts, nodes);
    var prev, dist, goal;
    ghost var rank;
    prev, dist, goal, rank := Dijkstra(w, Source, wGoal, WrapNodes(nodes));
    if goal.None? {
      forall s, p | s in starts && IsPath(succ, s, p) ensures !isGoal(End(s, p)) {
        LiftGoal(succ, starts, isGoal, s, p);
      }
      return Answer("", Infinite);
    }
    var g := goal.value;
    SearchBooks.TreeIsShaped(w, Source, dist, prev, rank);
    var path := ReconstructPath(prev, g, rank);
    SearchBooks.TreePath(w, Source, dist, prev, rank, g);
    ghost var q :| IsPath(w, Source, q) && End(Source, q) == g && PathCost(q) == dist[g]
                   && PathData(q) == SearchBooks.ChainData(prev, rank, g);
    assert q != [];
    UnwrapPath(succ, starts, q);
    ghost var s0, p0 :| s0 in starts && IsPath(succ, s0, p0) && q == ThroughSource(s0, p0);
    ThroughSourceKeeps(s0, p0);
    var conn := BuildConnectionString(path.value);
    a := Answer(conn, Number(dist[g]));
    forall s, p | s in starts && IsPath(succ, s, p) && isGoal(End(s, p)) ensures dist[g] <= PathCost(p) {
      LiftGoal(succ, starts, isGoal, s, p);
      var lifted := ThroughSource(s, p);
      assert IsPath(w, Source, lifted) && wGoal(End(Source, lifted));
    }
    assert Best(succ, starts, isGoal, dist[g], path.value);
  }

  /** A path from a start, entered from the super source, is a path of the same cost reaching a goal exactly when it did. */
  lemma LiftGoal<N(!new)>(succ: N -> seq<Edge<N>>, starts: seq<N>, isGoal: N -> bool, s: N, p: seq<Edge<N>>)
    requires s in starts && IsPath(succ, s, p)
    ensures var q := ThroughSource(s, p);
            && IsPath(WrapGraph(succ, starts), Source, q) && PathCost(q) == PathCost(p)
            && (WrapGoal(isGoal)(End(Source, q)) <==> isGoal(End(s, p)))
  {
    LiftPath(succ, starts, s, p);
    ThroughSourceKeeps(s, p);
  }

  /** Paths only depend on the successor lists, not on how the function computing them is written. */
  lemma PathsAgree<N(!new)>(f: N -> seq<Edge<N>>, g: N -> seq<Edge<N>>, s: N, p: seq<Edge<N>>)
    requires forall n :: f(n) == g(n)
    ensures IsPath(f, s, p) <==> IsPath(g, s, p)
  {
    forall i | 0 <= i < |p| ensures Step(f, s, p, i) <==> Step(g, s, p, i) {
      assert f(NodeAt(s, p, i)) == g(NodeAt(s, p, i));
    }
  }

  /** An answer for one graph and goal test is one for any that agree with them everywhere. */
  lemma AnswerAgrees<N(!new)>(f: N -> seq<Edge<N>>, g: N -> seq<Edge<N>>, starts: seq<N>,
                              isGoal: N -> bool, isGoal': N -> bool, a: Answer)
    requires forall n :: f(n) == g(n)
    requires forall n :: isGoal(n) == isGoal'(n)
    requires SearchAnswer(f, starts, isGoal, a)
    ensures SearchAnswer(g, starts, isGoal', a)
  {
    match a.cost
    case Infinite =>
      forall s, p | s in starts && IsPath(g, s, p) ensures !isGoal'(End(s, p)) {
        PathsAgree(f, g, s, p);
      }
    case Number(c) =>
      var segs :| Best(f, starts, isGoal, c, segs) && a.connection == Render(Merged(segs));
      var s, p :| s in starts && IsPath(f, s, p) && isGoal(End(s, p)) && PathCost(p) == c && PathData(p) == segs;
      PathsAgree(f, g, s, p);
      forall s', p' | s' in starts && IsPath(g, s', p') && isGoal'(End(s', p')) ensures c <= PathCost(p') {
        PathsAgree(f, g, s', p');
      }
      assert Best(g, starts, isGoal', c, segs);
  }

  // ---------------------------------------------------------------------
  // The four cost functions
  // ---------------------------------------------------------------------

  /** The station graph of a timetable, by its definition. */
  ghost function ScheduleStops(sch: Schedule): Station -> seq<Edge<Station>>
    requires WellOrdered(sch)
  {
    a => AllEdges(sch.trains, sch.order, a)
  }

  function StopsGoal(to: Station): Station -> bool
  {
    a => a == to
  }

  function TimeGoal(index: StationIndex, to: Station): Occ -> bool
  {
    o => o in Lookup(index, to)
  }

  function PriceGoal(index: StationIndex, to: Station): PState -> bool
  {
    s => At(s) in Lookup(index, to) && 0 <= s.used <= 10
  }

  /** The start states of `price`: each origin occurrence with no segment paid. */
  function Freshen(occs: seq<Occ>): seq<PState>
  {
    seq(|occs|, j requires 0 <= j < |occs| => Fresh(occs[j]))
  }

  /**
   * `stops` (solver.py:42-60): the least number of stations entered by
   * train from the origin to the destination station, and a connection
   * attaining it.
   */
  method SolveStops(sch: Schedule, from: Station, to: Station) returns (a: Answer)
    requires WellOrdered(sch)
    ensures SearchAnswer(ScheduleStops(sch), [from], StopsGoal(to), a)
  {
    var adj, start, goalStation := BuildGraphStops(sch, from, to);
    StopsClosed(adj, sch, from);
    a := SearchSingle(StopsGraph(adj), start, StopsGoal(goalStation), {from} + Stations(sch.trains));
    AnswerAgrees(StopsGraph(adj), ScheduleStops(sch), [from], StopsGoal(goalStation), StopsGoal(to), a);
  }

  /**
   * `timeintrain` (solver.py:62-85): the least time spent in trains from
   * any stop at the origin to any stop at the destination, transfers being
   * free, and a connection attaining it.
   */
  method SolveTimeInTrain(trains: map<TrainId, seq<Stop>>, index: StationIndex, from: Station, to: Station)
    returns (a: Answer)
    requires IndexValid(trains, index) && RidesForward(trains)
    ensures SearchAnswer(TimeGraph(trains, index), Lookup(index, from), TimeGoal(index, to), a)
  {
    var starts := Lookup(index, from);
    var goals := TimeGoals(index, to);
    TimeClosed(trains, index);
    forall s | s in starts ensures s in AllOccs(trains) {
      assert ValidOcc(trains, s) && s == Occ(s.train, s.idx);
    }
    var isGoal := (o: Occ) => o in goals;
    a := SearchWrapped(TimeGraph(trains, index), starts, isGoal, AllOccs(trains));
    AnswerAgrees(TimeGraph(trains, index), TimeGraph(trains, index), starts, isGoal, TimeGoal(index, to), a);
  }

  /**
   * `price` (solver.py:117-141): the least fare from any stop at the
   * origin to any stop at the destination, each segment costing 1 until
   * 10 are paid on one train, and a connection attaining it.
   */
  method SolvePrice(trains: map<TrainId, seq<Stop>>, index: StationIndex, from: Station, to: Station)
    returns (a: Answer)
    requires IndexValid(trains, index)
    ensures SearchAnswer(PriceGraph(trains, index), Freshen(Lookup(index, from)), PriceGoal(index, to), a)
  {
    var starts := PriceStarts(index, from);
    assert starts == Freshen(Lookup(index, from));
    var goals := PriceGoals(index, to);
    PriceClosed(trains, index);
    forall s | s in starts ensures s in AllPStates(trains) {
      var j :| 0 <= j < |starts| && starts[j] == s;
      var o := Lookup(index, from)[j];
      assert o in Lookup(index, from);
      assert ValidOcc(trains, o) && s == PState(o.train, o.idx, 0);
    }
    var isGoal := (s: PState) => s in goals;
    a := SearchWrapped(PriceGraph(trains, index), starts, isGoal, AllPStates(trains));
    AnswerAgrees(PriceGraph(trains, index), PriceGraph(trains, index), starts, isGoal, PriceGoal(index, to), a);
  }

  /**
   * The `DD:HH:MM:SS` text of a total in seconds (solver.py:110-114).
   * `divmod` by a positive divisor floors, as Dafny's `/` and `%` do.
   */
  function DurationText(total: int): string
  {
    var days := total / DAY;
    var rem := total % DAY;
    Join([Pad2(days), Pad2(rem / 3600), Pad2(rem % 3600 / 60), Pad2(rem % 60)], ":")
  }

  lemma ParseFourFields(a: string, b: string, c: string, d: string, w: int, x: int, y: int, z: int)
    requires ParseInt(a) == Some(w) && ParseInt(b) == Some(x) && ParseInt(c) == Some(y) && ParseInt(d) == Some(z)
    ensures ParseFields([a, b, c, d]) == Some([w, x, y, z])
  {
    ParseThreeFields(b, c, d, x, y, z);
    assert [a, b, c, d][1..] == [b, c, d] && [w] + [x, y, z] == [w, x, y, z];
  }

  /**
   * A total of less than 100 days reads back from its text: four
   * two-digit fields, days then hours below 24, minutes and seconds below 60,
   * that add up to the total.
   */
  lemma DurationTextFields(total: int)
    requires 0 <= total < 100 * DAY
    ensures var d, h, m, s := total / DAY, total % DAY / 3600, total % DAY % 3600 / 60, total % DAY % 60;
            && ParseFields(Split(DurationText(total), ':')) == Some([d, h, m, s])
            && 0 <= d < 100 && 0 <= h < 24 && 0 <= m < 60 && 0 <= s < 60
            && d * DAY + h * 3600 + m * 60 + s == total
  {
    var d, h, m, s := total / DAY, total % DAY / 3600, total % DAY % 3600 / 60, total % DAY % 60;
    DurationArith(total, d, h, m, s);
    DurationSplit(total, d, h, m, s);
  }

  /** Days, hours, minutes and seconds of `divmod` are in range and add up to the total. */
  lemma DurationArith(total: int, d: int, h: int, m: int, s: int)
    requires 0 <= total < 100 * DAY
    requires d == total / DAY && h == total % DAY / 3600 && m == total % DAY % 3600 / 60 && s == total % DAY % 60
    ensures 0 <= d < 100 && 0 <= h < 24 && 0 <= m < 60 && 0 <= s < 60
    ensures d * DAY + h * 3600 + m * 60 + s == total
  {
    DurationDivmod(total);
  }

  /**
   * For every total, negative ones included (a negative change time can
   * make one), the three `divmod` steps give hours below 24, minutes and
   * seconds below 60, and fields that add back up to the total.
   */
  lemma DurationDivmod(total: int)
    ensures var d, h, m, s := total / DAY, total % DAY / 3600, total % DAY % 3600 / 60, total % DAY % 60;
            && 0 <= h < 24 && 0 <= m < 60 && 0 <= s < 60
            && d * DAY + h * 3600 + m * 60 + s == total
  {
    var rem := total % DAY;
    assert total == total / DAY * DAY + rem && 0 <= rem < DAY;
    assert rem == rem / 3600 * 3600 + rem % 3600;
    assert rem % 3600 == rem % 3600 / 60 * 60 + rem % 60;
  }

  lemma DurationSplit(total: int, d: int, h: int, m: int, s: int)
    requires d == total / DAY && h == total % DAY / 3600 && m == total % DAY % 3600 / 60 && s == total % DAY % 60
    requires 0 <= d < 100 && 0 <= h < 24 && 0 <= m < 60 && 0 <= s < 60
    ensures ParseFields(Split(DurationText(total), ':')) == Some([d, h, m, s])
  {
    var parts := [Pad2(d), Pad2(h), Pad2(m), Pad2(s)];
    assert DurationText(total) == Join(parts, ":");
    forall k | 0 <= k < 4 ensures ':' !in parts[k] {
      assert AllDigits(parts[k]);
    }
    SplitJoin(parts, ':');
    Pad2RoundTrip(d);
    Pad2RoundTrip(h);
    Pad2RoundTrip(m);
    Pad2RoundTrip(s);
    ParseFourFields(parts[0], parts[1], parts[2], parts[3], d, h, m, s);
  }

  /**
   * What the `arrivaltime` branch answers: `("", inf)` only when no route
   * reaches the destination; otherwise the text of the elapsed time to a
   * stop at the destination and the connection of a route that ends there.
   * The walk back through `prev` may go round a cycle (a ride can arrive
   * before a departure that was rolled over to a later day); the source
   * would then loop for ever, and the model reports an error.
   */
  ghost predicate ArrivalAnswer(q: Query, r: Result<Answer, string>)
  {
    match r
    case Err(_) => !NoRoute(q)
    case Ok(a) =>
      match a.cost
      case Infinite => a.connection == "" && NoRoute(q)
      case Clock(t) =>
        exists o, d, route, segs :: ArrivedBy(q, o, d, route, segs) && t == DurationText(d) && a.connection == Render(Merged(segs))
      case Number(_) => false
  }

  /**
   * `route`, whose rides have the segments `segs`, ends at stop `o` of the
   * destination `d` seconds after the start instant. The arrival there is
   * the raw one or one day later, and it is that of the last ride boarded
   * as `Boarding` allows from the state the route was in before it (the
   * start instant for a route of one ride).
   */
  ghost predicate ArrivedBy(q: Query, o: Occ, d: int, route: seq<Occ>, segs: seq<Segment>)
  {
    && IsRoute(q, route) && EndState(route) == o && RouteSegs(q, route, segs)
    && Arrived(q.trains, o) && StationAt(q.trains, o) == q.to
    && (d + q.startTs == RawArr(q.trains, o) || d + q.startTs == RawArr(q.trains, o) + DAY)
    && Boarding(q, o, d + q.startTs, RouteParent(route))
  }

  /** A route to a stop at the destination rules out "no route". */
  lemma ReachedRoute(q: Query, o: Occ)
    requires Reachable(q, o) && ValidOcc(q.trains, o) && StationAt(q.trains, o) == q.to
    ensures !NoRoute(q)
  {
    var r :| IsRoute(q, r) && EndState(r) == o;
  }

  /** `("", inf)` comes back exactly when no route reaches the destination. */
  lemma ArrivalInfinite(q: Query, r: Result<Answer, string>)
    requires ArrivalAnswer(q, r)
    ensures r.Ok? && r.value.cost.Infinite? <==> NoRoute(q)
  {
    if r.Ok? && r.value.cost.Clock? {
      var o, d, route, segs :| ArrivedBy(q, o, d, route, segs) && r.value.cost.text == DurationText(d)
                                && r.value.connection == Render(Merged(segs));
      assert IsRoute(q, route) && EndState(route) == o;
      ReachedRoute(q, o);
    }
  }

  /**
   * The walk back from a recorded state, once reversed, is the segments of a
   * route that ends in that state and whose last ride was boarded from the
   * state's recorded parent.
   */
  lemma {:induction false} WalkRoute(q: Query, dist: map<Occ, int>, prev: SearchBooks.Prev<Occ>, g: Occ, n: nat)
    requires Walkable(q, dist, prev) && g in dist && g in prev
    requires (forall k: nat :: k < n ==> Alive(prev, g, k)) && !Alive(prev, g, n)
    ensures exists r :: IsRoute(q, r) && EndState(r) == g && RouteParent(r) == prev[g].0
                        && RouteSegs(q, r, Reversed(Collect(prev, g, n)))
    decreases n, 1
  {
    WalkFacts(q, dist, prev, g);
    if prev[g].0.None? {
      WalkSeed(q, prev, g, n);
    } else {
      WalkParent(q, dist, prev, g, prev[g].0.value, n);
    }
  }

  /** `WalkRoute` for a state with a recorded parent: the route to the parent, and one more ride. */
  lemma {:induction false} WalkParent(q: Query, dist: map<Occ, int>, prev: SearchBooks.Prev<Occ>, g: Occ, p: Occ, n: nat)
    requires Walkable(q, dist, prev) && g in dist && g in prev && prev[g].0 == Some(p)
    requires (forall k: nat :: k < n ==> Alive(prev, g, k)) && !Alive(prev, g, n)
    ensures exists r :: IsRoute(q, r) && EndState(r) == g && RouteParent(r) == Some(p)
                        && RouteSegs(q, r, Reversed(Collect(prev, g, n)))
    decreases n, 0
  {
    WalkFacts(q, dist, prev, g);
    assert Alive(prev, g, 0);
    var m := n - 1;
    WalkShift(prev, g, p, n, m);
    WalkRoute(q, dist, prev, p, m);
    WalkOn(q, prev, g, p, n, m);
  }

  /**
   * What the walk back needs of the search's books: every recorded state is
   * reached by a ride with its segment recorded, boarded at the origin when
   * it has no parent, and from a recorded parent otherwise.
   */
  ghost predicate Walkable(q: Query, dist: map<Occ, int>, prev: SearchBooks.Prev<Occ>)
  {
    forall s :: s in dist ==> && s in prev && Arrived(q.trains, s) && prev[s].1 == Some(Into(q.trains, s))
                              && match prev[s].0
                                 case None => Boarded(s) in Lookup(q.index, q.from)
                                 case Some(p) => p in dist && StepVia(q, p, Boarded(s))
  }

  /** The books the search returns are walkable. */
  lemma TimedWalkable(q: Query, dist: map<Occ, int>, prev: SearchBooks.Prev<Occ>)
    requires Timed(q, dist, prev) && Parented(q, dist, prev)
    ensures Walkable(q, dist, prev)
  {
  }

  /** What walkable books say about one recorded state and its parent. */
  lemma WalkFacts(q: Query, dist: map<Occ, int>, prev: SearchBooks.Prev<Occ>, g: Occ)
    requires Walkable(q, dist, prev) && g in dist
    ensures g in prev && Arrived(q.trains, g) && prev[g].1 == Some(Into(q.trains, g))
    ensures prev[g].0.None? ==> Boarded(g) in Lookup(q.index, q.from)
    ensures prev[g].0.Some? ==> prev[g].0.value in dist && prev[g].0.value in prev && StepVia(q, prev[g].0.value, Boarded(g))
  {
  }

  /** A seed's walk back stops after one pass, at the one ride from the origin. */
  lemma WalkSeed(q: Query, prev: SearchBooks.Prev<Occ>, g: Occ, n: nat)
    requires g in prev && Arrived(q.trains, g) && prev[g] == (None, Some(Into(q.trains, g)))
    requires Boarded(g) in Lookup(q.index, q.from)
    requires (forall k: nat :: k < n ==> Alive(prev, g, k)) && !Alive(prev, g, n)
    ensures exists r :: IsRoute(q, r) && EndState(r) == g && RouteParent(r) == None
                        && RouteSegs(q, r, Reversed(Collect(prev, g, n)))
  {
    assert Alive(prev, g, 0) && !Alive(prev, g, 1);
    assert n == 1;
    assert Reversed(Collect(prev, g, n)) == [Into(q.trains, g)];
    var r := [Boarded(g)];
    assert IsRoute(q, r) && EndState(r) == g && RouteSegs(q, r, [Into(q.trains, g)]);
  }

  /** The walk from a state with a parent is, but for its first pass, the walk from the parent. */
  lemma WalkShift(prev: SearchBooks.Prev<Occ>, g: Occ, p: Occ, n: nat, m: nat)
    requires g in prev && prev[g].0 == Some(p) && n == m + 1
    requires (forall k: nat :: k < n ==> Alive(prev, g, k)) && !Alive(prev, g, n)
    ensures (forall k: nat :: k < m ==> Alive(prev, p, k)) && !Alive(prev, p, m)
  {
    forall k: nat | k < m ensures Alive(prev, p, k) {
      WalkFromParent(prev, g, p, k);
      assert Alive(prev, g, k + 1);
    }
    WalkFromParent(prev, g, p, m);
  }

  /** A route to the parent, with the ride into the state appended, is a route to the state. */
  lemma WalkOn(q: Query, prev: SearchBooks.Prev<Occ>, g: Occ, p: Occ, n: nat, m: nat)
    requires g in prev && Arrived(q.trains, g) && prev[g] == (Some(p), Some(Into(q.trains, g))) && StepVia(q, p, Boarded(g))
    requires n == m + 1 && exists r :: IsRoute(q, r) && EndState(r) == p && RouteSegs(q, r, Reversed(Collect(prev, p, m)))
    ensures exists r' :: IsRoute(q, r') && EndState(r') == g && RouteParent(r') == Some(p)
                         && RouteSegs(q, r', Reversed(Collect(prev, g, n)))
  {
    var r :| IsRoute(q, r) && EndState(r) == p && RouteSegs(q, r, Reversed(Collect(prev, p, m)));
    var o := Boarded(g);
    WalkFromParent(prev, g, p, m);
    assert Collect(prev, g, n) == [Into(q.trains, g)] + Collect(prev, p, m);
    RouteSnoc(q, r, o);
    RouteSegsSnoc(q, r, Reversed(Collect(prev, p, m)), o);
    ReversedCons(Into(q.trains, g), Collect(prev, p, m));
    assert Next(o) == g;
    assert IsRoute(q, r + [o]) && EndState(r + [o]) == g && RouteParent(r + [o]) == Some(p);
  }

  /** A route to a stop at the destination, with its elapsed time, and its rendered segments make an arrival answer. */
  lemma ClockAnswer(q: Query, o: Occ, d: int, route: seq<Occ>, segs: seq<Segment>, conn: string)
    requires ArrivedBy(q, o, d, route, segs) && conn == Render(Merged(segs))
    ensures ArrivalAnswer(q, Ok(Answer(conn, Clock(DurationText(d)))))
  {
  }

  /**
   * `dijkstra_arrivaltime` as the `arrivaltime` branch uses it: what its
   * books say about the goal it returns, and no route when there is none.
   */
  method ArrivalGoal(q: Query) returns (prev: SearchBooks.Prev<Occ>, dist: map<Occ, int>, goal: Option<Occ>)
    requires IndexValid(q.trains, q.index)
    ensures goal.Some? ==> var g := goal.value;
              && g in dist && g in prev && Arrived(q.trains, g) && prev[g].1 == Some(Into(q.trains, g))
              && (dist[g] + q.startTs == RawArr(q.trains, g) || dist[g] + q.startTs == RawArr(q.trains, g) + DAY)
              && Boarding(q, g, dist[g] + q.startTs, prev[g].0)
              && StationAt(q.trains, g) == q.to && Reachable(q, g) && Timed(q, dist, prev) && Parented(q, dist, prev)
    ensures goal.None? ==> NoRoute(q)
  {
    prev, dist, goal := DijkstraArrivalTime(q.trains, q.index, q.from, q.to, q.startTs, q.change);
  }

  /** `arrivaltime` (solver.py:87-115), for a start instant already parsed, in seconds. */
  method SolveArrival(trains: map<TrainId, seq<Stop>>, index: StationIndex, from: Station, to: Station,
                      startTs: int, change: int) returns (r: Result<Answer, string>)
    requires IndexValid(trains, index)
    ensures ArrivalAnswer(Query(trains, index, from, to, startTs, change), r)
  {
    var q := Query(trains, index, from, to, startTs, change);
    var prev, dist, goal := ArrivalGoal(q);
    if goal.None? {
      return Ok(Answer("", Infinite));
    }
    var g := goal.value;
    ReachedRoute(q, g);
    var path := ReconstructPath(prev, g, map[]);
    if path.None? {
      return Err("the predecessor walk does not end");
    }
    var d := dist[g];
    ghost var n :| (forall k: nat :: k < n ==> Alive(prev, g, k)) && !Alive(prev, g, n)
                   && path.value == Reversed(Collect(prev, g, n));
    TimedWalkable(q, dist, prev);
    WalkRoute(q, dist, prev, g, n);
    ghost var route :| IsRoute(q, route) && EndState(route) == g && RouteParent(route) == prev[g].0
                       && RouteSegs(q, route, path.value);
    var conn := BuildConnectionString(path.value);
    ClockAnswer(q, g, d, route, path.value, conn);
    r := Ok(Answer(conn, Clock(DurationText(d))));
  }

  // ---------------------------------------------------------------------
  // The problem row and the cost as written out
  // ---------------------------------------------------------------------

  /** The fields of a problem row, as read from the file. */
  datatype Problem = Problem(fromStation: string, toStation: string, schedule: string, changeTime: string, costFunction: string)

  /** `int(problem["ChangeTime"]) * 60`: minutes to seconds. */
  function ChangeSeconds(raw: string): (r: Option<int>)
    ensures r.Some? <==> ParseInt(raw).Some?
    ensures r.Some? ==> r.value == ParseInt(raw).value * 60
  {
    match ParseInt(raw)
    case None => None
    case Some(m) => Some(m * 60)
  }

  /** A change time written as a whole number of minutes is that many minutes in seconds. */
  lemma ChangeSecondsOf(m: int)
    ensures ChangeSeconds(IntToString(m)) == Some(m * 60)
  {
    IntToStringRoundTrip(m);
  }

  /**
   * `parts = raw_cf.strip().split()`: the metric name and the optional
   * second word; `None` when there is no word at all (`parts[0]` raises).
   */
  function ParseCostFunction(raw: string): (r: Option<(string, Option<string>)>)
  {
    Leading(Words(Strip(raw)))
  }

  /** `parts[0]` and, when there is one, `parts[1]`. */
  function Leading(parts: seq<string>): (r: Option<(string, Option<string>)>)
    ensures r.None? <==> parts == []
  {
    if |parts| == 0 then None
    else Some((parts[0], if |parts| > 1 then Some(parts[1]) else None))
  }

  /** A name alone is a metric without a time. */
  lemma ParseCostFunctionName(name: string)
    requires IsWord(name)
    ensures ParseCostFunction(name) == Some((name, None))
  {
    NoSpaceStrip(name);
    SingleWord(name);
    assert Leading([name]) == Some((name, None));
  }

  lemma SingleWord(w: string)
    requires IsWord(w)
    ensures Words(w) == [w]
  {
    WordsCons(w, []);
    assert w + [] == w;
  }

  /** A name, a space and a time give the metric and its time. */
  lemma ParseCostFunctionPair(name: string, time: string)
    requires IsWord(name) && IsWord(time)
    ensures ParseCostFunction(name + " " + time) == Some((name, Some(time)))
  {
    var s := name + " " + time;
    PairStrip(name, time);
    PairWords(name, time);
    Regroup(name, " ", time);
    ParsedPair(s, name, time);
  }

  lemma Regroup(a: string, b: string, c: string)
    ensures a + b + c == a + (b + c)
  {
  }

  lemma ParsedPair(raw: string, name: string, time: string)
    requires Words(Strip(raw)) == [name] + [time]
    ensures ParseCostFunction(raw) == Some((name, Some(time)))
  {
    var ws := [name] + [time];
    assert Leading(ws) == Some((name, Some(time)));
  }

  lemma PairStrip(name: string, time: string)
    requires IsWord(name) && IsWord(time)
    ensures Strip(name + " " + time) == name + " " + time
  {
    var s := name + " " + time;
    assert s[0] == name[0] && s[|s| - 1] == time[|time| - 1];
    NoSpaceStrip(s);
  }

  lemma PairWords(name: string, time: string)
    requires IsWord(name) && IsWord(time)
    ensures Words(name + (" " + time)) == [name] + [time]
  {
    var rest := " " + time;
    SpacedWord(time);
    ConsSpaced(name, rest);
    PairWordsJoin(name, time, rest, name + rest);
  }

  lemma ConsSpaced(name: string, rest: string)
    requires IsWord(name) && rest != [] && rest[0] == ' '
    ensures Words(name + rest) == [name] + Words(rest)
  {
    WordsCons(name, rest);
  }

  lemma PairWordsJoin(name: string, time: string, rest: string, s: string)
    requires Words(rest) == [time] && Words(s) == [name] + Words(rest)
    ensures Words(s) == [name] + [time]
  {
  }

  lemma SpacedWord(time: string)
    requires IsWord(time)
    ensures Words(" " + time) == [time]
  {
    SingleWord(time);
    WordsAfterSpace(time);
  }

  /** The empty and all-blank cost functions have no metric name. */
  lemma ParseCostFunctionBlank(raw: string)
    requires forall k :: 0 <= k < |raw| ==> IsSpace(raw[k])
    ensures ParseCostFunction(raw).None?
  {
    assert Strip(raw) == [];
  }

  /**
   * The cost column (solver.py:162-167): a number as its integer text,
   * infinity as `inf`, the arrival-time text as it is.
   */
  function CostText(c: Cost): (t: string)
  {
    match c
    case Number(n) => IntToString(n)
    case Infinite => "inf"
    case Clock(text) => text
  }

  /** A numeric cost reads back as the same integer; `inf` is no integer. */
  lemma CostTextRoundTrip(c: Cost)
    ensures c.Number? ==> ParseInt(CostText(c)) == Some(c.n)
    ensures c.Infinite? ==> ParseInt(CostText(c)).None?
  {
    if c.Number? {
      IntToStringRoundTrip(c.n);
    } else if c.Infinite? {
      var t := CostText(c);
      assert t[0] == 'i' && t[|t| - 1] == 'f';
      NotNumber(t);
    }
  }

  /** A text that starts with neither blank, sign nor digit, and does not end in a blank, is no integer. */
  lemma NotNumber(t: string)
    requires t != [] && !IsSpace(t[0]) && !IsSpace(t[|t| - 1])
    requires t[0] != '-' && t[0] != '+' && !IsDigit(t[0])
    ensures ParseInt(t).None?
  {
    NoSpaceStrip(t);
    assert !AllDigits(t);
  }

  // ---------------------------------------------------------------------
  // The schedule cache
  // ---------------------------------------------------------------------

  /** The cache entry `{"trains": ..., "station_index": ...}`. */
  datatype Loaded = Loaded(sch: Schedule, index: StationIndex)

  /**
   * A timetable file as `load_schedule` reads it: stop numbers in order and
   * clock times of one day. A dwell may run past midnight.
   */
  ghost predicate Readable(raw: Schedule)
  {
    && WellOrdered(raw)
    && forall t :: t in raw.trains ==> DayTimes(raw.trains[t])
  }

  /** `l` is what `load_schedule` and `build_station_index` make of the file contents `raw`. */
  ghost predicate LoadedFrom(raw: Schedule, l: Loaded)
  {
    && WellOrdered(l.sch) && l.sch.order == raw.order && l.sch.trains.Keys == raw.trains.Keys
    && (forall t :: t in l.sch.trains ==> l.sch.trains[t] == Normalised(raw.trains[t]))
    && IsIndexOf(l.index, l.sch)
  }

  /**
   * `trains_cache` of `solve_problems` with `_get_schedule`
   * (solver.py:15-21). Reading and parsing a file is the function `read`.
   */
  class ScheduleCache {
    const read: string -> Schedule
    var entries: map<string, Loaded>
    /** The number of files read so far. */
    ghost var loads: nat

    ghost predicate Valid()
      reads this
    {
      && (forall n :: Readable(read(n)))
      && forall n :: n in entries ==> LoadedFrom(read(n), entries[n])
    }

    constructor(read: string -> Schedule)
      requires forall n :: Readable(read(n))
      ensures Valid() && this.read == read && entries == map[] && loads == 0
    {
      this.read := read;
      entries := map[];
      loads := 0;
    }

    /**
     * `_get_schedule(trains_cache, name)`: the file is read, normalised and
     * indexed on the first request only; later requests return the entry.
     */
    method Get(name: string) returns (l: Loaded)
      requires Valid()
      modifies this
      ensures Valid() && name in entries && l == entries[name] && LoadedFrom(read(name), l)
      ensures entries == old(entries)[name := l]
      ensures name in old(entries) ==> l == old(entries)[name] && loads == old(loads)
      ensures name !in old(entries) ==> loads == old(loads) + 1
    {
      if name in entries {
        l := entries[name];
        assert entries == entries[name := l];
        return;
      }
      var raw := read(name);
      var sch := NormaliseSchedule(raw);
      var index := BuildStationIndex(sch);
      l := Loaded(sch, index);
      entries := entries[name := l];
      loads := loads + 1;
    }
  }

  /**
   * A loaded timetable has a valid station index, and its rides run
   * forward when no dwell of the file runs past midnight.
   */
  lemma LoadedFit(raw: Schedule, l: Loaded)
    requires Readable(raw) && LoadedFrom(raw, l)
    ensures IndexValid(l.sch.trains, l.index)
    ensures (forall t :: t in raw.trains ==> SameDayDwells(raw.trains[t])) ==> RidesForward(l.sch.trains)
  {
    IndexOfValid(l.sch, l.index);
    if forall t :: t in raw.trains ==> SameDayDwells(raw.trains[t]) {
      NormalisedRidesForward(raw.trains, l.sch.trains);
    }
  }

  // ---------------------------------------------------------------------
  // _solve_single
  // ---------------------------------------------------------------------

  /** What `_solve_single` answers for metric `name` with time `target`, on the schedule loaded as `l`. */
  ghost predicate Dispatched(l: Loaded, from: Station, to: Station, name: string, target: Option<string>, change: int,
                             r: Result<Answer, string>)
    requires WellOrdered(l.sch)
  {
    var trains, index := l.sch.trains, l.index;
    if name == "stops" then r.Ok? && SearchAnswer(ScheduleStops(l.sch), [from], StopsGoal(to), r.value)
    else if name == "timeintrain" then
      if RidesForward(trains) then r.Ok? && SearchAnswer(TimeGraph(trains, index), Lookup(index, from), TimeGoal(index, to), r.value)
      else r.Err?
    else if name == "arrivaltime" then
      if target.None? || ParseHhmmss(target.value).None? then r.Err?
      else ArrivalAnswer(Query(trains, index, from, to, ParseHhmmss(target.value).value, change), r)
    else if name == "price" then r.Ok? && SearchAnswer(PriceGraph(trains, index), Freshen(Lookup(index, from)), PriceGoal(index, to), r.value)
    else r.Err?
  }

  /**
   * The dispatch on the metric name (solver.py:42-145). `timeintrain` on a
   * timetable with a ride that arrives before it departs is an error here:
   * `dijkstra` needs edges of cost at least 0.
   */
  method Dispatch(l: Loaded, from: Station, to: Station, name: string, target: Option<string>, change: int)
    returns (r: Result<Answer, string>)
    requires WellOrdered(l.sch) && IndexValid(l.sch.trains, l.index)
    ensures Dispatched(l, from, to, name, target, change, r)
  {
    if name == "stops" {
      var a := SolveStops(l.sch, from, to);
      r := Ok(a);
    } else if name == "timeintrain" {
      if !RidesForward(l.sch.trains) {
        return Err("a ride arrives before it departs");
      }
      var a := SolveTimeInTrain(l.sch.trains, l.index, from, to);
      r := Ok(a);
    } else if name == "arrivaltime" {
      if target.None? {
        return Err("arrivaltime requires a start time");
      }
      var start := ParseHhmmss(target.value);
      if start.None? {
        return Err("the start time is not HH:MM:SS");
      }
      r := SolveArrival(l.sch.trains, l.index, from, to, start.value, change);
    } else if name == "price" {
      var a := SolvePrice(l.sch.trains, l.index, from, to);
      r := Ok(a);
    } else {
      r := Err("Unknown cost function " + name);
    }
  }

  /**
   * `_solve_single(problem, trains_cache)` (solver.py:24-145). A change
   * time that is not an integer and an empty cost function fail before
   * the schedule is fetched; the schedule is fetched before the metric
   * is looked at.
   */
  method SolveSingle(p: Problem, cache: ScheduleCache) returns (r: Result<Answer, string>)
    requires cache.Valid()
    modifies cache
    ensures cache.Valid()
    ensures ChangeSeconds(p.changeTime).None? || ParseCostFunction(p.costFunction).None? ==> r.Err? && cache.entries == old(cache.entries)
    ensures ChangeSeconds(p.changeTime).Some? && ParseCostFunction(p.costFunction).Some? ==>
              var name := Strip(p.schedule);
              var (metric, target) := ParseCostFunction(p.costFunction).value;
              && name in cache.entries
              && cache.entries == old(cache.entries)[name := cache.entries[name]]
              && LoadedFrom(cache.read(name), cache.entries[name])
              && Dispatched(cache.entries[name], Strip(p.fromStation), Strip(p.toStation), metric, target,
                            ChangeSeconds(p.changeTime).value, r)
  {
    var from := Strip(p.fromStation);
    var to := Strip(p.toStation);
    var scheduleName := Strip(p.schedule);
    var change := ChangeSeconds(p.changeTime);
    if change.None? {
      return Err("ChangeTime is not an integer");
    }
    var parsed := ParseCostFunction(p.costFunction);
    if parsed.None? {
      return Err("empty cost function");
    }
    var (name, target) := parsed.value;
    var l := cache.Get(scheduleName);
    assert cache.entries[scheduleName] == l;
    LoadedFit(cache.read(scheduleName), l);
    r := Dispatch(l, from, to, name, target, change.value);
  }
}
