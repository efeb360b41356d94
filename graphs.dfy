/**
 * The three graph builders of `graph_builder.py`: the station graph of the
 * `stops` metric, and the successor functions, start states and goal states
 * of the `timeintrain` and `price` metrics. Also the super source the solver
 * puts in front of a search with several start states.
 */
module Graphs {
  import opened Wrappers
  import opened Timetable
  import opened Paths

  // ---------------------------------------------------------------------
  // `stops`: stations joined by every train segment
  // ---------------------------------------------------------------------

  /** `adj`: station -> the edges leaving it, in the order they were added. */
  type Adjacency = map<Station, seq<Edge<Station>>>

  /** The number of consecutive stop pairs, `range(len(stops) - 1)`. */
  function Pairs(stops: seq<Stop>): nat
  {
    if |stops| == 0 then 0 else |stops| - 1
  }

  /** The edge of the pair `(i, i + 1)`: to the next station, cost 1, labelled by the train and the two islnos. */
  function RideEdge(t: TrainId, stops: seq<Stop>, i: nat): Edge<Station>
    requires i + 1 < |stops|
  {
    Edge(stops[i + 1].station, 1, Some(Segment(t, stops[i].islno, stops[i + 1].islno)))
  }

  /** The edges leaving station `a` among the first `k` pairs of train `t`, in order. */
  function TrainEdges(t: TrainId, stops: seq<Stop>, a: Station, k: nat): seq<Edge<Station>>
    requires k <= Pairs(stops)
  {
    if k == 0 then []
    else TrainEdges(t, stops, a, k - 1) + (if stops[k - 1].station == a then [RideEdge(t, stops, k - 1)] else [])
  }

  /** The edges leaving station `a` over the trains `ids`, train after train. */
  function AllEdges(trains: map<TrainId, seq<Stop>>, ids: seq<TrainId>, a: Station): seq<Edge<Station>>
    requires forall t :: t in ids ==> t in trains
  {
    if |ids| == 0 then []
    else
      var t := ids[|ids| - 1];
      AllEdges(trains, ids[..|ids| - 1], a) + TrainEdges(t, trains[t], a, Pairs(trains[t]))
  }

  /** `graph(node)`: `adj.get(node, [])`. */
  function StopsSucc(adj: Adjacency, a: Station): seq<Edge<Station>>
  {
    if a in adj then adj[a] else []
  }

  /** `adj` is the adjacency of `sch`, and has a key exactly for the stations some segment leaves. */
  ghost predicate IsAdjacencyOf(adj: Adjacency, sch: Schedule)
    requires WellOrdered(sch)
  {
    forall a :: StopsSucc(adj, a) == AllEdges(sch.trains, sch.order, a) && (a in adj <==> StopsSucc(adj, a) != [])
  }

  /** The nested loops of `build_graph_stops` (graph_builder.py:21-39). */
  method BuildStopsAdjacency(sch: Schedule) returns (adj: Adjacency)
    requires WellOrdered(sch)
    ensures IsAdjacencyOf(adj, sch)
  {
    adj := map[];
    var k := 0;
    while k < |sch.order|
      invariant 0 <= k <= |sch.order|
      invariant forall a :: StopsSucc(adj, a) == AllEdges(sch.trains, sch.order[..k], a)
      invariant forall a :: a in adj <==> StopsSucc(adj, a) != []
    {
      var t := sch.order[k];
      adj := AddTrainEdges(adj, t, sch.trains[t]);
      forall a ensures StopsSucc(adj, a) == AllEdges(sch.trains, sch.order[..k + 1], a) {
        AllEdgesSnoc(sch.trains, sch.order, k, a);
      }
      k := k + 1;
    }
    assert sch.order[..k] == sch.order;
  }

  /** The inner loop: one edge per consecutive stop pair of train `t`, appended under its first station. */
  method AddTrainEdges(adj0: Adjacency, t: TrainId, stops: seq<Stop>) returns (adj: Adjacency)
    requires forall a :: a in adj0 <==> StopsSucc(adj0, a) != []
    ensures forall a :: StopsSucc(adj, a) == StopsSucc(adj0, a) + TrainEdges(t, stops, a, Pairs(stops))
    ensures forall a :: a in adj <==> StopsSucc(adj, a) != []
  {
    adj := adj0;
    var i := 0;
    while i < Pairs(stops)
      invariant 0 <= i <= Pairs(stops)
      invariant forall a :: StopsSucc(adj, a) == StopsSucc(adj0, a) + TrainEdges(t, stops, a, i)
      invariant forall a :: a in adj <==> StopsSucc(adj, a) != []
    {
      var a := stops[i].station;
      var b := stops[i + 1].station;
      ghost var before := adj;
      var list := if a in adj then adj[a] else [];
      adj := adj[a := list + [Edge(b, 1, Some(Segment(t, stops[i].islno, stops[i + 1].islno)))]];
      var next := i + 1;
      AddStep(adj0, before, adj, t, stops, i, next);
      i := next;
    }
  }

  /** One turn of the inner loop keeps its invariant. */
  lemma AddStep(adj0: Adjacency, before: Adjacency, adj: Adjacency, t: TrainId, stops: seq<Stop>, i: nat, next: nat)
    requires i < Pairs(stops) && next == i + 1
    requires forall s :: StopsSucc(before, s) == StopsSucc(adj0, s) + TrainEdges(t, stops, s, i)
    requires forall s :: s in before <==> StopsSucc(before, s) != []
    requires adj == before[stops[i].station := StopsSucc(before, stops[i].station) + [RideEdge(t, stops, i)]]
    ensures forall s :: StopsSucc(adj, s) == StopsSucc(adj0, s) + TrainEdges(t, stops, s, next)
    ensures forall s :: s in adj <==> StopsSucc(adj, s) != []
  {
    var a := stops[i].station;
    var e := RideEdge(t, stops, i);
    Appended(before, a, e);
    forall s ensures StopsSucc(adj, s) == StopsSucc(adj0, s) + TrainEdges(t, stops, s, next) {
      TrainEdgesSnoc(t, stops, s, i, next);
      AppendAt(StopsSucc(adj0, s), StopsSucc(before, s), StopsSucc(adj, s),
               TrainEdges(t, stops, s, i), TrainEdges(t, stops, s, next), s == a, e);
    }
  }

  lemma AppendAt<T>(x: seq<T>, before: seq<T>, after: seq<T>, y: seq<T>, y': seq<T>, hit: bool, e: T)
    requires before == x + y && after == (if hit then before + [e] else before)
    requires y' == (if hit then y + [e] else y)
    ensures after == x + y'
  {
    if hit {
      SeqAssoc(x, y, [e]);
    }
  }

  /** Appending `e` under `a` changes only the list of `a`, and leaves `a` a key with a non-empty list. */
  lemma Appended(adj: Adjacency, a: Station, e: Edge<Station>)
    requires forall s :: s in adj <==> StopsSucc(adj, s) != []
    ensures var adj' := adj[a := StopsSucc(adj, a) + [e]];
            && (forall s :: StopsSucc(adj', s) == if s == a then StopsSucc(adj, a) + [e] else StopsSucc(adj, s))
            && (forall s :: s in adj' <==> StopsSucc(adj', s) != [])
  {
  }

  lemma SeqAssoc<T>(x: seq<T>, y: seq<T>, z: seq<T>)
    ensures (x + y) + z == x + (y + z)
  {
  }

  lemma TrainEdgesSnoc(t: TrainId, stops: seq<Stop>, a: Station, i: nat, next: nat)
    requires i < Pairs(stops) && next == i + 1
    ensures TrainEdges(t, stops, a, next) == TrainEdges(t, stops, a, i) + (if stops[i].station == a then [RideEdge(t, stops, i)] else [])
  {
  }

  lemma AllEdgesSnoc(trains: map<TrainId, seq<Stop>>, ids: seq<TrainId>, k: nat, a: Station)
    requires k < |ids| && forall t :: t in ids ==> t in trains
    ensures AllEdges(trains, ids[..k + 1], a) == AllEdges(trains, ids[..k], a) + TrainEdges(ids[k], trains[ids[k]], a, Pairs(trains[ids[k]]))
  {
    assert ids[..k + 1][..k] == ids[..k];
  }

  /** An edge leaves `a` among the first `k` pairs exactly when some pair `i < k` starts at `a` and gives it. */
  lemma {:induction false} TrainEdgesMember(t: TrainId, stops: seq<Stop>, a: Station, k: nat, e: Edge<Station>)
    requires k <= Pairs(stops)
    ensures e in TrainEdges(t, stops, a, k) <==> exists i :: 0 <= i < k && stops[i].station == a && e == RideEdge(t, stops, i)
  {
    if k > 0 {
      TrainEdgesMember(t, stops, a, k - 1, e);
    }
  }

  /** An edge leaves `a` over the trains `ids` exactly when some listed train has a pair starting at `a` that gives it. */
  lemma {:induction false} AllEdgesMember(trains: map<TrainId, seq<Stop>>, ids: seq<TrainId>, a: Station, e: Edge<Station>)
    requires forall t :: t in ids ==> t in trains
    ensures e in AllEdges(trains, ids, a)
            <==> exists t, i :: t in ids && 0 <= i < Pairs(trains[t]) && trains[t][i].station == a && e == RideEdge(t, trains[t], i)
  {
    if |ids| > 0 {
      var init := ids[..|ids| - 1];
      var t := ids[|ids| - 1];
      AllEdgesMember(trains, init, a, e);
      TrainEdgesMember(t, trains[t], a, Pairs(trains[t]), e);
      assert forall u :: u in ids <==> u in init || u == t;
    }
  }

  /**
   * The station graph: an edge leaves station `a` exactly when some train
   * has a consecutive stop pair starting at `a`, and it is that pair's edge,
   * with cost 1 and the pair's label.
   */
  lemma StopsEdges(adj: Adjacency, sch: Schedule, a: Station, e: Edge<Station>)
    requires WellOrdered(sch) && IsAdjacencyOf(adj, sch)
    ensures e in StopsSucc(adj, a)
            <==> exists t, i :: t in sch.trains && 0 <= i < Pairs(sch.trains[t]) && sch.trains[t][i].station == a
                                && e == RideEdge(t, sch.trains[t], i)
  {
    AllEdgesMember(sch.trains, sch.order, a, e);
  }

  /** A station no segment leaves has no successors. */
  lemma StopsDeadEnd(adj: Adjacency, sch: Schedule, a: Station)
    requires WellOrdered(sch) && IsAdjacencyOf(adj, sch)
    requires forall t, i :: t in sch.trains && 0 <= i < Pairs(sch.trains[t]) ==> sch.trains[t][i].station != a
    ensures StopsSucc(adj, a) == [] && a !in adj
  {
    if StopsSucc(adj, a) != [] {
      StopsEdges(adj, sch, a, StopsSucc(adj, a)[0]);
    }
  }

  /** `build_graph_stops`: the station graph, starting at `from` with `to` as the goal. */
  method BuildGraphStops(sch: Schedule, from: Station, to: Station) returns (adj: Adjacency, start: Station, goal: Station)
    requires WellOrdered(sch)
    ensures IsAdjacencyOf(adj, sch) && start == from && goal == to
  {
    adj := BuildStopsAdjacency(sch);
    start, goal := from, to;
  }

  // ---------------------------------------------------------------------
  // Transfers, shared by `timeintrain` and `price`
  // ---------------------------------------------------------------------

  /**
   * `for t2, i2 in station_index[station]: if (t2, i2) == here: continue;
   * res.append((lift(t2, i2), 0, None))`: a free, unlabelled edge to every
   * other listed occurrence, in index order.
   */
  function Transfers<N>(occs: seq<Occ>, here: Occ, lift: Occ -> N): seq<Edge<N>>
  {
    if |occs| == 0 then []
    else
      var o := occs[|occs| - 1];
      Transfers(occs[..|occs| - 1], here, lift) + (if o == here then [] else [Edge(lift(o), 0, None)])
  }

  /** A transfer edge is a free, unlabelled edge to a listed occurrence other than `here`, and each such occurrence gives one. */
  lemma {:induction false} TransfersMember<N>(occs: seq<Occ>, here: Occ, lift: Occ -> N, e: Edge<N>)
    ensures e in Transfers(occs, here, lift) <==> exists o :: o in occs && o != here && e == Edge(lift(o), 0, None)
  {
    if |occs| > 0 {
      var init := occs[..|occs| - 1];
      TransfersMember(init, here, lift, e);
      assert forall o :: o in occs <==> o in init || o == occs[|occs| - 1];
    }
  }

  /** One transfer per listed occurrence, but for the occurrences of `here` itself. */
  lemma {:induction false} TransfersCount<N>(occs: seq<Occ>, here: Occ, lift: Occ -> N)
    ensures |Transfers(occs, here, lift)| + multiset(occs)[here] == |occs|
  {
    if |occs| > 0 {
      var init := occs[..|occs| - 1];
      TransfersCount(init, here, lift);
      assert occs == init + [occs[|occs| - 1]];
      assert multiset(occs) == multiset(init) + multiset{occs[|occs| - 1]};
    }
  }

  // ---------------------------------------------------------------------
  // `timeintrain`: states are occurrences, costs are seconds in the train
  // ---------------------------------------------------------------------

  /**
   * `graph(node)` of `build_graph_timeintrain` (graph_builder.py:53-73):
   * the ride to the next stop of the same train, costing the time from this
   * departure to the next arrival, then the transfers at this station. A node
   * that is not a stop of the timetable has no successors (the source raises
   * KeyError there; no search reaches such a node).
   */
  function TimeSucc(trains: map<TrainId, seq<Stop>>, index: StationIndex, node: Occ): seq<Edge<Occ>>
  {
    if !ValidOcc(trains, node) then []
    else
      var stops := trains[node.train];
      var i := node.idx;
      var ride := if i + 1 < |stops| then [Edge(Occ(node.train, i + 1), stops[i + 1].arr - stops[i].dep,
                                                Some(Segment(node.train, stops[i].islno, stops[i + 1].islno)))]
                  else [];
      ride + Transfers(Lookup(index, stops[i].station), node, o => o)
  }

  /**
   * The edges of a time-in-train state: the only labelled edge is the ride
   * to `(t, idx + 1)`, present exactly when a next stop exists and costing
   * `arr[idx + 1] − dep[idx]`; the unlabelled edges are one free transfer to
   * each other occurrence listed at the station. No edge leads back.
   */
  lemma TimeEdges(trains: map<TrainId, seq<Stop>>, index: StationIndex, node: Occ, e: Edge<Occ>)
    requires ValidOcc(trains, node)
    ensures var stops := trains[node.train];
            var i := node.idx;
            && (e in TimeSucc(trains, index, node) && e.data.Some?
                <==> i + 1 < |stops|
                     && e == Edge(Occ(node.train, i + 1), stops[i + 1].arr - stops[i].dep,
                                  Some(Segment(node.train, stops[i].islno, stops[i + 1].islno))))
            && (e in TimeSucc(trains, index, node) && e.data.None?
                <==> exists o :: o in Lookup(index, stops[i].station) && o != node && e == Edge(o, 0, None))
    ensures e in TimeSucc(trains, index, node) ==> e.to != node
  {
    var stops := trains[node.train];
    TransfersMember(Lookup(index, stops[node.idx].station), node, o => o, e);
  }

  /** `goal_nodes`: the set filled from `station_index[to_station]` (graph_builder.py:76-78). */
  method TimeGoals(index: StationIndex, to: Station) returns (goals: set<Occ>)
    ensures forall o :: o in goals <==> o in Lookup(index, to)
  {
    var occs := Lookup(index, to);
    goals := {};
    var k := 0;
    while k < |occs|
      invariant 0 <= k <= |occs|
      invariant forall o :: o in goals <==> o in occs[..k]
    {
      assert occs[..k + 1] == occs[..k] + [occs[k]];
      goals := goals + {occs[k]};
      k := k + 1;
    }
    assert occs[..k] == occs;
  }

  // ---------------------------------------------------------------------
  // `price`: occurrences with the number of segments paid on this train
  // ---------------------------------------------------------------------

  /** `(train_no, idx, used_segments)`. */
  datatype PState = PState(train: TrainId, idx: nat, used: int)

  /** The state entered at occurrence `o` by a transfer: no segment paid on the new train. */
  function Fresh(o: Occ): PState
  {
    PState(o.train, o.idx, 0)
  }

  /** The occurrence of a price state. */
  function At(s: PState): Occ
  {
    Occ(s.train, s.idx)
  }

  /**
   * `graph(state)` of `build_graph_price` (graph_builder.py:102-138): the
   * ride to the next stop counts one more segment, capped at 10, and costs
   * 1 while fewer than 10 are paid, else 0; a transfer is free and starts the
   * count again at 0. A state off the timetable has no successors.
   */
  function PriceSucc(trains: map<TrainId, seq<Stop>>, index: StationIndex, s: PState): seq<Edge<PState>>
  {
    if !ValidOcc(trains, At(s)) then []
    else
      var stops := trains[s.train];
      var i := s.idx;
      var newUsed := if s.used + 1 > 10 then 10 else s.used + 1;
      var segCost := if s.used < 10 then 1 else 0;
      var ride := if i + 1 < |stops| then [Edge(PState(s.train, i + 1, newUsed), segCost,
                                                Some(Segment(s.train, stops[i].islno, stops[i + 1].islno)))]
                  else [];
      ride + Transfers(Lookup(index, stops[i].station), At(s), Fresh)
  }

  function Min(a: int, b: int): int
  {
    if a <= b then a else b
  }

  /**
   * The edges of a price state: the only labelled edge is the ride to the
   * next stop, present exactly when one exists, with `used' = min(used + 1,
   * 10)` and cost 1 when `used < 10`, else 0; the unlabelled edges are one
   * free transfer per other listed occurrence, with the count back at 0.
   */
  lemma PriceEdges(trains: map<TrainId, seq<Stop>>, index: StationIndex, s: PState, e: Edge<PState>)
    requires ValidOcc(trains, At(s))
    ensures var stops := trains[s.train];
            var i := s.idx;
            && (e in PriceSucc(trains, index, s) && e.data.Some?
                <==> i + 1 < |stops|
                     && e == Edge(PState(s.train, i + 1, Min(s.used + 1, 10)), if s.used < 10 then 1 else 0,
                                  Some(Segment(s.train, stops[i].islno, stops[i + 1].islno))))
            && (e in PriceSucc(trains, index, s) && e.data.None?
                <==> exists o :: o in Lookup(index, stops[i].station) && o != At(s) && e == Edge(Fresh(o), 0, None))
    ensures e in PriceSucc(trains, index, s) ==> At(e.to) != At(s)
  {
    var stops := trains[s.train];
    TransfersMember(Lookup(index, stops[s.idx].station), At(s), Fresh, e);
  }

  /** The segment count stays in `[0, 10]` along every edge. */
  lemma PriceUsedBounded(trains: map<TrainId, seq<Stop>>, index: StationIndex, s: PState, e: Edge<PState>)
    requires 0 <= s.used <= 10 && e in PriceSucc(trains, index, s)
    ensures 0 <= e.to.used <= 10 && 0 <= e.cost <= 1
  {
    PriceEdges(trains, index, s, e);
  }

  /** `start_states`: every occurrence of the origin with no segment paid (graph_builder.py:141-143). */
  method PriceStarts(index: StationIndex, from: Station) returns (starts: seq<PState>)
    ensures var occs := Lookup(index, from);
            |starts| == |occs| && forall j :: 0 <= j < |occs| ==> starts[j] == PState(occs[j].train, occs[j].idx, 0)
  {
    var occs := Lookup(index, from);
    starts := [];
    var k := 0;
    while k < |occs|
      invariant 0 <= k <= |occs| && |starts| == k
      invariant forall j :: 0 <= j < k ==> starts[j] == PState(occs[j].train, occs[j].idx, 0)
    {
      starts := starts + [PState(occs[k].train, occs[k].idx, 0)];
      k := k + 1;
    }
  }

  /** `goal_states`: every occurrence of the destination with every count in `0..10` (graph_builder.py:145-149). */
  method PriceGoals(index: StationIndex, to: Station) returns (goals: set<PState>)
    ensures forall s :: s in goals <==> At(s) in Lookup(index, to) && 0 <= s.used <= 10
  {
    var occs := Lookup(index, to);
    goals := {};
    var k := 0;
    while k < |occs|
      invariant 0 <= k <= |occs|
      invariant forall s :: s in goals <==> At(s) in occs[..k] && 0 <= s.used <= 10
    {
      var o := occs[k];
      ghost var before := goals;
      var used := 0;
      while used < 11
        invariant 0 <= used <= 11
        invariant forall s :: s in goals <==> s in before || (At(s) == o && 0 <= s.used < used)
      {
        goals := goals + {PState(o.train, o.idx, used)};
        used := used + 1;
      }
      assert occs[..k + 1] == occs[..k] + [o];
      k := k + 1;
    }
    assert occs[..k] == occs;
  }

  /** The state after `k` rides on from `s` along its train. */
  function RideEnd(s: PState, k: nat): PState
  {
    if k == 0 then s else var p := RideEnd(s, k - 1); PState(p.train, p.idx + 1, if p.used + 1 > 10 then 10 else p.used + 1)
  }

  /** The path of `k` rides on from `s` along its train. */
  function Ride(trains: map<TrainId, seq<Stop>>, index: StationIndex, s: PState, k: nat): seq<Edge<PState>>
    requires ValidOcc(trains, At(s)) && s.idx + k < |trains[s.train]|
  {
    if k == 0 then []
    else
      var p := RideEnd(s, k - 1);
      assert p.train == s.train && p.idx == s.idx + k - 1 by { RideEndAt(s, k - 1); }
      Ride(trains, index, s, k - 1) + [PriceSucc(trains, index, p)[0]]
  }

  lemma {:induction false} RideEndAt(s: PState, k: nat)
    ensures RideEnd(s, k).train == s.train && RideEnd(s, k).idx == s.idx + k
    ensures 0 <= s.used <= 10 ==> RideEnd(s, k).used == Min(s.used + k, 10)
  {
    if k > 0 {
      RideEndAt(s, k - 1);
    }
  }

  /** The ride out of a price state that has a next stop is its first edge. */
  lemma PriceRideEdge(trains: map<TrainId, seq<Stop>>, index: StationIndex, x: PState)
    requires ValidOcc(trains, At(x)) && x.idx + 1 < |trains[x.train]|
    ensures |PriceSucc(trains, index, x)| > 0
    ensures var e := PriceSucc(trains, index, x)[0];
            e.to == PState(x.train, x.idx + 1, Min(x.used + 1, 10)) && e.cost == (if x.used < 10 then 1 else 0)
  {
  }

  lemma RideShift(trains: map<TrainId, seq<Stop>>, index: StationIndex, s: PState, k: nat, j: nat)
    requires ValidOcc(trains, At(s)) && s.idx + k < |trains[s.train]| && k > 0 && j == k - 1
    ensures |PriceSucc(trains, index, RideEnd(s, j))| > 0
    ensures Ride(trains, index, s, k) == Ride(trains, index, s, j) + [PriceSucc(trains, index, RideEnd(s, j))[0]]
    ensures RideEnd(s, k) == PState(s.train, RideEnd(s, j).idx + 1, Min(RideEnd(s, j).used + 1, 10))
  {
    RideEndAt(s, j);
    PriceRideEdge(trains, index, RideEnd(s, j));
  }

  /**
   * Riding `k` segments on one train from a state that has paid `used` of
   * them is a path of the price graph costing `min(k, 10 − used)`: a train
   * ticket caps the price of a ride at 10.
   */
  lemma {:induction false} RideCost(trains: map<TrainId, seq<Stop>>, index: StationIndex, s: PState, k: nat)
    requires ValidOcc(trains, At(s)) && s.idx + k < |trains[s.train]| && 0 <= s.used <= 10
    ensures var p := Ride(trains, index, s, k);
            && IsPath(PriceGraph(trains, index), s, p) && End(s, p) == RideEnd(s, k)
            && PathCost(p) == Min(k, 10 - s.used)
  {
    if k > 0 {
      var j := k - 1;
      RideCost(trains, index, s, j);
      RideStep(trains, index, s, k, j);
    }
  }

  /** One more segment extends the ride path by its edge, and the price by 1 until 10 are paid. */
  lemma RideStep(trains: map<TrainId, seq<Stop>>, index: StationIndex, s: PState, k: nat, j: nat)
    requires ValidOcc(trains, At(s)) && s.idx + k < |trains[s.train]| && 0 <= s.used <= 10 && k > 0 && j == k - 1
    requires var q := Ride(trains, index, s, j);
             IsPath(PriceGraph(trains, index), s, q) && End(s, q) == RideEnd(s, j) && PathCost(q) == Min(j, 10 - s.used)
    ensures var p := Ride(trains, index, s, k);
            && IsPath(PriceGraph(trains, index), s, p) && End(s, p) == RideEnd(s, k)
            && PathCost(p) == Min(k, 10 - s.used)
  {
    var q := Ride(trains, index, s, j);
    var x := RideEnd(s, j);
    RideEndAt(s, j);
    PriceRideEdge(trains, index, x);
    var e := PriceSucc(trains, index, x)[0];
    RideShift(trains, index, s, k, j);
    PathSnoc(PriceGraph(trains, index), s, q, e);
    CapStep(s.used, j, x.used, k);
  }

  lemma CapStep(used: int, j: nat, now: int, k: nat)
    requires 0 <= used <= 10 && now == Min(used + j, 10) && k == j + 1
    ensures Min(j, 10 - used) + (if now < 10 then 1 else 0) == Min(k, 10 - used)
  {
  }

  /** Fifteen segments on one train cost a single train ticket, 10. */
  lemma FifteenSegments(trains: map<TrainId, seq<Stop>>, index: StationIndex, t: TrainId)
    requires t in trains && |trains[t]| >= 16
    ensures PathCost(Ride(trains, index, PState(t, 0, 0), 15)) == 10
  {
    RideCost(trains, index, PState(t, 0, 0), 15);
  }

  // ---------------------------------------------------------------------
  // The super source of `_solve_single`
  // ---------------------------------------------------------------------

  /** The node `("SOURCE",)` in front of the real states. */
  datatype Wrapped<N> = Source | Node(n: N)

  function Lift<N>(e: Edge<N>): Edge<Wrapped<N>>
  {
    Edge(Node(e.to), e.cost, e.data)
  }

  function LiftAll<N>(es: seq<Edge<N>>): (r: seq<Edge<Wrapped<N>>>)
    ensures |r| == |es| && forall i :: 0 <= i < |es| ==> r[i] == Lift(es[i])
  {
    if es == [] then [] else LiftAll(es[..|es| - 1]) + [Lift(es[|es| - 1])]
  }

  /** The free, unlabelled edges from the super source to the start states. */
  function StartEdges<N>(starts: seq<N>): (r: seq<Edge<Wrapped<N>>>)
    ensures |r| == |starts| && forall i :: 0 <= i < |starts| ==> r[i] == Edge(Node(starts[i]), 0, None)
  {
    if starts == [] then [] else StartEdges(starts[..|starts| - 1]) + [Edge(Node(starts[|starts| - 1]), 0, None)]
  }

  /** `graph_wrap(node)`: the start edges at the super source, the graph's own edges elsewhere. */
  function WrapSucc<N>(succ: N -> seq<Edge<N>>, starts: seq<N>, w: Wrapped<N>): seq<Edge<Wrapped<N>>>
  {
    if w.Source? then StartEdges(starts) else LiftAll(succ(w.n))
  }

  /** `graph_wrap` as a successor function. */
  function WrapGraph<N>(succ: N -> seq<Edge<N>>, starts: seq<N>): Wrapped<N> -> seq<Edge<Wrapped<N>>>
  {
    w => WrapSucc(succ, starts, w)
  }

  /** The path through the super source for path `p` of the graph from start `s`. */
  function ThroughSource<N>(s: N, p: seq<Edge<N>>): seq<Edge<Wrapped<N>>>
  {
    [Edge(Node(s), 0, None)] + LiftAll(p)
  }

  lemma ThroughSourceSnoc<N>(s: N, p: seq<Edge<N>>, e: Edge<N>)
    ensures ThroughSource(s, p + [e]) == ThroughSource(s, p) + [Lift(e)]
  {
    assert (p + [e])[..|p|] == p;
    assert LiftAll(p + [e]) == LiftAll(p) + [Lift(e)];
  }

  /** The detour through the super source costs nothing, carries no data and ends where the path ends. */
  lemma {:induction false} ThroughSourceKeeps<N>(s: N, p: seq<Edge<N>>)
    ensures End(Source, ThroughSource(s, p)) == Node(End(s, p))
    ensures PathCost(ThroughSource(s, p)) == PathCost(p) && PathData(ThroughSource(s, p)) == PathData(p)
  {
    var q := ThroughSource(s, p);
    if p == [] {
      assert q == [Edge(Node(s), 0, None)];
      assert q[..0] == [];
    } else {
      var init := p[..|p| - 1];
      var e := p[|p| - 1];
      assert p == init + [e];
      ThroughSourceKeeps(s, init);
      ThroughSourceSnoc(s, init, e);
      var r := ThroughSource(s, init);
      assert q == r + [Lift(e)];
      assert q[..|q| - 1] == r;
      PathDataSnoc(r, Lift(e));
    }
  }

  /** The lifted copy of an edge offered at a node is offered at the wrapped node. */
  lemma LiftOffered<N>(succ: N -> seq<Edge<N>>, starts: seq<N>, n: N, e: Edge<N>)
    requires e in succ(n)
    ensures Lift(e) in WrapGraph(succ, starts)(Node(n))
  {
    var k :| 0 <= k < |succ(n)| && succ(n)[k] == e;
    assert LiftAll(succ(n))[k] == Lift(e);
  }

  /** Every path of the graph from a start state is, behind the free start edge, a path of `graph_wrap` from the super source. */
  lemma {:induction false} LiftPath<N(!new)>(succ: N -> seq<Edge<N>>, starts: seq<N>, s: N, p: seq<Edge<N>>)
    requires s in starts && IsPath(succ, s, p)
    ensures IsPath(WrapGraph(succ, starts), Source, ThroughSource(s, p))
  {
    var w := WrapGraph(succ, starts);
    if p == [] {
      var i :| 0 <= i < |starts| && starts[i] == s;
      assert StartEdges(starts)[i] == Edge(Node(s), 0, None);
      assert Step(w, Source, ThroughSource(s, p), 0);
    } else {
      var j := |p| - 1;
      var init := p[..j];
      var e := p[j];
      PathPrefix(succ, s, p, j);
      assert Step(succ, s, p, j);
      LiftPath(succ, starts, s, init);
      ThroughSourceKeeps(s, init);
      LiftOffered(succ, starts, End(s, init), e);
      PathSnoc(w, Source, ThroughSource(s, init), Lift(e));
      ThroughSourceSnoc(s, init, e);
      assert init + [e] == p;
    }
  }

  /** Conversely, every non-empty path from the super source is a start edge followed by a lifted path of the graph from that start. */
  lemma {:induction false} UnwrapPath<N(!new)>(succ: N -> seq<Edge<N>>, starts: seq<N>, q: seq<Edge<Wrapped<N>>>)
    requires IsPath(WrapGraph(succ, starts), Source, q) && q != []
    ensures exists s, p :: s in starts && IsPath(succ, s, p) && q == ThroughSource(s, p)
  {
    var w := WrapGraph(succ, starts);
    var j := |q| - 1;
    assert Step(w, Source, q, j);
    if j == 0 {
      assert Step(w, Source, q, 0);
      var i :| 0 <= i < |starts| && StartEdges(starts)[i] == q[0];
      var s := starts[i];
      assert IsPath(succ, s, []);
      assert q == ThroughSource(s, []);
    } else {
      var init := q[..j];
      PathPrefix(w, Source, q, j);
      UnwrapPath(succ, starts, init);
      var s, p0 :| s in starts && IsPath(succ, s, p0) && init == ThroughSource(s, p0);
      ThroughSourceKeeps(s, p0);
      var at := End(s, p0);
      assert q[j] in LiftAll(succ(at));
      var k :| 0 <= k < |succ(at)| && LiftAll(succ(at))[k] == q[j];
      var e := succ(at)[k];
      PathSnoc(succ, s, p0, e);
      ThroughSourceSnoc(s, p0, e);
      assert q == init + [q[j]];
    }
  }

  /** The super source and the wrapped copy of every state. */
  ghost function WrapNodes<N(!new)>(nodes: set<N>): set<Wrapped<N>>
  {
    {Source} + set n | n in nodes :: Node(n)
  }

  /** A closed state space that holds the start states stays closed behind the super source. */
  lemma WrapClosed<N(!new)>(succ: N -> seq<Edge<N>>, starts: seq<N>, nodes: set<N>)
    requires Closed(succ, nodes) && forall s :: s in starts ==> s in nodes
    ensures Closed(WrapGraph(succ, starts), WrapNodes(nodes))
  {
    var w := WrapGraph(succ, starts);
    forall x, e | x in WrapNodes(nodes) && e in w(x) ensures e.to in WrapNodes(nodes) && e.cost >= 0 {
      if x.Source? {
        var i :| 0 <= i < |starts| && StartEdges(starts)[i] == e;
      } else {
        var k :| 0 <= k < |succ(x.n)| && LiftAll(succ(x.n))[k] == e;
        assert succ(x.n)[k] in succ(x.n);
      }
    }
  }

  // ---------------------------------------------------------------------
  // The finite state spaces the searches run in
  // ---------------------------------------------------------------------

  /** `graph(node)` of `build_graph_stops` as a successor function. */
  function StopsGraph(adj: Adjacency): Station -> seq<Edge<Station>>
  {
    a => StopsSucc(adj, a)
  }

  /** `graph(node)` of `build_graph_timeintrain` as a successor function. */
  function TimeGraph(trains: map<TrainId, seq<Stop>>, index: StationIndex): Occ -> seq<Edge<Occ>>
  {
    o => TimeSucc(trains, index, o)
  }

  /** `graph(state)` of `build_graph_price` as a successor function. */
  function PriceGraph(trains: map<TrainId, seq<Stop>>, index: StationIndex): PState -> seq<Edge<PState>>
  {
    s => PriceSucc(trains, index, s)
  }

  /** Every station some stop of the timetable is at. */
  ghost function Stations(trains: map<TrainId, seq<Stop>>): set<Station>
  {
    set t, i | t in trains && 0 <= i < |trains[t]| :: trains[t][i].station
  }

  /** The origin and the stations of the timetable are closed under the station graph, at cost 1 per edge. */
  lemma StopsClosed(adj: Adjacency, sch: Schedule, from: Station)
    requires WellOrdered(sch) && IsAdjacencyOf(adj, sch)
    ensures Closed(StopsGraph(adj), {from} + Stations(sch.trains))
  {
    forall a, e | a in {from} + Stations(sch.trains) && e in StopsGraph(adj)(a)
      ensures e.to in {from} + Stations(sch.trains) && e.cost >= 0
    {
      StopsEdges(adj, sch, a, e);
      var t, i :| t in sch.trains && 0 <= i < Pairs(sch.trains[t]) && sch.trains[t][i].station == a
                  && e == RideEdge(t, sch.trains[t], i);
      assert e.to == sch.trains[t][i + 1].station;
    }
  }

  /** Every stop of every train. */
  ghost function AllOccs(trains: map<TrainId, seq<Stop>>): set<Occ>
  {
    set t, i | t in trains && 0 <= i < |trains[t]| :: Occ(t, i)
  }

  /**
   * Each ride arrives at the next stop no earlier than it left the one
   * before, so that every time-in-train edge costs at least 0.
   */
  predicate RidesForward(trains: map<TrainId, seq<Stop>>)
  {
    forall t, i :: t in trains && 0 <= i && i + 1 < |trains[t]| ==> trains[t][i].dep <= trains[t][i + 1].arr
  }

  /**
   * A loaded timetable runs forward when its file holds clock times of one
   * day and no dwell runs past midnight.
   */
  lemma NormalisedRidesForward(raw: map<TrainId, seq<Stop>>, trains: map<TrainId, seq<Stop>>)
    requires forall t :: t in raw ==> DayTimes(raw[t]) && SameDayDwells(raw[t])
    requires trains.Keys == raw.Keys && forall t :: t in trains ==> trains[t] == Normalised(raw[t])
    ensures RidesForward(trains)
  {
    forall t, i | t in trains && 0 <= i && i + 1 < |trains[t]| ensures trains[t][i].dep <= trains[t][i + 1].arr {
      SortedStopsFrom(raw[t]);
      var next := i + 1;
      FixOvernightRidesForward(SortByIslno(raw[t]), next);
    }
  }

  /** The stops of a timetable whose rides run forward are closed under the time-in-train graph. */
  lemma TimeClosed(trains: map<TrainId, seq<Stop>>, index: StationIndex)
    requires IndexValid(trains, index) && RidesForward(trains)
    ensures Closed(TimeGraph(trains, index), AllOccs(trains))
  {
    forall o, e | o in AllOccs(trains) && e in TimeGraph(trains, index)(o) ensures e.to in AllOccs(trains) && e.cost >= 0 {
      TimeEdges(trains, index, o, e);
      if e.data.None? {
        var x :| x in Lookup(index, trains[o.train][o.idx].station) && x != o && e == Edge(x, 0, None);
      }
    }
  }

  /** Every stop of every train with every segment count from 0 to 10. */
  ghost function AllPStates(trains: map<TrainId, seq<Stop>>): set<PState>
  {
    set t, i, u | t in trains && 0 <= i < |trains[t]| && 0 <= u <= 10 :: PState(t, i, u)
  }

  /** The price states of a timetable are closed under the price graph. */
  lemma PriceClosed(trains: map<TrainId, seq<Stop>>, index: StationIndex)
    requires IndexValid(trains, index)
    ensures Closed(PriceGraph(trains, index), AllPStates(trains))
  {
    forall s, e | s in AllPStates(trains) && e in PriceGraph(trains, index)(s)
      ensures e.to in AllPStates(trains) && e.cost >= 0
    {
      PriceEdges(trains, index, s, e);
      if e.data.None? {
        var x :| x in Lookup(index, trains[s.train][s.idx].station) && x != At(s) && e == Edge(Fresh(x), 0, None);
      }
    }
  }
}
