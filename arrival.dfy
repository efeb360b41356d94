/**
 * `dijkstra_arrivaltime` (search.py:46-196): the arrival-time search.
 * A state `Occ(t, i)` means "on train `t` at its stop `i`, having
 * arrived there"; `dist[state]` is the elapsed time since the start instant
 * and `cur[state]` (`cur_abs_time`) the absolute arrival instant.
 *
 * Boarding at a stop waits for the departure rolled forward by whole days
 * (`roll_forward`); the raw arrival of the next stop is pushed by one day
 * (only one) when it falls before that departure. Because of that one-day
 * rule a state's recorded arrival is always its raw arrival or one day
 * after it, which is what bounds the search.
 */
module Arrival {
  import opened Wrappers
  import opened Timetable
  import opened SearchBooks

  // ---------------------------------------------------------------------
  // roll_forward and a single ride
  // ---------------------------------------------------------------------

  /**
   * `roll_forward(base_ts, target_ts)` (search.py:69-73) as its docstring
   * describes it: `target` moved forward in 24-hour steps until it is no
   * earlier than `base`.
   */
  function RollForward(base: int, target: int): (r: int)
    ensures r >= base && r >= target
    ensures (r - target) % DAY == 0
    ensures r == target || r - DAY < base
    decreases base - target
  {
    if target >= base then target else RollForward(base, target + DAY)
  }

  /** No number of whole days that reaches `base` lands before the rolled instant: it is the least one. */
  lemma {:induction false} RollForwardLeast(base: int, target: int, k: nat)
    requires target + k * DAY >= base
    ensures RollForward(base, target) <= target + k * DAY
    decreases base - target
  {
    if target < base {
      RollForwardLeast(base, target + DAY, k - 1);
    }
  }

  /** `roll_forward` as written: its body is only a docstring, so it returns None. */
  function RollForwardAsWritten(base: int, target: int): (r: Option<int>)
    ensures r.None?
  {
    None
  }

  /** `i + 1 < len(stops)`: occurrence `o` has a following stop, so a ride can start there. */
  predicate CanBoard(trains: map<TrainId, seq<Stop>>, o: Occ)
  {
    o.train in trains && o.idx + 1 < |trains[o.train]|
  }

  /** The state `(t, i + 1)` reached by riding on from occurrence `(t, i)`. */
  function Next(o: Occ): Occ
  {
    Occ(o.train, o.idx + 1)
  }

  /** A state reached by a ride: a stop of a known train other than its first. */
  predicate Arrived(trains: map<TrainId, seq<Stop>>, s: Occ)
  {
    s.train in trains && 1 <= s.idx < |trains[s.train]|
  }

  /** The raw (timetable) arrival instant of a stop. */
  function RawArr(trains: map<TrainId, seq<Stop>>, s: Occ): int
    requires ValidOcc(trains, s)
  {
    trains[s.train][s.idx].arr
  }

  /** The segment label `{train, from_islno, to_islno}` of the ride into state `s`. */
  function Into(trains: map<TrainId, seq<Stop>>, s: Occ): Segment
    requires Arrived(trains, s)
  {
    Segment(s.train, trains[s.train][s.idx - 1].islno, trains[s.train][s.idx].islno)
  }

  /** The occurrence a ride into state `s` was boarded at. */
  function Boarded(s: Occ): Occ
    requires s.idx >= 1
  {
    Occ(s.train, s.idx - 1)
  }

  /** One ride: the state it ends in, its absolute arrival and its label. */
  datatype Leg = Leg(to: Occ, arrival: int, seg: Segment)

  /**
   * The ride from occurrence `o`, boarding no earlier than `ready`
   * (search.py:92-103, 142-152, 173-184): the departure is rolled forward to
   * `ready`, and the raw arrival is pushed by one day when it falls before
   * that departure. It ends in the next stop's state, at that stop's raw
   * arrival or one day later, labelled with the segment into that state.
   */
  function RideFrom(trains: map<TrainId, seq<Stop>>, o: Occ, ready: int): (l: Leg)
    requires CanBoard(trains, o)
    ensures l.to == Next(o) && Arrived(trains, l.to) && l.seg == Into(trains, l.to)
    ensures l.arrival == RawArr(trains, l.to) || l.arrival == RawArr(trains, l.to) + DAY
    ensures l.arrival == RawArr(trains, l.to) <==> RawArr(trains, l.to) >= RollForward(ready, trains[o.train][o.idx].dep)
  {
    var stops := trains[o.train];
    var dep := RollForward(ready, stops[o.idx].dep);
    var arr := if stops[o.idx + 1].arr < dep then stops[o.idx + 1].arr + DAY else stops[o.idx + 1].arr;
    Leg(Next(o), arr, Segment(o.train, stops[o.idx].islno, stops[o.idx + 1].islno))
  }

  /**
   * `if arr_raw < dep: arr_raw += day` given what `roll_forward` returned:
   * a None departure makes the comparison raise a TypeError in Python.
   */
  function ArrivalAfter(arrRaw: int, dep: Option<int>): (r: Result<int, string>)
    ensures r.Err? <==> dep.None?
    ensures r.Ok? ==> r.value == arrRaw || r.value == arrRaw + DAY
  {
    if dep.None? then Err("TypeError") else Ok(if arrRaw < dep.value then arrRaw + DAY else arrRaw)
  }

  /** The arrival of a ride from `o` with `roll_forward` as written. */
  function RideArrivalAsWritten(trains: map<TrainId, seq<Stop>>, o: Occ, ready: int): Result<int, string>
    requires CanBoard(trains, o)
  {
    ArrivalAfter(trains[o.train][o.idx + 1].arr, RollForwardAsWritten(ready, trains[o.train][o.idx].dep))
  }

  /**
   * As written, the first seed (search.py:84-113) that has a following
   * stop raises, so the search never returns; with `roll_forward` as its
   * docstring says, the same comparison gives the ride's arrival.
   */
  lemma SeedRaisesAsWritten(trains: map<TrainId, seq<Stop>>, index: StationIndex, from: Station, startTs: int, o: Occ)
    requires o in Lookup(index, from) && CanBoard(trains, o)
    ensures RideArrivalAsWritten(trains, o, startTs) == Err("TypeError")
    ensures ArrivalAfter(trains[o.train][o.idx + 1].arr, Some(RollForward(startTs, trains[o.train][o.idx].dep)))
            == Ok(RideFrom(trains, o, startTs).arrival)
  {
  }

  /**
   * The one-day rule is not a "no earlier than the departure" rule: a
   * departure rolled two days forward is followed by an arrival before it.
   */
  lemma ArrivalCanPrecedeDeparture()
    ensures var trains := map["T" := [Stop(1, "A", 0, 100), Stop(2, "B", 200, 200)]];
            var l := RideFrom(trains, Occ("T", 0), 2 * DAY);
            l.arrival == 200 + DAY && RollForward(2 * DAY, 100) == 100 + 2 * DAY && l.arrival < 100 + 2 * DAY
  {
    assert RollForward(2 * DAY, 100 + 2 * DAY) == 100 + 2 * DAY;
    assert RollForward(2 * DAY, 100 + DAY) == 100 + 2 * DAY;
  }

  // ---------------------------------------------------------------------
  // The search problem and its routes
  // ---------------------------------------------------------------------

  /** The inputs of one search; `change` is `change_time_seconds`. */
  datatype Query = Query(trains: map<TrainId, seq<Stop>>, index: StationIndex, from: Station, to: Station,
                         startTs: int, change: int)

  /**
   * From state `p` the search may board at occurrence `o`: stay on the same
   * train (`o == p`, the continue move) or change to any occurrence listed
   * at `p`'s station; either way `o` must have a following stop.
   */
  predicate StepVia(q: Query, p: Occ, o: Occ)
  {
    ValidOcc(q.trains, p) && CanBoard(q.trains, o) && (o == p || o in Lookup(q.index, StationAt(q.trains, p)))
  }

  /**
   * A route: the occurrences boarded in turn, the first at the origin
   * station, each later one reachable from the state the previous ride
   * ended in.
   */
  ghost predicate IsRoute(q: Query, r: seq<Occ>)
  {
    && |r| > 0 && r[0] in Lookup(q.index, q.from)
    && (forall j :: 0 <= j < |r| ==> CanBoard(q.trains, r[j]))
    && (forall j :: 0 < j < |r| ==> Hop(q, r, j))
  }

  /** Boarding `j` of route `r` is reachable from the state boarding `j - 1` ended in. */
  predicate Hop(q: Query, r: seq<Occ>, j: nat)
    requires 0 < j < |r|
  {
    StepVia(q, Next(r[j - 1]), r[j])
  }

  /** The state a route ends in. */
  function EndState(r: seq<Occ>): Occ
    requires |r| > 0
  {
    Next(r[|r| - 1])
  }

  /** Some route ends in state `s`. */
  ghost predicate Reachable(q: Query, s: Occ)
  {
    exists r :: IsRoute(q, r) && EndState(r) == s
  }

  /** No route ends at the destination station. */
  ghost predicate NoRoute(q: Query)
  {
    forall r :: IsRoute(q, r) ==> StationAt(q.trains, EndState(r)) != q.to
  }

  /** `segs` are the segments of the rides of route `r`, in order. */
  ghost predicate RouteSegs(q: Query, r: seq<Occ>, segs: seq<Segment>)
  {
    |segs| == |r| && forall j :: 0 <= j < |r| ==> Arrived(q.trains, Next(r[j])) && segs[j] == Into(q.trains, Next(r[j]))
  }

  /** One more ride adds its segment at the end. */
  lemma RouteSegsSnoc(q: Query, r: seq<Occ>, segs: seq<Segment>, o: Occ)
    requires RouteSegs(q, r, segs) && CanBoard(q.trains, o)
    ensures Arrived(q.trains, Next(o)) && RouteSegs(q, r + [o], segs + [Into(q.trains, Next(o))])
  {
    var r', segs' := r + [o], segs + [Into(q.trains, Next(o))];
    forall j | 0 <= j < |r'| ensures Arrived(q.trains, Next(r'[j])) && segs'[j] == Into(q.trains, Next(r'[j])) {
      if j < |r| {
        assert r'[j] == r[j] && segs'[j] == segs[j];
      }
    }
  }

  /** The state the last ride of a route was boarded from: none for a single ride. */
  function RouteParent(r: seq<Occ>): Option<Occ>
    requires |r| > 0
  {
    if |r| == 1 then None else Some(Next(r[|r| - 2]))
  }

  /** Boarding once more at the end of a route gives a route. */
  lemma RouteSnoc(q: Query, r: seq<Occ>, o: Occ)
    requires IsRoute(q, r) && StepVia(q, EndState(r), o)
    ensures IsRoute(q, r + [o]) && EndState(r + [o]) == Next(o) && RouteParent(r + [o]) == Some(EndState(r))
  {
    var r' := r + [o];
    forall j | 0 < j < |r'| ensures Hop(q, r', j) {
      if j < |r| {
        assert Hop(q, r, j);
        assert r'[j - 1] == r[j - 1] && r'[j] == r[j];
      }
    }
  }

  // ---------------------------------------------------------------------
  // The books of the search and one recording step
  // ---------------------------------------------------------------------

  /** `dist`, `cur_abs_time`, `prev`, the heap, and (ghost) the states expanded so far. */
  datatype ABooks = ABooks(dist: map<Occ, int>, cur: map<Occ, int>, prev: Prev<Occ>, pq: Queue<Occ>, done: set<Occ>)

  /**
   * The improvement test of search.py:105-113, 153-162 and 185-194: the
   * ride is recorded, with the elapsed time, the absolute arrival, the
   * parent and the segment, only when it strictly lowers the elapsed time
   * (an unrecorded state counts as infinitely far).
   */
  function Offer(startTs: int, b: ABooks, parent: Option<Occ>, l: Leg): ABooks
  {
    if l.to !in b.dist || l.arrival - startTs < b.dist[l.to] then
      b.(dist := b.dist[l.to := l.arrival - startTs], cur := b.cur[l.to := l.arrival],
         prev := b.prev[l.to := (parent, Some(l.seg))], pq := b.pq + multiset{(l.arrival - startTs, l.to)})
    else b
  }

  /** One pass of the seed or transfer loop: `skip` (the state itself) and stops with no following stop are passed over. */
  function OfferOcc(trains: map<TrainId, seq<Stop>>, startTs: int, b: ABooks, parent: Option<Occ>, skip: Option<Occ>,
                    o: Occ, ready: int): ABooks
  {
    if Some(o) == skip || !CanBoard(trains, o) then b else Offer(startTs, b, parent, RideFrom(trains, o, ready))
  }

  /** The books after the first `k` passes of the loop over `occs`. */
  function OfferAll(trains: map<TrainId, seq<Stop>>, startTs: int, b: ABooks, parent: Option<Occ>, skip: Option<Occ>,
                    occs: seq<Occ>, k: nat, ready: int): ABooks
    requires k <= |occs|
  {
    if k == 0 then b
    else OfferOcc(trains, startTs, OfferAll(trains, startTs, b, parent, skip, occs, k - 1, ready), parent, skip, occs[k - 1], ready)
  }

  /**
   * The books after expanding state `s` reached at `now`: the continue move,
   * then the transfers boarded no earlier than `earliest` (`now + change`).
   */
  function Expansion(trains: map<TrainId, seq<Stop>>, index: StationIndex, startTs: int, b: ABooks, s: Occ,
                     now: int, earliest: int): ABooks
    requires ValidOcc(trains, s)
  {
    var b1 := if CanBoard(trains, s) then Offer(startTs, b, Some(s), RideFrom(trains, s, now)) else b;
    var occs := Lookup(index, StationAt(trains, s));
    OfferAll(trains, startTs, b1, Some(s), Some(s), occs, |occs|, earliest)
  }

  lemma OfferShift(trains: map<TrainId, seq<Stop>>, startTs: int, b: ABooks, parent: Option<Occ>, skip: Option<Occ>,
                   occs: seq<Occ>, k: nat, j: nat, ready: int)
    requires 0 < k <= |occs| && j == k - 1
    ensures OfferAll(trains, startTs, b, parent, skip, occs, k, ready)
            == OfferOcc(trains, startTs, OfferAll(trains, startTs, b, parent, skip, occs, j, ready), parent, skip, occs[j], ready)
  {
  }

  // ---------------------------------------------------------------------
  // The invariant
  // ---------------------------------------------------------------------

  /**
   * The instant a boarding at `o` from `parent` waits for: the start instant
   * for a seed; for the continue move (`o == parent`) the parent's arrival;
   * for a transfer that arrival plus the change time. The parent's arrival
   * is its raw arrival or one day later.
   */
  predicate ReadyOk(q: Query, parent: Option<Occ>, o: Occ, ready: int)
  {
    match parent
    case None => ready == q.startTs
    case Some(p) =>
      var wait := if o == p then 0 else q.change;
      ValidOcc(q.trains, p) && (ready == RawArr(q.trains, p) + wait || ready == RawArr(q.trains, p) + DAY + wait)
  }

  /** The wait `ready` of a whole seed loop (no parent) or transfer loop (parent skipped). */
  predicate ReadyAll(q: Query, parent: Option<Occ>, skip: Option<Occ>, ready: int)
  {
    match parent
    case None => ready == q.startTs
    case Some(p) =>
      skip == parent && ValidOcc(q.trains, p)
      && (ready == RawArr(q.trains, p) + q.change || ready == RawArr(q.trains, p) + DAY + q.change)
  }

  /** Every boarding of such a loop waits for what `ReadyOk` allows. */
  lemma ReadyEach(q: Query, parent: Option<Occ>, skip: Option<Occ>, o: Occ, ready: int)
    requires ReadyAll(q, parent, skip, ready) && Some(o) != skip
    ensures ReadyOk(q, parent, o, ready)
  {
  }

  /**
   * The arrival `c` at state `s` is that of the ride into `s` boarded at an
   * instant `ReadyOk` allows for `parent`.
   */
  predicate Boarding(q: Query, s: Occ, c: int, parent: Option<Occ>)
    requires Arrived(q.trains, s)
  {
    var o := Boarded(s);
    match parent
    case None => c == RideFrom(q.trains, o, q.startTs).arrival
    case Some(p) =>
      var wait := if o == p then 0 else q.change;
      && ValidOcc(q.trains, p)
      && (c == RideFrom(q.trains, o, RawArr(q.trains, p) + wait).arrival
          || c == RideFrom(q.trains, o, RawArr(q.trains, p) + DAY + wait).arrival)
  }

  /** The ride from `o` boarded at an allowed instant arrives as `Boarding` says. */
  lemma BoardingOf(q: Query, parent: Option<Occ>, o: Occ, ready: int)
    requires CanBoard(q.trains, o) && ReadyOk(q, parent, o, ready)
    ensures Boarded(Next(o)) == o && Boarding(q, Next(o), RideFrom(q.trains, o, ready).arrival, parent)
  {
    assert Boarded(Next(o)) == o;
  }

  /**
   * A recorded state: reached by a ride, elapsed = absolute − start, arrival
   * raw or one day late and that of the ride boarded as its parent allows,
   * labelled by its segment.
   */
  predicate Timely(q: Query, s: Occ, d: int, c: int, p: (Option<Occ>, Option<Segment>))
  {
    && Arrived(q.trains, s) && d == c - q.startTs
    && (c == RawArr(q.trains, s) || c == RawArr(q.trains, s) + DAY)
    && Boarding(q, s, c, p.0)
    && p.1 == Some(Into(q.trains, s))
  }

  ghost predicate Recorded(q: Query, dist: map<Occ, int>, cur: map<Occ, int>, prev: Prev<Occ>)
  {
    && (forall s :: s in prev ==> s in dist)
    && (forall s :: s in dist ==> s in cur && s in prev && Timely(q, s, dist[s], cur[s], prev[s]))
  }

  /** A parent is an expanded state that can board at `o`; no parent means `o` is at the origin station. */
  ghost predicate ParentOk(q: Query, done: set<Occ>, parent: Option<Occ>, o: Occ)
  {
    match parent
    case None => o in Lookup(q.index, q.from)
    case Some(p) => p in done && StepVia(q, p, o)
  }

  ghost predicate Linked(q: Query, prev: Prev<Occ>, done: set<Occ>)
  {
    forall s :: s in prev && s.idx >= 1 ==> ParentOk(q, done, prev[s].0, Boarded(s))
  }

  /** Every heap entry names a recorded state at no less than its recorded cost. */
  ghost predicate Queued(dist: map<Occ, int>, pq: Queue<Occ>)
  {
    forall z {:trigger pq[z]} :: z in pq ==> z.1 in dist && dist[z.1] <= z.0
  }

  /** Every recorded state still waits in the heap at its cost, or has been expanded. */
  ghost predicate Waiting(dist: map<Occ, int>, pq: Queue<Occ>, done: set<Occ>)
  {
    forall s :: s in dist ==> (dist[s], s) in pq || s in done
  }

  /** Every boarding reachable from `s` has been offered: its state is recorded. */
  ghost predicate Expanded(q: Query, dist: map<Occ, int>, s: Occ)
  {
    forall o {:trigger StepVia(q, s, o)} :: StepVia(q, s, o) ==> Next(o) in dist
  }

  /** Expanded states are recorded, are not at the destination, and (but `except`) are fully expanded. */
  ghost predicate DoneOk(q: Query, dist: map<Occ, int>, done: set<Occ>, except: Option<Occ>)
  {
    && (forall s :: s in done ==> s in dist)
    && (forall s :: s in done ==> ValidOcc(q.trains, s) && StationAt(q.trains, s) != q.to)
    && (forall s :: s in done && Some(s) != except ==> Expanded(q, dist, s))
  }

  ghost predicate Reached(q: Query, dist: map<Occ, int>)
  {
    forall s :: s in dist ==> Reachable(q, s)
  }

  /** Every boardable origin occurrence has its seed state recorded. */
  ghost predicate Seeded(q: Query, dist: map<Occ, int>)
  {
    forall o :: o in Lookup(q.index, q.from) && CanBoard(q.trains, o) ==> Next(o) in dist
  }

  ghost predicate AInv(q: Query, b: ABooks, except: Option<Occ>)
  {
    && Recorded(q, b.dist, b.cur, b.prev) && Linked(q, b.prev, b.done) && Queued(b.dist, b.pq)
    && Waiting(b.dist, b.pq, b.done) && DoneOk(q, b.dist, b.done, except) && Reached(q, b.dist)
  }

  /** The invariant from its parts, each established separately. */
  lemma AInvIntro(q: Query, b: ABooks, except: Option<Occ>)
    requires Recorded(q, b.dist, b.cur, b.prev) == true && Linked(q, b.prev, b.done) == true
    requires Queued(b.dist, b.pq) == true && Waiting(b.dist, b.pq, b.done) == true
    requires DoneOk(q, b.dist, b.done, except) == true && Reached(q, b.dist) == true
    ensures AInv(q, b, except) == true
  {
  }

  // ---------------------------------------------------------------------
  // The termination measure
  // ---------------------------------------------------------------------

  /** All states a ride can end in. */
  ghost function States(q: Query): set<Occ>
  {
    set t, i | t in q.trains && 1 <= i < |q.trains[t]| :: Occ(t, i)
  }

  /** The recorded states whose arrival is one day after the timetable's. */
  ghost function Bumped(q: Query, cur: map<Occ, int>): set<Occ>
  {
    set s | s in cur && Arrived(q.trains, s) && cur[s] != RawArr(q.trains, s)
  }

  /** Each state can still be recorded once and lowered once. */
  ghost function Potential(q: Query, dist: map<Occ, int>, cur: map<Occ, int>): int
  {
    2 * (|States(q)| - |dist|) + |Bumped(q, cur)|
  }

  lemma RemoveSize<T>(s: set<T>, x: T)
    requires x in s
    ensures |s - {x}| == |s| - 1
  {
    assert s == (s - {x}) + {x};
  }

  /** The recorded states are among `States`. */
  lemma RecordedBounded(q: Query, b: ABooks)
    requires Recorded(q, b.dist, b.cur, b.prev) == true
    ensures |b.dist| <= |States(q)|
  {
    forall s | s in b.dist.Keys ensures s in States(q) {
      assert Timely(q, s, b.dist[s], b.cur[s], b.prev[s]);
      assert s == Occ(s.train, s.idx);
    }
    SubsetSize(b.dist.Keys, States(q));
  }

  /** A recorded state's arrival is its raw arrival or one day later, and elapsed = absolute − start. */
  lemma RecordedAt(q: Query, dist: map<Occ, int>, cur: map<Occ, int>, prev: Prev<Occ>, s: Occ)
    requires Recorded(q, dist, cur, prev) == true && s in dist
    ensures s in cur && Arrived(q.trains, s) && dist[s] == cur[s] - q.startTs
    ensures cur[s] == RawArr(q.trains, s) || cur[s] == RawArr(q.trains, s) + DAY
  {
    assert Timely(q, s, dist[s], cur[s], prev[s]);
  }

  /** A recording either lowers the measure or changes nothing. */
  lemma OfferMeasure(q: Query, b: ABooks, parent: Option<Occ>, o: Occ, ready: int)
    requires Recorded(q, b.dist, b.cur, b.prev) == true && CanBoard(q.trains, o)
    ensures var b' := Offer(q.startTs, b, parent, RideFrom(q.trains, o, ready));
            && Potential(q, b'.dist, b'.cur) <= Potential(q, b.dist, b.cur)
            && (Potential(q, b'.dist, b'.cur) == Potential(q, b.dist, b.cur) ==> b' == b)
  {
    var l := RideFrom(q.trains, o, ready);
    var x := l.to;
    var b' := Offer(q.startTs, b, parent, l);
    if x !in b.dist {
      forall s | s in Bumped(q, b'.cur) ensures s in Bumped(q, b.cur) + {x} {
        if s != x { assert s in b.cur; }
      }
      SubsetSize(Bumped(q, b'.cur), Bumped(q, b.cur) + {x});
    } else if l.arrival - q.startTs < b.dist[x] {
      RecordedAt(q, b.dist, b.cur, b.prev, x);
      assert x in Bumped(q, b.cur);
      forall s | s in Bumped(q, b'.cur) ensures s in Bumped(q, b.cur) - {x} {
        if s != x { assert s in b.cur; }
      }
      SubsetSize(Bumped(q, b'.cur), Bumped(q, b.cur) - {x});
      RemoveSize(Bumped(q, b.cur), x);
    }
  }

  // ---------------------------------------------------------------------
  // A recording keeps the invariant
  // ---------------------------------------------------------------------

  lemma OfferRecorded(q: Query, b: ABooks, parent: Option<Occ>, o: Occ, ready: int)
    requires Recorded(q, b.dist, b.cur, b.prev) == true && CanBoard(q.trains, o) && ReadyOk(q, parent, o, ready)
    ensures var b' := Offer(q.startTs, b, parent, RideFrom(q.trains, o, ready));
            Recorded(q, b'.dist, b'.cur, b'.prev) == true && Next(o) in b'.dist && b.dist.Keys <= b'.dist.Keys && b'.done == b.done
  {
    var l := RideFrom(q.trains, o, ready);
    var b' := Offer(q.startTs, b, parent, l);
    if l.to !in b.dist || l.arrival - q.startTs < b.dist[l.to] {
      BoardingOf(q, parent, o, ready);
      forall s | s in b'.dist ensures s in b'.cur && s in b'.prev && Timely(q, s, b'.dist[s], b'.cur[s], b'.prev[s]) {
        if s != l.to {
          assert Timely(q, s, b.dist[s], b.cur[s], b.prev[s]);
        }
      }
    }
  }

  lemma OfferLinked(q: Query, b: ABooks, parent: Option<Occ>, o: Occ, ready: int)
    requires Linked(q, b.prev, b.done) == true && CanBoard(q.trains, o) && ParentOk(q, b.done, parent, o)
    ensures var b' := Offer(q.startTs, b, parent, RideFrom(q.trains, o, ready));
            Linked(q, b'.prev, b'.done) == true
  {
    var b' := Offer(q.startTs, b, parent, RideFrom(q.trains, o, ready));
    forall s | s in b'.prev && s.idx >= 1 ensures ParentOk(q, b'.done, b'.prev[s].0, Boarded(s)) {
      if s == Next(o) && b' != b {
        assert Boarded(s) == o;
      } else {
        assert s in b.prev && b'.prev[s] == b.prev[s];
      }
    }
  }

  lemma OfferQueued(q: Query, b: ABooks, parent: Option<Occ>, o: Occ, ready: int)
    requires Queued(b.dist, b.pq) == true && Waiting(b.dist, b.pq, b.done) == true && CanBoard(q.trains, o)
    ensures var b' := Offer(q.startTs, b, parent, RideFrom(q.trains, o, ready));
            Queued(b'.dist, b'.pq) == true && Waiting(b'.dist, b'.pq, b'.done) == true
  {
  }

  lemma ExpandedGrows(q: Query, d1: map<Occ, int>, d2: map<Occ, int>, s: Occ)
    requires Expanded(q, d1, s) && d1.Keys <= d2.Keys
    ensures Expanded(q, d2, s)
  {
  }

  lemma DoneGrows(q: Query, d1: map<Occ, int>, d2: map<Occ, int>, done: set<Occ>, except: Option<Occ>)
    requires DoneOk(q, d1, done, except) == true && d1.Keys <= d2.Keys
    ensures DoneOk(q, d2, done, except) == true
  {
    forall s | s in done && Some(s) != except ensures Expanded(q, d2, s) {
      ExpandedGrows(q, d1, d2, s);
    }
  }

  lemma OfferReached(q: Query, b: ABooks, parent: Option<Occ>, o: Occ, ready: int)
    requires Reached(q, b.dist) == true && b.done <= b.dist.Keys && CanBoard(q.trains, o) && ParentOk(q, b.done, parent, o)
    ensures var b' := Offer(q.startTs, b, parent, RideFrom(q.trains, o, ready));
            Reached(q, b'.dist) == true
  {
    var b' := Offer(q.startTs, b, parent, RideFrom(q.trains, o, ready));
    if b' != b {
      if parent.None? {
        assert IsRoute(q, [o]) && EndState([o]) == Next(o);
      } else {
        var p := parent.value;
        assert Reachable(q, p);
        var r :| IsRoute(q, r) && EndState(r) == p;
        RouteSnoc(q, r, o);
      }
      assert Reachable(q, Next(o));
    }
  }

  /** One recording keeps the invariant, records the ride's state and does not raise the measure. */
  lemma OfferInv(q: Query, b: ABooks, except: Option<Occ>, parent: Option<Occ>, o: Occ, ready: int)
    requires AInv(q, b, except) == true && CanBoard(q.trains, o) && ParentOk(q, b.done, parent, o)
    requires ReadyOk(q, parent, o, ready)
    ensures var b' := Offer(q.startTs, b, parent, RideFrom(q.trains, o, ready));
            && AInv(q, b', except) == true && Next(o) in b'.dist && b.dist.Keys <= b'.dist.Keys && b'.done == b.done
            && Potential(q, b'.dist, b'.cur) <= Potential(q, b.dist, b.cur)
            && (Potential(q, b'.dist, b'.cur) == Potential(q, b.dist, b.cur) ==> b'.pq == b.pq)
  {
    var b' := Offer(q.startTs, b, parent, RideFrom(q.trains, o, ready));
    OfferRecorded(q, b, parent, o, ready);
    OfferLinked(q, b, parent, o, ready);
    OfferQueued(q, b, parent, o, ready);
    DoneGrows(q, b.dist, b'.dist, b.done, except);
    OfferReached(q, b, parent, o, ready);
    OfferMeasure(q, b, parent, o, ready);
  }

  /** One pass of a loop over occurrences keeps the invariant. */
  lemma OfferOccInv(q: Query, b: ABooks, except: Option<Occ>, parent: Option<Occ>, skip: Option<Occ>, o: Occ, ready: int)
    requires AInv(q, b, except) == true
    requires Some(o) != skip && CanBoard(q.trains, o) ==> ParentOk(q, b.done, parent, o) && ReadyOk(q, parent, o, ready)
    ensures var b' := OfferOcc(q.trains, q.startTs, b, parent, skip, o, ready);
            && AInv(q, b', except) == true && b.dist.Keys <= b'.dist.Keys && b'.done == b.done
            && (Some(o) != skip && CanBoard(q.trains, o) ==> Next(o) in b'.dist)
            && Potential(q, b'.dist, b'.cur) <= Potential(q, b.dist, b.cur)
            && (Potential(q, b'.dist, b'.cur) == Potential(q, b.dist, b.cur) ==> b'.pq == b.pq)
  {
    if Some(o) != skip && CanBoard(q.trains, o) {
      OfferInv(q, b, except, parent, o, ready);
    }
  }

  /** Every boardable occurrence of `occs` but `skip` may be boarded from `parent`. */
  ghost predicate ParentsOk(q: Query, done: set<Occ>, parent: Option<Occ>, skip: Option<Occ>, occs: seq<Occ>)
  {
    forall j :: 0 <= j < |occs| && Some(occs[j]) != skip && CanBoard(q.trains, occs[j]) ==> ParentOk(q, done, parent, occs[j])
  }

  /** Every boardable occurrence among the first `n` of `occs`, but `skip`, has its state recorded. */
  ghost predicate Offered(q: Query, dist: map<Occ, int>, skip: Option<Occ>, occs: seq<Occ>, n: nat)
    requires n <= |occs|
  {
    forall j :: 0 <= j < n && Some(occs[j]) != skip && CanBoard(q.trains, occs[j]) ==> Next(occs[j]) in dist
  }

  lemma OfferedStep(q: Query, d1: map<Occ, int>, d2: map<Occ, int>, skip: Option<Occ>, occs: seq<Occ>, j: nat, k: nat)
    requires j < |occs| && k == j + 1
    requires Offered(q, d1, skip, occs, j) && d1.Keys <= d2.Keys
    requires Some(occs[j]) != skip && CanBoard(q.trains, occs[j]) ==> Next(occs[j]) in d2
    ensures Offered(q, d2, skip, occs, k)
  {
    forall i | 0 <= i < k && Some(occs[i]) != skip && CanBoard(q.trains, occs[i]) ensures Next(occs[i]) in d2 {
      if i == j {
        assert occs[i] == occs[j];
      }
    }
  }

  /** The loop over occurrences keeps the invariant, records every boardable one but `skip`, and does not raise the measure. */
  lemma {:induction false} OfferAllInv(q: Query, b: ABooks, except: Option<Occ>, parent: Option<Occ>, skip: Option<Occ>,
                                       occs: seq<Occ>, k: nat, ready: int)
    requires AInv(q, b, except) == true && ParentsOk(q, b.done, parent, skip, occs) && k <= |occs|
    requires ReadyAll(q, parent, skip, ready)
    ensures var b' := OfferAll(q.trains, q.startTs, b, parent, skip, occs, k, ready);
            && AInv(q, b', except) == true && b.dist.Keys <= b'.dist.Keys && b'.done == b.done
            && Offered(q, b'.dist, skip, occs, k)
            && Potential(q, b'.dist, b'.cur) <= Potential(q, b.dist, b.cur)
            && (Potential(q, b'.dist, b'.cur) == Potential(q, b.dist, b.cur) ==> b'.pq == b.pq)
  {
    if k > 0 {
      var j := k - 1;
      OfferAllInv(q, b, except, parent, skip, occs, j, ready);
      var bj := OfferAll(q.trains, q.startTs, b, parent, skip, occs, j, ready);
      OfferShift(q.trains, q.startTs, b, parent, skip, occs, k, j, ready);
      assert Some(occs[j]) != skip && CanBoard(q.trains, occs[j]) ==> ParentOk(q, bj.done, parent, occs[j]);
      if Some(occs[j]) != skip {
        ReadyEach(q, parent, skip, occs[j], ready);
      }
      OfferOccInv(q, bj, except, parent, skip, occs[j], ready);
      var bk := OfferOcc(q.trains, q.startTs, bj, parent, skip, occs[j], ready);
      OfferedStep(q, bj.dist, bk.dist, skip, occs, j, k);
    }
  }

  // ---------------------------------------------------------------------
  // The steps of the main loop
  // ---------------------------------------------------------------------

  /** Before the seed loop the books are empty and the invariant holds trivially. */
  lemma EmptyInv(q: Query)
    ensures AInv(q, ABooks(map[], map[], map[], multiset{}, {}), None) == true
  {
  }

  /** What the invariant says about one recorded state. */
  lemma RecordedState(q: Query, b: ABooks, s: Occ)
    requires Recorded(q, b.dist, b.cur, b.prev) == true && s in b.dist
    ensures Arrived(q.trains, s) && ValidOcc(q.trains, s) && s in b.cur
  {
    assert Timely(q, s, b.dist[s], b.cur[s], b.prev[s]);
  }

  lemma PopQueued(dist: map<Occ, int>, pq: Queue<Occ>, m: (int, Occ))
    requires Queued(dist, pq) == true
    ensures Queued(dist, pq - multiset{m}) == true
  {
    forall z | z in pq - multiset{m} ensures z.1 in dist && dist[z.1] <= z.0 {
      assert z in pq;
    }
  }

  lemma PopWaitingStale(dist: map<Occ, int>, pq: Queue<Occ>, done: set<Occ>, m: (int, Occ))
    requires Waiting(dist, pq, done) == true && !(m.1 in dist && m.0 == dist[m.1])
    ensures Waiting(dist, pq - multiset{m}, done) == true
  {
    forall s | s in dist ensures (dist[s], s) in pq - multiset{m} || s in done {
      assert (dist[s], s) != m;
    }
  }

  lemma PopWaitingLive(dist: map<Occ, int>, pq: Queue<Occ>, done: set<Occ>, m: (int, Occ))
    requires Waiting(dist, pq, done) == true
    ensures Waiting(dist, pq - multiset{m}, done + {m.1}) == true
  {
    forall s | s in dist ensures (dist[s], s) in pq - multiset{m} || s in done + {m.1} {
      if s != m.1 {
        assert (dist[s], s) != m;
      }
    }
  }

  lemma PopLinked(q: Query, prev: Prev<Occ>, done: set<Occ>, x: Occ)
    requires Linked(q, prev, done) == true
    ensures Linked(q, prev, done + {x}) == true
  {
    forall s | s in prev && s.idx >= 1 ensures ParentOk(q, done + {x}, prev[s].0, Boarded(s)) {
      assert ParentOk(q, done, prev[s].0, Boarded(s));
    }
  }

  lemma PopDone(q: Query, dist: map<Occ, int>, done: set<Occ>, x: Occ)
    requires DoneOk(q, dist, done, None) == true && x in dist && ValidOcc(q.trains, x) && StationAt(q.trains, x) != q.to
    ensures DoneOk(q, dist, done + {x}, Some(x)) == true
  {
    forall s | s in done + {x} && Some(s) != Some(x) ensures Expanded(q, dist, s) {
      assert s in done;
    }
  }

  /** Taking a stale entry off the heap keeps the invariant. */
  lemma PopStaleInv(q: Query, b: ABooks, m: (int, Occ))
    requires AInv(q, b, None) == true && !(m.1 in b.dist && m.0 == b.dist[m.1])
    ensures AInv(q, ABooks(b.dist, b.cur, b.prev, b.pq - multiset{m}, b.done), None) == true
  {
    PopQueued(b.dist, b.pq, m);
    PopWaitingStale(b.dist, b.pq, b.done, m);
    AInvIntro(q, ABooks(b.dist, b.cur, b.prev, b.pq - multiset{m}, b.done), None);
  }

  /** Taking a live entry of a non-goal state off the heap and marking it expanded keeps the invariant, but for that state. */
  lemma PopLiveInv(q: Query, b: ABooks, m: (int, Occ))
    requires AInv(q, b, None) == true && m.1 in b.dist
    requires ValidOcc(q.trains, m.1) && StationAt(q.trains, m.1) != q.to
    ensures AInv(q, ABooks(b.dist, b.cur, b.prev, b.pq - multiset{m}, b.done + {m.1}), Some(m.1)) == true
  {
    PopQueued(b.dist, b.pq, m);
    PopWaitingLive(b.dist, b.pq, b.done, m);
    PopLinked(q, b.prev, b.done, m.1);
    PopDone(q, b.dist, b.done, m.1);
    AInvIntro(q, ABooks(b.dist, b.cur, b.prev, b.pq - multiset{m}, b.done + {m.1}), Some(m.1));
  }

  /** One pass of the main loop over a live entry of a non-goal state keeps the loop invariant and lowers the measure. */
  lemma LiveStep(q: Query, b: ABooks, m: (int, Occ), now: int, earliest: int)
    requires AInv(q, b, None) == true && Seeded(q, b.dist) && m in b.pq && m.1 in b.dist
    requires ValidOcc(q.trains, m.1) && StationAt(q.trains, m.1) != q.to
    requires m.1 in b.cur && now == b.cur[m.1] && earliest == now + q.change
    ensures var b' := Expansion(q.trains, q.index, q.startTs,
                                ABooks(b.dist, b.cur, b.prev, b.pq - multiset{m}, b.done + {m.1}), m.1, now, earliest);
            && AInv(q, b', None) == true && Seeded(q, b'.dist) && |b'.dist| <= |States(q)|
            && (Potential(q, b'.dist, b'.cur) < Potential(q, b.dist, b.cur)
                || (Potential(q, b'.dist, b'.cur) == Potential(q, b.dist, b.cur) && |b'.pq| < |b.pq|))
  {
    PopLiveInv(q, b, m);
    PopReady(q, b.dist, b.cur, b.prev, m.1, now);
    var popped := ABooks(b.dist, b.cur, b.prev, b.pq - multiset{m}, b.done + {m.1});
    ExpandInv(q, popped, m.1, now, earliest);
    var b' := Expansion(q.trains, q.index, q.startTs, popped, m.1, now, earliest);
    SeededGrows(q, popped.dist, b'.dist);
    RecordedBounded(q, b');
  }

  /** A recorded state's arrival is what its continue move waits for. */
  lemma PopReady(q: Query, dist: map<Occ, int>, cur: map<Occ, int>, prev: Prev<Occ>, s: Occ, now: int)
    requires Recorded(q, dist, cur, prev) == true && s in dist && s in cur && now == cur[s]
    ensures ReadyOk(q, Some(s), s, now)
  {
    assert Timely(q, s, dist[s], cur[s], prev[s]);
  }

  /** Expanding a state keeps the invariant, leaves it expanded and does not raise the measure. */
  lemma ExpandInv(q: Query, b: ABooks, s: Occ, now: int, earliest: int)
    requires AInv(q, b, Some(s)) == true && s in b.done && ValidOcc(q.trains, s)
    requires ReadyOk(q, Some(s), s, now) && earliest == now + q.change
    ensures var b' := Expansion(q.trains, q.index, q.startTs, b, s, now, earliest);
            && AInv(q, b', None) == true && b.dist.Keys <= b'.dist.Keys
            && Potential(q, b'.dist, b'.cur) <= Potential(q, b.dist, b.cur)
            && (Potential(q, b'.dist, b'.cur) == Potential(q, b.dist, b.cur) ==> b'.pq == b.pq)
  {
    var b1 := if CanBoard(q.trains, s) then Offer(q.startTs, b, Some(s), RideFrom(q.trains, s, now)) else b;
    if CanBoard(q.trains, s) {
      assert StepVia(q, s, s);
      OfferInv(q, b, Some(s), Some(s), s, now);
    }
    var occs := Lookup(q.index, StationAt(q.trains, s));
    ExpandParents(q, b1.done, s, occs);
    assert ReadyAll(q, Some(s), Some(s), earliest);
    OfferAllInv(q, b1, Some(s), Some(s), Some(s), occs, |occs|, earliest);
    var b' := OfferAll(q.trains, q.startTs, b1, Some(s), Some(s), occs, |occs|, earliest);
    ExpandClose(q, b1.dist, b', s, occs);
  }

  /** Books that hold the invariant but for `s`, and in which every boarding from `s` is recorded, hold it outright. */
  lemma ExpandClose(q: Query, d1: map<Occ, int>, b: ABooks, s: Occ, occs: seq<Occ>)
    requires AInv(q, b, Some(s)) == true && ValidOcc(q.trains, s) && occs == Lookup(q.index, StationAt(q.trains, s))
    requires CanBoard(q.trains, s) ==> Next(s) in d1
    requires d1.Keys <= b.dist.Keys && Offered(q, b.dist, Some(s), occs, |occs|)
    ensures AInv(q, b, None) == true
  {
    ExpansionDone(q, d1, b.dist, s, occs);
    ExpandFinish(q, b.dist, b.done, s);
    AInvIntro(q, b, None);
  }

  /** Every occurrence listed at the station of `s` may be boarded from `s`. */
  lemma ExpandParents(q: Query, done: set<Occ>, s: Occ, occs: seq<Occ>)
    requires s in done && ValidOcc(q.trains, s) && occs == Lookup(q.index, StationAt(q.trains, s))
    ensures ParentsOk(q, done, Some(s), Some(s), occs)
  {
    forall j | 0 <= j < |occs| && Some(occs[j]) != Some(s) && CanBoard(q.trains, occs[j])
      ensures ParentOk(q, done, Some(s), occs[j])
    {
      assert StepVia(q, s, occs[j]);
    }
  }

  /** The continue move and the transfer loop together offer every boarding reachable from `s`. */
  lemma ExpansionDone(q: Query, d1: map<Occ, int>, d2: map<Occ, int>, s: Occ, occs: seq<Occ>)
    requires ValidOcc(q.trains, s) && occs == Lookup(q.index, StationAt(q.trains, s))
    requires CanBoard(q.trains, s) ==> Next(s) in d1
    requires d1.Keys <= d2.Keys && Offered(q, d2, Some(s), occs, |occs|)
    ensures Expanded(q, d2, s)
  {
    forall o | StepVia(q, s, o) ensures Next(o) in d2 {
      if o != s {
        var j :| 0 <= j < |occs| && occs[j] == o;
      }
    }
  }

  /** Once the state under expansion is expanded, no expanded state is left out. */
  lemma ExpandFinish(q: Query, dist: map<Occ, int>, done: set<Occ>, s: Occ)
    requires DoneOk(q, dist, done, Some(s)) == true && Expanded(q, dist, s)
    ensures DoneOk(q, dist, done, None) == true
  {
  }

  /** With every recorded state expanded, every route stays among the recorded states. */
  lemma {:induction false} RouteInside(q: Query, dist: map<Occ, int>, done: set<Occ>, r: seq<Occ>, k: nat)
    requires Seeded(q, dist) && (forall s :: s in dist ==> s in done)
    requires forall s :: s in done ==> Expanded(q, dist, s)
    requires IsRoute(q, r) && k < |r|
    ensures Next(r[k]) in dist
  {
    if k > 0 {
      RouteInside(q, dist, done, r, k - 1);
      assert Hop(q, r, k);
      assert Expanded(q, dist, Next(r[k - 1]));
    }
  }

  /** An empty heap means no route reaches the destination. */
  lemma NoRouteLeft(q: Query, dist: map<Occ, int>, pq: Queue<Occ>, done: set<Occ>)
    requires Waiting(dist, pq, done) == true && DoneOk(q, dist, done, None) == true && Seeded(q, dist) && |pq| == 0
    ensures NoRoute(q)
  {
    assert forall s :: s in dist ==> s in done by {
      forall s | s in dist ensures s in done {
        assert (dist[s], s) !in pq;
      }
    }
    forall r | IsRoute(q, r) ensures StationAt(q.trains, EndState(r)) != q.to {
      RouteInside(q, dist, done, r, |r| - 1);
    }
  }

  lemma SeededGrows(q: Query, d1: map<Occ, int>, d2: map<Occ, int>)
    requires Seeded(q, d1) && d1.Keys <= d2.Keys
    ensures Seeded(q, d2)
  {
  }

  /** After the seed loop every boardable origin occurrence has its state recorded. */
  lemma SeedsInv(q: Query)
    ensures var seeds := Lookup(q.index, q.from);
            var b := OfferAll(q.trains, q.startTs, ABooks(map[], map[], map[], multiset{}, {}), None, None, seeds, |seeds|, q.startTs);
            AInv(q, b, None) == true && Seeded(q, b.dist) && |b.dist| <= |States(q)|
  {
    var seeds := Lookup(q.index, q.from);
    var b0 := ABooks(map[], map[], map[], multiset{}, {});
    EmptyInv(q);
    OfferAllInv(q, b0, None, None, None, seeds, |seeds|, q.startTs);
    var b := OfferAll(q.trains, q.startTs, b0, None, None, seeds, |seeds|, q.startTs);
    SeedsOffered(q, b.dist, seeds);
    RecordedBounded(q, b);
  }

  lemma SeedsOffered(q: Query, dist: map<Occ, int>, seeds: seq<Occ>)
    requires seeds == Lookup(q.index, q.from) && Offered(q, dist, None, seeds, |seeds|)
    ensures Seeded(q, dist)
  {
    forall o | o in seeds && CanBoard(q.trains, o) ensures Next(o) in dist {
      var j :| 0 <= j < |seeds| && seeds[j] == o;
    }
  }

  /** What the invariant guarantees of the returned maps. */
  ghost predicate Timed(q: Query, dist: map<Occ, int>, prev: Prev<Occ>)
  {
    && (forall s :: s in prev ==> s in dist)
    && forall s :: s in dist ==> s in prev && Arrived(q.trains, s) && prev[s].1 == Some(Into(q.trains, s))
                                 && (dist[s] + q.startTs == RawArr(q.trains, s) || dist[s] + q.startTs == RawArr(q.trains, s) + DAY)
                                 && Boarding(q, s, dist[s] + q.startTs, prev[s].0)
  }

  ghost predicate Parented(q: Query, dist: map<Occ, int>, prev: Prev<Occ>)
  {
    forall s :: s in prev && s.idx >= 1 ==>
      match prev[s].0
      case None => Boarded(s) in Lookup(q.index, q.from)
      case Some(p) => p in dist && StepVia(q, p, Boarded(s))
  }

  lemma OutcomeTimed(q: Query, dist: map<Occ, int>, cur: map<Occ, int>, prev: Prev<Occ>)
    requires Recorded(q, dist, cur, prev) == true
    ensures Timed(q, dist, prev)
  {
    forall s | s in dist
      ensures s in prev && Arrived(q.trains, s) && prev[s].1 == Some(Into(q.trains, s))
      ensures dist[s] + q.startTs == RawArr(q.trains, s) || dist[s] + q.startTs == RawArr(q.trains, s) + DAY
      ensures Boarding(q, s, dist[s] + q.startTs, prev[s].0)
    {
      assert Timely(q, s, dist[s], cur[s], prev[s]);
    }
  }

  lemma OutcomeParented(q: Query, dist: map<Occ, int>, prev: Prev<Occ>, done: set<Occ>)
    requires Linked(q, prev, done) == true && forall s :: s in done ==> s in dist
    ensures Parented(q, dist, prev)
  {
    forall s | s in prev && s.idx >= 1
      ensures match prev[s].0
              case None => Boarded(s) in Lookup(q.index, q.from)
              case Some(p) => p in dist && StepVia(q, p, Boarded(s))
    {
      assert ParentOk(q, done, prev[s].0, Boarded(s));
    }
  }

  /** What the invariant gives the caller of the search. */
  lemma Outcome(q: Query, b: ABooks, except: Option<Occ>)
    requires AInv(q, b, except) == true
    ensures Timed(q, b.dist, b.prev) && Parented(q, b.dist, b.prev)
    ensures forall s :: s in b.dist ==> Reachable(q, s)
  {
    OutcomeTimed(q, b.dist, b.cur, b.prev);
    OutcomeParented(q, b.dist, b.prev, b.done);
  }

  // ---------------------------------------------------------------------
  // The search
  // ---------------------------------------------------------------------

  /**
   * `dijkstra_arrivaltime` (search.py:46-196). Every recorded state has
   * `dist = cur_abs_time − start_ts` with its arrival the timetable's or one
   * day later, its segment label, and a parent from which it can be boarded
   * (None for the seeds); that arrival is the one of the ride boarded no
   * earlier than the start instant (a seed), the parent's arrival (the
   * continue move) or that arrival plus the change time (a transfer).
   * Every boardable origin occurrence is seeded. A
   * returned goal is a recorded state at the destination that some route
   * reaches; None means that no route reaches the destination at all.
   */
  method DijkstraArrivalTime(trains: map<TrainId, seq<Stop>>, index: StationIndex, from: Station, to: Station,
                             startTs: int, change: int)
    returns (prev: Prev<Occ>, dist: map<Occ, int>, goal: Option<Occ>)
    requires IndexValid(trains, index)
    ensures var q := Query(trains, index, from, to, startTs, change);
            Timed(q, dist, prev) && Parented(q, dist, prev) && Seeded(q, dist)
    ensures var q := Query(trains, index, from, to, startTs, change);
            goal.Some? ==> goal.value in dist && ValidOcc(trains, goal.value) && StationAt(trains, goal.value) == to && Reachable(q, goal.value)
    ensures goal.None? ==> NoRoute(Query(trains, index, from, to, startTs, change))
  {
    ghost var q := Query(trains, index, from, to, startTs, change);
    ghost var done: set<Occ> := {};
    var cur: map<Occ, int> := map[];
    var pq: Queue<Occ> := multiset{};
    dist, prev := map[], map[];
    var seeds := Lookup(index, from);
    dist, cur, prev, pq := OfferRides(trains, startTs, None, None, seeds, startTs, dist, cur, prev, pq, done);
    SeedsInv(q);
    if |pq| == 0 {
      NoRouteLeft(q, dist, pq, done);
      Outcome(q, ABooks(dist, cur, prev, pq, done), None);
      return prev, dist, None;
    }
    goal := None;
    while |pq| > 0
      invariant AInv(q, ABooks(dist, cur, prev, pq, done), None) == true
      invariant Seeded(q, dist) && |dist| <= |States(q)|
      decreases Potential(q, dist, cur), |pq|
    {
      ghost var b := ABooks(dist, cur, prev, pq, done);
      MinExists(pq);
      var entry :| IsMin(pq, entry);
      pq := pq - multiset{entry};
      var cost := entry.0;
      var state := entry.1;
      if state !in dist || cost != dist[state] {
        PopStaleInv(q, b, entry);
        continue;
      }
      RecordedState(q, b, state);
      if trains[state.train][state.idx].station == to {
        goal := Some(state);
        Outcome(q, b, None);
        return;
      }
      done := done + {state};
      var now := cur[state];
      var earliest := now + change;
      LiveStep(q, b, entry, now, earliest);
      dist, cur, prev, pq := ExpandState(trains, index, startTs, change, state, now, earliest, dist, cur, prev, pq, done);
    }
    NoRouteLeft(q, dist, pq, done);
    Outcome(q, ABooks(dist, cur, prev, pq, done), None);
  }

  /**
   * The expansion of `s` (search.py:135-194), reached at its recorded
   * arrival `now`: the ride on to the next stop of the same train boarded no
   * earlier than `now`, then a ride on every other occurrence listed at the
   * station of `s`, boarded no earlier than `now` plus the change time.
   */
  method ExpandState(trains: map<TrainId, seq<Stop>>, index: StationIndex, startTs: int, ghost change: int, s: Occ,
                     now: int, earliest: int,
                     dist0: map<Occ, int>, cur0: map<Occ, int>, prev0: Prev<Occ>, pq0: Queue<Occ>, ghost done: set<Occ>)
    returns (dist: map<Occ, int>, cur: map<Occ, int>, prev: Prev<Occ>, pq: Queue<Occ>)
    requires IndexValid(trains, index) && ValidOcc(trains, s)
    requires s in cur0 && now == cur0[s] && earliest == now + change
    ensures ABooks(dist, cur, prev, pq, done)
            == Expansion(trains, index, startTs, ABooks(dist0, cur0, prev0, pq0, done), s, now, earliest)
  {
    dist, cur, prev, pq := dist0, cur0, prev0, pq0;
    var stops := trains[s.train];
    if s.idx + 1 < |stops| {
      dist, cur, prev, pq := Record(startTs, Some(s), RideFrom(trains, s, now), dist, cur, prev, pq, done);
    }
    var station := stops[s.idx].station;
    var occs := Lookup(index, station);
    dist, cur, prev, pq := OfferRides(trains, startTs, Some(s), Some(s), occs, earliest, dist, cur, prev, pq, done);
  }

  /**
   * The seed loop (search.py:84-113) and the transfer loop
   * (search.py:165-194): for each listed occurrence but `skip` with a
   * following stop, the ride boarded no earlier than `ready` is offered.
   */
  method OfferRides(trains: map<TrainId, seq<Stop>>, startTs: int, parent: Option<Occ>, skip: Option<Occ>,
                    occs: seq<Occ>, ready: int,
                    dist0: map<Occ, int>, cur0: map<Occ, int>, prev0: Prev<Occ>, pq0: Queue<Occ>, ghost done: set<Occ>)
    returns (dist: map<Occ, int>, cur: map<Occ, int>, prev: Prev<Occ>, pq: Queue<Occ>)
    requires forall o :: o in occs ==> o.train in trains
    ensures ABooks(dist, cur, prev, pq, done)
            == OfferAll(trains, startTs, ABooks(dist0, cur0, prev0, pq0, done), parent, skip, occs, |occs|, ready)
  {
    dist, cur, prev, pq := dist0, cur0, prev0, pq0;
    var k := 0;
    while k < |occs|
      invariant k <= |occs|
      invariant ABooks(dist, cur, prev, pq, done)
                == OfferAll(trains, startTs, ABooks(dist0, cur0, prev0, pq0, done), parent, skip, occs, k, ready)
    {
      var o := occs[k];
      var stops := trains[o.train];
      if Some(o) != skip && o.idx + 1 < |stops| {
        dist, cur, prev, pq := Record(startTs, parent, RideFrom(trains, o, ready), dist, cur, prev, pq, done);
      }
      k := k + 1;
    }
  }

  /**
   * The recording step of the seed, continue and transfer moves
   * (search.py:105-113, 153-162, 185-194): on a strict improvement it
   * stores the elapsed time, the absolute arrival, the parent with the
   * segment, and a heap entry; otherwise the books stay as they were.
   */
  method Record(startTs: int, parent: Option<Occ>, l: Leg,
                dist0: map<Occ, int>, cur0: map<Occ, int>, prev0: Prev<Occ>, pq0: Queue<Occ>, ghost done: set<Occ>)
    returns (dist: map<Occ, int>, cur: map<Occ, int>, prev: Prev<Occ>, pq: Queue<Occ>)
    ensures ABooks(dist, cur, prev, pq, done) == Offer(startTs, ABooks(dist0, cur0, prev0, pq0, done), parent, l)
  {
    var newCost := l.arrival - startTs;
    if l.to !in dist0 || newCost < dist0[l.to] {
      dist := dist0[l.to := newCost];
      cur := cur0[l.to := l.arrival];
      prev := prev0[l.to := (parent, Some(l.seg))];
      pq := pq0 + multiset{(newCost, l.to)};
    } else {
      dist, cur, prev, pq := dist0, cur0, prev0, pq0;
    }
  }
}
