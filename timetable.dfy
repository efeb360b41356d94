/**
 * The timetable model of `schedule_utils.py`: trains as ordered stop lists,
 * the station index, clock-time parsing and the overnight normalisation.
 *
 * Instants are whole seconds after the base date 2000-01-01 00:00:00, so the
 * differences of `datetime.timestamp()` values become plain subtraction.
 */
module Timetable {
  import opened Wrappers
  import opened Text

  type TrainId = string
  type Station = string

  /** Seconds in a day: the rollover step everywhere in the model. */
  const DAY: int := 86400

  /** One stop of a train: `{"islno", "station", "arr", "dep"}`. */
  datatype Stop = Stop(islno: int, station: Station, arr: int, dep: int)

  /** Edge label of a ride: a train and the sequence numbers it runs between. */
  datatype Segment = Segment(train: TrainId, fromIslno: int, toIslno: int)

  /** A station occurrence: a train and a position in its stop list. */
  datatype Occ = Occ(train: TrainId, idx: nat)

  /**
   * A timetable. `trains` is the dictionary; `order` is its iteration
   * (insertion) order, which decides the order of the station index.
   */
  datatype Schedule = Schedule(trains: map<TrainId, seq<Stop>>, order: seq<TrainId>)

  /** `order` lists every key of `trains` exactly once. */
  ghost predicate WellOrdered(sch: Schedule)
  {
    && (forall i, j :: 0 <= i < j < |sch.order| ==> sch.order[i] != sch.order[j])
    && (forall t :: t in sch.trains <==> t in sch.order)
  }

  /** `o` names an existing stop. */
  predicate ValidOcc(trains: map<TrainId, seq<Stop>>, o: Occ)
  {
    o.train in trains && o.idx < |trains[o.train]|
  }

  /** The station of an existing stop. */
  function StationAt(trains: map<TrainId, seq<Stop>>, o: Occ): Station
    requires ValidOcc(trains, o)
  {
    trains[o.train][o.idx].station
  }

  // ---------------------------------------------------------------------
  // Station index (`build_station_index`)
  // ---------------------------------------------------------------------

  type StationIndex = map<Station, seq<Occ>>

  /** `index[s]` on the `defaultdict(list)`: a missing station has no occurrences. */
  function Lookup(index: StationIndex, s: Station): seq<Occ>
  {
    if s in index then index[s] else []
  }

  /** The occurrences of `s` among the stops of train `t`, by position. */
  function TrainOccs(t: TrainId, stops: seq<Stop>, s: Station): seq<Occ>
  {
    if |stops| == 0 then []
    else
      TrainOccs(t, stops[..|stops| - 1], s)
      + (if stops[|stops| - 1].station == s then [Occ(t, |stops| - 1)] else [])
  }

  /** The occurrences of `s` over the trains `ids`, train after train. */
  function Occurrences(trains: map<TrainId, seq<Stop>>, ids: seq<TrainId>, s: Station): seq<Occ>
    requires forall t :: t in ids ==> t in trains
  {
    if |ids| == 0 then []
    else Occurrences(trains, ids[..|ids| - 1], s) + TrainOccs(ids[|ids| - 1], trains[ids[|ids| - 1]], s)
  }

  /** The station index of a schedule, as `build_station_index` produces it. */
  function IndexOf(sch: Schedule, s: Station): seq<Occ>
    requires WellOrdered(sch)
  {
    Occurrences(sch.trains, sch.order, s)
  }

  /** `index` is the station index of `sch`. */
  ghost predicate IsIndexOf(index: StationIndex, sch: Schedule)
    requires WellOrdered(sch)
  {
    forall s :: Lookup(index, s) == IndexOf(sch, s)
  }

  /** `build_station_index`: appends `(train, i)` to `index[station]` for every stop. */
  method BuildStationIndex(sch: Schedule) returns (index: StationIndex)
    requires WellOrdered(sch)
    ensures IsIndexOf(index, sch)
  {
    index := map[];
    var k := 0;
    while k < |sch.order|
      invariant 0 <= k <= |sch.order|
      invariant forall s :: Lookup(index, s) == Occurrences(sch.trains, sch.order[..k], s)
    {
      var t := sch.order[k];
      index := AddTrain(index, t, sch.trains[t]);
      forall s ensures Lookup(index, s) == Occurrences(sch.trains, sch.order[..k + 1], s) {
        OccurrencesSnoc(sch.trains, sch.order, k, s);
      }
      k := k + 1;
    }
    assert sch.order[..k] == sch.order;
  }

  /** The inner loop of `build_station_index`: the stops of train `t`, in order. */
  method AddTrain(index0: StationIndex, t: TrainId, stops: seq<Stop>) returns (index: StationIndex)
    ensures forall s :: Lookup(index, s) == Lookup(index0, s) + TrainOccs(t, stops, s)
  {
    index := index0;
    var i := 0;
    while i < |stops|
      invariant 0 <= i <= |stops|
      invariant forall s :: Lookup(index, s) == Lookup(index0, s) + TrainOccs(t, stops[..i], s)
    {
      var st := stops[i].station;
      ghost var before := index;
      index := index[st := Lookup(index, st) + [Occ(t, i)]];
      forall s ensures Lookup(index, s) == Lookup(index0, s) + TrainOccs(t, stops[..i + 1], s) {
        TrainOccsSnoc(t, stops, i, s);
        if s != st { assert Lookup(index, s) == Lookup(before, s); }
      }
      i := i + 1;
    }
    assert stops[..i] == stops;
  }

  /** Every occurrence listed under a station is an existing stop at that station. */
  ghost predicate IndexValid(trains: map<TrainId, seq<Stop>>, index: StationIndex)
  {
    forall s, o {:trigger o in Lookup(index, s)} :: o in Lookup(index, s) ==> ValidOcc(trains, o) && StationAt(trains, o) == s
  }

  /** The station index of a schedule lists only its own stops, each under its station. */
  lemma IndexOfValid(sch: Schedule, index: StationIndex)
    requires WellOrdered(sch) && IsIndexOf(index, sch)
    ensures IndexValid(sch.trains, index)
  {
    forall s ensures forall o :: o in Lookup(index, s) ==> ValidOcc(sch.trains, o) && StationAt(sch.trains, o) == s {
      IndexedStops(sch, index, s);
    }
  }

  lemma IndexedStops(sch: Schedule, index: StationIndex, s: Station)
    requires WellOrdered(sch) && IsIndexOf(index, sch)
    ensures forall o :: o in Lookup(index, s) ==> ValidOcc(sch.trains, o) && StationAt(sch.trains, o) == s
  {
    assert Lookup(index, s) == IndexOf(sch, s);
    forall o | o in IndexOf(sch, s) ensures ValidOcc(sch.trains, o) && StationAt(sch.trains, o) == s {
      OccurrencesMember(sch.trains, sch.order, s, o);
    }
  }

  lemma TrainOccsSnoc(t: TrainId, stops: seq<Stop>, i: nat, s: Station)
    requires i < |stops|
    ensures TrainOccs(t, stops[..i + 1], s)
      == TrainOccs(t, stops[..i], s) + (if stops[i].station == s then [Occ(t, i)] else [])
  {
    assert stops[..i + 1][..i] == stops[..i];
  }

  lemma OccurrencesSnoc(trains: map<TrainId, seq<Stop>>, ids: seq<TrainId>, k: nat, s: Station)
    requires k < |ids| && forall t :: t in ids ==> t in trains
    ensures Occurrences(trains, ids[..k + 1], s)
      == Occurrences(trains, ids[..k], s) + TrainOccs(ids[k], trains[ids[k]], s)
  {
    assert ids[..k + 1][..k] == ids[..k];
  }

  lemma {:induction false} TrainOccsMember(t: TrainId, stops: seq<Stop>, s: Station, o: Occ)
    ensures o in TrainOccs(t, stops, s) <==> o.train == t && o.idx < |stops| && stops[o.idx].station == s
  {
    if |stops| > 0 {
      var init := stops[..|stops| - 1];
      TrainOccsMember(t, init, s, o);
      if o.idx < |init| { assert init[o.idx] == stops[o.idx]; }
    }
  }

  /** `(t, i)` is listed under `s` exactly when stop `i` of train `t` is at `s`. */
  lemma {:induction false} OccurrencesMember(trains: map<TrainId, seq<Stop>>, ids: seq<TrainId>, s: Station, o: Occ)
    requires forall t :: t in ids ==> t in trains
    ensures o in Occurrences(trains, ids, s) <==>
      o.train in ids && o.idx < |trains[o.train]| && trains[o.train][o.idx].station == s
  {
    if |ids| > 0 {
      var init := ids[..|ids| - 1];
      var last := ids[|ids| - 1];
      OccurrencesMember(trains, init, s, o);
      TrainOccsMember(last, trains[last], s, o);
      assert ids == init + [last];
    }
  }

  /** Position of a train id in the iteration order. */
  function Pos(ids: seq<TrainId>, t: TrainId): (p: nat)
    requires t in ids
    ensures p < |ids| && ids[p] == t && t !in ids[..p]
  {
    if ids[0] == t then 0 else 1 + Pos(ids[1..], t)
  }

  /** Train-then-position order of occurrences. */
  predicate Before(ids: seq<TrainId>, a: Occ, b: Occ)
    requires a.train in ids && b.train in ids
  {
    Pos(ids, a.train) < Pos(ids, b.train) || (a.train == b.train && a.idx < b.idx)
  }

  lemma {:induction false} TrainOccsOrdered(t: TrainId, stops: seq<Stop>, s: Station)
    ensures forall p, q :: 0 <= p < q < |TrainOccs(t, stops, s)| ==>
      TrainOccs(t, stops, s)[p].train == t && TrainOccs(t, stops, s)[p].idx < TrainOccs(t, stops, s)[q].idx
    ensures forall p :: 0 <= p < |TrainOccs(t, stops, s)| ==>
      TrainOccs(t, stops, s)[p].train == t && TrainOccs(t, stops, s)[p].idx < |stops|
  {
    if |stops| > 0 {
      var init := stops[..|stops| - 1];
      TrainOccsOrdered(t, init, s);
      var a := TrainOccs(t, init, s);
      var c: seq<Occ> := if stops[|stops| - 1].station == s then [Occ(t, |stops| - 1)] else [];
      var r := TrainOccs(t, stops, s);
      assert r == a + c;
      forall p | 0 <= p < |r| ensures r[p].train == t && r[p].idx < |stops| {
        if p >= |a| { assert r[p] == c[p - |a|]; } else { assert r[p] == a[p]; }
      }
      forall p, q | 0 <= p < q < |r| ensures r[p].train == t && r[p].idx < r[q].idx {
        if q >= |a| {
          assert r[q] == c[q - |a|] && r[p] == a[p];
          assert a[p].idx < |init|;
        } else {
          assert r[p] == a[p] && r[q] == a[q];
        }
      }
    } else {
      assert TrainOccs(t, stops, s) == [];
    }
  }

  /**
   * The index lists each station's occurrences in train-then-position
   * order, so no occurrence is listed twice.
   */
  lemma {:induction false} OccurrencesOrdered(trains: map<TrainId, seq<Stop>>, ids: seq<TrainId>, s: Station)
    requires forall t :: t in ids ==> t in trains
    requires forall i, j :: 0 <= i < j < |ids| ==> ids[i] != ids[j]
    ensures forall p :: 0 <= p < |Occurrences(trains, ids, s)| ==> Occurrences(trains, ids, s)[p].train in ids
    ensures forall p, q :: 0 <= p < q < |Occurrences(trains, ids, s)| ==>
      Before(ids, Occurrences(trains, ids, s)[p], Occurrences(trains, ids, s)[q])
  {
    if |ids| > 0 {
      var init := ids[..|ids| - 1];
      var last := ids[|ids| - 1];
      var a := Occurrences(trains, init, s);
      var b := TrainOccs(last, trains[last], s);
      OccurrencesOrdered(trains, init, s);
      TrainOccsOrdered(last, trains[last], s);
      assert ids == init + [last];
      var r := a + b;
      assert Occurrences(trains, ids, s) == r;
      forall p | 0 <= p < |a| ensures Pos(ids, a[p].train) == Pos(init, a[p].train) < |init| {
        PosPrefix(ids, |ids| - 1, a[p].train);
      }
      forall p, q | 0 <= p < q < |r| ensures Before(ids, r[p], r[q]) {
        if q < |a| {
          assert Before(init, a[p], a[q]);
        } else if p >= |a| {
          assert r[p] == b[p - |a|] && r[q] == b[q - |a|];
        } else {
          assert r[q].train == last && Pos(ids, last) == |ids| - 1 by {
            assert r[q] == b[q - |a|];
            var pl := Pos(ids, last);
            assert ids[pl] == ids[|ids| - 1];
          }
        }
      }
    }
  }

  /** For an id of the prefix `ids[..k]`, positions agree. */
  lemma PosPrefix(ids: seq<TrainId>, k: nat, t: TrainId)
    requires k <= |ids| && t in ids[..k]
    ensures t in ids && Pos(ids, t) == Pos(ids[..k], t) < k
  {
    if ids[0] != t {
      assert ids[..k][1..] == ids[1..][..k - 1];
      PosPrefix(ids[1..], k - 1, t);
    }
  }

  // ---------------------------------------------------------------------
  // Clock times (`_parse_time`, `parse_hhmmss`)
  // ---------------------------------------------------------------------

  /** `int(f)` for every field, or `None` when one field is not an integer. */
  function ParseFields(fields: seq<string>): (r: Option<seq<int>>)
    ensures r.Some? ==> |r.value| == |fields|
    ensures r.Some? ==> forall k :: 0 <= k < |fields| ==> ParseInt(fields[k]) == Some(r.value[k])
  {
    if |fields| == 0 then Some([])
    else
      var head := ParseInt(fields[0]);
      var tail := ParseFields(fields[1..]);
      if head.Some? && tail.Some? then Some([head.value] + tail.value) else None
  }

  /**
   * `datetime(2000, 1, 1, *fields)` as seconds after the base date: the
   * fields are hour, minute and second, the missing ones default to zero,
   * and each must lie in its clock range.
   */
  function ClockSeconds(fields: seq<int>): (r: Option<int>)
    ensures r.Some? <==> (1 <= |fields| <= 3 && (forall k :: 0 <= k < |fields| ==> 0 <= fields[k])
      && fields[0] < 24 && (|fields| > 1 ==> fields[1] < 60) && (|fields| > 2 ==> fields[2] < 60))
    ensures r.Some? ==> 0 <= r.value < DAY
  {
    if |fields| < 1 || |fields| > 3 then None
    else
      var h := fields[0];
      var m := if |fields| > 1 then fields[1] else 0;
      var sec := if |fields| > 2 then fields[2] else 0;
      if 0 <= h < 24 && 0 <= m < 60 && 0 <= sec < 60 then Some(h * 3600 + m * 60 + sec) else None
  }

  /** The colon-separated clock text `t`, already stripped. */
  function ParseClock(t: string): (r: Option<int>)
    ensures r.Some? ==> 0 <= r.value < DAY
  {
    match ParseFields(Split(t, ':'))
    case None => None
    case Some(fields) => ClockSeconds(fields)
  }

  /** `_parse_time`: strips whitespace, then single quotes, then reads the clock. */
  function ParseTime(t: string): (r: Option<int>)
    ensures r.Some? ==> 0 <= r.value < DAY
  {
    ParseClock(StripChar(Strip(t), '\''))
  }

  /** `parse_hhmmss`: strips whitespace and reads the clock. */
  function ParseHhmmss(t: string): (r: Option<int>)
    ensures r.Some? ==> 0 <= r.value < DAY
  {
    ParseClock(Strip(t))
  }

  /** `HH:MM:SS` with two-digit fields. */
  function ClockText(h: nat, m: nat, s: nat): string
    requires h < 24 && m < 60 && s < 60
  {
    Join([Pad2(h), Pad2(m), Pad2(s)], ":")
  }

  lemma ClockTextSplit(h: nat, m: nat, s: nat)
    requires h < 24 && m < 60 && s < 60
    ensures Split(ClockText(h, m, s), ':') == [Pad2(h), Pad2(m), Pad2(s)]
  {
    var parts := [Pad2(h), Pad2(m), Pad2(s)];
    forall k | 0 <= k < 3 ensures ':' !in parts[k] {
      assert AllDigits(parts[k]);
    }
    SplitJoin(parts, ':');
  }

  lemma ClockTextValue(h: nat, m: nat, s: nat)
    requires h < 24 && m < 60 && s < 60
    ensures ParseClock(ClockText(h, m, s)) == Some(h * 3600 + m * 60 + s)
  {
    ClockTextSplit(h, m, s);
    Pad2RoundTrip(h);
    Pad2RoundTrip(m);
    Pad2RoundTrip(s);
    ParseThreeFields(Pad2(h), Pad2(m), Pad2(s), h, m, s);
    ParseClockOf(ClockText(h, m, s), [h, m, s]);
    ClockSecondsHms(h, m, s);
  }

  lemma ClockSecondsHms(h: nat, m: nat, s: nat)
    requires h < 24 && m < 60 && s < 60
    ensures ClockSeconds([h, m, s]) == Some(h * 3600 + m * 60 + s)
  {
  }

  lemma ParseClockOf(t: string, fields: seq<int>)
    requires ParseFields(Split(t, ':')) == Some(fields)
    ensures ParseClock(t) == ClockSeconds(fields)
  {
  }

  lemma ParseThreeFields(a: string, b: string, c: string, x: int, y: int, z: int)
    requires ParseInt(a) == Some(x) && ParseInt(b) == Some(y) && ParseInt(c) == Some(z)
    ensures ParseFields([a, b, c]) == Some([x, y, z])
  {
    assert [c][1..] == [] && [z] + [] == [z];
    assert ParseFields([c]) == Some([z]);
    assert [b, c][1..] == [c] && [y] + [z] == [y, z];
    assert ParseFields([b, c]) == Some([y, z]);
    assert [a, b, c][1..] == [b, c] && [x] + [y, z] == [x, y, z];
  }

  lemma ClockTextEnds(h: nat, m: nat, s: nat)
    requires h < 24 && m < 60 && s < 60
    ensures var t := ClockText(h, m, s); t != [] && IsDigit(t[0]) && IsDigit(t[|t| - 1])
  {
    var t := ClockText(h, m, s);
    var a, b, c := Pad2(h), Pad2(m), Pad2(s);
    assert t == a + ":" + Join([b, c], ":");
    assert Join([b, c], ":") == b + ":" + c;
    assert t[0] == a[0];
    assert t[|t| - 1] == c[|c| - 1];
  }

  lemma TrimQuoteLeft(t: string)
    requires t != [] && t[0] != '\''
    ensures TrimCharLeft("'" + t + "'", '\'') == t + "'"
  {
    var q := "'" + t + "'";
    assert q[1..] == t + "'";
  }

  lemma TrimQuoteRight(t: string)
    requires t != [] && t[|t| - 1] != '\''
    ensures TrimCharRight(t + "'", '\'') == t
  {
    assert (t + "'")[..|t|] == t;
  }

  lemma QuotedStrip(t: string)
    requires t != [] && IsDigit(t[0]) && IsDigit(t[|t| - 1])
    ensures StripChar(Strip("'" + t + "'"), '\'') == t
  {
    NoSpaceStrip("'" + t + "'");
    TrimQuoteLeft(t);
    TrimQuoteRight(t);
  }

  lemma ParsePlain(t: string)
    requires Strip(t) == t && StripChar(t, '\'') == t
    ensures ParseTime(t) == ParseClock(t) && ParseHhmmss(t) == ParseClock(t)
  {
  }

  lemma ParseQuoted(t: string)
    requires StripChar(Strip("'" + t + "'"), '\'') == t
    ensures ParseTime("'" + t + "'") == ParseClock(t)
  {
  }

  lemma DigitEndsStripChar(t: string)
    requires t != [] && IsDigit(t[0]) && IsDigit(t[|t| - 1])
    ensures Strip(t) == t && StripChar(t, '\'') == t
  {
    NoSpaceStrip(t);
  }

  /**
   * Reading back `HH:MM:SS` gives `H*3600 + M*60 + S`, and so does the
   * same text in single quotes.
   */
  lemma ClockTextRoundTrip(h: nat, m: nat, s: nat)
    requires h < 24 && m < 60 && s < 60
    ensures ParseHhmmss(ClockText(h, m, s)) == Some(h * 3600 + m * 60 + s)
    ensures ParseTime(ClockText(h, m, s)) == Some(h * 3600 + m * 60 + s)
    ensures ParseTime("'" + ClockText(h, m, s) + "'") == Some(h * 3600 + m * 60 + s)
  {
    var t := ClockText(h, m, s);
    ClockTextValue(h, m, s);
    ClockTextEnds(h, m, s);
    DigitEndsStripChar(t);
    ParsePlain(t);
    QuotedStrip(t);
    ParseQuoted(t);
  }

  // ---------------------------------------------------------------------
  // Overnight normalisation (the loop at the end of `load_schedule`)
  // ---------------------------------------------------------------------

  /** Stops as read from the file carry clock times of one day. */
  predicate DayTimes(stops: seq<Stop>)
  {
    forall k :: 0 <= k < |stops| ==> 0 <= stops[k].arr < DAY && 0 <= stops[k].dep < DAY
  }

  predicate SortedByIslno(stops: seq<Stop>)
  {
    forall i, j :: 0 <= i < j < |stops| ==> stops[i].islno <= stops[j].islno
  }

  /** Every element of `rest`, drawn from `x` and the tail of sorted `stops`, is at least its head. */
  lemma HeadBounds(x: Stop, stops: seq<Stop>, rest: seq<Stop>)
    requires SortedByIslno(stops) && stops != [] && stops[0].islno <= x.islno
    requires forall k :: 0 <= k < |rest| ==> rest[k] == x || rest[k] in stops[1..]
    ensures forall k :: 0 <= k < |rest| ==> stops[0].islno <= rest[k].islno
  {
    forall k | 0 <= k < |rest| ensures stops[0].islno <= rest[k].islno {
      if rest[k] != x {
        var j :| 0 <= j < |stops[1..]| && stops[1..][j] == rest[k];
        assert stops[j + 1] == rest[k];
      }
    }
  }

  lemma SortedCons(y: Stop, rest: seq<Stop>)
    requires SortedByIslno(rest)
    requires forall k :: 0 <= k < |rest| ==> y.islno <= rest[k].islno
    ensures SortedByIslno([y] + rest)
  {
    forall i, j | 0 <= i < j < |[y] + rest| ensures ([y] + rest)[i].islno <= ([y] + rest)[j].islno {
      assert ([y] + rest)[j] == rest[j - 1];
      if i > 0 {
        assert ([y] + rest)[i] == rest[i - 1];
      }
    }
  }

  /** Inserts `x` after every stop whose islno is not larger (keeps equal keys stable). */
  function Insert(x: Stop, stops: seq<Stop>): (r: seq<Stop>)
    ensures |r| == |stops| + 1
  {
    if stops == [] || x.islno < stops[0].islno then [x] + stops
    else [stops[0]] + Insert(x, stops[1..])
  }

  /** Inserting into a sorted list keeps it sorted and adds exactly `x`. */
  lemma {:induction false} InsertSorted(x: Stop, stops: seq<Stop>)
    requires SortedByIslno(stops)
    ensures forall k :: 0 <= k < |Insert(x, stops)| ==> Insert(x, stops)[k] == x || Insert(x, stops)[k] in stops
    ensures SortedByIslno(Insert(x, stops)) && multiset(Insert(x, stops)) == multiset(stops) + multiset{x}
  {
    if stops == [] || x.islno < stops[0].islno {
      SortedCons(x, stops);
    } else {
      var tail := stops[1..];
      assert SortedByIslno(tail);
      InsertSorted(x, tail);
      var rest := Insert(x, tail);
      assert stops == [stops[0]] + tail;
      HeadBounds(x, stops, rest);
      SortedCons(stops[0], rest);
    }
  }

  /** `stops.sort(key=lambda s: s["islno"])`, as insertion of each stop in turn. */
  function SortByIslno(stops: seq<Stop>): (r: seq<Stop>)
    ensures |r| == |stops|
  {
    if stops == [] then [] else Insert(stops[|stops| - 1], SortByIslno(stops[..|stops| - 1]))
  }

  /** The sorted list is ordered by islno and is a permutation of the input. */
  lemma {:induction false} SortByIslnoSorts(stops: seq<Stop>)
    ensures SortedByIslno(SortByIslno(stops)) && multiset(SortByIslno(stops)) == multiset(stops)
  {
    if stops != [] {
      var init := stops[..|stops| - 1];
      SortByIslnoSorts(init);
      InsertSorted(stops[|stops| - 1], SortByIslno(init));
      assert stops == init + [stops[|stops| - 1]];
      assert multiset(stops) == multiset(init) + multiset{stops[|stops| - 1]};
    }
  }

  /**
   * One pass of the loop over a stop after the first, given the departure
   * `last` of the previous stop and the current day offset: the arrival
   * moves to the next day when it would precede `last`, and the departure
   * gets one more day when it would precede the arrival.
   */
  function Roll(s: Stop, last: int, offset: int): (r: (Stop, int))
  {
    var arr0 := s.arr + offset;
    var off := if arr0 < last then offset + DAY else offset;
    var arr := s.arr + off;
    var dep0 := s.dep + off;
    var dep := if dep0 < arr then dep0 + DAY else dep0;
    (Stop(s.islno, s.station, arr, dep), off)
  }

  lemma RollDepartsAfterArrival(s: Stop, last: int, offset: int)
    requires 0 <= s.arr < DAY && 0 <= s.dep < DAY
    ensures Roll(s, last, offset).0.dep >= Roll(s, last, offset).0.arr
  {
  }

  /** The stops normalised so far and the day offset, after the prefix `stops`. */
  function FixState(stops: seq<Stop>): (r: (seq<Stop>, int))
    ensures |r.0| == |stops|
  {
    if |stops| <= 1 then (stops, 0)
    else
      var prev := FixState(stops[..|stops| - 1]);
      var step := Roll(stops[|stops| - 1], prev.0[|prev.0| - 1].dep, prev.1);
      (prev.0 + [step.0], step.1)
  }

  /** The normalised stop list of one (sorted) train. */
  function FixOvernight(stops: seq<Stop>): seq<Stop>
  {
    FixState(stops).0
  }

  /** The day offset in force at stop `i`. */
  function OffsetAt(stops: seq<Stop>, i: nat): int
    requires i < |stops|
  {
    FixState(stops[..i + 1]).1
  }

  lemma {:induction false} FixPrefix(stops: seq<Stop>, j: nat)
    requires j <= |stops|
    ensures FixOvernight(stops[..j]) == FixOvernight(stops)[..j]
    decreases |stops|
  {
    if j < |stops| {
      var init := stops[..|stops| - 1];
      assert stops[..j] == init[..j];
      FixPrefix(init, j);
      if |stops| > 1 {
        assert FixOvernight(stops) == FixOvernight(init) + [FixOvernight(stops)[|stops| - 1]];
      } else {
        assert j == 0;
      }
    } else {
      assert stops[..j] == stops;
    }
  }

  /**
   * Normalisation keeps each stop's islno and station and the first stop
   * untouched; each later arrival is its raw value plus the day offset in
   * force, which starts at zero and grows by zero or one day per stop.
   */
  lemma {:induction false} FixOvernightShape(stops: seq<Stop>, i: nat)
    requires i < |stops|
    ensures |FixOvernight(stops)| == |stops|
    ensures FixOvernight(stops)[i].islno == stops[i].islno && FixOvernight(stops)[i].station == stops[i].station
    ensures i == 0 ==> FixOvernight(stops)[0] == stops[0] && OffsetAt(stops, 0) == 0
    ensures i > 0 ==> FixOvernight(stops)[i].arr == stops[i].arr + OffsetAt(stops, i)
    ensures i > 0 ==> OffsetAt(stops, i) in {OffsetAt(stops, i - 1), OffsetAt(stops, i - 1) + DAY}
    ensures i > 0 ==> FixOvernight(stops)[i].dep in {stops[i].dep + OffsetAt(stops, i), stops[i].dep + OffsetAt(stops, i) + DAY}
    ensures i > 0 ==> FixOvernight(stops)[i] == Roll(stops[i], FixOvernight(stops)[i - 1].dep, OffsetAt(stops, i - 1)).0
  {
    var p := stops[..i + 1];
    FixPrefix(stops, i + 1);
    assert FixOvernight(stops)[i] == FixOvernight(p)[i];
    if i > 0 {
      assert p[..i] == stops[..i];
      assert FixState(p).1 == Roll(stops[i], FixOvernight(stops[..i])[i - 1].dep, OffsetAt(stops, i - 1)).1 by {
        assert stops[..i] == stops[..i - 1 + 1];
      }
    } else {
      assert p == [stops[0]];
    }
  }

  /** Every stop after the first departs no earlier than it arrives. */
  lemma {:induction false} FixOvernightDepartsAfterArrival(stops: seq<Stop>, i: nat)
    requires DayTimes(stops) && 0 < i < |stops|
    ensures FixOvernight(stops)[i].dep >= FixOvernight(stops)[i].arr
  {
    FixOvernightShape(stops, i);
    RollDepartsAfterArrival(stops[i], FixOvernight(stops)[i - 1].dep, OffsetAt(stops, i - 1));
  }

  /** No stop's clock departure is before its clock arrival (no dwell runs past midnight). */
  predicate SameDayDwells(stops: seq<Stop>)
  {
    forall k :: 0 <= k < |stops| ==> stops[k].arr <= stops[k].dep
  }

  /**
   * When no dwell runs past midnight, normalisation lets every ride arrive
   * no earlier than it departed: the day offset catches up with the
   * previous departure.
   */
  lemma FixOvernightRidesForward(stops: seq<Stop>, i: nat)
    requires DayTimes(stops) && SameDayDwells(stops) && 0 < i < |stops|
    ensures FixOvernight(stops)[i - 1].dep <= FixOvernight(stops)[i].arr
  {
    var j := i - 1;
    var f := FixOvernight(stops);
    FixOvernightShape(stops, i);
    FixOvernightShape(stops, j);
    assert f[j].dep < OffsetAt(stops, j) + DAY by {
      if j > 0 {
        assert stops[j].arr <= stops[j].dep;
      }
    }
  }

  /** A stop of the sorted list is a stop of the input, so the per-stop conditions carry over. */
  lemma SortedStopsFrom(stops: seq<Stop>)
    requires DayTimes(stops) && SameDayDwells(stops)
    ensures DayTimes(SortByIslno(stops)) && SameDayDwells(SortByIslno(stops))
  {
    var sorted := SortByIslno(stops);
    SortByIslnoSorts(stops);
    forall k | 0 <= k < |sorted|
      ensures 0 <= sorted[k].arr < DAY && 0 <= sorted[k].dep < DAY && sorted[k].arr <= sorted[k].dep
    {
      assert sorted[k] in multiset(sorted);
      assert sorted[k] in stops;
    }
  }

  /** `fix overnight` over one train's stop list, in place on `a`. */
  method FixTrain(a: array<Stop>)
    modifies a
    ensures a[..] == FixOvernight(old(a[..]))
  {
    ghost var raw := a[..];
    var last: Option<int> := None;
    var offset := 0;
    var k := 0;
    while k < a.Length
      invariant 0 <= k <= a.Length && |raw| == a.Length
      invariant a[..k] == FixOvernight(raw[..k]) && a[k..] == raw[k..]
      invariant k == 0 <==> last.None?
      invariant k > 0 ==> last == Some(a[k - 1].dep) && offset == FixState(raw[..k]).1
      invariant k == 0 ==> offset == 0
    {
      assert raw[..k + 1][..k] == raw[..k];
      var s := a[k];
      assert s == raw[k] by { assert a[k..][0] == raw[k..][0]; }
      ghost var before := a[..k];
      if last.None? {
        a[k] := Stop(s.islno, s.station, s.arr + offset, s.dep + offset);
        last := Some(a[k].dep);
        assert raw[..k + 1] == [raw[0]];
      } else {
        ghost var step := Roll(raw[k], last.value, offset);
        assert FixState(raw[..k + 1]) == (FixState(raw[..k]).0 + [step.0], step.1);
        var arr := s.arr + offset;
        if arr < last.value {
          offset := offset + DAY;
          arr := s.arr + offset;
        }
        var dep := s.dep + offset;
        if dep < arr {
          dep := dep + DAY;
        }
        a[k] := Stop(s.islno, s.station, arr, dep);
        assert a[k] == step.0 && offset == step.1;
        last := Some(dep);
      }
      assert a[..k + 1] == before + [a[k]];
      assert a[k + 1..] == raw[k + 1..];
      k := k + 1;
    }
    assert a[..] == a[..k];
    assert raw[..k] == raw;
  }

  /** The stop list of one train after loading: sorted by islno, then fixed overnight. */
  function Normalised(stops: seq<Stop>): (r: seq<Stop>)
    ensures |r| == |stops|
  {
    FixOvernight(SortByIslno(stops))
  }

  /** Normalised stop lists keep the islno order of the sorted input. */
  lemma NormalisedSorted(stops: seq<Stop>)
    ensures SortedByIslno(Normalised(stops))
  {
    var sorted := SortByIslno(stops);
    SortByIslnoSorts(stops);
    forall i, j | 0 <= i < j < |sorted| ensures Normalised(stops)[i].islno <= Normalised(stops)[j].islno {
      FixOvernightShape(sorted, i);
      FixOvernightShape(sorted, j);
    }
  }

  /** Sorts one train's stops and fixes them overnight, in a fresh array. */
  method NormaliseTrain(stops: seq<Stop>) returns (r: seq<Stop>)
    ensures r == Normalised(stops)
  {
    var sorted := SortByIslno(stops);
    var a := new Stop[|sorted|](j requires 0 <= j < |sorted| => sorted[j]);
    assert a[..] == sorted;
    FixTrain(a);
    r := a[..];
  }

  /**
   * The loop at the end of `load_schedule`: every train's stop list is sorted
   * and fixed overnight; the train ids and their order are unchanged.
   */
  method NormaliseSchedule(sch: Schedule) returns (r: Schedule)
    requires WellOrdered(sch)
    ensures WellOrdered(r) && r.order == sch.order && r.trains.Keys == sch.trains.Keys
    ensures forall t :: t in r.trains ==> r.trains[t] == Normalised(sch.trains[t])
  {
    var trains := sch.trains;
    var i := 0;
    while i < |sch.order|
      invariant 0 <= i <= |sch.order|
      invariant trains.Keys == sch.trains.Keys
      invariant forall j :: 0 <= j < i ==> trains[sch.order[j]] == Normalised(sch.trains[sch.order[j]])
      invariant forall j :: i <= j < |sch.order| ==> trains[sch.order[j]] == sch.trains[sch.order[j]]
    {
      var t := sch.order[i];
      var fixed := NormaliseTrain(trains[t]);
      trains := trains[t := fixed];
      i := i + 1;
    }
    forall t | t in trains ensures trains[t] == Normalised(sch.trains[t]) {
      var j :| 0 <= j < |sch.order| && sch.order[j] == t;
    }
    r := Schedule(trains, sch.order);
  }
}
