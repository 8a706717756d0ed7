/** A buffer loaded from machine-sized rows is machine-sized: what the program's own types say of its input carries over
    to everything it writes into the manifest. */
module Sizes {
  import opened Model
  import opened Rows
  import opened Loader
  import opened Loaded
  import opened WalkGraph
  import opened WalkRows
  import opened Closure
  import opened Encoding
  import opened Manifest

  ghost predicate RowFits(row: Row) {
    && ByteString(row.routeID) && ByteString(row.key.tripID) && ByteString(row.key.date) && ByteString(row.stationID)
    && Word(row.arrival) && Word(row.departure)
  }

  ghost predicate RowsFit(rows: seq<Row>) {
    Word(|rows|) && forall row :: row in rows ==> RowFits(row)
  }

  ghost predicate WalkRowsFit(foot: seq<FootRow>) {
    Word(|foot|) && forall row :: row in foot ==> ByteString(row.station) && ByteString(row.neighbour)
  }

  predicate OptionsFit(opts: LoadOptions) {
    Word(opts.Cap()) && Word(opts.EdgeLimit())
  }

  lemma DeliveredFits(walks: WalkRead)
    requires WalkRowsFit(walks.rows)
    ensures WalkRowsFit(walks.Delivered())
  {
  }

  // ---- Trips -------------------------------------------------------------------------------------

  lemma {:induction false} FewTrips(rows: seq<Row>)
    ensures |Trips(rows)| <= |rows|
    ensures forall t :: t in Trips(rows) ==> |t.stops| <= |rows|
  {
    if rows != [] {
      FewTrips(rows[..|rows| - 1]);
    }
  }

  ghost predicate StopFits(s: StopRecord) {
    ByteString(s.stationID) && Word(s.arrival) && Word(s.departure)
  }

  ghost predicate TripRecordFits(t: TripRecord) {
    && ByteString(t.routeID) && ByteString(t.key.tripID) && ByteString(t.key.date)
    && forall s :: s in t.stops ==> StopFits(s)
  }

  lemma {:induction false} TripsFit(rows: seq<Row>)
    requires forall row :: row in rows ==> RowFits(row)
    ensures forall t :: t in Trips(rows) ==> TripRecordFits(t)
  {
    if rows != [] {
      var n := |rows| - 1;
      TripsFit(rows[..n]);
      assert rows[n] in rows;
      hide ByteString, Word;
      var before := Trips(rows[..n]);
      if before != [] && before[|before| - 1].key == rows[n].key {
        assert TripRecordFits(before[|before| - 1]);
        assert TripRecordFits(Extended(before[|before| - 1], rows[n]));
      }
    }
  }

  lemma {:induction false} FewOnRoute(trips: seq<TripRecord>, id: string)
    ensures |OfRoute(trips, id)| <= |trips|
  {
    if trips != [] {
      FewOnRoute(trips[..|trips| - 1], id);
    }
  }

  lemma {:induction false} FewServing(trips: seq<TripRecord>, stopIDs: seq<string>)
    ensures |Serving(trips, stopIDs)| <= |trips|
  {
    if trips != [] {
      FewServing(trips[..|trips| - 1], stopIDs);
    }
  }

  lemma {:induction false} FewRoutes(trips: seq<TripRecord>)
    ensures |RoutesSeen(trips)| <= |trips|
  {
    if trips != [] {
      FewRoutes(trips[..|trips| - 1]);
    }
  }

  lemma FewSlots(rows: seq<Row>, b: RouteBuffer, r: nat)
    requires TimetableLoaded(rows, b.routes, b.stopTimes) && r < |b.routes|
    ensures |b.stopTimes[r]| <= |rows|
  {
    var trips := Trips(rows);
    var id := RoutesSeen(trips)[r];
    assert RouteLoaded(OfRoute(trips, id), id, b.routes[r], b.stopTimes[r]);
    var served := Serving(OfRoute(trips, id), b.routes[r].stopIDs);
    assert |multiset(b.stopTimes[r])| == |b.stopTimes[r]| && |multiset(Tables(served))| == |Tables(served)|;
    FewServing(OfRoute(trips, id), b.routes[r].stopIDs);
    FewOnRoute(trips, id);
    FewTrips(rows);
  }

  lemma TableFits(t: TripRecord, n: nat)
    requires TripRecordFits(t) && |t.stops| <= n && Word(n)
    ensures FitsTrip(TripContentOf(Table(t)))
  {
    hide ByteString;
    var c := TripContentOf(Table(t));
    forall v | v in c.arrivals
      ensures Word(v)
    {
      var i :| 0 <= i < |c.arrivals| && c.arrivals[i] == v;
      assert t.stops[i] in t.stops;
    }
    forall v | v in c.departures
      ensures Word(v)
    {
      var i :| 0 <= i < |c.departures| && c.departures[i] == v;
      assert t.stops[i] in t.stops;
    }
  }

  lemma PatternFits(t: TripRecord)
    requires TripRecordFits(t)
    ensures |Pattern(t.stops)| == |t.stops| && forall s :: s in Pattern(t.stops) ==> ByteString(s)
  {
    hide ByteString, Word;
    forall s | s in Pattern(t.stops)
      ensures ByteString(s)
    {
      var i :| 0 <= i < |t.stops| && Pattern(t.stops)[i] == s;
      assert t.stops[i] in t.stops;
    }
  }

  lemma RouteFits(rows: seq<Row>, b: RouteBuffer, r: nat)
    requires TimetableLoaded(rows, b.routes, b.stopTimes) && r < |b.routes| == |b.stopTimes| && RowsFit(rows)
    ensures FitsRoute(RouteContentOf(b, r))
  {
    hide TimetableLoaded, Trips, ByteString, FitsTrip, Table;
    TripsFit(rows);
    FewTrips(rows);
    var leader := LeaderRuns(rows, b, r);
    PatternFits(leader);
    RouteNamed(rows, b, r);
    FewSlots(rows, b, r);
    var content := TripsContent(b.stopTimes[r]);
    forall c | c in content
      ensures FitsTrip(c)
    {
      var t :| 0 <= t < |content| && content[t] == c;
      var u := SlotTrip(rows, b, r, t);
      TableFits(u, |rows|);
    }
  }

  lemma RouteNamed(rows: seq<Row>, b: RouteBuffer, r: nat)
    requires TimetableLoaded(rows, b.routes, b.stopTimes) && r < |b.routes|
    requires forall t :: t in Trips(rows) ==> TripRecordFits(t)
    ensures ByteString(b.routes[r].routeID)
  {
    var trips := Trips(rows);
    var ids := RoutesSeen(trips);
    hide ByteString, Trips;
    assert RouteLoaded(OfRoute(trips, ids[r]), ids[r], b.routes[r], b.stopTimes[r]);
    assert ids[r] in ids;
    var t :| t in trips && t.routeID == ids[r];
    assert TripRecordFits(t);
  }

  // ---- Walks -------------------------------------------------------------------------------------

  lemma {:induction false} FewStations(foot: seq<FootRow>)
    ensures |DirectWalks(foot).Keys| <= |foot|
  {
    if foot != [] {
      var n := |foot| - 1;
      FewStations(foot[..n]);
      var g, row := DirectWalks(foot[..n]), foot[n];
      if !(row.walkSeconds <= 0 || row.station == row.neighbour) {
        assert DirectWalks(foot).Keys == g.Keys + {row.station};
      }
    }
  }

  lemma StationFits(foot: seq<FootRow>, s: string)
    requires WalkRowsFit(foot) && s in DirectWalks(foot)
    ensures ByteString(s)
  {
    hide ByteString;
    DirectWalksAreRows(foot);
    var e := DirectWalks(foot)[s][0];
    assert e in Edges(DirectWalks(foot), s);
    assert FootRow(s, e.neighbourStop, e.walkSeconds) in foot;
  }

  /** Where a walk of at least one step ends, some row leads. */
  lemma WalkEndFits(foot: seq<FootRow>, u: string, v: string, d: int)
    requires WalkRowsFit(foot) && Reach(DirectWalks(foot), u, v, d) && u != v
    ensures ByteString(v)
  {
    hide ByteString;
    var g := DirectWalks(foot);
    var steps :| Follow(g, u, steps) == Some((v, d));
    var n := |steps| - 1;
    var (x, _) := Follow(g, u, steps[..n]).value;
    var e := Edges(g, x)[steps[n]];
    DirectWalksAreRows(foot);
    assert e in Edges(g, x);
    assert FootRow(x, e.neighbourStop, e.walkSeconds) in foot;
  }

  lemma WalksFit(foot: seq<FootRow>, opts: LoadOptions, out: Graph, s: string)
    requires WalkRowsFit(foot) && OptionsFit(opts) && WalksClosed(DirectWalks(foot), opts, out) && s in out
    ensures FitsWalks(WalkContent(s, out[s]))
  {
    hide ByteString, DirectWalks;
    var g := DirectWalks(foot);
    StationFits(foot, s);
    DirectNonNegative(foot);
    assert ClosedAt(g, opts, out, s);
    var full: seq<Footpath> :| IsNeighbourhood(g, s, opts.Cap(), full)
      && Edges(out, s) == Nearest(full, opts.EdgeLimit());
    forall e | e in out[s]
      ensures FitsFootpath(e)
    {
      assert e in full;
      WalkEndFits(foot, s, e.neighbourStop, e.walkSeconds);
      var steps :| Follow(g, s, steps) == Some((e.neighbourStop, e.walkSeconds));
      FollowNonNegative(g, s, steps);
    }
  }

  /** A buffer loaded from machine-sized rows fits the manifest's words and byte strings. */
  lemma LoadedFits(rows: seq<Row>, foot: seq<FootRow>, opts: LoadOptions, b: RouteBuffer)
    requires LoaderBuilt(b) && TimetableLoaded(rows, b.routes, b.stopTimes)
    requires WalksClosed(DirectWalks(foot), opts, b.footpaths)
    requires RowsFit(rows) && WalkRowsFit(foot) && OptionsFit(opts)
    ensures Fits(b)
  {
    hide TimetableLoaded, LoaderBuilt, FitsRoute, FitsWalks, RouteContentOf, DirectWalks, ClosedAt;
    RouteCount(rows, b);
    FewStations(foot);
    NoLarger(b.footpaths.Keys, DirectWalks(foot).Keys);
    assert |b.footpaths| == |b.footpaths.Keys|;
    forall c | c in RoutesContent(b)
      ensures FitsRoute(c)
    {
      var r :| 0 <= r < |b.routes| && RoutesContent(b)[r] == c;
      RouteFits(rows, b, r);
    }
    forall s | s in b.footpaths
      ensures FitsWalks(WalkContent(s, b.footpaths[s]))
    {
      WalksFit(foot, opts, b.footpaths, s);
    }
  }

  lemma RouteCount(rows: seq<Row>, b: RouteBuffer)
    requires TimetableLoaded(rows, b.routes, b.stopTimes)
    ensures |b.routes| == |b.stopTimes| <= |rows|
  {
    FewRoutes(Trips(rows));
    FewTrips(rows);
  }
}
