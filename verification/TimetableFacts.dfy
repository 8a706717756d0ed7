/** What a loaded timetable says, in terms of its rows. */
module TimetableFacts {
  import opened Model
  import opened Ordering
  import opened Rows
  import opened Loader
  import opened Loaded

  /** The rows of one trip, in their order. */
  function RowsOf(rows: seq<Row>, key: TripKey): seq<Row> {
    if rows == [] then []
    else
      var n := |rows| - 1;
      RowsOf(rows[..n], key) + if rows[n].key == key then [rows[n]] else []
  }

  lemma {:induction false} StopsSayRows(rows: seq<Row>, key: TripKey)
    ensures |StopsOf(rows, key)| == |RowsOf(rows, key)|
    ensures forall p :: 0 <= p < |RowsOf(rows, key)| ==>
              var stop, row := StopsOf(rows, key)[p], RowsOf(rows, key)[p];
              && row in rows && row.key == key
              && stop.stationID == row.stationID && stop.arrival == row.arrival && stop.departure == row.departure
  {
    if rows != [] {
      StopsSayRows(rows[..|rows| - 1], key);
    }
  }

  /** A loaded slot stops where the rows of its trip say, and pulls in and leaves when they say, on the route they
      name. */
  lemma SlotsSayRows(rows: seq<Row>, b: RouteBuffer, r: nat, t: nat, p: nat)
    requires Contiguous(rows) && TimetableLoaded(rows, b.routes, b.stopTimes)
    requires r < |b.routes| == |b.stopTimes| && t < |b.stopTimes[r]|
    requires p < |RowsOf(rows, b.stopTimes[r][t].key)|
    ensures var slot := b.stopTimes[r][t]; var ks := RowsOf(rows, slot.key);
            && |slot.arrivals| == |slot.departures| == |b.routes[r].stopIDs| == |ks|
            && slot.arrivals[p] == ks[p].arrival && slot.departures[p] == ks[p].departure
            && |slot.stationIDs| == |ks| && slot.stationIDs[p] == b.routes[r].stopIDs[p] == ks[p].stationID
            && b.routes[r].routeID == ks[p].routeID
  {
    var slot := b.stopTimes[r][t];
    var u := SlotTrip(rows, b, r, t);
    TripsAreTheTable(rows);
    StopsSayRows(rows, slot.key);
    var row := RowsOf(rows, slot.key)[p];
    assert |Pattern(u.stops)| == |u.stops|;
    hide Trips, TimetableLoaded, Contiguous, StopsOf, RowsOf;
    var v :| v in Trips(rows) && v.key == row.key && v.routeID == row.routeID;
    SameTrip(Trips(rows), u, v);
  }

  /** A route lists the keys of its trips slot by slot. */
  lemma KeysFollowSlots(b: RouteBuffer, r: nat)
    requires LoaderBuilt(b) && r < |b.routes|
    ensures |b.stopTimes| == |b.routes| && |b.routes[r].tripKeys| == |b.stopTimes[r]|
    ensures forall t :: 0 <= t < |b.stopTimes[r]| ==> b.routes[r].tripKeys[t] == b.stopTimes[r][t].key
  {
    assert Shaped(b.routes[r], b.stopTimes[r]);
  }

  /** The trip at `m` is the first of its route. */
  ghost predicate FirstOfRoute(trips: seq<TripRecord>, m: int) {
    0 <= m < |trips| && forall x :: 0 <= x < m ==> trips[x].routeID != trips[m].routeID
  }

  /** Routes come in the order of their first trips. */
  lemma {:induction false} RoutesInOrder(trips: seq<TripRecord>, i: nat, j: nat, m: nat, n: nat)
    requires i < |RoutesSeen(trips)| && j < |RoutesSeen(trips)|
    requires FirstOfRoute(trips, m) && trips[m].routeID == RoutesSeen(trips)[i]
    requires FirstOfRoute(trips, n) && trips[n].routeID == RoutesSeen(trips)[j]
    ensures i < j <==> m < n
  {
    var k := |trips| - 1;
    hide FirstOfRoute;
    PlaceBefore(trips, i, m);
    PlaceBefore(trips, j, n);
    OnlyOnce(RoutesSeen(trips), i, j);
    if m < k && n < k {
      RoutesInOrder(trips[..k], i, j, m, n);
    }
  }

  /** One more trip adds at most its own route, at the end. */
  lemma SeenGrow(trips: seq<TripRecord>)
    requires trips != []
    ensures var k := |trips| - 1; var ids := RoutesSeen(trips[..k]);
            RoutesSeen(trips) == if trips[k].routeID in ids then ids else ids + [trips[k].routeID]
  {
  }

  lemma EarlierTrip(trips: seq<TripRecord>, k: nat, m: nat)
    requires m < k < |trips| && FirstOfRoute(trips, m)
    ensures FirstOfRoute(trips[..k], m) && trips[m].routeID in RoutesSeen(trips[..k])
  {
    var front := trips[..k];
    assert front[m] in front && front[m] == trips[m];
    hide RoutesSeen;
  }

  /** A route first seen before the last trip has its place already; one first seen there comes last. */
  lemma PlaceBefore(trips: seq<TripRecord>, i: nat, m: nat)
    requires i < |RoutesSeen(trips)| && FirstOfRoute(trips, m) && trips[m].routeID == RoutesSeen(trips)[i]
    ensures 0 <= m < |trips|
    ensures var k := |trips| - 1; var ids := RoutesSeen(trips[..k]);
            && ids <= RoutesSeen(trips) && |RoutesSeen(trips)| <= |ids| + 1
            && if m < k then i < |ids| && FirstOfRoute(trips[..k], m) else i == |ids|
  {
    var k := |trips| - 1;
    var front, ids, all := trips[..k], RoutesSeen(trips[..k]), RoutesSeen(trips);
    SeenGrow(trips);
    if m < k {
      EarlierTrip(trips, k, m);
      hide RoutesSeen;
      OnlyOnce(all, i, IndexOf(ids, trips[m].routeID));
    } else {
      FirstIsNew(front, trips, k);
      hide RoutesSeen;
      assert all == ids + [trips[k].routeID];
      OnlyOnce(all, i, |ids|);
    }
  }

  function IndexOf(ids: seq<string>, id: string): (x: nat)
    requires id in ids
    ensures x < |ids| && ids[x] == id
  {
    if ids[0] == id then 0 else 1 + IndexOf(ids[1..], id)
  }

  lemma OnlyOnce(ids: seq<string>, i: nat, j: nat)
    requires Distinct(ids) && i < |ids| && j < |ids|
    ensures ids[i] == ids[j] <==> i == j
  {
  }

  lemma FirstIsNew(front: seq<TripRecord>, trips: seq<TripRecord>, k: nat)
    requires k < |trips| && front == trips[..k] && FirstOfRoute(trips, k)
    ensures trips[k].routeID !in RoutesSeen(front)
  {
    forall t | t in front
      ensures t.routeID != trips[k].routeID
    {
      var x :| 0 <= x < k && front[x] == t;
    }
  }

  /** The trips of a loaded route leave its first stop in order; those that leave together by date, and on one date by
      trip identifier. */
  lemma SlotsAscend(rows: seq<Row>, b: RouteBuffer, r: nat, i: nat, j: nat)
    requires TimetableLoaded(rows, b.routes, b.stopTimes) && r < |b.stopTimes| && i < j < |b.stopTimes[r]|
    requires |b.stopTimes[r][i].departures| > 0 && |b.stopTimes[r][j].departures| > 0
    ensures var x, y := b.stopTimes[r][i], b.stopTimes[r][j];
            && x.departures[0] <= y.departures[0]
            && (x.departures[0] == y.departures[0] && x.key.date == y.key.date ==> LexLe(x.key.tripID, y.key.tripID))
            && (x.departures[0] == y.departures[0] ==> LexLe(x.key.date, y.key.date))
  {
    var trips := Trips(rows);
    var id := RoutesSeen(trips)[r];
    hide Trips, RoutesSeen, OfRoute;
    assert RouteLoaded(OfRoute(trips, id), id, b.routes[r], b.stopTimes[r]);
    assert SlotLe(b.stopTimes[r][i], b.stopTimes[r][j]);
    LexTotal(b.stopTimes[r][i].key.date, b.stopTimes[r][j].key.date);
  }
}
