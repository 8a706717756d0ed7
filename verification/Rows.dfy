/** The timetable query's rows, and the trips they describe (`ReloadRouteArrays`, the row loop). */
module Rows {
  import opened Model
  import opened Ordering

  /** One row of the query, in the query's order: route, trip, date, stop sequence. */
  datatype Row = Row(routeID: string, key: TripKey, stationID: string, arrival: int, departure: int)

  datatype StopRecord = StopRecord(stationID: string, arrival: int, departure: int)

  datatype TripRecord = TripRecord(key: TripKey, routeID: string, stops: seq<StopRecord>)

  function StopOf(row: Row): StopRecord {
    StopRecord(row.stationID, row.arrival, row.departure)
  }

  /** Consecutive rows with the same key make up one trip, on the route of its first row. */
  function Trips(rows: seq<Row>): (trips: seq<TripRecord>)
    ensures rows != [] ==> trips != [] && trips[|trips| - 1].key == rows[|rows| - 1].key
    ensures forall t :: t in trips ==> t.stops != []
  {
    if rows == [] then []
    else
      var row, before := rows[|rows| - 1], Trips(rows[..|rows| - 1]);
      if before != [] && before[|before| - 1].key == row.key then
        before[|before| - 1 := Extended(before[|before| - 1], row)]
      else before + [TripRecord(row.key, row.routeID, [StopOf(row)])]
  }

  function Extended(t: TripRecord, row: Row): TripRecord {
    t.(stops := t.stops + [StopOf(row)])
  }

  function OfRoute(trips: seq<TripRecord>, routeID: string): seq<TripRecord> {
    if trips == [] then []
    else
      var n := |trips| - 1;
      OfRoute(trips[..n], routeID) + if trips[n].routeID == routeID then [trips[n]] else []
  }

  /** Route identifiers in order of first appearance. */
  function RoutesSeen(trips: seq<TripRecord>): (ids: seq<string>)
    ensures forall t :: t in trips ==> t.routeID in ids
    ensures forall id :: id in ids ==> exists t :: t in trips && t.routeID == id
    ensures Distinct(ids)
  {
    if trips == [] then []
    else
      var n := |trips| - 1;
      var ids := RoutesSeen(trips[..n]);
      assert forall t :: t in trips ==> t in trips[..n] || t == trips[n];
      assert trips[n] in trips;
      if trips[n].routeID in ids then ids else ids + [trips[n].routeID]
  }

  /** What the row loop knows after some rows: the trips so far, by route, and the routes in order. */
  ghost predicate Grouped(trips: seq<TripRecord>, routeTrips: map<string, seq<TripRecord>>, routeOrder: seq<string>) {
    && routeOrder == RoutesSeen(trips)
    && (forall r :: r in routeTrips <==> r in routeOrder)
    && (forall r :: r in routeTrips ==> routeTrips[r] == OfRoute(trips, r))
  }

  lemma {:induction false} NotOnRoute(trips: seq<TripRecord>, r: string)
    requires r !in RoutesSeen(trips)
    ensures OfRoute(trips, r) == []
  {
    if trips != [] {
      var n := |trips| - 1;
      assert trips[n] in trips;
      NotOnRoute(trips[..n], r);
    }
  }

  lemma NextTrip(trips: seq<TripRecord>, t: TripRecord, r: string)
    ensures OfRoute(trips + [t], r) == OfRoute(trips, r) + if t.routeID == r then [t] else []
    ensures RoutesSeen(trips + [t]) == if t.routeID in RoutesSeen(trips) then RoutesSeen(trips)
                                       else RoutesSeen(trips) + [t.routeID]
  {
    assert (trips + [t])[..|trips|] == trips;
  }

  lemma NextStop(trips: seq<TripRecord>, row: Row, r: string)
    requires trips != []
    ensures var n := |trips| - 1; var longer := trips[n := Extended(trips[n], row)];
            RoutesSeen(longer) == RoutesSeen(trips)
            && OfRoute(longer, r) == if trips[n].routeID == r
                                     then OfRoute(trips, r)[|OfRoute(trips, r)| - 1 := Extended(trips[n], row)]
                                     else OfRoute(trips, r)
    ensures trips[|trips| - 1].routeID in RoutesSeen(trips)
    ensures var own := OfRoute(trips, trips[|trips| - 1].routeID); own != [] && own[|own| - 1] == trips[|trips| - 1]
  {
    var n := |trips| - 1;
    assert trips[n := Extended(trips[n], row)][..n] == trips[..n];
    assert trips[n] in trips;
  }

  /** The row loop: start a trip whenever the key changes, and add the stop to the trip last started, which is
      always the last one of its route. */
  method GroupRows(rows: seq<Row>) returns (routeTrips: map<string, seq<TripRecord>>, routeOrder: seq<string>)
    ensures Grouped(Trips(rows), routeTrips, routeOrder)
  {
    routeTrips, routeOrder := map[], [];
    var currentRoute := "";
    for i := 0 to |rows|
      invariant Grouped(Trips(rows[..i]), routeTrips, routeOrder)
      invariant i > 0 ==> currentRoute == Trips(rows[..i])[|Trips(rows[..i])| - 1].routeID
    {
      ghost var trips := Trips(rows[..i]);
      assert rows[..i + 1][..i] == rows[..i];
      var row := rows[i];
      if i > 0 {
        NextStop(trips, row, currentRoute);
      }
      if i == 0 || routeTrips[currentRoute][|routeTrips[currentRoute]| - 1].key != row.key {
        currentRoute := row.routeID;
        StartTrip(trips, routeTrips, routeOrder, TripRecord(row.key, row.routeID, [StopOf(row)]));
        var record := TripRecord(row.key, row.routeID, [StopOf(row)]);
        if row.routeID !in routeTrips {
          routeTrips := routeTrips[row.routeID := [record]];
          routeOrder := routeOrder + [row.routeID];
        } else {
          routeTrips := routeTrips[row.routeID := routeTrips[row.routeID] + [record]];
        }
      } else {
        AddStop(trips, routeTrips, routeOrder, row);
        var ofRoute := routeTrips[currentRoute];
        var last := |ofRoute| - 1;
        routeTrips := routeTrips[currentRoute := ofRoute[last := Extended(ofRoute[last], row)]];
      }
    }
    assert rows[..|rows|] == rows;
  }

  lemma StartTrip(trips: seq<TripRecord>, routeTrips: map<string, seq<TripRecord>>, routeOrder: seq<string>,
                  t: TripRecord)
    requires Grouped(trips, routeTrips, routeOrder)
    ensures t.routeID !in routeTrips ==> Grouped(trips + [t], routeTrips[t.routeID := [t]], routeOrder + [t.routeID])
    ensures t.routeID in routeTrips ==>
              Grouped(trips + [t], routeTrips[t.routeID := routeTrips[t.routeID] + [t]], routeOrder)
  {
    hide OfRoute, RoutesSeen, Distinct;
    forall r
      ensures OfRoute(trips + [t], r) == OfRoute(trips, r) + if t.routeID == r then [t] else []
    {
      NextTrip(trips, t, r);
    }
    NextTrip(trips, t, t.routeID);
    if t.routeID !in routeTrips {
      NotOnRoute(trips, t.routeID);
    }
  }

  lemma AddStop(trips: seq<TripRecord>, routeTrips: map<string, seq<TripRecord>>, routeOrder: seq<string>, row: Row)
    requires trips != [] && Grouped(trips, routeTrips, routeOrder)
    ensures var n := |trips| - 1; var r := trips[n].routeID;
            r in routeTrips && routeTrips[r] != []
            && routeTrips[r][|routeTrips[r]| - 1] == trips[n]
            && Grouped(trips[n := Extended(trips[n], row)],
                       routeTrips[r := routeTrips[r][|routeTrips[r]| - 1 := Extended(trips[n], row)]], routeOrder)
  {
    hide OfRoute, RoutesSeen, Distinct;
    var n := |trips| - 1;
    var longer := trips[n := Extended(trips[n], row)];
    NextStop(trips, row, trips[n].routeID);
    forall r
      ensures OfRoute(longer, r) == if trips[n].routeID == r
                                    then OfRoute(trips, r)[|OfRoute(trips, r)| - 1 := Extended(trips[n], row)]
                                    else OfRoute(trips, r)
    {
      NextStop(trips, row, r);
    }
  }

  // ---- What a trip is, said of the rows ----------------------------------------------------------

  /** The stops of one trip, wherever its rows are. */
  function StopsOf(rows: seq<Row>, key: TripKey): seq<StopRecord> {
    if rows == [] then []
    else
      var n := |rows| - 1;
      StopsOf(rows[..n], key) + if rows[n].key == key then [StopOf(rows[n])] else []
  }

  /** What the query's ordering and the trip table's primary key give: the rows of a trip are consecutive and
      name one route. */
  ghost predicate Contiguous(rows: seq<Row>) {
    forall i, k :: 0 <= i < k < |rows| && rows[i].key == rows[k].key ==>
      rows[i].routeID == rows[k].routeID && forall j :: i <= j <= k ==> rows[j].key == rows[k].key
  }

  ghost predicate DistinctKeys(trips: seq<TripRecord>) {
    forall i, j :: 0 <= i < j < |trips| ==> trips[i].key != trips[j].key
  }

  /** The trip table as the rows describe it: one trip per key, on the route of its rows, with all of its
      stops in row order. */
  ghost predicate IsTripTable(rows: seq<Row>, trips: seq<TripRecord>) {
    && DistinctKeys(trips)
    && (forall t :: t in trips ==> t.stops == StopsOf(rows, t.key) && t.stops != [])
    && (forall row :: row in rows ==> exists t :: t in trips && t.key == row.key && t.routeID == row.routeID)
  }

  lemma {:induction false} NoStops(rows: seq<Row>, key: TripKey)
    requires forall row :: row in rows ==> row.key != key
    ensures StopsOf(rows, key) == []
  {
    if rows != [] {
      assert rows[|rows| - 1] in rows;
      NoStops(rows[..|rows| - 1], key);
    }
  }

  lemma {:induction false} EveryTripHasRow(rows: seq<Row>, t: TripRecord)
    requires t in Trips(rows)
    ensures exists i :: 0 <= i < |rows| && rows[i].key == t.key && rows[i].routeID == t.routeID
  {
    var n := |rows| - 1;
    var row, before := rows[n], Trips(rows[..n]);
    if t in before {
      EveryTripHasRow(rows[..n], t);
      var i :| 0 <= i < |rows[..n]| && rows[..n][i].key == t.key && rows[..n][i].routeID == t.routeID;
      assert rows[i].key == t.key;
    } else if before != [] && before[|before| - 1].key == row.key {
      EveryTripHasRow(rows[..n], before[|before| - 1]);
      var i :| 0 <= i < |rows[..n]| && rows[..n][i].key == t.key && rows[..n][i].routeID == t.routeID;
      assert rows[i].key == t.key;
    } else {
      assert rows[n].key == t.key;
    }
  }

  /** With contiguous rows, breaking at key changes recovers exactly the trip table. */
  lemma {:induction false} TripsAreTheTable(rows: seq<Row>)
    requires Contiguous(rows)
    ensures IsTripTable(rows, Trips(rows))
  {
    if rows != [] {
      var n := |rows| - 1;
      TripsAreTheTable(rows[..n]);
      LastRowJoins(rows);
    }
  }

  lemma LastRowJoins(rows: seq<Row>)
    requires rows != [] && Contiguous(rows) && IsTripTable(rows[..|rows| - 1], Trips(rows[..|rows| - 1]))
    ensures IsTripTable(rows, Trips(rows))
  {
    hide IsTripTable, Contiguous, StopsOf;
    var n := |rows| - 1;
    var row, before := rows[n], Trips(rows[..n]);
    if before != [] && before[|before| - 1].key == row.key {
      var last := before[|before| - 1];
      EveryTripHasRow(rows[..n], last);
      var i :| 0 <= i < |rows[..n]| && rows[..n][i].key == last.key && rows[..n][i].routeID == last.routeID;
      SameRoute(rows, i);
      TableExtended(rows, before);
    } else {
      NewKey(rows);
      TableGrown(rows, before);
    }
  }

  lemma SameRoute(rows: seq<Row>, i: nat)
    requires i < |rows| - 1 && Contiguous(rows) && rows[i].key == rows[|rows| - 1].key
    ensures rows[i].routeID == rows[|rows| - 1].routeID
  {
  }

  lemma StopsGrow(rows: seq<Row>, key: TripKey)
    requires rows != []
    ensures StopsOf(rows, key) == StopsOf(rows[..|rows| - 1], key)
                                  + if rows[|rows| - 1].key == key then [StopOf(rows[|rows| - 1])] else []
  {
  }

  lemma TableExtended(rows: seq<Row>, before: seq<TripRecord>)
    requires rows != [] && before != [] && IsTripTable(rows[..|rows| - 1], before)
    requires before[|before| - 1].key == rows[|rows| - 1].key
             && before[|before| - 1].routeID == rows[|rows| - 1].routeID
    ensures IsTripTable(rows, before[|before| - 1 := Extended(before[|before| - 1], rows[|rows| - 1])])
  {
    hide StopsOf;
    var n, m := |rows| - 1, |before| - 1;
    var trips := before[m := Extended(before[m], rows[n])];
    forall t | t in trips
      ensures t.stops == StopsOf(rows, t.key) && t.stops != []
    {
      StopsGrow(rows, t.key);
      var i :| 0 <= i < |trips| && trips[i] == t;
      assert before[i] in before;
    }
    forall row | row in rows
      ensures exists t :: t in trips && t.key == row.key && t.routeID == row.routeID
    {
      assert trips[m] in trips;
      if row in rows[..n] {
        var t :| t in before && t.key == row.key && t.routeID == row.routeID;
        var i :| 0 <= i < |before| && before[i] == t;
        assert trips[i] in trips;
      }
    }
  }

  lemma TableGrown(rows: seq<Row>, before: seq<TripRecord>)
    requires rows != [] && IsTripTable(rows[..|rows| - 1], before)
    requires StopsOf(rows[..|rows| - 1], rows[|rows| - 1].key) == []
    requires forall t :: t in before ==> t.key != rows[|rows| - 1].key
    ensures IsTripTable(rows, before + [TripRecord(rows[|rows| - 1].key, rows[|rows| - 1].routeID,
                                                   [StopOf(rows[|rows| - 1])])])
  {
    hide StopsOf;
    var n := |rows| - 1;
    var trips := before + [TripRecord(rows[n].key, rows[n].routeID, [StopOf(rows[n])])];
    forall t | t in trips
      ensures t.stops == StopsOf(rows, t.key) && t.stops != []
    {
      StopsGrow(rows, t.key);
    }
    forall row | row in rows
      ensures exists t :: t in trips && t.key == row.key && t.routeID == row.routeID
    {
      assert trips[|before|] in trips;
      if row in rows[..n] {
        var t :| t in before && t.key == row.key && t.routeID == row.routeID;
        assert t in trips;
      }
    }
  }

  /** A key that differs from the last trip's has not been seen before. */
  lemma NewKey(rows: seq<Row>)
    requires rows != [] && Contiguous(rows)
    requires var before := Trips(rows[..|rows| - 1]);
             before == [] || before[|before| - 1].key != rows[|rows| - 1].key
    ensures forall t :: t in Trips(rows[..|rows| - 1]) ==> t.key != rows[|rows| - 1].key
    ensures StopsOf(rows[..|rows| - 1], rows[|rows| - 1].key) == []
  {
    var n := |rows| - 1;
    forall i | 0 <= i < n
      ensures rows[i].key != rows[n].key
    {
      assert rows[..n][n - 1] == rows[n - 1];
    }
    forall t | t in Trips(rows[..n])
      ensures t.key != rows[n].key
    {
      EveryTripHasRow(rows[..n], t);
    }
    NoStops(rows[..n], rows[n].key);
  }
}
