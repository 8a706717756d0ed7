/** What a loaded buffer guarantees: which trips it holds, that its trip index is exact, and that it meets the
    engine's assumptions exactly when the trips it holds run forwards in time. */
module Loaded {
  import opened Model
  import opened Ordering
  import opened Rows
  import opened Loader

  /** The first trip of a route, which gives the route its stops. */
  function Leader(trips: seq<TripRecord>, id: string): TripRecord
    requires OfRoute(trips, id) != []
  {
    OfRoute(trips, id)[0]
  }

  lemma {:induction false} OnRoute(trips: seq<TripRecord>, id: string)
    ensures forall t :: t in OfRoute(trips, id) <==> t in trips && t.routeID == id
  {
    if trips != [] {
      OnRoute(trips[..|trips| - 1], id);
    }
  }

  /** The slots of route `r` are exactly the trips of that route which stop where its leader stops. */
  lemma SlotsAreServingTrips(rows: seq<Row>, b: RouteBuffer, r: nat, slot: TripStopTimes)
    requires TimetableLoaded(rows, b.routes, b.stopTimes) && r < |b.routes|
    ensures OfRoute(Trips(rows), b.routes[r].routeID) != []
    ensures b.routes[r].stopIDs == Pattern(Leader(Trips(rows), b.routes[r].routeID).stops)
    ensures slot in b.stopTimes[r] <==>
            exists t :: t in Trips(rows) && t.routeID == b.routes[r].routeID
                        && Pattern(t.stops) == b.routes[r].stopIDs && slot == Table(t)
  {
    var trips, id := Trips(rows), b.routes[r].routeID;
    assert RouteLoaded(OfRoute(trips, RoutesSeen(trips)[r]), RoutesSeen(trips)[r], b.routes[r], b.stopTimes[r]);
    var served := Serving(OfRoute(trips, id), b.routes[r].stopIDs);
    OnRoute(trips, id);
    ServingServes(OfRoute(trips, id), b.routes[r].stopIDs);
    SlotsAreTables(served, b.stopTimes[r]);
    hide Trips, RoutesSeen, OfRoute, Serving, RouteLoaded, RoutesLoaded, Table;
    if slot in b.stopTimes[r] {
      var t :| t in served && slot == Table(t);
      assert t in OfRoute(trips, id);
    }
    if t :| t in trips && t.routeID == id && Pattern(t.stops) == b.routes[r].stopIDs && slot == Table(t) {
      assert t in served;
    }
  }

  /** Every trip is on exactly one loaded route; it has a slot there if and only if it stops where the route's
      leader stops. */
  lemma TripKeptIffItServes(rows: seq<Row>, b: RouteBuffer, t: TripRecord) returns (r: nat)
    requires TimetableLoaded(rows, b.routes, b.stopTimes) && t in Trips(rows)
    requires Contiguous(rows)
    ensures r < |b.routes| && b.routes[r].routeID == t.routeID
    ensures OfRoute(Trips(rows), t.routeID) != []
    ensures Table(t) in b.stopTimes[r] <==> Pattern(t.stops) == Pattern(Leader(Trips(rows), t.routeID).stops)
    ensures forall r' :: 0 <= r' < |b.routes| && b.routes[r'].routeID == t.routeID ==> r' == r
  {
    var trips := Trips(rows);
    var ids := RoutesSeen(trips);
    RoutesNamed(rows, b);
    hide TimetableLoaded, Trips, RoutesSeen, OfRoute, Pattern, Contiguous, DistinctKeys;
    r :| 0 <= r < |ids| && ids[r] == t.routeID;
    SlotsAreServingTrips(rows, b, r, Table(t));
    TripsAreTheTable(rows);
    if Table(t) in b.stopTimes[r] {
      var u :| u in trips && u.routeID == t.routeID && Pattern(u.stops) == b.routes[r].stopIDs && Table(t) == Table(u);
      SameTrip(trips, t, u);
    }
  }

  lemma RoutesNamed(rows: seq<Row>, b: RouteBuffer)
    requires TimetableLoaded(rows, b.routes, b.stopTimes)
    ensures var ids := RoutesSeen(Trips(rows));
            && |b.routes| == |ids| && Distinct(ids) && (forall i :: 0 <= i < |ids| ==> b.routes[i].routeID == ids[i])
            && forall t :: t in Trips(rows) ==> t.routeID in ids
  {
    var trips, ids := Trips(rows), RoutesSeen(Trips(rows));
    hide Trips, RoutesSeen, OfRoute;
    forall i | 0 <= i < |ids|
      ensures b.routes[i].routeID == ids[i]
    {
      assert RouteLoaded(OfRoute(trips, ids[i]), ids[i], b.routes[i], b.stopTimes[i]);
    }
  }

  lemma SameTrip(trips: seq<TripRecord>, t: TripRecord, u: TripRecord)
    requires DistinctKeys(trips) && t in trips && u in trips && t.key == u.key
    ensures t == u
  {
  }

  // ---- The trip index ----------------------------------------------------------------------------

  ghost predicate KeysUnique(stopTimes: seq<seq<TripStopTimes>>) {
    forall r, t, r', t' ::
      0 <= r < |stopTimes| && 0 <= t < |stopTimes[r]| && 0 <= r' < |stopTimes| && 0 <= t' < |stopTimes[r']| &&
      stopTimes[r][t].key == stopTimes[r'][t'].key ==>
        r == r' && t == t'
  }

  /** The index maps each kept key to the slot holding it after sorting, and has nothing else. */
  lemma TripIndexIsExact(b: RouteBuffer, k: TripKey, r: int, t: int)
    requires LoaderBuilt(b) && KeysUnique(b.stopTimes)
    ensures (k in b.tripIndex && b.tripIndex[k] == TripLocation(r, t)) <==>
            (0 <= r < |b.stopTimes| && 0 <= t < |b.stopTimes[r]| && b.stopTimes[r][t].key == k)
  {
    if k in b.tripIndex {
      assert LastSlot(b.stopTimes, k, b.tripIndex[k].routeIdx, b.tripIndex[k].tripIdx);
    }
  }

  lemma {:induction false} FilteredKeys(trips: seq<TripRecord>, stopIDs: seq<string>)
    requires DistinctKeys(trips)
    ensures DistinctKeys(Serving(trips, stopIDs))
  {
    if trips != [] {
      var n := |trips| - 1;
      FilteredKeys(trips[..n], stopIDs);
      ServingServes(trips[..n], stopIDs);
      var kept := Serving(trips[..n], stopIDs);
      forall i | 0 <= i < |kept|
        ensures kept[i].key != trips[n].key
      {
        assert kept[i] in kept;
      }
    }
  }

  lemma {:induction false} RouteKeys(trips: seq<TripRecord>, id: string)
    requires DistinctKeys(trips)
    ensures DistinctKeys(OfRoute(trips, id))
  {
    if trips != [] {
      var n := |trips| - 1;
      RouteKeys(trips[..n], id);
      OnRoute(trips[..n], id);
      var kept := OfRoute(trips[..n], id);
      forall i | 0 <= i < |kept|
        ensures kept[i].key != trips[n].key
      {
        assert kept[i] in kept;
      }
    }
  }

  ghost predicate DistinctSlots(slots: seq<TripStopTimes>) {
    forall i, j :: 0 <= i < j < |slots| ==> slots[i].key != slots[j].key
  }

  lemma SortedKeysDistinct(trips: seq<TripRecord>, slots: seq<TripStopTimes>)
    requires DistinctKeys(trips) && multiset(slots) == multiset(Tables(trips))
    ensures DistinctSlots(slots)
  {
    var tables := Tables(trips);
    PermutationDistinct(tables, slots);
    SameElements(slots, tables);
    forall i, j | 0 <= i < j < |slots|
      ensures slots[i].key != slots[j].key
    {
      assert slots[i] in tables && slots[j] in tables;
      var m :| 0 <= m < |tables| && tables[m] == slots[i];
      var n :| 0 <= n < |tables| && tables[n] == slots[j];
    }
  }

  /** Two slots of different routes hold different trips. */
  lemma RoutesDoNotShare(rows: seq<Row>, b: RouteBuffer, r: nat, t: nat, r': nat, t': nat)
    requires Contiguous(rows) && TimetableLoaded(rows, b.routes, b.stopTimes)
    requires r < |b.stopTimes| && t < |b.stopTimes[r]| && r' < |b.stopTimes| && t' < |b.stopTimes[r']|
    requires b.stopTimes[r][t].key == b.stopTimes[r'][t'].key
    ensures r == r'
  {
    var trips := Trips(rows);
    SlotsAreServingTrips(rows, b, r, b.stopTimes[r][t]);
    SlotsAreServingTrips(rows, b, r', b.stopTimes[r'][t']);
    TripsAreTheTable(rows);
    hide Trips, OfRoute, TimetableLoaded;
    assert b.stopTimes[r][t] in b.stopTimes[r] && b.stopTimes[r'][t'] in b.stopTimes[r'];
    var u :| u in trips && u.routeID == b.routes[r].routeID && Pattern(u.stops) == b.routes[r].stopIDs
      && b.stopTimes[r][t] == Table(u);
    var u' :| u' in trips && u'.routeID == b.routes[r'].routeID && Pattern(u'.stops) == b.routes[r'].stopIDs
      && b.stopTimes[r'][t'] == Table(u');
    SameTrip(trips, u, u');
    RouteOnce(rows, b, r, r');
  }

  lemma RouteOnce(rows: seq<Row>, b: RouteBuffer, r: nat, r': nat)
    requires TimetableLoaded(rows, b.routes, b.stopTimes) && r < |b.routes| && r' < |b.routes|
    requires b.routes[r].routeID == b.routes[r'].routeID
    ensures r == r'
  {
    var trips := Trips(rows);
    var ids := RoutesSeen(trips);
    assert RouteLoaded(OfRoute(trips, ids[r]), ids[r], b.routes[r], b.stopTimes[r]);
    assert RouteLoaded(OfRoute(trips, ids[r']), ids[r'], b.routes[r'], b.stopTimes[r']);
  }

  lemma OneRouteKeys(rows: seq<Row>, b: RouteBuffer, r: nat)
    requires Contiguous(rows) && TimetableLoaded(rows, b.routes, b.stopTimes) && r < |b.stopTimes|
    ensures DistinctSlots(b.stopTimes[r])
  {
    var trips := Trips(rows);
    var id := RoutesSeen(trips)[r];
    assert RouteLoaded(OfRoute(trips, id), id, b.routes[r], b.stopTimes[r]);
    TripsAreTheTable(rows);
    RouteKeys(trips, id);
    FilteredKeys(OfRoute(trips, id), b.routes[r].stopIDs);
    SortedKeysDistinct(Serving(OfRoute(trips, id), b.routes[r].stopIDs), b.stopTimes[r]);
  }

  /** With contiguous rows no trip is loaded twice, so the index is exact. */
  lemma LoadedKeysUnique(rows: seq<Row>, b: RouteBuffer)
    requires Contiguous(rows) && TimetableLoaded(rows, b.routes, b.stopTimes)
    ensures KeysUnique(b.stopTimes)
  {
    hide TimetableLoaded, Contiguous, DistinctSlots;
    forall r, t, r', t' | 0 <= r < |b.stopTimes| && 0 <= t < |b.stopTimes[r]| && 0 <= r' < |b.stopTimes|
      && 0 <= t' < |b.stopTimes[r']| && b.stopTimes[r][t].key == b.stopTimes[r'][t'].key
      ensures r == r' && t == t'
    {
      RoutesDoNotShare(rows, b, r, t, r', t');
      OneRouteKeys(rows, b, r);
      DifferentSlots(b.stopTimes[r], t, t');
    }
  }

  lemma DifferentSlots(slots: seq<TripStopTimes>, t: nat, t': nat)
    requires DistinctSlots(slots) && t < |slots| && t' < |slots| && slots[t].key == slots[t'].key
    ensures t == t'
  {
  }

  // ---- The engine's assumptions ------------------------------------------------------------------

  /** No trip pulls in anywhere before it has left an earlier stop, and nothing is nameless. */
  ghost predicate RunsForward(t: TripRecord) {
    && t.key.tripID != ""
    && (forall p :: 0 <= p < |t.stops| ==> t.stops[p].stationID != "")
    && (forall p, q :: 0 <= p < q < |t.stops| ==> t.stops[p].departure <= t.stops[q].arrival)
  }

  /** A trip with a slot: it stops where the first trip of its route does. */
  ghost predicate Kept(rows: seq<Row>, t: TripRecord) {
    && t in Trips(rows) && OfRoute(Trips(rows), t.routeID) != []
    && Pattern(t.stops) == Pattern(Leader(Trips(rows), t.routeID).stops)
  }

  /** Every trip that has a slot runs forwards; those the loader drops may do as they like. */
  ghost predicate KeptRunForward(rows: seq<Row>) {
    forall t :: Kept(rows, t) ==> RunsForward(t)
  }

  lemma RunningTable(route: RouteEntry, u: TripRecord)
    requires RunsForward(u) && Pattern(u.stops) == route.stopIDs
    ensures TripWellFormed(route, Table(u))
  {
    assert |Pattern(u.stops)| == |u.stops|;
  }

  /** The trip a slot was filled from. */
  lemma SlotTrip(rows: seq<Row>, b: RouteBuffer, r: nat, t: nat) returns (u: TripRecord)
    requires TimetableLoaded(rows, b.routes, b.stopTimes) && r < |b.routes| == |b.stopTimes| && t < |b.stopTimes[r]|
    ensures u in Trips(rows) && u.routeID == b.routes[r].routeID
    ensures Pattern(u.stops) == b.routes[r].stopIDs && b.stopTimes[r][t] == Table(u) && Kept(rows, u)
  {
    hide Trips, TimetableLoaded, Table;
    SlotsAreServingTrips(rows, b, r, b.stopTimes[r][t]);
    assert b.stopTimes[r][t] in b.stopTimes[r];
    u :| u in Trips(rows) && u.routeID == b.routes[r].routeID && Pattern(u.stops) == b.routes[r].stopIDs
      && b.stopTimes[r][t] == Table(u);
  }

  lemma LoadedTripWellFormed(rows: seq<Row>, b: RouteBuffer, r: nat, t: nat)
    requires TimetableLoaded(rows, b.routes, b.stopTimes)
    requires KeptRunForward(rows)
    requires r < |b.routes| == |b.stopTimes| && t < |b.stopTimes[r]|
    ensures TripWellFormed(b.routes[r], b.stopTimes[r][t])
  {
    hide Trips, TimetableLoaded, RunsForward, TripWellFormed, Table;
    var u := SlotTrip(rows, b, r, t);
    RunningTable(b.routes[r], u);
  }

  lemma LeaderRuns(rows: seq<Row>, b: RouteBuffer, r: nat) returns (leader: TripRecord)
    requires TimetableLoaded(rows, b.routes, b.stopTimes) && r < |b.routes|
    ensures Kept(rows, leader) && b.routes[r].stopIDs == Pattern(leader.stops)
  {
    var trips, ids := Trips(rows), RoutesSeen(Trips(rows));
    hide Trips, RoutesSeen, OfRoute;
    assert RouteLoaded(OfRoute(trips, ids[r]), ids[r], b.routes[r], b.stopTimes[r]);
    OnRoute(trips, ids[r]);
    leader := OfRoute(trips, ids[r])[0];
    assert leader in OfRoute(trips, ids[r]);
  }

  lemma LoadedStopsNamed(rows: seq<Row>, b: RouteBuffer, r: nat, p: nat)
    requires IndexesStops(b.routes, b.stopToRoutes) && TimetableLoaded(rows, b.routes, b.stopTimes)
    requires KeptRunForward(rows)
    requires r < |b.routes| && p < |b.routes[r].stopIDs|
    ensures Indexed(b, r, p) && b.routes[r].stopIDs[p] != ""
  {
    hide Trips, TimetableLoaded;
    var leader := LeaderRuns(rows, b, r);
    assert RunsForward(leader) && leader.stops[p].stationID != "";
    assert StopAt(b.routes, RouteStop(r, p), b.routes[r].stopIDs[p]);
  }

  lemma LoadedInOrder(b: RouteBuffer)
    requires LoaderBuilt(b)
    ensures |b.routes| == |b.stopTimes| && IndexesStops(b.routes, b.stopToRoutes)
    ensures forall r :: 0 <= r < |b.routes| && b.IsFIFO(r) ==> NonOvertaking(b.stopTimes[r])
  {
    forall r | 0 <= r < |b.routes| && b.IsFIFO(r)
      ensures NonOvertaking(b.stopTimes[r])
    {
      assert Measured(b.stopTimes[r], b.routeFIFO[r]);
    }
  }

  /** A loaded buffer is what the search expects. */
  lemma LoadedIsWellFormed(rows: seq<Row>, b: RouteBuffer)
    requires LoaderBuilt(b) && TimetableLoaded(rows, b.routes, b.stopTimes)
    requires KeptRunForward(rows)
    requires forall s, i :: s in b.footpaths && 0 <= i < |b.footpaths[s]| ==> b.footpaths[s][i].walkSeconds >= 0
    ensures WellFormed(b)
  {
    LoadedInOrder(b);
    hide IndexesStops, LoaderBuilt, TimetableLoaded, RunsForward, TripWellFormed, Indexed, NonOvertaking;
    forall r, t | 0 <= r < |b.routes| && 0 <= t < |b.stopTimes[r]|
      ensures TripWellFormed(b.routes[r], b.stopTimes[r][t])
    {
      LoadedTripWellFormed(rows, b, r, t);
    }
    forall r, p | 0 <= r < |b.routes| && 0 <= p < |b.routes[r].stopIDs|
      ensures Indexed(b, r, p) && b.routes[r].stopIDs[p] != ""
    {
      LoadedStopsNamed(rows, b, r, p);
    }
  }

  lemma SlotOfKept(rows: seq<Row>, b: RouteBuffer, u: TripRecord) returns (r: nat, t: nat)
    requires TimetableLoaded(rows, b.routes, b.stopTimes) && Kept(rows, u)
    ensures r < |b.routes| == |b.stopTimes| && t < |b.stopTimes[r]| && b.stopTimes[r][t] == Table(u)
    ensures Pattern(u.stops) == b.routes[r].stopIDs
  {
    var trips, ids := Trips(rows), RoutesSeen(Trips(rows));
    hide Trips, RoutesSeen, OfRoute, Table;
    r :| 0 <= r < |ids| && ids[r] == u.routeID;
    assert RouteLoaded(OfRoute(trips, ids[r]), ids[r], b.routes[r], b.stopTimes[r]);
    SlotsAreServingTrips(rows, b, r, Table(u));
    assert Table(u) in b.stopTimes[r];
    t :| 0 <= t < |b.stopTimes[r]| && b.stopTimes[r][t] == Table(u);
  }

  lemma SlotRunsForward(b: RouteBuffer, r: nat, t: nat, u: TripRecord)
    requires WellFormed(b) && r < |b.routes| && t < |b.stopTimes[r]| && b.stopTimes[r][t] == Table(u)
    requires Pattern(u.stops) == b.routes[r].stopIDs
    ensures RunsForward(u)
  {
    assert TripWellFormed(b.routes[r], b.stopTimes[r][t]);
    assert |Pattern(u.stops)| == |u.stops|;
    forall p | 0 <= p < |u.stops|
      ensures u.stops[p].stationID != ""
    {
      assert Indexed(b, r, p) && b.routes[r].stopIDs[p] == u.stops[p].stationID;
    }
    var slot := Table(u);
    forall p, q | 0 <= p < q < |u.stops|
      ensures u.stops[p].departure <= u.stops[q].arrival
    {
      assert slot.departures[p] <= slot.arrivals[q];
    }
  }

  /** A loaded buffer is what the search expects exactly when every trip that has a slot runs forwards. */
  lemma WellFormedExactly(rows: seq<Row>, b: RouteBuffer)
    requires LoaderBuilt(b) && TimetableLoaded(rows, b.routes, b.stopTimes)
    requires forall s, i :: s in b.footpaths && 0 <= i < |b.footpaths[s]| ==> b.footpaths[s][i].walkSeconds >= 0
    ensures WellFormed(b) <==> KeptRunForward(rows)
  {
    hide LoaderBuilt, TimetableLoaded, RunsForward, Kept, Table, Pattern;
    if WellFormed(b) {
      forall u | Kept(rows, u)
        ensures RunsForward(u)
      {
        var r, t := SlotOfKept(rows, b, u);
        SlotRunsForward(b, r, t, u);
      }
    } else if KeptRunForward(rows) {
      LoadedIsWellFormed(rows, b);
    }
  }
}
