/** Building the route buffer from the trips of the timetable (`ReloadRouteArrays`): one route at a time, keep
    the trips that serve the route's stops, sort them, measure their order, and index everything. */
module Loader {
  import opened Model
  import opened Ordering
  import opened Fifo
  import opened Rows

  function Pattern(stops: seq<StopRecord>): seq<string> {
    seq(|stops|, i requires 0 <= i < |stops| => stops[i].stationID)
  }

  /** The trips that stop exactly where the route does. */
  function Serving(trips: seq<TripRecord>, stopIDs: seq<string>): seq<TripRecord> {
    if trips == [] then []
    else
      var n := |trips| - 1;
      Serving(trips[..n], stopIDs) + if Pattern(trips[n].stops) == stopIDs then [trips[n]] else []
  }

  /** A trip's positional arrays. */
  function Table(t: TripRecord): TripStopTimes {
    TripStopTimes(t.key,
                  seq(|t.stops|, i requires 0 <= i < |t.stops| => t.stops[i].arrival),
                  seq(|t.stops|, i requires 0 <= i < |t.stops| => t.stops[i].departure),
                  Pattern(t.stops))
  }

  function Tables(trips: seq<TripRecord>): seq<TripStopTimes> {
    seq(|trips|, i requires 0 <= i < |trips| => Table(trips[i]))
  }

  function Keys(slots: seq<TripStopTimes>): seq<TripKey> {
    seq(|slots|, i requires 0 <= i < |slots| => slots[i].key)
  }

  function FirstDeparture(t: TripStopTimes): int {
    if t.departures == [] then 0 else t.departures[0]
  }

  /** First departure, then date, then trip. */
  predicate SlotLe(a: TripStopTimes, b: TripStopTimes) {
    if FirstDeparture(a) != FirstDeparture(b) then FirstDeparture(a) < FirstDeparture(b)
    else if a.key.date != b.key.date then LexLe(a.key.date, b.key.date)
    else LexLe(a.key.tripID, b.key.tripID)
  }

  lemma SlotOrder()
    ensures TotalOrder(SlotLe)
  {
    forall a, b
      ensures SlotLe(a, b) || SlotLe(b, a)
    {
      LexTotal(a.key.date, b.key.date);
      LexTotal(a.key.tripID, b.key.tripID);
    }
    forall a, b, c | SlotLe(a, b) && SlotLe(b, c)
      ensures SlotLe(a, c)
    {
      SlotTransitive(a, b, c);
    }
  }

  lemma SlotTransitive(a: TripStopTimes, b: TripStopTimes, c: TripStopTimes)
    requires SlotLe(a, b) && SlotLe(b, c)
    ensures SlotLe(a, c)
  {
    if FirstDeparture(a) == FirstDeparture(b) == FirstDeparture(c) {
      if a.key.date == b.key.date == c.key.date {
        LexTransitive(a.key.tripID, b.key.tripID, c.key.tripID);
      } else if a.key.date != b.key.date && b.key.date != c.key.date {
        LexTransitive(a.key.date, b.key.date, c.key.date);
        LexTotal(a.key.date, b.key.date);
      }
    }
  }

  // ---- What a built buffer is --------------------------------------------------------------------

  /** Position `(r, t)` holds the trip, and no later position does. */
  ghost predicate LastSlot(stopTimes: seq<seq<TripStopTimes>>, key: TripKey, r: int, t: int) {
    && 0 <= r < |stopTimes| && 0 <= t < |stopTimes[r]| && stopTimes[r][t].key == key
    && forall r', t' :: 0 <= r' < |stopTimes| && 0 <= t' < |stopTimes[r']| && stopTimes[r'][t'].key == key ==>
         r' < r || (r' == r && t' <= t)
  }

  /** The trip index points at the slot of every trip there is. */
  ghost predicate IndexesTrips(stopTimes: seq<seq<TripStopTimes>>, m: map<TripKey, TripLocation>) {
    && (forall k :: k in m ==> LastSlot(stopTimes, k, m[k].routeIdx, m[k].tripIdx))
    && (forall r, t :: 0 <= r < |stopTimes| && 0 <= t < |stopTimes[r]| ==> stopTimes[r][t].key in m)
  }

  predicate StopAt(routes: seq<RouteEntry>, at: RouteStop, s: string) {
    && 0 <= at.routeIdx < |routes| && 0 <= at.stopPos < |routes[at.routeIdx].stopIDs|
    && routes[at.routeIdx].stopIDs[at.stopPos] == s
  }

  predicate Before(a: RouteStop, b: RouteStop) {
    a.routeIdx < b.routeIdx || (a.routeIdx == b.routeIdx && a.stopPos < b.stopPos)
  }

  ghost predicate InOrderOfPlace(ats: seq<RouteStop>) {
    forall i, j :: 0 <= i < j < |ats| ==> Before(ats[i], ats[j])
  }

  /** Every station lists exactly the places where a route stops at it, each once and in order. */
  ghost predicate IndexesStops(routes: seq<RouteEntry>, m: map<string, seq<RouteStop>>) {
    && (forall s, at :: s in m && at in m[s] ==> StopAt(routes, at, s))
    && (forall at, s :: StopAt(routes, at, s) ==> s in m && at in m[s])
    && (forall s :: s in m ==> m[s] != [] && InOrderOfPlace(m[s]))
  }

  /** The flag of a route is the truth about its trips. */
  ghost predicate Measured(slots: seq<TripStopTimes>, fifo: bool) {
    fifo <==> |slots| < 2 || (Rectangular(slots, |slots[0].departures|) && NonOvertaking(slots))
  }

  ghost predicate Shaped(route: RouteEntry, slots: seq<TripStopTimes>) {
    && route.tripKeys == Keys(slots)
    && forall t :: 0 <= t < |slots| ==>
         slots[t].stationIDs == route.stopIDs && |slots[t].arrivals| == |slots[t].departures| == |route.stopIDs|
  }

  /** Everything about a loaded buffer that follows from its routes and times. */
  ghost predicate LoaderBuilt(b: RouteBuffer) {
    && |b.routes| == |b.stopTimes| == |b.routeFIFO|
    && (forall r :: 0 <= r < |b.routes| ==>
        Shaped(b.routes[r], b.stopTimes[r]) && Measured(b.stopTimes[r], b.routeFIFO[r]))
    && IndexesTrips(b.stopTimes, b.tripIndex)
    && IndexesStops(b.routes, b.stopToRoutes)
  }

  /** The route `id` and its slots, as loaded from its trips: the first trip gives the stops, and exactly the
      trips serving them are kept, in order. */
  ghost predicate RouteLoaded(trips: seq<TripRecord>, id: string, route: RouteEntry, slots: seq<TripStopTimes>) {
    && trips != [] && route.routeID == id && route.stopIDs == Pattern(trips[0].stops)
    && multiset(slots) == multiset(Tables(Serving(trips, route.stopIDs)))
    && SortedBy(slots, SlotLe)
  }

  // ---- One route ---------------------------------------------------------------------------------

  method SamePattern(stops: seq<StopRecord>, stopIDs: seq<string>) returns (same: bool)
    ensures same <==> Pattern(stops) == stopIDs
  {
    if |stops| != |stopIDs| {
      assert |Pattern(stops)| == |stops|;
      return false;
    }
    for i := 0 to |stops|
      invariant forall j :: 0 <= j < i ==> stops[j].stationID == stopIDs[j]
    {
      if stops[i].stationID != stopIDs[i] {
        assert Pattern(stops)[i] != stopIDs[i];
        return false;
      }
    }
    return true;
  }

  method KeepServing(trips: seq<TripRecord>, stopIDs: seq<string>) returns (valid: seq<TripRecord>, skipped: nat)
    ensures valid == Serving(trips, stopIDs) && |valid| + skipped == |trips|
  {
    valid, skipped := [], 0;
    for i := 0 to |trips|
      invariant valid == Serving(trips[..i], stopIDs) && |valid| + skipped == i
    {
      assert trips[..i + 1][..i] == trips[..i];
      var same := SamePattern(trips[i].stops, stopIDs);
      if same {
        valid := valid + [trips[i]];
      } else {
        skipped := skipped + 1;
      }
    }
    assert trips[..|trips|] == trips;
  }

  lemma {:induction false} ServingServes(trips: seq<TripRecord>, stopIDs: seq<string>)
    ensures forall t :: t in Serving(trips, stopIDs) <==> t in trips && Pattern(t.stops) == stopIDs
  {
    if trips != [] {
      ServingServes(trips[..|trips| - 1], stopIDs);
    }
  }

  lemma SlotsAreTables(trips: seq<TripRecord>, slots: seq<TripStopTimes>)
    requires multiset(slots) == multiset(Tables(trips))
    ensures forall s :: s in slots <==> exists t :: t in trips && s == Table(t)
  {
    SameElements(slots, Tables(trips));
    forall s
      ensures s in slots <==> exists t :: t in trips && s == Table(t)
    {
      if s in slots {
        var i :| 0 <= i < |trips| && Tables(trips)[i] == s;
        assert trips[i] in trips;
      }
      if t :| t in trips && s == Table(t) {
        var i :| 0 <= i < |trips| && trips[i] == t;
        assert Tables(trips)[i] == s;
      }
    }
  }

  lemma LoadedIsShaped(trips: seq<TripRecord>, id: string, route: RouteEntry, slots: seq<TripStopTimes>)
    requires RouteLoaded(trips, id, route, slots) && route.tripKeys == Keys(slots)
    ensures Shaped(route, slots)
  {
    ServingServes(trips, route.stopIDs);
    SlotsAreTables(Serving(trips, route.stopIDs), slots);
    forall t | 0 <= t < |slots|
      ensures slots[t].stationIDs == route.stopIDs && |slots[t].arrivals| == |slots[t].departures| == |route.stopIDs|
    {
      assert slots[t] in slots;
    }
  }

  /** Sorting the slots of a route. */
  lemma SortedSlots(slots: seq<TripStopTimes>)
    ensures SortedBy(Sort(slots, SlotLe), SlotLe) && multiset(Sort(slots, SlotLe)) == multiset(slots)
    ensures |Sort(slots, SlotLe)| == |slots|
  {
    SlotOrder();
    SortSorts(slots, SlotLe);
  }

  // ---- The staging buffer ------------------------------------------------------------------------

  class Staging {
    var routes: seq<RouteEntry>
    var stopTimes: seq<seq<TripStopTimes>>
    var tripIndex: map<TripKey, TripLocation>
    var stopToRoutes: map<string, seq<RouteStop>>
    var routeFIFO: seq<bool>

    function Snapshot(footpaths: map<string, seq<Footpath>>): RouteBuffer
      reads this
    {
      RouteBuffer(routes, stopTimes, tripIndex, stopToRoutes, footpaths, routeFIFO)
    }

    constructor ()
      ensures routes == [] && stopTimes == [] && LoaderBuilt(Snapshot(map[]))
    {
      routes, stopTimes, tripIndex, stopToRoutes, routeFIFO := [], [], map[], map[], [];
    }

    /** Point the trip index at the final positions of a new route's trips. */
    method IndexTrips(slots: seq<TripStopTimes>) returns (tripKeys: seq<TripKey>)
      requires IndexesTrips(stopTimes, tripIndex)
      modifies this`tripIndex
      ensures IndexesTrips(stopTimes + [slots], tripIndex)
      ensures tripKeys == Keys(slots)
    {
      hide IndexesTrips;
      tripKeys := [];
      NoSlots(stopTimes, tripIndex);
      for ti := 0 to |slots|
        invariant IndexesTrips(stopTimes + [slots[..ti]], tripIndex)
        invariant tripKeys == Keys(slots[..ti])
      {
        tripKeys := tripKeys + [slots[ti].key];
        NextSlot(stopTimes, slots, ti, tripIndex);
        tripIndex := tripIndex[slots[ti].key := TripLocation(|stopTimes|, ti)];
      }
      assert slots[..|slots|] == slots;
    }

    /** List a new route at each of its stations. */
    method IndexStops(route: RouteEntry)
      requires IndexesStops(routes, stopToRoutes)
      modifies this`stopToRoutes
      ensures IndexesStops(routes + [route], stopToRoutes)
    {
      hide IndexesStops;
      NoStopsYet(routes, route, stopToRoutes);
      for pos := 0 to |route.stopIDs|
        invariant IndexesStops(routes + [route.(stopIDs := route.stopIDs[..pos])], stopToRoutes)
      {
        var s := route.stopIDs[pos];
        var at := RouteStop(|routes|, pos);
        NextPlace(routes, route, pos, stopToRoutes);
        stopToRoutes := stopToRoutes[s := (if s in stopToRoutes then stopToRoutes[s] else []) + [at]];
      }
      assert route.(stopIDs := route.stopIDs[..|route.stopIDs|]) == route;
    }

    /** Load one route from its trips. A route without trips, or whose first trip has no stops, is passed over. */
    method AddRoute(routeID: string, trips: seq<TripRecord>) returns (skipped: nat)
      requires LoaderBuilt(Snapshot(map[]))
      modifies this
      ensures LoaderBuilt(Snapshot(map[]))
      ensures trips == [] || trips[0].stops == [] ==>
                skipped == 0 && routes == old(routes) && stopTimes == old(stopTimes)
      ensures trips != [] && trips[0].stops != [] ==>
                |routes| == |old(routes)| + 1 && routes[..|old(routes)|] == old(routes)
                && stopTimes[..|old(routes)|] == old(stopTimes)
                && RouteLoaded(trips, routeID, routes[|old(routes)|], stopTimes[|old(routes)|])
                && skipped + |stopTimes[|old(routes)|]| == |trips|
    {
      if trips == [] || trips[0].stops == [] {
        return 0;
      }
      hide IndexesTrips, IndexesStops, Measured, Shaped, SortedBy, Sort, Serving;
      var stopIDs := Pattern(trips[0].stops);
      var valid;
      valid, skipped := KeepServing(trips, stopIDs);
      SortedSlots(Tables(valid));
      var slots := Sort(Tables(valid), SlotLe);
      var fifo := ComputeFIFO(slots);
      var tripKeys := IndexTrips(slots);
      var route := RouteEntry(routeID, stopIDs, tripKeys);
      LoadedIsShaped(trips, routeID, route, slots);
      IndexStops(route);
      MeasuredBy(slots, fifo);
      routes := routes + [route];
      stopTimes := stopTimes + [slots];
      routeFIFO := routeFIFO + [fifo];
    }
  }

  lemma MeasuredBy(slots: seq<TripStopTimes>, fifo: bool)
    requires fifo <==> |slots| < 2 || (Rectangular(slots, |slots[0].departures|) && NonOvertaking(slots))
    ensures Measured(slots, fifo)
  {
  }

  lemma NoSlots(stopTimes: seq<seq<TripStopTimes>>, m: map<TripKey, TripLocation>)
    requires IndexesTrips(stopTimes, m)
    ensures IndexesTrips(stopTimes + [[]], m)
  {
    var longer := stopTimes + [[]];
    forall k | k in m
      ensures LastSlot(longer, k, m[k].routeIdx, m[k].tripIdx)
    {
      assert LastSlot(stopTimes, k, m[k].routeIdx, m[k].tripIdx);
    }
  }

  lemma NextSlot(stopTimes: seq<seq<TripStopTimes>>, slots: seq<TripStopTimes>, ti: nat, m: map<TripKey, TripLocation>)
    requires ti < |slots| && IndexesTrips(stopTimes + [slots[..ti]], m)
    ensures IndexesTrips(stopTimes + [slots[..ti + 1]], m[slots[ti].key := TripLocation(|stopTimes|, ti)])
  {
    var was, now := stopTimes + [slots[..ti]], stopTimes + [slots[..ti + 1]];
    var m' := m[slots[ti].key := TripLocation(|stopTimes|, ti)];
    forall k | k in m'
      ensures LastSlot(now, k, m'[k].routeIdx, m'[k].tripIdx)
    {
      if k != slots[ti].key {
        assert LastSlot(was, k, m[k].routeIdx, m[k].tripIdx);
        forall r, t | 0 <= r < |now| && 0 <= t < |now[r]| && now[r][t].key == k
          ensures r < m[k].routeIdx || (r == m[k].routeIdx && t <= m[k].tripIdx)
        {
          assert t < |was[r]| && was[r][t] == now[r][t];
        }
      }
    }
    forall r, t | 0 <= r < |now| && 0 <= t < |now[r]|
      ensures now[r][t].key in m'
    {
      assert (r == |stopTimes| && t == ti) || (t < |was[r]| && was[r][t].key in m);
    }
  }

  lemma NoStopsYet(routes: seq<RouteEntry>, route: RouteEntry, m: map<string, seq<RouteStop>>)
    requires IndexesStops(routes, m)
    ensures IndexesStops(routes + [route.(stopIDs := route.stopIDs[..0])], m)
  {
    var longer := routes + [route.(stopIDs := route.stopIDs[..0])];
    assert forall at, s :: StopAt(routes, at, s) <==> StopAt(longer, at, s);
  }

  lemma NextPlace(routes: seq<RouteEntry>, route: RouteEntry, pos: nat, m: map<string, seq<RouteStop>>)
    requires pos < |route.stopIDs| && IndexesStops(routes + [route.(stopIDs := route.stopIDs[..pos])], m)
    ensures var s := route.stopIDs[pos];
            IndexesStops(routes + [route.(stopIDs := route.stopIDs[..pos + 1])],
                         m[s := (if s in m then m[s] else []) + [RouteStop(|routes|, pos)]])
  {
    var s, at := route.stopIDs[pos], RouteStop(|routes|, pos);
    var was, now :=
      routes + [route.(stopIDs := route.stopIDs[..pos])], routes + [route.(stopIDs := route.stopIDs[..pos + 1])];
    var m' := m[s := (if s in m then m[s] else []) + [at]];
    assert forall x, u :: StopAt(now, x, u) <==> StopAt(was, x, u) || (x == at && u == s);
    forall u | u in m'
      ensures m'[u] != [] && InOrderOfPlace(m'[u])
    {
      if u == s && s in m {
        forall i | 0 <= i < |m[s]|
          ensures Before(m[s][i], at)
        {
          assert m[s][i] in m[s] && StopAt(was, m[s][i], s);
        }
      }
    }
  }

  // ---- The whole timetable -----------------------------------------------------------------------

  function Total(stopTimes: seq<seq<TripStopTimes>>): nat {
    if stopTimes == [] then 0 else Total(stopTimes[..|stopTimes| - 1]) + |stopTimes[|stopTimes| - 1]|
  }

  /** Every route of the timetable, in order, loaded from its own trips. */
  ghost predicate TimetableLoaded(rows: seq<Row>, routes: seq<RouteEntry>, stopTimes: seq<seq<TripStopTimes>>) {
    RoutesLoaded(Trips(rows), RoutesSeen(Trips(rows)), routes, stopTimes)
  }

  ghost predicate RoutesLoaded(trips: seq<TripRecord>, ids: seq<string>, routes: seq<RouteEntry>,
                               stopTimes: seq<seq<TripStopTimes>>)
  {
    && |routes| == |stopTimes| == |ids|
    && forall r :: 0 <= r < |ids| ==> RouteLoaded(OfRoute(trips, ids[r]), ids[r], routes[r], stopTimes[r])
  }

  lemma OneMoreRoute(trips: seq<TripRecord>, ids: seq<string>, i: nat, routes: seq<RouteEntry>,
                     stopTimes: seq<seq<TripStopTimes>>, routes': seq<RouteEntry>, stopTimes': seq<seq<TripStopTimes>>)
    requires i < |ids| && RoutesLoaded(trips, ids[..i], routes, stopTimes)
    requires |routes'| == |stopTimes'| == i + 1 && routes'[..i] == routes && stopTimes'[..i] == stopTimes
    requires RouteLoaded(OfRoute(trips, ids[i]), ids[i], routes'[i], stopTimes'[i])
    ensures RoutesLoaded(trips, ids[..i + 1], routes', stopTimes')
    ensures Total(stopTimes') == Total(stopTimes) + |stopTimes'[i]|
    ensures TripsOn(trips, ids[..i + 1]) == TripsOn(trips, ids[..i]) + |OfRoute(trips, ids[i])|
  {
    hide RouteLoaded;
    assert ids[..i + 1][..i] == ids[..i];
    forall r | 0 <= r < i
      ensures RouteLoaded(OfRoute(trips, ids[r]), ids[r], routes'[r], stopTimes'[r])
    {
      assert routes'[r] == routes[r] && stopTimes'[r] == stopTimes[r] && ids[..i][r] == ids[r];
    }
  }

  /** Number of trips on the given routes. */
  function TripsOn(trips: seq<TripRecord>, ids: seq<string>): nat {
    if ids == [] then 0 else TripsOn(trips, ids[..|ids| - 1]) + |OfRoute(trips, ids[|ids| - 1])|
  }

  lemma {:induction false} OneMoreTrip(trips: seq<TripRecord>, ids: seq<string>)
    requires trips != [] && Distinct(ids)
    ensures TripsOn(trips, ids) == TripsOn(trips[..|trips| - 1], ids)
                                   + if trips[|trips| - 1].routeID in ids then 1 else 0
  {
    if ids != [] {
      var n := |ids| - 1;
      OneMoreTrip(trips, ids[..n]);
      assert ids[n] !in ids[..n];
      assert ids == ids[..n] + [ids[n]];
    }
  }

  /** Splitting the trips by route loses none and repeats none. */
  lemma {:induction false} EveryTripOnItsRoute(trips: seq<TripRecord>, ids: seq<string>)
    requires Distinct(ids) && forall t :: t in trips ==> t.routeID in ids
    ensures TripsOn(trips, ids) == |trips|
  {
    if trips == [] {
      NoTripsNowhere(ids);
    } else {
      var n := |trips| - 1;
      assert trips[n] in trips;
      EveryTripOnItsRoute(trips[..n], ids);
      OneMoreTrip(trips, ids);
    }
  }

  lemma {:induction false} NoTripsNowhere(ids: seq<string>)
    ensures TripsOn([], ids) == 0
  {
    if ids != [] {
      NoTripsNowhere(ids[..|ids| - 1]);
    }
  }

  lemma {:induction false} RouteHasTrips(trips: seq<TripRecord>, id: string)
    requires id in RoutesSeen(trips) && forall t :: t in trips ==> t.stops != []
    ensures OfRoute(trips, id) != [] && OfRoute(trips, id)[0].stops != []
  {
    var n := |trips| - 1;
    assert trips[n] in trips;
    if id in RoutesSeen(trips[..n]) {
      RouteHasTrips(trips[..n], id);
    } else {
      NotOnRoute(trips[..n], id);
    }
  }

  /** Rows in, arrays and indexes out. Every trip is either in a slot or counted as skipped. */
  method LoadTimetable(rows: seq<Row>) returns (staging: Staging, skipped: nat)
    ensures fresh(staging) && LoaderBuilt(staging.Snapshot(map[]))
    ensures TimetableLoaded(rows, staging.routes, staging.stopTimes)
    ensures Total(staging.stopTimes) + skipped == |Trips(rows)|
  {
    hide LoaderBuilt, RouteLoaded, RoutesLoaded, Distinct, Trips, RoutesSeen, OfRoute, Total, TripsOn;
    var routeTrips, routeOrder := GroupRows(rows);
    ghost var trips := Trips(rows);
    staging := new Staging();
    skipped := 0;
    NothingLoaded(trips);
    for i := 0 to |routeOrder|
      invariant fresh(staging) && LoaderBuilt(staging.Snapshot(map[]))
      invariant |staging.routes| == |staging.stopTimes| == i
      invariant RoutesLoaded(trips, routeOrder[..i], staging.routes, staging.stopTimes)
      invariant Total(staging.stopTimes) + skipped == TripsOn(trips, routeOrder[..i])
    {
      ghost var routes, stopTimes := staging.routes, staging.stopTimes;
      RouteHasTrips(trips, routeOrder[i]);
      var more := staging.AddRoute(routeOrder[i], routeTrips[routeOrder[i]]);
      skipped := skipped + more;
      SameLength(staging);
      OneMoreRoute(trips, routeOrder, i, routes, stopTimes, staging.routes, staging.stopTimes);
    }
    assert routeOrder[..|routeOrder|] == routeOrder;
    EveryTripOnItsRoute(trips, routeOrder);
  }

  lemma NothingLoaded(trips: seq<TripRecord>)
    ensures RoutesLoaded(trips, [], [], []) && Total([]) == 0 && TripsOn(trips, []) == 0
  {
  }

  lemma SameLength(staging: Staging)
    requires LoaderBuilt(staging.Snapshot(map[]))
    ensures |staging.routes| == |staging.stopTimes|
  {
  }
}
