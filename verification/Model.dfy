/** Domain types shared by the whole project: the timetable buffer, the query, and the journeys the
    engine hands out (`internal/model/types.go`, `internal/schedule/buffer.go`). Times are unbounded
    integers. */
module Model {

  datatype Option<+T> = None | Some(value: T)

  datatype TripKey = TripKey(tripID: string, date: string)

  datatype RouteEntry = RouteEntry(routeID: string, stopIDs: seq<string>, tripKeys: seq<TripKey>)

  datatype TripStopTimes = TripStopTimes(
    key: TripKey,
    arrivals: seq<int>,
    departures: seq<int>,
    stationIDs: seq<string>)

  datatype TripLocation = TripLocation(routeIdx: int, tripIdx: int)

  datatype RouteStop = RouteStop(routeIdx: int, stopPos: int)

  datatype Footpath = Footpath(neighbourStop: string, walkSeconds: int)

  /** The published schedule snapshot one search works from. */
  datatype RouteBuffer = RouteBuffer(
    routes: seq<RouteEntry>,
    stopTimes: seq<seq<TripStopTimes>>,
    tripIndex: map<TripKey, TripLocation>,
    stopToRoutes: map<string, seq<RouteStop>>,
    footpaths: map<string, seq<Footpath>>,
    routeFIFO: seq<bool>)
  {
    /** Unknown routes are treated as overtaking, the conservative answer. */
    predicate IsFIFO(routeIdx: int) {
      0 <= routeIdx < |routeFIFO| && routeFIFO[routeIdx]
    }

    function Walks(s: string): seq<Footpath> {
      if s in footpaths then footpaths[s] else []
    }
  }

  datatype SeatSignal = SeatSignal(byClass: map<string, int>, stale: bool)

  const DEFAULT_MAX_ROUNDS := 4
  const MAX_ALLOWED_ROUNDS := 8

  datatype SearchParams = SearchParams(
    origin: string,
    destination: string,
    depTime: int,
    seatClass: string,
    passengers: int,
    maxRounds: int,
    minTransferSeconds: int)
  {
    function Rounds(): (r: nat)
      ensures 1 <= r <= 8
      ensures maxRounds > 0 ==> r <= maxRounds && (r == maxRounds || r == 8)
      ensures maxRounds <= 0 ==> r == 4
    {
      var r := if maxRounds <= 0 then DEFAULT_MAX_ROUNDS else maxRounds;
      if r > MAX_ALLOWED_ROUNDS then MAX_ALLOWED_ROUNDS else r
    }

    function TransferBuffer(): (b: nat)
      ensures b >= minTransferSeconds && (b > 0 ==> b == minTransferSeconds)
    {
      if minTransferSeconds > 0 then minTransferSeconds else 0
    }
  }

  /** Everything a search reads and never writes: the query, the two captured buffers, and the set of
      operating dates the query allows. */
  datatype World = World(
    params: SearchParams,
    allowed: set<string>,
    signals: map<TripKey, SeatSignal>,
    buf: RouteBuffer)

  /** The optimistic in-memory seat filter: a missing or stale signal lets the passenger board. */
  predicate CanBoard(signals: map<TripKey, SeatSignal>, key: TripKey, seatClass: string, count: int) {
    key in signals ==>
      var sig := signals[key];
      sig.stale || (if seatClass in sig.byClass then sig.byClass[seatClass] else 0) >= count
  }

  predicate TripUsable(w: World, key: TripKey) {
    key.date in w.allowed && CanBoard(w.signals, key, w.params.seatClass, w.params.passengers)
  }

  datatype LegKind = Transit | Walk

  const WALK_ROUTE_ID := "WALK"

  datatype Leg = Leg(
    kind: LegKind,
    tripKey: TripKey,
    routeID: string,
    boardStation: string,
    alightStation: string,
    departure: int,
    arrival: int)

  datatype Path = Path(
    legs: seq<Leg>,
    departure: int,
    arrival: int,
    totalTimeSeconds: int,
    waitSeconds: int,
    transfers: int,
    walkSeconds: int,
    rounds: int)
  {
    predicate Dominates(q: Path) {
      PairDominates(arrival, transfers, q.arrival, q.transfers)
    }
  }

  /** At least as good on arrival and transfers, strictly better on one of them. */
  predicate PairDominates(arrival: int, transfers: int, arrival': int, transfers': int) {
    arrival <= arrival' && transfers <= transfers' && (arrival < arrival' || transfers < transfers')
  }

  function TransitLegs(legs: seq<Leg>): nat {
    if legs == [] then 0
    else TransitLegs(legs[..|legs| - 1]) + if legs[|legs| - 1].kind.Transit? then 1 else 0
  }

  function WalkTime(legs: seq<Leg>): int {
    if legs == [] then 0
    else
      var l := legs[|legs| - 1];
      WalkTime(legs[..|legs| - 1]) + if l.kind.Transit? then 0 else l.arrival - l.departure
  }

  /** What the engine's theorems assume of a published buffer. The loader establishes the shape and the
      index; that no trip arrives anywhere before it has left an earlier stop is a property of the data. */
  ghost predicate WellFormed(b: RouteBuffer) {
    && |b.stopTimes| == |b.routes|
    && (forall r, t :: 0 <= r < |b.routes| && 0 <= t < |b.stopTimes[r]| ==>
          TripWellFormed(b.routes[r], b.stopTimes[r][t]))
    && (forall r, p :: 0 <= r < |b.routes| && 0 <= p < |b.routes[r].stopIDs| ==>
          Indexed(b, r, p) && b.routes[r].stopIDs[p] != "")
    && (forall r :: 0 <= r < |b.routes| && b.IsFIFO(r) ==> NonOvertaking(b.stopTimes[r]))
    && (forall s, i :: s in b.footpaths && 0 <= i < |b.footpaths[s]| ==> b.footpaths[s][i].walkSeconds >= 0)
  }

  ghost predicate TripWellFormed(route: RouteEntry, trip: TripStopTimes) {
    && |trip.arrivals| == |trip.departures| == |route.stopIDs|
    && trip.key.tripID != ""
    && forall p, q :: 0 <= p < q < |route.stopIDs| ==> trip.departures[p] <= trip.arrivals[q]
  }

  ghost predicate Indexed(b: RouteBuffer, r: int, p: int)
    requires 0 <= r < |b.routes| && 0 <= p < |b.routes[r].stopIDs|
  {
    var s := b.routes[r].stopIDs[p];
    s in b.stopToRoutes && RouteStop(r, p) in b.stopToRoutes[s]
  }

  /** The all-pairs fact a FIFO flag stands for: a lower-indexed trip is nowhere later. */
  ghost predicate NonOvertaking(trips: seq<TripStopTimes>) {
    forall i, j, p :: 0 <= i < j < |trips| && 0 <= p < |trips[i].departures| && p < |trips[j].departures|
                      && p < |trips[i].arrivals| && p < |trips[j].arrivals| ==>
      trips[i].departures[p] <= trips[j].departures[p] && trips[i].arrivals[p] <= trips[j].arrivals[p]
  }
}
