/** What batch validation (`ValidateBatch`) accepts, and what it would have to check besides for the loaded
    timetable to suit the engine. */
module Ingestion {
  import opened Model
  import opened Rows

  datatype IngestTrip = IngestTrip(key: TripKey, routeID: string, stopTimes: seq<StopRecord>)

  datatype BatchError =
    | Duplicate(trip: nat)
    | NoStopTimes(trip: nat)
    | NegativeArrival(trip: nat, stop: nat)
    | LeavesBeforeArriving(trip: nat, stop: nat)
    | NotLater(trip: nat, stop: nat)

  /** Stop `i` arrives at a non-negative time and is not left before. */
  predicate StopSound(stops: seq<StopRecord>, i: int)
    requires 0 <= i < |stops|
  {
    0 <= stops[i].arrival <= stops[i].departure
  }

  predicate Increasing(stops: seq<StopRecord>, i: int)
    requires 0 < i < |stops|
  {
    stops[i - 1].departure < stops[i].departure
  }

  ghost predicate TripSound(t: IngestTrip) {
    && t.stopTimes != []
    && (forall i :: 0 <= i < |t.stopTimes| ==> StopSound(t.stopTimes, i))
    && (forall i :: 0 < i < |t.stopTimes| ==> Increasing(t.stopTimes, i))
  }

  ghost predicate Accepted(trips: seq<IngestTrip>) {
    && (forall i, j :: 0 <= i < j < |trips| ==> trips[i].key != trips[j].key)
    && (forall i :: 0 <= i < |trips| ==> TripSound(trips[i]))
  }

  /** The complaint is true of the batch. */
  ghost predicate Justified(trips: seq<IngestTrip>, e: BatchError) {
    e.trip < |trips| &&
    var stops := trips[e.trip].stopTimes;
    match e
    case Duplicate(n) => exists m :: 0 <= m < n && trips[m].key == trips[n].key
    case NoStopTimes(_) => stops == []
    case NegativeArrival(_, i) => i < |stops| && stops[i].arrival < 0
    case LeavesBeforeArriving(_, i) => i < |stops| && stops[i].departure < stops[i].arrival
    case NotLater(_, i) => 0 < i < |stops| && stops[i].departure <= stops[i - 1].departure
  }

  /** A batch is accepted exactly when nothing is wrong with it, and a complaint is always justified. */
  method ValidateBatch(trips: seq<IngestTrip>) returns (err: Option<BatchError>)
    ensures err.None? <==> Accepted(trips)
    ensures err.Some? ==> Justified(trips, err.value)
  {
    var seen: set<TripKey> := {};
    for n := 0 to |trips|
      invariant forall k :: k in seen <==> exists m :: 0 <= m < n && trips[m].key == k
      invariant Accepted(trips[..n])
    {
      if trips[n].key in seen {
        return Some(Duplicate(n));
      }
      seen := seen + {trips[n].key};
      var bad := CheckTrip(trips, n);
      if bad.Some? {
        return bad;
      }
    }
    assert trips[..|trips|] == trips;
    return None;
  }

  method CheckTrip(trips: seq<IngestTrip>, n: nat) returns (err: Option<BatchError>)
    requires n < |trips|
    ensures err.None? <==> TripSound(trips[n])
    ensures err.Some? ==> Justified(trips, err.value)
  {
    var stops := trips[n].stopTimes;
    if |stops| == 0 {
      return Some(NoStopTimes(n));
    }
    for i := 0 to |stops|
      invariant forall j :: 0 <= j < i ==> StopSound(stops, j)
    {
      if stops[i].arrival < 0 {
        assert !StopSound(stops, i);
        return Some(NegativeArrival(n, i));
      }
      if stops[i].departure < stops[i].arrival {
        assert !StopSound(stops, i);
        return Some(LeavesBeforeArriving(n, i));
      }
    }
    for i := 1 to |stops|
      invariant forall j :: 0 < j < i ==> Increasing(stops, j)
    {
      if stops[i].departure <= stops[i - 1].departure {
        assert !Increasing(stops, i);
        return Some(NotLater(n, i));
      }
    }
    return None;
  }

  lemma {:induction false} StrictlyLater(stops: seq<StopRecord>, p: nat, q: nat)
    requires p < q < |stops| && forall i :: 0 < i < |stops| ==> Increasing(stops, i)
    ensures stops[p].departure < stops[q].departure
    decreases q
  {
    assert Increasing(stops, q);
    if p < q - 1 {
      StrictlyLater(stops, p, q - 1);
    }
  }

  /** What a sound trip is: it stops somewhere, never pulls in before zero or after it leaves, and leaves every stop
      strictly later than all stops before it. */
  lemma SoundExactly(t: IngestTrip)
    ensures TripSound(t) <==>
              && |t.stopTimes| > 0
              && (forall i :: 0 <= i < |t.stopTimes| ==>
                    t.stopTimes[i].arrival >= 0 && t.stopTimes[i].departure >= t.stopTimes[i].arrival)
              && (forall i, j :: 0 <= i < j < |t.stopTimes| ==> t.stopTimes[i].departure < t.stopTimes[j].departure)
  {
    if TripSound(t) {
      forall i | 0 <= i < |t.stopTimes|
        ensures t.stopTimes[i].arrival >= 0 && t.stopTimes[i].departure >= t.stopTimes[i].arrival
      {
        assert StopSound(t.stopTimes, i);
      }
      forall i, j | 0 <= i < j < |t.stopTimes|
        ensures t.stopTimes[i].departure < t.stopTimes[j].departure
      {
        StrictlyLater(t.stopTimes, i, j);
      }
    }
  }

  /** What acceptance means: trips are told apart by their keys, and each of them is sound. */
  lemma AcceptedExactly(trips: seq<IngestTrip>)
    ensures Accepted(trips) <==>
              && (forall m, n :: 0 <= m < |trips| && 0 <= n < |trips| && trips[m].key == trips[n].key ==> m == n)
              && (forall t :: t in trips ==> TripSound(t))
  {
    hide TripSound;
  }

  /** No stop is reached before the previous one is left. */
  predicate NeverEarly(stops: seq<StopRecord>) {
    forall i, j :: 0 <= i && j == i + 1 < |stops| ==> stops[i].departure <= stops[j].arrival
  }

  lemma {:induction false} LaterAndLater(stops: seq<StopRecord>, p: nat, q: nat)
    requires p < q < |stops| && NeverEarly(stops)
    requires forall i :: 0 <= i < |stops| ==> StopSound(stops, i)
    ensures stops[p].departure <= stops[q].arrival
    decreases q
  {
    if p < q - 1 {
      LaterAndLater(stops, p, q - 1);
      assert StopSound(stops, q - 1);
    }
  }

  /** An accepted trip suits the engine exactly when, besides, no stop is reached before the previous one is
      left: batch validation compares departures with departures only. */
  lemma AcceptedRunsForward(trips: seq<IngestTrip>, n: nat)
    requires Accepted(trips) && n < |trips|
    ensures var stops := trips[n].stopTimes;
            (forall p, q :: 0 <= p < q < |stops| ==> stops[p].departure <= stops[q].arrival) <==> NeverEarly(stops)
  {
    var stops := trips[n].stopTimes;
    assert TripSound(trips[n]);
    if NeverEarly(stops) {
      forall p, q | 0 <= p < q < |stops|
        ensures stops[p].departure <= stops[q].arrival
      {
        LaterAndLater(stops, p, q);
      }
    }
  }

  /** Accepted, yet it pulls in at the second stop before it has left the first. */
  lemma AcceptedCanRunBackwards(a: string, b: string, key: TripKey, routeID: string, early: nat, late: nat)
    requires early < late
    ensures var t := IngestTrip(key, routeID, [StopRecord(a, early, late), StopRecord(b, early, late + 1)]);
            Accepted([t]) && !NeverEarly(t.stopTimes)
  {
    var t := IngestTrip(key, routeID, [StopRecord(a, early, late), StopRecord(b, early, late + 1)]);
    assert t.stopTimes[0].departure > t.stopTimes[1].arrival;
  }
}
