/** What the transfer buffer costs. A label says when its stop is reached and whether by vehicle, and a vehicle's label
    hides a walk that comes no earlier but owes no buffer: the levels are unbeaten in every network exactly when none is
    owed. */
module Buffers {
  import opened Model
  import opened Reference
  import opened Fifo
  import opened Rounds
  import opened Journeys
  import opened WalkGraph
  import opened Answer
  import opened Unhurried
  import opened Traces
  import opened Engine

  /** No itinerary reaches the destination before the level of its number of vehicles. */
  ghost predicate LevelsUnbeaten(w: World)
    requires WellFormed(w.buf)
  {
    forall legs: seq<Leg> :: Itinerary(w, legs) ==>
      Covered(Level(w, TransitLegs(legs)), w.params.destination, legs[|legs| - 1].arrival)
  }

  // ---- Without a buffer --------------------------------------------------------------------------

  lemma NothingToWaitFor(w: World, legs: seq<Leg>)
    requires WellFormed(w.buf) && Itinerary(w, legs) && w.params.TransferBuffer() == 0
    ensures TakesTime(w, legs)
  {
    hide WellFormed, RealLeg, TransitLegs;
    forall i, j | 0 <= i && j == i + 1 < |legs|
      ensures Follows(w, TransitLegs(legs[..j]) > 0, legs[i], legs[j])
    {
      assert Joins(w, legs[i], legs[j]);
    }
  }

  lemma UnbeatenWithout(w: World, direct: Graph)
    requires WellFormed(w.buf) && IsClosure(w.buf.footpaths, direct) && w.params.TransferBuffer() == 0
    ensures LevelsUnbeaten(w)
  {
    hide IsClosure, WellFormed, Level, RealLeg, TransitLegs;
    forall legs: seq<Leg> | Itinerary(w, legs)
      ensures Covered(Level(w, TransitLegs(legs)), w.params.destination, legs[|legs| - 1].arrival)
    {
      NothingToWaitFor(w, legs);
      LevelKeepsUp(w, direct, legs);
    }
  }

  // ---- With one ----------------------------------------------------------------------------------

  const DAY := "2026-01-01"

  function Trip(id: string, times: seq<int>, stops: seq<string>): TripStopTimes {
    TripStopTimes(TripKey(id, DAY), times, times, stops)
  }

  const AROUND := Trip("1", [0, 5, 10], ["o", "y", "x"])
  const ONWARD := Trip("2", [10, 20], ["x", "d"])
  const PATHS: Graph := map["y" := [Footpath("x", 5)]]

  /** One vehicle goes from `o` by way of `y` to `x`, where it comes in at 10; from `y` the walk to `x` gets there at 10
      as well. The vehicle from `x` to `d` leaves at 10. */
  function Hidden(buffer: nat): World {
    World(SearchParams("o", "d", 0, "", 1, 2, buffer), {DAY}, map[],
          RouteBuffer([RouteEntry("r", ["o", "y", "x"], [AROUND.key]), RouteEntry("s", ["x", "d"], [ONWARD.key])],
                      [[AROUND], [ONWARD]], map[AROUND.key := TripLocation(0, 0), ONWARD.key := TripLocation(1, 0)],
                      map["o" := [RouteStop(0, 0)], "y" := [RouteStop(0, 1)],
                          "x" := [RouteStop(0, 2), RouteStop(1, 0)], "d" := [RouteStop(1, 1)]],
                      PATHS, [true, true]))
  }

  lemma HiddenIsIndexed(buffer: nat, r: nat, p: nat)
    requires r < 2 && p < |Hidden(buffer).buf.routes[r].stopIDs|
    ensures Indexed(Hidden(buffer).buf, r, p) && Hidden(buffer).buf.routes[r].stopIDs[p] != ""
  {
    var b := Hidden(buffer).buf;
    var listed := b.stopToRoutes[b.routes[r].stopIDs[p]];
    assert listed[0] == RouteStop(r, p) || listed[1] == RouteStop(r, p);
  }

  lemma HiddenIsWellFormed(buffer: nat)
    ensures WellFormed(Hidden(buffer).buf) && TiesHarmless(Hidden(buffer))
  {
    var w := Hidden(buffer);
    hide Indexed;
    forall r, p | 0 <= r < |w.buf.routes| && 0 <= p < |w.buf.routes[r].stopIDs|
      ensures Indexed(w.buf, r, p) && w.buf.routes[r].stopIDs[p] != ""
    {
      HiddenIsIndexed(buffer, r, p);
    }
  }

  /** There is one walk. */
  lemma {:induction false} OneWalk(u: string, steps: seq<nat>)
    requires Follow(PATHS, u, steps).Some?
    ensures Follow(PATHS, u, steps).value == (u, 0) || (u == "y" && Follow(PATHS, u, steps).value == ("x", 5))
  {
    if steps != [] {
      OneWalk(u, steps[..|steps| - 1]);
    }
  }

  lemma PathsAreClosed()
    ensures IsClosure(PATHS, PATHS) && NonNegative(PATHS)
  {
    ReachNothing(PATHS, "y");
    ReachStep(PATHS, "y", "y", 0, 0);
    forall u, v, d | Reach(PATHS, u, v, d)
      ensures (v, d) == (u, 0) || (u == "y" && (v, d) == ("x", 5))
    {
      var steps :| Follow(PATHS, u, steps) == Some((v, d));
      OneWalk(u, steps);
    }
    assert PATHS["y"][0] == Footpath("x", 5);
  }

  function AfterOne(): Labels {
    map["o" := Label(0, false), "y" := Label(5, true), "x" := Label(10, true)]
  }

  lemma FirstRides(buffer: nat)
    requires WellFormed(Hidden(buffer).buf)
    ensures forall s, at :: (s, at) in RideOffers(Hidden(buffer), map["o" := Label(0, false)]) <==>
              (s == "y" && at == 5) || (s == "x" && at == 10)
  {
    hide WellFormed, RideOffers;
    var w := Hidden(buffer);
    var l: Labels := map["o" := Label(0, false)];
    forall s, at | (s, at) in RideOffers(w, l)
      ensures (s == "y" && at == 5) || (s == "x" && at == 10)
    {
      var r, t, p, q := OfferedRide(w, l, s, at);
      assert r == 0 && p == 0;
    }
    RideThere(buffer, 1);
    RideThere(buffer, 2);
  }

  lemma RideThere(buffer: nat, q: nat)
    requires WellFormed(Hidden(buffer).buf) && 1 <= q <= 2
    ensures (["o", "y", "x"][q], [0, 5, 10][q]) in RideOffers(Hidden(buffer), map["o" := Label(0, false)])
  {
    hide WellFormed;
    var w := Hidden(buffer);
    var l: Labels := map["o" := Label(0, false)];
    assert RideOffer(w, l, 0, 0, 0, q);
    assert (w.buf.routes[0].stopIDs[q], w.buf.stopTimes[0][0].arrivals[q]) == (["o", "y", "x"][q], [0, 5, 10][q]);
  }

  lemma SecondRides(buffer: nat)
    requires WellFormed(Hidden(buffer).buf) && buffer > 0
    ensures forall s, at :: (s, at) in RideOffers(Hidden(buffer), AfterOne()) ==>
              (s == "y" && at == 5) || (s == "x" && at == 10)
  {
    hide WellFormed, RideOffers;
    forall s, at | (s, at) in RideOffers(Hidden(buffer), AfterOne())
      ensures (s == "y" && at == 5) || (s == "x" && at == 10)
    {
      var r, t, p, q := OfferedRide(Hidden(buffer), AfterOne(), s, at);
      assert r == 0 && p == 0;
    }
  }

  lemma WalksNowhereNew(buffer: nat, l: Labels, sources: set<string>)
    requires "y" in l ==> l["y"].time == 5
    ensures forall s, at :: (s, at) in WalkOffers(Hidden(buffer), l, sources) ==> "y" in l && s == "x" && at == 10
  {
  }

  lemma HiddenLevels(buffer: nat)
    requires WellFormed(Hidden(buffer).buf) && buffer > 0
    ensures LevelArrival(Hidden(buffer), 0) == None
    ensures Level(Hidden(buffer), 1) == AfterOne() && LevelArrival(Hidden(buffer), 1) == None
    ensures LevelArrival(Hidden(buffer), 2) == None
  {
    hide WellFormed, RideOffers, WalkOffers, Merge;
    var w, l1 := Hidden(buffer), AfterOne();
    var l0: Labels := map["o" := Label(0, false)];
    WalksNowhereNew(buffer, l0, {"o"});
    Merged(l0, WalkOffers(w, l0, {"o"}), false, l0);
    assert Level(w, 0) == l0;
    FirstRides(buffer);
    Merged(l0, RideOffers(w, l0), true, l1);
    WalksNowhereNew(buffer, l1, Improved(l0, l1));
    Merged(l1, WalkOffers(w, l1, Improved(l0, l1)), false, l1);
    assert Level(w, 1) == NextLevel(w, Level(w, 0));
    SecondRides(buffer);
    Merged(l1, RideOffers(w, l1), true, l1);
    WalksNowhereNew(buffer, l1, Improved(l1, l1));
    Merged(l1, WalkOffers(w, l1, Improved(l1, l1)), false, l1);
    assert Level(w, 2) == NextLevel(w, Level(w, 1));
  }

  /** Off at `y`, on foot to `x`, and on. */
  const HIDDEN_LEGS := [Leg(Transit, AROUND.key, "r", "o", "y", 0, 5),
                        Leg(Walk, NO_TRIP, WALK_ROUTE_ID, "y", "x", 5, 10),
                        Leg(Transit, ONWARD.key, "s", "x", "d", 10, 20)]

  lemma HiddenLegsAreReal(buffer: nat)
    requires WellFormed(Hidden(buffer).buf)
    ensures Itinerary(Hidden(buffer), HIDDEN_LEGS) && TransitLegs(HIDDEN_LEGS) == 2
  {
    hide WellFormed;
    var w, legs := Hidden(buffer), HIDDEN_LEGS;
    assert IsRideOf(w, legs[0], 0, 0, 0, 1) && IsRideOf(w, legs[2], 1, 0, 0, 1);
    assert w.buf.Walks("y")[0] == Footpath("x", 5) && IsWalkOf(w, legs[1], 0);
    OneMoreLeg(legs, 1);
    OneMoreLeg(legs, 2);
    OneMoreLeg(legs, 3);
    assert legs[..0] == [] && legs[..3] == legs;
  }

  /** One well-formed query with harmless ties and a closed walk graph: a real itinerary with two vehicles reaches the
      destination at 20, and no level within two vehicles reaches it at all. */
  lemma BufferHidesWalk(buffer: nat)
    requires buffer > 0
    ensures var w := Hidden(buffer);
            && WellFormed(w.buf) && TiesHarmless(w) && IsClosure(w.buf.footpaths, w.buf.footpaths)
            && w.params.TransferBuffer() == buffer
            && Itinerary(w, HIDDEN_LEGS) && TransitLegs(HIDDEN_LEGS) == 2 && HIDDEN_LEGS[2].arrival == 20
            && LevelArrival(w, 0) == None && LevelArrival(w, 1) == None && LevelArrival(w, 2) == None
            && !LevelsUnbeaten(w)
  {
    HiddenIsWellFormed(buffer);
    hide WellFormed, TiesHarmless, IsClosure, Level, Itinerary;
    PathsAreClosed();
    HiddenLevels(buffer);
    HiddenLegsAreReal(buffer);
  }

  // ---- Exactly when ------------------------------------------------------------------------------

  /** A query owing this buffer, in a well-formed network whose walk graph is the closure of its direct walks. */
  ghost predicate Owing(w: World, direct: Graph, buffer: nat) {
    && WellFormed(w.buf) && IsClosure(w.buf.footpaths, direct) && NonNegative(direct)
    && w.params.TransferBuffer() == buffer
  }

  /** The levels are unbeaten in every such network exactly when no buffer is owed. */
  lemma UnbeatenExactly(buffer: nat)
    ensures (forall w, direct :: Owing(w, direct, buffer) ==> LevelsUnbeaten(w)) <==> buffer == 0
  {
    hide WellFormed, IsClosure, NonNegative, LevelsUnbeaten, TiesHarmless, Itinerary;
    if buffer == 0 {
      forall w, direct | Owing(w, direct, buffer)
        ensures LevelsUnbeaten(w)
      {
        UnbeatenWithout(w, direct);
      }
    } else {
      BufferHidesWalk(buffer);
      PathsAreClosed();
      assert Owing(Hidden(buffer), PATHS, buffer);
    }
  }

  /** The search finds nothing for that query, in whatever order it scans. */
  method SearchFindsNothing(buffer: nat, topK: int, orders: Orders) returns (paths: seq<Path>)
    requires buffer > 0 && orders.Complete()
    ensures paths == []
  {
    HiddenIsWellFormed(buffer);
    hide WellFormed, TiesHarmless, OfFirsts, OfRun, IsTopK, CleanIDs, Sound;
    paths := SearchInOrder(Hidden(buffer), topK, orders);
    NothingIsServed(buffer, paths);
  }

  /** A query whose levels never reach the destination has nothing to collect. */
  lemma NothingToCollect(w: World, out: seq<Path>)
    requires WellFormed(w.buf) && CollectedBefore(w, w.params.Rounds() + 1, out)
    requires forall k :: 0 <= k <= w.params.Rounds() ==> LevelArrival(w, k) == None
    ensures out == []
  {
    hide WellFormed, LevelArrival, Serves;
    var ks :| Collected(w, w.params.Rounds() + 1, ks, out);
    if |ks| > 0 {
      ArrivesAt(w, ks[0], out[0]);
    }
  }

  lemma NothingIsServed(buffer: nat, paths: seq<Path>)
    requires buffer > 0 && WellFormed(Hidden(buffer).buf) && OfFirsts(Hidden(buffer), paths)
    ensures paths == []
  {
    hide WellFormed, LevelArrival, CollectedBefore;
    HiddenLevels(buffer);
    var w := Hidden(buffer);
    var out :| CollectedBefore(w, w.params.Rounds() + 1, out) && AmongFirsts(out, paths);
    NothingToCollect(w, out);
    NoneAmongNone(paths);
  }

  lemma NoneAmongNone(paths: seq<Path>)
    ensures AmongFirsts([], paths) ==> paths == []
  {
    if paths != [] {
      assert paths[0] in paths;
    }
  }
}
