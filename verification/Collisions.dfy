/** Two real journeys of one query with the same fingerprint: a small timetable in which every itinerary prints alike,
    what deduplication then costs the answer, and so exactly which separators identifiers may contain. */
module Collisions {
  import opened Model
  import opened Reference
  import opened Fifo
  import opened Rounds
  import opened Journeys
  import opened Fingerprints
  import opened Frontier
  import opened Answer

  const DAY := "2026-01-01"

  datatype TripName = TripName(route: string, trip: string)
  {
    function Key(): TripKey {
      TripKey(trip, DAY)
    }

    function Times(dep: int, arr: int, stops: seq<string>): TripStopTimes {
      TripStopTimes(Key(), [dep, arr], [dep, arr], stops)
    }

    function Route(stops: seq<string>): RouteEntry {
      RouteEntry(route, stops, [Key()])
    }
  }

  /** From `o` one vehicle reaches `a` at 90, ten seconds on foot from the destination `d`; another reaches `x` at 10,
      where a second vehicle leaves at 20 and is at the destination at 50. */
  datatype Net = Net(o: string, x: string, a: string, d: string, slow: TripName, first: TripName, second: TripName)
  {
    function Query(): World {
      var routes := [slow.Route([o, a]), first.Route([o, x]), second.Route([x, d])];
      var times := [[slow.Times(0, 90, [o, a])], [first.Times(0, 10, [o, x])], [second.Times(20, 50, [x, d])]];
      var index := map[slow.Key() := TripLocation(0, 0), first.Key() := TripLocation(1, 0),
                       second.Key() := TripLocation(2, 0)];
      var places := map[o := [RouteStop(0, 0), RouteStop(1, 0)], a := [RouteStop(0, 1)],
                        x := [RouteStop(1, 1), RouteStop(2, 0)], d := [RouteStop(2, 1)]];
      World(SearchParams(o, d, 0, "", 1, 2, 0), {DAY}, map[],
            RouteBuffer(routes, times, index, places, map[a := [Footpath(d, 10)]], [true, true, true]))
    }

    predicate Named() {
      && o != "" && x != "" && a != "" && d != ""
      && o != x && o != a && o != d && x != a && x != d && a != d
      && slow.trip != "" && first.trip != "" && second.trip != ""
    }

    function SlowLegs(): seq<Leg> {
      [Leg(Transit, slow.Key(), slow.route, o, a, 0, 90), Leg(Walk, NO_TRIP, WALK_ROUTE_ID, a, d, 90, 100)]
    }

    function FastLegs(): seq<Leg> {
      [Leg(Transit, first.Key(), first.route, o, x, 0, 10), Leg(Transit, second.Key(), second.route, x, d, 20, 50)]
    }
  }

  lemma NetIsIndexed(n: Net, r: nat, p: nat)
    requires n.Named() && r < 3 && p < 2
    ensures Indexed(n.Query().buf, r, p) && n.Query().buf.routes[r].stopIDs[p] != ""
  {
    var w := n.Query();
    assert w.buf.stopToRoutes[n.o] == [RouteStop(0, 0), RouteStop(1, 0)];
    assert w.buf.stopToRoutes[n.x] == [RouteStop(1, 1), RouteStop(2, 0)];
    var listed := w.buf.stopToRoutes[w.buf.routes[r].stopIDs[p]];
    assert listed[0] == RouteStop(r, p) || listed[1] == RouteStop(r, p);
  }

  lemma NetIsWellFormed(n: Net)
    requires n.Named()
    ensures WellFormed(n.Query().buf) && TiesHarmless(n.Query())
  {
    var w := n.Query();
    hide Indexed;
    forall r, p | 0 <= r < |w.buf.routes| && 0 <= p < |w.buf.routes[r].stopIDs|
      ensures Indexed(w.buf, r, p) && w.buf.routes[r].stopIDs[p] != ""
    {
      NetIsIndexed(n, r, p);
    }
  }

  // ---- What the naive router finds ---------------------------------------------------------------

  ghost predicate Caught(n: Net, l: Labels, s: string, at: int) {
    || (n.o in l && l[n.o].time <= 0 && ((s == n.a && at == 90) || (s == n.x && at == 10)))
    || (n.x in l && l[n.x].time <= 20 && s == n.d && at == 50)
  }

  lemma RidesOffered(n: Net, l: Labels)
    requires n.Named() && WellFormed(n.Query().buf)
    ensures forall s, at :: (s, at) in RideOffers(n.Query(), l) <==> Caught(n, l, s, at)
  {
    hide WellFormed, RideOffers, Caught;
    forall s, at
      ensures (s, at) in RideOffers(n.Query(), l) <==> Caught(n, l, s, at)
    {
      if (s, at) in RideOffers(n.Query(), l) {
        OfferedIsCaught(n, l, s, at);
      }
      if Caught(n, l, s, at) {
        CaughtIsOffered(n, l, s, at);
      }
    }
  }

  lemma OfferedIsCaught(n: Net, l: Labels, s: string, at: int)
    requires n.Named() && WellFormed(n.Query().buf) && (s, at) in RideOffers(n.Query(), l)
    ensures Caught(n, l, s, at)
  {
    hide WellFormed, RideOffers;
    var r, t, p, q := OfferedRide(n.Query(), l, s, at);
    assert p == 0 && q == 1;
  }

  lemma CaughtIsOffered(n: Net, l: Labels, s: string, at: int)
    requires n.Named() && WellFormed(n.Query().buf) && Caught(n, l, s, at)
    ensures (s, at) in RideOffers(n.Query(), l)
  {
    hide WellFormed;
    var w, r := n.Query(), if s == n.a then 0 else if s == n.x then 1 else 2;
    assert RideOffer(w, l, r, 0, 0, 1);
    assert (w.buf.routes[r].stopIDs[1], w.buf.stopTimes[r][0].arrivals[1]) == (s, at);
  }

  lemma WalksOffered(n: Net, l: Labels, sources: set<string>)
    ensures forall s, at :: (s, at) in WalkOffers(n.Query(), l, sources) <==>
              n.a in sources && n.a in l && s == n.d && at == l[n.a].time + 10
  {
    var w := n.Query();
    forall s, at | n.a in sources && n.a in l && s == n.d && at == l[n.a].time + 10
      ensures (s, at) in WalkOffers(w, l, sources)
    {
      assert w.buf.Walks(n.a)[0] == Footpath(n.d, 10);
    }
  }

  function AtOrigin(n: Net): Labels {
    map[n.o := Label(0, false)]
  }

  function OneVehicle(n: Net): Labels {
    map[n.o := Label(0, false), n.a := Label(90, true), n.x := Label(10, true)]
  }

  lemma FirstLevel(n: Net)
    requires n.Named() && WellFormed(n.Query().buf)
    ensures NextLevel(n.Query(), AtOrigin(n)) == OneVehicle(n)[n.d := Label(100, false)]
  {
    hide WellFormed, RideOffers, WalkOffers, Merge;
    var w, prev, mid := n.Query(), AtOrigin(n), OneVehicle(n);
    RidesOffered(n, prev);
    Merged(prev, RideOffers(w, prev), true, mid);
    WalksOffered(n, mid, Improved(prev, mid));
    Merged(mid, WalkOffers(w, mid, Improved(prev, mid)), false, mid[n.d := Label(100, false)]);
  }

  lemma SecondLevel(n: Net)
    requires n.Named() && WellFormed(n.Query().buf)
    ensures NextLevel(n.Query(), OneVehicle(n)[n.d := Label(100, false)]) == OneVehicle(n)[n.d := Label(50, true)]
  {
    hide WellFormed, RideOffers, WalkOffers, Merge;
    var w, prev, mid := n.Query(), OneVehicle(n)[n.d := Label(100, false)], OneVehicle(n)[n.d := Label(50, true)];
    RidesOffered(n, prev);
    Merged(prev, RideOffers(w, prev), true, mid);
    WalksOffered(n, mid, Improved(prev, mid));
    Merged(mid, WalkOffers(w, mid, Improved(prev, mid)), false, mid);
  }

  lemma NetLevels(n: Net)
    requires n.Named() && WellFormed(n.Query().buf)
    ensures LevelArrival(n.Query(), 0) == None
    ensures LevelArrival(n.Query(), 1) == Some(100) && LevelArrival(n.Query(), 2) == Some(50)
  {
    hide WellFormed, WalkOffers, Merge, NextLevel;
    var w, l0 := n.Query(), AtOrigin(n);
    WalksOffered(n, l0, {n.o});
    Merged(l0, WalkOffers(w, l0, {n.o}), false, l0);
    assert Level(w, 0) == l0;
    FirstLevel(n);
    assert Level(w, 1) == NextLevel(w, Level(w, 0));
    SecondLevel(n);
    assert Level(w, 2) == NextLevel(w, Level(w, 1));
  }

  // ---- Its journeys ------------------------------------------------------------------------------

  lemma SlowLegsAreReal(n: Net)
    requires n.Named() && WellFormed(n.Query().buf)
    ensures Itinerary(n.Query(), n.SlowLegs()) && TransitLegs(n.SlowLegs()) == 1
  {
    hide WellFormed;
    var w, legs := n.Query(), n.SlowLegs();
    assert IsRideOf(w, legs[0], 0, 0, 0, 1);
    assert w.buf.Walks(n.a)[0] == Footpath(n.d, 10) && IsWalkOf(w, legs[1], 0);
    CountTwo(legs);
  }

  lemma CountTwo(legs: seq<Leg>)
    requires |legs| == 2
    ensures TransitLegs(legs) == (if legs[0].kind.Transit? then 1 else 0) + (if legs[1].kind.Transit? then 1 else 0)
  {
    var front := legs[..1];
    assert TransitLegs(legs) == TransitLegs(front) + if legs[1].kind.Transit? then 1 else 0;
    assert front[..0] == [] && TransitLegs(front) == TransitLegs(front[..0]) + if front[0].kind.Transit? then 1 else 0;
  }

  lemma FastLegsAreReal(n: Net)
    requires n.Named() && WellFormed(n.Query().buf)
    ensures Itinerary(n.Query(), n.FastLegs()) && TransitLegs(n.FastLegs()) == 2
  {
    hide WellFormed;
    var w, legs := n.Query(), n.FastLegs();
    assert IsRideOf(w, legs[0], 1, 0, 0, 1) && IsRideOf(w, legs[1], 2, 0, 0, 1);
    CountTwo(legs);
  }

  function Slow(n: Net): Path {
    Path(n.SlowLegs(), 0, 100, 100, 0, 0, WalkTime(n.SlowLegs()), 1)
  }

  function Fast(n: Net): Path {
    Path(n.FastLegs(), 0, 50, 50, 0, 1, WalkTime(n.FastLegs()), 2)
  }

  /** The rounds of this query yield both journeys, and neither dominates the other. */
  lemma BothAreCollected(n: Net)
    requires n.Named() && WellFormed(n.Query().buf)
    ensures CollectedBefore(n.Query(), n.Query().params.Rounds() + 1, [Slow(n), Fast(n)])
    ensures !Slow(n).Dominates(Fast(n)) && !Fast(n).Dominates(Slow(n))
  {
    hide WellFormed, LevelArrival, Itinerary;
    var w := n.Query();
    NetLevels(n);
    SlowLegsAreReal(n);
    FastLegsAreReal(n);
    var ks, out: seq<Path> := [1, 2], [Slow(n), Fast(n)];
    assert Serves(w, 1, out[0]) && Serves(w, 2, out[1]);
    forall m: nat | m < 3 && LevelArrival(w, m).Some?
      ensures Matched(ks, out, m, LevelArrival(w, m).value)
    {
      assert m == 1 || m == 2;
      assert out[m - 1].arrival == LevelArrival(w, m).value && ks[m - 1] <= m;
    }
    assert Collected(w, 3, ks, out);
  }

  // ---- Names that collide ------------------------------------------------------------------------

  /** Bars and semicolons only. */
  const COLLIDING :=
    Net("o", "x", "x;y|x", "d", TripName("p", "q|s"), TripName("p|q", "s"), TripName("y", "x;WALK||x;y"))

  lemma NetNames(seps: set<char>, n: Net)
    requires Uses(seps, n.o) && Uses(seps, n.x) && Uses(seps, n.a) && Uses(seps, n.d)
    requires Uses(seps, n.slow.route) && Uses(seps, n.first.route) && Uses(seps, n.second.route)
    requires Uses(seps, n.slow.trip) && Uses(seps, n.first.trip) && Uses(seps, n.second.trip)
    ensures NamesUse(seps, n.Query())
  {
    hide Uses;
  }

  lemma CollidingNames()
    ensures COLLIDING.Named() && NamesUse({'|', ';'}, COLLIDING.Query())
  {
    assert "o"[0] != "x"[0] && "o"[0] != "d"[0] && "x"[0] != "d"[0];
    NetNames({'|', ';'}, COLLIDING);
  }

  lemma Joined(a: string, b: string, c: string)
    ensures a + (b + c) == (a + b) + c
  {
  }

  lemma SlowPrint(l: Leg, walk: Leg)
    requires l.routeID == "p" && l.tripKey.tripID == "q|s" && l.boardStation == "o" && l.alightStation == "x;y|x"
    requires walk.routeID == "WALK" && walk.tripKey.tripID == "" && walk.boardStation == "x;y|x"
             && walk.alightStation == "d"
    ensures LegPrint(l) == "p|q|s|o>x;" + "y|x;" && LegPrint(walk) == "WALK||x;y|x>d;"
  {
  }

  lemma FastPrint(l: Leg, m: Leg)
    requires l.routeID == "p|q" && l.tripKey.tripID == "s" && l.boardStation == "o" && l.alightStation == "x"
    requires m.routeID == "y" && m.tripKey.tripID == "x;WALK||x;y" && m.boardStation == "x" && m.alightStation == "d"
    ensures LegPrint(l) == "p|q|s|o>x;" && LegPrint(m) == "y|x;" + "WALK||x;y|x>d;"
  {
  }

  lemma CollidingPrints()
    ensures Fingerprint(COLLIDING.SlowLegs()) == Fingerprint(COLLIDING.FastLegs())
  {
    hide Fingerprint, LegPrint;
    var slow, fast := COLLIDING.SlowLegs(), COLLIDING.FastLegs();
    PrintOfTwo(slow[0], slow[1]);
    PrintOfTwo(fast[0], fast[1]);
    SlowPrint(slow[0], slow[1]);
    FastPrint(fast[0], fast[1]);
    Joined("p|q|s|o>x;", "y|x;", "WALK||x;y|x>d;");
  }

  /** One well-formed query without harmful ties whose rounds yield two journeys that share a fingerprint:
      deduplication keeps only the slower one, although the other is not dominated. */
  lemma DeduplicationLosesJourney()
    ensures var w, out := COLLIDING.Query(), [Slow(COLLIDING), Fast(COLLIDING)];
            && WellFormed(w.buf) && TiesHarmless(w) && NamesUse({'|', ';'}, w)
            && Itinerary(w, out[0].legs) && Itinerary(w, out[1].legs)
            && TransitLegs(out[0].legs) == 1 && TransitLegs(out[1].legs) == 2
            && CollectedBefore(w, w.params.Rounds() + 1, out)
            && Firsts(out, 2) == [out[0]] && !out[0].Dominates(out[1])
  {
    hide WellFormed, TiesHarmless, NamesUse, Itinerary, CollectedBefore, Fingerprint;
    CollidingNames();
    CollidingPrints();
    NetIsWellFormed(COLLIDING);
    SlowLegsAreReal(COLLIDING);
    FastLegsAreReal(COLLIDING);
    BothAreCollected(COLLIDING);
    var out := [Slow(COLLIDING), Fast(COLLIDING)];
    assert Fingerprint(out[0].legs) == Fingerprint(out[1].legs);
    assert FirstPrint(out, 0) && !FirstPrint(out, 1);
    assert Firsts(out, 1) == Firsts(out, 0) + [out[0]];
  }

  // ---- Which separators are safe -----------------------------------------------------------------

  /** Equal fingerprints of itineraries of this query mean equally many vehicles. */
  ghost predicate PrintsCount(w: World) {
    WellFormed(w.buf) ==>
      forall a, b :: Itinerary(w, a) && Itinerary(w, b) && Fingerprint(a) == Fingerprint(b) ==>
        TransitLegs(a) == TransitLegs(b)
  }

  /** Deduplication loses nothing the rounds of this query yield. */
  ghost predicate DeduplicationSafe(w: World) {
    WellFormed(w.buf) && TiesHarmless(w) ==>
      forall out :: CollectedBefore(w, w.params.Rounds() + 1, out) ==> Firsts(out, |out|) == out
  }

  lemma MoreUses(few: set<char>, many: set<char>, s: string)
    requires Uses(few, s) && few * SEPARATORS <= many
    ensures Uses(many, s)
  {
  }

  lemma MoreNames(few: set<char>, many: set<char>, w: World)
    requires NamesUse(few, w) && few * SEPARATORS <= many
    ensures NamesUse(many, w)
  {
    hide Uses;
    forall r | r in w.buf.routes
      ensures Uses(many, r.routeID)
    {
      MoreUses(few, many, r.routeID);
    }
    forall r, s | r in w.buf.routes && s in r.stopIDs
      ensures Uses(many, s)
    {
      MoreUses(few, many, s);
    }
    forall r, t | 0 <= r < |w.buf.stopTimes| && 0 <= t < |w.buf.stopTimes[r]|
      ensures Uses(many, w.buf.stopTimes[r][t].key.tripID)
    {
      MoreUses(few, many, w.buf.stopTimes[r][t].key.tripID);
    }
    forall s, i | s in w.buf.footpaths && 0 <= i < |w.buf.footpaths[s]|
      ensures WalkUses(many, s, w.buf.footpaths[s][i])
    {
      MoreUses(few, many, w.buf.footpaths[s][i].neighbourStop);
      MoreUses(few, many, s);
    }
  }

  lemma PrintsCountWithout(seps: set<char>, w: World)
    requires NamesUse(seps, w) && !('|' in seps && ';' in seps)
    ensures PrintsCount(w)
  {
    hide WellFormed, NamesUse, Itinerary, Fingerprint;
    if WellFormed(w.buf) {
      forall a, b | Itinerary(w, a) && Itinerary(w, b) && Fingerprint(a) == Fingerprint(b)
        ensures TransitLegs(a) == TransitLegs(b)
      {
        PrintsCountVehicles(seps, w, a, b);
      }
    }
  }

  lemma DeduplicationSafeWithout(seps: set<char>, w: World)
    requires NamesUse(seps, w) && !('|' in seps && ';' in seps)
    ensures DeduplicationSafe(w)
  {
    hide WellFormed, TiesHarmless, NamesUse, Collected, Firsts, DistinctPrints;
    MoreNames(seps, if '|' in seps then SEPARATORS - {';'} else SEPARATORS - {'|'}, w);
    if WellFormed(w.buf) && TiesHarmless(w) {
      forall out | CollectedBefore(w, w.params.Rounds() + 1, out)
        ensures Firsts(out, |out|) == out
      {
        var ks :| Collected(w, w.params.Rounds() + 1, ks, out);
        CollectedAreDistinct(w, w.params.Rounds() + 1, ks, out);
        FirstsOfDistinct(out, |out|);
        assert out[..|out|] == out;
      }
    }
  }

  /** A fingerprint counts the vehicles of a journey, and deduplication loses nothing, in every query over the given
      separators exactly when these do not include both the bar and the semicolon. */
  lemma SafeSeparators(seps: set<char>)
    ensures (forall w :: NamesUse(seps, w) ==> PrintsCount(w)) <==> !('|' in seps && ';' in seps)
    ensures (forall w :: NamesUse(seps, w) ==> DeduplicationSafe(w)) <==> !('|' in seps && ';' in seps)
  {
    hide WellFormed, TiesHarmless, NamesUse, Itinerary, CollectedBefore, Fingerprint, Firsts;
    if '|' in seps && ';' in seps {
      DeduplicationLosesJourney();
      CollidingPrints();
      MoreNames({'|', ';'}, seps, COLLIDING.Query());
      var out := [Slow(COLLIDING), Fast(COLLIDING)];
      assert |Firsts(out, |out|)| == 1;
      assert !PrintsCount(COLLIDING.Query()) && !DeduplicationSafe(COLLIDING.Query());
    } else {
      forall w | NamesUse(seps, w)
        ensures PrintsCount(w) && DeduplicationSafe(w)
      {
        PrintsCountWithout(seps, w);
        DeduplicationSafeWithout(seps, w);
      }
    }
  }
}
