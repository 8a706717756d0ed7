/** Harmful ties: exactly when the scan of an ordered route is right for every labelling of its stops, and a query whose
    search returns a later arrival because two trips leave a middle stop together. */
module Ties {
  import opened Model
  import opened Reference
  import opened Fifo
  import opened Answer
  import opened Agreement
  import opened Rounds
  import opened History
  import opened Scans
  import opened Traces
  import opened Engine

  const DAY := "2026-01-01"
  const STOPS := ["a", "b", "c"]

  function Run(trip: string, times: seq<int>): TripStopTimes {
    TripStopTimes(TripKey(trip, DAY), times, times, STOPS)
  }

  const AHEAD := Run("ahead", [0, 10, 20])
  const BEHIND := Run("behind", [5, 10, 30])

  /** From the origin `o` the stop `a` is three seconds away on foot, too late for the trip that is ahead, and `b` is
      ten seconds away, just in time for both. */
  const TIED := World(
    SearchParams("o", "c", 0, "", 1, 1, 0), {DAY}, map[],
    RouteBuffer([RouteEntry("r", STOPS, [AHEAD.key, BEHIND.key])], [[AHEAD, BEHIND]],
                map[AHEAD.key := TripLocation(0, 0), BEHIND.key := TripLocation(0, 1)],
                map["a" := [RouteStop(0, 0)], "b" := [RouteStop(0, 1)], "c" := [RouteStop(0, 2)]],
                map["o" := [Footpath("a", 3), Footpath("b", 10)]], [true]))

  function BeforeRiding(): Labels {
    map["o" := Label(0, false), "a" := Label(3, false), "b" := Label(10, false)]
  }

  lemma TiedIsIndexed(p: nat)
    requires p < 3
    ensures Indexed(TIED.buf, 0, p) && TIED.buf.routes[0].stopIDs[p] != ""
  {
    assert TIED.buf.stopToRoutes[STOPS[p]][0] == RouteStop(0, p);
  }

  lemma TripsRunOnTime()
    ensures Rectangular([AHEAD, BEHIND], 3) && NonOvertaking([AHEAD, BEHIND])
    ensures TripWellFormed(RouteEntry("r", STOPS, [AHEAD.key, BEHIND.key]), AHEAD)
    ensures TripWellFormed(RouteEntry("r", STOPS, [AHEAD.key, BEHIND.key]), BEHIND)
  {
  }

  lemma TiedIsWellFormed()
    ensures WellFormed(TIED.buf)
  {
    TripsRunOnTime();
    hide TripWellFormed, NonOvertaking, Indexed;
    forall r, p | 0 <= r < |TIED.buf.routes| && 0 <= p < |TIED.buf.routes[r].stopIDs|
      ensures Indexed(TIED.buf, r, p) && TIED.buf.routes[r].stopIDs[p] != ""
    {
      TiedIsIndexed(p);
    }
  }

  lemma TiedIsHarmful()
    ensures Rectangular([AHEAD, BEHIND], 3) && HarmfulTie(TIED, [AHEAD, BEHIND], 3)
  {
    assert Harms(TIED, [AHEAD, BEHIND], 3, 0, 1, 0, 1, 2);
  }

  /** An ordered route can have a harmful tie. */
  lemma TiedIsOrdered()
    ensures WellFormed(TIED.buf) && TIED.buf.IsFIFO(0) && TIED.buf.stopTimes[0] == [AHEAD, BEHIND]
    ensures Rectangular([AHEAD, BEHIND], 3) && NonOvertaking([AHEAD, BEHIND]) && HarmfulTie(TIED, [AHEAD, BEHIND], 3)
    ensures !TiesHarmless(TIED)
  {
    TripsRunOnTime();
    TiedIsWellFormed();
    TiedIsHarmful();
    hide WellFormed, NonOvertaking, HarmfulTie, Rectangular;
  }

  lemma WalksFirst()
    requires WellFormed(TIED.buf)
    ensures Level(TIED, 0) == BeforeRiding()
  {
    hide Merge;
    var w := TIED;
    var start: Labels := map["o" := Label(0, false)];
    assert w.buf.Walks("o")[0] == Footpath("a", 3) && w.buf.Walks("o")[1] == Footpath("b", 10);
    Merged(start, WalkOffers(w, start, {"o"}), false, BeforeRiding());
  }

  lemma RidesOffered()
    requires WellFormed(TIED.buf)
    ensures forall s, at :: (s, at) in RideOffers(TIED, BeforeRiding()) ==>
              (s == "b" && at == 10) || (s == "c" && at >= 20)
    ensures ("c", 20) in RideOffers(TIED, BeforeRiding())
  {
    hide WellFormed, RideOffers;
    forall s, at | (s, at) in RideOffers(TIED, BeforeRiding())
      ensures (s == "b" && at == 10) || (s == "c" && at >= 20)
    {
      var r, t, p, q := OfferedRide(TIED, BeforeRiding(), s, at);
    }
    OfferedAhead();
  }

  lemma OfferedAhead()
    requires WellFormed(TIED.buf)
    ensures ("c", 20) in RideOffers(TIED, BeforeRiding())
  {
    hide WellFormed;
    assert RideOffer(TIED, BeforeRiding(), 0, 0, 1, 2);
    assert (TIED.buf.routes[0].stopIDs[2], TIED.buf.stopTimes[0][0].arrivals[2]) == ("c", 20);
  }

  lemma TiedArrival()
    requires WellFormed(TIED.buf)
    ensures LevelArrival(TIED, 1) == Some(20)
  {
    hide WellFormed, Merge, RideOffers;
    var w, prev := TIED, BeforeRiding();
    var mid: Labels := prev["c" := Label(20, true)];
    WalksFirst();
    RidesOffered();
    Merged(prev, RideOffers(w, prev), true, mid);
    Merged(mid, WalkOffers(w, mid, Improved(prev, mid)), false, mid);
    assert Level(w, 1) == NextLevel(w, Level(w, 0));
  }

  lemma ScanRidesBehind(ready: Readiness)
    requires ready == [Some(3), Some(10), None] && Rectangular([AHEAD, BEHIND], 3)
    ensures Carried(TIED, [AHEAD, BEHIND], ready, 2) == 1
    ensures Catch(TIED, [AHEAD, BEHIND], ready, 0, 1)
  {
    var trips := [AHEAD, BEHIND];
    FirstCatchableIsFirst(TIED, trips, 0, 3, None, 1);
    assert Carried(TIED, trips, ready, 1) == BoardStep(TIED, trips, ready, 0, -1);
    FirstCatchableIsFirst(TIED, trips, 1, 10, Some(10), -1);
  }

  /** On these labels the single pass reaches position `q` at `at`, later than it could have. */
  ghost predicate Misled(w: World, trips: seq<TripStopTimes>, ready: Readiness, q: nat, at: int) {
    && q < |ready| && Rectangular(trips, |ready|) && HarmfulTie(w, trips, |ready|) && !ScanOptimal(w, trips, ready, q)
    && var c := Carried(w, trips, ready, q); c >= 0 && trips[c].arrivals[q] == at
  }

  lemma BehindIsMisled()
    ensures Misled(TIED, [AHEAD, BEHIND], [Some(3), Some(10), None], 2, 30)
  {
    TiedIsOrdered();
    hide WellFormed, HarmfulTie, NonOvertaking;
    var ready: Readiness := [Some(3), Some(10), None];
    ScanRidesBehind(ready);
    assert [AHEAD, BEHIND][1].arrivals[2] == 30 && [AHEAD, BEHIND][0].arrivals[2] == 20;
  }

  lemma ReadyBehind()
    requires WellFormed(TIED.buf)
    ensures ReadyFrom(TIED, Level(TIED, 0), 0, 0) == [Some(3), Some(10), None]
  {
    WalksFirst();
  }

  /** One well-formed query: its route is ordered, so the search scans it in a single pass, and from the labels of the
      query's own first walks that pass comes into the destination at 30 although one vehicle is there at 20. */
  lemma TieMisleadsSearch()
    ensures WellFormed(TIED.buf) && TIED.buf.IsFIFO(0) && NonOvertaking([AHEAD, BEHIND])
    ensures TIED.buf.stopTimes == [[AHEAD, BEHIND]] && TIED.buf.routes[0].stopIDs[2] == TIED.params.destination
    ensures Misled(TIED, [AHEAD, BEHIND], ReadyFrom(TIED, Level(TIED, 0), 0, 0), 2, 30)
    ensures LevelArrival(TIED, 1) == Some(20)
  {
    TiedIsOrdered();
    hide WellFormed, Misled, NonOvertaking, Level, ReadyFrom, LevelArrival;
    ReadyBehind();
    BehindIsMisled();
    TiedArrival();
  }

  // ---- What the search returns -------------------------------------------------------------------

  lemma StartedLabels(t: Times, j: Journal, marked: set<string>)
    requires WellFormed(TIED.buf) && Started(TIED, t, j, marked)
    ensures LabelsOf(t, j) == BeforeRiding() && "a" in marked
  {
    hide WellFormed, WalksFrom, AllWalked, Level;
    var walked :| StartedWith(TIED, t, j, walked) && marked == {"o"} + walked;
    StartAgrees(TIED, t, j, walked);
    WalksFirst();
    var l := LabelsOf(t, j);
    forall s
      ensures s in l <==> s in BeforeRiding()
      ensures s in l ==> l[s] == BeforeRiding()[s]
    {
      assert s in l ==> Below(l, "c", s);
      assert s in BeforeRiding() ==> Below(BeforeRiding(), "c", s);
    }
    assert "a" in l.Keys && l.Keys == t.Keys;
    assert "a" !in walked ==> Unchanged(map["o" := 0], map[], t, j, "a");
  }

  lemma QueueStartsAtA(marked: set<string>, queue: map<int, int>)
    requires QueueOf(TIED.buf, marked, queue) && "a" in marked
    ensures forall ri :: ri in queue <==> ri == 0
    ensures queue[0] == 0
  {
    var rs := RouteStop(0, 0);
    assert TIED.buf.stopToRoutes["a"] == [rs] && rs in TIED.buf.stopToRoutes["a"];
    assert Hinted(TIED.buf, marked, rs) && Usable(TIED.buf, rs);
    assert Queued(queue, rs);
  }

  /** Scanned from `a` with these labels, the route offers the destination at 30 only. */
  lemma OffersBehind(queue: map<int, int>, s: string, e: JournalEntry)
    requires WellFormed(TIED.buf) && (forall ri :: ri in queue <==> ri == 0) && queue[0] == 0
    requires (s, e) in ScanLegs(TIED, 0, BeforeRiding(), queue) && s == "c"
    ensures e.arrival == 30
  {
    hide WellFormed;
    var ri, ti, p, q :| IsScanLeg(TIED, 0, BeforeRiding(), queue, s, e, ri, ti, p, q);
    assert q == 2;
    assert ReadyFrom(TIED, BeforeRiding(), 0, 0) == [Some(3), Some(10), None];
    TripsRunOnTime();
    ScanRidesBehind([Some(3), Some(10), None]);
    assert ti == 1;
  }

  lemma NoWalkToC(t: Times, sources: set<string>, s: string, e: JournalEntry)
    requires (s, e) in WalksFrom(TIED, 1, t, sources)
    ensures s != "c"
  {
    var i :| IsWalk(TIED, 1, t, s, e, i);
  }

  lemma RoundReachesLate(t0: Times, j0: Journal, t2: Times, j2: Journal, marked: set<string>, marked': set<string>)
    requires WellFormed(TIED.buf) && RoundRan(TIED, 1, t0, j0, t2, j2, marked, marked')
    requires LabelsOf(t0, j0) == BeforeRiding() && "a" in marked && "c" in t2
    ensures t2["c"] == 30
  {
    hide WellFormed, QueueOf, ScanTried, AllWalked, ScanLegs, WalksFrom, LabelsOf;
    var t, j, queue, improved, walked :|
      RanVia(TIED, 1, t0, j0, t, j, t2, j2, marked, queue, improved, walked) && marked' == improved + walked;
    QueueStartsAtA(marked, queue);
    if "c" in walked {
      assert NewLeg(t, t2, j2, WalksFrom(TIED, 1, t, improved), "c", "c");
      NoWalkToC(t, improved, "c", j2["c"]);
    }
    assert Unchanged(t, j, t2, j2, "c");
    NotReachedYet(t0, j0);
    assert "c" !in improved ==> Unchanged(t0, j0, t, j, "c");
    assert NewLeg(t0, t, j, ScanLegs(TIED, 0, LabelsOf(t0, j0), queue), "c", "c");
    OffersBehind(queue, "c", j["c"]);
  }

  lemma NotReachedYet(t: Times, j: Journal)
    requires LabelsOf(t, j) == BeforeRiding()
    ensures "c" !in t
  {
    assert LabelsOf(t, j).Keys == t.Keys;
  }

  lemma RunReachesLate(tau: TauTable, journal: JournalTable, marks: seq<set<string>>, last: nat, p: Path)
    requires WellFormed(TIED.buf) && Trace(TIED, tau, journal, marks, last) && ReadOff(TIED, tau, last, p)
    ensures p.arrival == 30
  {
    hide WellFormed, Started, RoundRan, LabelsOf;
    StartedLabels(tau[0], journal[0], marks[0]);
    NotReachedYet(tau[0], journal[0]);
    assert p.rounds == 1;
    assert RanRound(TIED, tau, journal, marks, 1);
    RoundReachesLate(tau[0], journal[0], tau[1], journal[1], marks[0], marks[1]);
  }

  lemma AnswersComeLate(paths: seq<Path>)
    requires WellFormed(TIED.buf) && OfRun(TIED, paths)
    ensures forall p :: p in paths ==> p.arrival == 30
  {
    hide WellFormed, Trace, ReadOff;
    var tau, journal, marks, last :|
      Trace(TIED, tau, journal, marks, last) && forall p :: p in paths ==> ReadOff(TIED, tau, last, p);
    forall p | p in paths
      ensures p.arrival == 30
    {
      RunReachesLate(tau, journal, marks, last, p);
    }
  }

  lemma TiedQuery()
    ensures WellFormed(TIED.buf) && LevelArrival(TIED, 1) == Some(20) && !Degenerate(TIED)
  {
    TiedIsWellFormed();
    hide WellFormed, LevelArrival;
    TiedArrival();
  }

  /** The search misses the arrival: in every order of scanning, every journey it returns for this query arrives at 30,
      although one vehicle gets there at 20. */
  method SearchComesLate(topK: int, orders: Orders) returns (paths: seq<Path>)
    requires orders.Complete()
    ensures WellFormed(TIED.buf) && LevelArrival(TIED, 1) == Some(20)
    ensures forall p :: p in paths ==> Sound(TIED, p) && p.arrival == 30
  {
    TiedQuery();
    hide WellFormed, OfRun, Sound, TiesHarmless, LevelArrival, OfFirsts, Degenerate;
    paths := SearchInOrder(TIED, topK, orders);
    AnswersComeLate(paths);
  }

  // ---- Over labels of stops ----------------------------------------------------------------------

  predicate DistinctStops(stops: seq<string>) {
    forall p, q :: 0 <= p < q < |stops| ==> stops[p] != stops[q]
  }

  /** The labels on which a harmful tie misleads the scan: `s` reached at one time, `s'` at another, on foot. */
  function TwoLabels(s: string, at: int, s': string, at': int): Labels {
    map[s := Label(at, false), s' := Label(at', false)]
  }

  lemma HarmsInside(w: World, trips: seq<TripStopTimes>, n: nat, i: int, j: int, p1: int, p2: int, q: int)
    requires Rectangular(trips, n) && Harms(w, trips, n, i, j, p1, p2, q)
    ensures 0 <= q < n
  {
  }

  lemma LabelsMislead(w: World, ri: int, i: int, j: int, p1: int, p2: int, q: int)
    requires 0 <= ri < |w.buf.routes| && ri < |w.buf.stopTimes| && DistinctStops(w.buf.routes[ri].stopIDs)
    requires Rectangular(w.buf.stopTimes[ri], |w.buf.routes[ri].stopIDs|)
    requires Harms(w, w.buf.stopTimes[ri], |w.buf.routes[ri].stopIDs|, i, j, p1, p2, q)
    ensures exists l: Labels :: !ScanOptimal(w, w.buf.stopTimes[ri], ReadyFrom(w, l, ri, 0), q)
  {
    hide ScanOptimal;
    var trips, stops := w.buf.stopTimes[ri], w.buf.routes[ri].stopIDs;
    var l := TwoLabels(stops[p1], trips[j].departures[p1], stops[p2], trips[i].departures[p2]);
    MisledScan(w, trips, ReadyFrom(w, l, ri, 0), i, j, p1, p2, q);
  }

  /** Exactly when the scan of an ordered route that stops nowhere twice is right for every labelling of its stops. */
  lemma ScanIsExactForLabels(w: World, ri: int)
    requires WellFormed(w.buf) && 0 <= ri < |w.buf.routes| && w.buf.IsFIFO(ri)
    requires DistinctStops(w.buf.routes[ri].stopIDs)
    ensures Rectangular(w.buf.stopTimes[ri], |w.buf.routes[ri].stopIDs|)
    ensures (forall l: Labels, q: nat :: q < |w.buf.routes[ri].stopIDs| ==>
               ScanOptimal(w, w.buf.stopTimes[ri], ReadyFrom(w, l, ri, 0), q))
            <==> !HarmfulTie(w, w.buf.stopTimes[ri], |w.buf.routes[ri].stopIDs|)
  {
    OrderedRoute(w, ri);
    var trips, stops := w.buf.stopTimes[ri], w.buf.routes[ri].stopIDs;
    hide WellFormed, NonOvertaking, ScanOptimal, Harms, DistinctStops;
    ScanIsExact(w, trips, |stops|);
    if HarmfulTie(w, trips, |stops|) {
      var i, j, p1, p2, q :| Harms(w, trips, |stops|, i, j, p1, p2, q);
      HarmsInside(w, trips, |stops|, i, j, p1, p2, q);
      LabelsMislead(w, ri, i, j, p1, p2, q);
    }
  }
}
