/** What one round of the search leaves behind, stated on the values of the working maps: labels
    (`tau`), the final leg of each label (`journal`), and the legs walk sources were reached by
    (`preWalk`). */
module Rounds {
  import opened Model
  import opened Reference
  import opened Agreement

  type Times = map<string, int>

  datatype JournalEntry = JournalEntry(
    kind: LegKind,
    fromRound: int,
    from: string,
    tripKey: TripKey,
    routeID: string,
    departure: int,
    arrival: int)

  type Journal = map<string, JournalEntry>

  const NO_TRIP := TripKey("", "")

  /** The label a stop carries: its time, and whether its final leg is a vehicle. */
  function LabelsOf(tau: Times, journal: Journal): Labels {
    map s | s in tau :: Label(tau[s], s in journal && journal[s].kind.Transit?)
  }

  predicate Earlier(tau: Times, s: string, a: int) {
    s !in tau || a < tau[s]
  }

  /** Nothing a stop knew gets worse. */
  predicate Lowered(before: Times, after: Times) {
    forall s :: s in before ==> s in after && after[s] <= before[s]
  }

  /** The stop itself, or the destination, is reached no later than `a`. */
  predicate Settled(tau: Times, dest: string, s: string, a: int) {
    !Earlier(tau, s, a) || !Earlier(tau, dest, a)
  }

  predicate Unchanged(t1: Times, j1: Journal, t2: Times, j2: Journal, s: string) {
    s in t1 && s in t2 && t1[s] == t2[s]
    && (s in j1 <==> s in j2) && (s in j1 ==> j1[s] == j2[s])
  }

  // ---- One phase of a round ----------------------------------------------------------------------

  /** Final legs a phase may write: stop and entry. */
  type Legal = iset<(string, JournalEntry)>

  /** A phase started from the maps `t0`, `j0` and so far has changed exactly the stops in `changed`, each to a legal
      entry that beats both the stop's own old label and the destination's. */
  ghost predicate Phase(t0: Times, j0: Journal, t: Times, j: Journal, changed: set<string>, legal: Legal, dest: string)
  {
    && changed <= t.Keys
    && j.Keys == j0.Keys + changed
    && Lowered(t0, t)
    && (forall s :: s in t && s !in changed ==> Unchanged(t0, j0, t, j, s))
    && (forall s :: s in changed ==> NewLeg(t0, t, j, legal, dest, s))
  }

  ghost predicate NewLeg(t0: Times, t: Times, j: Journal, legal: Legal, dest: string, s: string) {
    && s in t && s in j && j[s].arrival == t[s]
    && Earlier(t0, s, t[s]) && Earlier(t0, dest, t[s])
    && (s, j[s]) in legal
  }

  lemma Record(t0: Times, j0: Journal, t: Times, j: Journal, changed: set<string>, legal: Legal, dest: string,
               s: string, e: JournalEntry)
    requires Phase(t0, j0, t, j, changed, legal, dest)
    requires (s, e) in legal && Earlier(t, s, e.arrival) && Earlier(t, dest, e.arrival)
    ensures Phase(t0, j0, t[s := e.arrival], j[s := e], changed + {s}, legal, dest)
    ensures Lowered(t, t[s := e.arrival])
  {
  }

  // ---- Vehicle legs ------------------------------------------------------------------------------

  /** The final leg of riding trip `t` of route `ri` from position `p` to position `q`, out of round `r`. */
  ghost function RideLeg(w: World, r: int, ri: int, t: int, p: int, q: int): JournalEntry
    requires WellFormed(w.buf)
    requires 0 <= ri < |w.buf.routes| && 0 <= t < |w.buf.stopTimes[ri]| && 0 <= p < q < |w.buf.routes[ri].stopIDs|
  {
    var route, trip := w.buf.routes[ri], w.buf.stopTimes[ri][t];
    assert TripWellFormed(route, trip);
    JournalEntry(Transit, r, route.stopIDs[p], trip.key, route.routeID, trip.departures[p], trip.arrivals[q])
  }

  /** Entry `e` is the ride from position `p` to position `q` of one usable trip, caught with the
      labels `l` of round `r`. */
  ghost predicate IsRide(w: World, r: int, l: Labels, s: string, e: JournalEntry, ri: int, t: int, p: int, q: int)
    requires WellFormed(w.buf)
  {
    RideOffer(w, l, ri, t, p, q) && s == w.buf.routes[ri].stopIDs[q] && e == RideLeg(w, r, ri, t, p, q)
  }

  ghost predicate RideEntry(w: World, r: int, l: Labels, s: string, e: JournalEntry)
    requires WellFormed(w.buf)
  {
    exists ri, t, p, q :: IsRide(w, r, l, s, e, ri, t, p, q)
  }

  ghost function Rides(w: World, r: int, l: Labels): Legal
    requires WellFormed(w.buf)
  {
    iset x: (string, JournalEntry) | RideEntry(w, r, l, x.0, x.1)
  }

  lemma BoardableWhenReady(w: World, l: Labels, ri: int, ti: int, p: int)
    requires WellFormed(w.buf)
    requires 0 <= ri < |w.buf.routes| && 0 <= ti < |w.buf.stopTimes[ri]| && 0 <= p < |w.buf.routes[ri].stopIDs|
    requires TripUsable(w, w.buf.stopTimes[ri][ti].key) && p < |w.buf.stopTimes[ri][ti].departures|
    ensures var ready := ReadyWith(l, w.params.TransferBuffer(), w.buf.routes[ri].stopIDs[p]);
            Boardable(w, l, ri, ti, p) <==> ready.Some? && w.buf.stopTimes[ri][ti].departures[p] >= ready.value
  {
  }

  lemma LegalRide(w: World, r: int, l: Labels, ri: int, t: int, p: int, q: int)
    requires WellFormed(w.buf)
    requires RideOffer(w, l, ri, t, p, q)
    ensures (w.buf.routes[ri].stopIDs[q], RideLeg(w, r, ri, t, p, q)) in Rides(w, r, l)
  {
    assert IsRide(w, r, l, w.buf.routes[ri].stopIDs[q], RideLeg(w, r, ri, t, p, q), ri, t, p, q);
  }

  /** Every ride of trip `ti` boarded at or after `from` and left before `to` has been tried. */
  ghost predicate TripScanned(w: World, l: Labels, t: Times, ri: int, ti: int, from: int, to: int)
    requires WellFormed(w.buf)
  {
    forall p, q :: from <= p && q < to && RideOffer(w, l, ri, ti, p, q) ==> RideTried(w, t, ri, ti, q)
  }

  /** Every ride of route `ri` boarded at or after `from` has been tried. */
  ghost predicate RouteScanned(w: World, l: Labels, t: Times, ri: int, from: int)
    requires WellFormed(w.buf)
  {
    forall ti, p, q :: from <= p && RideOffer(w, l, ri, ti, p, q) ==> RideTried(w, t, ri, ti, q)
  }

  /** One more position of one trip, on board: its arrival there has been tried. */
  lemma TripRidesOn(w: World, l: Labels, before: Times, after: Times, ri: int, ti: int, from: int, to: int)
    requires WellFormed(w.buf)
    requires 0 <= ri < |w.buf.routes| && 0 <= ti < |w.buf.stopTimes[ri]| && 0 <= to < |w.buf.routes[ri].stopIDs|
    requires TripScanned(w, l, before, ri, ti, from, to) && Lowered(before, after)
    requires RideTried(w, after, ri, ti, to)
    ensures TripScanned(w, l, after, ri, ti, from, to + 1)
  {
    TripStaysScanned(w, l, before, after, ri, ti, from, to);
  }

  /** One more position of one trip, not on board: nothing of it could have been boarded yet. */
  lemma TripPassesBy(w: World, l: Labels, t: Times, ri: int, ti: int, from: int, to: int)
    requires WellFormed(w.buf)
    requires TripScanned(w, l, t, ri, ti, from, to)
    requires forall p :: from <= p < to ==> !Boardable(w, l, ri, ti, p)
    ensures TripScanned(w, l, t, ri, ti, from, to + 1)
  {
  }

  lemma TripStaysScanned(w: World, l: Labels, before: Times, after: Times, ri: int, ti: int, from: int, to: int)
    requires WellFormed(w.buf)
    requires TripScanned(w, l, before, ri, ti, from, to) && Lowered(before, after)
    ensures TripScanned(w, l, after, ri, ti, from, to)
  {
    forall p, q | from <= p && q < to && RideOffer(w, l, ri, ti, p, q)
      ensures RideTried(w, after, ri, ti, q)
    {
      StillTried(w, before, after, ri, ti, q);
    }
  }

  ghost predicate RideTried(w: World, t: Times, ri: int, ti: int, q: int)
    requires WellFormed(w.buf)
    requires 0 <= ri < |w.buf.routes| && 0 <= ti < |w.buf.stopTimes[ri]| && 0 <= q < |w.buf.routes[ri].stopIDs|
  {
    assert TripWellFormed(w.buf.routes[ri], w.buf.stopTimes[ri][ti]);
    Settled(t, w.params.destination, w.buf.routes[ri].stopIDs[q], w.buf.stopTimes[ri][ti].arrivals[q])
  }

  lemma StillTried(w: World, before: Times, after: Times, ri: int, ti: int, q: int)
    requires WellFormed(w.buf)
    requires 0 <= ri < |w.buf.routes| && 0 <= ti < |w.buf.stopTimes[ri]| && 0 <= q < |w.buf.routes[ri].stopIDs|
    requires Lowered(before, after) && RideTried(w, before, ri, ti, q)
    ensures RideTried(w, after, ri, ti, q)
  {
  }

  lemma RouteFromTrips(w: World, l: Labels, t: Times, ri: int, from: int)
    requires WellFormed(w.buf) && 0 <= ri < |w.buf.routes|
    requires forall ti :: 0 <= ti < |w.buf.stopTimes[ri]| ==>
               TripScanned(w, l, t, ri, ti, from, |w.buf.routes[ri].stopIDs|)
    ensures RouteScanned(w, l, t, ri, from)
  {
    forall ti, p, q | from <= p && RideOffer(w, l, ri, ti, p, q)
      ensures RideTried(w, t, ri, ti, q)
    {
      assert TripScanned(w, l, t, ri, ti, from, |w.buf.routes[ri].stopIDs|);
    }
  }

  lemma LoweredTwice(a: Times, b: Times, c: Times)
    requires Lowered(a, b) && Lowered(b, c)
    ensures Lowered(a, c)
  {
  }

  ghost predicate AllScanned(w: World, l: Labels, t: Times)
    requires WellFormed(w.buf)
  {
    forall ri :: 0 <= ri < |w.buf.routes| ==> RouteScanned(w, l, t, ri, 0)
  }

  ghost predicate AllWalked(w: World, t0: Times, t: Times, sources: set<string>) {
    forall s :: s in sources && s in t0 ==> WalksTried(w, t0, t, s)
  }

  lemma RidesMerge(w: World, r: int, t0: Times, j0: Journal, t: Times, j: Journal, changed: set<string>)
    requires WellFormed(w.buf)
    requires Phase(t0, j0, t, j, changed, Rides(w, r, LabelsOf(t0, j0)), w.params.destination)
    requires AllScanned(w, LabelsOf(t0, j0), t)
    ensures PrunedMerge(LabelsOf(t0, j0), LabelsOf(t, j), RideOffers(w, LabelsOf(t0, j0)), w.params.destination, true)
    ensures Improved(LabelsOf(t0, j0), LabelsOf(t, j)) == changed
  {
    hide RideOffers, AllScanned, Rides, WellFormed;
    var b, c := LabelsOf(t0, j0), LabelsOf(t, j);
    forall s | s in c && s in changed
      ensures (s, c[s].time) in RideOffers(w, b) && c[s].vehicle
    {
      assert NewLeg(t0, t, j, Rides(w, r, b), w.params.destination, s);
      NewRideIsOffered(w, r, b, s, j[s]);
    }
    EveryRideCovered(w, b, t, j);
  }

  lemma EveryRideCovered(w: World, b: Labels, t: Times, j: Journal)
    requires WellFormed(w.buf) && AllScanned(w, b, t)
    ensures forall s, a :: (s, a) in RideOffers(w, b) ==>
              Covered(LabelsOf(t, j), s, a) || Covered(LabelsOf(t, j), w.params.destination, a)
  {
    forall s, a | (s, a) in RideOffers(w, b)
      ensures Covered(LabelsOf(t, j), s, a) || Covered(LabelsOf(t, j), w.params.destination, a)
    {
      var ri, ti, p, q := OfferedRide(w, b, s, a);
      assert RouteScanned(w, b, t, ri, 0);
      assert RideTried(w, t, ri, ti, q);
    }
  }

  lemma NewRideIsOffered(w: World, r: int, l: Labels, s: string, e: JournalEntry)
    requires WellFormed(w.buf) && (s, e) in Rides(w, r, l)
    ensures e.kind.Transit? && (s, e.arrival) in RideOffers(w, l)
  {
    RideIsOffered(w, r, l, s, e);
  }

  lemma RideIsOffered(w: World, r: int, l: Labels, s: string, e: JournalEntry)
    requires WellFormed(w.buf)
    requires RideEntry(w, r, l, s, e)
    ensures e.kind.Transit? && (s, e.arrival) in RideOffers(w, l)
  {
    var ri, t, p, q :| IsRide(w, r, l, s, e, ri, t, p, q);
  }

  // ---- Walking legs ------------------------------------------------------------------------------

  /** The walk along the `i`th footpath out of `from`, leaving at the time it had before the walk pass. */
  function WalkLeg(w: World, k: int, t0: Times, from: string, i: int): JournalEntry
    requires from in t0 && 0 <= i < |w.buf.Walks(from)|
  {
    JournalEntry(Walk, k, from, NO_TRIP, WALK_ROUTE_ID, t0[from], t0[from] + w.buf.Walks(from)[i].walkSeconds)
  }

  ghost predicate IsWalk(w: World, k: int, t0: Times, s: string, e: JournalEntry, i: int) {
    && e.from in t0 && 0 <= i < |w.buf.Walks(e.from)|
    && s == w.buf.Walks(e.from)[i].neighbourStop && e == WalkLeg(w, k, t0, e.from, i)
  }

  ghost predicate WalkEntry(w: World, k: int, t0: Times, s: string, e: JournalEntry) {
    exists i :: IsWalk(w, k, t0, s, e, i)
  }

  ghost function WalksFrom(w: World, k: int, t0: Times, sources: set<string>): Legal {
    iset x: (string, JournalEntry) | x.1.from in sources && WalkEntry(w, k, t0, x.0, x.1)
  }

  lemma LegalWalk(w: World, k: int, t0: Times, sources: set<string>, from: string, i: int)
    requires from in sources && from in t0 && 0 <= i < |w.buf.Walks(from)|
    ensures (w.buf.Walks(from)[i].neighbourStop, WalkLeg(w, k, t0, from, i)) in WalksFrom(w, k, t0, sources)
  {
    assert IsWalk(w, k, t0, w.buf.Walks(from)[i].neighbourStop, WalkLeg(w, k, t0, from, i), i);
  }

  /** Every walk out of `from`, leaving at the time it had before the pass, has been tried. */
  ghost predicate WalksTried(w: World, t0: Times, t: Times, from: string)
    requires from in t0
  {
    WalksTriedTo(w, t0, t, from, |w.buf.Walks(from)|)
  }

  ghost predicate WalksTriedTo(w: World, t0: Times, t: Times, from: string, n: int)
    requires from in t0 && n <= |w.buf.Walks(from)|
  {
    forall i :: 0 <= i < n ==>
      Settled(t, w.params.destination, w.buf.Walks(from)[i].neighbourStop,
              t0[from] + w.buf.Walks(from)[i].walkSeconds)
  }

  lemma WalksStillTried(w: World, t0: Times, before: Times, after: Times, from: string, n: int)
    requires from in t0 && n <= |w.buf.Walks(from)|
    requires WalksTriedTo(w, t0, before, from, n) && Lowered(before, after)
    ensures WalksTriedTo(w, t0, after, from, n)
  {
  }

  /** `preWalk` of the round: for every source with anywhere to walk to, the leg it was reached by. */
  predicate Remembers(w: World, j0: Journal, sources: set<string>, pre: Journal) {
    && (forall s :: s in sources && s in j0 && |w.buf.Walks(s)| > 0 ==> s in pre)
    && (forall s :: s in pre ==> s in j0 && pre[s] == j0[s])
  }

  lemma WalksMerge(w: World, k: int, t0: Times, j0: Journal, t: Times, j: Journal, sources: set<string>,
                   changed: set<string>)
    requires Phase(t0, j0, t, j, changed, WalksFrom(w, k, t0, sources), w.params.destination)
    requires AllWalked(w, t0, t, sources)
    ensures PrunedMerge(LabelsOf(t0, j0), LabelsOf(t, j), WalkOffers(w, LabelsOf(t0, j0), sources),
                        w.params.destination, false)
  {
    var b, c := LabelsOf(t0, j0), LabelsOf(t, j);
    forall s | s in c
      ensures (s in b && c[s] == b[s])
           || ((s, c[s].time) in WalkOffers(w, b, sources) && !c[s].vehicle && Beats(b, s, c[s].time))
    {
      if s in changed {
        assert NewLeg(t0, t, j, WalksFrom(w, k, t0, sources), w.params.destination, s);
        WalkIsOffered(w, k, t0, j0, sources, s, j[s]);
      }
    }
    forall s, a | (s, a) in WalkOffers(w, b, sources)
      ensures Covered(c, s, a) || Covered(c, w.params.destination, a)
    {
      var u, i := OfferedWalk(w, t0, j0, sources, s, a);
      assert WalksTried(w, t0, t, u);
      assert Settled(t, w.params.destination, s, a);
    }
  }

  lemma WalkIsOffered(w: World, k: int, t0: Times, j0: Journal, sources: set<string>, s: string, e: JournalEntry)
    requires e.from in sources && WalkEntry(w, k, t0, s, e)
    ensures e.kind.Walk? && (s, e.arrival) in WalkOffers(w, LabelsOf(t0, j0), sources)
  {
    var i :| IsWalk(w, k, t0, s, e, i);
    var b := LabelsOf(t0, j0);
    assert b[e.from].time == t0[e.from];
    assert (s, e.arrival) == (w.buf.Walks(e.from)[i].neighbourStop,
                              b[e.from].time + w.buf.Walks(e.from)[i].walkSeconds);
  }

  lemma OfferedWalk(w: World, t0: Times, j0: Journal, sources: set<string>, s: string, a: int)
      returns (u: string, i: int)
    requires (s, a) in WalkOffers(w, LabelsOf(t0, j0), sources)
    ensures u in sources && u in t0 && 0 <= i < |w.buf.Walks(u)|
    ensures s == w.buf.Walks(u)[i].neighbourStop && a == t0[u] + w.buf.Walks(u)[i].walkSeconds
  {
    var b := LabelsOf(t0, j0);
    u, i :| u in sources && u in b && 0 <= i < |w.buf.Walks(u)| &&
      (s, a) == (w.buf.Walks(u)[i].neighbourStop, b[u].time + w.buf.Walks(u)[i].walkSeconds);
  }
}
