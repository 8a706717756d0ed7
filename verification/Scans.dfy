/** What scanning a route offers (`scanRoute`), whatever the ties: on an ordered route the arrivals of the one trip
    carried, on any other the arrivals of each trip from the first position it can be boarded at; and when ties are
    harmless, why that stands for every ride. */
module Scans {
  import opened Model
  import opened Reference
  import opened Fifo
  import opened Rounds

  // ---- The queue ---------------------------------------------------------------------------------

  /** The index lists `rs` under one of the stops. */
  ghost predicate Hinted(buf: RouteBuffer, stops: set<string>, rs: RouteStop) {
    exists s :: s in stops && s in buf.stopToRoutes && rs in buf.stopToRoutes[s]
  }

  predicate Usable(buf: RouteBuffer, rs: RouteStop) {
    0 <= rs.routeIdx < |buf.routes| && rs.stopPos >= 0
  }

  predicate Queued(queue: map<int, int>, rs: RouteStop) {
    rs.routeIdx in queue && queue[rs.routeIdx] <= rs.stopPos
  }

  /** The queue holds, for each route the index lists under one of the stops, the earliest listed position. */
  ghost predicate QueueOf(buf: RouteBuffer, stops: set<string>, queue: map<int, int>) {
    && (forall ri :: ri in queue ==>
          Usable(buf, RouteStop(ri, queue[ri])) && Hinted(buf, stops, RouteStop(ri, queue[ri])))
    && (forall rs :: Hinted(buf, stops, rs) && Usable(buf, rs) ==> Queued(queue, rs))
  }

  // ---- The ordered scan, in terms of the trip it carries -----------------------------------------

  lemma OrderedRoute(w: World, ri: int)
    requires WellFormed(w.buf)
    requires 0 <= ri < |w.buf.routes| && w.buf.IsFIFO(ri)
    ensures |w.buf.stopTimes| == |w.buf.routes|
    ensures Rectangular(w.buf.stopTimes[ri], |w.buf.routes[ri].stopIDs|)
    ensures NonOvertaking(w.buf.stopTimes[ri])
    ensures TiesHarmless(w) ==> !HarmfulTie(w, w.buf.stopTimes[ri], |w.buf.routes[ri].stopIDs|)
  {
    forall i | 0 <= i < |w.buf.stopTimes[ri]|
      ensures |w.buf.stopTimes[ri][i].departures| == |w.buf.stopTimes[ri][i].arrivals| == |w.buf.routes[ri].stopIDs|
    {
      assert TripWellFormed(w.buf.routes[ri], w.buf.stopTimes[ri][i]);
    }
  }

  /** When each position of the route can be boarded, nothing before `from` counting. */
  ghost function ReadyFrom(w: World, l: Labels, ri: int, from: int): Readiness
    requires 0 <= ri < |w.buf.routes|
  {
    var stops := w.buf.routes[ri].stopIDs;
    seq(|stops|, p requires 0 <= p < |stops| =>
      if p < from then None else ReadyWith(l, w.params.TransferBuffer(), stops[p]))
  }

  // ---- What a scan offers ------------------------------------------------------------------------

  /** On arriving at position `q` the scan of an ordered route carries trip `ti`, boarded at `p`. */
  ghost predicate CarriedTo(w: World, l: Labels, ri: int, from: int, ti: int, p: int, q: int)
    requires WellFormed(w.buf) && 0 <= ri < |w.buf.routes| && 0 <= q <= |w.buf.routes[ri].stopIDs|
    requires w.buf.IsFIFO(ri)
  {
    OrderedRoute(w, ri);
    && ti == Carried(w, w.buf.stopTimes[ri], ReadyFrom(w, l, ri, from), q)
    && p == BoardedAt(w, w.buf.stopTimes[ri], ReadyFrom(w, l, ri, from), q)
  }

  ghost predicate FirstBoarding(w: World, l: Labels, ri: int, from: int, ti: int, p: int)
    requires WellFormed(w.buf)
  {
    forall x :: from <= x < p ==> !Boardable(w, l, ri, ti, x)
  }

  /** The scan of route `ri` from position `from` alights from trip `ti` at `q`, having boarded it at `p`. */
  ghost predicate ScanRide(w: World, l: Labels, ri: int, from: int, ti: int, p: int, q: int)
    requires WellFormed(w.buf)
  {
    && RideOffer(w, l, ri, ti, p, q) && from <= p
    && if w.buf.IsFIFO(ri) then CarriedTo(w, l, ri, from, ti, p, q) else FirstBoarding(w, l, ri, from, ti, p)
  }

  /** Everything the scan of the route offers has been tried. */
  ghost predicate ScanTried(w: World, l: Labels, t: Times, ri: int, from: int)
    requires WellFormed(w.buf)
  {
    forall ti, p, q :: ScanRide(w, l, ri, from, ti, p, q) ==> RideTried(w, t, ri, ti, q)
  }

  /** Entry `e` is a leg the scan of one queued route offers. */
  ghost predicate IsScanLeg(w: World, r: int, l: Labels, queue: map<int, int>, s: string, e: JournalEntry,
                            ri: int, ti: int, p: int, q: int)
    requires WellFormed(w.buf)
  {
    && ri in queue && ScanRide(w, l, ri, queue[ri], ti, p, q)
    && s == w.buf.routes[ri].stopIDs[q] && e == RideLeg(w, r, ri, ti, p, q)
  }

  ghost predicate ScanEntry(w: World, r: int, l: Labels, queue: map<int, int>, s: string, e: JournalEntry)
    requires WellFormed(w.buf)
  {
    exists ri, ti, p, q :: IsScanLeg(w, r, l, queue, s, e, ri, ti, p, q)
  }

  ghost function ScanLegs(w: World, r: int, l: Labels, queue: map<int, int>): Legal
    requires WellFormed(w.buf)
  {
    iset x: (string, JournalEntry) | ScanEntry(w, r, l, queue, x.0, x.1)
  }

  lemma LegalScan(w: World, r: int, l: Labels, queue: map<int, int>, ri: int, ti: int, p: int, q: int)
    requires WellFormed(w.buf) && ri in queue && ScanRide(w, l, ri, queue[ri], ti, p, q)
    ensures (w.buf.routes[ri].stopIDs[q], RideLeg(w, r, ri, ti, p, q)) in ScanLegs(w, r, l, queue)
  {
    assert IsScanLeg(w, r, l, queue, w.buf.routes[ri].stopIDs[q], RideLeg(w, r, ri, ti, p, q), ri, ti, p, q);
  }

  /** The vehicle phase of round k so far: the maps were `t0`, `j0`, and only scans of the queue have written. */
  ghost predicate QueueRan(w: World, k: int, t0: Times, j0: Journal, queue: map<int, int>, t: Times, j: Journal,
                           improved: set<string>)
    requires WellFormed(w.buf)
  {
    Phase(t0, j0, t, j, improved, ScanLegs(w, k - 1, LabelsOf(t0, j0), queue), w.params.destination)
  }

  lemma ScansAreRides(w: World, k: int, t0: Times, j0: Journal, queue: map<int, int>, t: Times, j: Journal,
                      improved: set<string>)
    requires WellFormed(w.buf) && QueueRan(w, k, t0, j0, queue, t, j, improved)
    ensures Phase(t0, j0, t, j, improved, Rides(w, k - 1, LabelsOf(t0, j0)), w.params.destination)
  {
    var l := LabelsOf(t0, j0);
    forall s | s in improved
      ensures NewLeg(t0, t, j, Rides(w, k - 1, l), w.params.destination, s)
    {
      assert NewLeg(t0, t, j, ScanLegs(w, k - 1, l, queue), w.params.destination, s);
      ScanIsRide(w, k - 1, l, queue, s, j[s]);
    }
  }

  lemma ScanIsRide(w: World, r: int, l: Labels, queue: map<int, int>, s: string, e: JournalEntry)
    requires WellFormed(w.buf) && (s, e) in ScanLegs(w, r, l, queue)
    ensures (s, e) in Rides(w, r, l)
  {
    hide WellFormed, CarriedTo, FirstBoarding;
    var ri, ti, p, q :| IsScanLeg(w, r, l, queue, s, e, ri, ti, p, q);
    LegalRide(w, r, l, ri, ti, p, q);
  }

  lemma ScanStaysTried(w: World, l: Labels, before: Times, after: Times, ri: int, from: int)
    requires WellFormed(w.buf)
    requires ScanTried(w, l, before, ri, from) && Lowered(before, after)
    ensures ScanTried(w, l, after, ri, from)
  {
    forall ti, p, q | ScanRide(w, l, ri, from, ti, p, q)
      ensures RideTried(w, after, ri, ti, q)
    {
      StillTried(w, before, after, ri, ti, q);
    }
  }

  /** The first `n` routes of the order have been scanned from their queued positions. */
  ghost predicate ScansTried(w: World, l: Labels, t: Times, queue: map<int, int>, order: seq<int>, n: int)
    requires WellFormed(w.buf) && n <= |order| && forall ri :: ri in order ==> ri in queue
  {
    forall m :: 0 <= m < n ==> ScanTried(w, l, t, order[m], queue[order[m]])
  }

  lemma OneMoreScan(w: World, l: Labels, before: Times, after: Times, queue: map<int, int>, order: seq<int>, n: nat)
    requires WellFormed(w.buf) && n < |order| && forall ri :: ri in order ==> ri in queue
    requires ScansTried(w, l, before, queue, order, n) && Lowered(before, after)
    requires ScanTried(w, l, after, order[n], queue[order[n]])
    ensures ScansTried(w, l, after, queue, order, n + 1)
  {
    hide WellFormed, ScanTried, Lowered;
    forall m | 0 <= m < n
      ensures ScanTried(w, l, after, order[m], queue[order[m]])
    {
      ScanStaysTried(w, l, before, after, order[m], queue[order[m]]);
    }
  }

  lemma NotBoardedYet(w: World, l: Labels, ri: int, from: int, ti: int)
    requires WellFormed(w.buf)
    ensures FirstBoarding(w, l, ri, from, ti, from)
  {
  }

  lemma NotBoardedBefore(w: World, l: Labels, ri: int, from: int, ti: int, pos: int)
    requires WellFormed(w.buf) && FirstBoarding(w, l, ri, from, ti, pos)
    ensures forall p :: from <= p < pos ==> !Boardable(w, l, ri, ti, p)
    ensures from <= pos && !Boardable(w, l, ri, ti, pos) ==> FirstBoarding(w, l, ri, from, ti, pos + 1)
  {
  }

  lemma RidesFromFirst(w: World, l: Labels, ri: int, from: int, ti: int, p: int, q: int)
    requires WellFormed(w.buf) && 0 <= ri < |w.buf.routes| && !w.buf.IsFIFO(ri)
    requires Boardable(w, l, ri, ti, p) && FirstBoarding(w, l, ri, from, ti, p)
    requires from <= p < q < |w.buf.routes[ri].stopIDs|
    ensures ScanRide(w, l, ri, from, ti, p, q)
  {
    hide WellFormed, Boardable, FirstBoarding;
  }

  /** Before the first position of an ordered route: on foot, and nothing to offer. */
  lemma ScanStarts(w: World, l: Labels, t: Times, ri: int, from: nat)
    requires WellFormed(w.buf) && 0 <= ri < |w.buf.routes| && w.buf.IsFIFO(ri)
    ensures |w.buf.stopTimes| == |w.buf.routes|
    ensures Rectangular(w.buf.stopTimes[ri], |w.buf.routes[ri].stopIDs|) && NonOvertaking(w.buf.stopTimes[ri])
    ensures Riding(w, l, ri, from, from, -1, "", 0) && CarriedTriedTo(w, l, t, ri, from, from)
    ensures Lowered(t, t)
  {
    OrderedRoute(w, ri);
    hide WellFormed;
    NothingCarriedYet(w, l, t, ri, from);
    StartsOnFoot(w, l, ri, from);
  }

  /** The first position a trip can be boarded at, when it can be boarded at all. */
  lemma {:induction false} EarliestBoarding(w: World, l: Labels, ri: int, from: int, ti: int, p: int) returns (b: int)
    requires WellFormed(w.buf) && from <= p && Boardable(w, l, ri, ti, p)
    ensures from <= b <= p && Boardable(w, l, ri, ti, b) && FirstBoarding(w, l, ri, from, ti, b)
    decreases p - from
  {
    if x :| from <= x < p && Boardable(w, l, ri, ti, x) {
      b := EarliestBoarding(w, l, ri, from, ti, x);
    } else {
      b := p;
    }
  }

  /** On an overtaking route boarding each trip at the first chance stands for every ride. */
  lemma FirstBoardingsSuffice(w: World, l: Labels, t: Times, ri: int, from: int)
    requires WellFormed(w.buf) && !w.buf.IsFIFO(ri) && ScanTried(w, l, t, ri, from)
    ensures RouteScanned(w, l, t, ri, from)
  {
    forall ti, p, q | from <= p && RideOffer(w, l, ri, ti, p, q)
      ensures RideTried(w, t, ri, ti, q)
    {
      var b := EarliestBoarding(w, l, ri, from, ti, p);
      assert ScanRide(w, l, ri, from, ti, b, q);
    }
  }

  /** What a scan offers stands for every ride, on an ordered route when ties are harmless. */
  lemma ScanSuffices(w: World, l: Labels, t: Times, ri: int, from: int)
    requires WellFormed(w.buf) && 0 <= ri < |w.buf.routes| && ScanTried(w, l, t, ri, from)
    requires !w.buf.IsFIFO(ri) || TiesHarmless(w)
    ensures RouteScanned(w, l, t, ri, from)
  {
    hide WellFormed, ScanTried, RouteScanned, TiesHarmless;
    if w.buf.IsFIFO(ri) {
      CarriedSuffices(w, l, t, ri, from);
    } else {
      FirstBoardingsSuffice(w, l, t, ri, from);
    }
  }

  lemma ScannedIsTried(w: World, l: Labels, t: Times, ri: int, from: int)
    requires WellFormed(w.buf) && RouteScanned(w, l, t, ri, from)
    ensures ScanTried(w, l, t, ri, from)
  {
  }

  // ---- The trip carried --------------------------------------------------------------------------

  lemma CatchIsBoardable(w: World, l: Labels, ri: int, from: int, ti: int, p: int)
    requires WellFormed(w.buf) && 0 <= ri < |w.buf.routes|
    requires Rectangular(w.buf.stopTimes[ri], |w.buf.routes[ri].stopIDs|)
    ensures Catch(w, w.buf.stopTimes[ri], ReadyFrom(w, l, ri, from), ti, p)
            <==> from <= p && Boardable(w, l, ri, ti, p)
  {
  }

  lemma CarriedBoarded(w: World, l: Labels, ri: int, from: int, pos: nat)
    requires WellFormed(w.buf) && 0 <= ri < |w.buf.routes| && pos <= |w.buf.routes[ri].stopIDs|
    requires Rectangular(w.buf.stopTimes[ri], |w.buf.routes[ri].stopIDs|) && NonOvertaking(w.buf.stopTimes[ri])
    requires Carried(w, w.buf.stopTimes[ri], ReadyFrom(w, l, ri, from), pos) >= 0
    ensures var trips, ready := w.buf.stopTimes[ri], ReadyFrom(w, l, ri, from);
            var c, bp := Carried(w, trips, ready, pos), BoardedAt(w, trips, ready, pos);
            0 <= bp < pos && from <= bp && Boardable(w, l, ri, c, bp)
  {
    var trips, ready := w.buf.stopTimes[ri], ReadyFrom(w, l, ri, from);
    CarriedIsBoarded(w, trips, ready, pos);
    CatchIsBoardable(w, l, ri, from, Carried(w, trips, ready, pos), BoardedAt(w, trips, ready, pos));
  }

  lemma TriedByCarried(w: World, l: Labels, t: Times, ri: int, from: int, ti: int, p: int, pos: nat)
    requires WellFormed(w.buf) && RideOffer(w, l, ri, ti, p, pos) && from <= p && w.buf.IsFIFO(ri)
    requires Rectangular(w.buf.stopTimes[ri], |w.buf.routes[ri].stopIDs|) && NonOvertaking(w.buf.stopTimes[ri])
    requires !HarmfulTie(w, w.buf.stopTimes[ri], |w.buf.routes[ri].stopIDs|)
    requires ScanTried(w, l, t, ri, from)
    ensures RideTried(w, t, ri, ti, pos)
  {
    var trips, ready := w.buf.stopTimes[ri], ReadyFrom(w, l, ri, from);
    assert TripWellFormed(w.buf.routes[ri], trips[ti]);
    CatchIsBoardable(w, l, ri, from, ti, p);
    hide WellFormed, HarmfulTie, NonOvertaking;
    CarriedIsOptimal(w, trips, ready, pos, ti, p, pos);
    var c, bp := Carried(w, trips, ready, pos), BoardedAt(w, trips, ready, pos);
    CarriedBoarded(w, l, ri, from, pos);
    assert ScanRide(w, l, ri, from, c, bp, pos);
  }

  /** What the scan remembers on arriving at position `pos`: the trip it carries, and where and when that
      trip was boarded. */
  ghost predicate Riding(w: World, l: Labels, ri: int, from: int, pos: int, tripIdx: int, boardStation: string,
                         boardDep: int)
    requires 0 <= ri < |w.buf.routes| && ri < |w.buf.stopTimes|
    requires Rectangular(w.buf.stopTimes[ri], |w.buf.routes[ri].stopIDs|)
  {
    var trips, ready, stops := w.buf.stopTimes[ri], ReadyFrom(w, l, ri, from), w.buf.routes[ri].stopIDs;
    0 <= pos <= |stops| ==>
      && tripIdx == Carried(w, trips, ready, pos)
      && (tripIdx >= 0 ==>
            var bp := BoardedAt(w, trips, ready, pos);
            0 <= bp < pos && boardStation == stops[bp] && boardDep == trips[tripIdx].departures[bp])
  }

  lemma StartsOnFoot(w: World, l: Labels, ri: int, from: nat)
    requires 0 <= ri < |w.buf.routes| && ri < |w.buf.stopTimes|
    requires Rectangular(w.buf.stopTimes[ri], |w.buf.routes[ri].stopIDs|)
    ensures Riding(w, l, ri, from, from, -1, "", 0)
  {
    if from <= |w.buf.routes[ri].stopIDs| {
      CarriedIdle(w, w.buf.stopTimes[ri], ReadyFrom(w, l, ri, from), 0, from);
    }
  }

  lemma RidingFacts(w: World, l: Labels, ri: int, from: nat, pos: nat, tripIdx: int, boardStation: string,
                    boardDep: int)
    requires WellFormed(w.buf) && 0 <= ri < |w.buf.routes| && from <= pos < |w.buf.routes[ri].stopIDs|
    requires w.buf.IsFIFO(ri)
    requires Rectangular(w.buf.stopTimes[ri], |w.buf.routes[ri].stopIDs|) && NonOvertaking(w.buf.stopTimes[ri])
    requires Riding(w, l, ri, from, pos, tripIdx, boardStation, boardDep)
    ensures var trips, ready, stops := w.buf.stopTimes[ri], ReadyFrom(w, l, ri, from), w.buf.routes[ri].stopIDs;
            && |ready| == |stops| && ready[pos] == ReadyWith(l, w.params.TransferBuffer(), stops[pos])
            && tripIdx == Carried(w, trips, ready, pos) && -1 <= tripIdx < |trips|
            && (tripIdx >= 0 ==>
                  var bp := BoardedAt(w, trips, ready, pos);
                  && 0 <= bp < pos && boardStation == stops[bp] && boardDep == trips[tripIdx].departures[bp]
                  && ScanRide(w, l, ri, from, tripIdx, bp, pos)
                  && TripWellFormed(w.buf.routes[ri], trips[tripIdx]))
  {
    if tripIdx >= 0 {
      CarriedBoarded(w, l, ri, from, pos);
    }
  }

  lemma RidesOn(w: World, l: Labels, ri: int, from: nat, pos: nat, tripIdx: int, boardStation: string, boardDep: int,
                next: int)
    requires 0 <= ri < |w.buf.routes| && ri < |w.buf.stopTimes| && from <= pos < |w.buf.routes[ri].stopIDs|
    requires Rectangular(w.buf.stopTimes[ri], |w.buf.routes[ri].stopIDs|)
    requires Riding(w, l, ri, from, pos, tripIdx, boardStation, boardDep) && -1 <= tripIdx < |w.buf.stopTimes[ri]|
    requires next == BoardStep(w, w.buf.stopTimes[ri], ReadyFrom(w, l, ri, from), pos, tripIdx)
    ensures next != tripIdx ==> 0 <= next < |w.buf.stopTimes[ri]|
    ensures if next != tripIdx then
              Riding(w, l, ri, from, pos + 1, next, w.buf.routes[ri].stopIDs[pos],
                     w.buf.stopTimes[ri][next].departures[pos])
            else Riding(w, l, ri, from, pos + 1, tripIdx, boardStation, boardDep)
  {
  }

  /** The arrivals of the carried trip at every position before `to` have been tried. */
  ghost predicate CarriedTriedTo(w: World, l: Labels, t: Times, ri: int, from: int, to: int)
    requires WellFormed(w.buf) && 0 <= ri < |w.buf.routes|
    requires Rectangular(w.buf.stopTimes[ri], |w.buf.routes[ri].stopIDs|)
  {
    forall q :: 0 <= q < to && q < |w.buf.routes[ri].stopIDs| ==> CarriedTriedAt(w, l, t, ri, from, q)
  }

  ghost predicate CarriedTriedAt(w: World, l: Labels, t: Times, ri: int, from: int, q: int)
    requires WellFormed(w.buf) && 0 <= ri < |w.buf.routes| && 0 <= q < |w.buf.routes[ri].stopIDs|
    requires Rectangular(w.buf.stopTimes[ri], |w.buf.routes[ri].stopIDs|)
  {
    var c := Carried(w, w.buf.stopTimes[ri], ReadyFrom(w, l, ri, from), q);
    c >= 0 ==> RideTried(w, t, ri, c, q)
  }

  lemma NothingCarriedYet(w: World, l: Labels, t: Times, ri: int, from: nat)
    requires WellFormed(w.buf) && 0 <= ri < |w.buf.routes|
    requires Rectangular(w.buf.stopTimes[ri], |w.buf.routes[ri].stopIDs|)
    ensures CarriedTriedTo(w, l, t, ri, from, from)
  {
    forall q: nat | q < from && q < |w.buf.routes[ri].stopIDs|
      ensures CarriedTriedAt(w, l, t, ri, from, q)
    {
      CarriedIdle(w, w.buf.stopTimes[ri], ReadyFrom(w, l, ri, from), 0, q);
    }
  }

  lemma PositionTried(w: World, l: Labels, before: Times, after: Times, ri: int, from: int, pos: nat)
    requires WellFormed(w.buf) && 0 <= ri < |w.buf.routes| && pos < |w.buf.routes[ri].stopIDs|
    requires Rectangular(w.buf.stopTimes[ri], |w.buf.routes[ri].stopIDs|)
    requires CarriedTriedTo(w, l, before, ri, from, pos) && Lowered(before, after)
    requires CarriedTriedAt(w, l, after, ri, from, pos)
    ensures CarriedTriedTo(w, l, after, ri, from, pos + 1)
  {
    forall q: nat | q < pos
      ensures CarriedTriedAt(w, l, after, ri, from, q)
    {
      assert CarriedTriedAt(w, l, before, ri, from, q);
      var c := Carried(w, w.buf.stopTimes[ri], ReadyFrom(w, l, ri, from), q);
      if c >= 0 {
        StillTried(w, before, after, ri, c, q);
      }
    }
  }

  lemma AllPositionsTried(w: World, l: Labels, t: Times, ri: int, from: int, to: int)
    requires WellFormed(w.buf) && 0 <= ri < |w.buf.routes| && to >= |w.buf.routes[ri].stopIDs|
    requires w.buf.IsFIFO(ri) && Rectangular(w.buf.stopTimes[ri], |w.buf.routes[ri].stopIDs|)
    requires CarriedTriedTo(w, l, t, ri, from, to)
    ensures ScanTried(w, l, t, ri, from)
  {
    forall ti, p, q | ScanRide(w, l, ri, from, ti, p, q)
      ensures RideTried(w, t, ri, ti, q)
    {
      assert CarriedTriedAt(w, l, t, ri, from, q);
    }
  }

  /** On an ordered route without harmful ties the arrivals of the carried trip stand for every ride. */
  lemma CarriedSuffices(w: World, l: Labels, t: Times, ri: int, from: int)
    requires WellFormed(w.buf) && 0 <= ri < |w.buf.routes| && w.buf.IsFIFO(ri) && TiesHarmless(w)
    requires ScanTried(w, l, t, ri, from)
    ensures RouteScanned(w, l, t, ri, from)
  {
    OrderedRoute(w, ri);
    forall ti, p, q | from <= p && RideOffer(w, l, ri, ti, p, q)
      ensures RideTried(w, t, ri, ti, q)
    {
      TriedByCarried(w, l, t, ri, from, ti, p, q);
    }
  }
}
