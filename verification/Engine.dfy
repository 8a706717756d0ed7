/** The search itself (`internal/raptor/engine.go`): the working state of one query and the loops that
    update it in place. */
module Engine {
  import opened Model
  import opened Ordering
  import opened Reference
  import opened Agreement
  import opened Fifo
  import opened Rounds
  import opened History
  import opened Scans
  import opened Traces
  import opened Journeys
  import opened Frontier
  import opened Answer

  class SearchState {
    const w: World

    // tau[k][stop]: earliest arrival at stop using at most k vehicles; journal[k][stop]: the final leg
    // of that journey; preWalk[k][stop]: the leg a walk source of round k had been reached by.
    var tau: TauTable
    var journal: JournalTable
    var preWalk: JournalTable
    // best[stop]: earliest arrival over all rounds.
    var best: Times

    ghost predicate Shaped(k: int)
      reads this
    {
      |tau| == |journal| == |preWalk| == w.params.Rounds() + 1 && 0 <= k < |tau|
      && WellFormed(w.buf) && best == tau[k]
    }

    /** Round k is being written, and nothing but round k has changed since the tables were `tau0` and
        `journal0`. */
    ghost predicate Working(k: int, tau0: TauTable, journal0: JournalTable)
      reads this
    {
      Shaped(k) && |tau0| == |tau| && |journal0| == |journal|
      && (forall j :: 0 <= j < |tau| && j != k ==> tau[j] == tau0[j])
      && (forall j :: 0 <= j < |tau| && j != k ==> journal[j] == journal0[j])
    }

    constructor (w: World)
      requires WellFormed(w.buf)
      ensures this.w == w && Shaped(0)
      ensures tau[0] == map[w.params.origin := w.params.depTime] && journal[0] == map[] && preWalk[0] == map[]
      ensures Untouched(0)
    {
      this.w := w;
      var start := map[w.params.origin := w.params.depTime];
      best := start;
      tau := [start] + seq(w.params.Rounds(), _ => map[]);
      journal := seq(w.params.Rounds() + 1, _ => map[]);
      preWalk := seq(w.params.Rounds() + 1, _ => map[]);
    }

    /** Local dominance and target pruning. */
    predicate Improves(arr: int, station: string)
      reads this
    {
      !(w.params.destination in best && arr >= best[w.params.destination])
      && (station !in best || arr < best[station])
    }

    /** Write one final leg of round k if it improves its station. `best` follows, so it stays equal to
        the labels of the round being written. */
    method Relax(k: int, station: string, e: JournalEntry, ghost t0: Times, ghost j0: Journal,
                 ghost changed: set<string>, ghost legal: Legal)
        returns (took: bool)
      requires Shaped(k)
      requires Phase(t0, j0, tau[k], journal[k], changed, legal, w.params.destination)
      requires (station, e) in legal
      modifies this`tau, this`journal, this`best
      ensures Working(k, old(tau), old(journal))
      ensures Phase(t0, j0, tau[k], journal[k], if took then changed + {station} else changed, legal,
                    w.params.destination)
      ensures Lowered(old(tau[k]), tau[k])
      ensures Settled(tau[k], w.params.destination, station, e.arrival)
      ensures took <==>
                Earlier(old(tau[k]), station, e.arrival) && Earlier(old(tau[k]), w.params.destination, e.arrival)
      ensures tau[k] == if took then old(tau[k])[station := e.arrival] else old(tau[k])
      ensures journal[k] == if took then old(journal[k])[station := e] else old(journal[k])
    {
      took := Improves(e.arrival, station);
      if took {
        Record(t0, j0, tau[k], journal[k], changed, legal, w.params.destination, station, e);
        tau := tau[k := tau[k][station := e.arrival]];
        best := best[station := e.arrival];
        journal := journal[k := journal[k][station := e]];
      }
    }

    /** Offer the arrival of the trip being ridden at position `pos`. */
    method Alight(k: int, ri: int, ti: int, pos: int, boardStation: string, boardDep: int, improved: set<string>,
                  ghost queue: map<int, int>, ghost bp: int)
        returns (improved': set<string>)
      requires Shaped(k) && k >= 1
      requires ri in queue && ScanRide(w, LabelsOf(tau[k - 1], journal[k - 1]), ri, queue[ri], ti, bp, pos)
      requires TripWellFormed(w.buf.routes[ri], w.buf.stopTimes[ri][ti])
      requires boardStation == w.buf.routes[ri].stopIDs[bp] && boardDep == w.buf.stopTimes[ri][ti].departures[bp]
      requires QueueRan(w, k, tau[k - 1], journal[k - 1], queue, tau[k], journal[k], improved)
      modifies this`tau, this`journal, this`best
      ensures Working(k, old(tau), old(journal))
      ensures QueueRan(w, k, tau[k - 1], journal[k - 1], queue, tau[k], journal[k], improved')
      ensures Lowered(old(tau[k]), tau[k])
      ensures RideTried(w, tau[k], ri, ti, pos)
    {
      hide Phase, ScanLegs, Lowered, CarriedTo, FirstBoarding;
      var station := w.buf.routes[ri].stopIDs[pos];
      var t := w.buf.stopTimes[ri][ti];
      var e := JournalEntry(Transit, k - 1, boardStation, t.key, w.buf.routes[ri].routeID, boardDep, t.arrivals[pos]);
      ghost var l := LabelsOf(tau[k - 1], journal[k - 1]);
      LegalScan(w, k - 1, l, queue, ri, ti, bp, pos);
      var took := Relax(k, station, e, tau[k - 1], journal[k - 1], improved, ScanLegs(w, k - 1, l, queue));
      improved' := if took then improved + {station} else improved;
    }

    /** When the passenger can board at a stop, read off the previous round's label alone. */
    function ReadyAt(k: int, station: string): (ready: Option<int>)
      requires Shaped(k) && k >= 1
      reads this
      ensures ready == ReadyWith(LabelsOf(tau[k - 1], journal[k - 1]), w.params.TransferBuffer(), station)
    {
      if station !in tau[k - 1] then None
      else
        var late := station in journal[k - 1] && journal[k - 1][station].kind.Transit?;
        Some(tau[k - 1][station] + if late then w.params.TransferBuffer() else 0)
    }

    /** Ride one specific trip forward: board at the first stop round k-1 gets the passenger to in time,
        then offer that trip's arrival at every stop after it. */
    method ScanTrip(k: int, ri: int, ti: int, boardPos: int, improved: set<string>, ghost queue: map<int, int>)
        returns (improved': set<string>)
      requires Shaped(k) && k >= 1
      requires 0 <= ri < |w.buf.routes| && 0 <= ti < |w.buf.stopTimes[ri]| && 0 <= boardPos
      requires !w.buf.IsFIFO(ri) && ri in queue && queue[ri] == boardPos
      requires QueueRan(w, k, tau[k - 1], journal[k - 1], queue, tau[k], journal[k], improved)
      modifies this`tau, this`journal, this`best
      ensures Working(k, old(tau), old(journal))
      ensures QueueRan(w, k, tau[k - 1], journal[k - 1], queue, tau[k], journal[k], improved')
      ensures Lowered(old(tau[k]), tau[k])
      ensures TripScanned(w, LabelsOf(tau[k - 1], journal[k - 1]), tau[k], ri, ti, boardPos, |w.buf.routes[ri].stopIDs|)
    {
      improved' := improved;
      var route := w.buf.routes[ri];
      var t := w.buf.stopTimes[ri][ti];
      if !TripUsable(w, t.key) {
        return;
      }
      assert TripWellFormed(route, t);
      hide WellFormed, QueueRan, Lowered, RideTried, TripScanned, RideOffer, Boardable, TripUsable, ReadyWith,
           LabelsOf, TripWellFormed, FirstBoarding, ScanRide;
      ghost var l := LabelsOf(tau[k - 1], journal[k - 1]);
      var boarded := false;
      var boardStation := "";
      var boardDep := 0;
      ghost var bp := 0;
      NothingLowered(tau[k]);
      NotBoardedYet(w, l, ri, boardPos, ti);

      var pos := boardPos;
      while pos < |route.stopIDs|
        invariant Working(k, old(tau), old(journal))
        invariant QueueRan(w, k, tau[k - 1], journal[k - 1], queue, tau[k], journal[k], improved')
        invariant Lowered(old(tau[k]), tau[k])
        invariant boardPos <= pos
        invariant boarded ==> boardPos <= bp < pos && Boardable(w, l, ri, ti, bp)
        invariant boarded ==> boardStation == route.stopIDs[bp] && boardDep == t.departures[bp]
        invariant FirstBoarding(w, l, ri, boardPos, ti, if boarded then bp else pos)
        invariant TripScanned(w, l, tau[k], ri, ti, boardPos, pos)
      {
        var station := route.stopIDs[pos];
        if boarded {
          ghost var before := tau[k];
          RidesFromFirst(w, l, ri, boardPos, ti, bp, pos);
          improved' := Alight(k, ri, ti, pos, boardStation, boardDep, improved', queue, bp);
          LoweredTwice(old(tau[k]), before, tau[k]);
          TripRidesOn(w, l, before, tau[k], ri, ti, boardPos, pos);
        } else {
          NotBoardedBefore(w, l, ri, boardPos, ti, pos);
          TripPassesBy(w, l, tau[k], ri, ti, boardPos, pos);
          var ready := ReadyAt(k, station);
          BoardableWhenReady(w, l, ri, ti, pos);
          if ready.Some? && t.departures[pos] >= ready.value {
            boarded := true;
            boardStation := station;
            boardDep := t.departures[pos];
            bp := pos;
          }
        }
        pos := pos + 1;
      }
    }

    /** A route whose trips overtake each other: scan each trip on its own. */
    method ScanOvertaking(k: int, ri: int, boardPos: int, improved: set<string>, ghost queue: map<int, int>)
        returns (improved': set<string>)
      requires Shaped(k) && k >= 1
      requires 0 <= ri < |w.buf.routes| && 0 <= boardPos
      requires !w.buf.IsFIFO(ri) && ri in queue && queue[ri] == boardPos
      requires QueueRan(w, k, tau[k - 1], journal[k - 1], queue, tau[k], journal[k], improved)
      modifies this`tau, this`journal, this`best
      ensures Working(k, old(tau), old(journal))
      ensures QueueRan(w, k, tau[k - 1], journal[k - 1], queue, tau[k], journal[k], improved')
      ensures Lowered(old(tau[k]), tau[k])
      ensures RouteScanned(w, LabelsOf(tau[k - 1], journal[k - 1]), tau[k], ri, boardPos)
    {
      hide QueueRan, Lowered, TripScanned, RouteScanned;
      improved' := improved;
      ghost var l, n := LabelsOf(tau[k - 1], journal[k - 1]), |w.buf.routes[ri].stopIDs|;
      NothingLowered(tau[k]);
      for ti := 0 to |w.buf.stopTimes[ri]|
        invariant Working(k, old(tau), old(journal))
        invariant QueueRan(w, k, tau[k - 1], journal[k - 1], queue, tau[k], journal[k], improved')
        invariant Lowered(old(tau[k]), tau[k])
        invariant forall i :: 0 <= i < ti ==> TripScanned(w, l, tau[k], ri, i, boardPos, n)
      {
        ghost var before := tau[k];
        improved' := ScanTrip(k, ri, ti, boardPos, improved', queue);
        LoweredTwice(old(tau[k]), before, tau[k]);
        forall i | 0 <= i < ti
          ensures TripScanned(w, l, tau[k], ri, i, boardPos, n)
        {
          TripStaysScanned(w, l, before, tau[k], ri, i, boardPos, n);
        }
      }
      RouteFromTrips(w, l, tau[k], ri, boardPos);
    }

    /** The boarding decision at one position: the earliest departure that can still be caught and leaves
        strictly before the trip being ridden, if there is one. */
    method Board(trips: seq<TripStopTimes>, pos: nat, at: Option<int>, tripIdx: int, ghost ready: Readiness)
        returns (next: int)
      requires Rectangular(trips, |ready|) && pos < |ready| && at == ready[pos] && -1 <= tripIdx < |trips|
      requires NonOvertaking(trips)
      ensures next == BoardStep(w, trips, ready, pos, tripIdx)
    {
      next := tripIdx;
      var curDep := if tripIdx >= 0 then Some(trips[tripIdx].departures[pos]) else None;
      if at.Some? && (curDep.Some? ==> at.value <= curDep.value) {
        forall i, j | 0 <= i < j < |trips|
          ensures trips[i].departures[pos] <= trips[j].departures[pos]
        {
          InOrder(trips, |ready|, i, j, pos);
        }
        var cand := EarliestTrip(w, trips, pos, at.value, curDep);
        if cand >= 0 {
          next := cand;
        }
      }
    }

    /** The scan of an ordered route stands at position `pos`, and everything it carried so far has been offered. */
    ghost predicate Scanning(k: int, ri: int, boardPos: nat, pos: nat, tripIdx: int, boardStation: string,
                             boardDep: int, improved: set<string>, queue: map<int, int>)
      reads this
    {
      && Shaped(k) && k >= 1 && 0 <= ri < |w.buf.routes| && boardPos <= pos
      && w.buf.IsFIFO(ri) && Rectangular(w.buf.stopTimes[ri], |w.buf.routes[ri].stopIDs|)
      && NonOvertaking(w.buf.stopTimes[ri])
      && ri in queue && queue[ri] == boardPos
      && QueueRan(w, k, tau[k - 1], journal[k - 1], queue, tau[k], journal[k], improved)
      && Riding(w, LabelsOf(tau[k - 1], journal[k - 1]), ri, boardPos, pos, tripIdx, boardStation, boardDep)
      && CarriedTriedTo(w, LabelsOf(tau[k - 1], journal[k - 1]), tau[k], ri, boardPos, pos)
    }

    /** Step A at one position of an ordered route. */
    method AlightCarried(k: int, ri: int, boardPos: nat, pos: nat, tripIdx: int, boardStation: string, boardDep: int,
                         improved: set<string>, ghost queue: map<int, int>)
        returns (improved': set<string>)
      requires Scanning(k, ri, boardPos, pos, tripIdx, boardStation, boardDep, improved, queue)
      requires pos < |w.buf.routes[ri].stopIDs|
      modifies this`tau, this`journal, this`best
      ensures Working(k, old(tau), old(journal))
      ensures QueueRan(w, k, tau[k - 1], journal[k - 1], queue, tau[k], journal[k], improved')
      ensures Lowered(old(tau[k]), tau[k])
      ensures CarriedTriedTo(w, LabelsOf(tau[k - 1], journal[k - 1]), tau[k], ri, boardPos, pos + 1)
    {
      ghost var l := LabelsOf(tau[k - 1], journal[k - 1]);
      RidingFacts(w, l, ri, boardPos, pos, tripIdx, boardStation, boardDep);
      hide WellFormed, TripWellFormed, NonOvertaking, Rectangular, QueueRan, Lowered, Boardable, RideTried, ScanRide,
           CarriedTriedTo, Riding, Carried, BoardedAt, ReadyFrom, ReadyWith, LabelsOf;
      improved' := improved;
      if tripIdx >= 0 {
        improved' := Alight(k, ri, tripIdx, pos, boardStation, boardDep, improved, queue,
                            BoardedAt(w, w.buf.stopTimes[ri], ReadyFrom(w, l, ri, boardPos), pos));
      } else {
        NothingLowered(tau[k]);
      }
      PositionTried(w, l, old(tau[k]), tau[k], ri, boardPos, pos);
    }

    /** Both steps at one position of an ordered route: alight from the trip carried here, then move to an
        earlier departure if the previous round got the passenger there in time. */
    method ScanPosition(k: int, ri: int, boardPos: nat, pos: nat, tripIdx: int, boardStation: string, boardDep: int,
                        improved: set<string>, ghost queue: map<int, int>)
        returns (tripIdx': int, boardStation': string, boardDep': int, improved': set<string>)
      requires Scanning(k, ri, boardPos, pos, tripIdx, boardStation, boardDep, improved, queue)
      requires pos < |w.buf.routes[ri].stopIDs|
      modifies this`tau, this`journal, this`best
      ensures Working(k, old(tau), old(journal))
      ensures Lowered(old(tau[k]), tau[k])
      ensures Scanning(k, ri, boardPos, pos + 1, tripIdx', boardStation', boardDep', improved', queue)
    {
      var stops, trips := w.buf.routes[ri].stopIDs, w.buf.stopTimes[ri];
      ghost var l := LabelsOf(tau[k - 1], journal[k - 1]);
      hide WellFormed, TripWellFormed, NonOvertaking, QueueRan, Lowered, Boardable, RideTried, ScanRide,
           CarriedTriedTo, Riding, Carried, BoardedAt, BoardStep, ReadyFrom, ReadyWith, LabelsOf;
      RidingFacts(w, l, ri, boardPos, pos, tripIdx, boardStation, boardDep);
      improved' := AlightCarried(k, ri, boardPos, pos, tripIdx, boardStation, boardDep, improved, queue);
      var at := ReadyAt(k, stops[pos]);
      tripIdx' := Board(trips, pos, at, tripIdx, ReadyFrom(w, l, ri, boardPos));
      RidesOn(w, l, ri, boardPos, pos, tripIdx, boardStation, boardDep, tripIdx');
      if tripIdx' != tripIdx {
        boardStation', boardDep' := stops[pos], trips[tripIdx'].departures[pos];
      } else {
        boardStation', boardDep' := boardStation, boardDep;
      }
    }

    /** An ordered route: ride forward on one trip at a time, in a single pass. Whatever the ties, what is offered is
        the arrival of the trip carried, at every position; when ties are harmless that stands for every ride. */
    method ScanOrdered(k: int, ri: int, boardPos: int, improved: set<string>, ghost queue: map<int, int>)
        returns (improved': set<string>)
      requires Shaped(k) && k >= 1
      requires 0 <= ri < |w.buf.routes| && 0 <= boardPos
      requires w.buf.IsFIFO(ri) && ri in queue && queue[ri] == boardPos
      requires QueueRan(w, k, tau[k - 1], journal[k - 1], queue, tau[k], journal[k], improved)
      modifies this`tau, this`journal, this`best
      ensures Working(k, old(tau), old(journal))
      ensures QueueRan(w, k, tau[k - 1], journal[k - 1], queue, tau[k], journal[k], improved')
      ensures Lowered(old(tau[k]), tau[k])
      ensures ScanTried(w, LabelsOf(tau[k - 1], journal[k - 1]), tau[k], ri, boardPos)
      ensures TiesHarmless(w) ==> RouteScanned(w, LabelsOf(tau[k - 1], journal[k - 1]), tau[k], ri, boardPos)
    {
      improved' := improved;
      ghost var l := LabelsOf(tau[k - 1], journal[k - 1]);
      ScanStarts(w, l, tau[k], ri, boardPos);
      hide WellFormed, TiesHarmless, NonOvertaking, Rectangular, QueueRan, Lowered, CarriedTriedTo, ScanTried,
           RouteScanned, Riding, LabelsOf;

      var tripIdx := -1;
      var boardStation := "";
      var boardDep := 0;
      var pos := boardPos;
      while pos < |w.buf.routes[ri].stopIDs|
        invariant Working(k, old(tau), old(journal))
        invariant Lowered(old(tau[k]), tau[k])
        invariant Scanning(k, ri, boardPos, pos, tripIdx, boardStation, boardDep, improved', queue)
      {
        ghost var before := tau[k];
        tripIdx, boardStation, boardDep, improved' :=
          ScanPosition(k, ri, boardPos, pos, tripIdx, boardStation, boardDep, improved', queue);
        LoweredTwice(old(tau[k]), before, tau[k]);
        pos := pos + 1;
      }
      AllPositionsTried(w, l, tau[k], ri, boardPos, pos);
      if TiesHarmless(w) {
        ScanSuffices(w, l, tau[k], ri, boardPos);
      }
    }

    /** One route of round k, from its first marked position. */
    method ScanRoute(k: int, ri: int, boardPos: int, improved: set<string>, ghost queue: map<int, int>)
        returns (improved': set<string>)
      requires Shaped(k) && k >= 1
      requires 0 <= ri < |w.buf.routes| && 0 <= boardPos
      requires ri in queue && queue[ri] == boardPos
      requires QueueRan(w, k, tau[k - 1], journal[k - 1], queue, tau[k], journal[k], improved)
      modifies this`tau, this`journal, this`best
      ensures Working(k, old(tau), old(journal))
      ensures QueueRan(w, k, tau[k - 1], journal[k - 1], queue, tau[k], journal[k], improved')
      ensures Lowered(old(tau[k]), tau[k])
      ensures ScanTried(w, LabelsOf(tau[k - 1], journal[k - 1]), tau[k], ri, boardPos)
      ensures !w.buf.IsFIFO(ri) || TiesHarmless(w) ==>
                RouteScanned(w, LabelsOf(tau[k - 1], journal[k - 1]), tau[k], ri, boardPos)
    {
      if |w.buf.stopTimes[ri]| == 0 || |w.buf.routes[ri].stopIDs| == 0 {
        return improved;
      }
      hide QueueRan, Lowered, ScanTried, RouteScanned, TiesHarmless, LabelsOf;
      if !w.buf.IsFIFO(ri) {
        improved' := ScanOvertaking(k, ri, boardPos, improved, queue);
        ScannedIsTried(w, LabelsOf(tau[k - 1], journal[k - 1]), tau[k], ri, boardPos);
      } else {
        improved' := ScanOrdered(k, ri, boardPos, improved, queue);
      }
    }

    /** The departure time of every source, and the leg it was reached by, as they stand before any walk
        of this pass is written. */
    method Snapshot(k: int, sources: seq<string>) returns (srcs: seq<WalkSource>)
      requires Shaped(k) && preWalk[k] == map[] && journal[k].Keys <= tau[k].Keys
      modifies this`preWalk
      ensures Shaped(k) && forall j :: 0 <= j < |preWalk| && j != k ==> preWalk[j] == old(preWalk)[j]
      ensures Remembers(w, journal[k], Elements(sources), preWalk[k])
      ensures forall x :: x in srcs ==> x.from in sources && x.from in tau[k] && x.depart == tau[k][x.from]
      ensures forall s :: s in sources && s in tau[k] && |w.buf.Walks(s)| > 0 ==> WalkSource(s, tau[k][s]) in srcs
    {
      srcs := [];
      for n := 0 to |sources|
        invariant Shaped(k) && forall j :: 0 <= j < |preWalk| && j != k ==> preWalk[j] == old(preWalk)[j]
        invariant forall s :: s in sources[..n] && s in journal[k] && s in tau[k] && |w.buf.Walks(s)| > 0 ==>
                    s in preWalk[k]
        invariant forall s :: s in preWalk[k] ==> s in journal[k] && preWalk[k][s] == journal[k][s]
        invariant forall x :: x in srcs ==> x.from in sources && x.from in tau[k] && x.depart == tau[k][x.from]
        invariant forall s :: s in sources[..n] && s in tau[k] && |w.buf.Walks(s)| > 0 ==>
                    WalkSource(s, tau[k][s]) in srcs
      {
        var from := sources[n];
        if |w.buf.Walks(from)| > 0 && from in tau[k] {
          srcs := srcs + [WalkSource(from, tau[k][from])];
          if from in journal[k] {
            preWalk := preWalk[k := preWalk[k][from := journal[k][from]]];
          }
        }
      }
    }

    /** One footpath out of a source, setting off at the snapshot time. */
    method TryWalk(k: int, src: WalkSource, i: nat, walked: set<string>, ghost t0: Times, ghost j0: Journal,
                   ghost sources: set<string>)
        returns (walked': set<string>)
      requires Shaped(k)
      requires src.from in sources && src.from in t0 && src.depart == t0[src.from] && i < |w.buf.Walks(src.from)|
      requires Phase(t0, j0, tau[k], journal[k], walked, WalksFrom(w, k, t0, sources), w.params.destination)
      requires WalksTriedTo(w, t0, tau[k], src.from, i)
      modifies this`tau, this`journal, this`best
      ensures Working(k, old(tau), old(journal))
      ensures Phase(t0, j0, tau[k], journal[k], walked', WalksFrom(w, k, t0, sources), w.params.destination)
      ensures Lowered(old(tau[k]), tau[k])
      ensures WalksTriedTo(w, t0, tau[k], src.from, i + 1)
    {
      hide Phase, WalksFrom, Lowered, WalksTriedTo, WellFormed;
      var fp := w.buf.Walks(src.from)[i];
      var e := JournalEntry(Walk, k, src.from, NO_TRIP, WALK_ROUTE_ID, src.depart, src.depart + fp.walkSeconds);
      LegalWalk(w, k, t0, sources, src.from, i);
      var took := Relax(k, fp.neighbourStop, e, t0, j0, walked, WalksFrom(w, k, t0, sources));
      OneMoreWalk(w, t0, old(tau[k]), tau[k], src.from, i);
      walked' := if took then walked + {fp.neighbourStop} else walked;
    }

    /** Walk from one source to all its neighbours. */
    method WalkOut(k: int, src: WalkSource, walked: set<string>, ghost t0: Times, ghost j0: Journal,
                   ghost sources: set<string>)
        returns (walked': set<string>)
      requires Shaped(k)
      requires src.from in sources && src.from in t0 && src.depart == t0[src.from]
      requires Phase(t0, j0, tau[k], journal[k], walked, WalksFrom(w, k, t0, sources), w.params.destination)
      modifies this`tau, this`journal, this`best
      ensures Working(k, old(tau), old(journal))
      ensures Phase(t0, j0, tau[k], journal[k], walked', WalksFrom(w, k, t0, sources), w.params.destination)
      ensures Lowered(old(tau[k]), tau[k])
      ensures WalksTried(w, t0, tau[k], src.from)
    {
      walked' := walked;
      NothingLowered(tau[k]);
      NoWalkTried(w, t0, tau[k], src.from);
      hide Phase, WalksFrom, Lowered, WalksTriedTo, WellFormed;
      for i := 0 to |w.buf.Walks(src.from)|
        invariant Working(k, old(tau), old(journal))
        invariant Phase(t0, j0, tau[k], journal[k], walked', WalksFrom(w, k, t0, sources), w.params.destination)
        invariant Lowered(old(tau[k]), tau[k])
        invariant WalksTriedTo(w, t0, tau[k], src.from, i)
      {
        ghost var before := tau[k];
        walked' := TryWalk(k, src, i, walked', t0, j0, sources);
        LoweredTwice(old(tau[k]), before, tau[k]);
      }
    }

    /** One walk pass: every source relaxes its footpaths off the label it had before the pass. */
    method RelaxFootpaths(k: int, sources: seq<string>) returns (walked: set<string>)
      requires Shaped(k) && preWalk[k] == map[] && journal[k].Keys <= tau[k].Keys
      modifies this`tau, this`journal, this`best, this`preWalk
      ensures Working(k, old(tau), old(journal))
      ensures forall j :: 0 <= j < |preWalk| && j != k ==> preWalk[j] == old(preWalk)[j]
      ensures Phase(old(tau[k]), old(journal[k]), tau[k], journal[k], walked,
                    WalksFrom(w, k, old(tau[k]), Elements(sources)), w.params.destination)
      ensures Remembers(w, old(journal[k]), Elements(sources), preWalk[k])
      ensures AllWalked(w, old(tau[k]), tau[k], Elements(sources))
    {
      hide Phase, WalksFrom, Lowered, Remembers, WalksTried, WellFormed, Elements;
      ghost var t0, j0, from := tau[k], journal[k], Elements(sources);
      ElementsOf(sources);
      var srcs := Snapshot(k, sources);
      ghost var remembered := preWalk;
      walked := {};
      NothingChanged(t0, j0, WalksFrom(w, k, t0, from), w.params.destination);
      NothingLowered(tau[k]);
      for n := 0 to |srcs|
        invariant Working(k, old(tau), old(journal)) && preWalk == remembered
        invariant Phase(t0, j0, tau[k], journal[k], walked, WalksFrom(w, k, t0, from), w.params.destination)
        invariant Lowered(t0, tau[k])
        invariant forall m :: 0 <= m < n ==> srcs[m].from in t0 && WalksTried(w, t0, tau[k], srcs[m].from)
      {
        ghost var before := tau[k];
        walked := WalkOut(k, srcs[n], walked, t0, j0, from);
        LoweredTwice(t0, before, tau[k]);
        forall m | 0 <= m < n
          ensures WalksTried(w, t0, tau[k], srcs[m].from)
        {
          SourceStillTried(w, t0, before, tau[k], srcs[m].from);
        }
      }
      forall s | s in from && s in t0
        ensures WalksTried(w, t0, tau[k], s)
      {
        SourceTried(w, t0, tau[k], srcs, s);
      }
    }

    /** The queued routes of round k, each from its queued position, in the order given. */
    method ScanQueue(k: int, queue: map<int, int>, order: seq<int>) returns (improved: set<string>)
      requires Shaped(k) && k >= 1
      requires forall ri :: ri in queue ==> 0 <= ri < |w.buf.routes| && queue[ri] >= 0
      requires forall ri :: ri in order ==> ri in queue
      requires tau[k] == tau[k - 1] && journal[k] == journal[k - 1]
      modifies this`tau, this`journal, this`best
      ensures Working(k, old(tau), old(journal))
      ensures QueueRan(w, k, tau[k - 1], journal[k - 1], queue, tau[k], journal[k], improved)
      ensures forall ri :: ri in order ==>
                ScanTried(w, LabelsOf(tau[k - 1], journal[k - 1]), tau[k], ri, queue[ri])
    {
      improved := {};
      ghost var l := LabelsOf(tau[k - 1], journal[k - 1]);
      NoScansYet(w, k, tau[k], journal[k], queue);
      hide WellFormed, TiesHarmless, ScanTried, RouteScanned, QueueRan, Lowered, LabelsOf;
      for n := 0 to |order|
        invariant Working(k, old(tau), old(journal))
        invariant QueueRan(w, k, tau[k - 1], journal[k - 1], queue, tau[k], journal[k], improved)
        invariant ScansTried(w, l, tau[k], queue, order, n)
      {
        ghost var before := tau[k];
        improved := ScanRoute(k, order[n], queue[order[n]], improved, queue);
        OneMoreScan(w, l, before, tau[k], queue, order, n);
      }
    }

    /** The order to scan the queued routes in. */
    method ArrangeRoutes(k: nat, keys: set<int>, orders: Orders) returns (order: seq<int>)
      requires orders.Complete()
      ensures forall ri :: ri in order <==> ri in keys
      ensures orders.Sorted? ==> SortedBy(order, IntLe)
    {
      if orders.Sorted? {
        var listed := Range(keys);
        order := Sort(listed, IntLe);
        SortedKeys(listed, keys);
      } else {
        order := orders.routes(k, keys);
      }
    }

    /** The order to walk in from the stops a vehicle improved. */
    method ArrangeStops(k: nat, improved: set<string>, orders: Orders) returns (sources: seq<string>)
      requires orders.Complete()
      ensures Elements(sources) == improved
      ensures orders.Sorted? ==> SortedBy(sources, LexLe)
    {
      if orders.Sorted? {
        var stops := Range(improved);
        sources := Sort(stops, LexLe);
        SortedStops(stops, improved);
      } else {
        sources := orders.stops(k, improved);
      }
    }

    /** The vehicle phase of a round: queue the routes through the marked stops, scan them in order. */
    method ScanMarked(k: int, marked: set<string>, orders: Orders)
        returns (improved: set<string>, ghost queue: map<int, int>)
      requires 1 <= k && Shaped(k) && orders.Complete()
      requires RoundOK(w, tau, journal, preWalk, k - 1) && MarkedIs(w, tau, journal, k - 1, marked)
      requires tau[k] == tau[k - 1] && journal[k] == journal[k - 1]
      modifies this`tau, this`journal, this`best
      ensures Working(k, old(tau), old(journal))
      ensures VehiclesRan(w, tau, journal, k, tau[k], journal[k], improved)
      ensures TiesHarmless(w) ==> AllScanned(w, LabelsOf(tau[k - 1], journal[k - 1]), tau[k])
      ensures QueueScanned(w, k, tau[k - 1], journal[k - 1], marked, queue, tau[k], journal[k], improved)
    {
      hide RoundOK, AllScanned, RouteScanned, ScanTried, MarkedIs, WellFormed, TiesHarmless;
      var work := BuildQueue(w.buf, marked);
      queue := work;
      var order := ArrangeRoutes(k, work.Keys, orders);
      improved := ScanQueue(k, work, order);
      ScansAreRides(w, k, tau[k - 1], journal[k - 1], queue, tau[k], journal[k], improved);
      if TiesHarmless(w) {
        QueueSuffices(w, old(tau), old(journal), preWalk, k, tau[k], queue, marked);
      }
    }

    /** The walk phase of a round, from the stops a vehicle improved. */
    method WalkImproved(k: int, improved: set<string>, orders: Orders) returns (walked: set<string>)
      requires Shaped(k) && k >= 1 && preWalk[k] == map[] && journal[k].Keys <= tau[k].Keys
      requires orders.Complete()
      modifies this`tau, this`journal, this`best, this`preWalk
      ensures Working(k, old(tau), old(journal))
      ensures forall j :: 0 <= j < |preWalk| && j != k ==> preWalk[j] == old(preWalk)[j]
      ensures WalkersRan(w, tau, journal, preWalk, k, old(tau[k]), old(journal[k]), improved, walked)
      ensures AllWalked(w, old(tau[k]), tau[k], improved)
    {
      var sources := ArrangeStops(k, improved, orders);
      hide Phase, Remembers, AllWalked;
      walked := RelaxFootpaths(k, sources);
    }

    /** One round: copy the labels, scan the routes through the marked stops, walk once from every stop a
        vehicle improved. Returns the stops marked for the next round. */
    method RunRound(k: int, marked: set<string>, orders: Orders) returns (marked': set<string>)
      requires 1 <= k && Shaped(k - 1) && k < |tau| && orders.Complete()
      requires HistoryOK(w, tau, journal, preWalk, k - 1) && MarkedIs(w, tau, journal, k - 1, marked)
      requires preWalk[k] == map[]
      modifies this`tau, this`journal, this`best, this`preWalk
      ensures Shaped(k) && |tau| == |old(tau)|
      ensures HistoryOK(w, tau, journal, preWalk, k) && MarkedIs(w, tau, journal, k, marked')
      ensures forall j :: 0 <= j < |tau| && j != k ==>
                tau[j] == old(tau)[j] && journal[j] == old(journal)[j] && preWalk[j] == old(preWalk)[j]
      ensures RoundRan(w, k, tau[k - 1], journal[k - 1], tau[k], journal[k], marked, marked')
    {
      hide RoundOK, MarkedIs, VehiclesRan, WalkersRan, QueueScanned, AllScanned, AllWalked, WellFormed, TiesHarmless;
      tau := tau[k := tau[k - 1]];
      journal := journal[k := journal[k - 1]];
      ghost var tau0, journal0, preWalk0 := tau, journal, preWalk;
      assert SamePrefix(old(tau), tau0, k - 1) && SamePrefix(old(journal), journal0, k - 1);
      HistoryFrame(w, old(tau), old(journal), old(preWalk), tau0, journal0, preWalk0, k - 1);
      MarkedFrame(w, old(tau), old(journal), tau0, journal0, k - 1, marked);
      var improved, queue := ScanMarked(k, marked, orders);
      ghost var tau1, journal1 := tau, journal;
      LabelledKeys(w, tau1, journal1, preWalk0, tau0, journal0, k, improved);
      var walked := WalkImproved(k, improved, orders);
      VehiclesFrame(w, tau1, journal1, tau, journal, k, improved);
      RoundFinishes(w, tau0, journal0, preWalk0, tau, journal, preWalk, k, tau1[k], journal1[k], improved, walked);
      marked' := improved + walked;
      RoundTraced(w, tau, journal, preWalk, k, tau1[k], journal1[k], marked, queue, improved, walked);
    }

    /** Nothing has been written for any round after `k`. */
    ghost predicate Untouched(k: int)
      reads this
    {
      |tau| == |journal| == |preWalk|
      && forall j :: 0 <= j < |tau| && k < j ==> tau[j] == map[] && preWalk[j] == map[]
    }

    /** Round 0: the passenger may walk away from the origin before boarding anything. */
    method Start() returns (marked: set<string>)
      requires Shaped(0) && Untouched(0) && preWalk[0] == map[]
      requires tau[0] == map[w.params.origin := w.params.depTime] && journal[0] == map[]
      requires w.params.origin != "" && w.params.origin != w.params.destination
      modifies this
      ensures Shaped(0) && Untouched(0)
      ensures RoundOK(w, tau, journal, preWalk, 0) && MarkedIs(w, tau, journal, 0, marked)
      ensures Started(w, tau[0], journal[0], marked)
    {
      assert Elements([w.params.origin]) == {w.params.origin};
      hide RoundOK, MarkedIs, Phase, AllWalked, Remembers, WellFormed;
      var walked := RelaxFootpaths(0, [w.params.origin]);
      marked := {w.params.origin} + walked;
      StartIsOK(w, tau, journal, preWalk, walked);
    }

    /** The rounds after the first walks, as long as each of them marks anything. */
    method RunRounds(first: set<string>, orders: Orders) returns (ghost last: nat, ghost marks: seq<set<string>>)
      requires Shaped(0) && Untouched(0) && orders.Complete()
      requires RoundOK(w, tau, journal, preWalk, 0) && MarkedIs(w, tau, journal, 0, first)
      requires Started(w, tau[0], journal[0], first)
      modifies this
      ensures |tau| == |journal| == |preWalk| == w.params.Rounds() + 1 && last < |tau|
      ensures WellFormed(w.buf) && HistoryOK(w, tau, journal, preWalk, last) && Untouched(last)
      ensures Trace(w, tau, journal, marks, last) && |marks| == last + 1
      ensures MarkedIs(w, tau, journal, last, marks[last])
    {
      hide RoundOK, HistoryOK, MarkedIs, WellFormed, TiesHarmless, Started, RoundRan, TraceTo, Trace;
      var marked := first;
      last, marks := 0, [marked];
      HistoryStarts(w, tau, journal, preWalk);
      TraceStarts(w, tau, journal, marked);
      var k := 1;
      while k <= w.params.Rounds() && marked != {}
        invariant 1 <= k <= w.params.Rounds() + 1 && last == k - 1
        invariant Shaped(last) && Untouched(last)
        invariant HistoryOK(w, tau, journal, preWalk, last) && MarkedIs(w, tau, journal, last, marked)
        invariant |marks| == last + 1 && marks[last] == marked && TraceTo(w, tau, journal, marks, last)
      {
        ghost var tau0, journal0 := tau, journal;
        marked := RunRound(k, marked, orders);
        TraceGrows(w, tau0, journal0, tau, journal, marks, last, marked);
        last, marks := k, marks + [marked];
        k := k + 1;
      }
      TraceEnds(w, tau, journal, marks, last);
    }

    /** All rounds, stopping as soon as one of them improves nothing. `last` is the last round run, and `marks` the
        stops each round marked. */
    method Run(orders: Orders) returns (ghost last: nat, ghost marks: seq<set<string>>)
      requires Shaped(0) && Untouched(0) && preWalk[0] == map[] && orders.Complete()
      requires tau[0] == map[w.params.origin := w.params.depTime] && journal[0] == map[]
      requires w.params.origin != "" && w.params.origin != w.params.destination
      modifies this
      ensures |tau| == |journal| == |preWalk| == w.params.Rounds() + 1 && last < |tau|
      ensures WellFormed(w.buf) && HistoryOK(w, tau, journal, preWalk, last) && Untouched(last)
      ensures Trace(w, tau, journal, marks, last)
      ensures TiesHarmless(w) ==> forall j :: 0 <= j <= last ==>
                Agree(LabelsOf(tau[j], journal[j]), Level(w, j), w.params.destination)
      ensures TiesHarmless(w) ==> forall j :: last <= j <= w.params.Rounds() ==>
                Agree(LabelsOf(tau[last], journal[last]), Level(w, j), w.params.destination)
      ensures TiesHarmless(w) ==> StopsAt(w, last)
    {
      hide RoundOK, HistoryOK, MarkedIs, WellFormed, TiesHarmless, Agree, Started, Trace, StopsAt, Level, LabelsOf;
      var marked := Start();
      last, marks := RunRounds(marked, orders);
      RunAgrees(w, tau, journal, preWalk, marks, last);
    }

    /** Backtrack from the destination label of one round. On a sound history it always succeeds: no entry
        is missing or points at its own stop, no (round, station) pair comes up twice, and the step
        limit is never met. */
    method Backtrack(round: nat) returns (legs: Option<seq<Leg>>)
      requires |tau| == |journal| == |preWalk| == w.params.Rounds() + 1 && round < |tau|
      requires WellFormed(w.buf) && HistoryOK(w, tau, journal, preWalk, round)
      requires w.params.destination in journal[round] && w.params.destination in tau[round]
      requires w.params.origin != w.params.destination
      ensures legs.Some? && Itinerary(w, Reverse(legs.value)) && |legs.value| > 0
      ensures legs.value[0].arrival == tau[round][w.params.destination]
      ensures TransitLegs(legs.value) <= round
      ensures TiesHarmless(w) ==> TransitLegs(legs.value) == Written(journal[round][w.params.destination])
    {
      hide HistoryOK, CursorOK, Explained, WellFormed, Itinerary;
      var back: seq<Leg> := [];
      var c := Cursor(w.params.destination, round, None, 0);
      var visited: set<(int, string)> := {};
      var maxSteps := 2 * (w.params.Rounds() + 1) + 2;
      ghost var arrival, vehicles := tau[round][w.params.destination], Written(journal[round][w.params.destination]);
      StartsExplained(w, tau, journal, preWalk, round);
      while c.cur != w.params.origin
        invariant CursorOK(w, tau, journal, preWalk, round, c) && 0 <= c.r <= round
        invariant Explained(w, back, c, arrival)
        invariant VehiclesLeft(journal, round, c, w.params.destination, TransitLegs(back), vehicles, TiesHarmless(w))
        invariant |back| + Measure(c) <= 2 * round + 1
        invariant AllBehind(visited, c)
        decreases Measure(c)
      {
        if |back| > maxSteps || c.r < 0 || c.r >= |journal| {
          return None;
        }
        StepBack(w, tau, journal, preWalk, round, c);
        ExplainedMore(w, tau, journal, preWalk, round, c, back, arrival);
        if c.cur !in journal[c.r] || journal[c.r][c.cur].from == "" || journal[c.r][c.cur].from == c.cur {
          return None;
        }
        var e := Chosen(journal, preWalk, c);
        if (c.r, c.cur) in visited {
          return None;
        }
        visited := visited + {(c.r, c.cur)};
        CountsDown(journal, round, c, w.params.destination, back, LegOf(e, c.cur), vehicles, e, TiesHarmless(w));
        back := back + [LegOf(e, c.cur)];
        c := Next(e);
      }
      ExplainedIsItinerary(w, tau, journal, preWalk, round, c, back, arrival);
      legs := Some(back);
    }

    /** Turn one round's destination label into a journey and check it. On a sound history neither the
        reconstruction nor the check ever fails. */
    method BuildPath(round: nat) returns (path: Option<Path>)
      requires |tau| == |journal| == |preWalk| == w.params.Rounds() + 1 && round < |tau|
      requires WellFormed(w.buf) && HistoryOK(w, tau, journal, preWalk, round)
      requires w.params.destination in journal[round] && w.params.destination in tau[round]
      requires w.params.origin != w.params.destination
      ensures path.Some? && Itinerary(w, path.value.legs) && Summarises(w, path.value)
      ensures path.value.rounds == round && path.value.arrival == tau[round][w.params.destination]
      ensures TransitLegs(path.value.legs) <= round
      ensures TiesHarmless(w) ==> TransitLegs(path.value.legs) == Written(journal[round][w.params.destination])
    {
      hide HistoryOK, RealLeg, Joins;
      var back := Backtrack(round);
      if back.None? || |back.value| == 0 {
        return None;
      }
      var legs := ReverseLegs(back.value);
      CountReversed(back.value);
      var transit, walkSeconds := CountLegs(legs);
      var departure, arrival := legs[0].departure, legs[|legs| - 1].arrival;
      var p := Path(legs, departure, arrival, arrival - departure, departure - w.params.depTime,
                    if transit > 0 then transit - 1 else 0, walkSeconds, round);
      WrittenInTime(w, tau, journal, preWalk, round, w.params.destination);
      if transit > w.params.Rounds() {
        return None;
      }
      ItinerariesPass(w, legs);
      if ValidatePath(legs, w.params).Some? {
        return None;
      }
      path := Some(p);
    }

    /** The vehicles boarded, and the time spent walking. */
    method CountLegs(legs: seq<Leg>) returns (transit: nat, walkSeconds: int)
      ensures transit == TransitLegs(legs) && walkSeconds == WalkTime(legs)
    {
      transit, walkSeconds := 0, 0;
      for i := 0 to |legs|
        invariant transit == TransitLegs(legs[..i]) && walkSeconds == WalkTime(legs[..i])
      {
        assert legs[..i + 1][..i] == legs[..i];
        if legs[i].kind.Transit? {
          transit := transit + 1;
        } else {
          walkSeconds := walkSeconds + legs[i].arrival - legs[i].departure;
        }
      }
      assert legs[..|legs|] == legs;
    }

    /** One journey for every round that arrives earlier than all rounds before it. */
    method CollectPaths(ghost last: nat) returns (out: seq<Path>)
      requires |tau| == |journal| == |preWalk| == w.params.Rounds() + 1 && last < |tau|
      requires WellFormed(w.buf) && HistoryOK(w, tau, journal, preWalk, last) && Untouched(last)
      requires TiesHarmless(w) ==> forall j :: last <= j <= w.params.Rounds() ==>
                 Agree(LabelsOf(tau[last], journal[last]), Level(w, j), w.params.destination)
      requires w.params.origin != w.params.destination
      ensures forall p :: p in out ==> Sound(w, p) && ReadOff(w, tau, last, p)
      ensures TiesHarmless(w) ==> CollectedBefore(w, w.params.Rounds() + 1, out)
    {
      hide TiesHarmless, HistoryOK, LevelArrival, Agree, Itinerary, Summarises, WellFormed, Collected, Sound,
           CoversSoFar;
      out := [];
      ghost var ks: seq<nat> := [];
      var bestSoFar: Option<int> := None;
      NothingCollected(w, tau);
      for k := 0 to w.params.Rounds() + 1
        invariant forall p :: p in out ==> Sound(w, p) && ReadOff(w, tau, last, p)
        invariant TiesHarmless(w) ==> Collected(w, k, ks, out)
        invariant bestSoFar == if |out| == 0 then None else Some(out[|out| - 1].arrival)
        invariant CoversSoFar(tau, w.params.destination, bestSoFar, k)
      {
        if w.params.destination in tau[k]
           && (bestSoFar.Some? ==> tau[k][w.params.destination] < bestSoFar.value) {
          var p := NextPath(k, last, bestSoFar);
          if p.Some? {
            if TiesHarmless(w) {
              RoundArrival(w, tau, journal, preWalk, last, k);
              ServesItsLevel(w, k, p.value);
              CollectNew(w, k, ks, out, p.value);
            }
            CoversOneMore(tau, w.params.destination, bestSoFar, k, Some(tau[k][w.params.destination]));
            bestSoFar := Some(tau[k][w.params.destination]);
            out, ks := out + [p.value], ks + [k];
          }
        } else {
          CoversOneMore(tau, w.params.destination, bestSoFar, k, bestSoFar);
          if TiesHarmless(w) {
            NothingNew(w, tau, journal, preWalk, last, k, ks, out, bestSoFar);
          }
        }
      }
    }

    /** The journey of a round that beats all rounds before it: never missing, real, and with exactly as many
        vehicles as the round when ties are harmless. */
    method NextPath(k: nat, ghost last: nat, ghost best: Option<int>) returns (p: Option<Path>)
      requires |tau| == |journal| == |preWalk| == w.params.Rounds() + 1 && last < |tau| && k < |tau|
      requires WellFormed(w.buf) && HistoryOK(w, tau, journal, preWalk, last) && Untouched(last)
      requires w.params.origin != w.params.destination && w.params.destination in tau[k]
      requires CoversSoFar(tau, w.params.destination, best, k)
      requires best.Some? ==> tau[k][w.params.destination] < best.value
      ensures p.Some? && Sound(w, p.value) && p.value.rounds == k && p.value.arrival == tau[k][w.params.destination]
      ensures ReadOff(w, tau, last, p.value)
      ensures TiesHarmless(w) ==> TransitLegs(p.value.legs) == k
    {
      hide TiesHarmless, HistoryOK, Itinerary, Summarises, WellFormed, CoversSoFar;
      assert k <= last;
      HistoryShorter(w, tau, journal, preWalk, last, k);
      FirstTime(w, tau, journal, preWalk, k, best);
      p := BuildPath(k);
    }

    /** Turn the round labels into the answer. */
    method Extract(topK: int, ghost last: nat) returns (paths: seq<Path>)
      requires |tau| == |journal| == |preWalk| == w.params.Rounds() + 1 && last < |tau|
      requires WellFormed(w.buf) && HistoryOK(w, tau, journal, preWalk, last) && Untouched(last)
      requires TiesHarmless(w) ==> forall j :: last <= j <= w.params.Rounds() ==>
                 Agree(LabelsOf(tau[last], journal[last]), Level(w, j), w.params.destination)
      requires w.params.origin != w.params.destination
      ensures (forall p :: p in paths ==> Sound(w, p)) && StrictTradeOff(paths) && (topK > 0 ==> |paths| <= topK)
      ensures forall p :: p in paths ==> ReadOff(w, tau, last, p)
      ensures TiesHarmless(w) ==> OfFirsts(w, paths)
      ensures TiesHarmless(w) && CleanIDs(w) ==> IsTopK(w, topK, paths) && IsEarliest(w, topK, paths)
    {
      hide TiesHarmless, HistoryOK, CleanIDs, WellFormed, CollectedBefore, Agree, IsAnswer, Sound, StrictTradeOff,
           ReadOff, Firsts, IsEarliest;
      var out := CollectPaths(last);
      var full := Rank(w, out);
      CutTradesOff(full, topK);
      paths := Cut(full, topK);
      assert AmongFirsts(out, paths);
      if TiesHarmless(w) && CleanIDs(w) {
        TopIsEarliest(w, topK, paths);
      }
    }
  }

  lemma CutTradesOff(full: seq<Path>, topK: int)
    requires StrictTradeOff(full)
    ensures StrictTradeOff(Cut(full, topK)) && forall p :: p in Cut(full, topK) ==> p in full
  {
  }

  /** The journeys of the useful rounds, without repeats, sorted, and rid of what others dominate. */
  method Rank(w: World, out: seq<Path>) returns (full: seq<Path>)
    requires WellFormed(w.buf) && forall p :: p in out ==> Sound(w, p)
    requires TiesHarmless(w) ==> CollectedBefore(w, w.params.Rounds() + 1, out)
    ensures (forall p :: p in full ==> Sound(w, p)) && StrictTradeOff(full)
    ensures forall p :: p in full ==> p in Firsts(out, |out|) && p in out
    ensures TiesHarmless(w) && CleanIDs(w) ==> IsAnswer(w, full)
  {
    hide TiesHarmless, CleanIDs, WellFormed, Collected, CollectedBefore, SortedBy, StrictTradeOff, NotDominatedIn,
         IsAnswer, DistinctPrints, Sort, Sound, Firsts;
    var distinct := Deduplicate(out);
    FirstsAreMembers(out, |out|);
    var sorted := Sort(distinct, PathLe);
    SortedPaths(distinct);
    SortedMembers(distinct);
    FewTransfers(w, out);
    full := ParetoFilter(sorted);
    if TiesHarmless(w) && CleanIDs(w) {
      RankedIsAnswer(w, out, distinct, sorted, full);
    }
  }

  lemma RankedIsAnswer(w: World, out: seq<Path>, distinct: seq<Path>, sorted: seq<Path>, full: seq<Path>)
    requires WellFormed(w.buf) && TiesHarmless(w) && CleanIDs(w) && CollectedBefore(w, w.params.Rounds() + 1, out)
    requires (DistinctPrints(out) ==> distinct == out) && multiset(sorted) == multiset(distinct)
    requires forall p :: p in full ==> p in sorted && NotDominatedIn(sorted, p)
    requires forall p :: p in sorted && NotDominatedIn(sorted, p) ==> exists q :: q in full && SamePair(q, p)
    requires StrictTradeOff(full)
    ensures IsAnswer(w, full)
  {
    hide TiesHarmless, CleanIDs, WellFormed, Collected, CollectedBefore, StrictTradeOff, NotDominatedIn, IsAnswer,
         DistinctPrints;
    var ks := CollectedRounds(w, w.params.Rounds() + 1, out);
    CollectedAreDistinct(w, w.params.Rounds() + 1, ks, out);
    CollectedIsAnswer(w, ks, out, sorted, full);
  }

  lemma SortedMembers(paths: seq<Path>)
    ensures forall p :: p in Sort(paths, PathLe) ==> p in paths
  {
    PathOrder();
    SortSorts(paths, PathLe);
    SameElements(Sort(paths, PathLe), paths);
  }

  lemma CollectedRounds(w: World, k: int, out: seq<Path>) returns (ks: seq<nat>)
    requires WellFormed(w.buf) && CollectedBefore(w, k, out)
    ensures Collected(w, k, ks, out)
  {
    ks :| Collected(w, k, ks, out);
  }

  /** The journey's arrival is the destination's label of its round. */
  predicate ReadOff(w: World, tau: TauTable, last: nat, p: Path) {
    && 0 <= p.rounds <= last < |tau| && w.params.destination in tau[p.rounds]
    && p.arrival == tau[p.rounds][w.params.destination]
  }

  /** The journeys are among the first of each fingerprint of what the rounds yield. */
  ghost predicate OfFirsts(w: World, paths: seq<Path>)
    requires WellFormed(w.buf)
  {
    exists out :: CollectedBefore(w, w.params.Rounds() + 1, out) && AmongFirsts(out, paths)
  }

  ghost predicate AmongFirsts(out: seq<Path>, paths: seq<Path>) {
    forall p :: p in paths ==> p in Firsts(out, |out|)
  }

  /** Every journey is read off the tables some run left. */
  ghost predicate OfRun(w: World, paths: seq<Path>)
    requires WellFormed(w.buf)
  {
    exists tau, journal, marks, last ::
      Trace(w, tau, journal, marks, last) && forall p :: p in paths ==> ReadOff(w, tau, last, p)
  }

  /** The search, its routes and sources taken in the given orders. An empty timetable or a degenerate query gets no
      answer. Otherwise every journey returned is real, and they trade arrival for transfers; and when ties are harmless
      and identifiers clean, they are the first `topK` of exactly the non-dominated trade-offs of the naive router. */
  method SearchInOrder(w: World, topK: int, orders: Orders) returns (paths: seq<Path>)
    requires WellFormed(w.buf) && orders.Complete()
    ensures Degenerate(w) ==> paths == []
    ensures forall p :: p in paths ==> Sound(w, p)
    ensures StrictTradeOff(paths) && (topK > 0 ==> |paths| <= topK)
    ensures !Degenerate(w) ==> OfRun(w, paths) && (TiesHarmless(w) ==> OfFirsts(w, paths))
    ensures !Degenerate(w) && TiesHarmless(w) && CleanIDs(w) ==> IsTopK(w, topK, paths) && IsEarliest(w, topK, paths)
  {
    if |w.buf.routes| == 0 {
      return [];
    }
    if w.params.origin == "" || w.params.destination == "" || w.params.origin == w.params.destination {
      return [];
    }
    hide Trace, ReadOff, OfFirsts, IsTopK, IsEarliest, HistoryOK, Agree, StopsAt, Sound, TiesHarmless, CleanIDs;
    var s := new SearchState(w);
    var last, marks := s.Run(orders);
    paths := s.Extract(topK, last);
  }

  /** The search as the program runs it, its routes and sources sorted. */
  method RaptorSearch(w: World, topK: int) returns (paths: seq<Path>)
    requires WellFormed(w.buf)
    ensures Degenerate(w) ==> paths == []
    ensures forall p :: p in paths ==> Sound(w, p)
    ensures StrictTradeOff(paths) && (topK > 0 ==> |paths| <= topK)
    ensures !Degenerate(w) ==> OfRun(w, paths) && (TiesHarmless(w) ==> OfFirsts(w, paths))
    ensures !Degenerate(w) && TiesHarmless(w) && CleanIDs(w) ==> IsTopK(w, topK, paths) && IsEarliest(w, topK, paths)
  {
    paths := SearchInOrder(w, topK, Sorted);
  }

  predicate Degenerate(w: World) {
    |w.buf.routes| == 0 || w.params.origin == "" || w.params.destination == ""
      || w.params.origin == w.params.destination
  }

  /** The routes to scan, each from the earliest position a marked stop has on it. */
  method BuildQueue(buf: RouteBuffer, marked: set<string>) returns (queue: map<int, int>)
    ensures QueueOf(buf, marked, queue)
  {
    queue := map[];
    var stops := Range(marked);
    ghost var done: set<string> := {};
    for n := 0 to |stops|
      invariant done == Elements(stops[..n])
      invariant QueueOf(buf, done, queue)
    {
      var s := stops[n];
      if s in buf.stopToRoutes {
        queue := QueueStop(buf, done, s, queue);
      }
      done := done + {s};
    }
    assert done == marked;
  }

  /** One marked stop: every usable entry the index lists for it is merged into the queue. */
  method QueueStop(buf: RouteBuffer, ghost done: set<string>, s: string, queue: map<int, int>)
      returns (queue': map<int, int>)
    requires QueueOf(buf, done, queue) && s in buf.stopToRoutes
    ensures QueueOf(buf, done + {s}, queue')
  {
    queue' := queue;
    var entries := buf.stopToRoutes[s];
    HintedMore(buf, done, s);
    hide Hinted;
    for i := 0 to |entries|
      invariant forall ri :: ri in queue' ==>
          Usable(buf, RouteStop(ri, queue'[ri])) && Hinted(buf, done + {s}, RouteStop(ri, queue'[ri]))
      invariant forall rs :: Queued(queue, rs) ==> Queued(queue', rs)
      invariant forall j :: 0 <= j < i && Usable(buf, entries[j]) ==> Queued(queue', entries[j])
    {
      var rs := entries[i];
      if Usable(buf, rs) && (rs.routeIdx !in queue' || rs.stopPos < queue'[rs.routeIdx]) {
        queue' := queue'[rs.routeIdx := rs.stopPos];
      }
    }
  }

  lemma HintedMore(buf: RouteBuffer, done: set<string>, s: string)
    requires s in buf.stopToRoutes
    ensures forall rs :: Hinted(buf, done, rs) ==> Hinted(buf, done + {s}, rs)
    ensures forall rs :: rs in buf.stopToRoutes[s] ==> Hinted(buf, done + {s}, rs)
    ensures forall rs :: Hinted(buf, done + {s}, rs) ==> Hinted(buf, done, rs) || rs in buf.stopToRoutes[s]
  {
  }

  lemma NoScansYet(w: World, k: int, t: Times, j: Journal, queue: map<int, int>)
    requires WellFormed(w.buf)
    ensures QueueRan(w, k, t, j, queue, t, j, {})
  {
  }

  datatype WalkSource = WalkSource(from: string, depart: int)

  function Elements(s: seq<string>): set<string> {
    set x | x in s
  }

  lemma ElementsOf(s: seq<string>)
    ensures forall x :: x in Elements(s) <==> x in s
  {
  }

  lemma NothingChanged(t: Times, j: Journal, legal: Legal, dest: string)
    requires j.Keys <= t.Keys
    ensures Phase(t, j, t, j, {}, legal, dest)
  {
  }

  lemma NothingLowered(t: Times)
    ensures Lowered(t, t)
  {
  }

  lemma NoWalkTried(w: World, t0: Times, t: Times, from: string)
    requires from in t0
    ensures WalksTriedTo(w, t0, t, from, 0)
  {
  }

  lemma OneMoreWalk(w: World, t0: Times, before: Times, after: Times, from: string, n: int)
    requires from in t0 && 0 <= n < |w.buf.Walks(from)|
    requires WalksTriedTo(w, t0, before, from, n) && Lowered(before, after)
    requires Settled(after, w.params.destination, w.buf.Walks(from)[n].neighbourStop,
                     t0[from] + w.buf.Walks(from)[n].walkSeconds)
    ensures WalksTriedTo(w, t0, after, from, n + 1)
  {
    WalksStillTried(w, t0, before, after, from, n);
  }

  lemma SourceStillTried(w: World, t0: Times, before: Times, after: Times, from: string)
    requires from in t0 && WalksTried(w, t0, before, from) && Lowered(before, after)
    ensures WalksTried(w, t0, after, from)
  {
    WalksStillTried(w, t0, before, after, from, |w.buf.Walks(from)|);
  }

  lemma SourceTried(w: World, t0: Times, t: Times, srcs: seq<WalkSource>, s: string)
    requires s in t0
    requires |w.buf.Walks(s)| > 0 ==> WalkSource(s, t0[s]) in srcs
    requires forall m :: 0 <= m < |srcs| ==> srcs[m].from in t0 && WalksTried(w, t0, t, srcs[m].from)
    ensures WalksTried(w, t0, t, s)
  {
    if |w.buf.Walks(s)| > 0 {
      var m :| 0 <= m < |srcs| && srcs[m] == WalkSource(s, t0[s]);
      assert srcs[m].from == s;
    }
  }

  // ---- The queue, in terms of the routes it leaves out -------------------------------------------

  lemma SortedKeys(keys: seq<int>, all: set<int>)
    requires forall x :: x in keys <==> x in all
    ensures SortedBy(Sort(keys, IntLe), IntLe)
    ensures forall x :: x in Sort(keys, IntLe) <==> x in all
  {
    SortSorts(keys, IntLe);
    SameElements(Sort(keys, IntLe), keys);
  }

  lemma SortedStops(stops: seq<string>, all: set<string>)
    requires forall x :: x in stops <==> x in all
    ensures SortedBy(Sort(stops, LexLe), LexLe)
    ensures Elements(Sort(stops, LexLe)) == all
  {
    LexOrder();
    SortSorts(stops, LexLe);
    SameElements(Sort(stops, LexLe), stops);
  }

  lemma HistoryFrame(w: World, tau: TauTable, journal: JournalTable, preWalk: JournalTable,
                     tau': TauTable, journal': JournalTable, preWalk': JournalTable, k: int)
    requires WellFormed(w.buf) && |tau| == |journal| == |preWalk| && 0 <= k < |tau|
    requires SamePrefix(tau, tau', k) && SamePrefix(journal, journal', k) && SamePrefix(preWalk, preWalk', k)
    requires HistoryOK(w, tau, journal, preWalk, k)
    ensures HistoryOK(w, tau', journal', preWalk', k)
  {
    hide RoundOK;
    forall j | 0 <= j <= k
      ensures RoundOK(w, tau', journal', preWalk', j)
    {
      RoundFrame(w, tau, journal, preWalk, tau', journal', preWalk', j);
    }
  }

  /** Scanning the queue leaves no ride of any route untried. */
  lemma QueueSuffices(w: World, tau: TauTable, journal: JournalTable, preWalk: JournalTable, k: int, t: Times,
                      queue: map<int, int>, marked: set<string>)
    requires WellFormed(w.buf) && |tau| == |journal| == |preWalk| && 1 <= k < |tau|
    requires RoundOK(w, tau, journal, preWalk, k - 1) && MarkedIs(w, tau, journal, k - 1, marked)
    requires TiesHarmless(w)
    requires Lowered(tau[k - 1], t)
    requires QueueOf(w.buf, marked, queue)
    requires forall ri :: ri in queue ==> ScanTried(w, LabelsOf(tau[k - 1], journal[k - 1]), t, ri, queue[ri])
    ensures AllScanned(w, LabelsOf(tau[k - 1], journal[k - 1]), t)
  {
    hide TiesHarmless, RoundOK, RouteScanned, ScanTried, Lowered, QueueOf, WellFormed;
    var l := LabelsOf(tau[k - 1], journal[k - 1]);
    forall ri | 0 <= ri < |w.buf.routes|
      ensures RouteScanned(w, l, t, ri, 0)
    {
      var from := if ri in queue then queue[ri] else |w.buf.routes[ri].stopIDs|;
      if ri in queue {
        ScanSuffices(w, l, t, ri, from);
      } else {
        NothingPastTheEnd(w, l, t, ri, from);
      }
      NothingMarkedBefore(w, tau[k - 1], journal[k - 1], k - 1, queue, marked, ri, from);
      MarkedSuffices(w, tau, journal, preWalk, k - 1, t, ri, from);
    }
  }

  lemma NothingPastTheEnd(w: World, l: Labels, t: Times, ri: int, from: int)
    requires WellFormed(w.buf) && 0 <= ri < |w.buf.routes| && from >= |w.buf.routes[ri].stopIDs|
    ensures RouteScanned(w, l, t, ri, from)
  {
  }

  lemma NothingMarkedBefore(w: World, t: Times, j: Journal, k: int, queue: map<int, int>, marked: set<string>,
                            ri: int, from: int)
    requires WellFormed(w.buf) && 0 <= ri < |w.buf.routes|
    requires forall s :: s in t ==> (IsNew(w, j, k, s) <==> s in marked)
    requires QueueOf(w.buf, marked, queue)
    requires from == if ri in queue then queue[ri] else |w.buf.routes[ri].stopIDs|
    ensures forall p :: 0 <= p < from && p < |w.buf.routes[ri].stopIDs| && w.buf.routes[ri].stopIDs[p] in t
              ==> !IsNew(w, j, k, w.buf.routes[ri].stopIDs[p])
  {
    forall p | 0 <= p < from && p < |w.buf.routes[ri].stopIDs| && w.buf.routes[ri].stopIDs[p] in t
      ensures !IsNew(w, j, k, w.buf.routes[ri].stopIDs[p])
    {
      assert Indexed(w.buf, ri, p);
      if w.buf.routes[ri].stopIDs[p] in marked {
        assert Hinted(w.buf, marked, RouteStop(ri, p));
        assert Usable(w.buf, RouteStop(ri, p));
      }
    }
  }

  lemma LaterLevels(w: World, tau: TauTable, journal: JournalTable, preWalk: JournalTable, k: int,
                    marked: set<string>, j: int)
    requires WellFormed(w.buf) && |tau| == |journal| == |preWalk| && 0 <= k < |tau| && k <= j
    requires RoundOK(w, tau, journal, preWalk, k) && MarkedIs(w, tau, journal, k, marked)
    requires TiesHarmless(w) && (marked == {} || j == k)
    ensures Agree(LabelsOf(tau[k], journal[k]), Level(w, j), w.params.destination)
  {
    hide RoundOK, TiesHarmless;
    if marked == {} {
      NothingMarked(w, tau, journal, preWalk, k, j);
    } else {
      RoundFacts(w, tau, journal, preWalk, k);
    }
  }

  lemma HistoryStarts(w: World, tau: TauTable, journal: JournalTable, preWalk: JournalTable)
    requires WellFormed(w.buf) && |tau| == |journal| == |preWalk| && 0 < |tau|
    requires RoundOK(w, tau, journal, preWalk, 0)
    ensures HistoryOK(w, tau, journal, preWalk, 0)
  {
    hide RoundOK;
  }

  /** What a whole run knows of the naive levels. */
  lemma RunAgrees(w: World, tau: TauTable, journal: JournalTable, preWalk: JournalTable, marks: seq<set<string>>,
                  last: nat)
    requires WellFormed(w.buf) && |tau| == |journal| == |preWalk| && last < |tau|
    requires HistoryOK(w, tau, journal, preWalk, last) && Trace(w, tau, journal, marks, last)
    requires MarkedIs(w, tau, journal, last, marks[last])
    ensures TiesHarmless(w) ==>
              && (forall j :: 0 <= j <= last ==>
                    Agree(LabelsOf(tau[j], journal[j]), Level(w, j), w.params.destination))
              && (forall j :: last <= j <= w.params.Rounds() ==>
                    Agree(LabelsOf(tau[last], journal[last]), Level(w, j), w.params.destination))
              && StopsAt(w, last)
  {
    hide RoundOK, MarkedIs, WellFormed, TiesHarmless, Agree, StopsAt, Started, RanRound;
    if TiesHarmless(w) {
      EveryRoundAgrees(w, tau, journal, preWalk, last);
      TraceStops(w, tau, journal, marks, last);
      forall j | last <= j <= w.params.Rounds()
        ensures Agree(LabelsOf(tau[last], journal[last]), Level(w, j), w.params.destination)
      {
        LaterLevels(w, tau, journal, preWalk, last, marks[last], j);
      }
    }
  }

  lemma MarkedFrame(w: World, tau: TauTable, journal: JournalTable, tau': TauTable, journal': JournalTable,
                    k: int, marked: set<string>)
    requires |tau| == |journal| && |tau'| == |journal'| && 0 <= k < |tau| && k < |tau'|
    requires tau[k] == tau'[k] && journal[k] == journal'[k]
    requires MarkedIs(w, tau, journal, k, marked)
    ensures MarkedIs(w, tau', journal', k, marked)
  {
  }

  lemma VehiclesFrame(w: World, tau: TauTable, journal: JournalTable, tau': TauTable, journal': JournalTable,
                      k: int, improved: set<string>)
    requires WellFormed(w.buf) && |tau| == |journal| && |tau'| == |journal'| && 1 <= k < |tau| && k < |tau'|
    requires tau[k - 1] == tau'[k - 1] && journal[k - 1] == journal'[k - 1]
    requires VehiclesRan(w, tau, journal, k, tau[k], journal[k], improved)
    ensures VehiclesRan(w, tau', journal', k, tau[k], journal[k], improved)
  {
  }

  lemma LabelledKeys(w: World, tau: TauTable, journal: JournalTable, preWalk: JournalTable,
                     tau0: TauTable, journal0: JournalTable, k: int, improved: set<string>)
    requires WellFormed(w.buf) && |tau| == |journal| && |tau0| == |journal0| == |preWalk|
    requires 1 <= k < |tau| && k < |tau0|
    requires tau[k - 1] == tau0[k - 1] && journal[k - 1] == journal0[k - 1]
    requires RoundOK(w, tau0, journal0, preWalk, k - 1)
    requires VehiclesRan(w, tau, journal, k, tau[k], journal[k], improved)
    ensures journal[k].Keys <= tau[k].Keys
  {
    RoundFacts(w, tau0, journal0, preWalk, k - 1);
    hide RoundOK;
  }

  /** The tables after the walk pass are the tables before it except in round k. */
  lemma RoundFinishes(w: World, tau0: TauTable, journal0: JournalTable, preWalk0: JournalTable,
                      tau: TauTable, journal: JournalTable, preWalk: JournalTable, k: int,
                      t: Times, j: Journal, improved: set<string>, walked: set<string>)
    requires WellFormed(w.buf) && |tau| == |journal| == |preWalk| && 1 <= k < |tau|
    requires |tau0| == |journal0| == |preWalk0| == |tau|
    requires SamePrefix(tau0, tau, k - 1) && SamePrefix(journal0, journal, k - 1)
             && SamePrefix(preWalk0, preWalk, k - 1)
    requires HistoryOK(w, tau0, journal0, preWalk0, k - 1)
    requires VehiclesRan(w, tau, journal, k, t, j, improved)
    requires WalkersRan(w, tau, journal, preWalk, k, t, j, improved, walked)
    requires TiesHarmless(w) ==> AllScanned(w, LabelsOf(tau[k - 1], journal[k - 1]), t)
    requires AllWalked(w, t, tau[k], improved)
    ensures HistoryOK(w, tau, journal, preWalk, k)
    ensures MarkedIs(w, tau, journal, k, improved + walked)
  {
    hide RoundOK, VehiclesRan, WalkersRan, AllScanned, AllWalked, MarkedIs, TiesHarmless;
    HistoryFrame(w, tau0, journal0, preWalk0, tau, journal, preWalk, k - 1);
    RoundKeeps(w, tau, journal, preWalk, k, t, j, improved, walked);
  }

  // ---- Backtracking: why it stops, and how many vehicles it finds ---------------------------------

  /** Bound on the legs still to come: two per round, one if the leg just explained was a walk. */
  function Measure(c: Cursor): nat
    requires c.r >= 0
  {
    2 * c.r + if c.prevKind == Some(Walk) then 0 else 1
  }

  /** Everything visited is in a later round, or is the stop the walk just explained led to. */
  predicate AllBehind(visited: set<(int, string)>, c: Cursor) {
    forall v :: v in visited ==> v.0 > c.r || (v.0 == c.r && c.prevKind == Some(Walk) && v.1 != c.cur)
  }

  /** Vehicles found so far plus the round reached never exceed the round the label belongs to; when ties are
      harmless they make up the round it was written in. */
  predicate VehiclesLeft(journal: JournalTable, round: int, c: Cursor, dest: string, found: int, vehicles: int,
                         exact: bool)
    requires 0 <= round < |journal|
  {
    && found + c.r <= round
    && if c.prevKind.None? then
         found == 0 && c.cur == dest && dest in journal[round] && vehicles == Written(journal[round][dest])
       else exact ==> found + c.r == vehicles
  }

  lemma StartsExplained(w: World, tau: TauTable, journal: JournalTable, preWalk: JournalTable, round: int)
    requires WellFormed(w.buf) && |tau| == |journal| == |preWalk| && 0 <= round < |tau|
    requires w.params.destination in journal[round] && w.params.destination in tau[round]
    ensures var c := Cursor(w.params.destination, round, None, 0);
            && CursorOK(w, tau, journal, preWalk, round, c)
            && Explained(w, [], c, tau[round][w.params.destination])
  {
  }

  lemma CountsDown(journal: JournalTable, round: int, c: Cursor, dest: string, back: seq<Leg>, leg: Leg,
                   vehicles: int, e: JournalEntry, exact: bool)
    requires 0 <= round < |journal|
    requires VehiclesLeft(journal, round, c, dest, TransitLegs(back), vehicles, exact)
    requires leg.kind == e.kind && Written(e) <= c.r
    requires c.prevKind.None? ==> Written(e) == vehicles
    requires c.prevKind.Some? && exact ==> Written(e) == c.r
    ensures VehiclesLeft(journal, round, Next(e), dest, TransitLegs(back + [leg]), vehicles, exact)
  {
    assert (back + [leg])[..|back|] == back;
  }

  // ---- Reading the answer off the labels ---------------------------------------------------------

  lemma WrittenInTime(w: World, tau: TauTable, journal: JournalTable, preWalk: JournalTable, k: int, s: string)
    requires WellFormed(w.buf) && |tau| == |journal| == |preWalk| && 0 <= k < |tau|
    requires HistoryOK(w, tau, journal, preWalk, k) && s in journal[k]
    ensures Written(journal[k][s]) <= k
  {
    assert RoundOK(w, tau, journal, preWalk, k);
    EntryFact(w, tau, journal, preWalk, k, s);
  }

  lemma NothingCollected(w: World, tau: TauTable)
    requires WellFormed(w.buf)
    ensures Collected(w, 0, [], []) && CoversSoFar(tau, w.params.destination, None, 0)
  {
  }

  lemma CoversOneMore(tau: TauTable, dest: string, best: Option<int>, k: nat, better: Option<int>)
    requires CoversSoFar(tau, dest, best, k) && k < |tau|
    requires best.Some? ==> better.Some? && better.value <= best.value
    requires dest in tau[k] ==> better.Some? && better.value <= tau[k][dest]
    ensures CoversSoFar(tau, dest, better, k + 1)
  {
  }

  lemma ServesItsLevel(w: World, k: nat, p: Path)
    requires WellFormed(w.buf) && Sound(w, p) && p.rounds == k && TransitLegs(p.legs) == k
    requires LevelArrival(w, k) == Some(p.arrival)
    ensures Serves(w, k, p)
  {
  }

  /** Every round so far arrives no earlier than `best`. */
  predicate CoversSoFar(tau: TauTable, dest: string, best: Option<int>, k: int) {
    forall m :: 0 <= m < k && m < |tau| && dest in tau[m] ==> best.Some? && best.value <= tau[m][dest]
  }

  /** A round's destination label is the naive level's; rounds never run repeat the last one's level. */
  lemma RoundArrival(w: World, tau: TauTable, journal: JournalTable, preWalk: JournalTable, last: nat, k: nat)
    requires WellFormed(w.buf) && |tau| == |journal| == |preWalk| == w.params.Rounds() + 1 && last < |tau| && k < |tau|
    requires HistoryOK(w, tau, journal, preWalk, last) && TiesHarmless(w)
    requires forall j :: 0 <= j < |tau| && last < j ==> tau[j] == map[]
    requires forall j :: last <= j <= w.params.Rounds() ==>
               Agree(LabelsOf(tau[last], journal[last]), Level(w, j), w.params.destination)
    ensures k <= last ==>
              LevelArrival(w, k) == if w.params.destination in tau[k] then Some(tau[k][w.params.destination]) else None
    ensures k > last ==> w.params.destination !in tau[k] && LevelArrival(w, k) == LevelArrival(w, last)
  {
    hide TiesHarmless, RoundOK, WellFormed;
    assert RoundOK(w, tau, journal, preWalk, last);
    RoundFacts(w, tau, journal, preWalk, last);
    if k <= last {
      assert RoundOK(w, tau, journal, preWalk, k);
      RoundFacts(w, tau, journal, preWalk, k);
    }
  }

  lemma HistoryShorter(w: World, tau: TauTable, journal: JournalTable, preWalk: JournalTable, last: nat, k: nat)
    requires WellFormed(w.buf) && |tau| == |journal| == |preWalk| && last < |tau| && k <= last
    requires HistoryOK(w, tau, journal, preWalk, last)
    ensures HistoryOK(w, tau, journal, preWalk, k)
  {
    hide RoundOK;
  }

  lemma RoundOnRound(w: World, tau: TauTable, journal: JournalTable, preWalk: JournalTable, k: nat, s: string)
    requires WellFormed(w.buf) && |tau| == |journal| == |preWalk| && 0 < k < |tau|
    requires HistoryOK(w, tau, journal, preWalk, k)
    ensures Lowered(tau[k - 1], tau[k])
    ensures s in tau[k] && !IsNew(w, journal[k], k, s) ==> Unchanged(tau[k - 1], journal[k - 1], tau[k], journal[k], s)
  {
    assert RoundOK(w, tau, journal, preWalk, k);
  }

  lemma {:induction false} NeverLater(w: World, tau: TauTable, journal: JournalTable, preWalk: JournalTable, m: nat,
                                      k: nat)
    requires WellFormed(w.buf) && |tau| == |journal| == |preWalk| && m <= k < |tau|
    requires HistoryOK(w, tau, journal, preWalk, k)
    ensures Lowered(tau[m], tau[k])
    decreases k
  {
    if m < k {
      RoundOnRound(w, tau, journal, preWalk, k, w.params.destination);
      hide RoundOK, HistoryOK;
      HistoryShorter(w, tau, journal, preWalk, k, k - 1);
      NeverLater(w, tau, journal, preWalk, m, k - 1);
      LoweredTwice(tau[m], tau[k - 1], tau[k]);
    }
  }

  /** A round that beats all rounds before it wrote its destination label itself. */
  lemma FirstTime(w: World, tau: TauTable, journal: JournalTable, preWalk: JournalTable, k: nat, best: Option<int>)
    requires WellFormed(w.buf) && |tau| == |journal| == |preWalk| && k < |tau|
    requires HistoryOK(w, tau, journal, preWalk, k)
    requires w.params.destination in tau[k] && w.params.origin != w.params.destination
    requires CoversSoFar(tau, w.params.destination, best, k)
    requires best.Some? ==> tau[k][w.params.destination] < best.value
    ensures w.params.destination in journal[k] && Written(journal[k][w.params.destination]) == k
  {
    assert RoundOK(w, tau, journal, preWalk, k);
    LabelFacts(w, tau, journal, preWalk, k, w.params.destination);
    if k == 0 {
      AllNewAtStart(w, tau, journal, preWalk, w.params.destination);
    } else {
      RoundOnRound(w, tau, journal, preWalk, k, w.params.destination);
    }
  }

  lemma NothingNew(w: World, tau: TauTable, journal: JournalTable, preWalk: JournalTable, last: nat, k: nat,
                   ks: seq<nat>, out: seq<Path>, best: Option<int>)
    requires WellFormed(w.buf) && |tau| == |journal| == |preWalk| == w.params.Rounds() + 1 && last < |tau| && k < |tau|
    requires HistoryOK(w, tau, journal, preWalk, last) && TiesHarmless(w)
    requires forall j :: 0 <= j < |tau| && last < j ==> tau[j] == map[]
    requires forall j :: last <= j <= w.params.Rounds() ==>
               Agree(LabelsOf(tau[last], journal[last]), Level(w, j), w.params.destination)
    requires Collected(w, k, ks, out) && best == if |out| == 0 then None else Some(out[|out| - 1].arrival)
    requires w.params.destination in tau[k] ==> best.Some? && best.value <= tau[k][w.params.destination]
    ensures Collected(w, k + 1, ks, out)
  {
    hide HistoryOK, LevelArrival, Agree;
    RoundArrival(w, tau, journal, preWalk, last, k);
    if k <= last && w.params.destination in tau[k] {
      var m := ks[|ks| - 1];
      ArrivesAt(w, m, out[|out| - 1]);
      SameArrival(w, tau, journal, preWalk, last, m, k);
    }
    CollectNothing(w, k, ks, out);
  }

  lemma SameArrival(w: World, tau: TauTable, journal: JournalTable, preWalk: JournalTable, last: nat, m: nat, k: nat)
    requires WellFormed(w.buf) && |tau| == |journal| == |preWalk| == w.params.Rounds() + 1 && last < |tau|
             && m < k <= last
    requires HistoryOK(w, tau, journal, preWalk, last) && TiesHarmless(w)
    requires forall j :: 0 <= j < |tau| && last < j ==> tau[j] == map[]
    requires forall j :: last <= j <= w.params.Rounds() ==>
               Agree(LabelsOf(tau[last], journal[last]), Level(w, j), w.params.destination)
    requires w.params.destination in tau[k] && LevelArrival(w, m).Some?
    requires LevelArrival(w, m).value <= tau[k][w.params.destination]
    ensures LevelArrival(w, m) == LevelArrival(w, k)
  {
    hide HistoryOK, LevelArrival, Agree, WellFormed;
    RoundArrival(w, tau, journal, preWalk, last, m);
    RoundArrival(w, tau, journal, preWalk, last, k);
    HistoryShorter(w, tau, journal, preWalk, last, k);
    NeverLater(w, tau, journal, preWalk, m, k);
  }

  lemma FewTransfers(w: World, out: seq<Path>)
    requires WellFormed(w.buf) && forall p :: p in out ==> Sound(w, p)
    ensures forall p :: p in out ==> p.transfers < MAX_INT32
  {
    forall p | p in out
      ensures p.transfers < MAX_INT32
    {
      assert Sound(w, p);
    }
  }
}
