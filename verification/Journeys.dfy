/** Journeys as the passenger sees them: when a sequence of legs is real, and walking a journal backwards
    from the destination. */
module Journeys {
  import opened Model
  import opened Reference
  import opened Agreement
  import opened Fifo
  import opened Rounds
  import opened History

  /** The leg is one usable trip of the timetable, boarded at position `p` and left at position `q`. */
  ghost predicate IsRideOf(w: World, leg: Leg, ri: int, t: int, p: int, q: int)
    requires WellFormed(w.buf)
  {
    && 0 <= ri < |w.buf.routes| && 0 <= t < |w.buf.stopTimes[ri]| && 0 <= p < q < |w.buf.routes[ri].stopIDs|
    && TripWellFormed(w.buf.routes[ri], w.buf.stopTimes[ri][t])
    && TripUsable(w, leg.tripKey)
    && leg == Leg(Transit, w.buf.stopTimes[ri][t].key, w.buf.routes[ri].routeID, w.buf.routes[ri].stopIDs[p],
                  w.buf.routes[ri].stopIDs[q], w.buf.stopTimes[ri][t].departures[p], w.buf.stopTimes[ri][t].arrivals[q])
  }

  /** The leg is a footpath edge, walked in exactly its time. */
  ghost predicate IsWalkOf(w: World, leg: Leg, i: int) {
    && 0 <= i < |w.buf.Walks(leg.boardStation)|
    && leg.kind.Walk? && leg.tripKey == NO_TRIP && leg.routeID == WALK_ROUTE_ID
    && leg.alightStation == w.buf.Walks(leg.boardStation)[i].neighbourStop
    && leg.arrival == leg.departure + w.buf.Walks(leg.boardStation)[i].walkSeconds
  }

  ghost predicate RealLeg(w: World, leg: Leg)
    requires WellFormed(w.buf)
  {
    if leg.kind.Transit? then exists ri, t, p, q :: IsRideOf(w, leg, ri, t, p, q)
    else exists i :: IsWalkOf(w, leg, i)
  }

  /** Leg `b` can follow leg `a`: same station, enough time (with the transfer buffer between two
      vehicles), and never two walks in a row. */
  predicate Joins(w: World, a: Leg, b: Leg) {
    && a.alightStation == b.boardStation
    && b.departure >= a.arrival + (if a.kind.Transit? && b.kind.Transit? then w.params.TransferBuffer() else 0)
    && !(a.kind.Walk? && b.kind.Walk?)
  }

  /** A real journey from the origin to the destination, leaving no earlier than asked. */
  ghost predicate Itinerary(w: World, legs: seq<Leg>)
    requires WellFormed(w.buf)
  {
    && |legs| > 0
    && legs[0].boardStation == w.params.origin && legs[|legs| - 1].alightStation == w.params.destination
    && legs[0].departure >= w.params.depTime
    && (forall i :: 0 <= i < |legs| ==> RealLeg(w, legs[i]))
    && (forall i, j :: 0 <= i && j == i + 1 < |legs| ==> Joins(w, legs[i], legs[j]))
  }

  lemma OneMoreLeg(legs: seq<Leg>, i: nat)
    requires 0 < i <= |legs|
    ensures TransitLegs(legs[..i]) == TransitLegs(legs[..i - 1]) + if legs[i - 1].kind.Transit? then 1 else 0
  {
    assert legs[..i][..i - 1] == legs[..i - 1];
  }

  lemma RealLegsMoveForward(w: World, leg: Leg)
    requires WellFormed(w.buf) && RealLeg(w, leg)
    ensures leg.departure <= leg.arrival
    ensures leg.kind.Transit? ==> leg.tripKey.tripID != ""
  {
    if leg.kind.Transit? {
      var ri, t, p, q :| IsRideOf(w, leg, ri, t, p, q);
    } else {
      var i :| IsWalkOf(w, leg, i);
      assert w.buf.footpaths[leg.boardStation][i].walkSeconds >= 0;
    }
  }

  // ---- The check every journey passes before it is served (`ValidatePath`) -----------------------

  datatype PathError =
    | NoLegs | WrongOrigin | WrongDestination | TooEarly
    | Backwards(leg: nat) | NoTripID(leg: nat) | Gap(leg: nat) | LeavesTooEarly(leg: nat)

  function ValidatePath(legs: seq<Leg>, params: SearchParams): Option<PathError> {
    if |legs| == 0 then Some(NoLegs)
    else if legs[0].boardStation != params.origin then Some(WrongOrigin)
    else if legs[|legs| - 1].alightStation != params.destination then Some(WrongDestination)
    else if legs[0].departure < params.depTime then Some(TooEarly)
    else CheckLegs(legs, 0)
  }

  function CheckLegs(legs: seq<Leg>, i: nat): (e: Option<PathError>)
    requires i <= |legs|
    ensures e.None? <==> forall j :: i <= j < |legs| ==> LegError(legs, j).None?
    decreases |legs| - i
  {
    if i == |legs| then None
    else if LegError(legs, i).Some? then LegError(legs, i)
    else CheckLegs(legs, i + 1)
  }

  function LegError(legs: seq<Leg>, i: nat): Option<PathError>
    requires i < |legs|
  {
    if legs[i].arrival < legs[i].departure then Some(Backwards(i))
    else if legs[i].kind.Transit? && legs[i].tripKey.tripID == "" then Some(NoTripID(i))
    else if i == 0 then None
    else if legs[i - 1].alightStation != legs[i].boardStation then Some(Gap(i))
    else if legs[i].departure < legs[i - 1].arrival then Some(LeavesTooEarly(i))
    else None
  }

  /** A real journey is never rejected. */
  lemma ItinerariesPass(w: World, legs: seq<Leg>)
    requires WellFormed(w.buf) && Itinerary(w, legs)
    ensures ValidatePath(legs, w.params).None?
  {
    forall j | 0 <= j < |legs|
      ensures LegError(legs, j).None?
    {
      RealLegsMoveForward(w, legs[j]);
      if j > 0 {
        assert Joins(w, legs[j - 1], legs[j]);
      }
    }
  }

  // ---- Walking the journal backwards -------------------------------------------------------------

  /** Where backtracking stands: the stop to explain next, the round whose journal explains it, and the
      leg just explained, which leaves that stop. */
  datatype Cursor = Cursor(cur: string, r: int, prevKind: Option<LegKind>, prevDeparture: int)

  ghost predicate CursorOK(w: World, tau: TauTable, journal: JournalTable, preWalk: JournalTable, round: int, c: Cursor)
    requires WellFormed(w.buf) && |tau| == |journal| == |preWalk| && 0 <= round < |tau|
  {
    && 0 <= c.r <= round
    && match c.prevKind
       case None => c.cur == w.params.destination && c.r == round && c.cur in journal[round]
       case Some(Transit) =>
         && c.cur in tau[c.r] && (TiesHarmless(w) ==> IsNew(w, journal[c.r], c.r, c.cur))
         && c.prevDeparture >= Ready(LabelsOf(tau[c.r], journal[c.r])[c.cur], w.params.TransferBuffer())
       case Some(Walk) =>
         if c.cur == w.params.origin then c.r == 0 && c.prevDeparture == w.params.depTime
         else
           && c.r > 0 && c.cur in preWalk[c.r] && c.cur in journal[c.r]
           && var pre := preWalk[c.r][c.cur];
           && RideOK(w, tau, journal, c.cur, pre) && pre.fromRound == c.r - 1 && pre.arrival == c.prevDeparture
           && (journal[c.r][c.cur] == pre || (journal[c.r][c.cur].kind.Walk? && journal[c.r][c.cur].fromRound == c.r))
  }

  /** The entry backtracking uses: the journal's, or the remembered one when the journal's would put two
      walks in a row. */
  function Chosen(journal: JournalTable, preWalk: JournalTable, c: Cursor): JournalEntry
    requires |journal| == |preWalk| && 0 <= c.r < |journal| && c.cur in journal[c.r]
  {
    var e := journal[c.r][c.cur];
    if c.prevKind == Some(Walk) && e.kind.Walk? && c.cur in preWalk[c.r]
       && preWalk[c.r][c.cur].from != "" && preWalk[c.r][c.cur].arrival <= c.prevDeparture
    then preWalk[c.r][c.cur]
    else e
  }

  function LegOf(e: JournalEntry, cur: string): Leg {
    Leg(e.kind, e.tripKey, e.routeID, e.from, cur, e.departure, e.arrival)
  }

  function Next(e: JournalEntry): Cursor {
    Cursor(e.from, e.fromRound, Some(e.kind), e.departure)
  }

  lemma RideOKIsReal(w: World, tau: TauTable, journal: JournalTable, s: string, e: JournalEntry)
    requires WellFormed(w.buf) && |tau| == |journal|
    requires RideOK(w, tau, journal, s, e)
    ensures RealLeg(w, LegOf(e, s))
    ensures e.from in tau[e.fromRound]
    ensures e.departure >= Ready(LabelsOf(tau[e.fromRound], journal[e.fromRound])[e.from], w.params.TransferBuffer())
  {
    hide TiesHarmless;
    var l := LabelsOf(tau[e.fromRound], journal[e.fromRound]);
    var ri, t, p, q :| IsRide(w, e.fromRound, l, s, e, ri, t, p, q);
    assert TripWellFormed(w.buf.routes[ri], w.buf.stopTimes[ri][t]);
    assert IsRideOf(w, LegOf(e, s), ri, t, p, q);
  }

  lemma RideOKNext(w: World, tau: TauTable, journal: JournalTable, preWalk: JournalTable, round: int, s: string,
                   e: JournalEntry)
    requires WellFormed(w.buf) && |tau| == |journal| == |preWalk| && 0 <= round < |tau|
    requires RideOK(w, tau, journal, s, e) && e.fromRound <= round
    ensures CursorOK(w, tau, journal, preWalk, round, Next(e))
    ensures RealLeg(w, LegOf(e, s))
  {
    hide TiesHarmless;
    RideOKIsReal(w, tau, journal, s, e);
  }

  lemma WalkOKNext(w: World, tau: TauTable, journal: JournalTable, preWalk: JournalTable, round: int, s: string,
                   e: JournalEntry)
    requires WellFormed(w.buf) && |tau| == |journal| == |preWalk| && 0 <= round < |tau|
    requires WalkOK(w, tau, journal, preWalk, s, e) && e.fromRound <= round
    ensures CursorOK(w, tau, journal, preWalk, round, Next(e))
    ensures RealLeg(w, LegOf(e, s))
  {
    hide TiesHarmless;
    var i :| IsEdge(w, s, e, i);
    assert IsWalkOf(w, LegOf(e, s), i);
  }

  /** One step backwards is always possible, lands on another sound cursor, explains the stop with a real
      leg that joins the one after it, and goes down a round unless it is a walk. */
  lemma StepBack(w: World, tau: TauTable, journal: JournalTable, preWalk: JournalTable, round: int, c: Cursor)
    requires WellFormed(w.buf) && |tau| == |journal| == |preWalk| && 0 <= round < |tau|
    requires HistoryOK(w, tau, journal, preWalk, round)
    requires CursorOK(w, tau, journal, preWalk, round, c) && c.cur != w.params.origin
    ensures c.cur in journal[c.r] && journal[c.r][c.cur].from != "" && journal[c.r][c.cur].from != c.cur
    ensures var e := Chosen(journal, preWalk, c);
            && CursorOK(w, tau, journal, preWalk, round, Next(e))
            && RealLeg(w, LegOf(e, c.cur))
            && e.from != c.cur
            && (c.prevKind.None? ==>
                c.cur in tau[round] && e.arrival == tau[round][c.cur] && Written(e) == Written(journal[round][c.cur]))
            && (c.prevKind.Some? ==>
                  && (TiesHarmless(w) ==> Written(e) == c.r)
                  && !(e.kind.Walk? && c.prevKind.value.Walk?)
                  && c.prevDeparture >= e.arrival + if e.kind.Transit? && c.prevKind.value.Transit?
                                                    then w.params.TransferBuffer() else 0)
            && Written(e) <= c.r
  {
    hide TiesHarmless;
    assert RoundOK(w, tau, journal, preWalk, c.r);
    if c.prevKind == Some(Transit) || c.prevKind.None? {
      LabelFacts(w, tau, journal, preWalk, c.r, c.cur);
    } else {
      EntryFact(w, tau, journal, preWalk, c.r, c.cur);
    }
    hide RoundOK, HistoryOK;
    var e := Chosen(journal, preWalk, c);
    if c.prevKind == Some(Walk) {
      RideOKNext(w, tau, journal, preWalk, round, c.cur, e);
    } else if e.kind.Transit? {
      RideOKNext(w, tau, journal, preWalk, round, c.cur, e);
    } else {
      WalkOKNext(w, tau, journal, preWalk, round, c.cur, e);
    }
  }

  lemma EntryFact(w: World, tau: TauTable, journal: JournalTable, preWalk: JournalTable, k: int, s: string)
    requires WellFormed(w.buf) && |tau| == |journal| == |preWalk| && 0 <= k < |tau|
    requires RoundOK(w, tau, journal, preWalk, k) && s in journal[k]
    ensures EntryOK(w, tau, journal, preWalk, k, s)
  {
    hide TiesHarmless;
  }

  /** The legs explained so far, last leg first: real, joined, ending at the destination at time
      `arrival`, and leaving from where the cursor stands. */
  ghost predicate Explained(w: World, legs: seq<Leg>, c: Cursor, arrival: int)
    requires WellFormed(w.buf)
  {
    && (|legs| == 0 ==> c.prevKind.None?)
    && (|legs| > 0 ==>
          var last := legs[|legs| - 1];
          && legs[0].alightStation == w.params.destination && legs[0].arrival == arrival
          && last.boardStation == c.cur && c.prevKind == Some(last.kind) && c.prevDeparture == last.departure)
    && (forall i :: 0 <= i < |legs| ==> RealLeg(w, legs[i]))
    && (forall i, j :: 0 <= i && j == i + 1 < |legs| ==> Joins(w, legs[j], legs[i]))
  }

  lemma ExplainedMore(w: World, tau: TauTable, journal: JournalTable, preWalk: JournalTable, round: int, c: Cursor,
                      legs: seq<Leg>, arrival: int)
    requires WellFormed(w.buf) && |tau| == |journal| == |preWalk| && 0 <= round < |tau|
    requires HistoryOK(w, tau, journal, preWalk, round)
    requires CursorOK(w, tau, journal, preWalk, round, c) && c.cur != w.params.origin
    requires w.params.destination in tau[round] && tau[round][w.params.destination] == arrival
    requires Explained(w, legs, c, arrival)
    ensures c.cur in journal[c.r]
    ensures var e := Chosen(journal, preWalk, c); Explained(w, legs + [LegOf(e, c.cur)], Next(e), arrival)
  {
    hide TiesHarmless;
    hide HistoryOK, RealLeg, WellFormed;
    StepBack(w, tau, journal, preWalk, round, c);
    var e := Chosen(journal, preWalk, c);
    var leg, more := LegOf(e, c.cur), legs + [LegOf(e, c.cur)];
    forall i, j | 0 <= i && j == i + 1 < |more|
      ensures Joins(w, more[j], more[i])
    {
      if j < |legs| {
        assert Joins(w, legs[j], legs[i]);
      }
    }
  }

  function Reverse<T>(s: seq<T>): (r: seq<T>)
    ensures |r| == |s| && forall i :: 0 <= i < |s| ==> r[i] == s[|s| - 1 - i]
  {
    seq(|s|, i requires 0 <= i < |s| => s[|s| - 1 - i])
  }

  /** The outer `i` places on either side hold the legs turned round, the rest are as they were. */
  predicate Turned(legs: seq<Leg>, r: seq<Leg>, i: int) {
    |r| == |legs| && forall k :: 0 <= k < |legs| ==>
      r[k] == if k < i || |legs| - 1 - k < i then Reverse(legs)[k] else legs[k]
  }

  lemma SwapEnds(legs: seq<Leg>, r: seq<Leg>, i: nat, j: nat)
    requires i < j < |legs| && i + j == |legs| - 1 && Turned(legs, r, i)
    ensures |r| == |legs| && Turned(legs, r[i := r[j]][j := r[i]], i + 1)
  {
  }

  lemma AllTurned(legs: seq<Leg>, r: seq<Leg>, i: nat)
    requires Turned(legs, r, i) && |legs| <= 2 * i + 1
    ensures r == Reverse(legs)
  {
    forall k | 0 <= k < |legs|
      ensures r[k] == Reverse(legs)[k]
    {
    }
  }

  /** The leg slice is turned round by swapping its ends inwards. */
  method ReverseLegs(legs: seq<Leg>) returns (r: seq<Leg>)
    ensures r == Reverse(legs)
  {
    r := legs;
    var i, j := 0, |legs| - 1;
    while i < j
      invariant 0 <= i && i + j == |legs| - 1 && i <= j + 1
      invariant Turned(legs, r, i)
    {
      SwapEnds(legs, r, i, j);
      r := r[i := r[j]][j := r[i]];
      i, j := i + 1, j - 1;
    }
    AllTurned(legs, r, i);
  }

  /** Once the cursor reaches the origin, the legs turned round are a real journey. */
  lemma ExplainedIsItinerary(w: World, tau: TauTable, journal: JournalTable, preWalk: JournalTable, round: int,
                             c: Cursor, legs: seq<Leg>, arrival: int)
    requires WellFormed(w.buf) && |tau| == |journal| == |preWalk| && 0 <= round < |tau|
    requires HistoryOK(w, tau, journal, preWalk, round)
    requires CursorOK(w, tau, journal, preWalk, round, c) && c.cur == w.params.origin
    requires w.params.origin != w.params.destination
    requires Explained(w, legs, c, arrival)
    ensures TiesHarmless(w) ==> c.r == 0
    ensures Itinerary(w, Reverse(legs)) && |legs| > 0 && Reverse(legs)[|legs| - 1].arrival == arrival
  {
    hide TiesHarmless;
    assert RoundOK(w, tau, journal, preWalk, c.r);
    RoundFacts(w, tau, journal, preWalk, c.r);
    hide RoundOK, HistoryOK, RealLeg;
    var there := Reverse(legs);
    assert c.prevDeparture >= w.params.depTime;
    forall i, j | 0 <= i && j == i + 1 < |there|
      ensures Joins(w, there[i], there[j])
    {
      var i', j' := |legs| - 1 - j, |legs| - 1 - i;
      assert Joins(w, legs[j'], legs[i']);
    }
  }

  lemma {:induction false} CountReversed(legs: seq<Leg>)
    ensures TransitLegs(Reverse(legs)) == TransitLegs(legs)
    decreases |legs|
  {
    if |legs| <= 1 {
      assert Reverse(legs) == legs;
    } else {
      var a, z, mid := legs[0], legs[|legs| - 1], legs[1..|legs| - 1];
      assert Reverse(legs) == [z] + Reverse(mid) + [a];
      assert legs == [a] + mid + [z];
      CountReversed(mid);
      CountEnds(a, mid, z);
      CountEnds(z, Reverse(mid), a);
    }
  }

  lemma {:induction false} CountFront(a: Leg, mid: seq<Leg>)
    ensures TransitLegs([a] + mid) == TransitLegs(mid) + if a.kind.Transit? then 1 else 0
    decreases |mid|
  {
    if mid == [] {
      assert [a] + mid == [] + [a] && ([a])[..0] == [];
    } else {
      CountFront(a, mid[..|mid| - 1]);
      assert ([a] + mid)[..|mid|] == [a] + mid[..|mid| - 1];
    }
  }

  lemma CountEnds(a: Leg, mid: seq<Leg>, z: Leg)
    ensures TransitLegs([a] + mid + [z])
            == TransitLegs(mid) + (if a.kind.Transit? then 1 else 0) + (if z.kind.Transit? then 1 else 0)
  {
    CountFront(a, mid);
    assert ([a] + mid + [z])[..|mid| + 1] == [a] + mid;
  }
}
