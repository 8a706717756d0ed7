/** Ordered routes: measuring the order (`computeFIFO`), searching by it (`earliestTrip`), and exactly
    when one forward scan over an ordered route finds every earliest arrival. */
module Fifo {
  import opened Model

  predicate Rectangular(trips: seq<TripStopTimes>, n: nat) {
    forall i :: 0 <= i < |trips| ==> |trips[i].departures| == n && |trips[i].arrivals| == n
  }

  /** Trip `i` is no later than trip `j` at position `p`, pulling in and leaving. */
  predicate NoLater(trips: seq<TripStopTimes>, n: nat, i: int, j: int, p: int)
    requires Rectangular(trips, n) && 0 <= i < |trips| && 0 <= j < |trips| && 0 <= p < n
  {
    trips[i].departures[p] <= trips[j].departures[p] && trips[i].arrivals[p] <= trips[j].arrivals[p]
  }

  /** Comparing neighbours over the same positions is enough. */
  lemma {:induction false} AdjacentOrderIsGlobal(trips: seq<TripStopTimes>, n: nat, i: nat, j: nat, p: nat)
    requires Rectangular(trips, n) && i <= j < |trips| && p < n
    requires forall m, m', x :: 0 <= m && m' == m + 1 < |trips| && 0 <= x < n ==> NoLater(trips, n, m, m', x)
    ensures NoLater(trips, n, i, j, p)
    decreases j - i
  {
    if i < j {
      AdjacentOrderIsGlobal(trips, n, i, j - 1, p);
      assert NoLater(trips, n, j - 1, j, p);
    }
  }

  lemma InOrder(trips: seq<TripStopTimes>, n: nat, i: int, j: int, p: int)
    requires Rectangular(trips, n) && NonOvertaking(trips)
    requires 0 <= i <= j < |trips| && 0 <= p < n
    ensures NoLater(trips, n, i, j, p)
  {
  }

  /** The neighbour-by-neighbour check decides the all-pairs property: a route is flagged exactly when
      it has fewer than two trips, or all its trips serve equally many stops and none is anywhere later
      than a trip after it. */
  method ComputeFIFO(trips: seq<TripStopTimes>) returns (fifo: bool)
    ensures fifo <==> |trips| < 2 || (Rectangular(trips, |trips[0].departures|) && NonOvertaking(trips))
  {
    if |trips| < 2 {
      return true;
    }
    var n := |trips[0].departures|;
    for i := 0 to |trips|
      invariant Rectangular(trips[..i], n)
    {
      if |trips[i].departures| != n || |trips[i].arrivals| != n {
        return false;
      }
    }
    assert trips[..|trips|] == trips;
    for i := 1 to |trips|
      invariant forall m, m', x :: 0 <= m && m' == m + 1 < i && 0 <= x < n ==> NoLater(trips, n, m, m', x)
    {
      var before := i - 1;
      for pos := 0 to n
        invariant forall x :: 0 <= x < pos ==> NoLater(trips, n, before, i, x)
      {
        if trips[i].departures[pos] < trips[before].departures[pos] {
          return false;
        }
        if trips[i].arrivals[pos] < trips[before].arrivals[pos] {
          return false;
        }
      }
    }
    forall i, j, p | 0 <= i < j < |trips| && 0 <= p < n
      ensures trips[i].departures[p] <= trips[j].departures[p] && trips[i].arrivals[p] <= trips[j].arrivals[p]
    {
      AdjacentOrderIsGlobal(trips, n, i, j, p);
    }
    return true;
  }

  /** Trip `i` leaves position `pos` inside the half-open window from `ready` to `mustBeat`, on a date and with
      seats the query accepts. `None` stands for no trip to beat. */
  predicate Catchable(w: World, trip: TripStopTimes, pos: nat, ready: int, mustBeat: Option<int>)
    requires pos < |trip.departures|
  {
    TripUsable(w, trip.key) && ready <= trip.departures[pos]
    && (mustBeat.Some? ==> trip.departures[pos] < mustBeat.value)
  }

  /** Plain linear search for the first catchable trip, -1 when there is none. */
  function FirstCatchable(w: World, trips: seq<TripStopTimes>, pos: nat, ready: int, mustBeat: Option<int>,
                          from: nat): (i: int)
    requires forall j :: 0 <= j < |trips| ==> pos < |trips[j].departures|
    requires from <= |trips|
    ensures i == -1 || from <= i < |trips|
    ensures i >= 0 ==> Catchable(w, trips[i], pos, ready, mustBeat)
    ensures forall h :: from <= h < (if i >= 0 then i else |trips|) ==> !Catchable(w, trips[h], pos, ready, mustBeat)
    decreases |trips| - from
  {
    if from == |trips| then -1
    else if Catchable(w, trips[from], pos, ready, mustBeat) then from
    else FirstCatchable(w, trips, pos, ready, mustBeat, from + 1)
  }

  lemma FirstCatchableIsFirst(w: World, trips: seq<TripStopTimes>, pos: nat, ready: int, mustBeat: Option<int>, i: int)
    requires forall j :: 0 <= j < |trips| ==> pos < |trips[j].departures|
    requires i == -1 || (0 <= i < |trips| && Catchable(w, trips[i], pos, ready, mustBeat))
    requires forall h :: 0 <= h < (if i >= 0 then i else |trips|) ==> !Catchable(w, trips[h], pos, ready, mustBeat)
    ensures i == FirstCatchable(w, trips, pos, ready, mustBeat, 0)
  {
    var f := FirstCatchable(w, trips, pos, ready, mustBeat, 0);
  }

  /** The library's binary search: the least index whose departure is not before `ready`. */
  method SearchDeparture(trips: seq<TripStopTimes>, pos: nat, ready: int) returns (lo: nat)
    requires forall j :: 0 <= j < |trips| ==> pos < |trips[j].departures|
    requires forall i, j :: 0 <= i < j < |trips| ==> trips[i].departures[pos] <= trips[j].departures[pos]
    ensures lo <= |trips|
    ensures forall j :: 0 <= j < lo ==> trips[j].departures[pos] < ready
    ensures forall j :: lo <= j < |trips| ==> trips[j].departures[pos] >= ready
  {
    lo := 0;
    var hi := |trips|;
    while lo < hi
      invariant 0 <= lo <= hi <= |trips|
      invariant forall j :: 0 <= j < lo ==> trips[j].departures[pos] < ready
      invariant forall j :: hi <= j < |trips| ==> trips[j].departures[pos] >= ready
    {
      var mid := (lo + hi) / 2;
      if trips[mid].departures[pos] >= ready {
        hi := mid;
      } else {
        lo := mid + 1;
      }
    }
  }

  /** Binary search plus a short forward scan finds what the linear search finds, and stops at the first
      departure that is too late. */
  method EarliestTrip(w: World, trips: seq<TripStopTimes>, pos: nat, ready: int, mustBeat: Option<int>)
      returns (i: int)
    requires forall j :: 0 <= j < |trips| ==> pos < |trips[j].departures|
    requires forall i, j :: 0 <= i < j < |trips| ==> trips[i].departures[pos] <= trips[j].departures[pos]
    ensures i == FirstCatchable(w, trips, pos, ready, mustBeat, 0)
  {
    var lo := SearchDeparture(trips, pos, ready);
    i := lo;
    while i < |trips|
      invariant lo <= i <= |trips|
      invariant forall h :: 0 <= h < i ==> !Catchable(w, trips[h], pos, ready, mustBeat)
    {
      var d := trips[i].departures[pos];
      if mustBeat.Some? && d >= mustBeat.value {
        break;
      }
      if TripUsable(w, trips[i].key) {
        FirstCatchableIsFirst(w, trips, pos, ready, mustBeat, i);
        return;
      }
      i := i + 1;
    }
    FirstCatchableIsFirst(w, trips, pos, ready, mustBeat, -1);
    i := -1;
  }

  // ---- The single forward scan -------------------------------------------------------------------

  /** When the passenger can board at each position of a route; `None` where the previous round never
      got them. */
  type Readiness = seq<Option<int>>

  /** Trip `i` can be boarded at position `p`. */
  predicate Catch(w: World, trips: seq<TripStopTimes>, ready: Readiness, i: int, p: int)
    requires Rectangular(trips, |ready|)
  {
    0 <= i < |trips| && 0 <= p < |ready| && ready[p].Some?
    && Catchable(w, trips[i], p, ready[p].value, None)
  }

  /** The trip the scan is riding when it reaches position `pos`: it boards at every position where a
      strictly earlier departure than its own can still be caught. -1 is on foot. */
  function Carried(w: World, trips: seq<TripStopTimes>, ready: Readiness, pos: nat): (c: int)
    requires Rectangular(trips, |ready|) && pos <= |ready|
    ensures -1 <= c < |trips|
  {
    if pos == 0 then -1
    else
      var c := Carried(w, trips, ready, pos - 1);
      BoardStep(w, trips, ready, pos - 1, c)
  }

  function BoardStep(w: World, trips: seq<TripStopTimes>, ready: Readiness, pos: nat, c: int): (c': int)
    requires Rectangular(trips, |ready|) && pos < |ready| && -1 <= c < |trips|
    ensures -1 <= c' < |trips|
  {
    if ready[pos].None? || (c >= 0 && ready[pos].value > trips[c].departures[pos]) then c
    else
      var mustBeat := if c >= 0 then Some(trips[c].departures[pos]) else None;
      var cand := FirstCatchable(w, trips, pos, ready[pos].value, mustBeat, 0);
      if cand >= 0 then cand else c
  }

  /** Trip `j` is the first usable trip with its departure at `p`: the one a search at `p` can pick. */
  predicate FirstAt(w: World, trips: seq<TripStopTimes>, n: nat, j: int, p: int)
    requires Rectangular(trips, n) && 0 <= j < |trips| && 0 <= p < n
  {
    TripUsable(w, trips[j].key)
    && forall h :: 0 <= h < j && TripUsable(w, trips[h].key) ==> trips[h].departures[p] < trips[j].departures[p]
  }

  /** Two usable trips leave together at a middle stop, the one that was behind earlier on arrives
      later further down, and a search at the earlier stop can have picked it. */
  predicate Harms(w: World, trips: seq<TripStopTimes>, n: nat, i: int, j: int, p1: int, p2: int, q: int)
    requires Rectangular(trips, n)
  {
    && 0 <= i < j < |trips| && 0 <= p1 < p2 < q < n
    && TripUsable(w, trips[i].key) && FirstAt(w, trips, n, j, p1)
    && trips[i].departures[p2] == trips[j].departures[p2]
    && trips[i].arrivals[q] < trips[j].arrivals[q]
  }

  ghost predicate HarmfulTie(w: World, trips: seq<TripStopTimes>, n: nat)
    requires Rectangular(trips, n)
  {
    exists i, j, p1, p2, q :: Harms(w, trips, n, i, j, p1, p2, q)
  }

  /** The scan reaches position `q` on a trip that arrives no later than any trip it could have
      boarded so far. */
  ghost predicate ScanOptimal(w: World, trips: seq<TripStopTimes>, ready: Readiness, q: nat)
    requires Rectangular(trips, |ready|) && q < |ready|
  {
    forall i, p :: 0 <= p < q && Catch(w, trips, ready, i, p) ==>
      var c := Carried(w, trips, ready, q);
      c >= 0 && trips[c].arrivals[q] <= trips[i].arrivals[q]
  }

  /** Where the carried trip was boarded. */
  function BoardedAt(w: World, trips: seq<TripStopTimes>, ready: Readiness, pos: nat): (p: int)
    requires Rectangular(trips, |ready|) && pos <= |ready|
  {
    if pos == 0 then -1
    else if Carried(w, trips, ready, pos) == Carried(w, trips, ready, pos - 1) then
      BoardedAt(w, trips, ready, pos - 1)
    else pos - 1
  }

  /** The carried trip was boarded in time, and was the first usable one with its departure there. */
  lemma {:induction false} CarriedIsBoarded(w: World, trips: seq<TripStopTimes>, ready: Readiness, pos: nat)
    requires Rectangular(trips, |ready|) && pos <= |ready|
    requires NonOvertaking(trips)
    requires Carried(w, trips, ready, pos) >= 0
    ensures 0 <= BoardedAt(w, trips, ready, pos) < pos
    ensures Catch(w, trips, ready, Carried(w, trips, ready, pos), BoardedAt(w, trips, ready, pos))
    ensures FirstAt(w, trips, |ready|, Carried(w, trips, ready, pos), BoardedAt(w, trips, ready, pos))
  {
    var c, c' := Carried(w, trips, ready, pos - 1), Carried(w, trips, ready, pos);
    if c' == c {
      CarriedIsBoarded(w, trips, ready, pos - 1);
    } else {
      var p := pos - 1;
      var mustBeat := if c >= 0 then Some(trips[c].departures[p]) else None;
      assert c' == FirstCatchable(w, trips, p, ready[p].value, mustBeat, 0);
      forall h | 0 <= h < c' && TripUsable(w, trips[h].key)
        ensures trips[h].departures[p] < trips[c'].departures[p]
      {
        assert !Catchable(w, trips[h], p, ready[p].value, mustBeat);
        assert trips[h].departures[p] <= trips[c'].departures[p];
      }
    }
  }

  /** The scan only ever moves to a trip indexed lower. */
  lemma MovesForward(w: World, trips: seq<TripStopTimes>, ready: Readiness, p: nat, q: nat)
    requires Rectangular(trips, |ready|) && p < |ready| && q < |ready|
    requires NonOvertaking(trips)
    requires Carried(w, trips, ready, p) >= 0
    ensures 0 <= Carried(w, trips, ready, p + 1) <= Carried(w, trips, ready, p)
    ensures NoLater(trips, |ready|, Carried(w, trips, ready, p + 1), Carried(w, trips, ready, p), q)
  {
    var c, c' := Carried(w, trips, ready, p), Carried(w, trips, ready, p + 1);
    if c < c' {
      InOrder(trips, |ready|, c, c', p);
      assert false;
    }
    InOrder(trips, |ready|, c', c, q);
  }

  /** A trip that leaves before the one being ridden, and can be caught, is never passed over. */
  lemma BoardsIt(w: World, trips: seq<TripStopTimes>, ready: Readiness, p: nat, i: int)
    requires Rectangular(trips, |ready|) && p < |ready|
    requires Catch(w, trips, ready, i, p)
    requires var c := Carried(w, trips, ready, p); c < 0 || trips[i].departures[p] < trips[c].departures[p]
    ensures 0 <= Carried(w, trips, ready, p + 1) <= i
  {
    var c := Carried(w, trips, ready, p);
    var mustBeat := if c >= 0 then Some(trips[c].departures[p]) else None;
    assert Catchable(w, trips[i], p, ready[p].value, mustBeat);
  }

  /** Without a harmful tie, a trip passed over at a tie arrives no earlier than the one ridden. */
  lemma TiePassedOver(w: World, trips: seq<TripStopTimes>, ready: Readiness, p: nat, i: int, q: nat)
    requires Rectangular(trips, |ready|) && p < q < |ready|
    requires NonOvertaking(trips) && !HarmfulTie(w, trips, |ready|)
    requires Catch(w, trips, ready, i, p)
    requires var c := Carried(w, trips, ready, p); c >= 0 && trips[c].departures[p] <= trips[i].departures[p]
    ensures trips[Carried(w, trips, ready, p)].arrivals[q] <= trips[i].arrivals[q]
  {
    var c := Carried(w, trips, ready, p);
    if c <= i {
      InOrder(trips, |ready|, c, i, q);
    } else {
      InOrder(trips, |ready|, i, c, p);
      CarriedIsBoarded(w, trips, ready, p);
      assert !Harms(w, trips, |ready|, i, c, BoardedAt(w, trips, ready, p), p, q);
    }
  }

  /** Without a harmful tie the carried trip is, from here on, no later than every trip that could have
      been boarded so far. */
  lemma {:induction false} CarriedIsOptimal(w: World, trips: seq<TripStopTimes>, ready: Readiness, pos: nat,
                                            i: int, p: nat, q: nat)
    requires Rectangular(trips, |ready|) && p < pos <= q < |ready|
    requires NonOvertaking(trips) && !HarmfulTie(w, trips, |ready|)
    requires Catch(w, trips, ready, i, p)
    ensures Carried(w, trips, ready, pos) >= 0
    ensures trips[Carried(w, trips, ready, pos)].arrivals[q] <= trips[i].arrivals[q]
    decreases pos
  {
    var c := Carried(w, trips, ready, pos - 1);
    if p < pos - 1 {
      CarriedIsOptimal(w, trips, ready, pos - 1, i, p, q);
      MovesForward(w, trips, ready, pos - 1, q);
    } else if c < 0 || trips[i].departures[p] < trips[c].departures[p] {
      BoardsIt(w, trips, ready, p, i);
      InOrder(trips, |ready|, Carried(w, trips, ready, pos), i, q);
    } else {
      TiePassedOver(w, trips, ready, p, i, q);
      MovesForward(w, trips, ready, p, q);
    }
  }

  lemma {:induction false} CarriedIdle(w: World, trips: seq<TripStopTimes>, ready: Readiness, a: nat, b: nat)
    requires Rectangular(trips, |ready|) && a <= b <= |ready|
    requires forall x :: a <= x < b ==> ready[x].None?
    ensures Carried(w, trips, ready, b) == Carried(w, trips, ready, a)
    decreases b
  {
    if a < b {
      CarriedIdle(w, trips, ready, a, b - 1);
    }
  }

  /** The labels on which a harmful tie misleads the scan: reachable just in time for `j` at `p1`, and
      just in time for both trips at `p2`. The scan stays on `j`. */
  lemma HarmfulTieMisleads(w: World, trips: seq<TripStopTimes>, n: nat, i: int, j: int, p1: int, p2: int, q: int)
    requires Rectangular(trips, n)
    requires Harms(w, trips, n, i, j, p1, p2, q)
    ensures exists ready: Readiness :: |ready| == n && !ScanOptimal(w, trips, ready, q)
  {
    var ready: Readiness := seq(n, x => if x == p1 then Some(trips[j].departures[p1])
                                        else if x == p2 then Some(trips[i].departures[p2]) else None);
    MisledScan(w, trips, ready, i, j, p1, p2, q);
  }

  lemma MisledScan(w: World, trips: seq<TripStopTimes>, ready: Readiness, i: int, j: int, p1: int, p2: int, q: int)
    requires Rectangular(trips, |ready|) && Harms(w, trips, |ready|, i, j, p1, p2, q)
    requires forall x :: 0 <= x < |ready| ==> ready[x] == if x == p1 then Some(trips[j].departures[p1])
                                                     else if x == p2 then Some(trips[i].departures[p2]) else None
    ensures !ScanOptimal(w, trips, ready, q)
  {
    CarriedIdle(w, trips, ready, 0, p1);
    PicksFirst(w, trips, ready, p1, j);
    CarriedIdle(w, trips, ready, p1 + 1, p2);
    StaysOnTie(w, trips, ready, p2);
    CarriedIdle(w, trips, ready, p2 + 1, q);
    assert Catch(w, trips, ready, i, p2);
  }

  lemma PicksFirst(w: World, trips: seq<TripStopTimes>, ready: Readiness, p: nat, j: int)
    requires Rectangular(trips, |ready|) && p < |ready| && 0 <= j < |trips|
    requires Carried(w, trips, ready, p) == -1
    requires FirstAt(w, trips, |ready|, j, p) && ready[p] == Some(trips[j].departures[p])
    ensures Carried(w, trips, ready, p + 1) == j
  {
    FirstCatchableIsFirst(w, trips, p, ready[p].value, None, j);
  }

  lemma StaysOnTie(w: World, trips: seq<TripStopTimes>, ready: Readiness, p: nat)
    requires Rectangular(trips, |ready|) && p < |ready|
    requires var c := Carried(w, trips, ready, p); c >= 0 && ready[p] == Some(trips[c].departures[p])
    ensures Carried(w, trips, ready, p + 1) == Carried(w, trips, ready, p)
  {
    var c := Carried(w, trips, ready, p);
    FirstCatchableIsFirst(w, trips, p, ready[p].value, Some(trips[c].departures[p]), -1);
  }

  /** Exactly when the single forward scan over an ordered route is right for every set of labels. */
  lemma ScanIsExact(w: World, trips: seq<TripStopTimes>, n: nat)
    requires Rectangular(trips, n)
    requires NonOvertaking(trips)
    ensures (forall ready: Readiness, q :: |ready| == n && 0 <= q < n ==> ScanOptimal(w, trips, ready, q))
            <==> !HarmfulTie(w, trips, n)
  {
    if HarmfulTie(w, trips, n) {
      var i, j, p1, p2, q :| Harms(w, trips, n, i, j, p1, p2, q);
      HarmfulTieMisleads(w, trips, n, i, j, p1, p2, q);
    } else {
      forall ready: Readiness, q, i, p | |ready| == n && 0 <= p < q < n && Catch(w, trips, ready, i, p)
        ensures Carried(w, trips, ready, q) >= 0
        ensures trips[Carried(w, trips, ready, q)].arrivals[q] <= trips[i].arrivals[q]
      {
        CarriedIsOptimal(w, trips, ready, q, i, p, q);
      }
    }
  }

  /** Distinct departures are enough, but not needed. */
  lemma DistinctDeparturesAreHarmless(w: World, trips: seq<TripStopTimes>, n: nat)
    requires Rectangular(trips, n)
    requires forall i, j, p :: 0 <= i < j < |trips| && 0 <= p < n ==> trips[i].departures[p] != trips[j].departures[p]
    ensures !HarmfulTie(w, trips, n)
  {
  }

  /** No ordered route of the timetable hides a harmful tie among the trips the query may use. */
  ghost predicate TiesHarmless(w: World)
    requires WellFormed(w.buf)
  {
    forall r :: 0 <= r < |w.buf.routes| && w.buf.IsFIFO(r) ==>
      Rectangular(w.buf.stopTimes[r], |w.buf.routes[r].stopIDs|)
      && !HarmfulTie(w, w.buf.stopTimes[r], |w.buf.routes[r].stopIDs|)
  }

  /** Routes of unknown order count as overtaking, so forgetting the flags keeps a buffer fit for the search and leaves
      no tie that could harm it. */
  lemma UnknownOrderIsSafe(w: World)
    requires WellFormed(w.buf)
    ensures var w' := w.(buf := w.buf.(routeFIFO := [])); WellFormed(w'.buf) && TiesHarmless(w')
  {
    var b' := w.buf.(routeFIFO := []);
    forall r, p | 0 <= r < |b'.routes| && 0 <= p < |b'.routes[r].stopIDs|
      ensures Indexed(b', r, p) && b'.routes[r].stopIDs[p] != ""
    {
      assert Indexed(w.buf, r, p);
    }
  }
}
