/** What a passenger may rely on in a journey of the answer, said of the query's own fields and the journey's own
    times. */
module JourneyFacts {
  import opened Model
  import opened Journeys
  import opened Answer

  // ---- Seats -------------------------------------------------------------------------------------

  /** The number of seats of a class; a class that is not listed has none. */
  predicate Shows(byClass: map<string, int>, seatClass: string, n: int) {
    (seatClass in byClass ==> n == byClass[seatClass]) && (seatClass !in byClass ==> n == 0)
  }

  /** Nothing current is known of the trip, or enough seats for everyone. */
  ghost predicate HasSeats(w: World, key: TripKey) {
    || key !in w.signals || w.signals[key].stale
    || exists n :: Shows(w.signals[key].byClass, w.params.seatClass, n) && n >= w.params.passengers
  }

  /** A trip is refused exactly when it runs on another day, or a current signal shows too few seats. */
  lemma UsableExactly(w: World, key: TripKey)
    ensures TripUsable(w, key) <==> key.date in w.allowed && HasSeats(w, key)
  {
    if key in w.signals && !w.signals[key].stale {
      var m := w.signals[key].byClass;
      var n := if w.params.seatClass in m then m[w.params.seatClass] else 0;
      assert Shows(m, w.params.seatClass, n);
    }
  }

  /** Everyone can be seated on every vehicle of a journey, as far as is known, on a day the query allows. */
  lemma EveryoneIsSeated(w: World, p: Path, leg: Leg)
    requires WellFormed(w.buf) && Sound(w, p) && leg in p.legs && leg.kind.Transit?
    ensures leg.tripKey.date in w.allowed && HasSeats(w, leg.tripKey)
  {
    hide WellFormed, HasSeats;
    var i :| 0 <= i < |p.legs| && p.legs[i] == leg;
    var ri, t, x, y :| IsRideOf(w, leg, ri, t, x, y);
    UsableExactly(w, leg.tripKey);
  }

  // ---- Changes -----------------------------------------------------------------------------------

  /** Each leg waits for the one before, and a vehicle boarded straight off another by the minimum transfer time. */
  lemma ChangesAreKept(w: World, p: Path, i: int, j: int)
    requires WellFormed(w.buf) && Sound(w, p) && 0 <= i && j == i + 1 < |p.legs|
    ensures p.legs[i].alightStation == p.legs[j].boardStation && p.legs[i].arrival <= p.legs[j].departure
    ensures p.legs[i].kind.Transit? && p.legs[j].kind.Transit? ==>
              p.legs[i].arrival + w.params.minTransferSeconds <= p.legs[j].departure
  {
    assert Joins(w, p.legs[i], p.legs[j]);
  }

  /** Vehicles, changes, and the limit on them: what was asked for between one and eight, four unless asked. */
  lemma VehiclesAreLimited(w: World, p: Path)
    requires WellFormed(w.buf) && Sound(w, p)
    ensures TransitLegs(p.legs) <= 8
    ensures w.params.maxRounds > 0 ==> TransitLegs(p.legs) <= w.params.maxRounds
    ensures w.params.maxRounds <= 0 ==> TransitLegs(p.legs) <= 4
    ensures TransitLegs(p.legs) > 0 ==> p.transfers == TransitLegs(p.legs) - 1
    ensures TransitLegs(p.legs) == 0 ==> p.transfers == 0
  {
  }

  // ---- Times -------------------------------------------------------------------------------------

  lemma {:induction false} CountsAdd(a: seq<Leg>, b: seq<Leg>)
    ensures TransitLegs(a + b) == TransitLegs(a) + TransitLegs(b)
    ensures WalkTime(a + b) == WalkTime(a) + WalkTime(b)
    decreases |b|
  {
    if b == [] {
      assert a + b == a;
    } else {
      var n := |b| - 1;
      assert (a + b)[..|a| + n] == a + b[..n];
      CountsAdd(a, b[..n]);
    }
  }

  /** A vehicle counts as one and walks nothing; a walk takes what its footpath says. */
  lemma OneLegCounts(w: World, leg: Leg)
    requires WellFormed(w.buf) && RealLeg(w, leg)
    ensures leg.kind.Transit? ==> TransitLegs([leg]) == 1 && WalkTime([leg]) == 0
    ensures leg.kind.Walk? ==> TransitLegs([leg]) == 0 && WalkTime([leg]) >= 0
    ensures leg.kind.Walk? ==> Footpath(leg.alightStation, WalkTime([leg])) in w.buf.Walks(leg.boardStation)
  {
    assert [leg][..0] == [];
    assert TransitLegs([]) == 0 && WalkTime([]) == 0;
    hide TripWellFormed, Indexed, NonOvertaking;
    if leg.kind.Walk? {
      var i :| IsWalkOf(w, leg, i);
      assert w.buf.footpaths[leg.boardStation][i].walkSeconds >= 0;
    }
  }

  /** Walking never takes longer than the journey up to there. */
  lemma {:induction false} WalkingFits(w: World, legs: seq<Leg>, i: nat)
    requires WellFormed(w.buf) && Itinerary(w, legs) && 0 < i <= |legs|
    ensures 0 <= WalkTime(legs[..i]) <= legs[i - 1].arrival - legs[0].departure
  {
    hide WellFormed, RealLeg, WalkTime, TransitLegs;
    var leg := legs[i - 1];
    assert legs[..i] == legs[..i - 1] + [leg];
    CountsAdd(legs[..i - 1], [leg]);
    LegFits(w, leg);
    if i > 1 {
      WalkingFits(w, legs, i - 1);
      assert Joins(w, legs[i - 2], leg);
    } else {
      assert legs[..0] == [];
      NoWalkYet();
    }
  }

  lemma NoWalkYet()
    ensures WalkTime([]) == 0
  {
  }

  lemma LegFits(w: World, leg: Leg)
    requires WellFormed(w.buf) && RealLeg(w, leg)
    ensures 0 <= WalkTime([leg]) <= leg.arrival - leg.departure
  {
    RealLegsMoveForward(w, leg);
    assert [leg][..0] == [];
    assert WalkTime([]) == 0;
  }

  /** What the summary of a journey says of its times. */
  lemma TimesAreRight(w: World, p: Path)
    requires WellFormed(w.buf) && Sound(w, p)
    ensures p.departure == p.legs[0].departure && p.arrival == p.legs[|p.legs| - 1].arrival
    ensures w.params.depTime + p.waitSeconds + p.totalTimeSeconds == p.arrival && p.waitSeconds >= 0
    ensures 0 <= p.walkSeconds <= p.totalTimeSeconds
  {
    hide WellFormed, RealLeg;
    WalkingFits(w, p.legs, |p.legs|);
    assert p.legs[..|p.legs|] == p.legs;
  }

  // ---- The check before a journey is served ------------------------------------------------------

  /** Legs that start and end where asked, join up, and move forwards in time. */
  ghost predicate Coherent(legs: seq<Leg>, params: SearchParams) {
    && |legs| > 0
    && legs[0].boardStation == params.origin && legs[|legs| - 1].alightStation == params.destination
    && params.depTime <= legs[0].departure
    && (forall i :: 0 <= i < |legs| ==> legs[i].departure <= legs[i].arrival)
    && (forall i :: 0 <= i < |legs| && legs[i].tripKey.tripID == "" ==> legs[i].kind.Walk?)
    && (forall i, j :: 0 <= i && j == i + 1 < |legs| ==>
          legs[i].alightStation == legs[j].boardStation && legs[i].arrival <= legs[j].departure)
  }

  /** The check lets through exactly what is coherent. */
  lemma CheckIsExact(legs: seq<Leg>, params: SearchParams)
    ensures ValidatePath(legs, params).None? <==> Coherent(legs, params)
  {
    if ValidatePath(legs, params).None? {
      forall i | 0 <= i < |legs|
        ensures legs[i].departure <= legs[i].arrival && (legs[i].tripKey.tripID == "" ==> legs[i].kind.Walk?)
      {
        assert LegError(legs, i).None?;
      }
      forall i, j | 0 <= i && j == i + 1 < |legs|
        ensures legs[i].alightStation == legs[j].boardStation && legs[i].arrival <= legs[j].departure
      {
        assert LegError(legs, j).None?;
      }
    }
    if Coherent(legs, params) {
      forall j | 0 <= j < |legs|
        ensures LegError(legs, j).None?
      {
        if j > 0 {
          var i := j - 1;
          assert legs[i].alightStation == legs[j].boardStation;
        }
      }
    }
  }
}
