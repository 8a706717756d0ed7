/** What the answer is worth when a transfer buffer is owed. Levels are beaten only by journeys that take advantage of a
    walk to owe none: a journey that leaves the buffer before every vehicle but its first, however it got there, is
    matched by its level, and by the answer of the search. */
module Unhurried {
  import opened Model
  import opened Reference
  import opened Fifo
  import opened Journeys
  import opened WalkGraph
  import opened Optimum
  import opened Answer
  import opened Traces
  import opened Engine

  /** Leg `b` can follow leg `a`; once a vehicle has been boarded, a later one leaves the minimum transfer time after
      whatever comes before it, a ride or a walk. */
  predicate Follows(w: World, ridden: bool, a: Leg, b: Leg) {
    && a.alightStation == b.boardStation && a.arrival <= b.departure
    && (ridden && b.kind.Transit? ==> a.arrival + w.params.minTransferSeconds <= b.departure)
  }

  /** A real journey that takes its time, with any number of walks in a row. */
  ghost predicate TakesTime(w: World, legs: seq<Leg>)
    requires WellFormed(w.buf)
  {
    && |legs| > 0
    && legs[0].boardStation == w.params.origin && legs[|legs| - 1].alightStation == w.params.destination
    && legs[0].departure >= w.params.depTime
    && (forall i :: 0 <= i < |legs| ==> RealLeg(w, legs[i]))
    && (forall i, j :: 0 <= i && j == i + 1 < |legs| ==> Follows(w, TransitLegs(legs[..j]) > 0, legs[i], legs[j]))
  }

  // ---- The levels --------------------------------------------------------------------------------

  /** Before any vehicle nobody owes a buffer. */
  lemma OnFootAtStart(w: World, s: string)
    requires WellFormed(w.buf) && s in Level(w, 0)
    ensures !Level(w, 0)[s].vehicle
  {
    var start := map[w.params.origin := Label(w.params.depTime, false)];
    MergeMeaning(start, WalkOffers(w, start, {w.params.origin}), false);
  }

  lemma RideAfterBuffer(w: World, k: nat, u: string, at: int, r: int, t: int, p: int, q: int)
    requires WellFormed(w.buf) && Covered(Level(w, k), u, at) && CanRide(w, u, at, r, t, p, q)
    requires k > 0 ==> at + w.params.minTransferSeconds <= w.buf.stopTimes[r][t].departures[p]
    ensures Covered(Level(w, k + 1), w.buf.routes[r].stopIDs[q], w.buf.stopTimes[r][t].arrivals[q])
  {
    hide WellFormed, Level;
    if k == 0 {
      OnFootAtStart(w, u);
    }
    OfferedIsCovered(w, k, r, t, p, q);
  }

  lemma LegAfterBuffer(w: World, direct: Graph, leg: Leg, k: nat, at: int)
    requires WellFormed(w.buf) && IsClosure(w.buf.footpaths, direct)
    requires RealLeg(w, leg) && Covered(Level(w, k), leg.boardStation, at) && at <= leg.departure
    requires k > 0 && leg.kind.Transit? ==> at + w.params.minTransferSeconds <= leg.departure
    ensures Covered(Level(w, if leg.kind.Transit? then k + 1 else k), leg.alightStation, leg.arrival)
  {
    hide IsClosure, WellFormed, Level;
    if leg.kind.Transit? {
      var ri, t, p, q :| IsRideOf(w, leg, ri, t, p, q);
      RideAfterBuffer(w, k, leg.boardStation, at, ri, t, p, q);
    } else {
      var i :| IsWalkOf(w, leg, i);
      LevelIsWalkClosed(w, direct, k, leg.boardStation, i);
    }
  }

  /** After `i` legs the level of the vehicles boarded so far has their end no later. */
  lemma {:induction false} PrefixIsCovered(w: World, direct: Graph, legs: seq<Leg>, i: nat)
    requires WellFormed(w.buf) && IsClosure(w.buf.footpaths, direct) && TakesTime(w, legs) && 0 < i <= |legs|
    ensures Covered(Level(w, TransitLegs(legs[..i])), legs[i - 1].alightStation, legs[i - 1].arrival)
  {
    hide IsClosure, WellFormed, Level, RealLeg, TransitLegs;
    var leg, k := legs[i - 1], TransitLegs(legs[..i - 1]);
    OneMoreLeg(legs, i);
    if i == 1 {
      assert legs[..0] == [];
      NoVehicleYet();
      OriginIsCovered(w, k);
      LegAfterBuffer(w, direct, leg, k, w.params.depTime);
    } else {
      PrefixIsCovered(w, direct, legs, i - 1);
      assert Follows(w, TransitLegs(legs[..i - 1]) > 0, legs[i - 2], legs[i - 1]);
      LegAfterBuffer(w, direct, leg, k, legs[i - 2].arrival);
    }
  }

  lemma NoVehicleYet()
    ensures TransitLegs([]) == 0
  {
  }

  /** Whatever the buffer, no journey that takes its time comes before the level of its number of vehicles. */
  lemma LevelKeepsUp(w: World, direct: Graph, legs: seq<Leg>)
    requires WellFormed(w.buf) && IsClosure(w.buf.footpaths, direct) && TakesTime(w, legs)
    ensures Covered(Level(w, TransitLegs(legs)), w.params.destination, legs[|legs| - 1].arrival)
  {
    hide IsClosure, WellFormed, Level, RealLeg, TransitLegs;
    PrefixIsCovered(w, direct, legs, |legs|);
    assert legs[..|legs|] == legs;
  }

  // ---- The answer --------------------------------------------------------------------------------

  /** Some journey of the answer arrives no later with no more changes, or the answer was cut short before. */
  ghost predicate KeptUpWith(topK: int, paths: seq<Path>, arrival: int, vehicles: nat) {
    || StopShort(topK, paths, arrival)
    || exists p: Path :: p in paths && p.arrival <= arrival && p.transfers <= if vehicles > 0 then vehicles - 1 else 0
  }

  /** Every journey within the round limit that takes its time is kept up with. */
  ghost predicate KeepsUp(w: World, topK: int, paths: seq<Path>)
    requires WellFormed(w.buf)
  {
    forall legs: seq<Leg> :: TakesTime(w, legs) && TransitLegs(legs) <= w.params.Rounds() ==>
      KeptUpWith(topK, paths, legs[|legs| - 1].arrival, TransitLegs(legs))
  }

  /** How many of the first two levels, which change vehicles equally often, arrive before `a`. */
  ghost function EarlierLevels(w: World, a: int): nat
    requires WellFormed(w.buf)
  {
    (if LevelArrival(w, 0).Some? && LevelArrival(w, 0).value < a then 1 else 0)
    + if LevelArrival(w, 1).Some? && LevelArrival(w, 1).value < a then 1 else 0
  }

  lemma BestOrBeaten(w: World, k: nat) returns (j: nat)
    requires WellFormed(w.buf) && LevelArrival(w, k).Some?
    ensures NonDominated(w, LevelArrival(w, k).value, TransfersAt(k))
         || (j <= w.params.Rounds() && LevelArrival(w, j).Some?
             && PairDominates(LevelArrival(w, j).value, TransfersAt(j), LevelArrival(w, k).value, TransfersAt(k)))
  {
    hide WellFormed, LevelArrival;
    if NonDominated(w, LevelArrival(w, k).value, TransfersAt(k)) {
      j := 0;
    } else {
      var i :| 0 <= i <= w.params.Rounds() && LevelArrival(w, i).Some?
               && PairDominates(LevelArrival(w, i).value, TransfersAt(i), LevelArrival(w, k).value, TransfersAt(k));
      j := i;
    }
  }

  lemma FewerEarlier(w: World, j: nat, k: nat)
    requires WellFormed(w.buf) && LevelArrival(w, j).Some? && LevelArrival(w, k).Some?
    requires LevelArrival(w, j).value < LevelArrival(w, k).value && TransfersAt(j) == TransfersAt(k)
    ensures EarlierLevels(w, LevelArrival(w, j).value) < EarlierLevels(w, LevelArrival(w, k).value)
  {
    hide WellFormed, LevelArrival;
  }

  lemma BestIsKeptUpWith(w: World, topK: int, paths: seq<Path>, k: nat)
    requires WellFormed(w.buf) && IsEarliest(w, topK, paths) && k <= w.params.Rounds() && LevelArrival(w, k).Some?
    requires NonDominated(w, LevelArrival(w, k).value, TransfersAt(k))
    ensures KeptUpWith(topK, paths, LevelArrival(w, k).value, k)
  {
    hide WellFormed, LevelArrival, NonDominated, Serves, StopShort;
  }

  /** A level is kept up with: nothing dominates it, or what does is kept up with. */
  lemma {:induction false} LevelIsKeptUpWith(w: World, topK: int, paths: seq<Path>, k: nat)
    requires WellFormed(w.buf) && IsEarliest(w, topK, paths)
    requires k <= w.params.Rounds() && LevelArrival(w, k).Some?
    ensures KeptUpWith(topK, paths, LevelArrival(w, k).value, k)
    decreases TransfersAt(k), EarlierLevels(w, LevelArrival(w, k).value)
  {
    hide WellFormed, LevelArrival, NonDominated, IsEarliest, KeptUpWith, EarlierLevels;
    var j := BestOrBeaten(w, k);
    if NonDominated(w, LevelArrival(w, k).value, TransfersAt(k)) {
      BestIsKeptUpWith(w, topK, paths, k);
    } else {
      if TransfersAt(j) == TransfersAt(k) {
        FewerEarlier(w, j, k);
      }
      LevelIsKeptUpWith(w, topK, paths, j);
      LaterIsKeptUpWith(topK, paths, LevelArrival(w, j).value, j, LevelArrival(w, k).value, k);
    }
  }

  lemma LaterIsKeptUpWith(topK: int, paths: seq<Path>, a: int, j: nat, b: int, k: nat)
    requires KeptUpWith(topK, paths, a, j) && a <= b && TransfersAt(j) <= TransfersAt(k)
    ensures KeptUpWith(topK, paths, b, k)
  {
  }

  lemma JourneyIsKeptUpWith(w: World, direct: Graph, topK: int, paths: seq<Path>, legs: seq<Leg>)
    requires WellFormed(w.buf) && IsClosure(w.buf.footpaths, direct) && IsEarliest(w, topK, paths)
    requires TakesTime(w, legs) && TransitLegs(legs) <= w.params.Rounds()
    ensures KeptUpWith(topK, paths, legs[|legs| - 1].arrival, TransitLegs(legs))
  {
    LevelKeepsUp(w, direct, legs);
    hide WellFormed, IsClosure, IsEarliest, KeptUpWith, TransitLegs, RealLeg, Level;
    var k := TransitLegs(legs);
    LevelIsKeptUpWith(w, topK, paths, k);
    LaterIsKeptUpWith(topK, paths, LevelArrival(w, k).value, k, legs[|legs| - 1].arrival, k);
  }

  /** Whatever the buffer, the answer keeps up with every journey that takes its time. */
  lemma AnswerKeepsUp(w: World, direct: Graph, topK: int, paths: seq<Path>)
    requires WellFormed(w.buf) && IsClosure(w.buf.footpaths, direct) && IsEarliest(w, topK, paths)
    ensures KeepsUp(w, topK, paths)
  {
    hide WellFormed, IsClosure, RealLeg, IsEarliest, KeptUpWith, TransitLegs;
    forall legs: seq<Leg> | TakesTime(w, legs) && TransitLegs(legs) <= w.params.Rounds()
      ensures KeptUpWith(topK, paths, legs[|legs| - 1].arrival, TransitLegs(legs))
    {
      JourneyIsKeptUpWith(w, direct, topK, paths, legs);
    }
  }

  /** The search over a closed walk graph keeps up with every journey that takes its time, whatever the buffer and in
      whatever order it scans. */
  method SearchKeepsUp(w: World, ghost direct: Graph, topK: int, orders: Orders) returns (paths: seq<Path>)
    requires WellFormed(w.buf) && IsClosure(w.buf.footpaths, direct) && orders.Complete()
    ensures forall p :: p in paths ==> Sound(w, p)
    ensures !Degenerate(w) && TiesHarmless(w) && CleanIDs(w) ==> KeepsUp(w, topK, paths)
  {
    hide WellFormed, IsClosure, Sound, TiesHarmless, CleanIDs, IsTopK, IsEarliest, OfRun, OfFirsts, KeepsUp;
    paths := SearchInOrder(w, topK, orders);
    if !Degenerate(w) && TiesHarmless(w) && CleanIDs(w) {
      AnswerKeepsUp(w, direct, topK, paths);
    }
  }
}
