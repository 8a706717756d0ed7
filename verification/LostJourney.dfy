/** What colliding names cost a search: on the colliding query every run yields the same two journeys, and the answer
    keeps only the slower one. */
module LostJourney {
  import opened Model
  import opened Journeys
  import opened Fifo
  import opened Frontier
  import opened Answer
  import opened Collisions
  import opened Traces
  import opened Engine

  predicate NetWalk(n: Net, leg: Leg) {
    var walk := n.SlowLegs()[1];
    leg == walk.(departure := leg.departure, arrival := leg.departure + 10)
  }

  /** The only legs there are. */
  predicate NetLeg(n: Net, leg: Leg) {
    leg == n.SlowLegs()[0] || leg == n.FastLegs()[0] || leg == n.FastLegs()[1] || NetWalk(n, leg)
  }

  lemma RealIsNetLeg(n: Net, leg: Leg)
    requires n.Named() && WellFormed(n.Query().buf) && RealLeg(n.Query(), leg)
    ensures NetLeg(n, leg)
  {
    hide WellFormed;
    if leg.kind.Transit? {
      var ri, t, p, q :| IsRideOf(n.Query(), leg, ri, t, p, q);
      assert t == 0 && p == 0 && q == 1;
    } else {
      var i :| IsWalkOf(n.Query(), leg, i);
      assert leg.boardStation == n.a && i == 0;
    }
  }

  lemma Continues(n: Net, leg: Leg, next: Leg)
    requires n.Named() && NetLeg(n, leg) && NetLeg(n, next) && Joins(n.Query(), leg, next)
    ensures leg.alightStation != n.d
    ensures leg == n.SlowLegs()[0] ==> NetWalk(n, next)
    ensures leg == n.FastLegs()[0] ==> next == n.FastLegs()[1]
  {
  }

  lemma NetItinerary(n: Net, legs: seq<Leg>)
    requires n.Named() && WellFormed(n.Query().buf) && Itinerary(n.Query(), legs)
    ensures legs == n.FastLegs() || (|legs| == 2 && legs[0] == n.SlowLegs()[0] && NetWalk(n, legs[1]))
  {
    var w := n.Query();
    RealIsNetLeg(n, legs[0]);
    assert legs[0] == n.SlowLegs()[0] || legs[0] == n.FastLegs()[0];
    assert |legs| > 1;
    assert Joins(w, legs[0], legs[1]);
    RealIsNetLeg(n, legs[1]);
    hide WellFormed, Joins, RealLeg, NetLeg;
    Continues(n, legs[0], legs[1]);
    if |legs| > 2 {
      GoesOn(n, legs);
    }
  }

  lemma GoesOn(n: Net, legs: seq<Leg>)
    requires n.Named() && WellFormed(n.Query().buf) && |legs| > 2 && Itinerary(n.Query(), legs) && NetLeg(n, legs[1])
    ensures legs[1].alightStation != n.d
  {
    hide WellFormed, RealLeg, NetLeg, Joins;
    assert Joins(n.Query(), legs[1], legs[2]);
    RealIsNetLeg(n, legs[2]);
    Continues(n, legs[1], legs[2]);
  }

  /** One journey serves each level. */
  lemma OneServes(n: Net, k: nat, p: Path)
    requires n.Named() && WellFormed(n.Query().buf) && k <= 2 && Serves(n.Query(), k, p)
    ensures k > 0 && p == if k == 1 then Slow(n) else Fast(n)
  {
    hide WellFormed, LevelArrival, Itinerary;
    NetLevels(n);
    NetItinerary(n, p.legs);
    CountTwo(p.legs);
    if k == 1 {
      assert p.legs == n.SlowLegs();
    }
  }

  /** Whatever the rounds of this query yield, it is these two journeys. */
  lemma OnlyTheseAreCollected(n: Net, out: seq<Path>)
    requires n.Named() && WellFormed(n.Query().buf) && CollectedBefore(n.Query(), n.Query().params.Rounds() + 1, out)
    ensures out == [Slow(n), Fast(n)]
  {
    hide WellFormed, LevelArrival, Serves;
    var w := n.Query();
    var ks :| Collected(w, 3, ks, out);
    NetLevels(n);
    forall i | 0 <= i < |ks|
      ensures 0 < ks[i] <= 2 && out[i] == if ks[i] == 1 then Slow(n) else Fast(n)
    {
      OneServes(n, ks[i], out[i]);
    }
    assert Matched(ks, out, 1, 100) && Matched(ks, out, 2, 50);
    var i :| 0 <= i < |ks| && ks[i] <= 1 && out[i].arrival == 100;
    var j :| 0 <= j < |ks| && ks[j] <= 2 && out[j].arrival == 50;
    assert i < j;
    BetweenOneAndTwo(ks, i, j);
  }

  lemma BetweenOneAndTwo(ks: seq<nat>, i: nat, j: nat)
    requires i < j < |ks| && ks[i] == 1 && ks[j] == 2
    requires forall x :: 0 <= x < |ks| ==> 0 < ks[x] <= 2
    requires forall x, y :: 0 <= x < y < |ks| ==> ks[x] < ks[y]
    ensures |ks| == 2 && i == 0 && j == 1
  {
    Once(ks, 0, if ks[0] == 1 then i else j);
    Once(ks, i + 1, if ks[i + 1] == 1 then i else j);
    Once(ks, |ks| - 1, if ks[|ks| - 1] == 1 then i else j);
  }

  lemma Once(ks: seq<nat>, x: int, y: int)
    requires 0 <= x < |ks| && 0 <= y < |ks| && ks[x] == ks[y]
    requires forall a, b :: 0 <= a < b < |ks| ==> ks[a] < ks[b]
    ensures x == y
  {
  }

  lemma AnswerIsSlow(paths: seq<Path>)
    requires WellFormed(COLLIDING.Query().buf) && OfFirsts(COLLIDING.Query(), paths)
    ensures forall p :: p in paths ==> p == Slow(COLLIDING)
  {
    hide WellFormed, CollectedBefore, TiesHarmless, NamesUse, Firsts;
    CollidingNames();
    DeduplicationLosesJourney();
    var w := COLLIDING.Query();
    var out :| CollectedBefore(w, w.params.Rounds() + 1, out) && AmongFirsts(out, paths);
    OnlyTheseAreCollected(COLLIDING, out);
  }

  /** The search loses the journey that arrives at 50, which nothing dominates: whatever the order of scanning, it
      returns the one that arrives at 100 and no other. */
  method SearchLosesJourney(topK: int, orders: Orders) returns (paths: seq<Path>)
    requires orders.Complete()
    ensures WellFormed(COLLIDING.Query().buf) && TiesHarmless(COLLIDING.Query())
    ensures LevelArrival(COLLIDING.Query(), 2) == Some(50) && NonDominated(COLLIDING.Query(), 50, TransfersAt(2))
    ensures forall p :: p in paths ==> p == Slow(COLLIDING) && p.arrival == 100
  {
    NetIsWellFormed(COLLIDING);
    CollidingNames();
    NothingDominates(COLLIDING);
    hide WellFormed, TiesHarmless, OfFirsts, OfRun, IsTopK, CleanIDs, Sound, LevelArrival, NonDominated;
    paths := SearchInOrder(COLLIDING.Query(), topK, orders);
    AnswerIsSlow(paths);
  }

  lemma NothingDominates(n: Net)
    requires n.Named() && WellFormed(n.Query().buf)
    ensures LevelArrival(n.Query(), 2) == Some(50) && NonDominated(n.Query(), 50, TransfersAt(2))
  {
    hide WellFormed, LevelArrival;
    NetLevels(n);
  }
}
