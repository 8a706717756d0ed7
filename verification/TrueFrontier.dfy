/** The answer of the search, measured against every itinerary there is: with no transfer buffer and a walk
    graph that is fully closed, it is the Pareto frontier of the timetable itself. */
module TrueFrontier {
  import opened Model
  import opened Reference
  import opened WalkGraph
  import opened Optimum
  import opened Answer

  /** Some unrestricted itinerary, with any number of walks in a row, arrives at `arrival` after `transfers`
      changes of vehicle. */
  ghost predicate Achievable(w: World, direct: Graph, arrival: int, transfers: int)
    requires WellFormed(w.buf)
  {
    exists plan :: Achieves(w, direct, plan, arrival, transfers)
  }

  ghost predicate Achieves(w: World, direct: Graph, plan: seq<Step>, arrival: int, transfers: int)
    requires WellFormed(w.buf)
  {
    && Vehicles(plan) <= w.params.Rounds()
    && Outcome(w, direct, plan) == Some((w.params.destination, arrival))
    && transfers == TransfersAt(Vehicles(plan))
  }

  /** No itinerary dominates this trade-off. */
  ghost predicate Unbeaten(w: World, direct: Graph, arrival: int, transfers: int)
    requires WellFormed(w.buf)
  {
    forall a, t :: Achievable(w, direct, a, t) ==> !PairDominates(a, t, arrival, transfers)
  }

  /** The conditions under which one walk pass per round loses nothing. */
  ghost predicate Unrestricted(w: World, direct: Graph)
    requires WellFormed(w.buf)
  {
    IsClosure(w.buf.footpaths, direct) && NonNegative(direct) && w.params.TransferBuffer() == 0
  }

  /** What an itinerary with `m` vehicles achieves, level `m` does at least as early. */
  lemma LevelMatches(w: World, direct: Graph, plan: seq<Step>, a: int, t: int)
    requires WellFormed(w.buf) && Unrestricted(w, direct)
    requires Achieves(w, direct, plan, a, t)
    ensures LevelArrival(w, Vehicles(plan)).Some? && LevelArrival(w, Vehicles(plan)).value <= a
  {
    LevelIsOptimal(w, direct, Vehicles(plan), w.params.destination);
    assert Possible(w, direct, Vehicles(plan), w.params.destination, a);
  }

  /** What level `k` says, some itinerary with at most `k` vehicles achieves. */
  lemma LevelIsAchieved(w: World, direct: Graph, k: nat) returns (m: nat, plan: seq<Step>)
    requires WellFormed(w.buf) && Unrestricted(w, direct)
    requires k <= w.params.Rounds() && LevelArrival(w, k).Some?
    ensures m == Vehicles(plan) <= k && Achieves(w, direct, plan, LevelArrival(w, k).value, TransfersAt(m))
  {
    LevelIsOptimal(w, direct, k, w.params.destination);
    plan :| Vehicles(plan) <= k
            && Outcome(w, direct, plan) == Some((w.params.destination, LevelArrival(w, k).value));
    m := Vehicles(plan);
  }

  lemma NonDominatedIsUnbeaten(w: World, direct: Graph, arrival: int, transfers: int)
    requires WellFormed(w.buf) && Unrestricted(w, direct)
    requires NonDominated(w, arrival, transfers)
    ensures Unbeaten(w, direct, arrival, transfers)
  {
    hide LevelArrival, WellFormed, Unrestricted;
    forall a, t | Achievable(w, direct, a, t)
      ensures !PairDominates(a, t, arrival, transfers)
    {
      var plan :| Achieves(w, direct, plan, a, t);
      LevelMatches(w, direct, plan, a, t);
    }
  }

  lemma UnbeatenIsNonDominated(w: World, direct: Graph, arrival: int, transfers: int)
    requires WellFormed(w.buf) && Unrestricted(w, direct)
    requires Unbeaten(w, direct, arrival, transfers)
    ensures NonDominated(w, arrival, transfers)
  {
    hide LevelArrival, WellFormed, Unrestricted, Achieves;
    forall j | 0 <= j <= w.params.Rounds() && LevelArrival(w, j).Some?
      ensures !PairDominates(LevelArrival(w, j).value, TransfersAt(j), arrival, transfers)
    {
      var m, plan := LevelIsAchieved(w, direct, j);
      assert Achievable(w, direct, LevelArrival(w, j).value, TransfersAt(m));
    }
  }

  /** A journey of the answer is the best of all itineraries: its trade-off can be achieved, and cannot be
      beaten. */
  lemma AnswersAreBest(w: World, direct: Graph, k: nat, arrival: int, transfers: int)
    requires WellFormed(w.buf) && Unrestricted(w, direct)
    requires k <= w.params.Rounds() && LevelArrival(w, k) == Some(arrival) && transfers == TransfersAt(k)
    requires NonDominated(w, arrival, transfers)
    ensures Achievable(w, direct, arrival, transfers) && Unbeaten(w, direct, arrival, transfers)
  {
    hide WellFormed, Unrestricted;
    NonDominatedIsUnbeaten(w, direct, arrival, transfers);
    var m, plan := LevelIsAchieved(w, direct, k);
    LevelMatches(w, direct, plan, arrival, TransfersAt(m));
    assert !PairDominates(LevelArrival(w, m).value, TransfersAt(m), arrival, transfers);
    assert TransfersAt(m) == transfers;
  }

  /** A trade-off that can be achieved and not beaten is the trade-off of some level, and not dominated. */
  lemma BestIsALevel(w: World, direct: Graph, arrival: int, transfers: int) returns (k: nat)
    requires WellFormed(w.buf) && Unrestricted(w, direct)
    requires Achievable(w, direct, arrival, transfers) && Unbeaten(w, direct, arrival, transfers)
    ensures k <= w.params.Rounds() && LevelArrival(w, k) == Some(arrival) && TransfersAt(k) == transfers
    ensures NonDominated(w, arrival, transfers)
  {
    hide WellFormed, Unrestricted;
    var plan :| Achieves(w, direct, plan, arrival, transfers);
    k := Vehicles(plan);
    LevelMatches(w, direct, plan, arrival, transfers);
    UnbeatenIsNonDominated(w, direct, arrival, transfers);
    assert !PairDominates(LevelArrival(w, k).value, TransfersAt(k), arrival, transfers);
  }

  /** The answer is exactly the Pareto frontier over all itineraries within the round limit. */
  lemma AnswerIsTrueFrontier(w: World, direct: Graph, paths: seq<Path>)
    requires WellFormed(w.buf) && Unrestricted(w, direct) && IsAnswer(w, paths)
    ensures forall p :: p in paths ==>
              Achievable(w, direct, p.arrival, p.transfers) && Unbeaten(w, direct, p.arrival, p.transfers)
    ensures forall a, t :: Achievable(w, direct, a, t) && Unbeaten(w, direct, a, t) ==>
              exists p :: p in paths && p.arrival == a && p.transfers == t
  {
    hide WellFormed, Unrestricted, NonDominated, Unbeaten, Achievable, LevelArrival, Serves;
    forall p | p in paths
      ensures Achievable(w, direct, p.arrival, p.transfers) && Unbeaten(w, direct, p.arrival, p.transfers)
    {
      var k :| 0 <= k <= w.params.Rounds() && Serves(w, k, p);
      ServedPair(w, k, p);
      AnswersAreBest(w, direct, k, p.arrival, p.transfers);
    }
    forall a, t | Achievable(w, direct, a, t) && Unbeaten(w, direct, a, t)
      ensures exists p :: p in paths && p.arrival == a && p.transfers == t
    {
      var k := BestIsALevel(w, direct, a, t);
      assert NonDominated(w, LevelArrival(w, k).value, TransfersAt(k));
    }
  }
}
