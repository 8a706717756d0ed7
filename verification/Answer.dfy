/** What a search promises: one real journey for each non-dominated trade-off between arrival and
    transfers, judged by the naive levels. */
module Answer {
  import opened Model
  import opened Ordering
  import opened Reference
  import opened Journeys
  import opened Fingerprints
  import opened Frontier

  /** The naive router's arrival at the destination with at most `k` vehicles. */
  ghost function LevelArrival(w: World, k: nat): Option<int>
    requires WellFormed(w.buf)
  {
    var l := Level(w, k);
    if w.params.destination in l then Some(l[w.params.destination].time) else None
  }

  function TransfersAt(k: nat): nat {
    if k == 0 then 0 else k - 1
  }

  /** No level within the round limit does better on one count and no worse on the other. */
  ghost predicate NonDominated(w: World, arrival: int, transfers: int)
    requires WellFormed(w.buf)
  {
    forall j :: 0 <= j <= w.params.Rounds() && LevelArrival(w, j).Some? ==>
      !PairDominates(LevelArrival(w, j).value, TransfersAt(j), arrival, transfers)
  }

  /** The summary fields say what the legs say. */
  ghost predicate Summarises(w: World, p: Path)
    requires |p.legs| > 0
  {
    && p.departure == p.legs[0].departure && p.arrival == p.legs[|p.legs| - 1].arrival
    && p.totalTimeSeconds == p.arrival - p.departure && p.waitSeconds == p.departure - w.params.depTime
    && p.walkSeconds == WalkTime(p.legs)
    && p.transfers == (if TransitLegs(p.legs) > 0 then TransitLegs(p.legs) - 1 else 0)
  }

  /** Journey `p` is real, its summary fields say what its legs say, and it rides at most as many vehicles as the
      round it was found in. */
  ghost predicate Sound(w: World, p: Path)
    requires WellFormed(w.buf)
  {
    Itinerary(w, p.legs) && Summarises(w, p) && TransitLegs(p.legs) <= p.rounds <= w.params.Rounds()
  }

  /** Journey `p` is real, and is the naive router's best with at most `k` vehicles; it uses exactly `k`. */
  ghost predicate Serves(w: World, k: nat, p: Path)
    requires WellFormed(w.buf)
  {
    && Itinerary(w, p.legs) && Summarises(w, p)
    && p.rounds == k && TransitLegs(p.legs) == k
    && LevelArrival(w, k) == Some(p.arrival)
  }

  /** The full answer: exactly the non-dominated trade-offs, each by one real journey, the earliest first. */
  ghost predicate IsAnswer(w: World, paths: seq<Path>)
    requires WellFormed(w.buf)
  {
    && (forall p :: p in paths ==>
          NonDominated(w, p.arrival, p.transfers) && exists k :: 0 <= k <= w.params.Rounds() && Serves(w, k, p))
    && (forall k :: 0 <= k <= w.params.Rounds() && LevelArrival(w, k).Some?
                    && NonDominated(w, LevelArrival(w, k).value, TransfersAt(k)) ==>
          exists p :: p in paths && p.arrival == LevelArrival(w, k).value && p.transfers == TransfersAt(k))
    && StrictTradeOff(paths)
  }

  function Cut(paths: seq<Path>, topK: int): seq<Path> {
    if topK > 0 && |paths| > topK then paths[..topK] else paths
  }

  /** The first `topK` of the full answer. */
  ghost predicate IsTopK(w: World, topK: int, paths: seq<Path>)
    requires WellFormed(w.buf)
  {
    exists full :: IsAnswer(w, full) && paths == Cut(full, topK)
  }

  /** The journeys stop short of `arrival`: as many as asked for, each strictly earlier. */
  predicate StopShort(topK: int, paths: seq<Path>, arrival: int) {
    topK > 0 && |paths| == topK && forall p :: p in paths ==> p.arrival < arrival
  }

  /** The earliest non-dominated trade-offs, in order, as many as asked for: what is left out comes later than
      everything returned. */
  ghost predicate IsEarliest(w: World, topK: int, paths: seq<Path>)
    requires WellFormed(w.buf)
  {
    && (forall p :: p in paths ==>
          NonDominated(w, p.arrival, p.transfers) && exists k :: 0 <= k <= w.params.Rounds() && Serves(w, k, p))
    && (forall k :: 0 <= k <= w.params.Rounds() && LevelArrival(w, k).Some?
                    && NonDominated(w, LevelArrival(w, k).value, TransfersAt(k)) ==>
          || StopShort(topK, paths, LevelArrival(w, k).value)
          || exists p :: p in paths && p.arrival == LevelArrival(w, k).value && p.transfers == TransfersAt(k))
    && StrictTradeOff(paths) && (topK > 0 ==> |paths| <= topK)
  }

  lemma CutKeepsEarliest(full: seq<Path>, topK: int)
    requires StrictTradeOff(full)
    ensures var paths := Cut(full, topK);
            && StrictTradeOff(paths) && (topK > 0 ==> |paths| <= topK)
            && (forall p :: p in paths ==> p in full)
            && (forall p :: p in full ==> p in paths || StopShort(topK, paths, p.arrival))
  {
    var paths := Cut(full, topK);
    forall p | p in full
      ensures p in paths || StopShort(topK, paths, p.arrival)
    {
      var i :| 0 <= i < |full| && full[i] == p;
      if i < |paths| {
        assert paths[i] == p;
      }
    }
  }

  /** The first `topK` of the full answer are the earliest. */
  lemma TopIsEarliest(w: World, topK: int, paths: seq<Path>)
    requires WellFormed(w.buf) && IsTopK(w, topK, paths)
    ensures IsEarliest(w, topK, paths)
  {
    hide WellFormed, NonDominated, LevelArrival, Serves, Cut, StrictTradeOff, StopShort;
    var full :| IsAnswer(w, full) && paths == Cut(full, topK);
    CutKeepsEarliest(full, topK);
    forall k | 0 <= k <= w.params.Rounds() && LevelArrival(w, k).Some?
               && NonDominated(w, LevelArrival(w, k).value, TransfersAt(k))
      ensures StopShort(topK, paths, LevelArrival(w, k).value)
           || exists p: Path :: p in paths && p.arrival == LevelArrival(w, k).value && p.transfers == TransfersAt(k)
    {
      var p: Path :| p in full && p.arrival == LevelArrival(w, k).value && p.transfers == TransfersAt(k);
    }
  }

  // ---- One journey per useful round --------------------------------------------------------------

  /** Rounds below `k` seen: `paths[i]` came from round `ks[i]`, each arrives before the ones found earlier,
      and every round's arrival is matched. */
  ghost predicate Collected(w: World, k: int, ks: seq<nat>, paths: seq<Path>)
    requires WellFormed(w.buf)
  {
    && |ks| == |paths|
    && (forall i :: 0 <= i < |ks| ==> ks[i] < k && Serves(w, ks[i], paths[i]))
    && (forall i, j :: 0 <= i < j < |ks| ==> ks[i] < ks[j] && paths[i].arrival > paths[j].arrival)
    && (forall m: nat :: m < k && LevelArrival(w, m).Some? ==> Matched(ks, paths, m, LevelArrival(w, m).value))
  }

  ghost predicate CollectedBefore(w: World, k: int, paths: seq<Path>)
    requires WellFormed(w.buf)
  {
    exists ks :: Collected(w, k, ks, paths)
  }

  ghost predicate Matched(ks: seq<nat>, paths: seq<Path>, m: nat, arrival: int)
    requires |ks| == |paths|
  {
    exists i :: 0 <= i < |ks| && ks[i] <= m && paths[i].arrival == arrival
  }

  lemma CollectNew(w: World, k: nat, ks: seq<nat>, paths: seq<Path>, p: Path)
    requires WellFormed(w.buf) && Collected(w, k, ks, paths)
    requires Serves(w, k, p) && (|paths| > 0 ==> p.arrival < paths[|paths| - 1].arrival)
    ensures Collected(w, k + 1, ks + [k], paths + [p])
  {
    hide Serves, LevelArrival;
    var ks', paths' := ks + [k], paths + [p];
    forall i | 0 <= i < |ks'|
      ensures ks'[i] < k + 1 && Serves(w, ks'[i], paths'[i])
    {
    }
    ArrivesAt(w, k, p);
    forall m: nat | m < k + 1 && LevelArrival(w, m).Some?
      ensures Matched(ks', paths', m, LevelArrival(w, m).value)
    {
      if m < k {
        assert Matched(ks, paths, m, LevelArrival(w, m).value);
        var i :| 0 <= i < |ks| && ks[i] <= m && paths[i].arrival == LevelArrival(w, m).value;
        assert ks'[i] <= m && paths'[i].arrival == LevelArrival(w, m).value;
      } else {
        assert ks'[|ks|] <= m && paths'[|ks|].arrival == LevelArrival(w, m).value;
      }
    }
  }

  lemma ArrivesAt(w: World, k: nat, p: Path)
    requires WellFormed(w.buf) && Serves(w, k, p)
    ensures LevelArrival(w, k) == Some(p.arrival)
  {
  }

  lemma CollectNothing(w: World, k: nat, ks: seq<nat>, paths: seq<Path>)
    requires WellFormed(w.buf) && Collected(w, k, ks, paths)
    requires LevelArrival(w, k).Some? ==> exists m: nat :: m < k && LevelArrival(w, m) == LevelArrival(w, k)
    ensures Collected(w, k + 1, ks, paths)
  {
    hide Serves, LevelArrival;
    if LevelArrival(w, k).Some? {
      var m: nat :| m < k && LevelArrival(w, m) == LevelArrival(w, k);
      assert Matched(ks, paths, m, LevelArrival(w, m).value);
    }
  }

  // ---- Different rounds give different fingerprints ----------------------------------------------

  /** Identifiers the search can put into a leg use no separators but these. */
  ghost predicate NamesUse(seps: set<char>, w: World) {
    && (forall r :: r in w.buf.routes ==> Uses(seps, r.routeID) && forall s :: s in r.stopIDs ==> Uses(seps, s))
    && (forall r, t :: 0 <= r < |w.buf.stopTimes| && 0 <= t < |w.buf.stopTimes[r]| ==>
          Uses(seps, w.buf.stopTimes[r][t].key.tripID))
    && (forall s, i :: s in w.buf.footpaths && 0 <= i < |w.buf.footpaths[s]| ==>
          WalkUses(seps, s, w.buf.footpaths[s][i]))
  }

  predicate WalkUses(seps: set<char>, s: string, walk: Footpath) {
    Uses(seps, s) && Uses(seps, walk.neighbourStop)
  }

  /** No identifier contains a bar, or none contains a semicolon. */
  ghost predicate CleanIDs(w: World) {
    NamesUse(SEPARATORS - {'|'}, w) || NamesUse(SEPARATORS - {';'}, w)
  }

  lemma RealLegsUse(seps: set<char>, w: World, leg: Leg)
    requires WellFormed(w.buf) && NamesUse(seps, w) && RealLeg(w, leg)
    ensures Labelled(leg) && (Uses(seps, WALK_ROUTE_ID) ==> LegUses(seps, leg))
  {
    if leg.kind.Transit? {
      var ri, t, p, q :| IsRideOf(w, leg, ri, t, p, q);
      assert w.buf.routes[ri] in w.buf.routes;
      assert w.buf.routes[ri].stopIDs[p] in w.buf.routes[ri].stopIDs;
      assert w.buf.routes[ri].stopIDs[q] in w.buf.routes[ri].stopIDs;
    } else {
      var i :| IsWalkOf(w, leg, i);
      assert leg.boardStation in w.buf.footpaths;
    }
  }

  lemma ItinerariesConnect(seps: set<char>, w: World, legs: seq<Leg>)
    requires WellFormed(w.buf) && NamesUse(seps, w) && Itinerary(w, legs)
    ensures LegsUse(seps, legs) && Connected(legs, w.params.origin, w.params.destination)
  {
    hide NamesUse, RealLeg, LegUses, WellFormed;
    assert Uses(seps, WALK_ROUTE_ID);
    forall l | l in legs
      ensures LegUses(seps, l) && Labelled(l)
    {
      RealLegsUse(seps, w, l);
    }
    forall i, j | 0 <= i && j == i + 1 < |legs|
      ensures legs[i].alightStation == legs[j].boardStation
    {
      assert Joins(w, legs[i], legs[j]);
    }
  }

  /** Equal fingerprints of two itineraries of one query mean equally many vehicles, as long as identifiers do not use
      both bars and semicolons. */
  lemma PrintsCountVehicles(seps: set<char>, w: World, a: seq<Leg>, b: seq<Leg>)
    requires WellFormed(w.buf) && NamesUse(seps, w) && !('|' in seps && ';' in seps)
    requires Itinerary(w, a) && Itinerary(w, b) && Fingerprint(a) == Fingerprint(b)
    ensures TransitLegs(a) == TransitLegs(b)
  {
    hide WellFormed, NamesUse, Itinerary, LegsUse, Connected, Fingerprint, SameKinds;
    ItinerariesConnect(seps, w, a);
    ItinerariesConnect(seps, w, b);
    PrintsGiveKinds(seps, a, b, w.params.origin, w.params.destination);
    SameKindsSameCount(a, b);
  }

  lemma CollectedAreDistinct(w: World, k: int, ks: seq<nat>, paths: seq<Path>)
    requires WellFormed(w.buf) && CleanIDs(w) && Collected(w, k, ks, paths)
    ensures DistinctPrints(paths)
  {
    forall i, j | 0 <= i < j < |paths|
      ensures Fingerprint(paths[i].legs) != Fingerprint(paths[j].legs)
    {
      if Fingerprint(paths[i].legs) == Fingerprint(paths[j].legs) {
        var seps := if NamesUse(SEPARATORS - {'|'}, w) then SEPARATORS - {'|'} else SEPARATORS - {';'};
        PrintsCountVehicles(seps, w, paths[i].legs, paths[j].legs);
      }
    }
  }

  // ---- The list that survives is the answer ------------------------------------------------------

  lemma ServedPair(w: World, k: nat, p: Path)
    requires WellFormed(w.buf) && Serves(w, k, p)
    ensures LevelArrival(w, k) == Some(p.arrival) && p.transfers == TransfersAt(k)
  {
  }

  /** Dominated by some level means dominated by some collected journey. */
  lemma LevelsAreCollected(w: World, ks: seq<nat>, paths: seq<Path>, p: Path)
    requires WellFormed(w.buf) && Collected(w, w.params.Rounds() + 1, ks, paths)
    requires NotDominatedIn(paths, p)
    ensures NonDominated(w, p.arrival, p.transfers)
  {
    hide Serves, LevelArrival;
    forall j | 0 <= j <= w.params.Rounds() && LevelArrival(w, j).Some?
      ensures !PairDominates(LevelArrival(w, j).value, TransfersAt(j), p.arrival, p.transfers)
    {
      assert Matched(ks, paths, j, LevelArrival(w, j).value);
      var i :| 0 <= i < |ks| && ks[i] <= j && paths[i].arrival == LevelArrival(w, j).value;
      ServedPair(w, ks[i], paths[i]);
      assert !paths[i].Dominates(p);
    }
  }

  /** A non-dominated level is served by a collected journey that no collected journey dominates. */
  lemma BestLevelIsServed(w: World, ks: seq<nat>, paths: seq<Path>, k: nat) returns (p: Path)
    requires WellFormed(w.buf) && Collected(w, w.params.Rounds() + 1, ks, paths)
    requires k <= w.params.Rounds() && LevelArrival(w, k).Some?
    requires NonDominated(w, LevelArrival(w, k).value, TransfersAt(k))
    ensures p in paths && NotDominatedIn(paths, p)
    ensures p.arrival == LevelArrival(w, k).value && p.transfers == TransfersAt(k)
  {
    hide Serves, LevelArrival;
    assert Matched(ks, paths, k, LevelArrival(w, k).value);
    var i :| 0 <= i < |ks| && ks[i] <= k && paths[i].arrival == LevelArrival(w, k).value;
    p := paths[i];
    ServedPair(w, ks[i], p);
    assert !PairDominates(LevelArrival(w, ks[i]).value, TransfersAt(ks[i]), LevelArrival(w, k).value, TransfersAt(k));
    forall q | q in paths
      ensures !q.Dominates(p)
    {
      var n :| 0 <= n < |paths| && paths[n] == q;
      ServedPair(w, ks[n], q);
    }
  }

  /** Sorted and swept, the collected journeys are the answer. */
  lemma CollectedIsAnswer(w: World, ks: seq<nat>, paths: seq<Path>, sorted: seq<Path>, out: seq<Path>)
    requires WellFormed(w.buf) && Collected(w, w.params.Rounds() + 1, ks, paths)
    requires multiset(sorted) == multiset(paths)
    requires forall p :: p in out ==> p in sorted && NotDominatedIn(sorted, p)
    requires forall p :: p in sorted && NotDominatedIn(sorted, p) ==> exists q :: q in out && SamePair(q, p)
    requires StrictTradeOff(out)
    ensures IsAnswer(w, out)
  {
    hide Serves, LevelArrival;
    SameElements(sorted, paths);
    forall p | p in out
      ensures NonDominated(w, p.arrival, p.transfers) && exists k :: 0 <= k <= w.params.Rounds() && Serves(w, k, p)
    {
      LevelsAreCollected(w, ks, paths, p);
      var i :| 0 <= i < |paths| && paths[i] == p;
      assert Serves(w, ks[i], p);
    }
    forall k | 0 <= k <= w.params.Rounds() && LevelArrival(w, k).Some?
               && NonDominated(w, LevelArrival(w, k).value, TransfersAt(k))
      ensures exists p :: p in out && p.arrival == LevelArrival(w, k).value && p.transfers == TransfersAt(k)
    {
      var p := BestLevelIsServed(w, ks, paths, k);
      var q :| q in out && SamePair(q, p);
    }
  }
}
