/** The naive levels are the true optimum over all itineraries, with any number of direct walks chained
    between vehicles, when no transfer buffer is owed and the walk graph is fully closed. */
module Optimum {
  import opened Model
  import opened Reference
  import opened Agreement
  import opened WalkGraph

  /** One step of an unrestricted itinerary: a direct walk, or a ride on one trip. */
  datatype Step = OnFoot(edge: nat) | Aboard(r: int, t: int, p: int, q: int)

  ghost predicate CanRide(w: World, u: string, at: int, r: int, t: int, p: int, q: int)
    requires WellFormed(w.buf)
  {
    && 0 <= r < |w.buf.routes| && 0 <= t < |w.buf.stopTimes[r]| && 0 <= p < q < |w.buf.routes[r].stopIDs|
    && TripWellFormed(w.buf.routes[r], w.buf.stopTimes[r][t])
    && TripUsable(w, w.buf.stopTimes[r][t].key)
    && w.buf.routes[r].stopIDs[p] == u && w.buf.stopTimes[r][t].departures[p] >= at
  }

  /** Where a plan leads, and when; `None` if one of its steps cannot be taken. */
  ghost function Outcome(w: World, direct: Graph, plan: seq<Step>): Option<(string, int)>
    requires WellFormed(w.buf)
  {
    if plan == [] then Some((w.params.origin, w.params.depTime))
    else
      match Outcome(w, direct, plan[..|plan| - 1])
      case None => None
      case Some((u, at)) => Take(w, direct, u, at, plan[|plan| - 1])
  }

  ghost function Take(w: World, direct: Graph, u: string, at: int, step: Step): Option<(string, int)>
    requires WellFormed(w.buf)
  {
    match step
    case OnFoot(i) =>
      if i < |Edges(direct, u)| then Some((Edges(direct, u)[i].neighbourStop, at + Edges(direct, u)[i].walkSeconds))
      else None
    case Aboard(r, t, p, q) =>
      if CanRide(w, u, at, r, t, p, q) then Some((w.buf.routes[r].stopIDs[q], w.buf.stopTimes[r][t].arrivals[q]))
      else None
  }

  function Vehicles(plan: seq<Step>): nat {
    if plan == [] then 0 else Vehicles(plan[..|plan| - 1]) + if plan[|plan| - 1].Aboard? then 1 else 0
  }

  /** Station `s` can be reached at time `a` with at most `k` vehicles. */
  ghost predicate Possible(w: World, direct: Graph, k: nat, s: string, a: int)
    requires WellFormed(w.buf)
  {
    exists plan :: Vehicles(plan) <= k && Outcome(w, direct, plan) == Some((s, a))
  }

  // ---- Every level is reached by some itinerary --------------------------------------------------

  lemma PossibleOnFoot(w: World, direct: Graph, k: nat, u: string, a: int, i: nat)
    requires WellFormed(w.buf) && Possible(w, direct, k, u, a) && i < |Edges(direct, u)|
    ensures Possible(w, direct, k, Edges(direct, u)[i].neighbourStop, a + Edges(direct, u)[i].walkSeconds)
  {
    var plan :| Vehicles(plan) <= k && Outcome(w, direct, plan) == Some((u, a));
    var more := plan + [OnFoot(i)];
    assert more[..|more| - 1] == plan;
    assert Vehicles(more) <= k;
  }

  lemma PossibleAboard(w: World, direct: Graph, k: nat, u: string, a: int, r: int, t: int, p: int, q: int)
    requires WellFormed(w.buf) && Possible(w, direct, k, u, a) && CanRide(w, u, a, r, t, p, q)
    ensures Possible(w, direct, k + 1, w.buf.routes[r].stopIDs[q], w.buf.stopTimes[r][t].arrivals[q])
  {
    var plan :| Vehicles(plan) <= k && Outcome(w, direct, plan) == Some((u, a));
    var more := plan + [Aboard(r, t, p, q)];
    assert more[..|more| - 1] == plan;
    assert Vehicles(more) <= k + 1;
  }

  lemma {:induction false} PossibleAlong(w: World, direct: Graph, k: nat, u: string, a: int, steps: seq<nat>)
    requires WellFormed(w.buf) && Possible(w, direct, k, u, a) && Follow(direct, u, steps).Some?
    ensures var (v, d) := Follow(direct, u, steps).value; Possible(w, direct, k, v, a + d)
    decreases |steps|
  {
    if steps != [] {
      var n := |steps| - 1;
      PossibleAlong(w, direct, k, u, a, steps[..n]);
      var (x, d) := Follow(direct, u, steps[..n]).value;
      PossibleOnFoot(w, direct, k, x, a + d, steps[n]);
    }
  }

  lemma PossibleWalk(w: World, direct: Graph, k: nat, u: string, a: int, v: string, d: int)
    requires WellFormed(w.buf) && Possible(w, direct, k, u, a) && Reach(direct, u, v, d)
    ensures Possible(w, direct, k, v, a + d)
  {
    var steps :| Follow(direct, u, steps) == Some((v, d));
    PossibleAlong(w, direct, k, u, a, steps);
  }

  lemma MorePossible(w: World, direct: Graph, k: nat, m: nat, s: string, a: int)
    requires WellFormed(w.buf) && Possible(w, direct, k, s, a) && k <= m
    ensures Possible(w, direct, m, s, a)
  {
    var plan :| Vehicles(plan) <= k && Outcome(w, direct, plan) == Some((s, a));
    assert Vehicles(plan) <= m;
  }

  /** Every edge of the walk graph is a walk along direct edges. */
  ghost predicate Walkable(closed: Graph, direct: Graph) {
    forall u, i :: u in closed && 0 <= i < |closed[u]| ==>
      Reach(direct, u, closed[u][i].neighbourStop, closed[u][i].walkSeconds)
  }

  lemma WalkOfferPossible(w: World, direct: Graph, k: nat, l: Labels, sources: set<string>, s: string, a: int)
    requires WellFormed(w.buf) && Walkable(w.buf.footpaths, direct)
    requires forall x :: x in sources && x in l ==> Possible(w, direct, k, x, l[x].time)
    requires (s, a) in WalkOffers(w, l, sources)
    ensures Possible(w, direct, k, s, a)
  {
    var x, i :| x in sources && x in l && 0 <= i < |w.buf.Walks(x)| &&
      (s, a) == (w.buf.Walks(x)[i].neighbourStop, l[x].time + w.buf.Walks(x)[i].walkSeconds);
    assert x in w.buf.footpaths;
    PossibleWalk(w, direct, k, x, l[x].time, s, w.buf.Walks(x)[i].walkSeconds);
  }

  lemma RideOfferPossible(w: World, direct: Graph, k: nat, l: Labels, s: string, a: int)
    requires WellFormed(w.buf)
    requires forall x :: x in l ==> Possible(w, direct, k, x, l[x].time)
    requires (s, a) in RideOffers(w, l)
    ensures Possible(w, direct, k + 1, s, a)
  {
    var r, t, p, q := OfferedRide(w, l, s, a);
    var u := w.buf.routes[r].stopIDs[p];
    BoardedBelow(w, l, r, t, p, q);
    assert TripWellFormed(w.buf.routes[r], w.buf.stopTimes[r][t]);
    PossibleAboard(w, direct, k, u, l[u].time, r, t, p, q);
  }

  lemma FirstLevelPossible(w: World, direct: Graph, s: string)
    requires WellFormed(w.buf) && Walkable(w.buf.footpaths, direct) && s in Level(w, 0)
    ensures Possible(w, direct, 0, s, Level(w, 0)[s].time)
  {
    hide WellFormed, Walkable, WalkOffers, Merge;
    var o := w.params.origin;
    var start := map[o := Label(w.params.depTime, false)];
    assert Vehicles([]) == 0 && Outcome(w, direct, []) == Some((o, w.params.depTime));
    MergeMeaning(start, WalkOffers(w, start, {o}), false);
    if (s, Level(w, 0)[s].time) in WalkOffers(w, start, {o}) {
      WalkOfferPossible(w, direct, 0, start, {o}, s, Level(w, 0)[s].time);
    }
  }

  /** One more vehicle, and one walk after it. */
  lemma NextLevelPossible(w: World, direct: Graph, k: nat, prev: Labels, s: string)
    requires WellFormed(w.buf) && Walkable(w.buf.footpaths, direct) && k > 0 && s in NextLevel(w, prev)
    requires forall x :: x in prev ==> Possible(w, direct, k - 1, x, prev[x].time)
    ensures Possible(w, direct, k, s, NextLevel(w, prev)[s].time)
  {
    hide WellFormed, Walkable, Possible, WalkOffers, RideOffers, Merge;
    var mid := Ride(w, prev);
    MergeMeaning(prev, RideOffers(w, prev), true);
    forall x | x in mid
      ensures Possible(w, direct, k, x, mid[x].time)
    {
      if (x, mid[x].time) in RideOffers(w, prev) {
        RideOfferPossible(w, direct, k - 1, prev, x, mid[x].time);
      } else {
        MorePossible(w, direct, k - 1, k, x, prev[x].time);
      }
    }
    var offers := WalkOffers(w, mid, Improved(prev, mid));
    MergeMeaning(mid, offers, false);
    if (s, NextLevel(w, prev)[s].time) in offers {
      WalkOfferPossible(w, direct, k, mid, Improved(prev, mid), s, NextLevel(w, prev)[s].time);
    }
  }

  /** Every label of every level is the arrival of a real itinerary within its vehicle budget, whatever
      the transfer buffer. */
  lemma {:induction false} LevelsArePossible(w: World, direct: Graph, k: nat, s: string)
    requires WellFormed(w.buf) && Walkable(w.buf.footpaths, direct)
    requires s in Level(w, k)
    ensures Possible(w, direct, k, s, Level(w, k)[s].time)
    decreases k
  {
    hide WellFormed, Walkable, Possible, NextLevel;
    if k == 0 {
      FirstLevelPossible(w, direct, s);
    } else {
      var prev := Level(w, k - 1);
      forall x | x in prev
        ensures Possible(w, direct, k - 1, x, prev[x].time)
      {
        LevelsArePossible(w, direct, k - 1, x);
      }
      NextLevelPossible(w, direct, k, prev, s);
    }
  }

  // ---- No itinerary beats a level ----------------------------------------------------------------

  lemma LevelsImprove(w: World, k: nat, s: string)
    requires WellFormed(w.buf) && s in Level(w, k)
    ensures s in Level(w, k + 1) && Level(w, k + 1)[s].time <= Level(w, k)[s].time
  {
    var prev, mid := Level(w, k), Ride(w, Level(w, k));
    MergeMeaning(prev, RideOffers(w, prev), true);
    MergeMeaning(mid, WalkOffers(w, mid, Improved(prev, mid)), false);
  }

  lemma OfferIsCovered(w: World, base: Labels, sources: set<string>, x: string, j: nat)
    requires x in sources && x in base && j < |w.buf.Walks(x)|
    ensures Covered(Merge(base, WalkOffers(w, base, sources), false), w.buf.Walks(x)[j].neighbourStop,
                    base[x].time + w.buf.Walks(x)[j].walkSeconds)
  {
    var offers := WalkOffers(w, base, sources);
    MergeMeaning(base, offers, false);
    assert (w.buf.Walks(x)[j].neighbourStop, base[x].time + w.buf.Walks(x)[j].walkSeconds) in offers;
  }

  /** A walk out of a stop that was itself walked to from a source: the source reaches its end directly. */
  lemma ChainedWalkIsCovered(w: World, direct: Graph, base: Labels, sources: set<string>, x: string, h: nat, i: nat)
    requires WellFormed(w.buf) && IsClosure(w.buf.footpaths, direct)
    requires x in sources && x in base && h < |w.buf.Walks(x)|
    requires i < |w.buf.Walks(w.buf.Walks(x)[h].neighbourStop)|
    ensures var u := w.buf.Walks(x)[h].neighbourStop;
            Covered(Merge(base, WalkOffers(w, base, sources), false), w.buf.Walks(u)[i].neighbourStop,
                    base[x].time + w.buf.Walks(x)[h].walkSeconds + w.buf.Walks(u)[i].walkSeconds)
  {
    var u := w.buf.Walks(x)[h].neighbourStop;
    var v, d1, d := w.buf.Walks(u)[i].neighbourStop, w.buf.Walks(x)[h].walkSeconds, w.buf.Walks(u)[i].walkSeconds;
    assert w.buf.footpaths[x][h].walkSeconds >= 0 && w.buf.footpaths[u][i].walkSeconds >= 0;
    if v == x {
      MergeMeaning(base, WalkOffers(w, base, sources), false);
    } else {
      TwoHopsAreOne(w.buf.footpaths, direct, x, h, u, i);
      hide IsClosure, WellFormed;
      var j :| 0 <= j < |Edges(w.buf.footpaths, x)| && Edges(w.buf.footpaths, x)[j].neighbourStop == v
               && Edges(w.buf.footpaths, x)[j].walkSeconds <= d1 + d;
      assert w.buf.Walks(x) == Edges(w.buf.footpaths, x);
      OfferIsCovered(w, base, sources, x, j);
    }
  }

  /** A walk out of a source, or out of a stop walked to from one, never improves the pass. */
  lemma WalksFromSources(w: World, direct: Graph, base: Labels, sources: set<string>, u: string, a: int, i: nat)
    requires WellFormed(w.buf) && IsClosure(w.buf.footpaths, direct)
    requires sources <= base.Keys && i < |w.buf.Walks(u)|
    requires (u, a) in WalkOffers(w, base, sources) || (u in sources && base[u].time == a)
    ensures Covered(Merge(base, WalkOffers(w, base, sources), false), w.buf.Walks(u)[i].neighbourStop,
                    a + w.buf.Walks(u)[i].walkSeconds)
  {
    hide IsClosure, WellFormed, Merge;
    if u in sources && base[u].time == a {
      OfferIsCovered(w, base, sources, u, i);
    } else {
      var x, h := SourceOf(w, base, sources, u, a);
      ChainedWalkIsCovered(w, direct, base, sources, x, h, i);
    }
  }

  lemma SourceOf(w: World, base: Labels, sources: set<string>, u: string, a: int) returns (x: string, h: nat)
    requires (u, a) in WalkOffers(w, base, sources)
    ensures x in sources && x in base && h < |w.buf.Walks(x)|
    ensures w.buf.Walks(x)[h].neighbourStop == u && a == base[x].time + w.buf.Walks(x)[h].walkSeconds
  {
    var y, i :| y in sources && y in base && 0 <= i < |w.buf.Walks(y)| &&
      (u, a) == (w.buf.Walks(y)[i].neighbourStop, base[y].time + w.buf.Walks(y)[i].walkSeconds);
    x, h := y, i;
  }

  /** Where a label of level k came from. */
  lemma LabelOrigin(w: World, k: nat, u: string)
    requires WellFormed(w.buf) && k > 0 && u in Level(w, k)
    ensures var prev, mid, a := Level(w, k - 1), Ride(w, Level(w, k - 1)), Level(w, k)[u].time;
            && Level(w, k) == Merge(mid, WalkOffers(w, mid, Improved(prev, mid)), false)
            && ((u, a) in WalkOffers(w, mid, Improved(prev, mid))
                || (u in Improved(prev, mid) && mid[u].time == a)
                || (u in prev && prev[u].time == a))
  {
    var prev, mid := Level(w, k - 1), Ride(w, Level(w, k - 1));
    MergeMeaning(prev, RideOffers(w, prev), true);
    MergeMeaning(mid, WalkOffers(w, mid, Improved(prev, mid)), false);
  }

  /** A walk pass whose result is `l` leaves `l` closed under walks out of a label with one of its two
      fresh origins. */
  lemma PassIsWalkClosed(w: World, direct: Graph, base: Labels, sources: set<string>, l: Labels, u: string, i: nat)
    requires WellFormed(w.buf) && IsClosure(w.buf.footpaths, direct)
    requires l == Merge(base, WalkOffers(w, base, sources), false)
    requires sources <= base.Keys && u in l && i < |w.buf.Walks(u)|
    requires (u, l[u].time) in WalkOffers(w, base, sources) || (u in sources && base[u].time == l[u].time)
    ensures Covered(l, w.buf.Walks(u)[i].neighbourStop, l[u].time + w.buf.Walks(u)[i].walkSeconds)
  {
    hide IsClosure, WellFormed, Merge, WalkOffers;
    WalksFromSources(w, direct, base, sources, u, l[u].time, i);
  }

  lemma StartOrigin(w: World, u: string)
    requires WellFormed(w.buf) && u in Level(w, 0)
    ensures var o := w.params.origin;
            var start := map[o := Label(w.params.depTime, false)];
            && Level(w, 0) == Merge(start, WalkOffers(w, start, {o}), false)
            && ((u, Level(w, 0)[u].time) in WalkOffers(w, start, {o})
                || (u == o && start[u].time == Level(w, 0)[u].time))
  {
    var o := w.params.origin;
    var start := map[o := Label(w.params.depTime, false)];
    MergeMeaning(start, WalkOffers(w, start, {o}), false);
  }

  /** One walk pass per level is enough: no walk out of any label of the level improves the level. */
  lemma {:induction false} LevelIsWalkClosed(w: World, direct: Graph, k: nat, u: string, i: nat)
    requires WellFormed(w.buf) && IsClosure(w.buf.footpaths, direct)
    requires u in Level(w, k) && i < |w.buf.Walks(u)|
    ensures Covered(Level(w, k), w.buf.Walks(u)[i].neighbourStop,
                    Level(w, k)[u].time + w.buf.Walks(u)[i].walkSeconds)
    decreases k
  {
    hide IsClosure, WellFormed, Level, Merge, Ride, WalkOffers, RideOffers;
    if k == 0 {
      StartOrigin(w, u);
      var start := map[w.params.origin := Label(w.params.depTime, false)];
      PassIsWalkClosed(w, direct, start, {w.params.origin}, Level(w, 0), u, i);
    } else {
      LabelOrigin(w, k, u);
      var prev, mid := Level(w, k - 1), Ride(w, Level(w, k - 1));
      if (u, Level(w, k)[u].time) in WalkOffers(w, mid, Improved(prev, mid))
         || (u in Improved(prev, mid) && mid[u].time == Level(w, k)[u].time) {
        PassIsWalkClosed(w, direct, mid, Improved(prev, mid), Level(w, k), u, i);
      } else {
        LevelIsWalkClosed(w, direct, k - 1, u, i);
        LevelsImprove(w, k - 1, w.buf.Walks(u)[i].neighbourStop);
      }
    }
  }

  lemma {:induction false} LevelsOnlyImprove(w: World, k: nat, m: nat, s: string, a: int)
    requires WellFormed(w.buf) && Covered(Level(w, k), s, a) && k <= m
    ensures Covered(Level(w, m), s, a)
    decreases m
  {
    hide Level, WellFormed;
    if k < m {
      LevelsOnlyImprove(w, k, m - 1, s, a);
      LevelsImprove(w, m - 1, s);
    }
  }

  lemma RideIsCovered(w: World, k: nat, u: string, at: int, r: int, t: int, p: int, q: int)
    requires WellFormed(w.buf) && w.params.TransferBuffer() == 0
    requires Covered(Level(w, k), u, at) && CanRide(w, u, at, r, t, p, q)
    ensures Covered(Level(w, k + 1), w.buf.routes[r].stopIDs[q], w.buf.stopTimes[r][t].arrivals[q])
  {
    OfferedIsCovered(w, k, r, t, p, q);
  }

  /** What a level offers, the next one has. */
  lemma OfferedIsCovered(w: World, k: nat, r: int, t: int, p: int, q: int)
    requires WellFormed(w.buf) && RideOffer(w, Level(w, k), r, t, p, q)
    ensures q < |w.buf.stopTimes[r][t].arrivals|
    ensures Covered(Level(w, k + 1), w.buf.routes[r].stopIDs[q], w.buf.stopTimes[r][t].arrivals[q])
  {
    assert TripWellFormed(w.buf.routes[r], w.buf.stopTimes[r][t]);
    var prev := Level(w, k);
    var s, a := w.buf.routes[r].stopIDs[q], w.buf.stopTimes[r][t].arrivals[q];
    assert (s, a) in RideOffers(w, prev);
    hide WellFormed, RideOffers, NextLevel;
    NextLevelCovers(w, prev, s, a);
    assert Level(w, k + 1) == NextLevel(w, prev);
  }

  lemma NextLevelCovers(w: World, prev: Labels, s: string, a: int)
    requires WellFormed(w.buf) && (s, a) in RideOffers(w, prev)
    ensures Covered(NextLevel(w, prev), s, a)
  {
    hide WellFormed, RideOffers, WalkOffers, Merge;
    MergeMeaning(prev, RideOffers(w, prev), true);
    var mid := Ride(w, prev);
    MergeMeaning(mid, WalkOffers(w, mid, Improved(prev, mid)), false);
  }

  /** With no buffer and a full closure, no itinerary with at most `k` vehicles beats level k. */
  lemma {:induction false} NothingBeatsLevels(w: World, direct: Graph, plan: seq<Step>, k: nat)
    requires WellFormed(w.buf) && IsClosure(w.buf.footpaths, direct) && NonNegative(direct)
    requires w.params.TransferBuffer() == 0
    requires Vehicles(plan) <= k && Outcome(w, direct, plan).Some?
    ensures var (s, a) := Outcome(w, direct, plan).value; Covered(Level(w, k), s, a)
    decreases |plan|
  {
    hide IsClosure, NonNegative, Level, Covered;
    if plan == [] {
      OriginIsCovered(w, k);
    } else {
      var before, last := plan[..|plan| - 1], plan[|plan| - 1];
      var (u, at) := Outcome(w, direct, before).value;
      match last
      case OnFoot(i) =>
        NothingBeatsLevels(w, direct, before, k);
        DirectWalkIsCovered(w, direct, k, u, at, i);
      case Aboard(r, t, p, q) =>
        NothingBeatsLevels(w, direct, before, k - 1);
        RideIsCovered(w, k - 1, u, at, r, t, p, q);
    }
  }

  lemma OriginIsCovered(w: World, k: nat)
    requires WellFormed(w.buf)
    ensures Covered(Level(w, k), w.params.origin, w.params.depTime)
  {
    var o := w.params.origin;
    var start := map[o := Label(w.params.depTime, false)];
    MergeMeaning(start, WalkOffers(w, start, {o}), false);
    LevelsOnlyImprove(w, 0, k, o, w.params.depTime);
  }

  lemma DirectWalkIsCovered(w: World, direct: Graph, k: nat, u: string, at: int, i: nat)
    requires WellFormed(w.buf) && IsClosure(w.buf.footpaths, direct) && NonNegative(direct)
    requires Covered(Level(w, k), u, at) && i < |Edges(direct, u)|
    ensures Covered(Level(w, k), Edges(direct, u)[i].neighbourStop, at + Edges(direct, u)[i].walkSeconds)
  {
    hide IsClosure, WellFormed, NonNegative, Level;
    var v, d := Edges(direct, u)[i].neighbourStop, Edges(direct, u)[i].walkSeconds;
    EdgeNonNegative(direct, u, i);
    if v != u {
      DirectHopIsOne(w.buf.footpaths, direct, u, i);
      var j :| 0 <= j < |Edges(w.buf.footpaths, u)| && Edges(w.buf.footpaths, u)[j].neighbourStop == v
               && Edges(w.buf.footpaths, u)[j].walkSeconds <= d;
      assert w.buf.Walks(u) == Edges(w.buf.footpaths, u);
      LevelIsWalkClosed(w, direct, k, u, j);
    }
  }

  /** Level k is the true optimum at every station: some itinerary with at most `k` vehicles attains it, and
      none beats it. */
  lemma LevelIsOptimal(w: World, direct: Graph, k: nat, s: string)
    requires WellFormed(w.buf) && IsClosure(w.buf.footpaths, direct) && NonNegative(direct)
    requires w.params.TransferBuffer() == 0
    ensures s in Level(w, k) <==> exists a :: Possible(w, direct, k, s, a)
    ensures s in Level(w, k) ==> Possible(w, direct, k, s, Level(w, k)[s].time)
    ensures forall a :: Possible(w, direct, k, s, a) ==> Covered(Level(w, k), s, a)
  {
    if s in Level(w, k) {
      LevelsArePossible(w, direct, k, s);
    }
    forall a | Possible(w, direct, k, s, a)
      ensures Covered(Level(w, k), s, a)
    {
      var plan :| Vehicles(plan) <= k && Outcome(w, direct, plan) == Some((s, a));
      NothingBeatsLevels(w, direct, plan, k);
    }
  }
}
