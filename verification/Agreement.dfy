/** Why pruning, marked stops and queues change nothing at the destination: a round that skips only
    offers the destination already beats agrees with the naive level below the destination's label. */
module Agreement {
  import opened Model
  import opened Reference

  /** The relation one phase of the engine's round keeps: labels only improve, each new label is an
      offer, and every offer is covered at its own stop or at the destination. */
  ghost predicate PrunedMerge(base: Labels, c: Labels, offers: set<Offer>, dest: string, vehicle: bool) {
    && (forall s :: s in base ==> s in c && c[s].time <= base[s].time)
    && (forall s :: s in c ==>
          || (s in base && c[s] == base[s])
          || ((s, c[s].time) in offers && c[s].vehicle == vehicle && Beats(base, s, c[s].time)))
    && (forall s, a :: (s, a) in offers ==> Covered(c, s, a) || Covered(c, dest, a))
  }

  /** Stop `s` is reached strictly before the destination is. */
  predicate Below(l: Labels, dest: string, s: string) {
    s in l && Beats(l, dest, l[s].time)
  }

  /** Equal at the destination, and at every stop that either side reaches before the destination. */
  ghost predicate Agree(e: Labels, n: Labels, dest: string) {
    && (dest in e <==> dest in n)
    && (dest in e ==> e[dest].time == n[dest].time)
    && forall s :: Below(e, dest, s) || Below(n, dest, s) ==> s in e && s in n && e[s] == n[s]
  }

  lemma MergeAgree(base: Labels, nbase: Labels, c: Labels, offers: set<Offer>, noffers: set<Offer>,
                   dest: string, vehicle: bool)
    requires Agree(base, nbase, dest)
    requires PrunedMerge(base, c, offers, dest, vehicle)
    requires forall s, a :: Beats(base, dest, a) ==> ((s, a) in offers <==> (s, a) in noffers)
    ensures Agree(c, Merge(nbase, noffers, vehicle), dest)
  {
    var m := Merge(nbase, noffers, vehicle);
    MergeMeaning(nbase, noffers, vehicle);
    assert (dest in c <==> dest in m) && (dest in c ==> c[dest].time == m[dest].time);
    forall s | Below(c, dest, s)
      ensures s in m && c[s] == m[s]
    {
    }
    forall s | Below(m, dest, s)
      ensures s in c && c[s] == m[s]
    {
    }
  }

  /** Below the destination's label the two sides can catch the same rides. */
  lemma SameRides(w: World, e: Labels, n: Labels, s: string, a: int)
    requires WellFormed(w.buf)
    requires Agree(e, n, w.params.destination)
    requires Beats(e, w.params.destination, a)
    ensures (s, a) in RideOffers(w, e) <==> (s, a) in RideOffers(w, n)
  {
    forall r, t, p, q | RideOffer(w, e, r, t, p, q) && w.buf.stopTimes[r][t].arrivals[q] == a
      ensures RideOffer(w, n, r, t, p, q)
    {
      BoardedBelow(w, e, r, t, p, q);
    }
    forall r, t, p, q | RideOffer(w, n, r, t, p, q) && w.buf.stopTimes[r][t].arrivals[q] == a
      ensures RideOffer(w, e, r, t, p, q)
    {
      BoardedBelow(w, n, r, t, p, q);
    }
  }

  /** A ride never arrives before the label it was boarded with. */
  lemma BoardedBelow(w: World, l: Labels, r: int, t: int, p: int, q: int)
    requires WellFormed(w.buf)
    requires RideOffer(w, l, r, t, p, q)
    ensures l[w.buf.routes[r].stopIDs[p]].time <= w.buf.stopTimes[r][t].departures[p]
                                               <= w.buf.stopTimes[r][t].arrivals[q]
  {
    assert TripWellFormed(w.buf.routes[r], w.buf.stopTimes[r][t]);
  }

  /** Below the destination's label the two sides walk from the same stops at the same times. */
  lemma SameWalks(w: World, e: Labels, n: Labels, c: Labels, m: Labels, s: string, a: int)
    requires WellFormed(w.buf)
    requires Agree(e, n, w.params.destination) && Agree(c, m, w.params.destination)
    requires w.params.destination in e ==> Covered(c, w.params.destination, e[w.params.destination].time)
    requires Beats(c, w.params.destination, a)
    ensures (s, a) in WalkOffers(w, c, Improved(e, c)) <==> (s, a) in WalkOffers(w, m, Improved(n, m))
  {
    forall u, i | u in c && u in Improved(e, c) && 0 <= i < |w.buf.Walks(u)|
                  && c[u].time + w.buf.Walks(u)[i].walkSeconds == a
      ensures u in m && m[u] == c[u] && u in Improved(n, m)
    {
      assert Below(c, w.params.destination, u);
    }
    forall u, i | u in m && u in Improved(n, m) && 0 <= i < |w.buf.Walks(u)|
                  && m[u].time + w.buf.Walks(u)[i].walkSeconds == a
      ensures u in c && m[u] == c[u] && u in Improved(e, c)
    {
      assert Below(m, w.params.destination, u);
    }
  }

  /** One round of the pruned search against one level of the naive one. */
  lemma RoundAgrees(w: World, e: Labels, n: Labels, c: Labels, e': Labels)
    requires WellFormed(w.buf)
    requires Agree(e, n, w.params.destination)
    requires PrunedMerge(e, c, RideOffers(w, e), w.params.destination, true)
    requires PrunedMerge(c, e', WalkOffers(w, c, Improved(e, c)), w.params.destination, false)
    ensures Agree(e', NextLevel(w, n), w.params.destination)
  {
    var m := Ride(w, n);
    forall s, a | Beats(e, w.params.destination, a)
      ensures (s, a) in RideOffers(w, e) <==> (s, a) in RideOffers(w, n)
    {
      SameRides(w, e, n, s, a);
    }
    MergeAgree(e, n, c, RideOffers(w, e), RideOffers(w, n), w.params.destination, true);
    forall s, a | Beats(c, w.params.destination, a)
      ensures (s, a) in WalkOffers(w, c, Improved(e, c)) <==> (s, a) in WalkOffers(w, m, Improved(n, m))
    {
      SameWalks(w, e, n, c, m, s, a);
    }
    MergeAgree(c, m, e', WalkOffers(w, c, Improved(e, c)), WalkOffers(w, m, Improved(n, m)),
               w.params.destination, false);
  }

  /** A round that has nothing left to board from changes nothing, and neither does the naive level:
      stopping early is sound. */
  lemma IdleRoundAgrees(w: World, e: Labels, n: Labels)
    requires WellFormed(w.buf)
    requires Agree(e, n, w.params.destination)
    requires forall s, a :: (s, a) in RideOffers(w, e) ==> Covered(e, s, a) || Covered(e, w.params.destination, a)
    ensures Agree(e, NextLevel(w, n), w.params.destination)
  {
    assert Improved(e, e) == {};
    assert WalkOffers(w, e, Improved(e, e)) == {};
    RoundAgrees(w, e, n, e, e);
  }

  lemma IdleForever(w: World, e: Labels, k: nat, j: nat)
    requires WellFormed(w.buf)
    requires k <= j
    requires Agree(e, Level(w, k), w.params.destination)
    requires forall s, a :: (s, a) in RideOffers(w, e) ==> Covered(e, s, a) || Covered(e, w.params.destination, a)
    ensures Agree(e, Level(w, j), w.params.destination)
  {
    if k < j {
      IdleForever(w, e, k, j - 1);
      IdleRoundAgrees(w, e, Level(w, j - 1));
    }
  }

  /** The arrival a phase leaves at the destination does not depend on the order in which its offers
      were tried, although which labels were pruned on the way does. */
  lemma OrderIndependent(base: Labels, c1: Labels, c2: Labels, offers: set<Offer>, dest: string, vehicle: bool)
    requires PrunedMerge(base, c1, offers, dest, vehicle)
    requires PrunedMerge(base, c2, offers, dest, vehicle)
    ensures Agree(c1, c2, dest)
  {
    MergeAgree(base, base, c1, offers, offers, dest, vehicle);
    MergeAgree(base, base, c2, offers, offers, dest, vehicle);
  }
}
