/** The naive router the engine is measured against (`internal/raptor/reference_test.go`): level k is
    obtained from level k-1 by trying every usable trip between every pair of its stops, then one walk
    from every stop a vehicle improved. No queue, no marked stops, no pruning, no search order. */
module Reference {
  import opened Model

  /** One label per stop: when it is reached, and whether a vehicle brought the passenger there (in
      which case the next vehicle owes the transfer buffer). */
  datatype Label = Label(time: int, vehicle: bool)

  type Labels = map<string, Label>

  /** An arrival somewhere, offered by a ride or a walk. */
  type Offer = (string, int)

  predicate Beats(l: Labels, s: string, a: int) {
    s !in l || a < l[s].time
  }

  predicate Covered(l: Labels, s: string, a: int) {
    s in l && l[s].time <= a
  }

  function Ready(l: Label, buffer: nat): int {
    l.time + if l.vehicle then buffer else 0
  }

  function ReadyWith(l: Labels, buffer: nat, s: string): Option<int> {
    if s in l then Some(Ready(l[s], buffer)) else None
  }

  /** Trip `t` of route `r` can be caught at position `p` with the labels of the previous level. */
  ghost predicate Boardable(w: World, l: Labels, r: int, t: int, p: int)
    requires WellFormed(w.buf)
  {
    && 0 <= r < |w.buf.routes| && 0 <= t < |w.buf.stopTimes[r]| && 0 <= p < |w.buf.routes[r].stopIDs|
    && TripUsable(w, w.buf.stopTimes[r][t].key)
    && w.buf.routes[r].stopIDs[p] in l
    && w.buf.stopTimes[r][t].departures[p] >= Ready(l[w.buf.routes[r].stopIDs[p]], w.params.TransferBuffer())
  }

  /** ... and is ridden to a later position `q`. */
  ghost predicate RideOffer(w: World, l: Labels, r: int, t: int, p: int, q: int)
    requires WellFormed(w.buf)
  {
    Boardable(w, l, r, t, p) && p < q < |w.buf.routes[r].stopIDs|
  }

  ghost function RideOffers(w: World, l: Labels): set<Offer>
    requires WellFormed(w.buf)
  {
    set r, t, p, q |
      0 <= r < |w.buf.routes| && 0 <= t < |w.buf.stopTimes[r]| && 0 <= p < |w.buf.routes[r].stopIDs|
      && 0 <= q < |w.buf.routes[r].stopIDs| && RideOffer(w, l, r, t, p, q)
      :: (w.buf.routes[r].stopIDs[q], w.buf.stopTimes[r][t].arrivals[q])
  }

  lemma OfferedRide(w: World, l: Labels, s: string, a: int) returns (ri: int, t: int, p: int, q: int)
    requires WellFormed(w.buf)
    requires (s, a) in RideOffers(w, l)
    ensures RideOffer(w, l, ri, t, p, q)
    ensures s == w.buf.routes[ri].stopIDs[q] && a == w.buf.stopTimes[ri][t].arrivals[q]
  {
    ri, t, p, q :| RideOffer(w, l, ri, t, p, q)
      && (s, a) == (w.buf.routes[ri].stopIDs[q], w.buf.stopTimes[ri][t].arrivals[q]);
  }

  ghost function WalkOffers(w: World, l: Labels, sources: set<string>): set<Offer> {
    set s, i | s in sources && s in l && 0 <= i < |w.buf.Walks(s)|
      :: (w.buf.Walks(s)[i].neighbourStop, l[s].time + w.buf.Walks(s)[i].walkSeconds)
  }

  ghost predicate IsLeast(offers: set<Offer>, s: string, a: int) {
    (s, a) in offers && forall b :: (s, b) in offers ==> a <= b
  }

  lemma LeastExists(offers: set<Offer>, s: string, a: int)
    requires (s, a) in offers
    ensures exists m :: IsLeast(offers, s, m)
  {
    if IsLeast(offers, s, a) {
    } else {
      var b :| (s, b) in offers && b < a;
      var rest := offers - {(s, a)};
      LeastExists(rest, s, b);
      var m :| IsLeast(rest, s, m);
      assert IsLeast(offers, s, m);
    }
  }

  ghost predicate Offered(offers: set<Offer>, s: string) {
    exists a :: (s, a) in offers
  }

  ghost function Least(offers: set<Offer>, s: string): (m: int)
    requires Offered(offers, s)
    ensures IsLeast(offers, s, m)
  {
    var a :| (s, a) in offers;
    LeastExists(offers, s, a);
    var m :| IsLeast(offers, s, m);
    m
  }

  /** Take every offer that is strictly earlier than what the stop already has; keep the earliest. */
  ghost function Merge(base: Labels, offers: set<Offer>, vehicle: bool): Labels {
    map s | s in base.Keys + (set o | o in offers :: o.0) :: Pick(base, offers, vehicle, s)
  }

  ghost function Pick(base: Labels, offers: set<Offer>, vehicle: bool, s: string): Label
    requires s in base.Keys + (set o | o in offers :: o.0)
  {
    if s in base && (Offered(offers, s) ==> base[s].time <= Least(offers, s)) then base[s]
    else
      assert Offered(offers, s) by { if s !in base { StopIsOffered(offers, s); } }
      Label(Least(offers, s), vehicle)
  }

  lemma StopIsOffered(offers: set<Offer>, s: string)
    requires s in set o | o in offers :: o.0
    ensures Offered(offers, s)
  {
    var o :| o in offers && o.0 == s;
    var a := o.1;
    assert o == (s, a);
    assert (s, a) in offers;
  }

  /** What `Merge` means, offer by offer: no offer beats it, and each of its labels is the old one or
      an offer strictly earlier than the old one. */
  ghost predicate IsMerge(base: Labels, m: Labels, offers: set<Offer>, vehicle: bool) {
    && (forall s :: s in base ==> s in m && m[s].time <= base[s].time)
    && (forall s :: s in m ==>
          || (s in base && m[s] == base[s])
          || ((s, m[s].time) in offers && m[s].vehicle == vehicle && Beats(base, s, m[s].time)))
    && (forall s, a :: (s, a) in offers ==> Covered(m, s, a))
  }

  lemma MergeMeaning(base: Labels, offers: set<Offer>, vehicle: bool)
    ensures IsMerge(base, Merge(base, offers, vehicle), offers, vehicle)
  {
    var m := Merge(base, offers, vehicle);
    forall s, a | (s, a) in offers
      ensures Covered(m, s, a)
    {
      assert (s, a).0 == s;
      assert s in m;
      assert m[s] == Pick(base, offers, vehicle, s);
    }
    forall s | s in m
      ensures || (s in base && m[s] == base[s])
              || ((s, m[s].time) in offers && m[s].vehicle == vehicle && Beats(base, s, m[s].time))
    {
      assert m[s] == Pick(base, offers, vehicle, s);
    }
  }

  lemma MergeUnique(base: Labels, m: Labels, n: Labels, offers: set<Offer>, vehicle: bool)
    requires IsMerge(base, m, offers, vehicle) && IsMerge(base, n, offers, vehicle)
    ensures m == n
  {
  }

  lemma Merged(base: Labels, offers: set<Offer>, vehicle: bool, m: Labels)
    requires IsMerge(base, m, offers, vehicle)
    ensures Merge(base, offers, vehicle) == m
  {
    MergeMeaning(base, offers, vehicle);
    MergeUnique(base, m, Merge(base, offers, vehicle), offers, vehicle);
  }

  /** Stops whose label the vehicles of a level made strictly earlier. */
  ghost function Improved(before: Labels, after: Labels): set<string> {
    set s | s in after && Beats(before, s, after[s].time)
  }

  ghost function Ride(w: World, prev: Labels): Labels
    requires WellFormed(w.buf)
  {
    Merge(prev, RideOffers(w, prev), true)
  }

  ghost function NextLevel(w: World, prev: Labels): Labels
    requires WellFormed(w.buf)
  {
    var mid := Ride(w, prev);
    Merge(mid, WalkOffers(w, mid, Improved(prev, mid)), false)
  }

  /** Level k: the earliest arrivals with at most k vehicles, by exhaustive search. */
  ghost function Level(w: World, k: nat): Labels
    requires WellFormed(w.buf)
  {
    if k == 0 then
      var start := map[w.params.origin := Label(w.params.depTime, false)];
      Merge(start, WalkOffers(w, start, {w.params.origin}), false)
    else
      NextLevel(w, Level(w, k - 1))
  }
}
