/** The invariant the whole search keeps: after round k every label of rounds 0..k is backed by a chain
    of real legs; and when ties are harmless, each vehicle of the chain was boarded with a label of the round
    just before, and the labels agree with the naive levels below the destination. */
module History {
  import opened Model
  import opened Reference
  import opened Agreement
  import opened Fifo
  import opened Rounds

  type TauTable = seq<Times>
  type JournalTable = seq<Journal>

  /** The round an entry was written in. */
  function Written(e: JournalEntry): int {
    if e.kind.Transit? then e.fromRound + 1 else e.fromRound
  }

  /** Stop `s` got the label it carries in round `r`. */
  predicate IsNew(w: World, journal: Journal, r: int, s: string) {
    if s == w.params.origin then r == 0 else s in journal && Written(journal[s]) == r
  }

  /** A vehicle leg boarded with the label its stop had in the round it departs from: when ties are harmless,
      one that was new in that round. */
  ghost predicate RideOK(w: World, tau: TauTable, journal: JournalTable, s: string, e: JournalEntry)
    requires WellFormed(w.buf) && |tau| == |journal|
  {
    && e.kind.Transit? && 0 <= e.fromRound < |tau|
    && RideEntry(w, e.fromRound, LabelsOf(tau[e.fromRound], journal[e.fromRound]), s, e)
    && (TiesHarmless(w) ==> IsNew(w, journal[e.fromRound], e.fromRound, e.from))
    && e.from != "" && e.from != s
  }

  ghost predicate IsEdge(w: World, s: string, e: JournalEntry, i: int) {
    && 0 <= i < |w.buf.Walks(e.from)|
    && s == w.buf.Walks(e.from)[i].neighbourStop
    && e.arrival == e.departure + w.buf.Walks(e.from)[i].walkSeconds
    && e.routeID == WALK_ROUTE_ID && e.tripKey == NO_TRIP
  }

  /** A walk leg along a footpath, out of the origin or out of a stop a vehicle had just reached. The
      vehicle leg it really follows is the remembered one, even when another walk has since lowered that
      stop's label. */
  ghost predicate WalkOK(w: World, tau: TauTable, journal: JournalTable, preWalk: JournalTable, s: string,
                         e: JournalEntry)
    requires WellFormed(w.buf) && |tau| == |journal| == |preWalk|
  {
    var r := e.fromRound;
    && e.kind.Walk? && 0 <= r < |tau|
    && e.from != "" && e.from != s
    && (exists i :: IsEdge(w, s, e, i))
    && (if r == 0 then e.from == w.params.origin && e.departure == w.params.depTime
        else
          && e.from != w.params.origin
          && e.from in preWalk[r] && e.from in journal[r]
          && var pre := preWalk[r][e.from];
          && pre.fromRound == r - 1 && pre.arrival == e.departure
          && RideOK(w, tau, journal, e.from, pre)
          && (journal[r][e.from] == pre || (journal[r][e.from].kind.Walk? && journal[r][e.from].fromRound == r)))
  }

  ghost predicate EntryOK(w: World, tau: TauTable, journal: JournalTable, preWalk: JournalTable, k: int, s: string)
    requires WellFormed(w.buf) && |tau| == |journal| == |preWalk| && 0 <= k < |tau|
  {
    && s in journal[k] && s in tau[k] && journal[k][s].arrival == tau[k][s]
    && Written(journal[k][s]) <= k
    && if journal[k][s].kind.Transit? then RideOK(w, tau, journal, s, journal[k][s])
       else WalkOK(w, tau, journal, preWalk, s, journal[k][s])
  }

  /** Every ride that could be caught with labels `l` is covered by labels `c`. */
  ghost predicate Closed(w: World, l: Labels, c: Labels)
    requires WellFormed(w.buf)
  {
    forall s, a :: (s, a) in RideOffers(w, l) ==> Covered(c, s, a) || Covered(c, w.params.destination, a)
  }

  /** The state a finished round k is in. */
  ghost predicate RoundOK(w: World, tau: TauTable, journal: JournalTable, preWalk: JournalTable, k: int)
    requires WellFormed(w.buf) && |tau| == |journal| == |preWalk| && 0 <= k < |tau|
  {
    && w.params.origin in tau[k] && tau[k][w.params.origin] == w.params.depTime
    && tau[k].Keys == journal[k].Keys + {w.params.origin} && w.params.origin !in journal[k]
    && (forall s :: s in tau[k] ==> tau[k][s] >= w.params.depTime)
    && (forall s :: s in journal[k] ==> EntryOK(w, tau, journal, preWalk, k, s))
    && (k > 0 ==>
          && (forall s :: s in tau[k] && !IsNew(w, journal[k], k, s) ==>
                Unchanged(tau[k - 1], journal[k - 1], tau[k], journal[k], s))
          && (forall s :: s in tau[k] && IsNew(w, journal[k], k, s) ==> Earlier(tau[k - 1], s, tau[k][s]))
          && Lowered(tau[k - 1], tau[k])
          && (TiesHarmless(w) ==> Closed(w, LabelsOf(tau[k - 1], journal[k - 1]), LabelsOf(tau[k], journal[k]))))
    && (TiesHarmless(w) ==> Agree(LabelsOf(tau[k], journal[k]), Level(w, k), w.params.destination))
  }

  ghost predicate HistoryOK(w: World, tau: TauTable, journal: JournalTable, preWalk: JournalTable, k: int)
    requires WellFormed(w.buf) && |tau| == |journal| == |preWalk| && k < |tau|
  {
    forall j :: 0 <= j <= k ==> RoundOK(w, tau, journal, preWalk, j)
  }

  /** Round by round the engine's labels are the naive level's, at the destination and below it. */
  lemma EveryRoundAgrees(w: World, tau: TauTable, journal: JournalTable, preWalk: JournalTable, last: int)
    requires WellFormed(w.buf) && |tau| == |journal| == |preWalk| && last < |tau|
    requires HistoryOK(w, tau, journal, preWalk, last) && TiesHarmless(w)
    ensures forall j :: 0 <= j <= last ==> Agree(LabelsOf(tau[j], journal[j]), Level(w, j), w.params.destination)
  {
    hide TiesHarmless;
    forall j | 0 <= j <= last
      ensures Agree(LabelsOf(tau[j], journal[j]), Level(w, j), w.params.destination)
    {
      assert RoundOK(w, tau, journal, preWalk, j);
    }
  }

  // ---- Framing: a finished round does not depend on later ones -----------------------------------

  predicate SamePrefix<T(==)>(a: seq<T>, b: seq<T>, k: int) {
    |a| == |b| && k < |a| && forall j :: 0 <= j <= k ==> a[j] == b[j]
  }

  lemma RoundFrame(w: World, tau: TauTable, journal: JournalTable, preWalk: JournalTable,
                   tau': TauTable, journal': JournalTable, preWalk': JournalTable, k: int)
    requires WellFormed(w.buf) && |tau| == |journal| == |preWalk| && 0 <= k < |tau|
    requires SamePrefix(tau, tau', k) && SamePrefix(journal, journal', k) && SamePrefix(preWalk, preWalk', k)
    requires RoundOK(w, tau, journal, preWalk, k)
    ensures RoundOK(w, tau', journal', preWalk', k)
  {
    hide TiesHarmless;
    forall s | s in journal[k]
      ensures EntryOK(w, tau', journal', preWalk', k, s)
    {
      EntryFrame(w, tau, journal, preWalk, tau', journal', preWalk', k, k, s);
    }
  }

  /** Also moves an entry unchanged from round `k` to a later round `m`. */
  lemma EntryFrame(w: World, tau: TauTable, journal: JournalTable, preWalk: JournalTable,
                   tau': TauTable, journal': JournalTable, preWalk': JournalTable, k: int, m: int, s: string)
    requires WellFormed(w.buf) && |tau| == |journal| == |preWalk| && 0 <= k <= m < |tau|
    requires SamePrefix(tau, tau', k) && SamePrefix(journal, journal', k) && SamePrefix(preWalk, preWalk', k)
    requires EntryOK(w, tau, journal, preWalk, k, s)
    requires s in journal'[m] && s in tau'[m] && journal'[m][s] == journal[k][s] && tau'[m][s] == tau[k][s]
    ensures EntryOK(w, tau', journal', preWalk', m, s)
  {
    hide TiesHarmless;
  }

  // ---- One more round ----------------------------------------------------------------------------

  lemma AllNewAtStart(w: World, tau: TauTable, journal: JournalTable, preWalk: JournalTable, s: string)
    requires WellFormed(w.buf) && |tau| == |journal| == |preWalk| && 0 < |tau|
    requires RoundOK(w, tau, journal, preWalk, 0)
    requires s in tau[0]
    ensures IsNew(w, journal[0], 0, s)
  {
    hide TiesHarmless;
    if s != w.params.origin {
      assert EntryOK(w, tau, journal, preWalk, 0, s);
    }
  }

  /** A ride boarded with a label that did not change last round was already covered last round. */
  lemma OldLabelsOfferNothing(w: World, tau: TauTable, journal: JournalTable, preWalk: JournalTable, k: int,
                              ri: int, t: int, p: int, q: int)
    requires WellFormed(w.buf) && |tau| == |journal| == |preWalk| && 0 <= k < |tau|
    requires RoundOK(w, tau, journal, preWalk, k) && TiesHarmless(w)
    requires RideOffer(w, LabelsOf(tau[k], journal[k]), ri, t, p, q)
    requires !IsNew(w, journal[k], k, w.buf.routes[ri].stopIDs[p])
    ensures RideTried(w, tau[k], ri, t, q)
  {
    hide TiesHarmless;
    var from := w.buf.routes[ri].stopIDs[p];
    if k == 0 {
      AllNewAtStart(w, tau, journal, preWalk, from);
    } else {
      assert Unchanged(tau[k - 1], journal[k - 1], tau[k], journal[k], from);
      var before, now := LabelsOf(tau[k - 1], journal[k - 1]), LabelsOf(tau[k], journal[k]);
      assert before[from] == now[from];
      assert RideOffer(w, before, ri, t, p, q);
      var s, a := w.buf.routes[ri].stopIDs[q], w.buf.stopTimes[ri][t].arrivals[q];
      assert (s, a) in RideOffers(w, before);
      assert Covered(now, s, a) || Covered(now, w.params.destination, a);
    }
  }

  /** Scanning a route from its first marked position, or not at all when it has none, leaves no ride
      of that route untried. */
  lemma MarkedSuffices(w: World, tau: TauTable, journal: JournalTable, preWalk: JournalTable, k: int,
                       t: Times, ri: int, from: int)
    requires WellFormed(w.buf) && |tau| == |journal| == |preWalk| && 0 <= k < |tau|
    requires RoundOK(w, tau, journal, preWalk, k) && TiesHarmless(w)
    requires 0 <= ri < |w.buf.routes|
    requires Lowered(tau[k], t)
    requires RouteScanned(w, LabelsOf(tau[k], journal[k]), t, ri, from)
    requires forall p :: 0 <= p < from && p < |w.buf.routes[ri].stopIDs| && w.buf.routes[ri].stopIDs[p] in tau[k]
               ==> !IsNew(w, journal[k], k, w.buf.routes[ri].stopIDs[p])
    ensures RouteScanned(w, LabelsOf(tau[k], journal[k]), t, ri, 0)
  {
    hide TiesHarmless;
    forall ti, p, q | 0 <= p && RideOffer(w, LabelsOf(tau[k], journal[k]), ri, ti, p, q)
      ensures RideTried(w, t, ri, ti, q)
    {
      if p < from {
        OldLabelsOfferNothing(w, tau, journal, preWalk, k, ri, ti, p, q);
      }
    }
  }

  /** A ride that improves anything is real, and when ties are harmless was boarded with a label of the very last
      round. */
  lemma NewRideIsFresh(w: World, tau: TauTable, journal: JournalTable, preWalk: JournalTable, k: int,
                       s: string, e: JournalEntry)
    requires WellFormed(w.buf) && |tau| == |journal| == |preWalk| && 0 <= k < |tau|
    requires RoundOK(w, tau, journal, preWalk, k)
    requires RideEntry(w, k, LabelsOf(tau[k], journal[k]), s, e)
    requires Earlier(tau[k], s, e.arrival) && Earlier(tau[k], w.params.destination, e.arrival)
    ensures RideOK(w, tau, journal, s, e) && e.fromRound == k
    ensures s != w.params.origin && e.arrival >= w.params.depTime
  {
    hide TiesHarmless;
    var l := LabelsOf(tau[k], journal[k]);
    var ri, t, p, q :| IsRide(w, k, l, s, e, ri, t, p, q);
    BoardedBelow(w, l, ri, t, p, q);
    assert Indexed(w.buf, ri, p);
    assert l[e.from].time == tau[k][e.from];
    if TiesHarmless(w) && !IsNew(w, journal[k], k, e.from) {
      OldLabelsOfferNothing(w, tau, journal, preWalk, k, ri, t, p, q);
    }
  }

  /** The maps of one round, as left by the round before, by the vehicles (`t`, `j`), and by the walks. */
  ghost predicate VehiclesRan(w: World, tau: TauTable, journal: JournalTable, k: int, t: Times, j: Journal,
                              improved: set<string>)
    requires WellFormed(w.buf) && |tau| == |journal| && 1 <= k < |tau|
  {
    Phase(tau[k - 1], journal[k - 1], t, j, improved,
          Rides(w, k - 1, LabelsOf(tau[k - 1], journal[k - 1])), w.params.destination)
  }

  ghost predicate WalkersRan(w: World, tau: TauTable, journal: JournalTable, preWalk: JournalTable, k: int,
                             t: Times, j: Journal, improved: set<string>, walked: set<string>)
    requires |tau| == |journal| == |preWalk| && 1 <= k < |tau|
  {
    && Phase(t, j, tau[k], journal[k], walked, WalksFrom(w, k, t, improved), w.params.destination)
    && Remembers(w, j, improved, preWalk[k])
  }

  lemma RoundAgreesAndCloses(w: World, tau: TauTable, journal: JournalTable, preWalk: JournalTable, k: int,
                             t: Times, j: Journal, improved: set<string>, walked: set<string>)
    requires WellFormed(w.buf) && |tau| == |journal| == |preWalk| && 1 <= k < |tau|
    requires VehiclesRan(w, tau, journal, k, t, j, improved)
    requires WalkersRan(w, tau, journal, preWalk, k, t, j, improved, walked)
    requires AllScanned(w, LabelsOf(tau[k - 1], journal[k - 1]), t)
    requires AllWalked(w, t, tau[k], improved)
    requires Agree(LabelsOf(tau[k - 1], journal[k - 1]), Level(w, k - 1), w.params.destination)
    ensures Agree(LabelsOf(tau[k], journal[k]), Level(w, k), w.params.destination)
    ensures Closed(w, LabelsOf(tau[k - 1], journal[k - 1]), LabelsOf(tau[k], journal[k]))
  {
    var e, c, e' := LabelsOf(tau[k - 1], journal[k - 1]), LabelsOf(t, j), LabelsOf(tau[k], journal[k]);
    RidesMerge(w, k - 1, tau[k - 1], journal[k - 1], t, j, improved);
    WalksMerge(w, k, t, j, tau[k], journal[k], improved, walked);
    RoundAgrees(w, e, Level(w, k - 1), c, e');
  }

  /** A walk out of a stop a vehicle reached this round, given the leg remembered for that stop. */
  lemma NewWalkIsOK(w: World, tau: TauTable, journal: JournalTable, preWalk: JournalTable, k: int,
                    t: Times, s: string, e: JournalEntry, pre: JournalEntry)
    requires WellFormed(w.buf) && |tau| == |journal| == |preWalk| && 1 <= k < |tau|
    requires WalkEntry(w, k, t, s, e) && Earlier(t, s, e.arrival)
    requires RideOK(w, tau, journal, e.from, pre) && pre.fromRound == k - 1 && pre.arrival == t[e.from]
    requires e.from != w.params.origin && e.from != ""
    requires e.from in preWalk[k] && preWalk[k][e.from] == pre && e.from in journal[k]
    requires journal[k][e.from] == pre || (journal[k][e.from].kind.Walk? && journal[k][e.from].fromRound == k)
    ensures WalkOK(w, tau, journal, preWalk, s, e)
    ensures e.fromRound == k && e.kind.Walk? && e.arrival >= t[e.from]
  {
    hide TiesHarmless;
    var i :| IsWalk(w, k, t, s, e, i);
    assert IsEdge(w, s, e, i);
    assert w.buf.footpaths[e.from][i].walkSeconds >= 0;
  }

  lemma ImprovedLeg(w: World, tau: TauTable, journal: JournalTable, k: int,
                    t: Times, j: Journal, improved: set<string>, s: string)
    requires WellFormed(w.buf) && |tau| == |journal| && 1 <= k < |tau|
    requires VehiclesRan(w, tau, journal, k, t, j, improved) && s in improved
    ensures s in t && s in j && j[s].arrival == t[s]
    ensures Earlier(tau[k - 1], s, t[s]) && Earlier(tau[k - 1], w.params.destination, t[s])
    ensures RideEntry(w, k - 1, LabelsOf(tau[k - 1], journal[k - 1]), s, j[s])
  {
    assert NewLeg(tau[k - 1], t, j, Rides(w, k - 1, LabelsOf(tau[k - 1], journal[k - 1])), w.params.destination, s);
  }

  /** What a stop improved by a vehicle carries before the walk pass. */
  lemma ImprovedStop(w: World, tau: TauTable, journal: JournalTable, preWalk: JournalTable, k: int,
                     t: Times, j: Journal, improved: set<string>, s: string)
    requires WellFormed(w.buf) && |tau| == |journal| == |preWalk| && 1 <= k < |tau|
    requires VehiclesRan(w, tau, journal, k, t, j, improved)
    requires RoundOK(w, tau, journal, preWalk, k - 1)
    requires s in improved
    ensures s in t && s in j && j[s].arrival == t[s] >= w.params.depTime
    ensures RideOK(w, tau, journal, s, j[s]) && j[s].fromRound == k - 1
    ensures s != w.params.origin && s != "" && Earlier(tau[k - 1], s, t[s])
  {
    hide TiesHarmless, RoundOK, VehiclesRan, RideOK, WellFormed;
    var l := LabelsOf(tau[k - 1], journal[k - 1]);
    ImprovedLeg(w, tau, journal, k, t, j, improved, s);
    NewRideIsFresh(w, tau, journal, preWalk, k - 1, s, j[s]);
    RideNamesStop(w, k - 1, l, s, j[s]);
  }

  lemma RideNamesStop(w: World, r: int, l: Labels, s: string, e: JournalEntry)
    requires WellFormed(w.buf)
    requires RideEntry(w, r, l, s, e)
    ensures s != ""
  {
    var ri, t, p, q :| IsRide(w, r, l, s, e, ri, t, p, q);
    assert Indexed(w.buf, ri, q);
  }

  lemma WalkedStop(w: World, tau: TauTable, journal: JournalTable, preWalk: JournalTable, k: int,
                   t: Times, j: Journal, improved: set<string>, walked: set<string>, s: string)
    requires WellFormed(w.buf) && |tau| == |journal| == |preWalk| && 1 <= k < |tau|
    requires VehiclesRan(w, tau, journal, k, t, j, improved)
    requires WalkersRan(w, tau, journal, preWalk, k, t, j, improved, walked)
    requires RoundOK(w, tau, journal, preWalk, k - 1)
    requires s in walked
    ensures EntryOK(w, tau, journal, preWalk, k, s) && Written(journal[k][s]) == k
    ensures tau[k][s] >= w.params.depTime && s != w.params.origin && Earlier(tau[k - 1], s, tau[k][s])
  {
    hide TiesHarmless, RideOK, WalkOK, RoundOK, VehiclesRan, WalkersRan, WellFormed;
    OriginStays(w, tau, journal, preWalk, k, t, j, improved);
    WalkedLeg(w, tau, journal, preWalk, k, t, j, improved, walked, s);
    var e := journal[k][s];
    ImprovedStop(w, tau, journal, preWalk, k, t, j, improved, e.from);
    SourceAfterwards(w, tau, journal, preWalk, k, t, j, improved, walked, e.from);
    NewWalkIsOK(w, tau, journal, preWalk, k, t, s, e, j[e.from]);
    AtMostLowered(w, tau, journal, k, t, j, improved, s, tau[k][s]);
  }

  lemma OriginStays(w: World, tau: TauTable, journal: JournalTable, preWalk: JournalTable, k: int,
                    t: Times, j: Journal, improved: set<string>)
    requires WellFormed(w.buf) && |tau| == |journal| == |preWalk| && 1 <= k < |tau|
    requires VehiclesRan(w, tau, journal, k, t, j, improved)
    requires RoundOK(w, tau, journal, preWalk, k - 1)
    ensures w.params.origin in t && t[w.params.origin] <= w.params.depTime
  {
    hide TiesHarmless, EntryOK;
  }

  /** What beats a stop after the vehicles beats it before them. */
  lemma AtMostLowered(w: World, tau: TauTable, journal: JournalTable, k: int, t: Times, j: Journal,
                      improved: set<string>, s: string, a: int)
    requires WellFormed(w.buf) && |tau| == |journal| && 1 <= k < |tau|
    requires VehiclesRan(w, tau, journal, k, t, j, improved) && Earlier(t, s, a)
    ensures Earlier(tau[k - 1], s, a)
  {
  }

  lemma WalkedLeg(w: World, tau: TauTable, journal: JournalTable, preWalk: JournalTable, k: int,
                  t: Times, j: Journal, improved: set<string>, walked: set<string>, s: string)
    requires |tau| == |journal| == |preWalk| && 1 <= k < |tau|
    requires WalkersRan(w, tau, journal, preWalk, k, t, j, improved, walked)
    requires s in walked
    ensures s in tau[k] && s in journal[k] && journal[k][s].arrival == tau[k][s]
    ensures WalkEntry(w, k, t, s, journal[k][s]) && Earlier(t, s, tau[k][s])
    ensures journal[k][s].from in improved && journal[k][s].kind.Walk? && journal[k][s].fromRound == k
    ensures |w.buf.Walks(journal[k][s].from)| > 0
  {
    assert NewLeg(t, tau[k], journal[k], WalksFrom(w, k, t, improved), w.params.destination, s);
    var i :| IsWalk(w, k, t, s, journal[k][s], i);
  }

  lemma SourceAfterwards(w: World, tau: TauTable, journal: JournalTable, preWalk: JournalTable, k: int,
                         t: Times, j: Journal, improved: set<string>, walked: set<string>, s: string)
    requires |tau| == |journal| == |preWalk| && 1 <= k < |tau|
    requires WalkersRan(w, tau, journal, preWalk, k, t, j, improved, walked)
    requires s in improved && s in t && s in j && |w.buf.Walks(s)| > 0
    ensures s in preWalk[k] && preWalk[k][s] == j[s] && s in journal[k]
    ensures journal[k][s] == j[s] || (journal[k][s].kind.Walk? && journal[k][s].fromRound == k)
  {
    if s in walked {
      WalkedLeg(w, tau, journal, preWalk, k, t, j, improved, walked, s);
    } else {
      assert Unchanged(t, j, tau[k], journal[k], s);
    }
  }

  lemma LabelFacts(w: World, tau: TauTable, journal: JournalTable, preWalk: JournalTable, k: int, s: string)
    requires WellFormed(w.buf) && |tau| == |journal| == |preWalk| && 0 <= k < |tau|
    requires RoundOK(w, tau, journal, preWalk, k)
    requires s in tau[k]
    ensures tau[k][s] >= w.params.depTime
    ensures s == w.params.origin <==> s !in journal[k]
    ensures s in journal[k] ==> EntryOK(w, tau, journal, preWalk, k, s) && Written(journal[k][s]) <= k
    ensures s == w.params.origin ==> tau[k][s] == w.params.depTime
  {
    hide TiesHarmless;
  }

  lemma UntouchedStop(w: World, tau: TauTable, journal: JournalTable, preWalk: JournalTable, k: int, s: string)
    requires WellFormed(w.buf) && |tau| == |journal| == |preWalk| && 1 <= k < |tau|
    requires RoundOK(w, tau, journal, preWalk, k - 1)
    requires Unchanged(tau[k - 1], journal[k - 1], tau[k], journal[k], s)
    ensures tau[k][s] >= w.params.depTime
    ensures s == w.params.origin <==> s !in journal[k]
    ensures s in journal[k] ==> EntryOK(w, tau, journal, preWalk, k, s)
    ensures !IsNew(w, journal[k], k, s)
  {
    hide TiesHarmless;
    hide RoundOK;
    LabelFacts(w, tau, journal, preWalk, k - 1, s);
    if s in journal[k - 1] {
      hide EntryOK;
      EntryFrame(w, tau, journal, preWalk, tau, journal, preWalk, k - 1, k, s);
    }
  }

  lemma RodeStop(w: World, tau: TauTable, journal: JournalTable, preWalk: JournalTable, k: int,
                 t: Times, j: Journal, improved: set<string>, s: string)
    requires WellFormed(w.buf) && |tau| == |journal| == |preWalk| && 1 <= k < |tau|
    requires VehiclesRan(w, tau, journal, k, t, j, improved)
    requires RoundOK(w, tau, journal, preWalk, k - 1)
    requires s in improved && Unchanged(t, j, tau[k], journal[k], s)
    ensures EntryOK(w, tau, journal, preWalk, k, s) && Written(journal[k][s]) == k
    ensures tau[k][s] >= w.params.depTime && s != w.params.origin && Earlier(tau[k - 1], s, tau[k][s])
  {
    hide TiesHarmless;
    hide RoundOK, WalkOK;
    ImprovedStop(w, tau, journal, preWalk, k, t, j, improved, s);
    hide RideOK;
  }

  /** What the invariant says of one stop of round k, which did or did not change in that round. */
  ghost predicate StopKept(w: World, tau: TauTable, journal: JournalTable, preWalk: JournalTable, k: int, s: string,
                           changed: bool)
    requires WellFormed(w.buf) && |tau| == |journal| == |preWalk| && 1 <= k < |tau| && s in tau[k]
  {
    && tau[k][s] >= w.params.depTime
    && (s == w.params.origin <==> s !in journal[k])
    && (s in journal[k] ==> EntryOK(w, tau, journal, preWalk, k, s))
    && (IsNew(w, journal[k], k, s) <==> changed)
    && if changed then Earlier(tau[k - 1], s, tau[k][s])
       else Unchanged(tau[k - 1], journal[k - 1], tau[k], journal[k], s)
  }

  lemma RoundEntries(w: World, tau: TauTable, journal: JournalTable, preWalk: JournalTable, k: int,
                     t: Times, j: Journal, improved: set<string>, walked: set<string>, s: string)
    requires WellFormed(w.buf) && |tau| == |journal| == |preWalk| && 1 <= k < |tau|
    requires VehiclesRan(w, tau, journal, k, t, j, improved)
    requires WalkersRan(w, tau, journal, preWalk, k, t, j, improved, walked)
    requires RoundOK(w, tau, journal, preWalk, k - 1)
    requires s in tau[k]
    ensures StopKept(w, tau, journal, preWalk, k, s, s in improved + walked)
  {
    hide TiesHarmless;
    hide RoundOK, EntryOK, Rides, WalksFrom;
    if s in walked {
      WalkedStop(w, tau, journal, preWalk, k, t, j, improved, walked, s);
    } else {
      assert Unchanged(t, j, tau[k], journal[k], s);
      if s in improved {
        RodeStop(w, tau, journal, preWalk, k, t, j, improved, s);
      } else {
        assert Unchanged(tau[k - 1], journal[k - 1], t, j, s);
        UntouchedStop(w, tau, journal, preWalk, k, s);
      }
    }
  }

  /** The invariant survives a round. */
  lemma RoundKeeps(w: World, tau: TauTable, journal: JournalTable, preWalk: JournalTable, k: int,
                   t: Times, j: Journal, improved: set<string>, walked: set<string>)
    requires WellFormed(w.buf) && |tau| == |journal| == |preWalk| && 1 <= k < |tau|
    requires VehiclesRan(w, tau, journal, k, t, j, improved)
    requires WalkersRan(w, tau, journal, preWalk, k, t, j, improved, walked)
    requires TiesHarmless(w) ==> AllScanned(w, LabelsOf(tau[k - 1], journal[k - 1]), t)
    requires AllWalked(w, t, tau[k], improved)
    requires RoundOK(w, tau, journal, preWalk, k - 1)
    ensures RoundOK(w, tau, journal, preWalk, k)
    ensures MarkedIs(w, tau, journal, k, improved + walked)
  {
    hide RoundOK, TiesHarmless;
    RoundFacts(w, tau, journal, preWalk, k - 1);
    if TiesHarmless(w) {
      RoundAgreesAndCloses(w, tau, journal, preWalk, k, t, j, improved, walked);
    }
    KeysMatch(w, tau, journal, preWalk, k, t, j, improved, walked);
    forall s | s in tau[k]
      ensures StopKept(w, tau, journal, preWalk, k, s, s in improved + walked)
    {
      RoundEntries(w, tau, journal, preWalk, k, t, j, improved, walked, s);
    }
    AssembleRound(w, tau, journal, preWalk, k, improved + walked);
  }

  lemma RoundFacts(w: World, tau: TauTable, journal: JournalTable, preWalk: JournalTable, k: int)
    requires WellFormed(w.buf) && |tau| == |journal| == |preWalk| && 0 <= k < |tau|
    requires RoundOK(w, tau, journal, preWalk, k)
    ensures w.params.origin in tau[k] && tau[k][w.params.origin] == w.params.depTime
    ensures tau[k].Keys == journal[k].Keys + {w.params.origin}
    ensures TiesHarmless(w) ==> Agree(LabelsOf(tau[k], journal[k]), Level(w, k), w.params.destination)
  {
    hide TiesHarmless;
  }

  lemma AssembleRound(w: World, tau: TauTable, journal: JournalTable, preWalk: JournalTable, k: int,
                      changed: set<string>)
    requires WellFormed(w.buf) && |tau| == |journal| == |preWalk| && 1 <= k < |tau|
    requires forall s :: s in tau[k] ==> StopKept(w, tau, journal, preWalk, k, s, s in changed)
    requires w.params.origin in tau[k] && tau[k][w.params.origin] <= w.params.depTime
    requires journal[k].Keys <= tau[k].Keys
    requires Lowered(tau[k - 1], tau[k])
    requires TiesHarmless(w) ==> Closed(w, LabelsOf(tau[k - 1], journal[k - 1]), LabelsOf(tau[k], journal[k]))
    requires TiesHarmless(w) ==> Agree(LabelsOf(tau[k], journal[k]), Level(w, k), w.params.destination)
    ensures RoundOK(w, tau, journal, preWalk, k)
    ensures forall s :: s in tau[k] ==> (IsNew(w, journal[k], k, s) <==> s in changed)
  {
    hide Closed, Agree, EntryOK, TiesHarmless;
  }

  lemma KeysMatch(w: World, tau: TauTable, journal: JournalTable, preWalk: JournalTable, k: int,
                  t: Times, j: Journal, improved: set<string>, walked: set<string>)
    requires WellFormed(w.buf) && |tau| == |journal| == |preWalk| && 1 <= k < |tau|
    requires VehiclesRan(w, tau, journal, k, t, j, improved)
    requires WalkersRan(w, tau, journal, preWalk, k, t, j, improved, walked)
    requires w.params.origin in tau[k - 1]
    requires tau[k - 1][w.params.origin] == w.params.depTime
    requires journal[k - 1].Keys <= tau[k - 1].Keys
    ensures journal[k].Keys <= tau[k].Keys
    ensures w.params.origin in tau[k] && tau[k][w.params.origin] <= w.params.depTime
    ensures Lowered(tau[k - 1], tau[k])
  {
  }

  /** Round 0: the origin, and whatever can be walked to from it. */
  lemma StartIsOK(w: World, tau: TauTable, journal: JournalTable, preWalk: JournalTable, walked: set<string>)
    requires WellFormed(w.buf) && |tau| == |journal| == |preWalk| && 0 < |tau|
    requires w.params.origin != "" && w.params.origin != w.params.destination
    requires var t0 := map[w.params.origin := w.params.depTime];
             && Phase(t0, map[], tau[0], journal[0], walked, WalksFrom(w, 0, t0, {w.params.origin}),
                      w.params.destination)
             && AllWalked(w, t0, tau[0], {w.params.origin})
    ensures RoundOK(w, tau, journal, preWalk, 0)
    ensures MarkedIs(w, tau, journal, 0, {w.params.origin} + walked)
  {
    hide TiesHarmless, Agree, EntryOK, WalksFrom, AllWalked, Level, LabelsOf;
    StartAgrees(w, tau[0], journal[0], walked);
    var t0, o := map[w.params.origin := w.params.depTime], w.params.origin;
    forall s | s in walked
      ensures EntryOK(w, tau, journal, preWalk, 0, s) && Written(journal[0][s]) == 0
      ensures tau[0][s] >= w.params.depTime && s != o
    {
      FirstWalk(w, tau, journal, preWalk, walked, s);
    }
    assert o !in walked;
    assert Unchanged(t0, map[], tau[0], journal[0], o);
  }

  lemma StartAgrees(w: World, t: Times, j: Journal, walked: set<string>)
    requires WellFormed(w.buf)
    requires var t0 := map[w.params.origin := w.params.depTime];
             && Phase(t0, map[], t, j, walked, WalksFrom(w, 0, t0, {w.params.origin}), w.params.destination)
             && AllWalked(w, t0, t, {w.params.origin})
    ensures Agree(LabelsOf(t, j), Level(w, 0), w.params.destination)
  {
    hide Phase, AllWalked, WalksFrom, PrunedMerge, Agree, WellFormed;
    var t0, o := map[w.params.origin := w.params.depTime], w.params.origin;
    var start := map[o := Label(w.params.depTime, false)];
    assert LabelsOf(t0, map[]) == start;
    WalksMerge(w, 0, t0, map[], t, j, {o}, walked);
    AgreesWithItself(start, w.params.destination);
    MergeAgree(start, start, LabelsOf(t, j), WalkOffers(w, start, {o}), WalkOffers(w, start, {o}),
               w.params.destination, false);
  }

  lemma AgreesWithItself(l: Labels, dest: string)
    ensures Agree(l, l, dest)
  {
  }

  lemma FirstWalk(w: World, tau: TauTable, journal: JournalTable, preWalk: JournalTable, walked: set<string>, s: string)
    requires WellFormed(w.buf) && |tau| == |journal| == |preWalk| && 0 < |tau|
    requires w.params.origin != ""
    requires var t0 := map[w.params.origin := w.params.depTime];
             Phase(t0, map[], tau[0], journal[0], walked, WalksFrom(w, 0, t0, {w.params.origin}), w.params.destination)
    requires s in walked
    ensures EntryOK(w, tau, journal, preWalk, 0, s) && Written(journal[0][s]) == 0
    ensures tau[0][s] >= w.params.depTime && s != w.params.origin
  {
    hide TiesHarmless;
    var t0 := map[w.params.origin := w.params.depTime];
    assert NewLeg(t0, tau[0], journal[0], WalksFrom(w, 0, t0, {w.params.origin}), w.params.destination, s);
    var i :| IsWalk(w, 0, t0, s, journal[0][s], i);
    assert IsEdge(w, s, journal[0][s], i);
    assert w.buf.footpaths[w.params.origin][i].walkSeconds >= 0;
  }

  /** The stops marked after round k are the ones whose label is of round k. */
  ghost predicate MarkedIs(w: World, tau: TauTable, journal: JournalTable, k: int, marked: set<string>)
    requires |tau| == |journal| && 0 <= k < |tau|
  {
    forall s :: s in tau[k] ==> (IsNew(w, journal[k], k, s) <==> s in marked)
  }

  /** A round that marked nothing: every later level agrees with its labels. */
  lemma NothingMarked(w: World, tau: TauTable, journal: JournalTable, preWalk: JournalTable, k: int, j: int)
    requires WellFormed(w.buf) && |tau| == |journal| == |preWalk| && 0 <= k < |tau| && k <= j
    requires RoundOK(w, tau, journal, preWalk, k) && TiesHarmless(w)
    requires MarkedIs(w, tau, journal, k, {})
    ensures Agree(LabelsOf(tau[k], journal[k]), Level(w, j), w.params.destination)
  {
    hide TiesHarmless;
    var l := LabelsOf(tau[k], journal[k]);
    forall s, a | (s, a) in RideOffers(w, l)
      ensures Covered(l, s, a) || Covered(l, w.params.destination, a)
    {
      var ri, t, p, q := OfferedRide(w, l, s, a);
      OldLabelsOfferNothing(w, tau, journal, preWalk, k, ri, t, p, q);
    }
    IdleForever(w, l, k, j);
  }
}
