/** The search does not depend on the order it scans routes or walks from stops in: when ties are harmless, two runs in
    any two orders agree on the destination round by round, stop together, and find the same trade-offs. */
module AnyOrder {
  import opened Model
  import opened Reference
  import opened Agreement
  import opened Fifo
  import opened Rounds
  import opened History
  import opened Frontier
  import opened Answer
  import opened Traces
  import opened Engine

  // ---- Round by round ----------------------------------------------------------------------------

  function ArrivalIn(t: Times, dest: string): Option<int> {
    if dest in t then Some(t[dest]) else None
  }

  /** The destination's arrival in every round up to the limit; rounds after the last one run have none. */
  ghost predicate AreArrivals(w: World, out: seq<Option<int>>, last: nat)
    requires WellFormed(w.buf)
  {
    && |out| == w.params.Rounds() + 1 && StopsAt(w, last)
    && forall k :: 0 <= k < |out| ==> out[k] == if k <= last then LevelArrival(w, k) else None
  }

  /** Run all rounds in the given orders and read off the destination. */
  method Arrivals(w: World, orders: Orders) returns (out: seq<Option<int>>, ghost last: nat)
    requires WellFormed(w.buf) && orders.Complete()
    requires w.params.origin != "" && w.params.origin != w.params.destination
    ensures |out| == w.params.Rounds() + 1 && last <= w.params.Rounds()
    ensures TiesHarmless(w) ==> AreArrivals(w, out, last)
  {
    hide Trace, HistoryOK, Agree, StopsAt, TiesHarmless, LevelArrival;
    var s := new SearchState(w);
    ghost var marks;
    last, marks := s.Run(orders);
    out := [];
    for k := 0 to |s.tau|
      invariant |out| == k && forall j :: 0 <= j < k ==> out[j] == ArrivalIn(s.tau[j], w.params.destination)
    {
      out := out + [ArrivalIn(s.tau[k], w.params.destination)];
    }
    if TiesHarmless(w) {
      forall k | 0 <= k < |out|
        ensures out[k] == if k <= last then LevelArrival(w, k) else None
      {
        if k <= last {
          AgreedArrival(w, s.tau[k], s.journal[k], k);
        }
      }
    }
  }

  lemma AgreedArrival(w: World, t: Times, j: Journal, k: nat)
    requires WellFormed(w.buf) && Agree(LabelsOf(t, j), Level(w, k), w.params.destination)
    ensures ArrivalIn(t, w.params.destination) == LevelArrival(w, k)
  {
    assert LabelsOf(t, j).Keys == t.Keys;
  }

  lemma SameArrivals(w: World, a: seq<Option<int>>, last: nat, b: seq<Option<int>>, last': nat)
    requires WellFormed(w.buf) && AreArrivals(w, a, last) && AreArrivals(w, b, last')
    ensures a == b && last == last'
  {
    hide WellFormed, StopsAt, LevelArrival;
    StopsOnce(w, last, last');
  }

  /** Two runs: the same arrival at the destination in every round, and the same last round. */
  method SameRounds(w: World, one: Orders, two: Orders)
      returns (a: seq<Option<int>>, b: seq<Option<int>>, ghost last: nat, ghost last': nat)
    requires WellFormed(w.buf) && one.Complete() && two.Complete()
    requires w.params.origin != "" && w.params.origin != w.params.destination
    ensures |a| == |b| == w.params.Rounds() + 1
    ensures TiesHarmless(w) ==> a == b && last == last'
  {
    hide TiesHarmless, AreArrivals;
    a, last := Arrivals(w, one);
    b, last' := Arrivals(w, two);
    if TiesHarmless(w) {
      SameArrivals(w, a, last, b, last');
    }
  }

  // ---- The answers -------------------------------------------------------------------------------

  predicate SamePair(p: Path, q: Path) {
    p.arrival == q.arrival && p.transfers == q.transfers
  }

  ghost predicate SamePairs(a: seq<Path>, b: seq<Path>) {
    |a| == |b| && forall i :: 0 <= i < |a| ==> SamePair(a[i], b[i])
  }

  ghost predicate PairsWithin(a: seq<Path>, b: seq<Path>) {
    forall p :: p in a ==> exists q :: q in b && SamePair(p, q)
  }

  /** Strictly ordered lists of the same pairs are alike. */
  lemma {:induction false} OrderedPairsAreSame(a: seq<Path>, b: seq<Path>)
    requires StrictTradeOff(a) && StrictTradeOff(b) && PairsWithin(a, b) && PairsWithin(b, a)
    ensures SamePairs(a, b)
  {
    if a != [] && b != [] {
      var m, n := |a| - 1, |b| - 1;
      LastIsLatest(a, b);
      LastIsLatest(b, a);
      WithoutLast(a, b);
      WithoutLast(b, a);
      OrderedPairsAreSame(a[..m], b[..n]);
      assert SamePairs(a[..m], b[..n]);
      forall i | 0 <= i < |a|
        ensures SamePair(a[i], b[i])
      {
        if i < m {
          assert a[..m][i] == a[i] && b[..n][i] == b[i];
        }
      }
    } else if b == [] {
      NothingWithin(a);
    } else {
      NothingWithin(b);
    }
  }

  lemma NothingWithin(a: seq<Path>)
    ensures PairsWithin(a, []) ==> a == []
  {
    if a != [] {
      assert a[0] in a;
    }
  }

  lemma LastIsLatest(a: seq<Path>, b: seq<Path>)
    requires StrictTradeOff(b) && PairsWithin(a, b) && a != [] && b != []
    ensures a[|a| - 1].arrival <= b[|b| - 1].arrival
    ensures a[|a| - 1].arrival == b[|b| - 1].arrival ==> SamePair(a[|a| - 1], b[|b| - 1])
  {
    assert a[|a| - 1] in a;
    var q :| q in b && SamePair(a[|a| - 1], q);
    var i :| 0 <= i < |b| && b[i] == q;
  }

  lemma WithoutLast(a: seq<Path>, b: seq<Path>)
    requires StrictTradeOff(a) && StrictTradeOff(b) && PairsWithin(a, b) && a != [] && b != []
    requires a[|a| - 1].arrival == b[|b| - 1].arrival
    ensures PairsWithin(a[..|a| - 1], b[..|b| - 1])
  {
    var m, n := |a| - 1, |b| - 1;
    forall p | p in a[..m]
      ensures exists q :: q in b[..n] && SamePair(p, q)
    {
      var i :| 0 <= i < m && a[i] == p;
      assert p in a;
      var q :| q in b && SamePair(p, q);
      var j :| 0 <= j < |b| && b[j] == q;
      assert a[i].arrival < a[m].arrival;
      assert q == b[..n][j];
    }
  }

  lemma AnswersWithin(w: World, a: seq<Path>, b: seq<Path>)
    requires WellFormed(w.buf) && IsAnswer(w, a) && IsAnswer(w, b)
    ensures PairsWithin(a, b)
  {
    hide WellFormed, NonDominated, LevelArrival, StrictTradeOff;
    forall p | p in a
      ensures exists q :: q in b && SamePair(p, q)
    {
      var k :| 0 <= k <= w.params.Rounds() && Serves(w, k, p);
      ServedPair(w, k, p);
    }
  }

  /** Two answers to one query list the same trade-offs. */
  lemma AnswersAlike(w: World, topK: int, a: seq<Path>, b: seq<Path>)
    requires WellFormed(w.buf) && IsTopK(w, topK, a) && IsTopK(w, topK, b)
    ensures SamePairs(a, b)
  {
    hide WellFormed, NonDominated, LevelArrival, Serves;
    var x :| IsAnswer(w, x) && a == Cut(x, topK);
    var y :| IsAnswer(w, y) && b == Cut(y, topK);
    AnswersWithin(w, x, y);
    AnswersWithin(w, y, x);
    OrderedPairsAreSame(x, y);
  }

  /** Two searches: the same arrivals and transfers, journey by journey. */
  method SameTradeOffs(w: World, topK: int, one: Orders, two: Orders) returns (a: seq<Path>, b: seq<Path>)
    requires WellFormed(w.buf) && one.Complete() && two.Complete()
    ensures (forall p :: p in a ==> Sound(w, p)) && forall p :: p in b ==> Sound(w, p)
    ensures TiesHarmless(w) && CleanIDs(w) ==> SamePairs(a, b)
  {
    hide TiesHarmless, CleanIDs, IsTopK, Sound, StrictTradeOff, OfRun, OfFirsts, SamePairs;
    a := SearchInOrder(w, topK, one);
    b := SearchInOrder(w, topK, two);
    if Degenerate(w) {
      assert SamePairs([], []) by {
        OrderedPairsAreSame([], []);
      }
    } else if TiesHarmless(w) && CleanIDs(w) {
      AnswersAlike(w, topK, a, b);
    }
  }
}
