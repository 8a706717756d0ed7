/** From one journey per useful round to the answer: removing repeats, sorting, and keeping what nothing
    else dominates (`deduplicatePaths`, `paretoFilter`). */
module Frontier {
  import opened Model
  import opened Ordering
  import opened Fingerprints

  // ---- Removing repeated journeys ----------------------------------------------------------------

  ghost predicate DistinctPrints(paths: seq<Path>) {
    forall i, j :: 0 <= i < j < |paths| ==> Fingerprint(paths[i].legs) != Fingerprint(paths[j].legs)
  }

  /** Journey `m` is the first with its fingerprint. */
  ghost predicate FirstPrint(paths: seq<Path>, m: int)
    requires 0 <= m < |paths|
  {
    forall j :: 0 <= j < m ==> Fingerprint(paths[j].legs) != Fingerprint(paths[m].legs)
  }

  ghost function Firsts(paths: seq<Path>, i: nat): seq<Path>
    requires i <= |paths|
  {
    if i == 0 then [] else Firsts(paths, i - 1) + if FirstPrint(paths, i - 1) then [paths[i - 1]] else []
  }

  lemma {:induction false} FirstsOfDistinct(paths: seq<Path>, i: nat)
    requires i <= |paths| && DistinctPrints(paths)
    ensures Firsts(paths, i) == paths[..i]
  {
    if i > 0 {
      FirstsOfDistinct(paths, i - 1);
      assert paths[..i] == paths[..i - 1] + [paths[i - 1]];
    }
  }

  lemma {:induction false} FirstsAreMembers(paths: seq<Path>, i: nat)
    requires i <= |paths|
    ensures forall p :: p in Firsts(paths, i) ==> p in paths
  {
    if i > 0 {
      FirstsAreMembers(paths, i - 1);
    }
  }

  /** Journeys that are the same physical sequence of legs are listed once; a list without repeats is
      left as it is. */
  method Deduplicate(paths: seq<Path>) returns (out: seq<Path>)
    ensures out == Firsts(paths, |paths|)
    ensures DistinctPrints(paths) ==> out == paths
  {
    hide Fingerprint;
    out := [];
    var seen: set<string> := {};
    for i := 0 to |paths|
      invariant out == Firsts(paths, i)
      invariant seen == set j | 0 <= j < i :: Fingerprint(paths[j].legs)
    {
      var f := Fingerprint(paths[i].legs);
      if f !in seen {
        seen := seen + {f};
        out := out + [paths[i]];
      }
    }
    if DistinctPrints(paths) {
      FirstsOfDistinct(paths, |paths|);
      assert paths[..|paths|] == paths;
    }
  }

  // ---- Keeping what nothing dominates ------------------------------------------------------------

  predicate PathLe(p: Path, q: Path) {
    p.arrival < q.arrival || (p.arrival == q.arrival && p.transfers <= q.transfers)
  }

  lemma PathOrder()
    ensures TotalOrder(PathLe)
  {
  }

  lemma SortedPaths(paths: seq<Path>)
    ensures SortedBy(Sort(paths, PathLe), PathLe) && multiset(Sort(paths, PathLe)) == multiset(paths)
    ensures forall p :: p in Sort(paths, PathLe) <==> p in paths
  {
    PathOrder();
    SortSorts(paths, PathLe);
    SameElements(Sort(paths, PathLe), paths);
  }

  const MAX_INT32 := 0x7FFF_FFFF

  ghost predicate NotDominatedIn(paths: seq<Path>, p: Path) {
    forall q :: q in paths ==> !q.Dominates(p)
  }

  predicate SamePair(p: Path, q: Path) {
    p.arrival == q.arrival && p.transfers == q.transfers
  }

  /** Later arrival, strictly fewer transfers, all the way down the list. */
  ghost predicate StrictTradeOff(paths: seq<Path>) {
    forall i, j :: 0 <= i < j < |paths| ==>
      paths[i].arrival < paths[j].arrival && paths[i].transfers > paths[j].transfers
  }

  /** Journey `m` changes less often than everything listed before it. */
  ghost predicate KeptAt(paths: seq<Path>, m: int)
    requires 0 <= m < |paths|
  {
    forall j :: 0 <= j < m ==> paths[m].transfers < paths[j].transfers
  }

  ghost function Sweep(paths: seq<Path>, i: nat): seq<Path>
    requires i <= |paths|
  {
    if i == 0 then []
    else Sweep(paths, i - 1) + if KeptAt(paths, i - 1) then [paths[i - 1]] else []
  }

  lemma {:induction false} SweepMembers(paths: seq<Path>, i: nat, p: Path)
    requires i <= |paths|
    ensures p in Sweep(paths, i) <==> exists m :: 0 <= m < i && paths[m] == p && KeptAt(paths, m)
  {
    if i > 0 {
      SweepMembers(paths, i - 1, p);
    }
  }

  lemma {:induction false} SweepTradesOff(paths: seq<Path>, i: nat)
    requires i <= |paths| && SortedBy(paths, PathLe)
    ensures StrictTradeOff(Sweep(paths, i))
  {
    if i > 0 {
      SweepTradesOff(paths, i - 1);
      var kept := Sweep(paths, i - 1);
      if KeptAt(paths, i - 1) {
        forall j | 0 <= j < |kept|
          ensures kept[j].arrival < paths[i - 1].arrival && kept[j].transfers > paths[i - 1].transfers
        {
          SweepMembers(paths, i - 1, kept[j]);
          var m :| 0 <= m < i - 1 && paths[m] == kept[j] && KeptAt(paths, m);
          assert PathLe(paths[m], paths[i - 1]);
        }
      }
    }
  }

  /** Some kept journey at or before `m` changes no more often than `m`. */
  lemma {:induction false} KeptBefore(paths: seq<Path>, m: nat) returns (j: nat)
    requires m < |paths|
    ensures j <= m && KeptAt(paths, j) && paths[j].transfers <= paths[m].transfers
  {
    if KeptAt(paths, m) {
      j := m;
    } else {
      var h :| 0 <= h < m && paths[h].transfers <= paths[m].transfers;
      j := KeptBefore(paths, h);
    }
  }

  /** Over a sorted list the sweep keeps exactly what nothing dominates. */
  lemma SweepIsPareto(paths: seq<Path>)
    requires SortedBy(paths, PathLe)
    ensures forall p :: p in Sweep(paths, |paths|) ==> p in paths && NotDominatedIn(paths, p)
    ensures forall p :: p in paths && NotDominatedIn(paths, p) ==>
              exists q :: q in Sweep(paths, |paths|) && SamePair(q, p)
  {
    forall p | p in Sweep(paths, |paths|)
      ensures p in paths && NotDominatedIn(paths, p)
    {
      SweptIsBest(paths, p);
    }
    forall p | p in paths && NotDominatedIn(paths, p)
      ensures exists q :: q in Sweep(paths, |paths|) && SamePair(q, p)
    {
      BestIsSwept(paths, p);
    }
  }

  lemma SweptIsBest(paths: seq<Path>, p: Path)
    requires SortedBy(paths, PathLe) && p in Sweep(paths, |paths|)
    ensures p in paths && NotDominatedIn(paths, p)
  {
    SweepMembers(paths, |paths|, p);
    var m :| 0 <= m < |paths| && paths[m] == p && KeptAt(paths, m);
    forall q | q in paths
      ensures !q.Dominates(p)
    {
      var n :| 0 <= n < |paths| && paths[n] == q;
      if n > m { assert PathLe(paths[m], paths[n]); }
    }
  }

  lemma BestIsSwept(paths: seq<Path>, p: Path)
    requires SortedBy(paths, PathLe) && p in paths && NotDominatedIn(paths, p)
    ensures exists q :: q in Sweep(paths, |paths|) && SamePair(q, p)
  {
    var m :| 0 <= m < |paths| && paths[m] == p;
    var j := KeptBefore(paths, m);
    SweepMembers(paths, |paths|, paths[j]);
    if j < m { assert PathLe(paths[j], paths[m]); }
    assert !paths[j].Dominates(p);
    assert SamePair(paths[j], p);
  }

  /** One sweep over a sorted list keeps exactly the journeys nothing in the list dominates, one for each
      arrival and transfer count. */
  method ParetoFilter(paths: seq<Path>) returns (out: seq<Path>)
    requires SortedBy(paths, PathLe)
    requires forall p :: p in paths ==> p.transfers < MAX_INT32
    ensures forall p :: p in out ==> p in paths && NotDominatedIn(paths, p)
    ensures forall p :: p in paths && NotDominatedIn(paths, p) ==> exists q :: q in out && SamePair(q, p)
    ensures StrictTradeOff(out)
  {
    hide SortedBy, NotDominatedIn, StrictTradeOff;
    out := [];
    var bestTransfers := MAX_INT32;
    for i := 0 to |paths|
      invariant out == Sweep(paths, i)
      invariant forall m :: 0 <= m < i ==> bestTransfers <= paths[m].transfers
      invariant i == 0 ==> bestTransfers == MAX_INT32
      invariant i > 0 ==> exists m :: 0 <= m < i && paths[m].transfers == bestTransfers
    {
      if paths[i].transfers < bestTransfers {
        out := out + [paths[i]];
        bestTransfers := paths[i].transfers;
      }
    }
    SweepTradesOff(paths, |paths|);
    SweepIsPareto(paths);
  }
}
