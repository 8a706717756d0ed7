/** What a run of the search leaves behind round by round, in whatever order its routes are scanned and its stops walked
    from, and why the order does not matter: when ties are harmless every order reaches the destination at the same
    times and stops in the same round. */
module Traces {
  import opened Model
  import opened Reference
  import opened Agreement
  import opened Rounds
  import opened History
  import opened Scans

  /** The orders of a run. The program sorts route indices and stop identifiers; any other order of the same routes and
      stops, round by round, may take its place. */
  datatype Orders =
    | Sorted
    | Given(routes: (nat, set<int>) -> seq<int>, stops: (nat, set<string>) -> seq<string>)
  {
    /** Each queued route and each source comes up. */
    ghost predicate Complete() {
      Given? ==>
        && (forall k, keys, ri :: ri in routes(k, keys) <==> ri in keys)
        && (forall k, sources, s :: s in stops(k, sources) <==> s in sources)
    }
  }

  /** The vehicle phase of round k: the queue of the marked stops was scanned, and nothing else written. */
  ghost predicate QueueScanned(w: World, k: int, t0: Times, j0: Journal, marked: set<string>, queue: map<int, int>,
                               t: Times, j: Journal, improved: set<string>)
    requires WellFormed(w.buf)
  {
    && QueueOf(w.buf, marked, queue)
    && QueueRan(w, k, t0, j0, queue, t, j, improved)
    && (forall ri :: ri in queue ==> ScanTried(w, LabelsOf(t0, j0), t, ri, queue[ri]))
  }

  /** The walk phase of round k. */
  ghost predicate Walked(w: World, k: int, t: Times, j: Journal, improved: set<string>, t': Times, j': Journal,
                         walked: set<string>)
  {
    && Phase(t, j, t', j', walked, WalksFrom(w, k, t, improved), w.params.destination)
    && AllWalked(w, t, t', improved)
  }

  /** Round k took the maps `t0`, `j0` to `t2`, `j2`, by way of `t`, `j`. */
  ghost predicate RanVia(w: World, k: int, t0: Times, j0: Journal, t: Times, j: Journal, t2: Times, j2: Journal,
                         marked: set<string>, queue: map<int, int>, improved: set<string>, walked: set<string>)
    requires WellFormed(w.buf)
  {
    QueueScanned(w, k, t0, j0, marked, queue, t, j, improved) && Walked(w, k, t, j, improved, t2, j2, walked)
  }

  ghost predicate RoundRan(w: World, k: int, t0: Times, j0: Journal, t2: Times, j2: Journal,
                           marked: set<string>, marked': set<string>)
    requires WellFormed(w.buf)
  {
    exists t, j, queue, improved, walked ::
      RanVia(w, k, t0, j0, t, j, t2, j2, marked, queue, improved, walked) && marked' == improved + walked
  }

  /** Round 0 took the origin's label to `t`, `j`. */
  ghost predicate Started(w: World, t: Times, j: Journal, marked: set<string>) {
    exists walked :: StartedWith(w, t, j, walked) && marked == {w.params.origin} + walked
  }

  ghost predicate StartedWith(w: World, t: Times, j: Journal, walked: set<string>) {
    Walked(w, 0, map[w.params.origin := w.params.depTime], map[], {w.params.origin}, t, j, walked)
  }

  ghost predicate RanRound(w: World, tau: TauTable, journal: JournalTable, marks: seq<set<string>>, k: int)
    requires WellFormed(w.buf) && |tau| == |journal| && 1 <= k < |marks| <= |tau|
  {
    RoundRan(w, k, tau[k - 1], journal[k - 1], tau[k], journal[k], marks[k - 1], marks[k])
  }

  /** Rounds 0 to `last` ran, one off the other, each from the stops the one before marked. */
  ghost predicate TraceTo(w: World, tau: TauTable, journal: JournalTable, marks: seq<set<string>>, last: nat)
    requires WellFormed(w.buf)
  {
    && |marks| == last + 1 <= |tau| == |journal|
    && Started(w, tau[0], journal[0], marks[0])
    && (forall k :: 1 <= k <= last ==> RanRound(w, tau, journal, marks, k))
    && (forall k :: 0 <= k < last ==> marks[k] != {})
  }

  /** A whole run: it stops at the round limit or after the first round that marks nothing. */
  ghost predicate Trace(w: World, tau: TauTable, journal: JournalTable, marks: seq<set<string>>, last: nat)
    requires WellFormed(w.buf)
  {
    && TraceTo(w, tau, journal, marks, last) && last <= w.params.Rounds()
    && (last < w.params.Rounds() ==> marks[last] == {})
  }

  lemma TraceStarts(w: World, tau: TauTable, journal: JournalTable, marked: set<string>)
    requires WellFormed(w.buf) && |tau| == |journal| > 0 && Started(w, tau[0], journal[0], marked)
    ensures TraceTo(w, tau, journal, [marked], 0)
  {
  }

  lemma TraceEnds(w: World, tau: TauTable, journal: JournalTable, marks: seq<set<string>>, last: nat)
    requires WellFormed(w.buf) && TraceTo(w, tau, journal, marks, last) && last <= w.params.Rounds()
    requires |marks| == last + 1 && (last < w.params.Rounds() ==> marks[last] == {})
    ensures Trace(w, tau, journal, marks, last)
  {
  }

  lemma TraceGrows(w: World, tau: TauTable, journal: JournalTable, tau': TauTable, journal': JournalTable,
                   marks: seq<set<string>>, last: nat, marked: set<string>)
    requires WellFormed(w.buf) && TraceTo(w, tau, journal, marks, last) && |marks| == last + 1 && marks[last] != {}
    requires |tau'| == |journal'| == |tau| && last + 1 < |tau|
    requires forall j :: 0 <= j <= last ==> tau'[j] == tau[j] && journal'[j] == journal[j]
    requires RoundRan(w, last + 1, tau'[last], journal'[last], tau'[last + 1], journal'[last + 1], marks[last], marked)
    ensures TraceTo(w, tau', journal', marks + [marked], last + 1)
  {
    hide WellFormed, RoundRan, Started;
    var marks' := marks + [marked];
    forall k | 1 <= k <= last + 1
      ensures RanRound(w, tau', journal', marks', k)
    {
      if k <= last {
        assert RanRound(w, tau, journal, marks, k);
      }
    }
  }

  lemma RoundTraced(w: World, tau: TauTable, journal: JournalTable, preWalk: JournalTable, k: int, t: Times, j: Journal,
                    marked: set<string>, queue: map<int, int>, improved: set<string>, walked: set<string>)
    requires WellFormed(w.buf) && |tau| == |journal| == |preWalk| && 1 <= k < |tau|
    requires QueueScanned(w, k, tau[k - 1], journal[k - 1], marked, queue, t, j, improved)
    requires WalkersRan(w, tau, journal, preWalk, k, t, j, improved, walked) && AllWalked(w, t, tau[k], improved)
    ensures RoundRan(w, k, tau[k - 1], journal[k - 1], tau[k], journal[k], marked, improved + walked)
  {
    hide WellFormed, QueueScanned, Phase, AllWalked;
    assert RanVia(w, k, tau[k - 1], journal[k - 1], t, j, tau[k], journal[k], marked, queue, improved, walked);
  }

  // ---- When a run stops --------------------------------------------------------------------------

  /** No vehicle more than `k - 1` helps below the destination. */
  ghost predicate Idle(w: World, k: nat)
    requires WellFormed(w.buf) && k >= 1
  {
    Agree(Level(w, k - 1), Level(w, k), w.params.destination)
  }

  /** The round a run stops after: the first idle one, or the limit. */
  ghost predicate StopsAt(w: World, last: nat)
    requires WellFormed(w.buf)
  {
    && 1 <= last <= w.params.Rounds()
    && (forall k :: 1 <= k < last ==> !Idle(w, k))
    && (last < w.params.Rounds() ==> Idle(w, last))
  }

  lemma StopsOnce(w: World, a: nat, b: nat)
    requires WellFormed(w.buf) && StopsAt(w, a) && StopsAt(w, b)
    ensures a == b
  {
    hide WellFormed, Idle;
  }

  lemma AgreeBoth(a: Labels, b: Labels, x: Labels, y: Labels, dest: string)
    requires Agree(a, x, dest) && Agree(b, y, dest)
    ensures Agree(a, b, dest) <==> Agree(x, y, dest)
  {
  }

  /** A phase changes nothing, or it improves a stop below the destination. */
  lemma RoundIdles(t0: Times, j0: Journal, t: Times, j: Journal, t2: Times, j2: Journal, improved: set<string>,
                   walked: set<string>, rides: Legal, walks: Legal, dest: string)
    requires Phase(t0, j0, t, j, improved, rides, dest) && Phase(t, j, t2, j2, walked, walks, dest)
    ensures improved + walked == {} <==> Agree(LabelsOf(t0, j0), LabelsOf(t2, j2), dest)
  {
    var e, e' := LabelsOf(t0, j0), LabelsOf(t2, j2);
    if improved == {} && walked == {} {
      NothingWritten(t0, j0, t, j, rides, dest);
      NothingWritten(t, j, t2, j2, walks, dest);
      assert e == e';
    }
    if s :| s in improved {
      assert NewLeg(t0, t, j, rides, dest, s);
      if Agree(e, e', dest) {
        assert Below(e', dest, s);
      }
    } else if s :| s in walked {
      assert NewLeg(t, t2, j2, walks, dest, s);
      NothingWritten(t0, j0, t, j, rides, dest);
      if Agree(e, e', dest) {
        assert Below(e', dest, s);
      }
    }
  }

  lemma NothingWritten(t0: Times, j0: Journal, t: Times, j: Journal, legal: Legal, dest: string)
    requires Phase(t0, j0, t, j, {}, legal, dest)
    ensures t.Keys == t0.Keys && t == t0 && LabelsOf(t, j) == LabelsOf(t0, j0)
  {
    forall s | s in t
      ensures s in t0 && t[s] == t0[s] && LabelsOf(t, j)[s] == LabelsOf(t0, j0)[s]
    {
      assert Unchanged(t0, j0, t, j, s);
    }
  }

  /** A round marks nothing exactly when the naive level it agrees with is idle. */
  lemma MarksNothing(w: World, tau: TauTable, journal: JournalTable, marks: seq<set<string>>, k: nat)
    requires WellFormed(w.buf) && |tau| == |journal| && 1 <= k < |marks| <= |tau| && RanRound(w, tau, journal, marks, k)
    requires Agree(LabelsOf(tau[k - 1], journal[k - 1]), Level(w, k - 1), w.params.destination)
    requires Agree(LabelsOf(tau[k], journal[k]), Level(w, k), w.params.destination)
    ensures marks[k] == {} <==> Idle(w, k)
  {
    hide WellFormed, Agree, Phase, QueueOf, ScanTried, AllWalked, LabelsOf, ScanLegs, WalksFrom, Level;
    var t0, j0, t2, j2 := tau[k - 1], journal[k - 1], tau[k], journal[k];
    var t, j, queue, improved, walked :|
      RanVia(w, k, t0, j0, t, j, t2, j2, marks[k - 1], queue, improved, walked) && marks[k] == improved + walked;
    RoundIdles(t0, j0, t, j, t2, j2, improved, walked, ScanLegs(w, k - 1, LabelsOf(t0, j0), queue),
               WalksFrom(w, k, t, improved), w.params.destination);
    AgreeBoth(LabelsOf(t0, j0), LabelsOf(t2, j2), Level(w, k - 1), Level(w, k), w.params.destination);
  }

  lemma TraceStops(w: World, tau: TauTable, journal: JournalTable, marks: seq<set<string>>, last: nat)
    requires WellFormed(w.buf) && Trace(w, tau, journal, marks, last)
    requires forall k :: 0 <= k <= last ==> Agree(LabelsOf(tau[k], journal[k]), Level(w, k), w.params.destination)
    ensures StopsAt(w, last)
  {
    hide WellFormed, Agree, RanRound, LabelsOf, Level, Idle;
    assert marks[0] != {} by {
      var walked :| StartedWith(w, tau[0], journal[0], walked) && marks[0] == {w.params.origin} + walked;
      assert w.params.origin in marks[0];
    }
    forall k | 1 <= k <= last
      ensures marks[k] == {} <==> Idle(w, k)
    {
      assert RanRound(w, tau, journal, marks, k);
      MarksNothing(w, tau, journal, marks, k);
    }
  }
}
