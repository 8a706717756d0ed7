/** What strict validation promises a booking, that every ride offered was seen with its seats, and exactly when it
    keeps that promise: a ride on a route whose identifier is the walk marker is taken for a walk, never looked up. */
module StrictAnswers {
  import opened Model
  import opened SeatKeys
  import opened Breaker
  import opened Validator
  import opened Rows
  import opened Loader
  import opened Journeys
  import opened JourneyFacts

  /** Every ride of the journey, whatever its route is called, was seen with enough seats of the class. */
  ghost predicate RidesSeen(server: Server, order: seq<string>, chunk: nat, p: Path, seatClass: string, count: int)
    requires chunk > 0
  {
    forall i :: 0 <= i < |p.legs| && p.legs[i].kind.Transit? ==>
      Seen(server, order, chunk, SeatMapKey(p.legs[i].tripKey), seatClass, count)
  }

  ghost predicate AllSeen(server: Server, chunk: nat, keys: set<string>, result: seq<Path>, seatClass: string,
                          count: int)
    requires chunk > 0
  {
    result == [] || exists order :: Lists(order, keys)
                                    && forall p :: p in result ==> RidesSeen(server, order, chunk, p, seatClass, count)
  }

  /** Whatever the server answers, the breaker says and the limit is, each ride of a strict answer was seen. */
  ghost predicate StrictPromise(candidates: seq<Path>, chunk: nat, b: Config, seatClass: string, count: int)
    requires chunk > 0
  {
    forall cfg: ValidatorConfig, hasClient, before, now, later, server: Server, keys, result, after ::
      cfg.strict && IsKeySet(candidates, keys)
      && Outcome(cfg, chunk, hasClient, b, before, now, later, server, candidates, seatClass, count, keys, result,
                 after)
      ==> AllSeen(server, chunk, keys, result, seatClass, count)
  }

  /** Each ride has the seat key of a leg the validator looks up. */
  predicate LooksUpEveryRide(p: Path) {
    forall i :: 0 <= i < |p.legs| && p.legs[i].kind.Transit? ==> InPath(p, SeatMapKey(p.legs[i].tripKey))
  }

  predicate WalkMarked(leg: Leg) {
    leg.kind.Transit? && leg.routeID == WALK_ROUTE_ID
  }

  lemma UnmarkedIsLookedUp(p: Path)
    requires forall leg :: leg in p.legs ==> !WalkMarked(leg)
    ensures LooksUpEveryRide(p)
  {
    forall i | 0 <= i < |p.legs| && p.legs[i].kind.Transit?
      ensures InPath(p, SeatMapKey(p.legs[i].tripKey))
    {
      assert p.legs[i] in p.legs && NeedsSeat(p.legs[i]);
    }
  }

  predicate SeparateTrips(p: Path) {
    forall i, j :: 0 <= i < j < |p.legs| && p.legs[i].kind.Transit? && p.legs[j].kind.Transit? ==>
      SeatMapKey(p.legs[i].tripKey) != SeatMapKey(p.legs[j].tripKey)
  }

  /** Of a journey that boards no trip twice, every ride is looked up exactly when no ride is on a route named like a
      walk. */
  lemma LookedUpExactly(p: Path)
    requires SeparateTrips(p)
    ensures LooksUpEveryRide(p) <==> forall leg :: leg in p.legs ==> !WalkMarked(leg)
  {
    if LooksUpEveryRide(p) {
      forall leg | leg in p.legs
        ensures !WalkMarked(leg)
      {
        var i :| 0 <= i < |p.legs| && p.legs[i] == leg;
        assert leg.kind.Transit? ==> InPath(p, SeatMapKey(p.legs[i].tripKey));
      }
    } else if forall leg :: leg in p.legs ==> !WalkMarked(leg) {
      UnmarkedIsLookedUp(p);
    }
  }

  lemma NothingToList(keys: set<string>)
    requires keys == {}
    ensures forall order :: Lists(order, keys) ==> order == []
  {
    forall order: seq<string> | order != []
      ensures !Lists(order, keys)
    {
      assert order[0] in order;
    }
  }

  /** A ride on a route named like a walk: any server, answering or not, and it is offered unread. */
  lemma MarkedRideIsUnread(leg: Leg, p: Path, cfg: ValidatorConfig, chunk: nat, hasClient: bool, b: Config,
                           before: Condition, now: int, later: int, server: Server, seatClass: string, count: int,
                           keys: set<string>, result: seq<Path>, after: Condition)
    requires chunk > 0 && WalkMarked(leg) && p.legs == [leg] && cfg.strict && IsKeySet([p], keys)
    requires Outcome(cfg, chunk, hasClient, b, before, now, later, server, [p], seatClass, count, keys, result, after)
    ensures keys == {} && result == [p] && !AllSeen(server, chunk, keys, result, seatClass, count)
  {
    NothingToList(keys);
    assert p in result && p.legs[0].kind.Transit?;
  }

  // ---- Every strict answer is confirmed ----------------------------------------------------------

  lemma {:induction false} SelectedIsCandidate(some: seq<Path>, all: seq<Path>, p: Path)
    requires Selection(some, all) && p in some
    ensures p in all
    decreases |all|
  {
    var n, m := |all| - 1, |some| - 1;
    if Selection(some, all[..n]) {
      SelectedIsCandidate(some, all[..n], p);
    } else if p != some[m] {
      assert some == some[..m] + [some[m]];
      SelectedIsCandidate(some[..m], all[..n], p);
    }
  }

  /** However a strict call ends, its answers are candidates and the legs it looks up were seen. */
  lemma StrictIsConfirmed(cfg: ValidatorConfig, chunk: nat, hasClient: bool, b: Config, before: Condition, now: int,
                          later: int, server: Server, candidates: seq<Path>, seatClass: string, count: int,
                          keys: set<string>, result: seq<Path>, after: Condition)
    requires chunk > 0 && cfg.strict && IsKeySet(candidates, keys)
    requires Outcome(cfg, chunk, hasClient, b, before, now, later, server, candidates, seatClass, count, keys, result,
                     after)
    ensures Selection(result, candidates) && AllConfirmed(server, chunk, keys, result, seatClass, count)
  {
    hide IsKeySet, AllAnswered, Gathered, Passing, Selection, Confirmed, Truncate, Lists;
    UnvalidatedAnswers(cfg, candidates, server, chunk, seatClass, count, keys);
    if keys != {} && hasClient && Admits(b, before, now) {
      var order :| Lists(order, keys) && Ends(cfg, chunk, b, Asked(b, before, now), later, server, candidates,
                                              seatClass, count, order, result, after);
      if AllAnswered(server, |order|, chunk) {
        var cache :| Gathered(server, order, |order|, chunk, cache)
                     && result == Truncate(cfg.maxResults, Passing(cache, candidates, seatClass, count));
        ValidatedAnswers(cfg, candidates, server, seatClass, count, order, chunk, cache);
      }
    }
  }

  lemma ConfirmedIsSeen(server: Server, order: seq<string>, chunk: nat, p: Path, seatClass: string, count: int)
    requires chunk > 0 && Confirmed(server, order, chunk, p, seatClass, count) && LooksUpEveryRide(p)
    ensures RidesSeen(server, order, chunk, p, seatClass, count)
  {
    hide Seen;
    forall i | 0 <= i < |p.legs| && p.legs[i].kind.Transit?
      ensures Seen(server, order, chunk, SeatMapKey(p.legs[i].tripKey), seatClass, count)
    {
      assert InPath(p, SeatMapKey(p.legs[i].tripKey));
    }
  }

  lemma LookedUpIsPromised(candidates: seq<Path>, chunk: nat, b: Config, seatClass: string, count: int)
    requires chunk > 0 && forall p :: p in candidates ==> LooksUpEveryRide(p)
    ensures StrictPromise(candidates, chunk, b, seatClass, count)
  {
    hide IsKeySet, Outcome, LooksUpEveryRide, Selection, Confirmed, RidesSeen, Lists;
    forall cfg: ValidatorConfig, hasClient, before, now, later, server: Server, keys, result, after |
      cfg.strict && IsKeySet(candidates, keys)
      && Outcome(cfg, chunk, hasClient, b, before, now, later, server, candidates, seatClass, count, keys, result,
                 after)
      ensures AllSeen(server, chunk, keys, result, seatClass, count)
    {
      StrictIsConfirmed(cfg, chunk, hasClient, b, before, now, later, server, candidates, seatClass, count, keys,
                        result, after);
      if result != [] {
        var order :| Lists(order, keys)
                     && forall p :: p in result ==> Confirmed(server, order, chunk, p, seatClass, count);
        forall p | p in result
          ensures RidesSeen(server, order, chunk, p, seatClass, count)
        {
          SelectedIsCandidate(result, candidates, p);
          ConfirmedIsSeen(server, order, chunk, p, seatClass, count);
        }
      }
    }
  }

  /** What it is to be seen: the map read for the trip shows at least that many seats of the class, none if the class is
      not listed. */
  lemma SeenShowsSeats(answer: Option<map<string, Counts>>, key: string, seatClass: string, count: int)
    ensures SeenIn(answer, key, seatClass, count) <==>
              answer.Some? && key in answer.value && exists n :: Shows(answer.value[key], seatClass, n) && n >= count
  {
    if answer.Some? && key in answer.value {
      var m := answer.value[key];
      assert Shows(m, seatClass, if seatClass in m then m[seatClass] else 0);
    }
  }

  // ---- A check on the rows -----------------------------------------------------------------------

  lemma {:induction false} TripsNamedByRows(rows: seq<Row>, t: TripRecord)
    requires t in Trips(rows)
    ensures exists row :: row in rows && row.routeID == t.routeID
  {
    var n := |rows| - 1;
    var before := Trips(rows[..n]);
    if t in before {
      TripsNamedByRows(rows[..n], t);
    } else if before != [] && before[|before| - 1].key == rows[n].key {
      var last := before[|before| - 1];
      assert last in before && t == Extended(last, rows[n]);
      TripsNamedByRows(rows[..n], last);
    } else {
      assert rows[n] in rows;
    }
  }

  lemma LoadedRoutesNamedByRows(rows: seq<Row>, b: RouteBuffer, r: nat)
    requires TimetableLoaded(rows, b.routes, b.stopTimes) && r < |b.routes|
    ensures exists row :: row in rows && row.routeID == b.routes[r].routeID
  {
    var trips := Trips(rows);
    var ids := RoutesSeen(trips);
    hide Trips, RoutesSeen;
    assert RouteLoaded(OfRoute(trips, ids[r]), ids[r], b.routes[r], b.stopTimes[r]);
    assert ids[r] in ids;
    var t :| t in trips && t.routeID == ids[r];
    TripsNamedByRows(rows, t);
  }

  /** When no row of the timetable names its route like a walk, every search on the loaded buffer can be booked from:
      the promise holds of any real itineraries, including those of one search. */
  lemma UnmarkedRowsKeepPromise(rows: seq<Row>, w: World, candidates: seq<Path>, chunk: nat, b: Config,
                                seatClass: string, count: int)
    requires chunk > 0 && WellFormed(w.buf) && TimetableLoaded(rows, w.buf.routes, w.buf.stopTimes)
    requires forall row :: row in rows ==> row.routeID != WALK_ROUTE_ID
    requires forall p :: p in candidates ==> Itinerary(w, p.legs)
    ensures StrictPromise(candidates, chunk, b, seatClass, count)
  {
    hide WellFormed, TimetableLoaded, StrictPromise, LooksUpEveryRide;
    forall p | p in candidates
      ensures LooksUpEveryRide(p)
    {
      forall leg | leg in p.legs
        ensures !WalkMarked(leg)
      {
        var i :| 0 <= i < |p.legs| && p.legs[i] == leg;
        if leg.kind.Transit? {
          var ri, t, x, y :| IsRideOf(w, leg, ri, t, x, y);
          LoadedRoutesNamedByRows(rows, w.buf, ri);
        }
      }
      UnmarkedIsLookedUp(p);
    }
    LookedUpIsPromised(candidates, chunk, b, seatClass, count);
  }

  // ---- A server that knows only what is looked up ------------------------------------------------

  function LookedUp(p: Path): (keys: set<string>)
    ensures forall k :: k in keys <==> InPath(p, k)
  {
    set i | 0 <= i < |p.legs| && NeedsSeat(p.legs[i]) :: SeatMapKey(p.legs[i].tripKey)
  }

  function AllLookedUp(candidates: seq<Path>): set<string> {
    if candidates == [] then {}
    else AllLookedUp(candidates[..|candidates| - 1]) + LookedUp(candidates[|candidates| - 1])
  }

  lemma {:induction false} AllLookedUpAreKeys(candidates: seq<Path>)
    ensures IsKeySet(candidates, AllLookedUp(candidates))
  {
    if candidates != [] {
      var n := |candidates| - 1;
      AllLookedUpAreKeys(candidates[..n]);
      forall x | 0 <= x < |candidates[n].legs| && NeedsSeat(candidates[n].legs[x])
        ensures SeatMapKey(candidates[n].legs[x].tripKey) in AllLookedUp(candidates)
      {
        assert InPath(candidates[n], SeatMapKey(candidates[n].legs[x].tripKey));
      }
      NextPathKeys(candidates, n, AllLookedUp(candidates[..n]), AllLookedUp(candidates));
      assert candidates[..n + 1] == candidates;
    }
  }

  lemma {:induction false} ListingExists(keys: set<string>)
    ensures exists order :: Lists(order, keys)
    decreases |keys|
  {
    if keys == {} {
      assert Lists([], keys);
    } else {
      var k :| k in keys;
      ListingExists(keys - {k});
      var before :| Lists(before, keys - {k});
      assert Lists(before + [k], keys);
    }
  }

  function Stocked(p: Path, seatClass: string, count: int): map<string, Counts> {
    map k | k in LookedUp(p) :: map[seatClass := count]
  }

  /** The server that answers every read with these seats. */
  function Steady(m: map<string, Counts>): Server {
    j => Some(m)
  }

  lemma StockedGathers(p: Path, order: seq<string>, chunk: nat, seatClass: string, count: int)
    requires chunk > 0
    ensures var m := Stocked(p, seatClass, count);
            Gathered(Steady(m), order, |order|, chunk, map k | k in order && k in m :: m[k])
  {
    var m := Stocked(p, seatClass, count);
    var cache := map k | k in order && k in m :: m[k];
    var server := Steady(m);
    assert order[..|order|] == order;
    assert AllAnswered(server, |order|, chunk);
    forall i | 0 <= i < |order|
      ensures ReadBack(server, order, i, chunk, cache)
    {
      assert server(i / chunk) == Some(m);
    }
  }

  lemma StockedPasses(p: Path, candidates: seq<Path>, keys: set<string>, order: seq<string>, seatClass: string,
                      count: int)
    requires p in candidates && IsKeySet(candidates, keys) && Lists(order, keys)
    ensures var m := Stocked(p, seatClass, count); Passes(map k | k in order && k in m :: m[k], p, seatClass, count)
  {
    var c :| 0 <= c < |candidates| && candidates[c] == p;
    forall i | 0 <= i < |p.legs| && NeedsSeat(p.legs[i])
      ensures SeatMapKey(p.legs[i].tripKey) in order && SeatMapKey(p.legs[i].tripKey) in LookedUp(p)
    {
      assert SeatMapKey(candidates[c].legs[i].tripKey) in keys;
      assert InPath(p, SeatMapKey(p.legs[i].tripKey));
    }
  }

  /** On that server a strict search without a limit offers the journey. */
  lemma StockedIsOffered(p: Path, candidates: seq<Path>, keys: set<string>, chunk: nat, b: Config, seatClass: string,
                         count: int) returns (result: seq<Path>, after: Condition)
    requires chunk > 0 && p in candidates && IsKeySet(candidates, keys)
    ensures p in result
    ensures var m := Stocked(p, seatClass, count);
            Outcome(ValidatorConfig(true, 0, 0), chunk, true, b, FRESH, 0, 0, Steady(m), candidates, seatClass,
                    count, keys, result, after)
  {
    hide IsKeySet, Gathered, Lists, Passing, Passes, Stocked;
    if keys == {} {
      result, after := candidates, FRESH;
    } else {
      var m := Stocked(p, seatClass, count);
      var server := Steady(m);
      ListingExists(keys);
      var order :| Lists(order, keys);
      var cache := map k | k in order && k in m :: m[k];
      result, after := Passing(cache, candidates, seatClass, count), Succeeded(FRESH);
      StockedGathers(p, order, chunk, seatClass, count);
      StockedPasses(p, candidates, keys, order, seatClass, count);
      PassingIsSelection(cache, candidates, seatClass, count);
      assert AllAnswered(server, |order|, chunk);
      assert Ends(ValidatorConfig(true, 0, 0), chunk, b, Asked(b, FRESH, 0), 0, server, candidates, seatClass, count,
                  order, result, after);
    }
  }

  lemma PromisedIsLookedUp(candidates: seq<Path>, chunk: nat, b: Config, seatClass: string, count: int, p: Path)
    requires chunk > 0 && p in candidates && StrictPromise(candidates, chunk, b, seatClass, count)
    ensures LooksUpEveryRide(p)
  {
    hide IsKeySet, Outcome, Lists;
    var m := Stocked(p, seatClass, count);
    var server := Steady(m);
    var keys := AllLookedUp(candidates);
    AllLookedUpAreKeys(candidates);
    var result, after := StockedIsOffered(p, candidates, keys, chunk, b, seatClass, count);
    assert AllSeen(server, chunk, keys, result, seatClass, count);
    var order :| Lists(order, keys) && forall q :: q in result ==> RidesSeen(server, order, chunk, q, seatClass, count);
    assert RidesSeen(server, order, chunk, p, seatClass, count);
    forall i | 0 <= i < |p.legs| && p.legs[i].kind.Transit?
      ensures InPath(p, SeatMapKey(p.legs[i].tripKey))
    {
      assert Seen(server, order, chunk, SeatMapKey(p.legs[i].tripKey), seatClass, count);
    }
  }

  /** Strict answers are seen ride by ride, for every server, breaker condition and limit, exactly when each ride of
      each candidate has the seat key of a leg that is looked up. */
  lemma StrictSeesExactly(candidates: seq<Path>, chunk: nat, b: Config, seatClass: string, count: int)
    requires chunk > 0
    ensures StrictPromise(candidates, chunk, b, seatClass, count) <==>
            forall p :: p in candidates ==> LooksUpEveryRide(p)
  {
    hide StrictPromise, LooksUpEveryRide;
    if StrictPromise(candidates, chunk, b, seatClass, count) {
      forall p | p in candidates
        ensures LooksUpEveryRide(p)
      {
        PromisedIsLookedUp(candidates, chunk, b, seatClass, count, p);
      }
    }
    if forall p :: p in candidates ==> LooksUpEveryRide(p) {
      LookedUpIsPromised(candidates, chunk, b, seatClass, count);
    }
  }
}
