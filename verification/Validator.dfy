/** The authoritative seat gate (`internal/raptor/validator.go`): candidates are checked against seat maps read in
    chunks from a server that may change or fail between chunks, behind the circuit breaker. */
module Validator {
  import opened Model
  import opened Ordering
  import opened SeatKeys
  import opened Breaker

  const DEFAULT_MGET_CHUNK := 512

  datatype ValidatorConfig = ValidatorConfig(strict: bool, mgetChunk: int, maxResults: int)

  function SeatMapKey(key: TripKey): (text: string)
    ensures text == "seat:map:" + (key.tripID + ":" + key.date)
  {
    "seat:map:" + SeatTripDate(key)
  }

  /** What the server answers to the `j`th chunk: nothing on a failed read, else every key with a readable map. */
  type Server = nat -> Option<map<string, Counts>>

  predicate NeedsSeat(leg: Leg) {
    !leg.kind.Walk? && leg.routeID != WALK_ROUTE_ID
  }

  predicate InPath(p: Path, key: string) {
    exists i :: 0 <= i < |p.legs| && NeedsSeat(p.legs[i]) && SeatMapKey(p.legs[i].tripKey) == key
  }

  /** The distinct seat keys of the candidates. */
  predicate IsKeySet(candidates: seq<Path>, keys: set<string>) {
    (forall i, j :: 0 <= i < |candidates| && 0 <= j < |candidates[i].legs| && NeedsSeat(candidates[i].legs[j]) ==>
      SeatMapKey(candidates[i].legs[j].tripKey) in keys)
    && (forall k :: k in keys ==> exists i :: 0 <= i < |candidates| && InPath(candidates[i], k))
  }

  function Seats(counts: Counts, seatClass: string): int {
    if seatClass in counts then counts[seatClass] else 0
  }

  predicate Passes(cache: map<string, Counts>, p: Path, seatClass: string, count: int) {
    forall i :: 0 <= i < |p.legs| && NeedsSeat(p.legs[i]) ==>
      var k := SeatMapKey(p.legs[i].tripKey);
      k in cache && Seats(cache[k], seatClass) >= count
  }

  /** The candidates that pass, in their order. */
  function Passing(cache: map<string, Counts>, candidates: seq<Path>, seatClass: string, count: int): seq<Path> {
    if candidates == [] then []
    else
      var n := |candidates| - 1;
      Passing(cache, candidates[..n], seatClass, count)
      + if Passes(cache, candidates[n], seatClass, count) then [candidates[n]] else []
  }

  function Truncate(max: int, paths: seq<Path>): seq<Path> {
    if max > 0 && |paths| > max then paths[..max] else paths
  }

  /** `some` is made of elements of `all`, in their order. */
  predicate Selection(some: seq<Path>, all: seq<Path>)
    decreases |all|
  {
    some == [] ||
    (all != [] && (Selection(some, all[..|all| - 1])
                   || (some[|some| - 1] == all[|all| - 1] && Selection(some[..|some| - 1], all[..|all| - 1]))))
  }

  lemma {:induction false} PassingIsSelection(cache: map<string, Counts>, candidates: seq<Path>, seatClass: string,
                                              count: int)
    ensures Selection(Passing(cache, candidates, seatClass, count), candidates)
    ensures forall p :: p in Passing(cache, candidates, seatClass, count) <==>
            p in candidates && Passes(cache, p, seatClass, count)
  {
    if candidates != [] {
      var n := |candidates| - 1;
      PassingIsSelection(cache, candidates[..n], seatClass, count);
      var kept := Passing(cache, candidates[..n], seatClass, count);
      assert (kept + [candidates[n]])[..|kept|] == kept && kept + [] == kept;
    }
  }

  lemma {:induction false} PrefixIsSelection(all: seq<Path>, n: nat)
    requires n <= |all|
    ensures Selection(all[..n], all)
    decreases |all|
  {
    if n > 0 {
      var m := |all| - 1;
      if n == |all| {
        PrefixIsSelection(all[..m], m);
        assert all[..n][..n - 1] == all[..m] && all[..m][..m] == all[..m];
      } else {
        PrefixIsSelection(all[..m], n);
        assert all[..m][..n] == all[..n];
      }
    }
  }

  lemma {:induction false} SelectionOfSelection(a: seq<Path>, b: seq<Path>, c: seq<Path>)
    requires Selection(a, b) && Selection(b, c)
    ensures Selection(a, c)
    decreases |b| + |c|
  {
    if a != [] && b != [] {
      var b', c' := b[..|b| - 1], c[..|c| - 1];
      if Selection(b, c') {
        SelectionOfSelection(a, b, c');
      } else if Selection(a, b') {
        SelectionOfSelection(a, b', c');
      } else {
        SelectionOfSelection(a[..|a| - 1], b', c');
      }
    }
  }

  lemma {:induction false} PassingPrefix(cache: map<string, Counts>, candidates: seq<Path>, i: nat, seatClass: string,
                                         count: int)
    requires i <= |candidates|
    ensures Passing(cache, candidates[..i], seatClass, count) <= Passing(cache, candidates, seatClass, count)
    decreases |candidates|
  {
    if i < |candidates| {
      var n := |candidates| - 1;
      PassingPrefix(cache, candidates[..n], i, seatClass, count);
      assert candidates[..n][..i] == candidates[..i];
    } else {
      assert candidates[..i] == candidates;
    }
  }

  // ---- Chunked reads -----------------------------------------------------------------------------

  /** Every chunk of `n` keys was answered. */
  ghost predicate AllAnswered(server: Server, n: nat, chunk: nat)
    requires chunk > 0
  {
    forall i :: 0 <= i < n ==> server(i / chunk).Some?
  }

  /** The cache holds, for each key read so far, what the server answered in that key's own chunk. */
  ghost predicate Gathered(server: Server, order: seq<string>, n: nat, chunk: nat, cache: map<string, Counts>)
    requires chunk > 0 && n <= |order|
  {
    && AllAnswered(server, n, chunk)
    && (forall k :: k in cache ==> k in order[..n])
    && (forall i :: 0 <= i < n ==> ReadBack(server, order, i, chunk, cache))
  }

  ghost predicate ReadBack(server: Server, order: seq<string>, i: nat, chunk: nat, cache: map<string, Counts>)
    requires chunk > 0 && i < |order| && server(i / chunk).Some?
  {
    var m := server(i / chunk).value;
    (order[i] in cache <==> order[i] in m) && (order[i] in cache ==> cache[order[i]] == m[order[i]])
  }

  /** One chunk's answers into the cache. */
  method StoreChunk(m: map<string, Counts>, ks: seq<string>, cache: map<string, Counts>)
      returns (cache': map<string, Counts>)
    ensures forall k :: k in cache' <==> (k in cache && k !in ks) || (k in ks && k in m)
    ensures forall k :: k in cache' ==> cache'[k] == if k in ks then m[k] else cache[k]
  {
    cache' := cache;
    for i := 0 to |ks|
      invariant forall k :: k in cache' <==> (k in cache && k !in ks[..i]) || (k in ks[..i] && k in m)
      invariant forall k :: k in cache' ==> cache'[k] == if k in ks[..i] then m[k] else cache[k]
    {
      var k := ks[i];
      cache' := if k in m then cache'[k := m[k]] else cache' - {k};
      assert forall x :: x in ks[..i + 1] <==> x in ks[..i] || x == k;
    }
    assert ks[..|ks|] == ks;
  }

  lemma ChunkNumber(j: nat, chunk: nat, i: nat)
    requires chunk > 0 && j * chunk <= i < (j + 1) * chunk
    ensures i / chunk == j
  {
    var r := i - j * chunk;
    assert i == j * chunk + r && 0 <= r < chunk;
    DivMod(j, chunk, r);
  }

  lemma DivMod(j: nat, chunk: nat, r: nat)
    requires r < chunk
    ensures (j * chunk + r) / chunk == j
  {
    var q := (j * chunk + r) / chunk;
    assert q * chunk <= j * chunk + r < (q + 1) * chunk;
    if q > j {
      Scaled(q, j + 1, chunk);
      assert false;
    }
    if q < j {
      Scaled(j, q + 1, chunk);
      assert false;
    }
  }

  lemma NextChunk(server: Server, order: seq<string>, j: nat, end: nat, chunk: nat, cache: map<string, Counts>,
                  cache': map<string, Counts>)
    requires chunk > 0 && Distinct(order) && j * chunk < end <= |order| && end <= (j + 1) * chunk
    requires Gathered(server, order, j * chunk, chunk, cache) && server(j).Some?
    requires var m, ks := server(j).value, order[j * chunk..end];
             (forall k :: k in cache' <==> (k in cache && k !in ks) || (k in ks && k in m))
             && forall k :: k in cache' ==> cache'[k] == if k in ks then m[k] else cache[k]
    ensures Gathered(server, order, end, chunk, cache')
  {
    var start := j * chunk;
    var ks := order[start..end];
    forall i | start <= i < end
      ensures i / chunk == j
    {
      ChunkNumber(j, chunk, i);
    }
    forall i | 0 <= i < end
      ensures server(i / chunk).Some? && ReadBack(server, order, i, chunk, cache')
    {
      if i < start {
        assert ReadBack(server, order, i, chunk, cache);
        assert order[i] !in ks;
      } else {
        assert order[i] == ks[i - start];
      }
    }
    assert forall k :: k in ks ==> k in order[..end];
    assert forall k :: k in order[..start] ==> k in order[..end];
  }

  /** Read all keys, chunk by chunk; give up at the first failed read. */
  method ReadSeats(server: Server, order: seq<string>, chunk: nat) returns (cache: Option<map<string, Counts>>)
    requires chunk > 0 && Distinct(order)
    ensures cache.Some? ==> Gathered(server, order, |order|, chunk, cache.value)
    ensures cache.None? ==> !AllAnswered(server, |order|, chunk)
  {
    hide Distinct;
    var got: map<string, Counts> := map[];
    var start, j: nat := 0, 0;
    while start < |order|
      invariant start <= |order| && (start == j * chunk || start == |order|)
      invariant Gathered(server, order, start, chunk, got)
      decreases |order| - start
    {
      var end := start + chunk;
      if end > |order| {
        end := |order|;
      }
      assert end <= (j + 1) * chunk && (end == (j + 1) * chunk || end == |order|);
      var vals := server(j);
      if vals.None? {
        ChunkNumber(j, chunk, start);
        return None;
      }
      var more := StoreChunk(vals.value, order[start..end], got);
      NextChunk(server, order, j, end, chunk, got, more);
      got := more;
      start, j := end, j + 1;
    }
    return Some(got);
  }

  // ---- Validation --------------------------------------------------------------------------------

  method CollectKeys(candidates: seq<Path>) returns (keys: set<string>)
    ensures IsKeySet(candidates, keys)
  {
    keys := {};
    for i := 0 to |candidates|
      invariant IsKeySet(candidates[..i], keys)
    {
      ghost var before := keys;
      var p := candidates[i];
      for j := 0 to |p.legs|
        invariant before <= keys
        invariant forall x :: 0 <= x < j && NeedsSeat(p.legs[x]) ==> SeatMapKey(p.legs[x].tripKey) in keys
        invariant forall k :: k in keys ==> k in before || InPath(p, k)
      {
        if !NeedsSeat(p.legs[j]) {
          continue;
        }
        keys := keys + {SeatMapKey(p.legs[j].tripKey)};
      }
      NextPathKeys(candidates, i, before, keys);
    }
    assert candidates[..|candidates|] == candidates;
  }

  lemma NextPathKeys(candidates: seq<Path>, i: nat, before: set<string>, keys: set<string>)
    requires i < |candidates| && IsKeySet(candidates[..i], before) && before <= keys
    requires forall x :: 0 <= x < |candidates[i].legs| && NeedsSeat(candidates[i].legs[x]) ==>
               SeatMapKey(candidates[i].legs[x].tripKey) in keys
    requires forall k :: k in keys ==> k in before || InPath(candidates[i], k)
    ensures IsKeySet(candidates[..i + 1], keys)
  {
    var longer := candidates[..i + 1];
    assert longer[i] == candidates[i];
    forall k | k in keys
      ensures exists x :: 0 <= x < |longer| && InPath(longer[x], k)
    {
      if k in before {
        var x :| 0 <= x < |candidates[..i]| && InPath(candidates[..i][x], k);
        assert InPath(longer[x], k);
      } else {
        assert InPath(longer[i], k);
      }
    }
  }

  /** Keep the passing candidates, stopping at the limit. */
  method KeepPassing(cache: map<string, Counts>, candidates: seq<Path>, seatClass: string, count: int, max: int)
      returns (valid: seq<Path>)
    ensures valid == Truncate(max, Passing(cache, candidates, seatClass, count))
  {
    valid := [];
    for i := 0 to |candidates|
      invariant valid == Passing(cache, candidates[..i], seatClass, count)
      invariant max > 0 ==> |valid| < max
    {
      var ok := CheckPath(cache, candidates[i], seatClass, count);
      assert candidates[..i + 1][..i] == candidates[..i];
      if ok {
        valid := valid + [candidates[i]];
        if max > 0 && |valid| >= max {
          PassingPrefix(cache, candidates, i + 1, seatClass, count);
          return;
        }
      }
    }
    assert candidates[..|candidates|] == candidates;
  }

  method CheckPath(cache: map<string, Counts>, p: Path, seatClass: string, count: int) returns (ok: bool)
    ensures ok <==> Passes(cache, p, seatClass, count)
  {
    for i := 0 to |p.legs|
      invariant forall x :: 0 <= x < i && NeedsSeat(p.legs[x]) ==>
        SeatMapKey(p.legs[x].tripKey) in cache && Seats(cache[SeatMapKey(p.legs[x].tripKey)], seatClass) >= count
    {
      if !NeedsSeat(p.legs[i]) {
        continue;
      }
      var k := SeatMapKey(p.legs[i].tripKey);
      if k !in cache || Seats(cache[k], seatClass) < count {
        return false;
      }
    }
    return true;
  }

  /** The answer when seats cannot be validated. */
  function Unavailable(cfg: ValidatorConfig, candidates: seq<Path>): seq<Path> {
    if cfg.strict then [] else Truncate(cfg.maxResults, candidates)
  }

  /** How a call that was let through to the server ends: with every chunk answered, the candidates that pass on
      those answers and one success reported; else the answer for an unavailable server and one failure reported. */
  ghost predicate Ends(cfg: ValidatorConfig, chunk: nat, b: Config, asked: Condition, later: int, server: Server,
                       candidates: seq<Path>, seatClass: string, count: int, order: seq<string>,
                       result: seq<Path>, after: Condition)
    requires chunk > 0
  {
    if AllAnswered(server, |order|, chunk) then
      after == Succeeded(asked) &&
      exists cache :: Gathered(server, order, |order|, chunk, cache)
                      && result == Truncate(cfg.maxResults, Passing(cache, candidates, seatClass, count))
    else
      after == Failed(b, asked, later) && result == Unavailable(cfg, candidates)
  }

  /** The keys in some order, each once. */
  ghost predicate Lists(order: seq<string>, keys: set<string>) {
    Distinct(order) && forall k :: k in order <==> k in keys
  }

  /** Every leg that needs a seat was seen with enough seats of the class. */
  ghost predicate Confirmed(server: Server, order: seq<string>, chunk: nat, p: Path, seatClass: string, count: int)
    requires chunk > 0
  {
    forall i :: 0 <= i < |p.legs| && NeedsSeat(p.legs[i]) ==>
      Seen(server, order, chunk, SeatMapKey(p.legs[i].tripKey), seatClass, count)
  }

  /** The key is one of those read, and the chunk it was read in was answered with enough seats of the class. */
  ghost predicate Seen(server: Server, order: seq<string>, chunk: nat, key: string, seatClass: string, count: int)
    requires chunk > 0
  {
    exists i :: 0 <= i < |order| && order[i] == key && SeenIn(server(i / chunk), key, seatClass, count)
  }

  predicate SeenIn(answer: Option<map<string, Counts>>, key: string, seatClass: string, count: int) {
    answer.Some? && key in answer.value && Seats(answer.value[key], seatClass) >= count
  }

  /** How a call ends. Without keys to read the candidates are returned as they are; a call that cannot reach the
      server, or that the breaker does not admit, gets the answer for an unavailable server; the others end as
      `Ends` says, the keys having been read in some order. The breaker hears of admitted calls only. */
  ghost predicate Outcome(cfg: ValidatorConfig, chunk: nat, hasClient: bool, b: Config, before: Condition, now: int,
                          later: int, server: Server, candidates: seq<Path>, seatClass: string, count: int,
                          keys: set<string>, result: seq<Path>, after: Condition)
    requires chunk > 0
  {
    if keys == {} then
      result == Truncate(cfg.maxResults, candidates) && after == before
    else if !hasClient || !Admits(b, before, now) then
      result == Unavailable(cfg, candidates) && after == before
    else
      exists order :: Lists(order, keys) && Ends(cfg, chunk, b, Asked(b, before, now), later, server, candidates,
                                                 seatClass, count, order, result, after)
  }

  /** An admitted call leaves no probe waiting: with every chunk answered the breaker is closed and counts no failures,
      and otherwise this failure was its last. */
  lemma AdmittedCallReports(cfg: ValidatorConfig, chunk: nat, b: Config, before: Condition, now: int, later: int,
                            server: Server, candidates: seq<Path>, seatClass: string, count: int, keys: set<string>,
                            result: seq<Path>, after: Condition)
    requires chunk > 0 && b.Valid() && Sound(b, before) && keys != {} && Admits(b, before, now)
    requires Outcome(cfg, chunk, true, b, before, now, later, server, candidates, seatClass, count, keys, result, after)
    ensures !after.mode.HalfOpen? && !after.probing
    ensures (forall j :: server(j).Some?) ==> after.mode.Closed? && after.failures == 0
    ensures (forall j :: server(j).None?) ==>
              && (after.mode.Closed? <==> before.mode.Closed? && before.failures + 1 < b.threshold)
              && (after.mode.Open? ==> after.openedAt == later)
              && result == Unavailable(cfg, candidates)
  {
    hide Truncate, Passing, Gathered;
    var order :| Lists(order, keys) && Ends(cfg, chunk, b, Asked(b, before, now), later, server, candidates,
                                            seatClass, count, order, result, after);
    assert |order| > 0 by {
      var k :| k in keys;
      assert k in order;
    }
    assert AllAnswered(server, |order|, chunk) ==> server(0 / chunk).Some?;
  }

  /** Strict answers are confirmed: some listing of the keys of this call was read, and every leg of every answer
      that needs a seat was seen in those reads. */
  ghost predicate AllConfirmed(server: Server, chunk: nat, keys: set<string>, result: seq<Path>, seatClass: string,
                               count: int)
    requires chunk > 0
  {
    result == [] || exists order :: Lists(order, keys)
                                    && forall p :: p in result ==> Confirmed(server, order, chunk, p, seatClass, count)
  }

  lemma TruncatedSelection(max: int, paths: seq<Path>, all: seq<Path>)
    requires Selection(paths, all)
    ensures Selection(Truncate(max, paths), all)
    ensures forall p :: p in Truncate(max, paths) ==> p in paths
  {
    if max > 0 && |paths| > max {
      PrefixIsSelection(paths, max);
      SelectionOfSelection(paths[..max], paths, all);
    }
  }

  /** As many of the candidates as the limit allows, from the front; all of them without a limit. */
  predicate FirstOf(max: int, candidates: seq<Path>, some: seq<Path>) {
    && some <= candidates
    && |some| == if 0 < max < |candidates| then max else |candidates|
  }

  /** Without validation: nothing, the candidates as they are, or, when no leg needs a seat, nothing to confirm. */
  lemma UnvalidatedAnswers(cfg: ValidatorConfig, candidates: seq<Path>, server: Server, chunk: nat, seatClass: string,
                           count: int, keys: set<string>)
    requires chunk > 0 && IsKeySet(candidates, keys)
    ensures Selection(Unavailable(cfg, candidates), candidates)
            && Selection(Truncate(cfg.maxResults, candidates), candidates)
    ensures cfg.strict ==> Unavailable(cfg, candidates) == []
    ensures !cfg.strict ==> FirstOf(cfg.maxResults, candidates, Unavailable(cfg, candidates))
    ensures keys == {} ==> AllConfirmed(server, chunk, keys, Truncate(cfg.maxResults, candidates), seatClass, count)
  {
    if keys == {} {
      assert Lists([], keys);
      assert forall p :: p in Truncate(cfg.maxResults, candidates) ==>
          Confirmed(server, [], chunk, p, seatClass, count);
    }
    PrefixIsSelection(candidates, |candidates|);
    assert candidates[..|candidates|] == candidates;
    TruncatedSelection(cfg.maxResults, candidates, candidates);
  }

  /** After reading: a selection of the candidates, each of them confirmed. */
  lemma ValidatedAnswers(cfg: ValidatorConfig, candidates: seq<Path>, server: Server, seatClass: string, count: int,
                         order: seq<string>, chunk: nat, cache: map<string, Counts>)
    requires chunk > 0 && Gathered(server, order, |order|, chunk, cache)
    ensures var result := Truncate(cfg.maxResults, Passing(cache, candidates, seatClass, count));
            Selection(result, candidates)
            && forall p :: p in result ==> Confirmed(server, order, chunk, p, seatClass, count)
  {
    var passing := Passing(cache, candidates, seatClass, count);
    PassingIsSelection(cache, candidates, seatClass, count);
    TruncatedSelection(cfg.maxResults, passing, candidates);
    hide Passing, Selection, Truncate;
    forall p | p in passing
      ensures Confirmed(server, order, chunk, p, seatClass, count)
    {
      forall i | 0 <= i < |p.legs| && NeedsSeat(p.legs[i])
        ensures Seen(server, order, chunk, SeatMapKey(p.legs[i].tripKey), seatClass, count)
      {
        CachedIsSeen(server, order, chunk, cache, SeatMapKey(p.legs[i].tripKey), seatClass, count);
      }
    }
  }

  lemma CachedIsSeen(server: Server, order: seq<string>, chunk: nat, cache: map<string, Counts>, key: string,
                     seatClass: string, count: int)
    requires chunk > 0 && Gathered(server, order, |order|, chunk, cache)
    requires key in cache && Seats(cache[key], seatClass) >= count
    ensures Seen(server, order, chunk, key, seatClass, count)
  {
    assert order[..|order|] == order;
    var i :| 0 <= i < |order| && order[i] == key;
    assert ReadBack(server, order, i, chunk, cache);
  }

  class SeatValidator {
    const cfg: ValidatorConfig
    const chunk: nat
    const hasClient: bool
    const cb: CircuitBreaker

    constructor (hasClient: bool, cfg: ValidatorConfig, breakerThreshold: int, breakerCooldown: int)
      ensures this.cfg == cfg && this.hasClient == hasClient && fresh(cb) && cb.Valid()
      ensures chunk == if cfg.mgetChunk > 0 then cfg.mgetChunk else 512
    {
      this.cfg, this.hasClient := cfg, hasClient;
      chunk := if cfg.mgetChunk <= 0 then DEFAULT_MGET_CHUNK else cfg.mgetChunk;
      cb := new CircuitBreaker(breakerThreshold, breakerCooldown);
    }

    /** One validation: asked at `now`, and if it fails, failed at `later`. The breaker hears exactly one report
        when, and only when, it admitted the call. */
    method Validate(candidates: seq<Path>, seatClass: string, count: int, server: Server, now: int, later: int)
        returns (result: seq<Path>)
      requires chunk > 0 && cb.Valid()
      modifies cb
      ensures cb.Valid()
      ensures Selection(result, candidates)
      ensures forall keys :: IsKeySet(candidates, keys) ==>
                && Outcome(cfg, chunk, hasClient, cb.config, old(cb.Current()), now, later, server, candidates,
                           seatClass, count, keys, result, cb.Current())
                && (cfg.strict ==> AllConfirmed(server, chunk, keys, result, seatClass, count))
    {
      hide IsKeySet, AllAnswered, Gathered, Passing, Distinct, Selection, Confirmed, Truncate;
      var keys := CollectKeys(candidates);
      forall other | IsKeySet(candidates, other)
        ensures other == keys
      {
        OneKeySet(candidates, keys, other);
      }
      UnvalidatedAnswers(cfg, candidates, server, chunk, seatClass, count, keys);
      if keys == {} {
        return Truncate(cfg.maxResults, candidates);
      }
      if !hasClient {
        return Unavailable(cfg, candidates);
      }
      var allowed := cb.Allow(now);
      if !allowed {
        return Unavailable(cfg, candidates);
      }
      ghost var asked := cb.Current();
      var order := Range(keys);
      assert Lists(order, keys);
      var cache := ReadSeats(server, order, chunk);
      if cache.None? {
        cb.Failure(later);
        result := Unavailable(cfg, candidates);
      } else {
        GatheredAnswered(server, order, chunk, cache.value);
        cb.Success();
        result := KeepPassing(cache.value, candidates, seatClass, count, cfg.maxResults);
        ValidatedAnswers(cfg, candidates, server, seatClass, count, order, chunk, cache.value);
      }
      assert Ends(cfg, chunk, cb.config, asked, later, server, candidates, seatClass, count, order, result,
                  cb.Current());
    }
  }

  lemma OneKeySet(candidates: seq<Path>, a: set<string>, b: set<string>)
    requires IsKeySet(candidates, a) && IsKeySet(candidates, b)
    ensures a == b
  {
    forall k
      ensures k in a <==> k in b
    {
      if k in a {
        var i :| 0 <= i < |candidates| && InPath(candidates[i], k);
      }
      if k in b {
        var i :| 0 <= i < |candidates| && InPath(candidates[i], k);
      }
    }
  }

  lemma GatheredAnswered(server: Server, order: seq<string>, chunk: nat, cache: map<string, Counts>)
    requires chunk > 0 && Gathered(server, order, |order|, chunk, cache)
    ensures AllAnswered(server, |order|, chunk)
  {
  }

  /** On a server that answers every read with the same seats, the answer is exactly the first passing candidates,
      whatever the chunk size and whatever order the keys are read in. */
  lemma SteadyServerIsExact(cfg: ValidatorConfig, chunk: nat, b: Config, asked: Condition, later: int, server: Server,
                            candidates: seq<Path>, seatClass: string, count: int, order: seq<string>,
                            result: seq<Path>, after: Condition, m: map<string, Counts>)
    requires chunk > 0 && forall j :: server(j) == Some(m)
    requires IsKeySet(candidates, set k | k in order)
    requires Ends(cfg, chunk, b, asked, later, server, candidates, seatClass, count, order, result, after)
    ensures result == Truncate(cfg.maxResults, Passing(m, candidates, seatClass, count))
    ensures after == Succeeded(asked)
  {
    hide Passing, IsKeySet, Truncate;
    assert AllAnswered(server, |order|, chunk);
    var cache :| Gathered(server, order, |order|, chunk, cache)
                 && result == Truncate(cfg.maxResults, Passing(cache, candidates, seatClass, count));
    forall p | p in candidates
      ensures Passes(cache, p, seatClass, count) == Passes(m, p, seatClass, count)
    {
      SamePasses(candidates, order, server, chunk, cache, m, p, seatClass, count);
    }
    SamePassing(cache, m, candidates, seatClass, count);
  }

  lemma SamePasses(candidates: seq<Path>, order: seq<string>, server: Server, chunk: nat, cache: map<string, Counts>,
                   m: map<string, Counts>, p: Path, seatClass: string, count: int)
    requires chunk > 0 && forall j :: server(j) == Some(m)
    requires IsKeySet(candidates, set k | k in order) && p in candidates
    requires Gathered(server, order, |order|, chunk, cache)
    ensures Passes(cache, p, seatClass, count) == Passes(m, p, seatClass, count)
  {
    var c :| 0 <= c < |candidates| && candidates[c] == p;
    forall i | 0 <= i < |p.legs| && NeedsSeat(p.legs[i])
      ensures var k := SeatMapKey(p.legs[i].tripKey); (k in cache <==> k in m) && (k in cache ==> cache[k] == m[k])
    {
      var k := SeatMapKey(candidates[c].legs[i].tripKey);
      assert k in order;
      var x :| 0 <= x < |order| && order[x] == k;
      assert ReadBack(server, order, x, chunk, cache);
    }
  }

  lemma {:induction false} SamePassing(a: map<string, Counts>, b: map<string, Counts>, candidates: seq<Path>,
                                       seatClass: string, count: int)
    requires forall p :: p in candidates ==> Passes(a, p, seatClass, count) == Passes(b, p, seatClass, count)
    ensures Passing(a, candidates, seatClass, count) == Passing(b, candidates, seatClass, count)
  {
    if candidates != [] {
      SamePassing(a, b, candidates[..|candidates| - 1], seatClass, count);
      assert candidates[|candidates| - 1] in candidates;
    }
  }
}
