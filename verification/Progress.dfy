/** The refresh loop gets somewhere: an answered lag check resynchronises exactly when the entry the cursor stands on is
    gone, and otherwise the loop works its way to the head of the stream and leaves every trip right. */
module Progress {
  import opened Model
  import opened SeatKeys
  import opened SeatSync
  import opened LostTrips

  /** Nothing before the next entry is missing: the entry the cursor stands on survives, or nothing was ever trimmed. */
  predicate Current(s: State) {
    s.redis.trimmed < s.cursor || s.redis.trimmed == 0
  }

  /** An answered check begins a cold start if and only if the cursor has left "0" and the entry it stands on has been
      trimmed; otherwise, and whenever it is not answered, the batch is applied as it was read. */
  lemma CheckResyncsExactly(s: State, answered: bool, dates: set<string>)
    requires Can(s, CheckLag(answered))
    ensures var s' := Do(s, CheckLag(answered), dates);
            if answered && s.cursor > 0 && s.cursor - 1 < s.redis.trimmed then s' == s.(task := Due)
            else
              var batch := s.redis.log[s.task.from..s.task.to];
              s' == s.(task := Delta(s.task.from, s.task.to, Dirty(batch, dates), 0, map[]))
  {
  }

  // ---- No resync without a loss ------------------------------------------------------------------

  /** Anything but trimming, a new cold start, or an unanswered check. */
  predicate Steady(step: Step) {
    !step.Trim? && !step.BeginColdStart? && (step.CheckLag? ==> step.answered)
  }

  ghost predicate SteadyRun(s: State, steps: seq<Step>, s': State, dates: set<string>) {
    Runs(s, steps, s', dates) && forall i :: 0 <= i < |steps| ==> Steady(steps[i])
  }

  predicate Refreshing(s: State) {
    Current(s) && (s.task.Idle? || s.task.Checking? || s.task.Delta?)
  }

  lemma SteadyStepRefreshes(s: State, step: Step, dates: set<string>)
    requires Inv(s, dates) && Refreshing(s) && Can(s, step) && Steady(step)
    ensures Refreshing(Do(s, step, dates))
  {
    hide RedisOK, Promises, Dirty, Fetch, UpToDate;
  }

  /** While nothing more is trimmed and checks are answered, a loop that has missed nothing never resynchronises,
      whatever the gates write meanwhile. */
  lemma {:induction false} NeverResyncs(s: State, steps: seq<Step>, s': State, dates: set<string>)
    requires Inv(s, dates) && NoColons(dates) && Refreshing(s) && SteadyRun(s, steps, s', dates)
    ensures Refreshing(s')
    decreases |steps|
  {
    hide Inv, Can, Do, Refreshing;
    if steps != [] {
      assert Steady(steps[0]);
      StepKeeps(s, steps[0], dates);
      SteadyStepRefreshes(s, steps[0], dates);
      NeverResyncs(Do(s, steps[0], dates), steps[1..], s', dates);
    }
  }

  // ---- Reaching the head -------------------------------------------------------------------------

  /** A step of the refresh loop with every read answered. */
  predicate Refreshes(step: Step) {
    step.ReadStream? || step == CheckLag(true) || step.ReadChunk? || step.Publish?
  }

  /** The loop takes `s` to `s'` by itself, the server as it was, and every trip right before is right after. */
  ghost predicate Leads(s: State, steps: seq<Step>, s': State, dates: set<string>) {
    && Runs(s, steps, s', dates) && (forall i :: 0 <= i < |steps| ==> Refreshes(steps[i]))
    && s'.redis == s.redis
    && (forall k :: Names(SeatTripDate(k), dates, k) && Right(s, k) ==> Right(s', k))
  }

  lemma {:induction false} RunOn(s: State, one: seq<Step>, mid: State, two: seq<Step>, s': State, dates: set<string>)
    requires Runs(s, one, mid, dates) && Runs(mid, two, s', dates)
    ensures Runs(s, one + two, s', dates)
    decreases |one|
  {
    hide Can, Do;
    if one == [] {
      assert one + two == two;
    } else {
      assert (one + two)[1..] == one[1..] + two;
      RunOn(Do(s, one[0], dates), one[1..], mid, two, s', dates);
    }
  }

  lemma LeadsOn(s: State, one: seq<Step>, mid: State, two: seq<Step>, s': State, dates: set<string>)
    requires Leads(s, one, mid, dates) && Leads(mid, two, s', dates)
    ensures Leads(s, one + two, s', dates)
  {
    hide Runs, Right, Names;
    RunOn(s, one, mid, two, s', dates);
  }

  lemma LeadsNowhere(s: State, dates: set<string>)
    ensures Leads(s, [], s, dates)
  {
  }

  /** The step leaves what is right right. */
  lemma OneStepLeads(s: State, step: Step, dates: set<string>)
    requires Inv(s, dates) && NoColons(dates) && Can(s, step) && Refreshes(step)
    requires step.Publish? ==> s.task.Delta? && s.task.from == s.cursor
    ensures Leads(s, [step], Do(s, step, dates), dates)
  {
    hide Inv, Can, Right, Names, Unread, Same;
    var s' := Do(s, step, dates);
    assert [step][1..] == [] && Runs(s', [], s', dates);
    assert Runs(s, [step], s', dates);
    forall k | Names(SeatTripDate(k), dates, k) && Right(s, k)
      ensures Right(s', k)
    {
      StepRight(s, step, dates, k);
      RightMeans(s, k);
    }
  }

  lemma RightMeans(s: State, k: TripKey)
    ensures Right(s, k) <==> Same(s.redis.seats, s.published, k) || Unread(s.redis.log, s.cursor, k)
  {
  }

  /** Chunk by chunk, all trips of the batch are read. */
  lemma {:induction false} ChunksFinish(s: State, m: nat, dates: set<string>) returns (steps: seq<Step>, s': State)
    requires Inv(s, dates) && NoColons(dates) && s.task.Delta? && m > 0
    ensures Leads(s, steps, s', dates) && Inv(s', dates)
    ensures s'.cursor == s.cursor && s'.task.Delta? && s'.task.done == |s'.task.dirty|
    ensures s'.task.from == s.task.from && s'.task.to == s.task.to
    decreases |s.task.dirty| - s.task.done
  {
    assert s.task.done <= |s.task.dirty|;
    hide Inv, Leads, Fetch;
    if s.task.done == |s.task.dirty| {
      LeadsNowhere(s, dates);
      steps, s' := [], s;
    } else {
      var mid := Do(s, ReadChunk(m), dates);
      StepKeeps(s, ReadChunk(m), dates);
      OneStepLeads(s, ReadChunk(m), dates);
      var rest;
      rest, s' := ChunksFinish(mid, m, dates);
      LeadsOn(s, [ReadChunk(m)], mid, rest, s', dates);
      steps := [ReadChunk(m)] + rest;
    }
  }

  /** One turn of the loop: read up to `n` entries, check, fetch the trips they name `m` at a time, publish. */
  lemma OneTurn(s: State, n: nat, m: nat, dates: set<string>) returns (steps: seq<Step>, s': State)
    requires Inv(s, dates) && NoColons(dates) && s.task.Idle? && Current(s) && s.cursor < |s.redis.log|
    requires n > 0 && m > 0
    ensures Leads(s, steps, s', dates) && Inv(s', dates)
    ensures s'.task.Idle? && Current(s') && s'.cursor == Min(s.cursor + n, |s.redis.log|)
  {
    var read := Do(s, ReadStream(n), dates);
    assert Can(s, ReadStream(n)) && read.task == Checking(s.cursor, Min(s.cursor + n, |s.redis.log|));
    var checked := Do(read, CheckLag(true), dates);
    assert Can(read, CheckLag(true)) && checked.task.Delta? && checked.task.from == s.cursor;
    hide Inv, Leads, Dirty, Fetch, Missed;
    StepKeeps(s, ReadStream(n), dates);
    OneStepLeads(s, ReadStream(n), dates);
    StepKeeps(read, CheckLag(true), dates);
    OneStepLeads(read, CheckLag(true), dates);
    LeadsOn(s, [ReadStream(n)], read, [CheckLag(true)], checked, dates);
    var chunks, fetched := ChunksFinish(checked, m, dates);
    LeadsOn(s, [ReadStream(n)] + [CheckLag(true)], checked, chunks, fetched, dates);
    s' := Do(fetched, Publish, dates);
    StepKeeps(fetched, Publish, dates);
    OneStepLeads(fetched, Publish, dates);
    steps := [ReadStream(n)] + [CheckLag(true)] + chunks + [Publish];
    LeadsOn(s, [ReadStream(n)] + [CheckLag(true)] + chunks, fetched, [Publish], s', dates);
    SameServer(s, [ReadStream(n)] + [CheckLag(true)] + chunks, fetched, dates);
  }

  lemma SameServer(s: State, steps: seq<Step>, s': State, dates: set<string>)
    requires Leads(s, steps, s', dates)
    ensures s'.redis == s.redis
  {
  }

  /** From any idle moment at which nothing has been missed, whatever the sizes of batches and chunks, the loop reaches
      the head of the stream without a cold start; and there the published counts equal Redis for every trip that was
      right, and for every trip the entries on the way name. */
  lemma {:induction false} ReachesHead(s: State, n: nat, m: nat, dates: set<string>)
      returns (steps: seq<Step>, s': State)
    requires Inv(s, dates) && NoColons(dates) && s.task.Idle? && Current(s) && n > 0 && m > 0
    ensures Leads(s, steps, s', dates) && s'.task.Idle? && s'.redis == s.redis && s'.cursor == |s.redis.log|
    ensures forall k :: Names(SeatTripDate(k), dates, k)
                        && (Same(s.redis.seats, s.published, k) || Unread(s.redis.log, s.cursor, k)) ==>
              Same(s'.redis.seats, s'.published, k)
    decreases |s.redis.log| - s.cursor
  {
    assert s.cursor <= |s.redis.log|;
    hide Inv, Leads;
    if s.cursor == |s.redis.log| {
      LeadsNowhere(s, dates);
      steps, s' := [], s;
    } else {
      var first, mid := OneTurn(s, n, m, dates);
      SameServer(s, first, mid, dates);
      var rest;
      rest, s' := ReachesHead(mid, n, m, dates);
      LeadsOn(s, first, mid, rest, s', dates);
      SameServer(s, first + rest, s', dates);
      steps := first + rest;
    }
    RightAtHead(s, steps, s', dates);
  }

  lemma RightAtHead(s: State, steps: seq<Step>, s': State, dates: set<string>)
    requires Leads(s, steps, s', dates) && s'.cursor == |s'.redis.log|
    ensures forall k :: Names(SeatTripDate(k), dates, k)
                        && (Same(s.redis.seats, s.published, k) || Unread(s.redis.log, s.cursor, k)) ==>
              Same(s'.redis.seats, s'.published, k)
  {
    hide Same, Names, Runs;
    forall k | Names(SeatTripDate(k), dates, k)
               && (Same(s.redis.seats, s.published, k) || Unread(s.redis.log, s.cursor, k))
      ensures Same(s'.redis.seats, s'.published, k)
    {
      RightMeans(s, k);
      RightMeans(s', k);
    }
  }

  // ---- Cold starts -------------------------------------------------------------------------------

  /** `signals` hold what Redis holds for these trips, and nothing else. */
  ghost predicate Copied(seats: map<TripKey, Counts>, keys: seq<TripKey>, signals: Signals) {
    forall k :: (k in signals <==> k in keys && k in seats) && (k in signals ==> signals[k] == seats[k])
  }

  lemma {:induction false} ColdChunksFinish(s: State, m: nat, dates: set<string>) returns (steps: seq<Step>, s': State)
    requires s.task.Cold? && s.task.done <= |s.task.keys| && m > 0
    requires Copied(s.redis.seats, s.task.keys[..s.task.done], s.task.staging)
    ensures Runs(s, steps, s', dates) && s'.task.Cold? && s'.task.done == |s'.task.keys|
    ensures s' == s.(task := s'.task) && s'.task.keys == s.task.keys
    ensures Copied(s.redis.seats, s.task.keys, s'.task.staging)
    decreases |s.task.keys| - s.task.done
  {
    if s.task.done == |s.task.keys| {
      assert s.task.keys[..s.task.done] == s.task.keys;
      steps, s' := [], s;
    } else {
      var mid := Do(s, ReadChunk(m), dates);
      assert Can(s, ReadChunk(m));
      FetchedAre(s.redis.seats, s.task.keys[s.task.done..mid.task.done], s.task.staging);
      assert mid.task.keys[..mid.task.done] == s.task.keys[..s.task.done] + s.task.keys[s.task.done..mid.task.done];
      hide Can, Do, Fetch;
      var rest;
      rest, s' := ColdChunksFinish(mid, m, dates);
      steps := [ReadChunk(m)] + rest;
    }
  }

  /** A cold start that is left alone publishes exactly what Redis holds for the trips it lists, and starts reading
      where the stream ended when it began. */
  lemma ColdStartCopies(s: State, keys: seq<TripKey>, m: nat, dates: set<string>) returns (steps: seq<Step>, s': State)
    requires s.task.Due? && m > 0
    ensures Runs(s, steps, s', dates) && s'.task.Idle? && s'.redis == s.redis
    ensures Copied(s.redis.seats, keys, s'.published)
    ensures s'.cursor == if |s.redis.log| > s.redis.trimmed then |s.redis.log| else s.cursor
  {
    var begun := Do(s, BeginColdStart(keys), dates);
    assert Can(s, BeginColdStart(keys)) && begun.task == Cold(keys, 0, map[]);
    var chunks, fetched := ColdChunksFinish(begun, m, dates);
    assert Can(fetched, Publish);
    s' := Do(fetched, Publish, dates);
    hide Can, Do;
    assert [Publish][1..] == [] && Runs(s', [], s', dates);
    assert Runs(fetched, [Publish], s', dates);
    RunOn(begun, chunks, fetched, [Publish], s', dates);
    steps := [BeginColdStart(keys)] + (chunks + [Publish]);
    assert steps[1..] == chunks + [Publish];
  }
}
