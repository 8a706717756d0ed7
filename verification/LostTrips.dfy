/** Which published counts are right. A trip is right when its counts are those of Redis or an entry still to be read
    will make them so; at the head of the stream only the first remains. */
module LostTrips {
  import opened Model
  import opened SeatKeys
  import opened SeatSync

  ghost predicate Right(s: State, k: TripKey) {
    UpToDate(s.redis, s.published, k, s.cursor)
  }

  // ---- Step by step ------------------------------------------------------------------------------

  /** Whether the trip is right after a step, told from whether it was right before and what the step meets. Beginning
      a cold start forgets the entries before the head, publishing one forgets the trips it did not ask for, and a
      batch forgets what was trimmed before it and is named neither in it nor after it. */
  ghost predicate StaysRight(s: State, step: Step, k: TripKey, right: bool)
    requires Can(s, step)
  {
    match step
    case Gate(key, counts, text) => right || (key == k && GateWrite(s.redis, key, counts, text) != s.redis)
    case BeginColdStart(_) =>
      right && (Same(s.redis.seats, s.published, k) || |s.redis.log| == s.redis.trimmed)
    case Publish =>
      if s.task.Cold? then k in s.task.keys || k !in s.redis.seats || Unread(s.redis.log, s.cursor, k)
      else right && (k in s.task.dirty || Same(s.redis.seats, s.published, k) || Unread(s.redis.log, s.task.from, k))
    case _ => right
  }

  ghost predicate StaysRightThrough(s: State, steps: seq<Step>, dates: set<string>, k: TripKey, right: bool)
    decreases |steps|
  {
    if steps == [] then right
    else
      Can(s, steps[0])
      && StaysRightThrough(Do(s, steps[0], dates), steps[1..], dates, k, StaysRight(s, steps[0], k, right))
  }

  lemma GateRight(s: State, k: TripKey, key: TripKey, counts: Counts, text: string)
    requires s.cursor <= |s.redis.log| && ':' !in key.date && ':' !in k.date
    ensures Right(s.(redis := GateWrite(s.redis, key, counts, text)), k) <==>
              Right(s, k) || (key == k && GateWrite(s.redis, key, counts, text) != s.redis)
  {
    var r' := GateWrite(s.redis, key, counts, text);
    if r' != s.redis {
      assert r'.log[|s.redis.log|] == SeatTripDate(key);
      if key != k {
        if SeatTripDate(key) == SeatTripDate(k) {
          OneName(key, k);
          assert false;
        }
        LogGrows(s.redis.log, SeatTripDate(key), s.cursor, k);
      }
    }
  }

  lemma ColdPublishRight(s: State, dates: set<string>, k: TripKey)
    requires Inv(s, dates) && s.task.Cold? && s.task.done == |s.task.keys|
    ensures UpToDate(s.redis, s.task.staging, k, s.cursor) <==>
              k in s.task.keys || k !in s.redis.seats || Unread(s.redis.log, s.cursor, k)
  {
    hide RedisOK, Promises;
    if k in s.task.keys {
      var i :| 0 <= i < |s.task.keys| && s.task.keys[i] == k;
      assert UpToDate(s.redis, s.task.staging, s.task.keys[i], s.cursor);
    }
  }

  lemma DeltaPublishRight(s: State, dates: set<string>, k: TripKey)
    requires Inv(s, dates) && NoColons(dates) && Names(SeatTripDate(k), dates, k)
    requires s.task.Delta? && s.task.done == |s.task.dirty|
    ensures UpToDate(s.redis, s.published + s.task.updates, k, s.task.to) <==>
              Right(s, k)
              && (k in s.task.dirty || Same(s.redis.seats, s.published, k) || Unread(s.redis.log, s.task.from, k))
  {
    if k in s.task.dirty {
      DirtyIsUpToDate(s, dates, k);
      DirtyIsUnread(s, dates, k);
    } else {
      CleanIsPassed(s, dates, k);
    }
  }

  lemma StepRight(s: State, step: Step, dates: set<string>, k: TripKey)
    requires Inv(s, dates) && NoColons(dates) && Names(SeatTripDate(k), dates, k) && Can(s, step)
    ensures Right(Do(s, step, dates), k) <==> StaysRight(s, step, k, Right(s, k))
  {
    if step.Gate? {
      GateRight(s, k, step.key, step.counts, step.text);
    } else if step.Publish? {
      if s.task.Cold? {
        ColdPublishRight(s, dates, k);
      } else {
        DeltaPublishRight(s, dates, k);
      }
    }
  }

  lemma {:induction false} RunRight(s: State, steps: seq<Step>, s': State, dates: set<string>, k: TripKey)
    requires Inv(s, dates) && NoColons(dates) && Names(SeatTripDate(k), dates, k) && Runs(s, steps, s', dates)
    ensures Right(s', k) <==> StaysRightThrough(s, steps, dates, k, Right(s, k))
    decreases |steps|
  {
    hide Inv, Can, Do, Right, StaysRight, Names;
    if steps != [] {
      StepKeeps(s, steps[0], dates);
      StepRight(s, steps[0], dates, k);
      RunRight(Do(s, steps[0], dates), steps[1..], s', dates, k);
    }
  }

  /** In every interleaving, at the head of the stream, the published counts of a trip equal Redis exactly when the trip
      came through the run right: what was lost on the way, and only that, is wrong. */
  lemma AtHeadExactly(boot: State, steps: seq<Step>, s: State, dates: set<string>, k: TripKey)
    requires Boots(boot, dates) && NoColons(dates) && Runs(boot, steps, s, dates) && Names(SeatTripDate(k), dates, k)
    requires s.cursor == |s.redis.log|
    ensures Same(s.redis.seats, s.published, k) <==>
              StaysRightThrough(boot, steps, dates, k, k !in boot.redis.seats || Unread(boot.redis.log, 0, k))
  {
    RunRight(boot, steps, s, dates, k);
  }

  // ---- Cold starts that fail ---------------------------------------------------------------------

  /** A step after a cold start captured its cursor: that cold start never publishes, no other begins, and no batch
      passes over trimmed entries unnoticed. */
  predicate Failing(s: State, step: Step) {
    Watchful(s, step) && !(step.Publish? && s.task.Cold?)
  }

  ghost predicate FailingRun(s: State, steps: seq<Step>, s': State, dates: set<string>)
    decreases |steps|
  {
    if steps == [] then s' == s
    else Can(s, steps[0]) && Failing(s, steps[0]) && FailingRun(Do(s, steps[0], dates), steps[1..], s', dates)
  }

  /** The trip is right in `s` exactly when its counts were those of Redis at the capture
      or an entry past the captured cursor names it. */
  ghost predicate Tracks(capture: State, s: State, k: TripKey) {
    && capture.cursor <= s.cursor
    && (s.task.Delta? ==> s.task.from == s.cursor)
    && (UpToDate(s.redis, s.published, k, s.cursor) <==>
          Same(capture.redis.seats, capture.published, k) || Unread(s.redis.log, capture.cursor, k))
  }

  lemma GateTracks(capture: State, s: State, k: TripKey, key: TripKey, counts: Counts, text: string)
    requires Tracks(capture, s, k) && s.cursor <= |s.redis.log|
    ensures Tracks(capture, s.(redis := GateWrite(s.redis, key, counts, text)), k)
  {
    var r' := GateWrite(s.redis, key, counts, text);
    if r' != s.redis {
      hide SeatTripDate;
      assert r'.log[|s.redis.log|] == SeatTripDate(key);
      if SeatTripDate(key) != SeatTripDate(k) {
        LogGrows(s.redis.log, SeatTripDate(key), s.cursor, k);
        LogGrows(s.redis.log, SeatTripDate(key), capture.cursor, k);
      }
    }
  }

  lemma LogGrows(log: seq<string>, entry: string, c: nat, k: TripKey)
    requires entry != SeatTripDate(k)
    ensures Unread(log + [entry], c, k) <==> Unread(log, c, k)
  {
    if Unread(log, c, k) {
      var j :| c <= j < |log| && log[j] == SeatTripDate(k);
      assert (log + [entry])[j] == SeatTripDate(k);
    }
  }

  lemma DirtyIsUnread(s: State, dates: set<string>, k: TripKey)
    requires Inv(s, dates) && NoColons(dates) && s.task.Delta? && k in s.task.dirty
    ensures Unread(s.redis.log, s.task.from, k)
  {
    var batch := s.redis.log[s.task.from..s.task.to];
    DirtyNames(batch, dates);
    var e :| e in batch && Parse(e, dates) == Some(k);
    var j :| 0 <= j < |batch| && batch[j] == e;
    ParsesToWhatItNames(e, dates, k);
    assert s.redis.log[s.task.from + j] == SeatTripDate(k);
  }

  lemma CleanIsPassed(s: State, dates: set<string>, k: TripKey)
    requires Inv(s, dates) && NoColons(dates) && s.task.Delta? && k !in s.task.dirty && Names(SeatTripDate(k), dates, k)
    ensures Unread(s.redis.log, s.task.from, k) <==> Unread(s.redis.log, s.task.to, k)
    ensures Same(s.redis.seats, s.published + s.task.updates, k) <==> Same(s.redis.seats, s.published, k)
  {
    if Unread(s.redis.log, s.task.from, k) {
      var j :| s.task.from <= j < |s.redis.log| && s.redis.log[j] == SeatTripDate(k);
      if j < s.task.to {
        NamedInBatch(s.redis.log, s.task.from, s.task.to, j, k, dates);
      }
    }
  }

  lemma PublishTracks(capture: State, s: State, dates: set<string>, k: TripKey)
    requires Inv(s, dates) && NoColons(dates) && Tracks(capture, s, k) && Names(SeatTripDate(k), dates, k)
    requires s.task.Delta? && s.task.done == |s.task.dirty|
    ensures Tracks(capture, Do(s, Publish, dates), k)
  {
    if k in s.task.dirty {
      DirtyIsUpToDate(s, dates, k);
      DirtyIsUnread(s, dates, k);
    } else {
      CleanIsPassed(s, dates, k);
    }
  }

  lemma StepTracks(capture: State, s: State, step: Step, dates: set<string>, k: TripKey)
    requires Inv(s, dates) && NoColons(dates) && Tracks(capture, s, k) && Names(SeatTripDate(k), dates, k)
    requires Can(s, step) && Failing(s, step)
    ensures Tracks(capture, Do(s, step, dates), k)
  {
    hide RedisOK, Promises, Names, Same, Unread, Dirty;
    if step.Gate? {
      GateTracks(capture, s, k, step.key, step.counts, step.text);
    } else if step.Publish? {
      PublishTracks(capture, s, dates, k);
    }
  }

  lemma {:induction false} RunTracks(capture: State, s: State, steps: seq<Step>, s': State, dates: set<string>,
                                     k: TripKey)
    requires Inv(s, dates) && NoColons(dates) && Tracks(capture, s, k) && Names(SeatTripDate(k), dates, k)
    requires FailingRun(s, steps, s', dates)
    ensures Tracks(capture, s', k)
    decreases |steps|
  {
    hide Inv, Can, Do, Failing, Tracks, Names;
    if steps != [] {
      StepKeeps(s, steps[0], dates);
      StepTracks(capture, s, steps[0], dates, k);
      RunTracks(capture, Do(s, steps[0], dates), steps[1..], s', dates, k);
    }
  }

  /** From the capture of a cold start that never publishes, as long as no other begins: the trip is lost, wrong with
      nothing left to read that would correct it, exactly when its published counts differed from Redis at the capture
      and nothing past the captured cursor names it. */
  lemma FailedColdStartLosesExactly(boot: State, before: seq<Step>, capture: State, after: seq<Step>, s: State,
                                    dates: set<string>, k: TripKey)
    requires Boots(boot, dates) && NoColons(dates) && Runs(boot, before, capture, dates) && capture.task.Cold?
    requires FailingRun(capture, after, s, dates) && Names(SeatTripDate(k), dates, k)
    ensures !UpToDate(s.redis, s.published, k, s.cursor) <==>
            !Same(capture.redis.seats, capture.published, k) && !Unread(s.redis.log, capture.cursor, k)
    ensures s.cursor == |s.redis.log| ==>
              (!Same(s.redis.seats, s.published, k) <==>
               !Same(capture.redis.seats, capture.published, k) && !Unread(s.redis.log, capture.cursor, k))
  {
    hide RedisOK, Names, Same, Can, Do, Failing;
    RunKeeps(boot, before, capture, dates);
    RunTracks(capture, capture, after, s, dates, k);
  }
}
