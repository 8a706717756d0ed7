/** Keeping the in-memory seat signals in step with Redis (`seat_gate.lua`, `refresher.go`), as a state machine
    whose steps interleave freely: gate writes and trims on the server, and the one syncer goroutine reading the
    head, chunks and batches, and publishing. Timestamps and staleness are left out: they change without a
    stream entry. */
module SeatSync {
  import opened Model
  import opened Ordering
  import opened SeatKeys

  type Signals = map<TripKey, Counts>

  /** The server. Stream entries never change, so the log keeps all of them and `trimmed` counts those dropped
      from its front. Entry identifiers increase, so entry number `i` stands for identifier `i + 1`, and a
      cursor is the number of entries it is past: 0 is the identifier "0". */
  datatype Redis = Redis(seats: map<TripKey, Counts>, hashes: map<TripKey, string>, log: seq<string>, trimmed: nat)

  /** What the syncer is in the middle of. */
  datatype Task =
    | Due                                                            // a cold start: boot, or after lag
    | Idle                                                           // about to read the stream
    | Checking(from: nat, to: nat)                                   // read entries [from, to), lag not checked yet
    | Cold(keys: seq<TripKey>, done: nat, staging: Signals)          // cursor captured, snapshot under way
    | Delta(from: nat, to: nat, dirty: seq<TripKey>, done: nat, updates: Signals)

  /** `promised` is not part of the program: it records the trips the published signals answer for. */
  datatype State = State(redis: Redis, cursor: nat, published: Signals, task: Task, promised: set<TripKey>)

  datatype Step =
    | Gate(key: TripKey, counts: Counts, text: string)
    | Trim(to: nat)
    | BeginColdStart(keys: seq<TripKey>)
    | GiveUp
    | ReadChunk(n: nat)
    | FetchFails
    | Publish
    | ReadStream(n: nat)
    | CheckLag(answered: bool)

  // ---- The steps ---------------------------------------------------------------------------------

  /** Compare the hash, and on a difference write the seats and append to the stream, in one step. */
  function GateWrite(r: Redis, key: TripKey, counts: Counts, text: string): Redis {
    if key in r.hashes && r.hashes[key] == text then r
    else r.(seats := r.seats[key := counts], hashes := r.hashes[key := text], log := r.log + [SeatTripDate(key)])
  }

  /** One multi-key read: trips without seat data stay as they are. */
  function Fetch(seats: map<TripKey, Counts>, keys: seq<TripKey>, out: Signals): Signals {
    if keys == [] then out
    else
      var n := |keys| - 1;
      var rest := Fetch(seats, keys[..n], out);
      if keys[n] in seats then rest[keys[n] := seats[keys[n]]] else rest
  }

  /** The distinct trips a batch names, in order of first appearance. */
  function Dirty(entries: seq<string>, dates: set<string>): seq<TripKey> {
    if entries == [] then []
    else
      var before := Dirty(entries[..|entries| - 1], dates);
      match Parse(entries[|entries| - 1], dates)
      case None => before
      case Some(key) => if key in before then before else before + [key]
  }

  /** No trip is fetched twice for one batch. */
  lemma {:induction false} DirtyOnce(entries: seq<string>, dates: set<string>)
    ensures Distinct(Dirty(entries, dates))
  {
    if entries != [] {
      DirtyOnce(entries[..|entries| - 1], dates);
    }
  }

  function Min(a: nat, b: nat): nat { if a < b then a else b }
  function Max(a: nat, b: nat): nat { if a < b then b else a }

  /** The cursor has fallen behind the oldest surviving entry. */
  predicate Lagging(s: State) {
    s.cursor != 0 && s.cursor < s.redis.trimmed + 1
  }

  /** When a step can be taken. Trimming keeps the newest entries, so it never empties the stream. */
  ghost predicate Can(s: State, step: Step) {
    match step
    case Gate(key, counts, text) => ':' !in key.date && IsCanonical(counts, text)
    case Trim(to) => s.redis.trimmed <= to < |s.redis.log|
    case BeginColdStart(_) => s.task.Due?
    case GiveUp => s.task.Due?
    case ReadChunk(n) =>
      n > 0 && ((s.task.Cold? && s.task.done < |s.task.keys|) || (s.task.Delta? && s.task.done < |s.task.dirty|))
    case FetchFails => s.task.Cold? || s.task.Delta?
    case Publish => (s.task.Cold? && s.task.done == |s.task.keys|) || (s.task.Delta? && s.task.done == |s.task.dirty|)
    case ReadStream(n) => n > 0 && s.task.Idle? && Max(s.cursor, s.redis.trimmed) < |s.redis.log|
    case CheckLag(_) => s.task.Checking? && s.task.from < s.task.to <= |s.redis.log|
  }

  /** The trips of the entries between the cursor and the batch: trimmed before they were read. */
  ghost function Missed(s: State): set<TripKey>
    requires s.task.Delta?
  {
    set k | k in s.promised
            && exists j :: s.cursor <= j < s.task.from && j < |s.redis.log| && s.redis.log[j] == SeatTripDate(k)
  }

  ghost function Do(s: State, step: Step, dates: set<string>): State
    requires Can(s, step)
  {
    match step
    case Gate(key, counts, text) => s.(redis := GateWrite(s.redis, key, counts, text))
    case Trim(to) => s.(redis := s.redis.(trimmed := to))
    case BeginColdStart(keys) =>
      var head := if |s.redis.log| > s.redis.trimmed then |s.redis.log| else s.cursor;
      s.(cursor := head, task := Cold(keys, 0, map[]), promised := {})
    case GiveUp => s.(task := Idle)
    case ReadChunk(n) =>
      if s.task.Cold? then
        var end := Min(s.task.done + n, |s.task.keys|);
        s.(task := s.task.(staging := Fetch(s.redis.seats, s.task.keys[s.task.done..end], s.task.staging), done := end))
      else
        var end := Min(s.task.done + n, |s.task.dirty|);
        s.(task :=
           s.task.(updates := Fetch(s.redis.seats, s.task.dirty[s.task.done..end], s.task.updates), done := end))
    case FetchFails => s.(task := if s.task.Cold? then Due else Idle)
    case Publish =>
      if s.task.Cold? then
        s.(published := s.task.staging, task := Idle,
           promised := set k | k in s.task.keys && Names(SeatTripDate(k), dates, k))
      else
        s.(published := s.published + s.task.updates, cursor := s.task.to, task := Idle,
           promised := (s.promised - Missed(s)) + set k | k in s.task.dirty)
    case ReadStream(n) =>
      var from := Max(s.cursor, s.redis.trimmed);
      s.(task := Checking(from, Min(from + n, |s.redis.log|)))
    case CheckLag(answered) =>
      if answered && Lagging(s) then s.(task := Due)
      else s.(task := Delta(s.task.from, s.task.to, Dirty(s.redis.log[s.task.from..s.task.to], dates), 0, map[]))
  }

  // ---- What every step keeps ---------------------------------------------------------------------

  ghost predicate Same(seats: map<TripKey, Counts>, signals: Signals, k: TripKey) {
    (k in signals <==> k in seats) && (k in signals ==> signals[k] == seats[k])
  }

  ghost predicate Unread(log: seq<string>, c: nat, k: TripKey) {
    exists j :: c <= j < |log| && log[j] == SeatTripDate(k)
  }

  /** The signals show what Redis holds, or an entry the reader has still to come to says otherwise. */
  ghost predicate UpToDate(r: Redis, signals: Signals, k: TripKey, c: nat) {
    Same(r.seats, signals, k) || Unread(r.log, c, k)
  }

  ghost predicate RedisOK(r: Redis, dates: set<string>) {
    && r.trimmed <= |r.log|
    && (forall i, k :: 0 <= i < |r.log| && Parse(r.log[i], dates) == Some(k) ==> k in r.seats)
    && (forall k :: k in r.hashes ==> k in r.seats && IsCanonical(r.seats[k], r.hashes[k]))
  }

  ghost predicate TaskOK(s: State, dates: set<string>) {
    match s.task
    case Due => true
    case Idle => true
    case Checking(from, to) => s.cursor <= from < to <= |s.redis.log| && (from == s.cursor || from <= s.redis.trimmed)
    case Cold(keys, done, staging) =>
      && done <= |keys| && s.promised == {} && staging.Keys <= s.redis.seats.Keys
      && (forall k :: k in staging ==> k in keys)
      && forall i :: 0 <= i < done ==> UpToDate(s.redis, staging, keys[i], s.cursor)
    case Delta(from, to, dirty, done, updates) =>
      && s.cursor <= from < to <= |s.redis.log| && done <= |dirty|
      && dirty == Dirty(s.redis.log[from..to], dates)
      && updates.Keys <= s.redis.seats.Keys && (forall k :: k in updates ==> k in dirty)
      && forall i :: 0 <= i < done ==> UpToDate(s.redis, updates, dirty[i], to)
  }

  ghost predicate Promises(s: State, dates: set<string>) {
    forall k :: k in s.promised ==> Names(SeatTripDate(k), dates, k) && UpToDate(s.redis, s.published, k, s.cursor)
  }

  ghost predicate Inv(s: State, dates: set<string>) {
    && RedisOK(s.redis, dates) && s.cursor <= |s.redis.log| && s.published.Keys <= s.redis.seats.Keys
    && TaskOK(s, dates) && Promises(s, dates)
  }

  ghost predicate NoColons(dates: set<string>) {
    forall d :: d in dates ==> ':' !in d
  }

  /** A gate write that changes a trip's seats leaves an entry for it past every earlier cursor. */
  lemma GateKeepsUpToDate(r: Redis, signals: Signals, k: TripKey, c: nat, key: TripKey, counts: Counts, text: string)
    requires UpToDate(r, signals, k, c) && c <= |r.log|
    ensures UpToDate(GateWrite(r, key, counts, text), signals, k, c)
  {
    var r' := GateWrite(r, key, counts, text);
    if r' != r {
      assert r'.log[|r.log|] == SeatTripDate(key);
      if Unread(r.log, c, k) {
        var j :| c <= j < |r.log| && r.log[j] == SeatTripDate(k);
        assert r'.log[j] == SeatTripDate(k);
      }
    }
  }

  lemma GateKeepsRedis(r: Redis, dates: set<string>, key: TripKey, counts: Counts, text: string)
    requires RedisOK(r, dates) && NoColons(dates) && ':' !in key.date && IsCanonical(counts, text)
    ensures RedisOK(GateWrite(r, key, counts, text), dates)
  {
    var r' := GateWrite(r, key, counts, text);
    forall i, k | 0 <= i < |r'.log| && Parse(r'.log[i], dates) == Some(k)
      ensures k in r'.seats
    {
      if i < |r.log| {
        assert r'.log[i] == r.log[i];
      } else {
        ParsesToWhatItNames(SeatTripDate(key), dates, k);
        OneName(key, k);
      }
    }
  }

  /** A text names one trip. */
  lemma OneName(a: TripKey, b: TripKey)
    requires SeatTripDate(a) == SeatTripDate(b) && ':' !in a.date && ':' !in b.date
    ensures a == b
  {
    var s := SeatTripDate(a);
    assert s[|a.tripID|] == ':' && s[|a.tripID| + 1..] == a.date && s[..|a.tripID|] == a.tripID;
    assert s[|b.tripID|] == ':' && s[|b.tripID| + 1..] == b.date && s[..|b.tripID|] == b.tripID;
    LastColonIs(s, |a.tripID|);
    LastColonIs(s, |b.tripID|);
  }

  lemma GateKeeps(s: State, dates: set<string>, key: TripKey, counts: Counts, text: string)
    requires Inv(s, dates) && NoColons(dates) && ':' !in key.date && IsCanonical(counts, text)
    ensures Inv(s.(redis := GateWrite(s.redis, key, counts, text)), dates)
  {
    var s' := s.(redis := GateWrite(s.redis, key, counts, text));
    GateKeepsRedis(s.redis, dates, key, counts, text);
    hide RedisOK, UpToDate, Names, IsCanonical, Dirty, TaskOK;
    GateKeepsTask(s, dates, key, counts, text);
    forall k | k in s.promised
      ensures UpToDate(s'.redis, s.published, k, s.cursor)
    {
      GateKeepsUpToDate(s.redis, s.published, k, s.cursor, key, counts, text);
    }
  }

  lemma GateKeepsTask(s: State, dates: set<string>, key: TripKey, counts: Counts, text: string)
    requires TaskOK(s, dates) && s.cursor <= |s.redis.log|
    ensures TaskOK(s.(redis := GateWrite(s.redis, key, counts, text)), dates)
  {
    hide UpToDate, Names, Dirty;
    var s' := s.(redis := GateWrite(s.redis, key, counts, text));
    if s.task.Cold? {
      forall i | 0 <= i < s.task.done
        ensures UpToDate(s'.redis, s.task.staging, s.task.keys[i], s.cursor)
      {
        GateKeepsUpToDate(s.redis, s.task.staging, s.task.keys[i], s.cursor, key, counts, text);
      }
    } else if s.task.Delta? {
      assert s'.redis.log[s.task.from..s.task.to] == s.redis.log[s.task.from..s.task.to];
      forall i | 0 <= i < s.task.done
        ensures UpToDate(s'.redis, s.task.updates, s.task.dirty[i], s.task.to)
      {
        GateKeepsUpToDate(s.redis, s.task.updates, s.task.dirty[i], s.task.to, key, counts, text);
      }
    }
  }

  lemma {:induction false} FetchedAre(seats: map<TripKey, Counts>, keys: seq<TripKey>, out: Signals)
    ensures forall k :: k in Fetch(seats, keys, out) <==> k in out || (k in keys && k in seats)
    ensures forall k :: k in Fetch(seats, keys, out) ==>
              Fetch(seats, keys, out)[k] == if k in keys && k in seats then seats[k] else out[k]
  {
    if keys != [] {
      FetchedAre(seats, keys[..|keys| - 1], out);
    }
  }

  /** After a chunk the keys read so far are all up to date: the new ones were just read, and re-reading an old
      one can only help. */
  lemma ChunkUpToDate(r: Redis, keys: seq<TripKey>, done: nat, end: nat, out: Signals, c: nat)
    requires done <= end <= |keys| && out.Keys <= r.seats.Keys
    requires forall i :: 0 <= i < done ==> UpToDate(r, out, keys[i], c)
    ensures var out' := Fetch(r.seats, keys[done..end], out);
            out'.Keys <= r.seats.Keys && (forall i :: 0 <= i < end ==> UpToDate(r, out', keys[i], c))
            && forall k :: k in out' ==> k in out || k in keys
  {
    var chunk := keys[done..end];
    FetchedAre(r.seats, chunk, out);
    var out' := Fetch(r.seats, chunk, out);
    forall i | 0 <= i < end
      ensures UpToDate(r, out', keys[i], c)
    {
      if i >= done {
        assert keys[i] == chunk[i - done];
        assert Same(r.seats, out', keys[i]);
      } else {
        assert UpToDate(r, out, keys[i], c);
        if Same(r.seats, out, keys[i]) {
          assert Same(r.seats, out', keys[i]);
        }
      }
    }
  }

  lemma ReadChunkKeeps(s: State, dates: set<string>, n: nat)
    requires Inv(s, dates) && Can(s, ReadChunk(n))
    ensures Inv(Do(s, ReadChunk(n), dates), dates)
  {
    hide RedisOK, UpToDate, Promises, Fetch, Dirty;
    var s' := Do(s, ReadChunk(n), dates);
    if s.task.Cold? {
      ChunkUpToDate(s.redis, s.task.keys, s.task.done, s'.task.done, s.task.staging, s.cursor);
    } else {
      ChunkUpToDate(s.redis, s.task.dirty, s.task.done, s'.task.done, s.task.updates, s.task.to);
    }
    SamePromises(s, s', dates);
  }

  lemma SamePromises(s: State, s': State, dates: set<string>)
    requires Promises(s, dates) && s'.promised <= s.promised && s'.published == s.published && s'.cursor == s.cursor
    requires s'.redis.seats == s.redis.seats && s'.redis.log == s.redis.log
    ensures Promises(s', dates)
  {
    forall k | k in s'.promised
      ensures UpToDate(s'.redis, s'.published, k, s'.cursor)
    {
      assert UpToDate(s.redis, s.published, k, s.cursor);
    }
  }

  lemma {:induction false} DirtyNames(entries: seq<string>, dates: set<string>)
    ensures forall k :: k in Dirty(entries, dates) <==> exists e :: e in entries && Parse(e, dates) == Some(k)
  {
    if entries != [] {
      var n := |entries| - 1;
      DirtyNames(entries[..n], dates);
      assert forall e :: e in entries <==> e in entries[..n] || e == entries[n];
    }
  }

  lemma ColdPublishKeeps(s: State, dates: set<string>)
    requires Inv(s, dates) && s.task.Cold? && s.task.done == |s.task.keys|
    ensures Inv(Do(s, Publish, dates), dates)
  {
    hide RedisOK, UpToDate, Names;
    var s' := Do(s, Publish, dates);
    forall k | k in s'.promised
      ensures UpToDate(s'.redis, s'.published, k, s'.cursor)
    {
      var i :| 0 <= i < |s.task.keys| && s.task.keys[i] == k;
      assert UpToDate(s.redis, s.task.staging, s.task.keys[i], s.cursor);
    }
  }

  /** A trip of the batch is answered by what was fetched for it. */
  lemma DirtyIsUpToDate(s: State, dates: set<string>, k: TripKey)
    requires Inv(s, dates) && NoColons(dates) && s.task.Delta? && s.task.done == |s.task.dirty|
    requires k in s.task.dirty
    ensures UpToDate(s.redis, s.published + s.task.updates, k, s.task.to) && Names(SeatTripDate(k), dates, k)
  {
    var batch := s.redis.log[s.task.from..s.task.to];
    DirtyNames(batch, dates);
    var e :| e in batch && Parse(e, dates) == Some(k);
    var j :| 0 <= j < |batch| && batch[j] == e;
    assert s.redis.log[s.task.from + j] == e;
    assert k in s.redis.seats;
    ParsesToWhatItNames(e, dates, k);
    var i :| 0 <= i < |s.task.dirty| && s.task.dirty[i] == k;
    assert UpToDate(s.redis, s.task.updates, s.task.dirty[i], s.task.to);
  }

  lemma NamedInBatch(log: seq<string>, from: nat, to: nat, j: nat, k: TripKey, dates: set<string>)
    requires from <= j < to <= |log| && log[j] == SeatTripDate(k)
    requires NoColons(dates) && Names(SeatTripDate(k), dates, k)
    ensures k in Dirty(log[from..to], dates)
  {
    DirtyNames(log[from..to], dates);
    ParsesToWhatItNames(SeatTripDate(k), dates, k);
    assert log[from..to][j - from] == log[j];
  }

  /** A promised trip that neither the batch nor the entries trimmed before it mention is untouched. */
  lemma OtherIsUpToDate(s: State, dates: set<string>, k: TripKey)
    requires Inv(s, dates) && NoColons(dates) && s.task.Delta? && s.task.done == |s.task.dirty|
    requires k in s.promised && k !in Missed(s) && k !in s.task.dirty
    ensures UpToDate(s.redis, s.published + s.task.updates, k, s.task.to)
  {
    assert UpToDate(s.redis, s.published, k, s.cursor) && Names(SeatTripDate(k), dates, k);
    if Unread(s.redis.log, s.cursor, k) {
      var j :| s.cursor <= j < |s.redis.log| && s.redis.log[j] == SeatTripDate(k);
      if s.task.from <= j < s.task.to {
        NamedInBatch(s.redis.log, s.task.from, s.task.to, j, k, dates);
      }
    } else {
      assert Same(s.redis.seats, s.published + s.task.updates, k);
    }
  }

  lemma DeltaPublishKeeps(s: State, dates: set<string>)
    requires Inv(s, dates) && NoColons(dates) && s.task.Delta? && s.task.done == |s.task.dirty|
    ensures Inv(Do(s, Publish, dates), dates)
  {
    var s' := Do(s, Publish, dates);
    forall k | k in s'.promised
      ensures Names(SeatTripDate(k), dates, k) && UpToDate(s'.redis, s'.published, k, s'.cursor)
    {
      if k in s.task.dirty {
        DirtyIsUpToDate(s, dates, k);
      } else {
        assert k in s.promised && k !in Missed(s);
        OtherIsUpToDate(s, dates, k);
      }
    }
  }

  lemma QuietStepKeeps(s: State, step: Step, dates: set<string>)
    requires Inv(s, dates) && Can(s, step)
    requires !step.Gate? && !step.ReadChunk? && !step.Publish?
    ensures Inv(Do(s, step, dates), dates)
  {
    hide UpToDate, Dirty;
    var s' := Do(s, step, dates);
    if !step.BeginColdStart? {
      SamePromises(s, s', dates);
    }
    assert RedisOK(s'.redis, dates);
    hide RedisOK;
    if step.Trim? {
      TrimKeepsTask(s, step.to, dates);
    }
  }

  lemma TrimKeepsTask(s: State, to: nat, dates: set<string>)
    requires TaskOK(s, dates) && s.redis.trimmed <= to
    ensures TaskOK(s.(redis := s.redis.(trimmed := to)), dates)
  {
    hide Dirty;
    var s' := s.(redis := s.redis.(trimmed := to));
    forall signals: Signals, k, c | UpToDate(s.redis, signals, k, c)
      ensures UpToDate(s'.redis, signals, k, c)
    {
    }
  }

  /** Every step of either side keeps the promise. */
  lemma StepKeeps(s: State, step: Step, dates: set<string>)
    requires Inv(s, dates) && NoColons(dates) && Can(s, step)
    ensures Inv(Do(s, step, dates), dates)
  {
    hide Inv;
    match step
    case Gate(key, counts, text) => GateKeeps(s, dates, key, counts, text);
    case ReadChunk(n) => ReadChunkKeeps(s, dates, n);
    case Publish =>
      if s.task.Cold? {
        ColdPublishKeeps(s, dates);
      } else {
        DeltaPublishKeeps(s, dates);
      }
    case _ => QuietStepKeeps(s, step, dates);
  }

  // ---- Whole runs --------------------------------------------------------------------------------

  /** `steps` can be taken in turn from `s`, and lead to `s'`. */
  ghost predicate Runs(s: State, steps: seq<Step>, s': State, dates: set<string>)
    decreases |steps|
  {
    if steps == [] then s' == s
    else Can(s, steps[0]) && Runs(Do(s, steps[0], dates), steps[1..], s', dates)
  }

  /** The syncer as it boots, on whatever the server already holds. */
  ghost predicate Boots(s: State, dates: set<string>) {
    RedisOK(s.redis, dates) && s.cursor == 0 && s.published == map[] && s.task == Due && s.promised == {}
  }

  lemma {:induction false} RunKeeps(s: State, steps: seq<Step>, s': State, dates: set<string>)
    requires Inv(s, dates) && NoColons(dates) && Runs(s, steps, s', dates)
    ensures Inv(s', dates)
    decreases |steps|
  {
    hide Inv, Can, Do;
    if steps != [] {
      StepKeeps(s, steps[0], dates);
      RunKeeps(Do(s, steps[0], dates), steps[1..], s', dates);
    }
  }

  /** In every interleaving, whenever the cursor stands at the head of the stream, the published counts of every
      promised trip equal Redis. */
  lemma AtHeadPublishedIsRedis(s: State, steps: seq<Step>, s': State, dates: set<string>, k: TripKey)
    requires Boots(s, dates) && NoColons(dates) && Runs(s, steps, s', dates)
    requires s'.cursor == |s'.redis.log| && k in s'.promised
    ensures Same(s'.redis.seats, s'.published, k)
  {
    RunKeeps(s, steps, s', dates);
    assert UpToDate(s'.redis, s'.published, k, s'.cursor);
  }

  /** The lag check lets a batch through although entries before it were trimmed unread exactly when it could not
      ask the server, or the cursor is still "0". */
  lemma LagCheckIsExact(s: State, answered: bool, dates: set<string>)
    requires Inv(s, dates) && s.task.Checking? && s.cursor < s.task.from
    ensures Do(s, CheckLag(answered), dates).task.Delta? <==> !answered || s.cursor == 0
  {
  }

  /** A step that cannot lose the promise: no new cold start, and a lag check that is answered and, if anything was
      trimmed before the batch, not blinded by the cursor "0". */
  predicate Watchful(s: State, step: Step) {
    !step.BeginColdStart?
      && (step.CheckLag? && s.task.Checking? ==> step.answered && (s.cursor != 0 || s.task.from == 0))
  }

  ghost predicate WatchfulRun(s: State, steps: seq<Step>, s': State, dates: set<string>)
    decreases |steps|
  {
    if steps == [] then s' == s
    else Can(s, steps[0]) && Watchful(s, steps[0]) && WatchfulRun(Do(s, steps[0], dates), steps[1..], s', dates)
  }

  /** Between cold starts, a batch being applied starts where the cursor stands. */
  predicate NothingSkipped(s: State) {
    !s.task.Cold? && (s.task.Delta? ==> s.task.from == s.cursor)
  }

  lemma WatchfulStepKeeps(s: State, step: Step, dates: set<string>)
    requires Inv(s, dates) && Can(s, step) && Watchful(s, step) && NothingSkipped(s)
    ensures NothingSkipped(Do(s, step, dates)) && s.promised <= Do(s, step, dates).promised
  {
    hide RedisOK, UpToDate, Promises, Dirty, Names;
    if step.Publish? {
      assert Missed(s) == {};
    }
  }

  lemma {:induction false} WatchfulRunKeeps(s: State, steps: seq<Step>, s': State, dates: set<string>)
    requires Inv(s, dates) && NoColons(dates) && NothingSkipped(s) && WatchfulRun(s, steps, s', dates)
    ensures Inv(s', dates) && s.promised <= s'.promised
    decreases |steps|
  {
    hide Inv, Can, Do, Watchful, NothingSkipped;
    if steps != [] {
      StepKeeps(s, steps[0], dates);
      WatchfulStepKeeps(s, steps[0], dates);
      WatchfulRunKeeps(Do(s, steps[0], dates), steps[1..], s', dates);
    }
  }

  /** No change is lost: from the moment a cold start publishes, through any watchful run, whenever the cursor is at
      the head the published counts equal Redis for every trip that cold start tracked. */
  lemma NoChangeIsLost(boot: State, before: seq<Step>, s: State, after: seq<Step>, s': State, dates: set<string>,
                       k: TripKey)
    requires Boots(boot, dates) && NoColons(dates) && Runs(boot, before, s, dates)
    requires s.task.Cold? && s.task.done == |s.task.keys|
    requires k in s.task.keys && Names(SeatTripDate(k), dates, k)
    requires WatchfulRun(Do(s, Publish, dates), after, s', dates)
    requires s'.cursor == |s'.redis.log|
    ensures Same(s'.redis.seats, s'.published, k)
  {
    hide RedisOK, Names;
    RunKeeps(boot, before, s, dates);
    var p := Do(s, Publish, dates);
    assert k in p.promised && NothingSkipped(p);
    StepKeeps(s, Publish, dates);
    WatchfulRunKeeps(p, after, s', dates);
    assert UpToDate(s'.redis, s'.published, k, s'.cursor);
  }

  // ---- The gate ----------------------------------------------------------------------------------

  /** After a write Redis holds the counts just polled, and the stream grew by one entry exactly when they
      differ from what was recorded: provided no class name holds both marks of the canonical form. */
  lemma GateStoresLatest(r: Redis, dates: set<string>, key: TripKey, counts: Counts, text: string)
    requires RedisOK(r, dates) && IsCanonical(counts, text) && Clean(counts)
    requires key in r.seats ==> Clean(r.seats[key])
    ensures var r' := GateWrite(r, key, counts, text);
            key in r'.seats && r'.seats[key] == counts
            && |r'.log| == |r.log| + (if key in r.hashes && r.seats[key] == counts then 0 else 1)
            && forall k :: k != key ==>
                 (k in r'.seats <==> k in r.seats) && (k in r.seats ==> r'.seats[k] == r.seats[k])
  {
    hide IsCanonical;
    if key in r.hashes {
      CanonicalIdentifies(r.seats[key], counts, r.hashes[key], text);
    }
  }

  /** Writing the same counts again changes nothing. */
  lemma GateIsIdempotent(r: Redis, key: TripKey, counts: Counts, text: string)
    ensures GateWrite(GateWrite(r, key, counts, text), key, counts, text) == GateWrite(r, key, counts, text)
  {
  }

  // ---- What the conditions are for ---------------------------------------------------------------

  ghost predicate Reaches(boot: State, s: State, dates: set<string>) {
    exists steps :: Runs(boot, steps, s, dates)
  }

  lemma {:induction false} OneMoreStep(boot: State, steps: seq<Step>, s: State, step: Step, dates: set<string>)
    requires Runs(boot, steps, s, dates) && Can(s, step)
    ensures Runs(boot, steps + [step], Do(s, step, dates), dates)
    decreases |steps|
  {
    hide Can, Do;
    var more := steps + [step];
    if steps == [] {
      assert more[1..] == [];
      assert Runs(Do(s, step, dates), [], Do(s, step, dates), dates);
    } else {
      OneMoreStep(Do(boot, steps[0], dates), steps[1..], s, step, dates);
      assert more[1..] == steps[1..] + [step];
    }
  }

  lemma Go(boot: State, s: State, step: Step, dates: set<string>) returns (s': State)
    requires Reaches(boot, s, dates) && Can(s, step)
    ensures s' == Do(s, step, dates) && Reaches(boot, s', dates)
  {
    hide Can, Do;
    var steps :| Runs(boot, steps, s, dates);
    OneMoreStep(boot, steps, s, step, dates);
    s' := Do(s, step, dates);
  }

  const EMPTY := State(Redis(map[], map[], [], 0), 0, map[], Due, {})

  /** A trip the published signals get wrong although the cursor is at the head of the stream. */
  predicate Stale(s: State, k: TripKey) {
    s.task.Idle? && s.cursor == |s.redis.log| && k in s.redis.seats
    && (k !in s.published || s.published[k] != s.redis.seats[k])
  }

  lemma Booted(dates: set<string>)
    ensures Boots(EMPTY, dates) && Reaches(EMPTY, EMPTY, dates)
  {
    assert Runs(EMPTY, [], EMPTY, dates);
  }

  lemma OneKey(seats: map<TripKey, Counts>, k: TripKey)
    ensures [k][0..1] == [k] && Fetch(seats, [k], map[]) == if k in seats then map[k := seats[k]] else map[]
  {
    assert [k][..0] == [];
    assert Fetch(seats, [], map[]) == map[];
  }

  lemma OneEntry(log: seq<string>, j: nat, k: TripKey, dates: set<string>)
    requires j < |log| && log[j] == SeatTripDate(k) && Names(log[j], dates, k) && NoColons(dates)
    ensures Dirty(log[j..j + 1], dates) == [k]
  {
    ParsesToWhatItNames(log[j], dates, k);
    assert log[j..j + 1] == [log[j]] && [log[j]][..0] == [];
    assert Dirty([], dates) == [];
  }

  /** Cold start of one trip, from the moment it is due. */
  lemma ColdStarted(boot: State, s: State, k: TripKey, dates: set<string>) returns (s': State)
    requires Reaches(boot, s, dates) && s.task.Due? && |s.redis.log| > 0 && s.redis.trimmed < |s.redis.log|
             && k in s.redis.seats
    ensures Reaches(boot, s', dates)
    ensures s'.redis == s.redis && s'.cursor == |s.redis.log| && s'.published == map[k := s.redis.seats[k]]
            && s'.task == Idle
  {
    hide Names;
    var s1 := Go(boot, s, BeginColdStart([k]), dates);
    var s2 := Go(boot, s1, ReadChunk(1), dates);
    OneKey(s.redis.seats, k);
    s' := Go(boot, s2, Publish, dates);
  }

  /** One entry, read and applied although those before it are gone. */
  lemma Applied(boot: State, s: State, k: TripKey, answered: bool, dates: set<string>) returns (s': State)
    requires Reaches(boot, s, dates) && s.task.Idle? && NoColons(dates)
    requires s.cursor <= s.redis.trimmed == |s.redis.log| - 1 && (s.cursor == 0 || !answered)
    requires s.redis.log[s.redis.trimmed] == SeatTripDate(k) && Names(SeatTripDate(k), dates, k) && k in s.redis.seats
    ensures Reaches(boot, s', dates)
    ensures s'.redis == s.redis && s'.cursor == |s.redis.log| && s'.task == Idle
    ensures s'.published == s.published[k := s.redis.seats[k]]
  {
    hide Names, Reaches, Dirty, Fetch, NoColons, SeatTripDate, Missed;
    var t := s.redis.trimmed;
    var s1 := Go(boot, s, ReadStream(1), dates);
    assert s1 == s.(task := Checking(t, t + 1));
    OneEntry(s.redis.log, t, k, dates);
    var s2 := Go(boot, s1, CheckLag(answered), dates);
    assert s2 == s.(task := Delta(t, t + 1, [k], 0, map[]));
    OneKey(s.redis.seats, k);
    var s3 := Go(boot, s2, ReadChunk(1), dates);
    assert s3 == s.(task := Delta(t, t + 1, [k], 1, map[k := s.redis.seats[k]]));
    s' := Go(boot, s3, Publish, dates);
  }

  /** A cold start that fails after capturing the head can lose what was written since the last published one. */
  lemma FailedColdStartLosesChange(k: TripKey, c1: Counts, t1: string, c2: Counts, t2: string, dates: set<string>)
      returns (s: State)
    requires NoColons(dates) && Names(SeatTripDate(k), dates, k)
    requires IsCanonical(c1, t1) && IsCanonical(c2, t2) && c1 != c2 && t1 != t2
    ensures Boots(EMPTY, dates) && Reaches(EMPTY, s, dates) && Stale(s, k)
  {
    Booted(dates);
    hide IsCanonical;
    var s1 := Go(EMPTY, EMPTY, Gate(k, c1, t1), dates);
    var s2 := ColdStarted(EMPTY, s1, k, dates);
    var s3 := Go(EMPTY, s2, Gate(k, c2, t2), dates);
    var s4 := Go(EMPTY, s3, Trim(1), dates);
    s := ResyncFailed(EMPTY, s4, k, dates);
  }

  lemma ResyncFailed(boot: State, s: State, k: TripKey, dates: set<string>) returns (s': State)
    requires Reaches(boot, s, dates) && s.task.Idle?
    requires 0 < s.cursor <= s.redis.trimmed < |s.redis.log|
    ensures Reaches(boot, s', dates)
    ensures s'.redis == s.redis && s'.cursor == |s.redis.log| && s'.published == s.published && s'.task == Idle
  {
    hide Reaches;
    var s1 := Go(boot, s, ReadStream(1), dates);
    var s2 := Go(boot, s1, CheckLag(true), dates);
    var s3 := Go(boot, s2, BeginColdStart([k]), dates);
    var s4 := Go(boot, s3, FetchFails, dates);
    s' := Go(boot, s4, GiveUp, dates);
  }

  /** While the cursor is still "0", entries trimmed unread are never noticed. */
  lemma BlindCursorLosesChange(k: TripKey, other: TripKey, c: Counts, t: string, dates: set<string>) returns (s: State)
    requires NoColons(dates) && Names(SeatTripDate(k), dates, k) && Names(SeatTripDate(other), dates, other)
             && k != other
    requires IsCanonical(c, t)
    ensures Boots(EMPTY, dates) && Reaches(EMPTY, s, dates) && Stale(s, k)
  {
    Booted(dates);
    hide IsCanonical;
    var s1 := Go(EMPTY, EMPTY, BeginColdStart([]), dates);
    var s2 := Go(EMPTY, s1, Publish, dates);
    var s3 := Go(EMPTY, s2, Gate(k, c, t), dates);
    var s4 := Go(EMPTY, s3, Gate(other, c, t), dates);
    var s5 := Go(EMPTY, s4, Trim(1), dates);
    s := Applied(EMPTY, s5, other, true, dates);
  }

  /** A lag check whose own read fails counts as no lag. */
  lemma UnansweredCheckLosesChange(k: TripKey, other: TripKey, c1: Counts, t1: string, c2: Counts, t2: string,
                                   dates: set<string>)
      returns (s: State)
    requires NoColons(dates) && Names(SeatTripDate(k), dates, k) && Names(SeatTripDate(other), dates, other)
             && k != other
    requires IsCanonical(c1, t1) && IsCanonical(c2, t2) && c1 != c2 && t1 != t2
    ensures Boots(EMPTY, dates) && Reaches(EMPTY, s, dates) && Stale(s, k)
  {
    Booted(dates);
    hide IsCanonical;
    var s1 := Go(EMPTY, EMPTY, Gate(k, c1, t1), dates);
    var s2 := ColdStarted(EMPTY, s1, k, dates);
    var s3 := Go(EMPTY, s2, Gate(k, c2, t2), dates);
    var s4 := Go(EMPTY, s3, Gate(other, c1, t1), dates);
    var s5 := Go(EMPTY, s4, Trim(2), dates);
    s := Applied(EMPTY, s5, other, false, dates);
  }
}
