/** The circuit breaker (`internal/breaker/breaker.go`): what its four methods do, what every sequence of calls
    keeps, and how often it lets a call through once tripped. Times are unbounded integers on a clock that does
    not run backwards; reports may arrive late, from calls admitted in an earlier state. */
module Breaker {

  datatype Mode = Closed | Open | HalfOpen

  datatype Condition = Condition(mode: Mode, failures: nat, openedAt: int, probing: bool)

  datatype Config = Config(threshold: nat, cooldown: nat)
  {
    predicate Valid() {
      threshold > 0 && cooldown > 0
    }
  }

  const FRESH := Condition(Closed, 0, 0, false)
  const DEFAULT_THRESHOLD := 5
  const DEFAULT_COOLDOWN := 15_000_000_000

  function ConfigOf(threshold: int, cooldown: int): (c: Config)
    ensures c.Valid()
    ensures c.threshold == if threshold > 0 then threshold else 5
    ensures c.cooldown == if cooldown > 0 then cooldown else 15 * 1_000_000_000
  {
    Config(if threshold <= 0 then DEFAULT_THRESHOLD else threshold,
           if cooldown <= 0 then DEFAULT_COOLDOWN else cooldown)
  }

  /** Whether a call may proceed now. */
  predicate Admits(c: Config, s: Condition, now: int) {
    match s.mode
    case Closed => true
    case Open => now - s.openedAt >= c.cooldown
    case HalfOpen => !s.probing
  }

  /** The condition after asking. */
  function Asked(c: Config, s: Condition, now: int): Condition {
    if s.mode.Closed? || !Admits(c, s, now) then s else s.(mode := HalfOpen, probing := true)
  }

  function Succeeded(s: Condition): Condition {
    s.(mode := Closed, failures := 0, probing := false)
  }

  function Failed(c: Config, s: Condition, now: int): Condition {
    if s.mode.HalfOpen? then s.(mode := Open, openedAt := now, probing := false)
    else if s.failures + 1 >= c.threshold then Condition(Open, s.failures + 1, now, false)
    else s.(failures := s.failures + 1, probing := false)
  }

  /** Closed exactly while fewer than the threshold of failures have been counted, half-open exactly while a probe
      is marked. */
  predicate Sound(c: Config, s: Condition) {
    && (s.mode.Closed? <==> s.failures < c.threshold)
    && (s.mode.HalfOpen? <==> s.probing)
  }

  class CircuitBreaker {
    const config: Config
    var mode: Mode
    var failures: nat
    var openedAt: int
    var probing: bool

    function Current(): Condition
      reads this
    {
      Condition(mode, failures, openedAt, probing)
    }

    ghost predicate Valid()
      reads this
    {
      config.Valid() && Sound(config, Current())
    }

    constructor (threshold: int, cooldown: int)
      ensures Current() == FRESH && config == ConfigOf(threshold, cooldown) && Valid()
    {
      config := ConfigOf(threshold, cooldown);
      mode, failures, openedAt, probing := Closed, 0, 0, false;
    }

    method Allow(now: int) returns (ok: bool)
      modifies this
      ensures ok == Admits(config, old(Current()), now)
      ensures Current() == Asked(config, old(Current()), now)
      ensures old(Valid()) ==> Valid()
    {
      match mode
      case Closed =>
        return true;
      case Open =>
        if now - openedAt < config.cooldown {
          return false;
        }
        mode := HalfOpen;
        probing := true;
        return true;
      case HalfOpen =>
        if probing {
          return false;
        }
        probing := true;
        return true;
    }

    method Success()
      modifies this
      ensures Current() == Succeeded(old(Current()))
      ensures old(Valid()) ==> Valid()
    {
      failures := 0;
      probing := false;
      mode := Closed;
    }

    method Failure(now: int)
      modifies this
      ensures Current() == Failed(config, old(Current()), now)
      ensures old(Valid()) ==> Valid()
    {
      probing := false;
      if mode == HalfOpen {
        mode := Open;
        openedAt := now;
        return;
      }
      failures := failures + 1;
      if failures >= config.threshold {
        mode := Open;
        openedAt := now;
      }
    }

    /** What an observer is shown agrees with what asking would do: closed admits, open refuses, and half-open
        admits unless a probe is already in flight. */
    method State(now: int) returns (shown: Mode)
      requires Valid()
      ensures shown.Closed? <==> mode.Closed?
      ensures shown.Open? <==> !Admits(config, Current(), now) && !probing
      ensures shown.HalfOpen? ==> (Admits(config, Current(), now) <==> !probing)
    {
      if mode == Open && now - openedAt >= config.cooldown {
        return HalfOpen;
      }
      return mode;
    }
  }

  // ---- Sequences of calls ------------------------------------------------------------------------

  datatype Call = Ask | Succeed | Fail

  datatype Event = Event(call: Call, at: int)

  function After(c: Config, s: Condition, e: Event): Condition {
    match e.call
    case Ask => Asked(c, s, e.at)
    case Succeed => Succeeded(s)
    case Fail => Failed(c, s, e.at)
  }

  function Run(c: Config, s: Condition, events: seq<Event>): Condition
    decreases |events|
  {
    if events == [] then s else Run(c, After(c, s, events[0]), events[1..])
  }

  predicate Admitted(c: Config, s: Condition, e: Event) {
    e.call.Ask? && Admits(c, s, e.at)
  }

  function Admissions(c: Config, s: Condition, events: seq<Event>): nat
    decreases |events|
  {
    if events == [] then 0
    else (if Admitted(c, s, events[0]) then 1 else 0) + Admissions(c, After(c, s, events[0]), events[1..])
  }

  /** The clock does not run backwards, and everything happens in the span from `start` to `end`. */
  predicate Within(events: seq<Event>, start: int, end: int) {
    start <= end
    && (forall i :: 0 <= i < |events| ==> start <= events[i].at <= end)
    && (forall i, j :: 0 <= i < j < |events| ==> events[i].at <= events[j].at)
  }

  predicate NoSuccess(events: seq<Event>) {
    forall i :: 0 <= i < |events| ==> !events[i].call.Succeed?
  }

  lemma StepIsSound(c: Config, s: Condition, e: Event)
    requires c.Valid() && Sound(c, s)
    ensures Sound(c, After(c, s, e))
  {
  }

  /** Whatever is called in whatever order. */
  lemma {:induction false} AlwaysSound(c: Config, s: Condition, events: seq<Event>)
    requires c.Valid() && Sound(c, s)
    ensures Sound(c, Run(c, s, events))
    decreases |events|
  {
    if events != [] {
      StepIsSound(c, s, events[0]);
      AlwaysSound(c, After(c, s, events[0]), events[1..]);
    }
  }

  function Failures(events: seq<Event>): nat
    decreases |events|
  {
    if events == [] then 0 else (if events[0].call.Fail? then 1 else 0) + Failures(events[1..])
  }

  /** It trips at the threshold and not before, counting the failures since the last success wherever they come
      from, and stays tripped until a call succeeds. */
  lemma {:induction false} TripsAtThreshold(c: Config, s: Condition, events: seq<Event>)
    requires c.Valid() && Sound(c, s) && NoSuccess(events)
    ensures Run(c, s, events).mode.Closed? <==> s.mode.Closed? && s.failures + Failures(events) < c.threshold
    decreases |events|
  {
    if events != [] {
      assert !events[0].call.Succeed?;
      StepIsSound(c, s, events[0]);
      TripsAtThreshold(c, After(c, s, events[0]), events[1..]);
    }
  }

  lemma Rest(events: seq<Event>, start: int, end: int)
    requires events != [] && Within(events, start, end)
    ensures Within(events[1..], events[0].at, end) && start <= events[0].at <= end
  {
  }

  /** Each admission after the next failure costs a whole cooldown. */
  lemma {:induction false} EachCostsACooldown(c: Config, s: Condition, events: seq<Event>, start: int, end: int)
    requires c.Valid() && Sound(c, s) && !s.mode.Closed?
    requires Within(events, start, end) && NoSuccess(events)
    ensures s.mode.HalfOpen? ==> Admissions(c, s, events) * c.cooldown <= end - start
    ensures s.mode.Open? && s.openedAt <= start ==> Admissions(c, s, events) * c.cooldown <= end - s.openedAt
    decreases |events|
  {
    if events != [] {
      var e, s' := events[0], After(c, s, events[0]);
      Rest(events, start, end);
      assert !events[0].call.Succeed?;
      EachCostsACooldown(c, s', events[1..], e.at, end);
      var rest := Admissions(c, s', events[1..]);
      assert (1 + rest) * c.cooldown == c.cooldown + rest * c.cooldown;
    }
  }

  lemma Scaled(a: int, b: int, d: nat)
    requires a >= b
    ensures a * d >= b * d
  {
  }

  lemma Quotient(n: nat, d: nat, span: int)
    requires d > 0 && span >= 0 && (n > 0 ==> (n - 1) * d <= span)
    ensures n <= span / d + 1
  {
    var q := span / d;
    assert span < (q + 1) * d;
    if n > q + 1 {
      Scaled(n - 1, q + 1, d);
      assert false;
    }
  }

  lemma StaysTripped(c: Config, s: Condition, e: Event)
    requires c.Valid() && Sound(c, s) && !s.mode.Closed? && !e.call.Succeed?
    ensures Sound(c, After(c, s, e)) && !After(c, s, e).mode.Closed?
    ensures Admitted(c, s, e) ==> After(c, s, e).mode.HalfOpen?
  {
  }

  /** Once tripped, and until a call succeeds, at most one call per cooldown gets through in any span, plus one. */
  lemma {:induction false} FewGetThrough(c: Config, s: Condition, events: seq<Event>, start: int, end: int)
    requires c.Valid() && Sound(c, s) && !s.mode.Closed?
    requires Within(events, start, end) && NoSuccess(events)
    ensures Admissions(c, s, events) <= (end - start) / c.cooldown + 1
    decreases |events|
  {
    if events != [] {
      var e, s' := events[0], After(c, s, events[0]);
      Rest(events, start, end);
      assert !e.call.Succeed? && NoSuccess(events[1..]);
      StaysTripped(c, s, e);
      hide After, Sound, Within, NoSuccess, Admitted;
      if Admitted(c, s, e) {
        EachCostsACooldown(c, s', events[1..], e.at, end);
        Quotient(Admissions(c, s, events), c.cooldown, end - start);
      } else {
        FewGetThrough(c, s', events[1..], e.at, end);
        Monotone(end - e.at, end - start, c.cooldown);
      }
    }
  }

  lemma Monotone(a: int, b: int, d: nat)
    requires 0 <= a <= b && d > 0
    ensures a / d <= b / d
  {
    var p, q := a / d, b / d;
    assert p * d <= a && b < (q + 1) * d;
    if p > q {
      Scaled(p, q + 1, d);
      assert false;
    }
  }

  /** Two calls let through while tripped, with no success between them, are at least a cooldown apart. */
  lemma AdmissionsApart(c: Config, s: Condition, first: Event, between: seq<Event>, second: Event)
    requires c.Valid() && Sound(c, s) && !s.mode.Closed? && Admitted(c, s, first)
    requires Within([first] + between + [second], first.at, second.at) && NoSuccess(between)
    requires Admitted(c, Run(c, After(c, s, first), between), second)
    ensures second.at - first.at >= c.cooldown
  {
    var s' := After(c, s, first);
    StepIsSound(c, s, first);
    assert s'.mode.HalfOpen?;
    hide After, Sound, Run, Admissions, Admitted;
    var all, rest := [first] + between + [second], between + [second];
    assert all[1..] == rest;
    Rest(all, first.at, second.at);
    NoSuccessAtAll(c, s', between, second);
    EachCostsACooldown(c, s', rest, first.at, second.at);
    LastCounts(c, s', between, second);
    Scaled(Admissions(c, s', rest), 1, c.cooldown);
  }

  lemma NoSuccessAtAll(c: Config, s: Condition, events: seq<Event>, last: Event)
    requires NoSuccess(events) && Admitted(c, Run(c, s, events), last)
    ensures NoSuccess(events + [last])
  {
  }

  lemma {:induction false} LastCounts(c: Config, s: Condition, events: seq<Event>, last: Event)
    requires Admitted(c, Run(c, s, events), last)
    ensures Admissions(c, s, events + [last]) >= 1
    decreases |events|
  {
    if events == [] {
      assert (events + [last])[1..] == [];
    } else {
      assert (events + [last])[1..] == events[1..] + [last];
      LastCounts(c, After(c, s, events[0]), events[1..], last);
    }
  }

  // ---- Callers that report once ------------------------------------------------------------------

  /** The breaker with its callers: who is in flight, and who was the last probe. */
  datatype Traffic = Traffic(condition: Condition, inFlight: set<nat>, probe: nat)

  datatype Move =
    | Enter(caller: nat, at: int)
    | Report(caller: nat, ok: bool, at: int)

  predicate Possible(t: Traffic, m: Move) {
    match m
    case Enter(caller, _) => caller !in t.inFlight
    case Report(caller, _, _) => caller in t.inFlight
  }

  function Next(c: Config, t: Traffic, m: Move): Traffic {
    match m
    case Enter(caller, at) =>
      if !Admits(c, t.condition, at) then t
      else Traffic(Asked(c, t.condition, at), t.inFlight + {caller},
                   if t.condition.mode.Closed? then t.probe else caller)
    case Report(caller, ok, at) =>
      Traffic(if ok then Succeeded(t.condition) else Failed(c, t.condition, at), t.inFlight - {caller}, t.probe)
  }

  /** The probe a half-open breaker is waiting for has not reported yet. */
  predicate ProbeInFlight(t: Traffic) {
    t.condition.mode.HalfOpen? ==> t.probe in t.inFlight
  }

  ghost predicate Moves(c: Config, t: Traffic, moves: seq<Move>, t': Traffic)
    decreases |moves|
  {
    if moves == [] then t' == t
    else Possible(t, moves[0]) && Moves(c, Next(c, t, moves[0]), moves[1..], t')
  }

  /** When every admitted call reports exactly once, a half-open breaker always has its probe in flight. */
  lemma {:induction false} ProbeStaysInFlight(c: Config, t: Traffic, moves: seq<Move>, t': Traffic)
    requires c.Valid() && Sound(c, t.condition) && ProbeInFlight(t) && Moves(c, t, moves, t')
    ensures Sound(c, t'.condition) && ProbeInFlight(t')
    decreases |moves|
  {
    if moves != [] {
      ProbeStaysInFlight(c, Next(c, t, moves[0]), moves[1..], t');
    }
  }

  /** So it cannot be wedged: once no call is in flight, asking after a cooldown is always answered yes. */
  lemma NeverWedged(c: Config, moves: seq<Move>, t: Traffic, now: int)
    requires c.Valid() && Moves(c, Traffic(FRESH, {}, 0), moves, t)
    requires t.inFlight == {} && now >= t.condition.openedAt + c.cooldown
    ensures Admits(c, t.condition, now)
  {
    ProbeStaysInFlight(c, Traffic(FRESH, {}, 0), moves, t);
  }

  predicate OnlyAsks(events: seq<Event>) {
    forall i :: 0 <= i < |events| ==> events[i].call.Ask?
  }

  /** Waiting for its probe, the breaker refuses everyone and stays as it is exactly as long as nobody reports. So a
      probe that never reports wedges it for as long as there is no other report either; the first report, late or
      from another caller, releases it. */
  lemma {:induction false} UnreportedProbeWedges(c: Config, s: Condition, events: seq<Event>)
    requires c.Valid() && Sound(c, s) && s.mode.HalfOpen?
    ensures Run(c, s, events) == s && Admissions(c, s, events) == 0 <==> OnlyAsks(events)
    ensures forall now :: !Admits(c, s, now)
    decreases |events|
  {
    if events != [] {
      if events[0].call.Ask? {
        UnreportedProbeWedges(c, s, events[1..]);
        assert OnlyAsks(events[1..]) ==> OnlyAsks(events);
      } else {
        StepIsSound(c, s, events[0]);
        if Run(c, s, events) == s {
          ProbingCostsAnAdmission(c, After(c, s, events[0]), events[1..]);
        }
      }
    }
  }

  /** Only an admitted call makes the breaker wait for a probe. */
  lemma {:induction false} ProbingCostsAnAdmission(c: Config, s: Condition, events: seq<Event>)
    requires c.Valid() && Sound(c, s) && !s.mode.HalfOpen? && Run(c, s, events).mode.HalfOpen?
    ensures Admissions(c, s, events) > 0
    decreases |events|
  {
    if !Admitted(c, s, events[0]) || s.mode.Closed? {
      StepIsSound(c, s, events[0]);
      ProbingCostsAnAdmission(c, After(c, s, events[0]), events[1..]);
    }
  }
}
