/** The circuit breaker by its history alone: what it answers is decided by the failures since the last success, when
    the last of them came, and whether anyone has asked a cooldown later. */
module BreakerHistory {
  import opened Model
  import opened Breaker

  /** Failures reported since the last success. */
  function FailuresSince(events: seq<Event>): nat {
    if events == [] then 0
    else
      var n := |events| - 1;
      match events[n].call
      case Succeed => 0
      case Fail => FailuresSince(events[..n]) + 1
      case Ask => FailuresSince(events[..n])
  }

  /** When the last failure since the last success was reported. */
  function LastFailure(events: seq<Event>): Option<int> {
    if events == [] then None
    else
      var n := |events| - 1;
      match events[n].call
      case Succeed => None
      case Fail => Some(events[n].at)
      case Ask => LastFailure(events[..n])
  }

  /** Since the last report somebody has asked, a cooldown or more after that failure. */
  predicate Probed(cooldown: int, events: seq<Event>) {
    events != [] &&
    var n := |events| - 1;
    events[n].call.Ask?
    && (Probed(cooldown, events[..n])
        || (LastFailure(events[..n]).Some? && events[n].at - LastFailure(events[..n]).value >= cooldown))
  }

  lemma {:induction false} RunThen(c: Config, s: Condition, before: seq<Event>, after: seq<Event>)
    ensures Run(c, s, before + after) == Run(c, Run(c, s, before), after)
    decreases |before|
  {
    if before == [] {
      assert before + after == after;
    } else {
      assert (before + after)[1..] == before[1..] + after;
      RunThen(c, After(c, s, before[0]), before[1..], after);
    }
  }

  lemma RunLast(c: Config, s: Condition, events: seq<Event>)
    requires events != []
    ensures Run(c, s, events) == After(c, Run(c, s, events[..|events| - 1]), events[|events| - 1])
  {
    var n := |events| - 1;
    assert events == events[..n] + [events[n]];
    RunThen(c, s, events[..n], [events[n]]);
    var s' := Run(c, s, events[..n]);
    assert [events[n]][1..] == [];
    assert Run(c, s', [events[n]]) == Run(c, After(c, s', events[n]), []);
  }

  /** The condition, read off the history. */
  predicate Tells(c: Config, s: Condition, events: seq<Event>) {
    && Sound(c, s)
    && (s.mode.Closed? <==> FailuresSince(events) < c.threshold)
    && (s.mode.Closed? ==> s.failures == FailuresSince(events))
    && (!s.mode.Closed? ==>
          && LastFailure(events) == Some(s.openedAt)
          && (s.mode.HalfOpen? <==> Probed(c.cooldown, events)))
  }

  lemma {:induction false} HistoryTells(c: Config, events: seq<Event>)
    requires c.Valid()
    ensures Tells(c, Run(c, FRESH, events), events)
  {
    if events != [] {
      HistoryTells(c, events[..|events| - 1]);
      RunLast(c, FRESH, events);
    }
  }

  /** A breaker admits a call exactly when fewer than the threshold of failures have come since the last success, or a
      cooldown has passed since the last of them and nobody has asked after that cooldown yet. */
  lemma HistoryDecides(c: Config, events: seq<Event>, now: int)
    requires c.Valid()
    ensures Admits(c, Run(c, FRESH, events), now) <==>
              || FailuresSince(events) < c.threshold
              || (LastFailure(events).Some? && now - LastFailure(events).value >= c.cooldown
                  && !Probed(c.cooldown, events))
  {
    HistoryTells(c, events);
  }

  /** A success starts the count afresh, whatever came before it. */
  lemma SuccessStartsAfresh(c: Config, s: Condition, before: seq<Event>, at: int, after: seq<Event>)
    requires c.Valid() && Sound(c, s) && NoSuccess(after)
    ensures Run(c, s, before + [Event(Succeed, at)] + after).mode.Closed? <==> Failures(after) < c.threshold
  {
    var head := before + [Event(Succeed, at)];
    RunThen(c, s, head, after);
    RunLast(c, s, head);
    assert head[..|before|] == before;
    AlwaysSound(c, s, head);
    TripsAtThreshold(c, Run(c, s, head), after);
  }
}
