/** Reloads that overlap: when recording the content and swapping in the buffer stay in step. */
module Overlap {
  import opened Model
  import opened Reload

  /** The program reloads once at boot and then from a single watcher, one at a time. The reload is documented as
      callable from several goroutines, though, and recording the content and swapping the buffer are two separate
      steps; this is about reloads that overlap. By the manifest's unique reading, content is the buffer itself;
      `pending` are the buffers recorded but not yet swapped in, in the order they were recorded. */
  datatype Publisher = Publisher(manifest: Option<RouteBuffer>, live: RouteBuffer, pending: seq<RouteBuffer>)

  datatype PublishStep = Record(staging: RouteBuffer) | Swap(i: nat)

  predicate CanPublish(p: Publisher, step: PublishStep) {
    step.Swap? ==> step.i < |p.pending|
  }

  function PublishNext(p: Publisher, step: PublishStep): Publisher
    requires CanPublish(p, step)
  {
    match step
    case Record(b) => if p.manifest == Some(b) then p else p.(manifest := Some(b), pending := p.pending + [b])
    case Swap(i) => p.(live := p.pending[i], pending := p.pending[..i] + p.pending[i + 1..])
  }

  ghost predicate Publishes(p: Publisher, steps: seq<PublishStep>, p': Publisher, inOrder: bool)
    decreases |steps|
  {
    if steps == [] then p' == p
    else CanPublish(p, steps[0]) && (inOrder && steps[0].Swap? ==> steps[0].i == 0)
         && Publishes(PublishNext(p, steps[0]), steps[1..], p', inOrder)
  }

  /** The content recorded is the content that will be live once everything pending is swapped in. */
  predicate Settles(p: Publisher) {
    if p.pending == [] then p.manifest == None || p.manifest == Some(p.live)
    else p.manifest == Some(p.pending[|p.pending| - 1])
  }

  /** As long as buffers are swapped in in the order they were recorded, skipping stays harmless however reloads
      overlap. */
  lemma {:induction false} InOrderSwapsSettle(p: Publisher, steps: seq<PublishStep>, p': Publisher)
    requires Settles(p) && Publishes(p, steps, p', true)
    ensures Settles(p')
    decreases |steps|
  {
    if steps != [] {
      InOrderSwapsSettle(PublishNext(p, steps[0]), steps[1..], p');
    }
  }

  /** When a later reload overtakes an earlier one between the two steps, the older buffer ends up live, and
      reloading the newer content again is skipped. */
  lemma OvertakenSwapSticks(p: Publisher, earlier: RouteBuffer, later: RouteBuffer)
    requires p.pending == [] && p.manifest == Some(p.live) && p.live != earlier && earlier != later
    ensures exists p' :: Publishes(p, [Record(earlier), Record(later), Swap(1), Swap(0)], p', false)
              && p'.pending == [] && p'.live == earlier && PublishNext(p', Record(later)) == p'
  {
    var p1 := PublishNext(p, Record(earlier));
    var p2 := PublishNext(p1, Record(later));
    var p3 := PublishNext(p2, Swap(1));
    var p4 := PublishNext(p3, Swap(0));
    var steps := [Record(earlier), Record(later), Swap(1), Swap(0)];
    assert p4.pending == [] && p4.live == earlier;
    assert steps[1..] == [Record(later), Swap(1), Swap(0)] && steps[1..][1..] == [Swap(1), Swap(0)];
    assert [Swap(1), Swap(0)][1..] == [Swap(0)] && [Swap(0)][1..] == [];
    assert Publishes(p3, [Swap(0)], p4, false);
    assert Publishes(p2, [Swap(1), Swap(0)], p4, false);
    assert Publishes(p1, [Record(later), Swap(1), Swap(0)], p4, false);
  }

  /** How overlapping reloads take turns, whatever they load: the next content is recorded, or one of the pending
      buffers is swapped in. Recording the content already recorded does nothing, so a schedule lists only the other
      records. */
  datatype Turn = Recorded | Swapped(i: nat)

  /** Buffers by the number of their record: how many there are, which are pending, and which was swapped in last. */
  datatype Slots = Slots(recorded: nat, pending: seq<nat>, live: Option<nat>)

  function Track(turns: seq<Turn>): (t: Slots)
    ensures forall j :: 0 <= j < |t.pending| ==> t.pending[j] < t.recorded
    ensures t.live.Some? ==> t.live.value < t.recorded
  {
    if turns == [] then Slots(0, [], None)
    else
      var n, before := |turns| - 1, Track(turns[..|turns| - 1]);
      match turns[n]
      case Recorded => Slots(before.recorded + 1, before.pending + [before.recorded], before.live)
      case Swapped(i) =>
        if i < |before.pending| then
          Slots(before.recorded, before.pending[..i] + before.pending[i + 1..], Some(before.pending[i]))
        else before
  }

  /** Every swap takes a pending buffer. */
  predicate IsSchedule(turns: seq<Turn>) {
    forall n :: 0 <= n < |turns| && turns[n].Swapped? ==> turns[n].i < |Track(turns[..n]).pending|
  }

  /** The publisher after these turns, when the `j`th record is of `contents[j]`. */
  function Played(p: Publisher, turns: seq<Turn>, contents: seq<RouteBuffer>): Publisher
    requires Track(turns).recorded <= |contents|
  {
    if turns == [] then p
    else
      var n := |turns| - 1;
      var before := Played(p, turns[..n], contents);
      var step := match turns[n]
                  case Recorded => Record(contents[Track(turns[..n]).recorded])
                  case Swapped(i) => Swap(i);
      if CanPublish(before, step) then PublishNext(before, step) else before
  }

  /** Each record is of content other than the one recorded before it. */
  ghost predicate Effective(p: Publisher, contents: seq<RouteBuffer>) {
    && (contents != [] ==> p.manifest != Some(contents[0]))
    && forall j, j' :: 0 <= j && j' == j + 1 < |contents| ==> contents[j] != contents[j']
  }

  function Picked(slots: seq<nat>, contents: seq<RouteBuffer>): seq<RouteBuffer>
    requires forall j :: 0 <= j < |slots| ==> slots[j] < |contents|
  {
    seq(|slots|, i requires 0 <= i < |slots| => contents[slots[i]])
  }

  ghost predicate Follows(p: Publisher, t: Slots, contents: seq<RouteBuffer>, q: Publisher)
    requires t.recorded <= |contents| && (t.live.Some? ==> t.live.value < t.recorded)
    requires forall j :: 0 <= j < |t.pending| ==> t.pending[j] < t.recorded
  {
    && q.pending == Picked(t.pending, contents)
    && q.manifest == (if t.recorded == 0 then p.manifest else Some(contents[t.recorded - 1]))
    && q.live == match t.live case None => p.live case Some(x) => contents[x]
  }

  lemma {:induction false} PlayedIsTracked(p: Publisher, turns: seq<Turn>, contents: seq<RouteBuffer>)
    requires p.pending == [] && IsSchedule(turns) && Track(turns).recorded <= |contents| && Effective(p, contents)
    ensures Follows(p, Track(turns), contents, Played(p, turns, contents))
  {
    if turns != [] {
      var n := |turns| - 1;
      forall m | 0 <= m < n
        ensures turns[..n][..m] == turns[..m]
      {
      }
      PlayedIsTracked(p, turns[..n], contents);
      var t, q := Track(turns[..n]), Played(p, turns[..n], contents);
      if turns[n].Swapped? {
        SwapFollows(p, t, contents, q, turns[n].i);
      } else {
        RecordFollows(p, t, contents, q);
      }
    }
  }

  lemma SwapFollows(p: Publisher, t: Slots, contents: seq<RouteBuffer>, q: Publisher, i: nat)
    requires t.recorded <= |contents| && (t.live.Some? ==> t.live.value < t.recorded)
    requires forall j :: 0 <= j < |t.pending| ==> t.pending[j] < t.recorded
    requires Follows(p, t, contents, q) && i < |t.pending|
    ensures CanPublish(q, Swap(i))
    ensures Follows(p, Slots(t.recorded, t.pending[..i] + t.pending[i + 1..], Some(t.pending[i])), contents,
                    PublishNext(q, Swap(i)))
  {
  }

  lemma RecordFollows(p: Publisher, t: Slots, contents: seq<RouteBuffer>, q: Publisher)
    requires t.recorded < |contents| && (t.live.Some? ==> t.live.value < t.recorded)
    requires forall j :: 0 <= j < |t.pending| ==> t.pending[j] < t.recorded
    requires Follows(p, t, contents, q) && Effective(p, contents)
    ensures Follows(p, Slots(t.recorded + 1, t.pending + [t.recorded], t.live), contents,
                    PublishNext(q, Record(contents[t.recorded])))
  {
    if t.recorded > 0 {
      var before := t.recorded - 1;
      assert contents[before] != contents[t.recorded];
    }
  }

  /** As many different buffers as one likes, none of them this one. */
  function Different(b: RouteBuffer, count: nat): (contents: seq<RouteBuffer>)
    ensures |contents| == count
    ensures forall j :: 0 <= j < count ==> |contents[j].routes| == |b.routes| + 1 + j
  {
    seq(count, j requires 0 <= j < count =>
      EMPTY.(routes := seq(|b.routes| + 1 + j, _ => RouteEntry("", [], []))))
  }

  /** A schedule that leaves nothing pending ends with the recorded content live, whatever the reloads load, exactly
      when its last swap takes the buffer recorded last. */
  lemma SettlesExactly(p: Publisher, turns: seq<Turn>)
    requires p.pending == [] && IsSchedule(turns)
    requires Track(turns).pending == [] && Track(turns).recorded > 0
    ensures (forall contents :: |contents| == Track(turns).recorded && Effective(p, contents) ==>
               Settles(Played(p, turns, contents)))
            <==> Track(turns).live == Some(Track(turns).recorded - 1)
  {
    hide Track, Played, Effective, Settles;
    var t := Track(turns);
    if t.live == Some(t.recorded - 1) {
      forall contents | |contents| == t.recorded && Effective(p, contents)
        ensures Settles(Played(p, turns, contents))
      {
        PlayedIsTracked(p, turns, contents);
        LiveDecides(p, t, contents, Played(p, turns, contents));
      }
    } else {
      AllSwapped(turns);
      var contents := DifferentContents(p, t.recorded);
      PlayedIsTracked(p, turns, contents);
      LiveDecides(p, t, contents, Played(p, turns, contents));
    }
  }

  lemma LiveDecides(p: Publisher, t: Slots, contents: seq<RouteBuffer>, q: Publisher)
    requires 0 < t.recorded <= |contents| && t.pending == [] && t.live.Some? && t.live.value < t.recorded
    requires Follows(p, t, contents, q)
    ensures Settles(q) <==> contents[t.live.value] == contents[t.recorded - 1]
  {
  }

  lemma DifferentContents(p: Publisher, count: nat) returns (contents: seq<RouteBuffer>)
    ensures |contents| == count && Effective(p, contents)
    ensures forall i, j :: 0 <= i < j < count ==> contents[i] != contents[j]
  {
    contents := Different(if p.manifest.Some? then p.manifest.value else p.live, count);
    forall i, j | 0 <= i < j < count
      ensures contents[i] != contents[j]
    {
      assert |contents[i].routes| != |contents[j].routes|;
    }
  }

  lemma {:induction false} AllSwapped(turns: seq<Turn>)
    ensures Track(turns).recorded > 0 && Track(turns).live.None? ==> Track(turns).pending != []
  {
    if turns != [] {
      AllSwapped(turns[..|turns| - 1]);
    }
  }
}
