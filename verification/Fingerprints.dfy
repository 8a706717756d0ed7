/** What the fingerprint of a journey stands for (`pathFingerprint`), depending on the separators its identifiers
    may contain. */
module Fingerprints {
  import opened Model

  function LegPrint(l: Leg): string {
    l.routeID + "|" + l.tripKey.tripID + "|" + l.boardStation + ">" + l.alightStation + ";"
  }

  function Fingerprint(legs: seq<Leg>): string {
    if legs == [] then "" else LegPrint(legs[0]) + Fingerprint(legs[1..])
  }

  /** The characters the fingerprint separates fields with. */
  const SEPARATORS := {'|', '>', ';'}

  /** An identifier that uses no separators but these. */
  predicate Uses(seps: set<char>, s: string) {
    forall c :: c in s && c in SEPARATORS ==> c in seps
  }

  predicate LegUses(seps: set<char>, l: Leg) {
    Uses(seps, l.routeID) && Uses(seps, l.tripKey.tripID) && Uses(seps, l.boardStation) && Uses(seps, l.alightStation)
  }

  ghost predicate LegsUse(seps: set<char>, legs: seq<Leg>) {
    forall l :: l in legs ==> LegUses(seps, l)
  }

  /** The parts of a leg the fingerprint is meant to stand for. */
  predicate SamePrint(a: Leg, b: Leg) {
    a.routeID == b.routeID && a.tripKey.tripID == b.tripKey.tripID
    && a.boardStation == b.boardStation && a.alightStation == b.alightStation
  }

  predicate SamePrints(a: seq<Leg>, b: seq<Leg>) {
    |a| == |b| && forall i :: 0 <= i < |a| ==> SamePrint(a[i], b[i])
  }

  /** A separator that does not occur in either field splits both sides alike. */
  lemma {:induction false} SplitsAlike(x: string, y: string, c: char, r: string, s: string)
    requires c !in x && c !in y
    requires x + [c] + r == y + [c] + s
    ensures x == y && r == s
  {
    var left, right := x + [c] + r, y + [c] + s;
    assert left[|x|] == c && right[|y|] == c;
    assert forall i :: 0 <= i < |x| ==> left[i] == x[i] && x[i] in x;
    assert forall i :: 0 <= i < |y| ==> right[i] == y[i] && y[i] in y;
    assert x == left[..|x|] && y == right[..|y|];
    assert r == left[|x| + 1..] && s == right[|y| + 1..];
  }

  lemma LegPrintSplits(a: Leg, b: Leg, r: string, s: string)
    requires LegUses({}, a) && LegUses({}, b)
    requires LegPrint(a) + r == LegPrint(b) + s
    ensures SamePrint(a, b) && r == s
  {
    var a4, b4 := a.alightStation + ";" + r, b.alightStation + ";" + s;
    var a3, b3 := a.boardStation + ">" + a4, b.boardStation + ">" + b4;
    var a2, b2 := a.tripKey.tripID + "|" + a3, b.tripKey.tripID + "|" + b3;
    assert LegPrint(a) + r == a.routeID + "|" + a2;
    assert LegPrint(b) + s == b.routeID + "|" + b2;
    SplitsAlike(a.routeID, b.routeID, '|', a2, b2);
    SplitsAlike(a.tripKey.tripID, b.tripKey.tripID, '|', a3, b3);
    SplitsAlike(a.boardStation, b.boardStation, '>', a4, b4);
    SplitsAlike(a.alightStation, b.alightStation, ';', r, s);
  }

  /** Without separators in identifiers, equal fingerprints mean the same legs up to their dates and times. */
  lemma {:induction false} FingerprintIdentifies(a: seq<Leg>, b: seq<Leg>)
    requires LegsUse({}, a) && LegsUse({}, b) && Fingerprint(a) == Fingerprint(b)
    ensures SamePrints(a, b)
  {
    PrintOfSome(a);
    PrintOfSome(b);
    if a != [] && b != [] {
      assert a[0] in a && b[0] in b;
      LegPrintSplits(a[0], b[0], Fingerprint(a[1..]), Fingerprint(b[1..]));
      FingerprintIdentifies(a[1..], b[1..]);
      assert a == [a[0]] + a[1..] && b == [b[0]] + b[1..];
    }
  }

  lemma PrintOfSome(a: seq<Leg>)
    ensures a != [] <==> Fingerprint(a) != ""
  {
    if a != [] {
      assert |LegPrint(a[0])| > 0;
    }
  }

  lemma PrintOfOne(a: Leg)
    ensures Fingerprint([a]) == LegPrint(a)
  {
    assert [a][1..] == [] && LegPrint(a) + "" == LegPrint(a);
  }

  lemma PrintOfTwo(a: Leg, b: Leg)
    ensures Fingerprint([a, b]) == LegPrint(a) + LegPrint(b)
  {
    assert [a, b][1..] == [b];
    PrintOfOne(b);
  }

  /** A leg of the given fields: no other field is part of a fingerprint. */
  function Fields(route: string, trip: string, board: string, alight: string): Leg {
    Leg(Transit, TripKey(trip, ""), route, board, alight, 0, 0)
  }

  /** Any one separator inside identifiers is enough for two different sequences of legs to collide. */
  lemma OneSeparatorCollides(c: char) returns (a: seq<Leg>, b: seq<Leg>)
    requires c in SEPARATORS
    ensures LegsUse({c}, a) && LegsUse({c}, b) && Fingerprint(a) == Fingerprint(b) && !SamePrints(a, b)
  {
    hide Fingerprint;
    if c == '|' {
      a, b := [Fields("|", "", "", "")], [Fields("", "|", "", "")];
      PrintOfOne(a[0]);
      PrintOfOne(b[0]);
      assert LegPrint(a[0]) == "|||>;" == LegPrint(b[0]);
    } else if c == '>' {
      a, b := [Fields("", "", ">", "")], [Fields("", "", "", ">")];
      PrintOfOne(a[0]);
      PrintOfOne(b[0]);
      assert LegPrint(a[0]) == "||>>;" == LegPrint(b[0]);
    } else {
      a, b := [Fields("", "", "", ";"), Fields("", "", "", "")], [Fields("", "", "", ""), Fields(";", "", "", "")];
      PrintOfTwo(a[0], a[1]);
      PrintOfTwo(b[0], b[1]);
      assert LegPrint(a[0]) + LegPrint(a[1]) == "||>;;||>;" == LegPrint(b[0]) + LegPrint(b[1]);
    }
    assert !SamePrint(a[0], b[0]);
  }

  ghost predicate PrintsIdentify(seps: set<char>) {
    forall a, b :: LegsUse(seps, a) && LegsUse(seps, b) && Fingerprint(a) == Fingerprint(b) ==> SamePrints(a, b)
  }

  lemma MoreSeparators(few: set<char>, many: set<char>, legs: seq<Leg>)
    requires LegsUse(few, legs) && few * SEPARATORS <= many
    ensures LegsUse(many, legs)
  {
  }

  /** A fingerprint identifies a sequence of legs, up to dates and times, exactly when identifiers may not contain
      any of the separators. */
  lemma IdentifiesWithoutSeparators(seps: set<char>)
    ensures PrintsIdentify(seps) <==> seps !! SEPARATORS
  {
    if c :| c in seps && c in SEPARATORS {
      var a, b := OneSeparatorCollides(c);
      MoreSeparators({c}, seps, a);
      MoreSeparators({c}, seps, b);
    } else {
      forall a, b | LegsUse(seps, a) && LegsUse(seps, b) && Fingerprint(a) == Fingerprint(b)
        ensures SamePrints(a, b)
      {
        MoreSeparators(seps, {}, a);
        MoreSeparators(seps, {}, b);
        FingerprintIdentifies(a, b);
      }
    }
  }

  // ---- Counting the vehicles of a journey --------------------------------------------------------

  /** Vehicles have a trip, and walks are on the walking route without one. */
  predicate Labelled(l: Leg) {
    if l.kind.Transit? then l.tripKey.tripID != "" else l.tripKey.tripID == "" && l.routeID == WALK_ROUTE_ID
  }

  /** Legs that join up from one station to another. */
  ghost predicate Connected(legs: seq<Leg>, from: string, to: string) {
    && |legs| > 0 && legs[0].boardStation == from && legs[|legs| - 1].alightStation == to
    && (forall i :: 0 <= i < |legs| ==> Labelled(legs[i]))
    && (forall i, j :: 0 <= i && j == i + 1 < |legs| ==> legs[i].alightStation == legs[j].boardStation)
  }

  ghost predicate SameKinds(a: seq<Leg>, b: seq<Leg>) {
    |a| == |b| && forall i :: 0 <= i < |a| ==> a[i].kind == b[i].kind
  }

  lemma {:induction false} SameKindsSameCount(a: seq<Leg>, b: seq<Leg>)
    requires SameKinds(a, b)
    ensures TransitLegs(a) == TransitLegs(b)
    decreases |a|
  {
    if a != [] {
      SameKindsSameCount(a[..|a| - 1], b[..|b| - 1]);
    }
  }

  // Without bars: every second field between bars is a trip.

  function Route(l: Leg): string {
    l.boardStation + ">" + l.alightStation + ";"
  }

  lemma NoBars(seps: set<char>, l: Leg)
    requires '|' !in seps && LegUses(seps, l)
    ensures '|' !in l.routeID && '|' !in l.tripKey.tripID && '|' !in Route(l)
  {
  }

  lemma {:induction false} BarsGiveTrips(seps: set<char>, p: string, q: string, a: seq<Leg>, b: seq<Leg>)
    requires '|' !in seps && LegsUse(seps, a) && LegsUse(seps, b) && '|' !in p && '|' !in q
    requires p + Fingerprint(a) == q + Fingerprint(b)
    ensures |a| == |b| && forall i :: 0 <= i < |a| ==> a[i].tripKey.tripID == b[i].tripKey.tripID
    decreases |a|
  {
    hide Fingerprint, LegUses, Route;
    HasBar(p, a);
    HasBar(q, b);
    if a != [] {
      assert a[0] in a && b[0] in b;
      NoBars(seps, a[0]);
      NoBars(seps, b[0]);
      FirstLegPrinted(p, a);
      FirstLegPrinted(q, b);
      var s, t := Route(a[0]) + Fingerprint(a[1..]), Route(b[0]) + Fingerprint(b[1..]);
      SplitsAlike(p + a[0].routeID, q + b[0].routeID, '|', a[0].tripKey.tripID + "|" + s,
                  b[0].tripKey.tripID + "|" + t);
      SplitsAlike(a[0].tripKey.tripID, b[0].tripKey.tripID, '|', s, t);
      BarsGiveTrips(seps, Route(a[0]), Route(b[0]), a[1..], b[1..]);
      assert a == [a[0]] + a[1..] && b == [b[0]] + b[1..];
    }
  }

  lemma HasBar(p: string, a: seq<Leg>)
    requires '|' !in p
    ensures a != [] <==> '|' in p + Fingerprint(a)
  {
    if a != [] {
      FirstLegPrinted(p, a);
      assert (p + Fingerprint(a))[|p + a[0].routeID|] == '|';
    }
  }

  lemma FirstLegPrinted(p: string, a: seq<Leg>)
    requires a != []
    ensures p + Fingerprint(a)
            == p + a[0].routeID + "|" + (a[0].tripKey.tripID + "|" + (Route(a[0]) + Fingerprint(a[1..])))
  {
    var r, t, x, rest := a[0].routeID, a[0].tripKey.tripID, Route(a[0]), Fingerprint(a[1..]);
    assert LegPrint(a[0]) == r + "|" + t + "|" + x;
    assert Fingerprint(a) == LegPrint(a[0]) + rest;
    hide Route, LegPrint, Fingerprint;
    Regrouped(p, r, "|", t, x, rest);
  }

  lemma Regrouped(p: string, r: string, c: string, t: string, x: string, rest: string)
    ensures p + ((r + c + t + c + x) + rest) == p + r + c + (t + c + (x + rest))
  {
  }

  // Without semicolons: every leg has a text of its own, and stations are settled from the last leg backwards.

  /** What a fingerprint says of a leg's vehicle. */
  function Vehicle(l: Leg): string {
    l.routeID + "|" + l.tripKey.tripID
  }

  function Body(l: Leg): string {
    Vehicle(l) + "|" + l.boardStation + ">" + l.alightStation
  }

  lemma BodyPrinted(l: Leg, rest: string)
    ensures LegPrint(l) + rest == Body(l) + ";" + rest
  {
  }

  lemma {:induction false} SemicolonsGiveBodies(seps: set<char>, a: seq<Leg>, b: seq<Leg>)
    requires ';' !in seps && LegsUse(seps, a) && LegsUse(seps, b) && Fingerprint(a) == Fingerprint(b)
    ensures |a| == |b| && forall i :: 0 <= i < |a| ==> Body(a[i]) == Body(b[i])
  {
    PrintOfSome(a);
    PrintOfSome(b);
    if a != [] {
      assert a[0] in a && b[0] in b;
      BodyPrinted(a[0], Fingerprint(a[1..]));
      BodyPrinted(b[0], Fingerprint(b[1..]));
      assert ';' !in Body(a[0]) && ';' !in Body(b[0]);
      hide Body, LegPrint, LegUses;
      SplitsAlike(Body(a[0]), Body(b[0]), ';', Fingerprint(a[1..]), Fingerprint(b[1..]));
      SemicolonsGiveBodies(seps, a[1..], b[1..]);
      assert a == [a[0]] + a[1..] && b == [b[0]] + b[1..];
    }
  }

  /** A text that ends a second one after one character, and the same second one after another, is all of it. */
  lemma SameEnd(p: string, q: string, c: char, x: string, p': string, q': string, d: char, y: string)
    requires c != d && p + [c] + x == p' + [c] + y && q + [d] + x == q' + [d] + y
    ensures x == y
  {
    NotLonger(p, q, c, x, p', q', d, y);
    NotLonger(p', q', c, y, p, q, d, x);
    var u, v := p + [c] + x, p' + [c] + y;
    assert x == u[|u| - |x|..] && y == v[|v| - |y|..];
  }

  lemma NotLonger(p: string, q: string, c: char, x: string, p': string, q': string, d: char, y: string)
    requires c != d && p + [c] + x == p' + [c] + y && q + [d] + x == q' + [d] + y
    ensures |y| <= |x|
  {
    assert (p + [c] + x)[|p|] == c && (q + [d] + x)[|q|] == d;
  }

  lemma SameFront(p: string, q: string, x: string)
    requires p + x == q + x
    ensures p == q
  {
    assert |p| == |q|;
    assert p == (p + x)[..|p|] && q == (q + x)[..|q|];
  }

  /** With the same texts and the same end, leg `i` of both journeys ends at the same station. */
  lemma {:induction false} StationsFromBehind(a: seq<Leg>, b: seq<Leg>, from: string, to: string, i: nat)
    requires Connected(a, from, to) && Connected(b, from, to) && |a| == |b| && i < |a|
    requires forall j :: 0 <= j < |a| ==> Body(a[j]) == Body(b[j])
    ensures a[i].boardStation == b[i].boardStation && a[i].alightStation == b[i].alightStation
    decreases |a| - i
  {
    hide Vehicle;
    if i + 1 < |a| {
      StationsFromBehind(a, b, from, to, i + 1);
      var next := i + 1;
      assert a[i].alightStation == a[next].boardStation && b[i].alightStation == b[next].boardStation;
    }
    var u, v := Vehicle(a[i]) + "|" + a[i].boardStation, Vehicle(b[i]) + "|" + b[i].boardStation;
    assert Body(a[i]) == u + (">" + a[i].alightStation) && Body(b[i]) == v + (">" + b[i].alightStation);
    SameFront(u, v, ">" + a[i].alightStation);
    if i > 0 {
      var last := i - 1;
      assert a[last].alightStation == a[i].boardStation && b[last].alightStation == b[i].boardStation;
      assert Body(a[last]) == Body(b[last]);
      SameEnd(Vehicle(a[last]) + "|" + a[last].boardStation, Vehicle(a[i]), '>', a[i].boardStation,
              Vehicle(b[last]) + "|" + b[last].boardStation, Vehicle(b[i]), '|', b[i].boardStation);
    }
  }

  lemma WalksAlike(a: Leg, b: Leg)
    requires Labelled(a) && Labelled(b) && Body(a) == Body(b)
    requires a.boardStation == b.boardStation && a.alightStation == b.alightStation
    ensures a.kind == b.kind
  {
    var rest := "|" + a.boardStation + ">" + a.alightStation;
    assert Body(a) == Vehicle(a) + rest && Body(b) == Vehicle(b) + rest;
    SameFront(Vehicle(a), Vehicle(b), rest);
    if a.kind.Walk? {
      OnWalkingRoute(b, a);
    }
    if b.kind.Walk? {
      OnWalkingRoute(a, b);
    }
  }

  lemma OnWalkingRoute(l: Leg, walk: Leg)
    requires Labelled(l) && Labelled(walk) && walk.kind.Walk? && Vehicle(l) == Vehicle(walk)
    ensures l.kind.Walk?
  {
    var s := Vehicle(l);
    assert s == "WALK|";
    assert s[|l.routeID|] == '|';
    assert s[0] == 'W' && s[1] == 'A' && s[2] == 'L' && s[3] == 'K';
    assert |l.routeID| == 4;
  }

  /** Between the same two stations, journeys whose identifiers never use both bars and semicolons have equal
      fingerprints only if they have the same vehicles and walks, place by place. */
  lemma PrintsGiveKinds(seps: set<char>, a: seq<Leg>, b: seq<Leg>, from: string, to: string)
    requires LegsUse(seps, a) && LegsUse(seps, b) && !('|' in seps && ';' in seps)
    requires Connected(a, from, to) && Connected(b, from, to) && Fingerprint(a) == Fingerprint(b)
    ensures SameKinds(a, b)
  {
    hide Fingerprint, Body, LegsUse;
    if '|' !in seps {
      BarsGiveTrips(seps, "", "", a, b);
    } else {
      SemicolonsGiveBodies(seps, a, b);
      forall i | 0 <= i < |a|
        ensures a[i].kind == b[i].kind
      {
        StationsFromBehind(a, b, from, to, i);
        WalksAlike(a[i], b[i]);
      }
    }
  }
}
