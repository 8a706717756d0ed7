/** The manifest of a schedule buffer (`manifestHash`): the bytes fed to the digest determine everything a search
    can observe. The digest itself is taken to be injective, so the bytes stand for it. */
module Manifest {
  import opened Model
  import opened Ordering
  import opened Encoding
  import opened Rows
  import opened Loader

  /** What is written of a trip, a route and a walk origin. */
  datatype TripContent = TripContent(key: TripKey, arrivals: seq<int>, departures: seq<int>)

  datatype RouteContent = RouteContent(routeID: string, stopIDs: seq<string>, trips: Option<seq<TripContent>>)

  datatype WalkContent = WalkContent(station: string, edges: seq<Footpath>)

  function PutTrip(t: TripContent): Bytes {
    PutStr(t.key.tripID) + PutStr(t.key.date) + PutList(PutInt, t.arrivals) + PutList(PutInt, t.departures)
  }

  /** A route the stop times do not cover is written without trips. */
  function PutRoute(r: RouteContent): Bytes {
    PutStr(r.routeID) + PutList(PutStr, r.stopIDs)
    + match r.trips case None => [] case Some(trips) => PutList(PutTrip, trips)
  }

  function PutFootpath(e: Footpath): Bytes {
    PutStr(e.neighbourStop) + PutInt(e.walkSeconds)
  }

  function PutWalks(w: WalkContent): Bytes {
    PutStr(w.station) + PutList(PutFootpath, w.edges)
  }

  function TripContentOf(t: TripStopTimes): TripContent {
    TripContent(t.key, t.arrivals, t.departures)
  }

  function TripsContent(slots: seq<TripStopTimes>): seq<TripContent> {
    seq(|slots|, i requires 0 <= i < |slots| => TripContentOf(slots[i]))
  }

  function RouteContentOf(b: RouteBuffer, r: nat): RouteContent
    requires r < |b.routes|
  {
    RouteContent(b.routes[r].routeID, b.routes[r].stopIDs,
                 if r < |b.stopTimes| then Some(TripsContent(b.stopTimes[r])) else None)
  }

  function RoutesContent(b: RouteBuffer): seq<RouteContent> {
    seq(|b.routes|, r requires 0 <= r < |b.routes| => RouteContentOf(b, r))
  }

  function WalksContent(b: RouteBuffer, stations: seq<string>): seq<WalkContent> {
    seq(|stations|, i requires 0 <= i < |stations| => WalkContent(stations[i], b.Walks(stations[i])))
  }

  function Encode(b: RouteBuffer, stations: seq<string>): Bytes {
    PutList(PutRoute, RoutesContent(b)) + PutList(PutWalks, WalksContent(b, stations))
  }

  /** The walk origins in the order they are written. */
  ghost predicate SortedStations(b: RouteBuffer, stations: seq<string>) {
    SortedBy(stations, LexLe) && Distinct(stations) && forall s :: s in stations <==> s in b.footpaths
  }

  ghost predicate IsManifest(b: RouteBuffer, bytes: Bytes) {
    exists stations :: SortedStations(b, stations) && bytes == Encode(b, stations)
  }

  // ---- Writing it --------------------------------------------------------------------------------

  /** The running digest's input. */
  class Digest {
    var input: Bytes

    constructor ()
      ensures input == []
    {
      input := [];
    }

    method WriteInt(v: int)
      modifies this
      ensures input == old(input) + PutInt(v)
    {
      input := input + PutInt(v);
    }

    method WriteStr(s: string)
      modifies this
      ensures input == old(input) + PutStr(s)
    {
      WriteInt(|s|);
      input := input + Raw(s);
    }

    method WriteInts(xs: seq<int>)
      modifies this
      ensures input == old(input) + PutList(PutInt, xs)
    {
      hide PutInt, PutStr, PutList, Concat, Partly, PutInt;
      PartlyStarted(PutInt, xs);
      WriteInt(|xs|);
      for i := 0 to |xs|
        invariant input == old(input) + Partly(PutInt, xs, i)
      {
        WriteInt(xs[i]);
        PartlyNext(old(input), PutInt, xs, i);
      }
      PartlyDone(PutInt, xs);
    }

    method WriteStrs(xs: seq<string>)
      modifies this
      ensures input == old(input) + PutList(PutStr, xs)
    {
      hide PutInt, PutStr, PutList, Concat, Partly, PutStr;
      PartlyStarted(PutStr, xs);
      WriteInt(|xs|);
      for i := 0 to |xs|
        invariant input == old(input) + Partly(PutStr, xs, i)
      {
        WriteStr(xs[i]);
        PartlyNext(old(input), PutStr, xs, i);
      }
      PartlyDone(PutStr, xs);
    }

    method WriteTrip(t: TripStopTimes)
      modifies this
      ensures input == old(input) + PutTrip(TripContentOf(t))
    {
      hide PutInt, PutStr, PutList;
      WriteStr(t.key.tripID);
      WriteStr(t.key.date);
      WriteInts(t.arrivals);
      WriteInts(t.departures);
      Together(old(input), PutStr(t.key.tripID), PutStr(t.key.date), PutList(PutInt, t.arrivals),
               PutList(PutInt, t.departures));
    }

    method WriteTrips(slots: seq<TripStopTimes>)
      modifies this
      ensures input == old(input) + PutList(PutTrip, TripsContent(slots))
    {
      hide PutInt, PutStr, PutList, Concat, Partly, PutTrip;
      ghost var all := TripsContent(slots);
      PartlyStarted(PutTrip, all);
      WriteInt(|slots|);
      for i := 0 to |slots|
        invariant input == old(input) + Partly(PutTrip, all, i)
      {
        WriteTrip(slots[i]);
        PartlyNext(old(input), PutTrip, all, i);
      }
      PartlyDone(PutTrip, all);
    }

    method WriteRoute(b: RouteBuffer, r: nat)
      requires r < |b.routes|
      modifies this
      ensures input == old(input) + PutRoute(RouteContentOf(b, r))
    {
      hide PutInt, PutStr, PutList;
      WriteStr(b.routes[r].routeID);
      WriteStrs(b.routes[r].stopIDs);
      ghost var trips: Bytes := [];
      if r < |b.stopTimes| {
        WriteTrips(b.stopTimes[r]);
        trips := PutList(PutTrip, TripsContent(b.stopTimes[r]));
      }
      Together(old(input), PutStr(b.routes[r].routeID), PutList(PutStr, b.routes[r].stopIDs), trips, []);
    }

    method WriteFootpath(e: Footpath)
      modifies this
      ensures input == old(input) + PutFootpath(e)
    {
      hide PutInt, PutStr;
      WriteStr(e.neighbourStop);
      WriteInt(e.walkSeconds);
      Together(old(input), PutStr(e.neighbourStop), PutInt(e.walkSeconds), [], []);
    }

    method WriteFootpaths(edges: seq<Footpath>)
      modifies this
      ensures input == old(input) + PutList(PutFootpath, edges)
    {
      hide PutInt, PutStr, PutList, Concat, Partly, PutFootpath;
      PartlyStarted(PutFootpath, edges);
      WriteInt(|edges|);
      for i := 0 to |edges|
        invariant input == old(input) + Partly(PutFootpath, edges, i)
      {
        WriteFootpath(edges[i]);
        PartlyNext(old(input), PutFootpath, edges, i);
      }
      PartlyDone(PutFootpath, edges);
    }

    method WriteOrigin(w: WalkContent)
      modifies this
      ensures input == old(input) + PutWalks(w)
    {
      hide PutInt, PutStr, PutList;
      WriteStr(w.station);
      WriteFootpaths(w.edges);
      Together(old(input), PutStr(w.station), PutList(PutFootpath, w.edges), [], []);
    }

    method WriteRoutes(b: RouteBuffer)
      modifies this
      ensures input == old(input) + PutList(PutRoute, RoutesContent(b))
    {
      hide PutInt, PutStr, PutList, Concat, Partly, PutRoute;
      ghost var all := RoutesContent(b);
      PartlyStarted(PutRoute, all);
      WriteInt(|b.routes|);
      for i := 0 to |b.routes|
        invariant input == old(input) + Partly(PutRoute, all, i)
      {
        WriteRoute(b, i);
        PartlyNext(old(input), PutRoute, all, i);
      }
      PartlyDone(PutRoute, all);
    }

    method WriteWalks(b: RouteBuffer, stations: seq<string>)
      modifies this
      ensures input == old(input) + PutList(PutWalks, WalksContent(b, stations))
    {
      hide PutInt, PutStr, PutList, Concat, Partly, PutWalks;
      ghost var all := WalksContent(b, stations);
      PartlyStarted(PutWalks, all);
      WriteInt(|stations|);
      for i := 0 to |stations|
        invariant input == old(input) + Partly(PutWalks, all, i)
      {
        WriteOrigin(WalkContent(stations[i], b.Walks(stations[i])));
        PartlyNext(old(input), PutWalks, all, i);
      }
      PartlyDone(PutWalks, all);
    }
  }

  lemma Together(o: Bytes, a: Bytes, b: Bytes, c: Bytes, d: Bytes)
    ensures (((o + a) + b) + c) + d == o + (a + b + c + d)
    ensures a + b + c + [] == a + b + c && a + b + [] + [] == a + b
  {
  }

  lemma SortedOrigins(b: RouteBuffer, keys: seq<string>)
    requires Distinct(keys) && forall s :: s in keys <==> s in b.footpaths
    ensures SortedStations(b, Sort(keys, LexLe))
  {
    LexOrder();
    SortSorts(keys, LexLe);
    PermutationDistinct(keys, Sort(keys, LexLe));
    SameElements(Sort(keys, LexLe), keys);
  }

  /** The bytes of the manifest, whatever order the footpath map is ranged over in. */
  method ManifestBytes(b: RouteBuffer) returns (bytes: Bytes)
    ensures IsManifest(b, bytes)
  {
    hide SortedStations, Sort, PutList, PutInt;
    var h := new Digest();
    h.WriteRoutes(b);
    var keys := Range(b.footpaths.Keys);
    var stations := Sort(keys, LexLe);
    SortedOrigins(b, keys);
    h.WriteWalks(b, stations);
    bytes := h.input;
    assert [] + PutList(PutRoute, RoutesContent(b)) == PutList(PutRoute, RoutesContent(b));
    assert bytes == Encode(b, stations);
  }

  // ---- Reading it back ---------------------------------------------------------------------------

  predicate FitsTrip(t: TripContent) {
    && ByteString(t.key.tripID) && ByteString(t.key.date)
    && Word(|t.arrivals|) && Word(|t.departures|)
    && (forall v :: v in t.arrivals ==> Word(v)) && (forall v :: v in t.departures ==> Word(v))
  }

  predicate FitsRoute(r: RouteContent) {
    && ByteString(r.routeID) && Word(|r.stopIDs|) && (forall s :: s in r.stopIDs ==> ByteString(s))
    && r.trips.Some? && Word(|r.trips.value|) && (forall t :: t in r.trips.value ==> FitsTrip(t))
  }

  predicate FitsFootpath(e: Footpath) {
    ByteString(e.neighbourStop) && Word(e.walkSeconds)
  }

  predicate FitsWalks(w: WalkContent) {
    ByteString(w.station) && Word(|w.edges|) && forall e :: e in w.edges ==> FitsFootpath(e)
  }

  lemma TripReads(x: TripContent, y: TripContent, s: Bytes, t: Bytes)
    requires FitsTrip(x) && FitsTrip(y) && PutTrip(x) + s == PutTrip(y) + t
    ensures x == y && s == t
  {
    hide PutStr, PutList, ByteString;
    IntsReadBack();
    var x3, y3 := PutList(PutInt, x.departures) + s, PutList(PutInt, y.departures) + t;
    var x2, y2 := PutList(PutInt, x.arrivals) + x3, PutList(PutInt, y.arrivals) + y3;
    var x1, y1 := PutStr(x.key.date) + x2, PutStr(y.key.date) + y2;
    assert PutTrip(x) + s == PutStr(x.key.tripID) + x1 && PutTrip(y) + t == PutStr(y.key.tripID) + y1;
    StrReads(x.key.tripID, y.key.tripID, x1, y1);
    StrReads(x.key.date, y.key.date, x2, y2);
    ListReads(PutInt, Word, x.arrivals, y.arrivals, x3, y3);
    ListReads(PutInt, Word, x.departures, y.departures, s, t);
  }

  lemma TripsReadBack()
    ensures ReadsBack(PutTrip, FitsTrip)
  {
    forall x, y, s: Bytes, t: Bytes | FitsTrip(x) && FitsTrip(y) && PutTrip(x) + s == PutTrip(y) + t
      ensures x == y && s == t
    {
      TripReads(x, y, s, t);
    }
  }

  lemma RouteReads(x: RouteContent, y: RouteContent, s: Bytes, t: Bytes)
    requires FitsRoute(x) && FitsRoute(y) && PutRoute(x) + s == PutRoute(y) + t
    ensures x == y && s == t
  {
    hide PutStr, PutList, ByteString, FitsTrip;
    StringsReadBack();
    TripsReadBack();
    var x2, y2 := PutList(PutTrip, x.trips.value) + s, PutList(PutTrip, y.trips.value) + t;
    var x1, y1 := PutList(PutStr, x.stopIDs) + x2, PutList(PutStr, y.stopIDs) + y2;
    assert PutRoute(x) + s == PutStr(x.routeID) + x1 && PutRoute(y) + t == PutStr(y.routeID) + y1;
    StrReads(x.routeID, y.routeID, x1, y1);
    ListReads(PutStr, ByteString, x.stopIDs, y.stopIDs, x2, y2);
    ListReads(PutTrip, FitsTrip, x.trips.value, y.trips.value, s, t);
  }

  lemma RoutesReadBack()
    ensures ReadsBack(PutRoute, FitsRoute)
  {
    forall x, y, s: Bytes, t: Bytes | FitsRoute(x) && FitsRoute(y) && PutRoute(x) + s == PutRoute(y) + t
      ensures x == y && s == t
    {
      RouteReads(x, y, s, t);
    }
  }

  lemma FootpathsReadBack()
    ensures ReadsBack(PutFootpath, FitsFootpath)
  {
    forall x, y, s: Bytes, t: Bytes | FitsFootpath(x) && FitsFootpath(y) && PutFootpath(x) + s == PutFootpath(y) + t
      ensures x == y && s == t
    {
      var u, v := PutInt(x.walkSeconds) + s, PutInt(y.walkSeconds) + t;
      assert PutFootpath(x) + s == PutStr(x.neighbourStop) + u && PutFootpath(y) + t == PutStr(y.neighbourStop) + v;
      StrReads(x.neighbourStop, y.neighbourStop, u, v);
      IntReads(x.walkSeconds, y.walkSeconds, s, t);
    }
  }

  lemma WalksReadBack()
    ensures ReadsBack(PutWalks, FitsWalks)
  {
    forall x, y, s: Bytes, t: Bytes | FitsWalks(x) && FitsWalks(y) && PutWalks(x) + s == PutWalks(y) + t
      ensures x == y && s == t
    {
      WalksRead(x, y, s, t);
    }
  }

  lemma WalksRead(x: WalkContent, y: WalkContent, s: Bytes, t: Bytes)
    requires FitsWalks(x) && FitsWalks(y) && PutWalks(x) + s == PutWalks(y) + t
    ensures x == y && s == t
  {
    hide PutStr, PutList, ByteString, FitsFootpath;
    FootpathsReadBack();
    var u, v := PutList(PutFootpath, x.edges) + s, PutList(PutFootpath, y.edges) + t;
    assert PutWalks(x) + s == PutStr(x.station) + u && PutWalks(y) + t == PutStr(y.station) + v;
    StrReads(x.station, y.station, u, v);
    ListReads(PutFootpath, FitsFootpath, x.edges, y.edges, s, t);
  }

  /** Every number and string of the buffer is one the program's types can hold. */
  ghost predicate Fits(b: RouteBuffer) {
    && Word(|b.routes|) && Word(|b.footpaths|)
    && (forall r :: r in RoutesContent(b) ==> FitsRoute(r))
    && (forall s :: s in b.footpaths ==> FitsWalks(WalkContent(s, b.footpaths[s])))
  }

  /** Equal bytes, equal content. */
  lemma ContentReadsBack(a: RouteBuffer, b: RouteBuffer, sa: seq<string>, sb: seq<string>)
    requires Fits(a) && Fits(b) && SortedStations(a, sa) && SortedStations(b, sb)
    requires Encode(a, sa) == Encode(b, sb)
    ensures RoutesContent(a) == RoutesContent(b) && a.footpaths == b.footpaths
  {
    hide SortedBy, PutList, FitsRoute, FitsWalks, PutRoute, PutWalks, RouteContentOf;
    RoutesReadBack();
    WalksReadBack();
    var wa, wb := WalksContent(a, sa), WalksContent(b, sb);
    ListReads(PutRoute, FitsRoute, RoutesContent(a), RoutesContent(b), PutList(PutWalks, wa), PutList(PutWalks, wb));
    StationCount(a, sa);
    StationCount(b, sb);
    assert PutList(PutWalks, wa) + [] == PutList(PutWalks, wb) + [];
    forall w | w in wa || w in wb
      ensures FitsWalks(w)
    {
      if w in wa {
        var i :| 0 <= i < |wa| && wa[i] == w;
        assert sa[i] in sa;
      } else {
        var i :| 0 <= i < |wb| && wb[i] == w;
        assert sb[i] in sb;
      }
    }
    ListReads(PutWalks, FitsWalks, wa, wb, [], []);
    SameWalksSameMap(a, b, sa, sb);
  }

  lemma StationCount(b: RouteBuffer, stations: seq<string>)
    requires SortedStations(b, stations)
    ensures |stations| == |b.footpaths|
  {
    assert b.footpaths.Keys == set s | s in stations;
    DistinctCount(stations);
  }

  lemma {:induction false} DistinctCount(xs: seq<string>)
    requires Distinct(xs)
    ensures |set x | x in xs| == |xs|
  {
    if xs != [] {
      var n := |xs| - 1;
      DistinctCount(xs[..n]);
      assert (set x | x in xs) == (set x | x in xs[..n]) + {xs[n]};
      assert xs[n] !in xs[..n];
    }
  }

  lemma SameWalksSameMap(a: RouteBuffer, b: RouteBuffer, sa: seq<string>, sb: seq<string>)
    requires SortedStations(a, sa) && SortedStations(b, sb)
    requires WalksContent(a, sa) == WalksContent(b, sb)
    ensures a.footpaths == b.footpaths
  {
    hide SortedBy, Distinct;
    var wa, wb := WalksContent(a, sa), WalksContent(b, sb);
    assert |sa| == |wa| == |wb| == |sb|;
    forall s
      ensures s in a.footpaths ==> s in b.footpaths && a.footpaths[s] == b.footpaths[s]
      ensures s in b.footpaths ==> s in a.footpaths
    {
      if s in sa {
        var i :| 0 <= i < |sa| && sa[i] == s;
        assert wa[i] == wb[i];
      }
      if s in sb {
        var i :| 0 <= i < |sb| && sb[i] == s;
        assert wa[i] == wb[i];
      }
    }
  }

  // ---- The derived fields ------------------------------------------------------------------------

  lemma {:induction false} OneOrder(xs: seq<RouteStop>, ys: seq<RouteStop>)
    requires InOrderOfPlace(xs) && InOrderOfPlace(ys) && forall x :: x in xs <==> x in ys
    ensures xs == ys
  {
    assert ys != [] ==> ys[0] in ys;
    if xs != [] {
      assert xs[0] in ys;
      assert ys != [] && ys[0] in xs;
      var i :| 0 <= i < |xs| && xs[i] == ys[0];
      var j :| 0 <= j < |ys| && ys[j] == xs[0];
      assert i == 0 || j == 0;
      assert xs[0] == ys[0];
      forall x
        ensures x in xs[1..] <==> x in ys[1..]
      {
        InTail(xs, x);
        InTail(ys, x);
      }
      OneOrder(xs[1..], ys[1..]);
      assert xs == [xs[0]] + xs[1..] && ys == [ys[0]] + ys[1..];
    }
  }

  lemma InTail(xs: seq<RouteStop>, x: RouteStop)
    requires InOrderOfPlace(xs) && xs != []
    ensures x in xs[1..] <==> x in xs && x != xs[0]
  {
    if x in xs[1..] {
      var i :| 0 <= i < |xs[1..]| && xs[1..][i] == x;
      assert xs[i + 1] == x;
    }
  }

  lemma OneStopIndex(routes: seq<RouteEntry>, m: map<string, seq<RouteStop>>, n: map<string, seq<RouteStop>>)
    requires IndexesStops(routes, m) && IndexesStops(routes, n)
    ensures m == n
  {
    forall s
      ensures s in m <==> s in n
      ensures s in m ==> m[s] == n[s]
    {
      if s in m {
        assert m[s][0] in m[s] && StopAt(routes, m[s][0], s);
      }
      if s in n {
        assert n[s][0] in n[s] && StopAt(routes, n[s][0], s);
      }
      if s in m && s in n {
        assert forall at :: at in m[s] <==> StopAt(routes, at, s);
        assert forall at :: at in n[s] <==> StopAt(routes, at, s);
        OneOrder(m[s], n[s]);
      }
    }
  }

  lemma OneTripIndex(stopTimes: seq<seq<TripStopTimes>>, m: map<TripKey, TripLocation>, n: map<TripKey, TripLocation>)
    requires IndexesTrips(stopTimes, m) && IndexesTrips(stopTimes, n)
    ensures m == n
  {
    forall k
      ensures k in m <==> k in n
      ensures k in m ==> m[k] == n[k]
    {
      if k in m {
        assert LastSlot(stopTimes, k, m[k].routeIdx, m[k].tripIdx);
      }
      if k in n {
        assert LastSlot(stopTimes, k, n[k].routeIdx, n[k].tripIdx);
      }
    }
  }

  lemma SameRoute(a: RouteBuffer, b: RouteBuffer, r: nat)
    requires r < |a.routes| == |a.stopTimes| && r < |b.routes| == |b.stopTimes|
    requires Shaped(a.routes[r], a.stopTimes[r]) && Shaped(b.routes[r], b.stopTimes[r])
    requires RouteContentOf(a, r) == RouteContentOf(b, r)
    ensures a.routes[r] == b.routes[r] && a.stopTimes[r] == b.stopTimes[r]
  {
    var x, y := a.stopTimes[r], b.stopTimes[r];
    assert |TripsContent(x)| == |x| && |TripsContent(y)| == |y|;
    forall t | 0 <= t < |x|
      ensures x[t] == y[t]
    {
      assert TripsContent(x)[t] == TripsContent(y)[t];
    }
  }

  lemma SameContentSameBuffer(a: RouteBuffer, b: RouteBuffer)
    requires LoaderBuilt(a) && LoaderBuilt(b)
    requires RoutesContent(a) == RoutesContent(b) && a.footpaths == b.footpaths
    ensures a == b
  {
    hide IndexesTrips, IndexesStops, Shaped;
    assert |a.routes| == |RoutesContent(a)| == |RoutesContent(b)| == |b.routes|;
    forall r | 0 <= r < |a.routes|
      ensures a.routes[r] == b.routes[r] && a.stopTimes[r] == b.stopTimes[r]
    {
      assert RoutesContent(a)[r] == RoutesContent(b)[r];
      SameRoute(a, b, r);
    }
    assert a.routes == b.routes && a.stopTimes == b.stopTimes;
    OneStopIndex(a.routes, a.stopToRoutes, b.stopToRoutes);
    OneTripIndex(a.stopTimes, a.tripIndex, b.tripIndex);
    assert forall r :: 0 <= r < |a.routes| ==>
        Measured(a.stopTimes[r], a.routeFIFO[r]) && Measured(b.stopTimes[r], b.routeFIFO[r]);
    assert a.routeFIFO == b.routeFIFO;
  }

  lemma SameStations(b: RouteBuffer, s: seq<string>, t: seq<string>)
    requires SortedStations(b, s) && SortedStations(b, t)
    ensures s == t
  {
    LexOrder();
    DistinctSameElements(s, t);
    SortIsCanonical(s, t, LexLe);
  }

  lemma DistinctSameElements(s: seq<string>, t: seq<string>)
    requires Distinct(s) && Distinct(t) && forall x :: x in s <==> x in t
    ensures multiset(s) == multiset(t)
  {
    forall x
      ensures multiset(s)[x] == multiset(t)[x]
    {
      if x in s {
        var i :| 0 <= i < |s| && s[i] == x;
        var j :| 0 <= j < |t| && t[j] == x;
        OnceInMultiset(s, i);
        OnceInMultiset(t, j);
      }
    }
  }

  /** Two loader-built buffers have the same manifest exactly when they are the same buffer: routes, times,
      footpaths, and every derived field. */
  lemma ManifestIdentifies(a: RouteBuffer, b: RouteBuffer, x: Bytes, y: Bytes)
    requires LoaderBuilt(a) && LoaderBuilt(b) && Fits(a) && Fits(b)
    requires IsManifest(a, x) && IsManifest(b, y)
    ensures x == y <==> a == b
  {
    hide LoaderBuilt, Fits, Encode, SortedStations;
    var sa :| SortedStations(a, sa) && x == Encode(a, sa);
    var sb :| SortedStations(b, sb) && y == Encode(b, sb);
    if x == y {
      ContentReadsBack(a, b, sa, sb);
      SameContentSameBuffer(a, b);
    }
    if a == b {
      SameStations(a, sa, sb);
    }
  }
}
