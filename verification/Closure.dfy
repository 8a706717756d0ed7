/** The transitive walk closure (`closeFootpaths`): a bounded Dijkstra per station, with lazy deletion,
    then the nearest edges of each station. */
module Closure {
  import opened Model
  import opened Ordering
  import opened WalkGraph
  import opened WalkQueues

  type Dist = map<string, int>

  /** Every station the direct graph mentions, and the source. */
  function Stations(g: Graph, src: string): set<string> {
    g.Keys + {src} + set u, i | u in g && 0 <= i < |g[u]| :: g[u][i].neighbourStop
  }

  lemma EdgeEndIsStation(g: Graph, src: string, u: string, i: nat)
    requires i < |Edges(g, u)|
    ensures Edges(g, u)[i].neighbourStop in Stations(g, src)
  {
  }

  // ---- The search state of one source ------------------------------------------------------------

  /** Distances found so far are lengths of real walks within the cap. */
  ghost predicate DistOK(g: Graph, src: string, cap: int, dist: Dist) {
    && src in dist && dist[src] == 0
    && dist.Keys <= Stations(g, src)
    && forall v :: v in dist ==> Reach(g, src, v, dist[v]) && 0 <= dist[v] <= cap
  }

  /** The first `n` edges of `u` have been relaxed. */
  ghost predicate Relaxed(g: Graph, cap: int, dist: Dist, u: string, n: nat)
    requires u in dist && n <= |Edges(g, u)|
  {
    forall i :: 0 <= i < n && dist[u] + Edges(g, u)[i].walkSeconds <= cap ==>
      Within(dist, Edges(g, u)[i].neighbourStop, dist[u] + Edges(g, u)[i].walkSeconds)
  }

  predicate Within(dist: Dist, v: string, d: int) {
    v in dist && dist[v] <= d
  }

  /** Every queued entry is at least the distance known for its station; every station not settled is
      queued at its distance; nothing queued is nearer than a settled station. `busy` is the station being
      expanded, if any: already settled, no longer queued. */
  ghost predicate QueueOK(dist: Dist, settled: set<string>, q: multiset<WalkNode>) {
    && settled <= dist.Keys
    && (forall n :: n in q ==> Within(dist, n.stop, n.dist))
    && (forall v :: v in dist && v !in settled ==> WalkNode(v, dist[v]) in q)
    && (forall u, n :: u in settled && n in q ==> dist[u] <= n.dist)
  }

  /** Distances only fall, and settled ones not at all. */
  ghost predicate Refines(dist: Dist, dist': Dist, settled: set<string>) {
    && (forall v :: v in dist ==> Within(dist', v, dist[v]))
    && (forall u :: u in settled && u in dist ==> u in dist' && dist'[u] == dist[u])
  }

  lemma StaysRelaxed(g: Graph, cap: int, dist: Dist, dist': Dist, settled: set<string>, u: string, n: nat)
    requires u in dist && u in settled && n <= |Edges(g, u)| && Relaxed(g, cap, dist, u, n)
    requires Refines(dist, dist', settled)
    ensures u in dist' && Relaxed(g, cap, dist', u, n)
  {
  }

  /** A nearer distance for a station that is not settled. */
  lemma NearerKeepsQueue(dist: Dist, settled: set<string>, q: multiset<WalkNode>, v: string, d: int)
    requires QueueOK(dist, settled, q)
    requires v !in settled && (v in dist ==> d < dist[v]) && forall u :: u in settled ==> dist[u] <= d
    ensures QueueOK(dist[v := d], settled, q + multiset{WalkNode(v, d)})
    ensures Refines(dist, dist[v := d], settled)
  {
    var q' := q + multiset{WalkNode(v, d)};
    assert forall n :: n in q' <==> n in q || n == WalkNode(v, d);
  }

  lemma NearerKeepsDist(g: Graph, src: string, cap: int, dist: Dist, u: string, i: nat)
    requires DistOK(g, src, cap, dist) && NonNegative(g) && u in dist && i < |Edges(g, u)|
    requires var e := Edges(g, u)[i];
             dist[u] + e.walkSeconds <= cap
               && (e.neighbourStop in dist ==> dist[u] + e.walkSeconds < dist[e.neighbourStop])
    ensures var e := Edges(g, u)[i]; DistOK(g, src, cap, dist[e.neighbourStop := dist[u] + e.walkSeconds])
  {
    EdgeNonNegative(g, u, i);
    ReachStep(g, src, u, dist[u], i);
    EdgeEndIsStation(g, src, u, i);
  }

  lemma NotSettled(dist: Dist, settled: set<string>, q: multiset<WalkNode>, v: string, d: int)
    requires QueueOK(dist, settled, q)
    requires (v in dist ==> d < dist[v]) && forall u :: u in settled ==> dist[u] <= d
    ensures v !in settled
  {
  }

  /** Relax one edge of the station being expanded. */
  method RelaxEdge(g: Graph, ghost src: string, cap: int, pq: WalkQueue, dist: Dist, ghost settled: set<string>,
                   node: WalkNode, i: nat)
      returns (dist': Dist)
    requires NonNegative(g) && i < |Edges(g, node.stop)|
    requires DistOK(g, src, cap, dist) && QueueOK(dist, settled, multiset(pq.q)) && IsHeap(pq.q)
    requires node.stop in dist && dist[node.stop] == node.dist && Relaxed(g, cap, dist, node.stop, i)
    requires node.stop in settled && forall u :: u in settled ==> u in dist && dist[u] <= node.dist
    modifies pq
    ensures DistOK(g, src, cap, dist') && QueueOK(dist', settled, multiset(pq.q)) && IsHeap(pq.q)
    ensures Refines(dist, dist', settled)
    ensures node.stop in dist' && Relaxed(g, cap, dist', node.stop, i + 1)
  {
    hide DistOK, QueueOK, IsHeap, NonNegative;
    var e := Edges(g, node.stop)[i];
    var nd := node.dist + e.walkSeconds;
    EdgeNonNegative(g, node.stop, i);
    dist' := dist;
    if nd > cap {
      return;
    }
    if e.neighbourStop in dist && nd >= dist[e.neighbourStop] {
      return;
    }
    NotSettled(dist, settled, multiset(pq.q), e.neighbourStop, nd);
    NearerKeepsDist(g, src, cap, dist, node.stop, i);
    NearerKeepsQueue(dist, settled, multiset(pq.q), e.neighbourStop, nd);
    dist' := dist[e.neighbourStop := nd];
    pq.Push(WalkNode(e.neighbourStop, nd));
    StaysRelaxed(g, cap, dist, dist', settled, node.stop, i);
  }

  /** Relax all edges of the station just settled. */
  method Expand(g: Graph, ghost src: string, cap: int, pq: WalkQueue, dist: Dist, ghost settled: set<string>,
                node: WalkNode)
      returns (dist': Dist)
    requires NonNegative(g)
    requires DistOK(g, src, cap, dist) && QueueOK(dist, settled, multiset(pq.q)) && IsHeap(pq.q)
    requires node.stop in dist && dist[node.stop] == node.dist
    requires node.stop in settled && forall u :: u in settled ==> u in dist && dist[u] <= node.dist
    modifies pq
    ensures DistOK(g, src, cap, dist') && QueueOK(dist', settled, multiset(pq.q)) && IsHeap(pq.q)
    ensures Refines(dist, dist', settled)
    ensures node.stop in dist' && Relaxed(g, cap, dist', node.stop, |Edges(g, node.stop)|)
  {
    hide DistOK, QueueOK, IsHeap, NonNegative;
    dist' := dist;
    for i := 0 to |Edges(g, node.stop)|
      invariant DistOK(g, src, cap, dist') && QueueOK(dist', settled, multiset(pq.q)) && IsHeap(pq.q)
      invariant Refines(dist, dist', settled)
      invariant node.stop in dist' && Relaxed(g, cap, dist', node.stop, i)
    {
      dist' := RelaxEdge(g, src, cap, pq, dist', settled, node, i);
    }
  }

  /** Every settled station has had all its edges relaxed. */
  ghost predicate AllRelaxed(g: Graph, cap: int, dist: Dist, settled: set<string>) {
    forall u :: u in settled ==> u in dist && Relaxed(g, cap, dist, u, |Edges(g, u)|)
  }

  /** One pop: a stale entry is dropped, a fresh one settles its station. */
  method Settle(g: Graph, src: string, cap: int, pq: WalkQueue, dist: Dist, settled: set<string>)
      returns (dist': Dist, settled': set<string>)
    requires NonNegative(g) && AllRelaxed(g, cap, dist, settled)
    requires DistOK(g, src, cap, dist) && QueueOK(dist, settled, multiset(pq.q)) && IsHeap(pq.q) && |pq.q| > 0
    modifies pq
    ensures DistOK(g, src, cap, dist') && QueueOK(dist', settled', multiset(pq.q)) && IsHeap(pq.q)
    ensures AllRelaxed(g, cap, dist', settled')
    ensures settled <= settled' && (settled' == settled ==> |pq.q| < |old(pq.q)|)
  {
    var node := pq.Pop();
    ghost var before, after := multiset(old(pq.q)), multiset(pq.q);
    assert |before| == |after| + 1;
    hide DistOK, QueueOK, IsHeap, NonNegative, AllRelaxed, Relaxed, Refines;
    PoppedEntry(dist, settled, before, after, node);
    if node.stop in settled {
      StaleKeepsQueue(dist, settled, before, after, node);
      return dist, settled;
    }
    if node.stop in dist && node.dist > dist[node.stop] {
      StaleKeepsQueue(dist, settled, before, after, node);
      return dist, settled;
    }
    settled' := settled + {node.stop};
    SettlingKeepsQueue(dist, settled, before, after, node);
    dist' := Expand(g, src, cap, pq, dist, settled', node);
    AllStayRelaxed(g, cap, dist, dist', settled, node.stop);
  }

  lemma PoppedEntry(dist: Dist, settled: set<string>, before: multiset<WalkNode>, after: multiset<WalkNode>,
                    node: WalkNode)
    requires QueueOK(dist, settled, before) && before == after + multiset{node}
    ensures Within(dist, node.stop, node.dist)
    ensures forall u :: u in settled ==> u in dist && dist[u] <= node.dist
  {
    assert node in before;
  }

  lemma StaleKeepsQueue(dist: Dist, settled: set<string>, before: multiset<WalkNode>, after: multiset<WalkNode>,
                        node: WalkNode)
    requires QueueOK(dist, settled, before) && before == after + multiset{node}
    requires node.stop in settled || (node.stop in dist && node.dist != dist[node.stop])
    ensures QueueOK(dist, settled, after)
  {
    assert forall n :: n in after ==> n in before;
    assert forall n :: n in before && n != node ==> n in after;
  }

  lemma SettlingKeepsQueue(dist: Dist, settled: set<string>, before: multiset<WalkNode>, after: multiset<WalkNode>,
                           node: WalkNode)
    requires QueueOK(dist, settled, before) && before == after + multiset{node}
    requires node.stop in dist && node.dist == dist[node.stop]
    requires forall n :: n in before ==> node.dist <= n.dist
    ensures QueueOK(dist, settled + {node.stop}, after)
  {
    assert forall n :: n in after ==> n in before;
    assert forall n :: n in before && n != node ==> n in after;
  }

  lemma AllStayRelaxed(g: Graph, cap: int, dist: Dist, dist': Dist, settled: set<string>, u: string)
    requires AllRelaxed(g, cap, dist, settled) && Refines(dist, dist', settled + {u})
    requires u in dist' && Relaxed(g, cap, dist', u, |Edges(g, u)|)
    ensures AllRelaxed(g, cap, dist', settled + {u})
  {
    forall v | v in settled
      ensures v in dist' && Relaxed(g, cap, dist', v, |Edges(g, v)|)
    {
      StaysRelaxed(g, cap, dist, dist', settled + {u}, v, |Edges(g, v)|);
    }
  }

  /** The dist map holds exactly the stations within the cap, each at its shortest walking time. */
  ghost predicate IsNearby(g: Graph, src: string, cap: int, dist: Dist) {
    && (forall v :: v in dist ==> IsShortest(g, src, v, dist[v]) && dist[v] <= cap)
    && (forall v, d :: Reach(g, src, v, d) && d <= cap ==> Within(dist, v, d))
  }

  /** Bounded Dijkstra from one station. It terminates because every pop either settles one more of finitely
      many stations or shortens the queue. */
  method Nearby(g: Graph, src: string, cap: int, pq: WalkQueue) returns (dist: Dist)
    requires NonNegative(g) && cap >= 0
    modifies pq
    ensures IsNearby(g, src, cap, dist) && src in dist
  {
    hide NonNegative, DistOK, QueueOK, AllRelaxed, IsNearby, IsHeap, Stations;
    pq.Clear();
    dist := map[src := 0];
    var settled: set<string> := {};
    pq.Push(WalkNode(src, 0));
    assert multiset(pq.q) == multiset{WalkNode(src, 0)};
    StartIsOK(g, src, cap);
    while |pq.q| > 0
      invariant DistOK(g, src, cap, dist) && QueueOK(dist, settled, multiset(pq.q)) && IsHeap(pq.q)
      invariant AllRelaxed(g, cap, dist, settled) && settled <= Stations(g, src)
      decreases Stations(g, src) - settled, |pq.q|
    {
      ghost var before := settled;
      dist, settled := Settle(g, src, cap, pq, dist, settled);
      SettledAreStations(g, src, cap, dist, settled, multiset(pq.q));
    }
    assert multiset(pq.q) == multiset{};
    EverythingSettled(g, src, cap, dist, settled);
  }

  lemma StartIsOK(g: Graph, src: string, cap: int)
    requires cap >= 0
    ensures DistOK(g, src, cap, map[src := 0])
    ensures QueueOK(map[src := 0], {}, multiset{WalkNode(src, 0)})
    ensures AllRelaxed(g, cap, map[src := 0], {})
  {
    ReachNothing(g, src);
  }

  lemma SettledAreStations(g: Graph, src: string, cap: int, dist: Dist, settled: set<string>, q: multiset<WalkNode>)
    requires DistOK(g, src, cap, dist) && QueueOK(dist, settled, q)
    ensures settled <= Stations(g, src)
  {
  }

  /** With the queue empty, no walk within the cap is shorter than the distance found. */
  lemma EverythingSettled(g: Graph, src: string, cap: int, dist: Dist, settled: set<string>)
    requires NonNegative(g) && DistOK(g, src, cap, dist) && QueueOK(dist, settled, multiset{})
    requires AllRelaxed(g, cap, dist, settled)
    ensures IsNearby(g, src, cap, dist) && src in dist
  {
    assert settled == dist.Keys;
    forall v, d | Reach(g, src, v, d) && d <= cap
      ensures Within(dist, v, d)
    {
      var steps :| Follow(g, src, steps) == Some((v, d));
      NoShorterWalk(g, src, cap, dist, steps);
    }
    forall v | v in dist
      ensures IsShortest(g, src, v, dist[v]) && dist[v] <= cap
    {
      forall e | Reach(g, src, v, e)
        ensures dist[v] <= e
      {
        if e <= cap { assert Within(dist, v, e); }
      }
    }
  }

  lemma {:induction false} NoShorterWalk(g: Graph, src: string, cap: int, dist: Dist, steps: seq<nat>)
    requires NonNegative(g) && DistOK(g, src, cap, dist) && AllRelaxed(g, cap, dist, dist.Keys)
    requires Follow(g, src, steps).Some? && Follow(g, src, steps).value.1 <= cap
    ensures Within(dist, Follow(g, src, steps).value.0, Follow(g, src, steps).value.1)
    decreases |steps|
  {
    if steps != [] {
      var n := |steps| - 1;
      var (x, d) := Follow(g, src, steps[..n]).value;
      EdgeNonNegative(g, x, steps[n]);
      NoShorterWalk(g, src, cap, dist, steps[..n]);
      assert Relaxed(g, cap, dist, x, |Edges(g, x)|);
    }
  }

  // ---- From distances to edges -------------------------------------------------------------------

  /** Shortest walk first, then station identifier. */
  predicate FootLe(a: Footpath, b: Footpath) {
    a.walkSeconds < b.walkSeconds || (a.walkSeconds == b.walkSeconds && LexLe(a.neighbourStop, b.neighbourStop))
  }

  lemma FootOrder()
    ensures TotalOrder(FootLe)
  {
    LexOrder();
  }

  /** The complete, ordered walking neighbourhood of a station: every other station whose shortest walk is
      within the cap, once, with that walk's time. */
  ghost predicate IsNeighbourhood(g: Graph, src: string, cap: int, full: seq<Footpath>) {
    && SortedBy(full, FootLe)
    && DistinctEnds(full)
    && (forall e :: e in full ==>
          e.neighbourStop != src && IsShortest(g, src, e.neighbourStop, e.walkSeconds) && e.walkSeconds <= cap)
    && (forall v, d :: v != src && IsShortest(g, src, v, d) && d <= cap ==> Footpath(v, d) in full)
  }

  function Nearest(full: seq<Footpath>, n: nat): seq<Footpath> {
    if |full| > n then full[..n] else full
  }

  lemma SortedFootpaths(edges: seq<Footpath>)
    ensures SortedBy(Sort(edges, FootLe), FootLe) && multiset(Sort(edges, FootLe)) == multiset(edges)
    ensures forall e :: e in Sort(edges, FootLe) <==> e in edges
  {
    FootOrder();
    SortSorts(edges, FootLe);
    SameElements(Sort(edges, FootLe), edges);
  }

  ghost predicate DistinctEnds(edges: seq<Footpath>) {
    forall i, j :: 0 <= i < j < |edges| ==> edges[i].neighbourStop != edges[j].neighbourStop
  }

  lemma DistinctAfterSort(edges: seq<Footpath>, sorted: seq<Footpath>)
    requires multiset(sorted) == multiset(edges) && DistinctEnds(edges)
    ensures DistinctEnds(sorted)
  {
    PermutationDistinct(edges, sorted);
    SameElements(sorted, edges);
    forall i, j | 0 <= i < j < |sorted|
      ensures sorted[i].neighbourStop != sorted[j].neighbourStop
    {
      assert sorted[i] in edges && sorted[j] in edges;
      var m :| 0 <= m < |edges| && edges[m] == sorted[i];
      var n :| 0 <= n < |edges| && edges[n] == sorted[j];
    }
  }

  /** The unordered edges of a source: each station it reaches, once, with its distance. */
  ghost predicate EdgesOf(src: string, dist: Dist, stops: seq<string>, edges: seq<Footpath>) {
    && Distinct(stops) && (forall s :: s in stops <==> s in dist && s != src)
    && |edges| == |stops|
    && forall i :: 0 <= i < |stops| ==> stops[i] in dist && edges[i] == Footpath(stops[i], dist[stops[i]])
  }

  lemma EdgesAreDistances(src: string, dist: Dist, stops: seq<string>, edges: seq<Footpath>)
    requires EdgesOf(src, dist, stops, edges)
    ensures DistinctEnds(edges)
    ensures forall e :: e in edges ==> e.neighbourStop in dist && e.neighbourStop != src
                                       && dist[e.neighbourStop] == e.walkSeconds
    ensures forall v :: v in dist && v != src ==> Footpath(v, dist[v]) in edges
  {
    forall e | e in edges
      ensures e.neighbourStop in dist && e.neighbourStop != src && dist[e.neighbourStop] == e.walkSeconds
    {
      var i :| 0 <= i < |edges| && edges[i] == e;
      assert stops[i] in stops;
    }
    forall v | v in dist && v != src
      ensures Footpath(v, dist[v]) in edges
    {
      var i :| 0 <= i < |stops| && stops[i] == v;
      assert edges[i] == Footpath(v, dist[v]);
    }
  }

  lemma SortedEdgesAreNeighbourhood(g: Graph, src: string, cap: int, dist: Dist, stops: seq<string>,
                                    edges: seq<Footpath>, full: seq<Footpath>)
    requires IsNearby(g, src, cap, dist) && EdgesOf(src, dist, stops, edges)
    requires SortedBy(full, FootLe) && multiset(full) == multiset(edges)
    requires forall e :: e in full <==> e in edges
    ensures IsNeighbourhood(g, src, cap, full)
  {
    hide EdgesOf, SortedBy;
    EdgesAreDistances(src, dist, stops, edges);
    DistinctAfterSort(edges, full);
    forall v, d | v != src && IsShortest(g, src, v, d) && d <= cap
      ensures Footpath(v, d) in full
    {
      assert Within(dist, v, d);
      assert dist[v] == d;
      assert Footpath(v, dist[v]) in edges;
    }
  }

  /** The walking neighbourhood of one source, read off its distances. */
  method ListEdges(g: Graph, src: string, cap: int, dist: Dist) returns (full: seq<Footpath>)
    requires IsNearby(g, src, cap, dist) && src in dist
    ensures IsNeighbourhood(g, src, cap, full)
  {
    hide IsNearby, IsNeighbourhood, SortedBy, TotalOrder, Sort;
    var stops := Range(dist.Keys - {src});
    forall i | 0 <= i < |stops|
      ensures stops[i] in dist
    {
      assert stops[i] in stops;
    }
    var edges := seq(|stops|, i requires 0 <= i < |stops| => Footpath(stops[i], dist[stops[i]]));
    full := Sort(edges, FootLe);
    SortedFootpaths(edges);
    SortedEdgesAreNeighbourhood(g, src, cap, dist, stops, edges, full);
  }

  // ---- The whole graph ---------------------------------------------------------------------------

  const DEFAULT_MAX_WALK_SECONDS := 1800
  const DEFAULT_MAX_FOOTPATHS_PER_STATION := 64

  datatype LoadOptions = LoadOptions(maxWalkSeconds: int, maxFootpathsPerStation: int)
  {
    function Cap(): (c: nat)
      ensures c > 0 && c == if maxWalkSeconds > 0 then maxWalkSeconds else 30 * 60
    {
      if maxWalkSeconds <= 0 then DEFAULT_MAX_WALK_SECONDS else maxWalkSeconds
    }

    function EdgeLimit(): (n: nat)
      ensures n > 0 && n == if maxFootpathsPerStation > 0 then maxFootpathsPerStation else 64
    {
      if maxFootpathsPerStation <= 0 then DEFAULT_MAX_FOOTPATHS_PER_STATION else maxFootpathsPerStation
    }
  }

  /** The edges a station ends up with: the nearest of its neighbourhood. */
  ghost predicate ClosedAt(g: Graph, opts: LoadOptions, out: Graph, src: string) {
    exists full :: IsNeighbourhood(g, src, opts.Cap(), full) && Edges(out, src) == Nearest(full, opts.EdgeLimit())
  }

  /** The edges kept for one station. */
  method CloseOne(direct: Graph, opts: LoadOptions, src: string, pq: WalkQueue) returns (edges: seq<Footpath>)
    requires NonNegative(direct)
    modifies pq
    ensures exists full :: IsNeighbourhood(direct, src, opts.Cap(), full) && edges == Nearest(full, opts.EdgeLimit())
  {
    hide NonNegative, IsNearby, IsNeighbourhood;
    var dist := Nearby(direct, src, opts.Cap(), pq);
    var full := ListEdges(direct, src, opts.Cap(), dist);
    edges := Nearest(full, opts.EdgeLimit());
  }

  /** Bounded closure of the direct walk graph, one source at a time, reusing the heap. A station that
      reaches nothing gets no entry. */
  method CloseFootpaths(direct: Graph, opts: LoadOptions) returns (out: Graph)
    requires NonNegative(direct)
    ensures out.Keys <= direct.Keys
    ensures forall src :: src in direct ==> ClosedAt(direct, opts, out, src)
    ensures forall src :: src in direct ==> NearestKept(direct, src, opts.Cap(), opts.EdgeLimit(), Edges(out, src))
    ensures forall src :: src in out ==> |out[src]| > 0
  {
    hide NonNegative, ClosedAt, IsNeighbourhood, Sort, Distinct, Nearest, NearestKept;
    out := map[];
    var keys := Range(direct.Keys);
    var sources := Sort(keys, LexLe);
    SortedSources(keys);
    var pq := new WalkQueue();
    for n := 0 to |sources|
      invariant fresh(pq)
      invariant forall src :: src in out ==> src in sources[..n] && |out[src]| > 0
      invariant forall m :: 0 <= m < n ==> ClosedAt(direct, opts, out, sources[m])
    {
      var edges := CloseOne(direct, opts, sources[n], pq);
      ghost var before := out;
      if |edges| > 0 {
        out := out[sources[n] := edges];
      }
      forall m | 0 <= m < n
        ensures ClosedAt(direct, opts, out, sources[m])
      {
        SameEdgesClosed(direct, opts, before, out, sources[m]);
      }
      NowClosed(direct, opts, out, sources[n], edges);
    }
    assert sources[..|sources|] == sources;
    forall src | src in direct
      ensures NearestKept(direct, src, opts.Cap(), opts.EdgeLimit(), Edges(out, src))
    {
      ClosedKeepsNearest(direct, opts, out, src);
    }
  }

  // ---- What is kept, and what is not -------------------------------------------------------------

  /** A walk to `a` in `d` seconds comes before one to `b` in `e`: it is shorter, or as long and first by name. */
  predicate Sooner(a: string, d: int, b: string, e: int) {
    d < e || (d == e && LexLe(a, b))
  }

  /** The edges of a source lead to other stations within the cap, each once, by their shortest walks, the shortest
      first; and a station within the cap is left out only when the limit is reached by stations that come sooner. */
  ghost predicate NearestKept(g: Graph, src: string, cap: int, limit: nat, edges: seq<Footpath>) {
    && |edges| <= limit
    && (forall e :: e in edges ==>
          e.neighbourStop != src && IsShortest(g, src, e.neighbourStop, e.walkSeconds) && e.walkSeconds <= cap)
    && (forall i, j :: 0 <= i < j < |edges| ==>
          edges[i].neighbourStop != edges[j].neighbourStop
          && Sooner(edges[i].neighbourStop, edges[i].walkSeconds, edges[j].neighbourStop, edges[j].walkSeconds))
    && (forall v, d :: v != src && IsShortest(g, src, v, d) && d <= cap && Footpath(v, d) !in edges ==>
          |edges| == limit && forall e :: e in edges ==> Sooner(e.neighbourStop, e.walkSeconds, v, d))
  }

  lemma NearestAreKept(g: Graph, src: string, cap: int, limit: nat, full: seq<Footpath>)
    requires IsNeighbourhood(g, src, cap, full)
    ensures NearestKept(g, src, cap, limit, Nearest(full, limit))
  {
    hide IsShortest;
    var edges := Nearest(full, limit);
    forall i, j | 0 <= i < j < |full|
      ensures full[i].neighbourStop != full[j].neighbourStop
      ensures Sooner(full[i].neighbourStop, full[i].walkSeconds, full[j].neighbourStop, full[j].walkSeconds)
    {
      assert FootLe(full[i], full[j]);
    }
    forall v, d | v != src && IsShortest(g, src, v, d) && d <= cap && Footpath(v, d) !in edges
      ensures |edges| == limit && forall e :: e in edges ==> Sooner(e.neighbourStop, e.walkSeconds, v, d)
    {
      var j :| 0 <= j < |full| && full[j] == Footpath(v, d);
      LeftOutIsLater(full, limit, j);
    }
  }

  lemma KeptPlace(full: seq<Footpath>, limit: nat, j: nat)
    requires j < |full|
    ensures j < |Nearest(full, limit)| ==> full[j] in Nearest(full, limit)
  {
    if j < |Nearest(full, limit)| {
      assert Nearest(full, limit)[j] == full[j];
    }
  }

  lemma LeftOutIsLater(full: seq<Footpath>, limit: nat, j: nat)
    requires SortedBy(full, FootLe) && j < |full| && full[j] !in Nearest(full, limit)
    ensures limit <= j && |Nearest(full, limit)| == limit
    ensures forall e :: e in Nearest(full, limit) ==>
              Sooner(e.neighbourStop, e.walkSeconds, full[j].neighbourStop, full[j].walkSeconds)
  {
    var edges := Nearest(full, limit);
    KeptPlace(full, limit, j);
    forall e | e in edges
      ensures Sooner(e.neighbourStop, e.walkSeconds, full[j].neighbourStop, full[j].walkSeconds)
    {
      var i :| 0 <= i < |edges| && edges[i] == e;
      assert FootLe(full[i], full[j]);
    }
  }

  lemma ClosedKeepsNearest(g: Graph, opts: LoadOptions, out: Graph, src: string)
    requires ClosedAt(g, opts, out, src)
    ensures NearestKept(g, src, opts.Cap(), opts.EdgeLimit(), Edges(out, src))
  {
    hide IsNeighbourhood, NearestKept;
    var full :| IsNeighbourhood(g, src, opts.Cap(), full) && Edges(out, src) == Nearest(full, opts.EdgeLimit());
    NearestAreKept(g, src, opts.Cap(), opts.EdgeLimit(), full);
  }

  lemma {:induction false} EndsCount(edges: seq<Footpath>) returns (ends: set<string>)
    requires DistinctEnds(edges)
    ensures |ends| == |edges| && forall v :: v in ends <==> exists e :: e in edges && e.neighbourStop == v
  {
    if edges == [] {
      ends := {};
    } else {
      var n := |edges| - 1;
      var before := EndsCount(edges[..n]);
      assert edges[n].neighbourStop !in before;
      ends := before + {edges[n].neighbourStop};
      assert forall e :: e in edges <==> e in edges[..n] || e == edges[n];
    }
  }

  lemma NoLarger(small: set<string>, large: set<string>)
    requires small <= large
    ensures |small| <= |large|
  {
    assert large == small + (large - small);
  }

  /** As many edges are kept as there are other stations within the cap, up to the limit. */
  lemma KeptCount(g: Graph, src: string, cap: int, limit: nat, edges: seq<Footpath>, near: set<string>)
    requires NearestKept(g, src, cap, limit, edges)
    requires forall v :: v in near <==> v != src && exists d :: IsShortest(g, src, v, d) && d <= cap
    ensures |edges| == if |near| < limit then |near| else limit
  {
    hide IsShortest;
    var ends := EndsCount(edges);
    forall v | v in ends
      ensures v in near
    {
      var e :| e in edges && e.neighbourStop == v;
    }
    NoLarger(ends, near);
    if |edges| < limit {
      forall v | v in near
        ensures v in ends
      {
        var d :| IsShortest(g, src, v, d) && d <= cap;
        assert Footpath(v, d) in edges;
      }
      NoLarger(near, ends);
    }
  }

  lemma NowClosed(g: Graph, opts: LoadOptions, out: Graph, src: string, edges: seq<Footpath>)
    requires exists full :: IsNeighbourhood(g, src, opts.Cap(), full) && edges == Nearest(full, opts.EdgeLimit())
    requires Edges(out, src) == edges
    ensures ClosedAt(g, opts, out, src)
  {
  }

  lemma SameEdgesClosed(g: Graph, opts: LoadOptions, a: Graph, b: Graph, src: string)
    requires ClosedAt(g, opts, a, src) && Edges(a, src) == Edges(b, src)
    ensures ClosedAt(g, opts, b, src)
  {
  }

  lemma SortedSources(keys: seq<string>)
    requires Distinct(keys)
    ensures Distinct(Sort(keys, LexLe))
    ensures forall s :: s in Sort(keys, LexLe) <==> s in keys
  {
    LexOrder();
    SortSorts(keys, LexLe);
    PermutationDistinct(keys, Sort(keys, LexLe));
    SameElements(Sort(keys, LexLe), keys);
  }

  // ---- When the bounds do not bite ---------------------------------------------------------------

  /** No shortest walk is longer than the cap, and no station has more neighbours than are kept. */
  ghost predicate BoundsDoNotBite(g: Graph, opts: LoadOptions) {
    && (forall u, v, d :: u in g && IsShortest(g, u, v, d) ==> d <= opts.Cap())
    && (forall u, full :: u in g && IsNeighbourhood(g, u, opts.Cap(), full) ==> |full| <= opts.EdgeLimit())
  }

  lemma {:induction false} ShortestExists(g: Graph, u: string, v: string, d: int)
    requires NonNegative(g) && Reach(g, u, v, d)
    ensures exists m :: IsShortest(g, u, v, m) && m <= d
    decreases d
  {
    var steps :| Follow(g, u, steps) == Some((v, d));
    FollowNonNegative(g, u, steps);
    if IsShortest(g, u, v, d) {
    } else {
      var e :| Reach(g, u, v, e) && e < d;
      var other :| Follow(g, u, other) == Some((v, e));
      FollowNonNegative(g, u, other);
      ShortestExists(g, u, v, e);
    }
  }

  lemma NowhereFromNowhere(g: Graph, u: string, v: string, d: int)
    requires u !in g && Reach(g, u, v, d)
    ensures v == u
  {
    var steps :| Follow(g, u, steps) == Some((v, d));
    NoSteps(g, u, steps);
  }

  lemma {:induction false} NoSteps(g: Graph, u: string, steps: seq<nat>)
    requires u !in g && Follow(g, u, steps).Some?
    ensures steps == []
  {
    if steps != [] {
      NoSteps(g, u, steps[..|steps| - 1]);
    }
  }

  /** Then the bounded closure is the full one. */
  lemma UnboundedIsClosure(direct: Graph, opts: LoadOptions, out: Graph)
    requires NonNegative(direct) && BoundsDoNotBite(direct, opts)
    requires out.Keys <= direct.Keys && forall src :: src in direct ==> ClosedAt(direct, opts, out, src)
    ensures IsClosure(out, direct)
  {
    hide NonNegative;
    forall u, i | u in out && 0 <= i < |out[u]|
      ensures IsShortest(direct, u, out[u][i].neighbourStop, out[u][i].walkSeconds)
    {
      var full :| IsNeighbourhood(direct, u, opts.Cap(), full) && Edges(out, u) == Nearest(full, opts.EdgeLimit());
      assert out[u][i] in full;
    }
    forall u, v, d | u != v && Reach(direct, u, v, d)
      ensures HasEdge(out, u, v, d)
    {
      EdgeForEveryWalk(direct, opts, out, u, v, d);
    }
  }

  lemma EdgeForEveryWalk(direct: Graph, opts: LoadOptions, out: Graph, u: string, v: string, d: int)
    requires NonNegative(direct) && BoundsDoNotBite(direct, opts)
    requires forall src :: src in direct ==> ClosedAt(direct, opts, out, src)
    requires u != v && Reach(direct, u, v, d)
    ensures HasEdge(out, u, v, d)
  {
    hide NonNegative;
    if u !in direct {
      NowhereFromNowhere(direct, u, v, d);
    } else {
      ShortestExists(direct, u, v, d);
      var m :| IsShortest(direct, u, v, m) && m <= d;
      var full :| IsNeighbourhood(direct, u, opts.Cap(), full) && Edges(out, u) == Nearest(full, opts.EdgeLimit());
      assert Footpath(v, m) in full;
      var i :| 0 <= i < |full| && full[i] == Footpath(v, m);
      assert Edges(out, u)[i] == full[i];
    }
  }

  lemma ListedWalk(g: Graph, u: string, cap: int, full: seq<Footpath>, i: nat)
    requires IsNeighbourhood(g, u, cap, full) && i < |full|
    ensures Reach(g, u, full[i].neighbourStop, full[i].walkSeconds)
  {
    hide SortedBy, DistinctEnds;
    assert full[i] in full;
  }

  lemma ShortestIsListed(g: Graph, u: string, cap: int, full: seq<Footpath>, v: string, m: int)
    requires IsNeighbourhood(g, u, cap, full) && v != u && IsShortest(g, u, v, m) && m <= cap
    ensures Footpath(v, m) in full
  {
  }

  /** Up to the cap, an untruncated neighbourhood is closed and its edges satisfy the triangle inequality. */
  lemma NeighbourhoodsAreMetric(g: Graph, cap: int, u: string, fromU: seq<Footpath>, i: nat, fromX: seq<Footpath>,
                                j: nat)
    requires NonNegative(g) && i < |fromU| && j < |fromX|
    requires IsNeighbourhood(g, u, cap, fromU) && IsNeighbourhood(g, fromU[i].neighbourStop, cap, fromX)
    requires fromX[j].neighbourStop != u && fromU[i].walkSeconds + fromX[j].walkSeconds <= cap
    ensures exists e :: e in fromU && e.neighbourStop == fromX[j].neighbourStop
                        && e.walkSeconds <= fromU[i].walkSeconds + fromX[j].walkSeconds
  {
    hide NonNegative, IsNeighbourhood, Reach, IsShortest;
    var x, v := fromU[i].neighbourStop, fromX[j].neighbourStop;
    ListedWalk(g, u, cap, fromU, i);
    ListedWalk(g, x, cap, fromX, j);
    ReachOn(g, u, x, v, fromU[i].walkSeconds, fromX[j].walkSeconds);
    ShortestExists(g, u, v, fromU[i].walkSeconds + fromX[j].walkSeconds);
    var m :| IsShortest(g, u, v, m) && m <= fromU[i].walkSeconds + fromX[j].walkSeconds;
    ShortestIsListed(g, u, cap, fromU, v, m);
    assert Footpath(v, m).neighbourStop == v;
  }
}
