/** A schedule reload from end to end (`ReloadRouteArrays`, `manifestChanged`): load the rows,
    close the walk graph, and publish unless the content is what is already live. */
module Reload {
  import opened Model
  import opened Rows
  import opened Loader
  import opened Loaded
  import opened WalkGraph
  import opened WalkRows
  import opened Closure
  import opened Encoding
  import opened Manifest
  import opened Sizes

  /** The buffer holds what these rows say. */
  ghost predicate Holds(b: RouteBuffer, rows: seq<Row>, foot: seq<FootRow>, opts: LoadOptions) {
    && LoaderBuilt(b)
    && TimetableLoaded(rows, b.routes, b.stopTimes)
    && WalksClosed(DirectWalks(foot), opts, b.footpaths)
  }

  /** One load, without publishing. Every trip of the rows has a slot or is counted as skipped. A walk query that
      fails leaves the schedule with the walks read before it failed. */
  method Load(rows: seq<Row>, walks: WalkRead, opts: LoadOptions) returns (b: RouteBuffer, skipped: nat)
    ensures Holds(b, rows, walks.Delivered(), opts)
    ensures Total(b.stopTimes) + skipped == |Trips(rows)|
  {
    hide LoaderBuilt, TimetableLoaded, NonNegative, ClosedAt, Trips, Total;
    var staging;
    staging, skipped := LoadTimetable(rows);
    var direct, failed := LoadFootpaths(walks);
    DirectNonNegative(walks.Delivered());
    var closed := CloseFootpaths(direct, opts);
    b := staging.Snapshot(closed);
    SameBuild(staging.Snapshot(map[]), b);
  }

  lemma SameBuild(a: RouteBuffer, b: RouteBuffer)
    requires LoaderBuilt(a) && b == a.(footpaths := b.footpaths)
    ensures LoaderBuilt(b)
  {
  }

  const EMPTY := RouteBuffer([], [], map[], map[], map[], [])

  /** The live buffer and the content last published. */
  class ScheduleStore {
    var live: RouteBuffer
    var manifest: Option<Bytes>

    ghost predicate Valid()
      reads this
    {
      manifest.Some? ==> LoaderBuilt(live) && IsManifest(live, manifest.value)
    }

    constructor ()
      ensures Valid() && live == EMPTY && manifest == None && Fits(live)
    {
      live, manifest := EMPTY, None;
      EmptyFits();
    }

    /** Forget what was published, so that the next reload publishes whatever it loads. */
    method ResetManifest()
      modifies this`manifest
      ensures Valid() && manifest == None
    {
      manifest := None;
    }

    /** A swap is skipped exactly when the staged buffer is the live one: skipping hides nothing. */
    method Publish(staging: RouteBuffer) returns (swapped: bool)
      requires Valid() && LoaderBuilt(staging)
      modifies this
      ensures Valid()
      ensures live == if swapped then staging else old(live)
      ensures Fits(old(live)) && Fits(staging) ==>
                live == staging && (swapped <==> old(manifest).None? || old(live) != staging)
    {
      hide LoaderBuilt, Fits, IsManifest;
      var hash := ManifestBytes(staging);
      if manifest.Some? && Fits(live) && Fits(staging) {
        ManifestIdentifies(live, staging, manifest.value, hash);
      }
      if manifest == Some(hash) {
        return false;
      }
      manifest := Some(hash);
      live := staging;
      return true;
    }

    /** After any reload, published or skipped, the live buffer holds what the rows say; if the timetable cannot be
        read, nothing changes. */
    method ReloadRouteArrays(timetable: Option<seq<Row>>, walks: WalkRead, opts: LoadOptions)
        returns (staging: Option<RouteBuffer>, swapped: bool)
      requires Valid() && Fits(live)
      requires timetable.Some? ==> RowsFit(timetable.value) && WalkRowsFit(walks.rows) && OptionsFit(opts)
      modifies this
      ensures Valid() && Fits(live)
      ensures timetable.None? ==> staging == None && !swapped && live == old(live) && manifest == old(manifest)
      ensures timetable.Some? ==>
                staging == Some(live) && Holds(live, timetable.value, walks.Delivered(), opts)
                && (swapped <==> old(manifest).None? || old(live) != live)
    {
      if timetable.None? {
        return None, false;
      }
      hide TimetableLoaded, WalksClosed, LoaderBuilt, Fits, RowsFit, WalkRowsFit;
      var b, skipped := Load(timetable.value, walks, opts);
      DeliveredFits(walks);
      LoadedFits(timetable.value, walks.Delivered(), opts, b);
      swapped := Publish(b);
      staging := Some(b);
    }
  }

  lemma EmptyFits()
    ensures Fits(EMPTY)
  {
  }

  // ---- What a search gets ------------------------------------------------------------------------

  lemma ClosedWalksNonNegative(direct: Graph, opts: LoadOptions, out: Graph)
    requires NonNegative(direct) && WalksClosed(direct, opts, out)
    ensures NonNegative(out)
  {
    forall u, i | u in out && 0 <= i < |out[u]|
      ensures out[u][i].walkSeconds >= 0
    {
      var full: seq<Footpath> :| IsNeighbourhood(direct, u, opts.Cap(), full)
        && Edges(out, u) == Nearest(full, opts.EdgeLimit());
      ListedWalk(direct, u, opts.Cap(), full, i);
      var steps :| Follow(direct, u, steps) == Some((full[i].neighbourStop, full[i].walkSeconds));
      FollowNonNegative(direct, u, steps);
    }
  }

  /** A buffer loaded from contiguous rows whose kept trips run forwards is what the search expects, its trip index is
      exact, and when neither walk bound bites its walk graph is the full closure of the rows. */
  lemma LoadedBufferServesSearch(b: RouteBuffer, rows: seq<Row>, foot: seq<FootRow>, opts: LoadOptions)
    requires Holds(b, rows, foot, opts) && Contiguous(rows)
    requires KeptRunForward(rows)
    ensures WellFormed(b) && KeysUnique(b.stopTimes)
    ensures BoundsDoNotBite(DirectWalks(foot), opts) ==> IsClosure(b.footpaths, DirectWalks(foot))
  {
    hide LoaderBuilt, TimetableLoaded, ClosedAt, Trips, KeptRunForward, NonNegative, WellFormed, BoundsDoNotBite;
    DirectNonNegative(foot);
    ClosedWalksNonNegative(DirectWalks(foot), opts, b.footpaths);
    EveryWalk(b.footpaths);
    LoadedIsWellFormed(rows, b);
    LoadedKeysUnique(rows, b);
    if BoundsDoNotBite(DirectWalks(foot), opts) {
      UnboundedIsClosure(DirectWalks(foot), opts, b.footpaths);
    }
  }

  lemma EveryWalk(g: Graph)
    requires NonNegative(g)
    ensures forall s, i :: s in g && 0 <= i < |g[s]| ==> g[s][i].walkSeconds >= 0
  {
  }
}
