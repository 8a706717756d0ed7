/** The direct walk graph, read off the walk rows (`loadFootpaths`). */
module WalkRows {
  import opened Model
  import opened WalkGraph
  import opened Closure

  datatype FootRow = FootRow(station: string, neighbour: string, walkSeconds: int)

  /** The one-hop walk graph: rows that take no time or lead nowhere are ignored. */
  function DirectWalks(foot: seq<FootRow>): Graph {
    if foot == [] then map[]
    else
      var g, row := DirectWalks(foot[..|foot| - 1]), foot[|foot| - 1];
      if row.walkSeconds <= 0 || row.station == row.neighbour then g
      else g[row.station := Edges(g, row.station) + [Footpath(row.neighbour, row.walkSeconds)]]
  }

  /** Its edges are exactly the usable rows; a station without one has no entry. */
  lemma {:induction false} DirectWalksAreRows(foot: seq<FootRow>)
    ensures forall u, e :: e in Edges(DirectWalks(foot), u) <==>
              FootRow(u, e.neighbourStop, e.walkSeconds) in foot && e.walkSeconds > 0 && u != e.neighbourStop
    ensures forall u :: u in DirectWalks(foot) ==> DirectWalks(foot)[u] != []
  {
    if foot != [] {
      var n := |foot| - 1;
      DirectWalksAreRows(foot[..n]);
      forall u, e: Footpath
        ensures e in Edges(DirectWalks(foot), u) <==>
                FootRow(u, e.neighbourStop, e.walkSeconds) in foot && e.walkSeconds > 0 && u != e.neighbourStop
      {
        var row := FootRow(u, e.neighbourStop, e.walkSeconds);
        assert row in foot <==> row in foot[..n] || row == foot[n];
        assert e in Edges(DirectWalks(foot[..n]), u) <==> row in foot[..n] && e.walkSeconds > 0 && u != e.neighbourStop;
      }
    }
  }

  lemma DirectNonNegative(foot: seq<FootRow>)
    ensures NonNegative(DirectWalks(foot))
  {
    DirectWalksAreRows(foot);
    forall u, i | u in DirectWalks(foot) && 0 <= i < |DirectWalks(foot)[u]|
      ensures DirectWalks(foot)[u][i].walkSeconds >= 0
    {
      assert DirectWalks(foot)[u][i] in Edges(DirectWalks(foot), u);
    }
  }

  /** What the walk query delivers: all of its rows, or those read before it failed. */
  datatype WalkRead = WalkRead(rows: seq<FootRow>, failsAfter: Option<nat>)
  {
    function Delivered(): seq<FootRow> {
      if failsAfter.Some? && failsAfter.value <= |rows| then rows[..failsAfter.value] else rows
    }
  }

  /** Row `i` comes before the failure, if there is one, and its walk takes time and leads elsewhere. */
  predicate UsableRow(read: WalkRead, i: int, u: string, e: Footpath) {
    && 0 <= i < |read.rows| && (read.failsAfter.Some? ==> i < read.failsAfter.value)
    && read.rows[i] == FootRow(u, e.neighbourStop, e.walkSeconds)
    && e.walkSeconds > 0 && e.neighbourStop != u
  }

  lemma DeliveredAreUsable(read: WalkRead)
    ensures forall u, e :: e in Edges(DirectWalks(read.Delivered()), u) <==> exists i :: UsableRow(read, i, u, e)
  {
    var foot := read.Delivered();
    DirectWalksAreRows(foot);
    hide DirectWalks;
    forall u, e: Footpath
      ensures e in Edges(DirectWalks(foot), u) <==> exists i :: UsableRow(read, i, u, e)
    {
      var row := FootRow(u, e.neighbourStop, e.walkSeconds);
      if row in foot && e.walkSeconds > 0 && u != e.neighbourStop {
        var i :| 0 <= i < |foot| && foot[i] == row;
        assert UsableRow(read, i, u, e);
      }
      if i :| UsableRow(read, i, u, e) {
        assert foot[i] == row;
      }
    }
  }

  /** Reading stops at a failure; the edges read until then are still used. */
  method LoadFootpaths(read: WalkRead) returns (out: Graph, failed: bool)
    ensures out == DirectWalks(read.Delivered()) && failed == read.failsAfter.Some?
    ensures forall u, e :: e in Edges(out, u) <==> exists i :: UsableRow(read, i, u, e)
  {
    DeliveredAreUsable(read);
    hide UsableRow;
    var foot := read.Delivered();
    out := map[];
    for i := 0 to |foot|
      invariant out == DirectWalks(foot[..i])
    {
      assert foot[..i + 1][..i] == foot[..i];
      var row := foot[i];
      if row.walkSeconds <= 0 || row.station == row.neighbour {
        continue;
      }
      out := out[row.station := Edges(out, row.station) + [Footpath(row.neighbour, row.walkSeconds)]];
    }
    assert foot[..|foot|] == foot;
    failed := read.failsAfter.Some?;
  }

  ghost predicate WalksClosed(direct: Graph, opts: LoadOptions, out: Graph) {
    && out.Keys <= direct.Keys
    && forall src :: src in direct ==> ClosedAt(direct, opts, out, src)
  }
}
