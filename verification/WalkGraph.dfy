/** Walking as a plain graph: what can be reached on foot, and in how long. */
module WalkGraph {
  import opened Model

  type Graph = map<string, seq<Footpath>>

  function Edges(g: Graph, u: string): seq<Footpath> {
    if u in g then g[u] else []
  }

  ghost predicate NonNegative(g: Graph) {
    forall u, i :: u in g && 0 <= i < |g[u]| ==> g[u][i].walkSeconds >= 0
  }

  lemma EdgeNonNegative(g: Graph, u: string, i: nat)
    requires NonNegative(g) && i < |Edges(g, u)|
    ensures Edges(g, u)[i].walkSeconds >= 0
  {
    assert g[u][i].walkSeconds >= 0;
  }

  /** Take the numbered edges in turn: where that leads from `u`, and how long it takes. */
  function Follow(g: Graph, u: string, steps: seq<nat>): (end: Option<(string, int)>) {
    if steps == [] then Some((u, 0))
    else
      var n := |steps| - 1;
      match Follow(g, u, steps[..n])
      case None => None
      case Some((x, d)) =>
        if steps[n] < |Edges(g, x)| then
          Some((Edges(g, x)[steps[n]].neighbourStop, d + Edges(g, x)[steps[n]].walkSeconds))
        else None
  }

  ghost predicate Reach(g: Graph, u: string, v: string, d: int) {
    exists steps :: Follow(g, u, steps) == Some((v, d))
  }

  ghost predicate IsShortest(g: Graph, u: string, v: string, d: int) {
    Reach(g, u, v, d) && forall e :: Reach(g, u, v, e) ==> d <= e
  }

  lemma {:induction false} FollowNonNegative(g: Graph, u: string, steps: seq<nat>)
    requires NonNegative(g)
    ensures Follow(g, u, steps).Some? ==> Follow(g, u, steps).value.1 >= 0
  {
    if steps != [] {
      FollowNonNegative(g, u, steps[..|steps| - 1]);
    }
  }

  lemma ReachStep(g: Graph, u: string, x: string, d: int, i: nat)
    requires Reach(g, u, x, d) && i < |Edges(g, x)|
    ensures Reach(g, u, Edges(g, x)[i].neighbourStop, d + Edges(g, x)[i].walkSeconds)
  {
    var steps :| Follow(g, u, steps) == Some((x, d));
    var more := steps + [i];
    assert more[..|more| - 1] == steps;
    assert Follow(g, u, more) == Some((Edges(g, x)[i].neighbourStop, d + Edges(g, x)[i].walkSeconds));
  }

  lemma ReachNothing(g: Graph, u: string)
    ensures Reach(g, u, u, 0)
  {
    assert Follow(g, u, []) == Some((u, 0));
  }

  lemma {:induction false} FollowOn(g: Graph, u: string, x: string, d: int, steps: seq<nat>)
    requires Reach(g, u, x, d) && Follow(g, x, steps).Some?
    ensures var (v, e) := Follow(g, x, steps).value; Reach(g, u, v, d + e)
    decreases |steps|
  {
    if steps != [] {
      var n := |steps| - 1;
      FollowOn(g, u, x, d, steps[..n]);
      var (y, e) := Follow(g, x, steps[..n]).value;
      ReachStep(g, u, y, d + e, steps[n]);
    }
  }

  /** Walks compose, and their times add up. */
  lemma ReachOn(g: Graph, u: string, x: string, v: string, d: int, e: int)
    requires Reach(g, u, x, d) && Reach(g, x, v, e)
    ensures Reach(g, u, v, d + e)
  {
    var steps :| Follow(g, x, steps) == Some((v, e));
    FollowOn(g, u, x, d, steps);
  }

  /** The closed graph lists, for every station, every other station it can reach on foot, with the
      shortest walking time; its edges are real walks of the direct graph. */
  ghost predicate IsClosure(closed: Graph, direct: Graph) {
    && (forall u, i :: u in closed && 0 <= i < |closed[u]| ==>
          IsShortest(direct, u, closed[u][i].neighbourStop, closed[u][i].walkSeconds))
    && (forall u, v, d {:trigger HasEdge(closed, u, v, d)} ::
          u != v && Reach(direct, u, v, d) ==> HasEdge(closed, u, v, d))
  }

  /** Some edge from `u` to `v` takes at most `d`. */
  ghost predicate HasEdge(g: Graph, u: string, v: string, d: int) {
    exists i :: 0 <= i < |Edges(g, u)| && Edges(g, u)[i].neighbourStop == v && Edges(g, u)[i].walkSeconds <= d
  }

  /** One hop in the closed graph is worth any two. */
  lemma TwoHopsAreOne(closed: Graph, direct: Graph, u: string, i: int, x: string, j: int)
    requires IsClosure(closed, direct)
    requires 0 <= i < |Edges(closed, u)| && Edges(closed, u)[i].neighbourStop == x
    requires 0 <= j < |Edges(closed, x)| && Edges(closed, x)[j].neighbourStop != u
    ensures HasEdge(closed, u, Edges(closed, x)[j].neighbourStop,
                    Edges(closed, u)[i].walkSeconds + Edges(closed, x)[j].walkSeconds)
  {
    ReachOn(direct, u, x, closed[x][j].neighbourStop, closed[u][i].walkSeconds, closed[x][j].walkSeconds);
  }

  /** A direct edge is no better than the closed one. */
  lemma DirectHopIsOne(closed: Graph, direct: Graph, u: string, i: nat)
    requires IsClosure(closed, direct)
    requires i < |Edges(direct, u)| && Edges(direct, u)[i].neighbourStop != u
    ensures HasEdge(closed, u, Edges(direct, u)[i].neighbourStop, Edges(direct, u)[i].walkSeconds)
  {
    ReachNothing(direct, u);
    ReachStep(direct, u, u, 0, i);
  }
}
