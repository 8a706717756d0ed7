/** From the rows of a reload to the journeys of a search. */
module EndToEnd {
  import opened Model
  import opened Fifo
  import opened Rows
  import opened Loaded
  import opened Reload
  import opened WalkRows
  import opened WalkGraph
  import opened Closure
  import opened Frontier
  import opened Answer
  import opened Engine
  import opened TrueFrontier
  import opened Unhurried

  /** The Pareto frontier over all itineraries with the given walks: each journey is achievable and unbeaten, each
      unbeaten trade-off has its journey, and they come in order, each later and with fewer transfers. */
  ghost predicate IsFrontier(w: World, direct: Graph, paths: seq<Path>)
    requires WellFormed(w.buf)
  {
    && (forall p :: p in paths ==>
        Achievable(w, direct, p.arrival, p.transfers) && Unbeaten(w, direct, p.arrival, p.transfers))
    && (forall a, t :: Achievable(w, direct, a, t) && Unbeaten(w, direct, a, t) ==>
          exists p :: p in paths && p.arrival == a && p.transfers == t)
    && StrictTradeOff(paths)
  }

  /** On a buffer loaded from contiguous rows whose kept trips run forwards, with walks no bound cuts short and no
      transfer buffer asked for, the answer of a search is the Pareto frontier over all itineraries of the rows,
      with any number of walks in a row along the walk rows themselves. */
  lemma LoadedAnswerIsTrueFrontier(rows: seq<Row>, foot: seq<FootRow>, opts: LoadOptions, w: World, paths: seq<Path>)
    requires Holds(w.buf, rows, foot, opts) && Contiguous(rows)
    requires KeptRunForward(rows)
    requires BoundsDoNotBite(DirectWalks(foot), opts) && w.params.TransferBuffer() == 0
    ensures WellFormed(w.buf)
    ensures IsAnswer(w, paths) ==> IsFrontier(w, DirectWalks(foot), paths)
  {
    hide Holds, WellFormed, Achievable, Unbeaten, IsClosure, NonNegative, BoundsDoNotBite, Contiguous, KeptRunForward;
    LoadedBufferServesSearch(w.buf, rows, foot, opts);
    DirectNonNegative(foot);
    if IsAnswer(w, paths) {
      AnswerIsTrueFrontier(w, DirectWalks(foot), paths);
    }
  }

  /** The earliest journeys of the frontier, in order, as many as asked for: a trade-off left out comes later than
      everything returned. */
  ghost predicate IsTopOfFrontier(w: World, direct: Graph, topK: int, paths: seq<Path>)
    requires WellFormed(w.buf)
  {
    && (forall p :: p in paths ==>
        Achievable(w, direct, p.arrival, p.transfers) && Unbeaten(w, direct, p.arrival, p.transfers))
    && (forall a, t :: Achievable(w, direct, a, t) && Unbeaten(w, direct, a, t) ==>
          StopShort(topK, paths, a) || exists p: Path :: p in paths && p.arrival == a && p.transfers == t)
    && StrictTradeOff(paths) && (topK > 0 ==> |paths| <= topK)
  }

  lemma TopOfAnswer(rows: seq<Row>, foot: seq<FootRow>, opts: LoadOptions, w: World, topK: int, paths: seq<Path>)
    requires Holds(w.buf, rows, foot, opts) && Contiguous(rows)
    requires KeptRunForward(rows)
    requires BoundsDoNotBite(DirectWalks(foot), opts) && w.params.TransferBuffer() == 0
    requires WellFormed(w.buf) && IsTopK(w, topK, paths)
    ensures IsTopOfFrontier(w, DirectWalks(foot), topK, paths)
  {
    hide Holds, WellFormed, IsAnswer, Achievable, Unbeaten, BoundsDoNotBite, Contiguous, KeptRunForward, Cut, StopShort,
         StrictTradeOff;
    var full :| IsAnswer(w, full) && paths == Cut(full, topK);
    LoadedAnswerIsTrueFrontier(rows, foot, opts, w, full);
    CutKeepsEarliest(full, topK);
    var direct := DirectWalks(foot);
    forall a, t | Achievable(w, direct, a, t) && Unbeaten(w, direct, a, t)
      ensures StopShort(topK, paths, a) || exists p: Path :: p in paths && p.arrival == a && p.transfers == t
    {
      var p: Path :| p in full && p.arrival == a && p.transfers == t;
    }
  }

  /** Load the rows, then search: every journey is real, and unless the query is degenerate the search returns the
      earliest `topK` journeys of the frontier over all itineraries of the rows, or, with a buffer owed, keeps up with
      every journey that takes its time. */
  method SearchLoaded(rows: seq<Row>, walks: WalkRead, opts: LoadOptions, params: SearchParams, allowed: set<string>,
                      signals: map<TripKey, SeatSignal>, topK: int) returns (w: World, paths: seq<Path>)
    requires Contiguous(rows) && KeptRunForward(rows)
    ensures w.params == params && w.allowed == allowed && w.signals == signals
    ensures Holds(w.buf, rows, walks.Delivered(), opts) && WellFormed(w.buf)
    ensures forall p :: p in paths ==> Sound(w, p)
    ensures BoundsDoNotBite(DirectWalks(walks.Delivered()), opts) && params.TransferBuffer() == 0
            && !Degenerate(w) && TiesHarmless(w) && CleanIDs(w) ==>
              IsTopOfFrontier(w, DirectWalks(walks.Delivered()), topK, paths)
    ensures BoundsDoNotBite(DirectWalks(walks.Delivered()), opts)
            && !Degenerate(w) && TiesHarmless(w) && CleanIDs(w) ==>
              KeepsUp(w, topK, paths)
  {
    hide Holds, WellFormed, BoundsDoNotBite, Contiguous, KeptRunForward, Sound, IsTopK, IsEarliest, IsTopOfFrontier,
         KeepsUp, IsClosure, TiesHarmless, CleanIDs, StrictTradeOff;
    var b, skipped := Load(rows, walks, opts);
    LoadedBufferServesSearch(b, rows, walks.Delivered(), opts);
    w := World(params, allowed, signals, b);
    paths := RaptorSearch(w, topK);
    if BoundsDoNotBite(DirectWalks(walks.Delivered()), opts) && IsTopK(w, topK, paths) && IsEarliest(w, topK, paths) {
      AnswerKeepsUp(w, DirectWalks(walks.Delivered()), topK, paths);
      if params.TransferBuffer() == 0 {
        TopOfAnswer(rows, walks.Delivered(), opts, w, topK, paths);
      }
    }
  }
}
