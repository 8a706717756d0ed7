# Axentra journey search: a verified model

Axentra answers journey queries over a timetable with a round-based router (RAPTOR), keeps the timetable and the
live seat counts in memory, and guards seat validation with a circuit breaker. This project models that core and
proves what it promises. `dafny verify dfyconfig.toml` covers all of it.

The main line runs from the rows of a schedule reload to the answer of a search:

- **Loading.** `Rows`, `WalkRows`, `Loader`, `Loaded`, `Closure`, `WalkQueues`, `Manifest`, `Sizes` and `Reload` model
  a reload: the row loop, one buffer slot per trip, the order flag of each route, the indexes, the bounded walk closure
  over a binary heap, and the manifest that lets an unchanged reload skip its swap. A buffer whose trips run forwards
  meets every assumption of the search, and a skipped swap hides nothing. `Overlap` says exactly which overlapping
  reloads would end with an older buffer live; the program itself reloads one at a time.
- **Searching.** `Engine` is the router as it is written: a mutable search state, a queue of routes through marked
  stops, two scan strategies, pruning at the stop and at the destination, one walk pass per round, and path
  rebuilding from a journal. `Reference` is the naive router of the repository's own differential suite, which tries
  every trip between every pair of stops with no queue, no marks and no pruning. In every well-formed network the
  search never fails to rebuild a journey and returns only real ones; and it returns exactly the non-dominated
  trade-offs of the naive router when no tie is harmful. `Scans` says what a scan offers whatever the ties, `Traces`
  what a whole run leaves behind, and `AnyOrder` that neither the order of the queue nor that of the sources, which the
  program sorts, changes the answer when no tie is harmful.
- **What the answer is worth.** `Optimum` and `TrueFrontier` compare the naive levels with all itineraries, chained
  walks included: with no transfer buffer and a fully closed walk graph the answer is the true Pareto frontier.
  With a buffer owed, `Unhurried` shows that the answer keeps up with every journey that takes its time. `EndToEnd`
  joins this to loading: one method from the rows to the first journeys of that frontier. `JourneyFacts` and
  `TimetableFacts` say what a journey and a timetable mean in the terms of the query and of the rows.

Beside it stand the seat protocol (`SeatSync`, with `SeatKeys` and `StreamIDs` for the texts it exchanges) as a state
machine over freely interleaved steps, with `LostTrips` on exactly which trips a run gets wrong and `Progress` on when
the loop reaches the head; the circuit breaker (`Breaker`, `BreakerHistory`) over all call sequences with late reports;
and the validator (`Validator`, `StrictAnswers`) over all histories of failed and changing reads. `Fingerprints`,
`Collisions`, `LostJourney`, `Ties` and `Buffers` hold the exact conditions and the counterexamples behind the
assumptions below.

What the theorems assume, always as an explicit hypothesis:

- A search needs trips that never arrive before an earlier departure, non-empty station and trip identifiers,
  non-negative walks, and a stop index that lists every place (`Model.WellFormed`). That is enough for every returned
  journey to be real. Loading provides all of it exactly when the trips it keeps run forwards
  (`Loaded.WellFormedExactly`), which batch validation does not imply (`Ingestion.AcceptedCanRunBackwards`);
  `Ingestion.AcceptedRunsForward` says exactly what is missing.
- For the answer to be optimal every ordered route must be free of harmful ties: two usable trips leaving a middle
  stop together, of which the one that was behind further up arrives later further down. The order flag allows such
  ties, and the trip lookup passes over them. `Fifo.ScanIsExact` proves that this is exactly what the forward scan
  needs, and `Ties.SearchComesLate` is a query whose search arrives late because of one; routes on which no two trips
  leave a stop together qualify.
- For the answer to be complete no identifier may hold a bar, or none a semicolon. `Collisions.SafeSeparators` proves
  that this is exactly what deduplication needs, and `LostJourney.SearchLosesJourney` is a query whose search loses a
  journey without it.
- For the levels themselves to be the true optimum no transfer buffer may be owed (`Buffers.UnbeatenExactly`); with
  one, only journeys that owe none because they walked can beat them (`Unhurried.LevelKeepsUp`).
- Strict validation confirms every ride unless a route is named like the walk marker; `StrictAnswers` has the exact
  condition and a check on the timetable rows that is enough.
- The seat protocol keeps its promise when no cold start fails after moving the cursor, the cursor has left "0"
  before anything is trimmed, and no lag check goes unanswered; each condition has a run that breaks without it, and
  `LostTrips` says for each trip when it is lost.

## Model

| member | source | states |
|---|---|---|
| `Engine.RaptorSearch` | `internal/raptor/engine.go:123-236` | In every well-formed network: no answer for an empty timetable or a degenerate query; every journey returned is real (usable trips between stops in order, exact walks, no two walks in a row, the transfer buffer kept), its summary is right, and the list trades arrival for transfers strictly. When ties are harmless and no identifier holds a bar, or none holds a semicolon, it is the earliest `topK` of exactly the non-dominated (arrival, transfers) pairs of the naive router: one left out comes strictly later than everything returned |
| `Engine.SearchState.Run` | `internal/raptor/engine.go:156-225` | In every network, routes and sources sorted or in any other order, the tables end up backed by chains of real legs, and each round is the scan of the queue of the stops marked before and one walk pass off it, until the limit or the first round that marks nothing. When ties are harmless every round k agrees with the naive level k at the destination and at every stop reached before it, in time and in being reached by vehicle; the run stops after exactly the first idle level, with which every later level agrees |
| `Engine.SearchState.RunRound` | `internal/raptor/engine.go:162-221` | One round (copy, queue, scans, one walk pass), in any order of its routes and sources, extends the whole-history invariant by a round: labels backed by chains of real legs and, when ties are harmless, agreeing with the naive level; the new marked set is exactly the stops whose label is new |
| `Engine.SearchState.ScanMarked` | `internal/raptor/engine.go:184-208` | In every network only arrivals the scans of the queue offer are written, and all of them are tried, in any order. When ties are harmless, scanning only routes through stops improved last round, from the earliest such position, covers every ride that could be caught from last round's labels anywhere, although the transfer buffer makes readiness non-monotone |
| `Engine.SearchState.ScanRoute` | `internal/raptor/engine.go:241-334` | Every label written is a real ride the route's scan offers, off last round's labels, that beats its stop and the destination, and every arrival the scan offers is tried; on an overtaking route always, on an ordered route when ties are harmless, every ride boarded at or after the given position is covered at its own stop or at the destination |
| `Engine.SearchState.ScanOrdered` | `internal/raptor/engine.go:274-333` | One forward pass over an ordered route writes only arrivals of the trip it carries and tries that arrival at every position, whatever the ties; when ties are harmless this covers every ride on it that can be caught from the boarding position on, as trying every trip at every position would |
| `Engine.SearchState.ScanTrip` | `internal/raptor/engine.go:344-397` | One boarding decision per trip covers every ride on that trip from the boarding position on; an unusable trip offers none |
| `Engine.SearchState.Relax` | `internal/raptor/engine.go:292-305` | The arrival is recorded with its journal entry exactly when it beats both its stop and the destination, and reported so; otherwise nothing changes, and either way no other stop and no other round does |
| `Engine.SearchState.RelaxFootpaths` | `internal/raptor/engine.go:453-509` | Exactly one walk from each source, off the time the source had before the pass: every such walk is covered, every new label is one, and the leg each source was reached by is remembered |
| `Engine.BuildQueue` | `internal/raptor/engine.go:184-198` | The queue holds, for each route the stop index lists under a marked stop, the earliest usable position listed |
| `Engine.SearchState.Backtrack` | `internal/raptor/engine.go:557-624` | Whatever the ties, backtracking always succeeds on the history a search leaves: no missing entry, no repeated (round, station), no step limit; the legs reversed are a real itinerary that ends at the label's own time with at most as many vehicles as the round, exactly as many as the round the label was written in when ties are harmless |
| `Engine.SearchState.BuildPath` | `internal/raptor/engine.go:557-658` | The path is never discarded by its own checks in any network, its vehicle count is within the round, and its summary fields say what its legs say |
| `Engine.SearchState.CollectPaths` | `internal/raptor/engine.go:516-538` | Walking up the rounds yields real journeys only, and when ties are harmless one for each level that arrives strictly earlier than every level before it, and nothing else |
| `Engine.Rank` | `internal/raptor/engine.go:540-547` | Deduplicating, sorting and sweeping keeps real journeys and a strict trade-off, and leaves exactly one journey for each non-dominated level when ties are harmless and no identifier holds a bar or none holds a semicolon |
| `Engine.SearchState.NextPath` | `internal/raptor/engine.go:520-537` | A round that arrives before all rounds before it wrote its destination label itself and always rebuilds, to a journey with exactly that round's number of vehicles when ties are harmless |
| `Engine.SearchState.Extract` | `internal/raptor/engine.go:511-553` | The labels turn into real journeys that trade off strictly, at most `topK`; when ties are harmless and no identifier holds a bar, or none holds a semicolon, exactly the Pareto frontier of the naive levels, or its earliest `topK`: a non-dominated level is in the answer by arrival and transfers, or `topK` journeys are returned that all arrive strictly before it |
| `History.MarkedSuffices` | `internal/raptor/engine.go:184-208` | When ties are harmless a route position that no stop improved last round can board offers nothing the labels do not already cover |
| `History.OldLabelsOfferNothing` | `internal/raptor/engine.go:311-318` | When ties are harmless a label carried over unchanged, buffer included, can only board rides an earlier round has already covered |
| `History.RoundKeeps` | `internal/raptor/engine.go:168-219` | A vehicle phase and a walk phase with the promised effects keep every label backed by a chain of real legs, remembered entries included, and keep agreement when every ride was covered |
| `AnyOrder.SameRounds` | `internal/raptor/engine.go:199-219` | Two runs of one query that scan routes and walk from stops in any two orders: when ties are harmless they reach the destination at the same time in every round up to the limit and stop in the same round |
| `AnyOrder.SameTradeOffs` | `internal/raptor/engine.go:199-219` | Two searches in any two orders: real journeys both, and when ties are harmless and no identifier holds a bar, or none holds a semicolon, the same arrivals and transfers journey by journey |
| `Traces.MarksNothing` | `internal/raptor/engine.go:221-224` | A round that agrees with its naive level marks nothing if and only if that level is the one before, at the destination and below it: the early stop is a property of the query, not of the order |
| `Scans.ScanSuffices` | `internal/raptor/engine.go:241-397` | Off any labels, the arrivals a scan offers (the carried trip on an ordered route, each trip from its first boarding on any other) cover every ride boarded from the given position on, on an overtaking route always and on an ordered one when ties are harmless |
| `Agreement.OrderIndependent` | `internal/raptor/engine.go:199-219` | Within one phase the destination's arrival, and every label before it, is the same for every order of trying the offers, although pruned updates differ |
| `Agreement.MergeAgree` | `internal/raptor/engine.go:441-449` | A phase that prunes by the stop's and the destination's best, started from labels agreeing with the naive ones, ends in labels agreeing with the naive merge |
| `Agreement.RoundAgrees` | `internal/raptor/reference_test.go:55-134` | A pruned vehicle phase followed by a pruned walk phase agrees with the naive next level |
| `Agreement.IdleForever` | `internal/raptor/engine.go:221-224` | When a round improves nothing, no later level differs from the current one |
| `Reference.MergeMeaning` | `internal/raptor/reference_test.go:88-105` | A naive merge keeps a label unless an offer beats it, and then takes the least offer |
| `Reference.MergeUnique` | `internal/raptor/reference_test.go:88-105` | That description fixes the merged labels completely, whatever order offers are tried in |
| `Fifo.ComputeFIFO` | `internal/schedule/buffer.go:236-277` | The flag is set if and only if there are fewer than two trips, or all trips serve equally many stops and every earlier-indexed trip is nowhere later, arriving or departing: the neighbour check decides the all-pairs property |
| `Fifo.AdjacentOrderIsGlobal` | `internal/schedule/buffer.go:253-276` | Order between neighbours over the same positions implies order between any two trips |
| `Fifo.SearchDeparture` | `internal/raptor/engine.go:409-415` | The binary search returns the boundary between departures before `ready` and departures at or after it |
| `Fifo.EarliestTrip` | `internal/raptor/engine.go:408-429` | Binary search and early break return the index a linear search for the first usable departure in [ready, mustBeat) returns, or -1 |
| `Fifo.CarriedIsOptimal` | `internal/raptor/engine.go:274-333` | Without a harmful tie the trip carried by the forward scan arrives, at every later position, no later than any usable trip that could have been boarded so far |
| `Fifo.CarriedIsBoarded` | `internal/raptor/engine.go:308-332` | In every ordered network, ties or not, the carried trip is one that was caught in time, so the scan is never too early |
| `Fifo.ScanIsExact` | `internal/raptor/engine.go:408-429` | The forward scan over an ordered route finds every earliest arrival, for all times its positions can be boarded at, if and only if the route has no harmful tie among usable trips |
| `Fifo.HarmfulTieMisleads` | `internal/raptor/engine.go:421-426` | For every harmful tie there are boarding times on which the scan stays on the later-arriving trip |
| `Ties.ScanIsExactForLabels` | `internal/raptor/engine.go:408-429` | On an ordered route that stops nowhere twice the same holds over labels of stops: the scan from the start is right for every labelling if and only if the route has no harmful tie |
| `Ties.SearchComesLate` | `internal/raptor/engine.go:408-429` | For the query below the whole search, in any order of scanning, returns real journeys that all arrive at 30, although the naive level of one vehicle arrives at 20 |
| `Ties.TieMisleadsSearch` | `internal/raptor/engine.go:408-429` | A well-formed query on an ordered route with a harmful tie, two footpaths out of the origin: on the labels its own first walks give, the forward scan reaches the destination at 30 although one vehicle is there at 20 |
| `Fifo.UnknownOrderIsSafe` | `internal/schedule/buffer.go:74-81` | Routes without a flag count as overtaking: a buffer that forgets its flags stays fit for the search and has no harmful tie |
| `Fifo.DistinctDeparturesAreHarmless` | `internal/schedule/buffer.go:261-275` | A route on which no two trips leave a stop together has no harmful tie |
| `Journeys.StepBack` | `internal/raptor/engine.go:575-617` | In any network every backward step finds an entry, prefers the remembered vehicle leg exactly where two walks would meet, keeps the transfer buffer between vehicles, and never goes up a round |
| `JourneyFacts.UsableExactly` | `internal/raptor/engine.go:54-63` | A trip is refused exactly when its date is not allowed, or a current signal shows fewer seats of the class than passengers, a class not listed having none |
| `JourneyFacts.EveryoneIsSeated` | `internal/raptor/engine.go:54-63` | Every vehicle of a journey in the answer runs on an allowed date, and no current signal shows too few seats on it |
| `JourneyFacts.ChangesAreKept` | `internal/raptor/engine.go:311-318` | Each leg of a journey in the answer starts where and not before the one before it ends, and a vehicle boarded straight off another leaves at least the minimum transfer time later |
| `JourneyFacts.VehiclesAreLimited` | `internal/model/types.go:110-119` | A journey in the answer boards at most the number of vehicles asked for, four unless asked and never more than eight, and reports one change fewer than vehicles |
| `JourneyFacts.OneLegCounts` | `internal/raptor/engine.go:635-642` | A vehicle counts one and walks nothing; a walk counts none and takes what its footpath says |
| `JourneyFacts.CountsAdd` | `internal/raptor/engine.go:635-642` | Vehicles and walking time of two stretches add up |
| `JourneyFacts.TimesAreRight` | `internal/raptor/engine.go:645-658` | The departure asked for, the wait and the total time add up to the arrival, and the walking time reported is between nothing and the total |
| `JourneyFacts.CheckIsExact` | `internal/raptor/validator.go:29-64` | The path check lets through exactly the legs that start and end where asked, join up, name their trips and move forwards in time |
| `Journeys.ItinerariesPass` | `internal/raptor/validator.go:29-64` | A real itinerary is never rejected by the path check |
| `Fingerprints.FingerprintIdentifies` | `internal/raptor/engine.go:693-706` | With no separator in any identifier, equal fingerprints mean the same legs up to dates and times |
| `Fingerprints.IdentifiesWithoutSeparators` | `internal/raptor/engine.go:693-706` | Over arbitrary legs, a fingerprint identifies them up to dates and times if and only if identifiers may contain none of the three separators; each one alone gives two different sequences of legs with one fingerprint |
| `Fingerprints.PrintsGiveKinds` | `internal/raptor/engine.go:676-706` | Connected journeys between the same two stations whose identifiers never use both bars and semicolons, with equal fingerprints, have equally many legs, walks and vehicles at the same places |
| `Collisions.DeduplicationLosesJourney` | `internal/raptor/engine.go:678-690` | A well-formed query with harmless ties whose rounds yield two real journeys, of one and of two vehicles, with one fingerprint: deduplication keeps the slower and drops one that nothing dominates |
| `LostJourney.OnlyTheseAreCollected` | `internal/raptor/engine.go:516-538` | Whatever the rounds of that query yield is exactly these two journeys |
| `LostJourney.SearchLosesJourney` | `internal/raptor/engine.go:540-540` | The whole search, in any order of scanning, returns no journey for it but the one that arrives at 100, although the level of two vehicles arrives at 50 and nothing dominates it |
| `Collisions.SafeSeparators` | `internal/raptor/engine.go:540-540` | Equal fingerprints of itineraries mean equally many vehicles, and deduplication loses nothing the rounds yield, in every query over a set of separators if and only if the set lacks the bar or the semicolon |
| `Frontier.Deduplicate` | `internal/raptor/engine.go:678-690` | Exactly the first journey of each fingerprint survives, in order; a list without repeats is left as it is |
| `Frontier.ParetoFilter` | `internal/raptor/engine.go:663-673` | Over a sorted list one sweep keeps exactly what nothing in the list dominates, one for each pair |
| `Answer.CollectedIsAnswer` | `internal/raptor/engine.go:511-552` | One journey per strictly improving level, sorted and swept, is exactly the set of non-dominated levels |
| `Answer.CollectedAreDistinct` | `internal/raptor/engine.go:540-540` | Journeys collected in different rounds never share a fingerprint, provided no identifier holds a bar or none holds a semicolon |
| `Optimum.LevelsArePossible` | `internal/raptor/reference_test.go:55-134` | Every label of level k is reached by an itinerary with at most k vehicles, over the direct walk graph |
| `Optimum.LevelIsWalkClosed` | `internal/raptor/engine.go:210-219` | One walk pass per round over a closed walk graph leaves nothing a further direct walk could improve |
| `Optimum.NothingBeatsLevels` | `internal/raptor/reference_test.go:55-134` | With no transfer buffer and a closed walk graph no itinerary with at most k vehicles and any number of walks in a row beats level k |
| `Optimum.LevelIsOptimal` | `internal/schedule/buffer.go:386-395` | Level k is the true optimum at every stop: reached by such an itinerary, and beaten by none |
| `Answer.TopIsEarliest` | `internal/raptor/engine.go:549-551` | Keeping the front of the sorted answer leaves out only what comes strictly later than everything kept |
| `Unhurried.LevelKeepsUp` | `internal/raptor/engine.go:311-318` | For every buffer over a closed walk graph: a real journey, with any number of walks in a row, in which every vehicle but the first leaves the minimum transfer time after whatever comes before it, ride or walk, never comes before the level of its number of vehicles |
| `Unhurried.AnswerKeepsUp` | `internal/raptor/engine.go:113-122` | Such a journey within the round limit is matched in the answer by one that arrives no later with no more changes, or the answer was cut short strictly before it |
| `Unhurried.SearchKeepsUp` | `internal/raptor/engine.go:123-236` | The search does so when ties are harmless and no identifier holds a bar, or none holds a semicolon, in whatever order it scans |
| `Buffers.BufferHidesWalk` | `internal/raptor/engine.go:311-318` | For every positive buffer a well-formed query with harmless ties and a closed walk graph in which a vehicle's label hides a walk: a real itinerary of two vehicles reaches the destination at 20, and no level within two vehicles reaches it |
| `Buffers.UnbeatenExactly` | `internal/raptor/engine.go:311-318` | Over all well-formed networks with closed walk graphs, no itinerary comes before the level of its number of vehicles if and only if no buffer is owed |
| `Buffers.SearchFindsNothing` | `internal/raptor/engine.go:311-318` | The whole search, in any order of scanning, returns no journey for that query |
| `TrueFrontier.AnswerIsTrueFrontier` | `internal/raptor/engine.go:113-122` | The full answer is exactly the Pareto frontier over all itineraries within the round limit |
| `EndToEnd.LoadedAnswerIsTrueFrontier` | `internal/schedule/loader.go:15-23` | On a buffer loaded from the rows, with neither walk bound biting and no transfer buffer, the full answer of the levels is the Pareto frontier over all itineraries of the timetable and walk rows |
| `EndToEnd.SearchLoaded` | `internal/raptor/engine.go:123-236` | Loads consecutive rows whose kept trips run forwards, failed walk query included, and searches: every journey returned is real; with neither walk bound biting, no transfer buffer, harmless ties, identifiers without bars or without semicolons, and a query that is not degenerate, exactly the earliest `topK` journeys of the Pareto frontier over all itineraries of the rows; with any buffer it keeps up with every journey that takes its time |
| `WalkQueues.WalkQueue.Push` | `internal/schedule/buffer.go:347-358` | Keeps heap order and adds exactly the one entry |
| `WalkQueues.WalkQueue.Pop` | `internal/schedule/buffer.go:360-384` | Removes exactly one entry, a minimum of all entries, and keeps heap order |
| `WalkQueues.WalkQueue.SiftDown` | `internal/schedule/buffer.go:367-382` | Restores heap order below the root without changing the entries |
| `WalkQueues.RootIsLeast` | `internal/schedule/buffer.go:345-358` | In heap order no entry is nearer than the root |
| `Closure.RelaxEdge` | `internal/schedule/buffer.go:438-446` | Relaxing one edge keeps every distance realised by a walk, records it when nearer and within the cap, and keeps a current queue entry for every unsettled station |
| `Closure.Settle` | `internal/schedule/buffer.go:427-447` | One pop either discards a stale entry or settles a station at its final distance; each turn settles one more of finitely many stations or shortens the queue |
| `Closure.Nearby` | `internal/schedule/buffer.go:419-448` | The bounded search terminates with exactly the stations whose shortest walk is within the cap, each at that walk's time |
| `Closure.ListEdges` | `internal/schedule/buffer.go:450-467` | The complete neighbourhood of a source: every other station within the cap once, with its shortest time, the shortest walk first and equal walks by identifier |
| `Closure.CloseFootpaths` | `internal/schedule/buffer.go:398-475` | Each origin gets edges to other stations within the cap, each once by its shortest walk, ascending in time and among equal times by identifier; a station within the cap is left out only when the limit is reached, by stations whose walks are shorter, or as long with an earlier identifier; origins reaching nothing get no entry |
| `Closure.KeptCount` | `internal/schedule/buffer.go:462-474` | As many edges are kept as there are other stations within the cap, up to the limit |
| `Ordering.LexMeans` | `internal/schedule/buffer.go:462-468` | The order of identifiers: a prefix comes first, and otherwise the text with the smaller character at the first difference |
| `Closure.NoShorterWalk` | `internal/schedule/buffer.go:427-448` | Once every settled station is relaxed, no walk within the cap is shorter than the recorded distance |
| `Closure.UnboundedIsClosure` | `internal/schedule/buffer.go:386-395` | When neither bound bites the output is the full transitive closure with shortest times |
| `Closure.NeighbourhoodsAreMetric` | `internal/schedule/buffer.go:386-395` | Untruncated neighbourhoods are closed and satisfy the triangle inequality up to the cap |
| `WalkGraph.TwoHopsAreOne` | `internal/raptor/engine.go:210-213` | In a closed graph two hops in a row are matched by one hop that takes no longer |
| `Rows.GroupRows` | `internal/schedule/loader.go:55-86` | The row loop yields the trips of the rows by route, and the routes in order of first appearance |
| `Rows.TripsAreTheTable` | `internal/schedule/loader.go:67-80` | When the rows of a trip are consecutive, breaking at key changes recovers the trip table: one trip per key, on its rows' route, with all its stops in order |
| `Loader.KeepServing` | `internal/schedule/loader.go:110-134` | Exactly the trips with the canonical stop sequence are kept, in order; kept and skipped add up |
| `Loader.Staging.IndexTrips` | `internal/schedule/loader.go:176-181` | Extends the trip index to the new route's final positions |
| `Loader.Staging.IndexStops` | `internal/schedule/loader.go:191-194` | Lists the new route at exactly its places, each once and in order |
| `Loader.Staging.AddRoute` | `internal/schedule/loader.go:93-194` | A loaded route holds exactly its serving trips, sorted, with measured order and exact indexes; earlier routes are untouched |
| `Loader.LoadTimetable` | `internal/schedule/loader.go:88-195` | All routes in order, each loaded from its own trips; slots plus skipped trips equals the trips of the rows |
| `Loader.EveryTripOnItsRoute` | `internal/schedule/loader.go:67-74` | Splitting the trips by route loses none and repeats none |
| `TimetableFacts.SlotsSayRows` | `internal/schedule/loader.go:55-181` | From consecutive rows, a loaded slot pulls in, leaves and stops when and where the rows of its trip say, on the route they name |
| `TimetableFacts.SlotsAscend` | `internal/schedule/loader.go:153-163` | Slots of a route ascend by their first departures, those leaving together by date and then by trip identifier |
| `TimetableFacts.KeysFollowSlots` | `internal/schedule/loader.go:176-181` | A route lists the keys of its trips slot by slot |
| `TimetableFacts.RoutesInOrder` | `internal/schedule/loader.go:67-74` | One route comes before another exactly when its first trip does |
| `Loaded.SlotsAreServingTrips` | `internal/schedule/loader.go:96-134` | A slot is in a route if and only if it is the table of a trip of that route which stops where the route's first trip does |
| `Loaded.TripKeptIffItServes` | `internal/schedule/loader.go:107-134` | Every trip belongs to exactly one loaded route and has a slot there if and only if it stops where that route's first trip does |
| `Loaded.TripIndexIsExact` | `internal/schedule/loader.go:176-181` | The index maps a key to a slot if and only if that slot holds the key |
| `Loaded.LoadedKeysUnique` | `internal/schedule/loader.go:176-181` | From consecutive rows no trip is loaded twice |
| `Loaded.WellFormedExactly` | `internal/schedule/loader.go:15-23` | A loaded buffer meets everything the search assumes if and only if every trip that has a slot runs forwards and nothing on it is nameless |
| `Ingestion.ValidateBatch` | `internal/schedule/ingestion.go:23-59` | Accepts a batch exactly when keys are distinct and every trip has stops, non-negative arrivals not after their departures, and strictly increasing departures; every complaint is true of the batch |
| `Ingestion.SoundExactly` | `internal/schedule/ingestion.go:36-56` | A sound trip stops somewhere, never pulls in before zero or after it leaves, and leaves every stop strictly later than all stops before it |
| `Ingestion.AcceptedExactly` | `internal/schedule/ingestion.go:23-59` | A batch is accepted if and only if no two trips share a key and every trip is sound |
| `Ingestion.AcceptedRunsForward` | `internal/schedule/ingestion.go:51-56` | An accepted trip never arrives before an earlier departure if and only if no stop is reached before the previous one is left |
| `Ingestion.AcceptedCanRunBackwards` | `internal/schedule/ingestion.go:51-56` | An accepted trip that arrives at its second stop before it leaves the first |
| `WalkRows.LoadFootpaths` | `internal/schedule/loader.go:218-253` | The direct graph of the walk rows read, one edge per usable row; a query that fails, at once or after some rows, leaves the graph of the rows before it failed: an edge is in it if and only if a row before the failure has it, takes time and leads elsewhere |
| `WalkRows.DirectWalksAreRows` | `internal/schedule/loader.go:239-249` | Edges are exactly the rows with positive time between different stations |
| `Reload.Load` | `internal/schedule/loader.go:24-195` | The buffer holds what the rows say: timetable loaded, walks closed, every derived field right, the walks being those read before the walk query failed if it did; every trip has a slot or is counted as skipped |
| `Manifest.ManifestBytes` | `internal/schedule/buffer.go:143-200` | The nested writing loops produce the encoding of the buffer's content in stored order, walk origins sorted |
| `Manifest.ManifestIdentifies` | `internal/schedule/buffer.go:143-200` | Two loader-built buffers have the same manifest if and only if they are the same buffer, derived fields included |
| `Manifest.ContentReadsBack` | `internal/schedule/buffer.go:143-200` | Equal bytes determine routes, stop sequences, trips, times and footpaths |
| `Manifest.SameContentSameBuffer` | `internal/schedule/loader.go:166-190` | The order flags, the stop index, the trip index and the trip keys are determined by routes and times |
| `Encoding.BigEndianValue` | `internal/schedule/buffer.go:146-149` | The bytes written for an integer, read most significant first, are that integer |
| `Encoding.IntReads` | `internal/schedule/buffer.go:146-149` | An eight-byte integer reads back from the front of any bytes |
| `Encoding.StrReads` | `internal/schedule/buffer.go:150-153` | A length-prefixed string reads back from the front of any bytes |
| `Encoding.ListReads` | `internal/schedule/buffer.go:162-178` | A counted list of readable elements reads back from the front of any bytes |
| `Reload.ScheduleStore.Publish` | `internal/schedule/buffer.go:123-134` | On buffers within machine sizes a swap is skipped if and only if the staged buffer equals the live one, so skipping hides nothing |
| `Sizes.LoadedFits` | `internal/schedule/buffer.go:143-200` | A buffer loaded from rows and options within machine sizes is itself within them, walk sums capped included |
| `Reload.ScheduleStore.ReloadRouteArrays` | `internal/schedule/loader.go:24-210` | After any reload of machine-sized rows, published or skipped and with the walk query failing or not, the live buffer holds what the rows read say, and a swap happens if and only if nothing was published yet or the buffer differs; when the timetable cannot be read nothing changes |
| `Overlap.SettlesExactly` | `internal/schedule/loader.go:201-207` | However reloads called from several goroutines overlap, a schedule of records and swaps that leaves nothing pending ends with the recorded content live, whatever effective contents were loaded, if and only if its last swap takes the last recorded buffer |
| `Overlap.InOrderSwapsSettle` | `internal/schedule/loader.go:201-207` | A discipline that is enough, repeated contents included: buffers swapped in in the order their content was recorded |
| `Overlap.OvertakenSwapSticks` | `internal/schedule/loader.go:201-207` | The shortest schedule that goes wrong: a reload overtaken between recording and swapping leaves the older buffer live, and reloading the newer content is then skipped |
| `Reload.LoadedBufferServesSearch` | `internal/schedule/loader.go:15-23` | A buffer loaded from consecutive rows whose kept trips run forwards is well formed for the search, has unique keys, and its walk graph is the full closure when neither bound bites |
| `SeatSync.StepKeeps` | `internal/seat/refresher.go:114-149` | Every step of either side keeps the invariant: for every promised trip the published counts equal Redis or an entry past the cursor names it |
| `SeatSync.AtHeadPublishedIsRedis` | `internal/seat/refresher.go:203-301` | In every interleaving from boot, whenever the cursor is at the head the published counts equal Redis for the trips the syncer answers for: those of the last published cold start or of a batch since, less those named only by entries trimmed unread |
| `SeatSync.NoChangeIsLost` | `internal/seat/refresher.go:203-301` | After a cold start publishes, through any run without a new cold start and with answered lag checks on a cursor that has left "0" before anything was trimmed, the counts of every tracked trip equal Redis whenever the cursor is at the head |
| `Progress.CheckResyncsExactly` | `internal/seat/refresher.go:329-336` | An answered check begins a cold start if and only if the cursor has left "0" and the entry it stands on has itself been trimmed; otherwise, and whenever it is not answered, the batch is applied as read |
| `Progress.NeverResyncs` | `internal/seat/refresher.go:249-301` | While nothing more is trimmed and checks are answered, a loop that has missed nothing never resynchronises, whatever the gates write and whichever reads fail |
| `Progress.ReachesHead` | `internal/seat/refresher.go:249-301` | From any idle moment at which nothing has been missed, for all batch and chunk sizes, the loop reaches the head of the stream without a cold start, and there the published counts equal Redis for every trip that was right and every trip named on the way |
| `Progress.ColdStartCopies` | `internal/seat/refresher.go:117-149` | A cold start left alone publishes exactly what Redis holds for the trips it lists and reads on from where the stream ended when it began |
| `SeatSync.LagCheckIsExact` | `internal/seat/refresher.go:329-336` | A batch is let through past entries trimmed unread if and only if the check could not ask the server or the cursor is still "0" |
| `LostTrips.StepRight` | `internal/seat/refresher.go:114-301` | For every step of either side, exactly when a trip is right afterwards (counts equal to Redis, or an entry past the cursor naming it): what beginning or publishing a cold start, a gate write and a batch past trimmed entries make or lose |
| `LostTrips.AtHeadExactly` | `internal/seat/refresher.go:203-301` | In every interleaving from boot, at the head of the stream, a trip's published counts equal Redis if and only if the trip came through the steps of the run right |
| `LostTrips.FailedColdStartLosesExactly` | `internal/seat/refresher.go:117-134` | From the capture of a cold start that never publishes, with no new cold start and watchful lag checks, a trip is wrong with nothing left to read that would correct it if and only if its published counts differed from Redis at the capture and no entry past the captured cursor names it |
| `SeatSync.FailedColdStartLosesChange` | `internal/seat/refresher.go:117-134` | A reachable state in which a cold start failed after moving the cursor and a published count stays wrong with the cursor at the head |
| `SeatSync.BlindCursorLosesChange` | `internal/seat/refresher.go:334-335` | A reachable state in which entries were trimmed while the cursor was "0" and a tracked trip stays missing |
| `SeatSync.UnansweredCheckLosesChange` | `internal/seat/refresher.go:330-333` | A reachable state in which a failed lag check let trimmed entries go unnoticed |
| `SeatSync.GateStoresLatest` | `internal/seat/lua/seat_gate.lua:14-25` | After a gate write Redis holds the polled counts, other trips are untouched, and the stream grew exactly when the counts differ from those recorded, provided no class name of either map holds both a colon and a comma |
| `SeatSync.GateIsIdempotent` | `internal/seat/lua/seat_gate.lua:14-25` | Writing the same counts again changes nothing, the stream included |
| `SeatSync.ChunkUpToDate` | `internal/seat/refresher.go:349-412` | After each chunk all trips read so far are up to date, whatever was written between chunks |
| `SeatSync.DirtyNames` | `internal/seat/refresher.go:249-271` | The dirty trips of a batch are exactly those its parseable entries name |
| `SeatSync.DirtyOnce` | `internal/seat/refresher.go:249-271` | No trip of a batch is fetched twice |
| `StreamIDs.ComparesIdentifiers` | `internal/seat/refresher.go:419-434` | Comparing identifier texts compares millisecond and sequence numerically; "0" precedes all |
| `StreamIDs.PositionsStandForIdentifiers` | `internal/seat/refresher.go:329-336` | On increasing identifiers the comparison is the comparison of stream positions |
| `SeatKeys.ParseSeatTripDate` | `internal/model/types.go:242-254` | The backward scan computes the split at the last colon |
| `SeatKeys.ParsesToWhatItNames` | `internal/model/types.go:228-254` | A text parses to a key if and only if it is that key's text with a non-empty trip and a valid date, colons in the trip included |
| `SeatKeys.CanonicalText` | `internal/seat/luagate.go:72-85` | The text hashed is the sorted class list, whatever order the map is ranged over in |
| `SeatKeys.CanonicalIdentifies` | `internal/seat/luagate.go:72-85` | Two seat maps none of whose class names holds both a colon and a comma have the same canonical text if and only if they are equal |
| `SeatKeys.SafeMarks` | `internal/seat/luagate.go:72-85` | Over all seat maps whose class names use only the given marks, the text identifies the map if and only if the marks are not both the colon and the comma |
| `SeatKeys.SeparatorsConfuse` | `internal/seat/luagate.go:80-82` | Two different seat maps that share a canonical text, one of them with a class name holding both marks |
| `Breaker.CircuitBreaker.Allow` | `internal/breaker/breaker.go:64-85` | Admits and changes state exactly as specified, and keeps the state sound |
| `Breaker.CircuitBreaker.Failure` | `internal/breaker/breaker.go:99-114` | Reopens from half-open, counts otherwise, and trips at the threshold |
| `Breaker.CircuitBreaker.State` | `internal/breaker/breaker.go:118-125` | What is shown agrees with what asking would do |
| `Breaker.AlwaysSound` | `internal/breaker/breaker.go:64-114` | After every sequence of calls: closed if and only if failures are below the threshold, half-open if and only if a probe is marked |
| `Breaker.TripsAtThreshold` | `internal/breaker/breaker.go:99-114` | Without a success it is closed if and only if the failures counted, late reports included, are below the threshold |
| `BreakerHistory.HistoryDecides` | `internal/breaker/breaker.go:64-114` | Over every history of calls: a call is admitted if and only if fewer than the threshold of failures were reported since the last success, or a cooldown has passed since the last of them and nobody has asked after that cooldown yet |
| `BreakerHistory.SuccessStartsAfresh` | `internal/breaker/breaker.go:88-94` | Whatever came before, after a success and calls without one the breaker is closed if and only if the failures among those calls are below the threshold |
| `Breaker.EachCostsACooldown` | `internal/breaker/breaker.go:64-114` | While tripped, admissions times the cooldown fit in the time since the last opening |
| `Breaker.AdmissionsApart` | `internal/breaker/breaker.go:64-114` | While tripped, two admissions with no success between them are at least a cooldown apart |
| `Breaker.FewGetThrough` | `internal/breaker/breaker.go:64-114` | While tripped and without a success at most span / cooldown + 1 calls get through in any span |
| `Breaker.ProbeStaysInFlight` | `internal/raptor/validator.go:163-200` | When every admitted caller reports exactly once, a half-open breaker always has its probe in flight |
| `Breaker.NeverWedged` | `internal/raptor/validator.go:163-200` | Then, with nobody in flight, asking a cooldown after the last opening is always answered yes |
| `Breaker.UnreportedProbeWedges` | `internal/breaker/breaker.go:76-84` | Waiting for its probe the breaker refuses every call and keeps its state if and only if nobody reports: an unreported probe wedges it exactly until the first report, late or from another caller |
| `Validator.SeatValidator.Validate` | `internal/raptor/validator.go:140-225` | An order-preserving selection of the candidates for every history of read failures and breaker states; the result and the breaker are fixed by the answers to the chunks this call reads, one report when and only when it was admitted; in strict mode some listing of this call's keys was read in which every leg the validator looks up was seen with enough seats |
| `StrictAnswers.MarkedRideIsUnread` | `internal/raptor/validator.go:146-159` | A candidate made of one ride on a route named "WALK" is returned in strict mode by every server, breaker and limit without a read |
| `StrictAnswers.StrictSeesExactly` | `internal/raptor/validator.go:146-223` | For every set of candidates: every ride of every strict answer was seen with its seats, for all servers, breaker conditions and limits, if and only if each ride of each candidate has the seat key of a leg of that candidate that is looked up |
| `StrictAnswers.SeenShowsSeats` | `internal/raptor/validator.go:211-212` | To be seen is for the map read to show at least that many seats of the class, a class not listed having none |
| `StrictAnswers.LookedUpExactly` | `internal/raptor/validator.go:149-151` | For a journey that boards no trip twice that condition is that no ride is on a route named "WALK" |
| `StrictAnswers.UnmarkedRowsKeepPromise` | `internal/schedule/loader.go:55-86` | When no timetable row names its route "WALK", strict answers about real itineraries of the loaded buffer are seen ride by ride |
| `Validator.ReadSeats` | `internal/raptor/validator.go:175-199` | Chunk by chunk every key is cached as its own chunk was answered; it gives up exactly when a chunk of this call fails |
| `Validator.AdmittedCallReports` | `internal/raptor/validator.go:163-200` | An admitted call leaves no probe waiting: with every chunk answered the breaker is closed and counts no failures; with none answered it is open from this failure, unless it was closed and stays below the threshold |
| `Validator.SteadyServerIsExact` | `internal/raptor/validator.go:175-223` | On a server that keeps answering the same seats the result is exactly the first passing candidates up to the limit, whatever the chunk size and key order |
| `Validator.ValidatedAnswers` | `internal/raptor/validator.go:202-224` | Candidates that survive are a selection of the input, and each leg that is looked up was seen with enough seats in the chunk its key was read in |
| `Validator.UnvalidatedAnswers` | `internal/raptor/validator.go:228-246` | Without validation strict mode returns nothing, and lenient mode the candidates from the front, as many as the limit allows; walk-only candidates need no confirmation |
| `Validator.KeepPassing` | `internal/raptor/validator.go:202-224` | Stopping at the limit returns the same as filtering all candidates and truncating |

## Left out

- RaptorSearch: with harmful ties, or with bars and semicolons in identifiers, the answer is shown to be real, not how far from optimal it is; that both conditions matter is shown by queries whose scan is misled and whose deduplication loses a journey.
- UnmarkedRowsKeepPromise: a check on the rows that is enough, not needed; a row named like the walk marker may belong to a trip that no candidate rides.
- Integer overflow: times and walk sums are unbounded integers, and the "infinity" sentinels become an absent value. Only the manifest models the 64-bit words it writes.
- Context cancellation, sleeping, backoff and the resync throttle: a step that waits is a step not yet taken.
- Calendar arithmetic: the allowed dates of a query, and the valid dates of a seat key, are given sets.
- Bounds guards against inconsistent buffers: the theorems assume, and the loader establishes, a consistent one.
- RelaxFootpaths: returns the stops it reached and leaves adding them to the caller's set to the caller, instead of writing into a shared set.
- Slices and maps the router, the loader and the refresher mutate are value-typed fields reassigned in place; sharing of backing storage between Go slices is not modelled. The row loop's pointer to the current trip is the last trip of the current route.
- Sorting: the library sort is an insertion sort function; only its ordered rearrangement is used.
- SHA-256 and hexadecimal digits: the digest is taken to be injective and its input stands for it.
- The seat refresher's two loops are steps of a state machine rather than methods, because gate writes and trims interleave between them; timestamps, staleness, totals and unparseable seat maps are left out, Redis never evicts a key, and trimming, which keeps the newest entries, never empties the stream.
- The schedule seeder, which writes seat maps without the gate at boot, and the pollers that call the gate.
- SplitStreamID: signs and values beyond 64 bits in a stream identifier are not modelled, since the server never prints them.
- TripDeparture, buffer statistics, health output, HTTP handlers, configuration, migrations, queue and provider code: plumbing with no deep invariant.
- The journey fields shown to clients but not used by the search, such as seat totals.
