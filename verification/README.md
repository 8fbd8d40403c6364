# Maiter-P, verified

Maiter-P computes on graphs asynchronously. Every vertex has a value `v` and a pending
`delta`. A worker locks a vertex, folds `delta` into `v`, computes messages from `delta`,
resets it, unlocks, and delivers the messages one at a time under the locks of their
targets. Any number of workers interleave freely inside a round; a schedule thread starts
rounds; the main thread scans the values and decides when to stop. The state lives in a
hash table.

The project models these parts and proves what they guarantee for every graph, every
number of workers and every interleaving. `dafny verify dfyconfig.toml` checks everything.

## How the files fit together

* `Vectors`, `Kernels`: totals and the L1 norm; the user-supplied operations of a
  computation as a value `Kernel<V>`, with PageRank, Katz, Adsorption and shortest path as
  instances. Their `g_func` loops are methods.
* `Atomic`: the specification. A vertex is absorbed in one indivisible step; messages are
  delivered one at a time.
* `Update`: `run_iter` as a small-step program over a table, a lock-owner map and worker
  program counters. `Update.StepRefines` says that each step is an atomic absorb, an atomic
  delivery, or invisible; every result about runs goes through it.
* `Progress`: every schedule of the workers' part of a round takes the same number of steps.
* `Linear`, `Solutions`, `Convergence`, `PositiveRuns`, `PageRankRuns`, `KatzAdsorption`,
  `Equations`: kernels that accumulate with `+` and send `coef * delta`. The residual equation,
  conservation of mass, contraction by a pass, error bounds, the existence of the solution they
  refer to, the equation it solves edge by edge, and what non-negative coefficients add.
* `Walks`, `MinPlus`, `ShortestPathRuns`: the kernel that accumulates with `min` and sends
  `delta + weight`. Soundness, the edge invariant, exactness.
* `TermCheck`, `TermCheckSoundness`, `PageRankStopping`, `PathStopping`: `TermCheckers::Diff`,
  and what it proves although its scans take no locks.
* `Rounds`, `RoundLoop`, `Wakeups`: the protocol between the schedule thread and the workers,
  how the schedule thread goes round and leaves, and when its wait ends.
* `System`, `Projection`, `RankSystem`, `PathSystem`, `FullRuns`, `Plans`, `EndToEnd`: the
  protocol and the update program together, the run of the update program inside every run of
  the engine, the end-to-end results, and that every plan of rounds can be carried out.
* `Buckets`, `Ledger`, `StateTable`, `Loading`: linear probing, the table as a map, the
  class with its methods, and the initialisation phase.
* `Intervals`, `Iterators`, `Scheduler`, `Skipping`: the split of a table among the workers,
  the vertices a round runs, priority scheduling, and scheduled rounds on loaded tables.
* `RunIter`, `TableRuns`, `Scans`: `run_iter` on the hash table itself, alone and interleaved;
  scans in bucket order and the final dump.

## Modelling decisions

* Numbers are mathematical reals. `imax` in shortest path is a top element: `imax` plus a
  weight is `imax`, `imax - imax` is 0, `imax` minus a finite value is above 0.
* A graph is a sequence of adjacency rows, so vertices are numbered 0, 1, ..., as the lock
  array requires, and parallel edges count separately. It is closed: a message to a missing
  key is fatal in the code.
* Katz's beta, Adsorption's damping and its number of labelled vertices are parameters. In
  the code `katz_beta` is read as a whole number (see `KatzAdsorption.WholeBetaContracts`),
  and nothing sets `adsorption_damping` and `adsorption_starts`.
* One table operation is one step of `Update`. The rows a worker touches are locked by it
  (`Update.StepWritesOnlyHeld`), and the operations used after initialisation leave every
  key in its bucket, so concurrent probes do not disturb each other: along every interleaved
  run the buckets hold the state of the update program, each key where it was loaded
  (`TableRuns.TableStoresRun`).
* Mutexes, condition variables and the barrier are state with their specified effects;
  there are no spurious wakeups.
* A fatal log message is a `None` or `false` result; for a round of workers it ends the
  program, so `Iterators.Round` is then `None`.
* The random sample of the priority scheduler, already sorted, is a parameter.

## Where the code falls short of its design

Each of these is proved, with the exact condition under which the design does hold. (For the
plain error of a stop on a graph with dangling vertices the condition is two bounds, a factor
of five apart; for the error weighed as below it is exact.)

* `put` into an exactly full table replaces the entry at the key's home bucket
  (`Ledger.PutRefinesUpdate`). Growth is tested against the counter, which then runs one
  ahead, so all later overflows grow and at most one key is ever lost (`Ledger.LoadOutcome`).
  `resize` to fewer buckets than entries loses exactly one entry
  (`StateTable.StateTable.Resize`).
* The scheduled iterator asks whether bucket `pos` is in use instead of bucket
  `scheduled_pos[pos]`, and a round with fewer positions than workers ends the program. A
  round completes and runs everything it scheduled if and only if at least as many positions
  as workers are scheduled, and as many of the first buckets of the table are in use as were
  scheduled (`Iterators.ScheduledRunsAll`). When keys hash to themselves the buckets in use are
  the keys, so vertices 0, 1, ... that all fit are never skipped (`Skipping.NumberedFromZero`);
  a table that overflowed while loading and lost vertex 0 skips the first vertex of every
  schedule (`Skipping.LoadThree`).
* An iterator with fewer positions than workers gives some worker the end -1, which is
  taken for a missing thread (`Intervals.EndLooksMissing`, `Iterators.RoundRuns`). A full pass
  is safe from this because loading admits no more workers than vertices
  (`Iterators.FullPassIsFull`).
* The schedule thread can miss the broadcast it is about to wait for (`Rounds.LostWakeup`),
  in every round (`Wakeups.EveryRoundCanBeLost`). Its wait is released, on every way the run
  can go on, if and only if some worker has not yet broadcast when the wait begins
  (`Wakeups.DecidedWhenWaitBegins`). Such a wait and the intended end are the only states
  where nothing can move (`Rounds.StuckExactly`). No worker ever leaves its loop
  (`Rounds.WorkersNeverExit`).
* Two scans with no pass between them can stop the computation with threshold 0 and a rank
  that is off by 1 (`PageRankStopping.StalledScansStopTooEarly`). Call missing what the ranks,
  those at dangling vertices counted five times, lack of N. Whatever happened between the scans,
  on every graph, what is missing is exactly the error with its part at dangling vertices
  counted five times (`PageRankStopping.MissingIsError`). So that error is within 4 times the
  threshold if and only if at most 4 times the threshold is missing; the plain error lies
  between a fifth of what is missing and all of it, and is all of it without dangling vertices
  (`PageRankStopping.StopIsRightExactly`). A scan that itself misses at most epsilon certifies
  the error (`PageRankStopping.ScanCertifies`), and succeeds once a fifth of epsilon bounds the
  error at its start (`PageRankStopping.ScanBracketsError`).
* On shortest path the check can stop after the first pass, at any threshold, with a reachable
  vertex still at `imax`: values at `imax` are not counted and the source counts as 0
  (`PathStopping.SourceCountsAsNothing`). Two scans around a pass whose totals are equal certify
  exact distances if no vertex is counted by the second only
  (`PathStopping.EqualScansCertify`), and if no value moved during the first scan, only exact
  tables pass that test and all do (`PathStopping.EqualScansExactly`).
* A whole-number `katz_beta` contracts only if it is 0 or the graph has no edges
  (`KatzAdsorption.WholeBetaContracts`).

## Model

| member | source | states |
|---|---|---|
| `Kernels.PageRankGFunc` | src/examples/pagerank.cpp:71-81 | appends one message per out-edge, in order, with `delta * 0.8 / out-degree` to the target of that edge, and keeps what the buffer held; no division for a dangling vertex |
| `Kernels.KatzGFunc` | src/examples/katz.cpp:72-78 | appends one message of `beta * delta` per out-edge, in order, and keeps what the buffer held |
| `Kernels.AdsorptionGFunc` | src/examples/adsorption.cpp:82-88 | appends one message of `delta * damping * weight` per out-edge, in order, and keeps what the buffer held |
| `Kernels.ShortestPathGFunc` | src/examples/shortestpath.cpp:79-85 | appends one message of `delta + weight` per out-edge, in order, and keeps what the buffer held; unreached stays unreached |
| `Kernels.OutgoingShape` | src/kernel/table.h:57-60 | the messages of a row are as many as its edges, and the p-th goes along the p-th edge |
| `Kernels.ZeroPriorityMeansSettled` | src/examples/shortestpath.cpp:75-77 | a priority of 0 says exactly that the delta cannot improve the value, also when both are `imax` |
| `Kernels.PriorityIsGain` | src/examples/shortestpath.cpp:75-77 | the priority is the value less the delta, when both are finite and the delta is smaller, and otherwise 0, or `imax` for an unreached vertex with a finite delta; it is never below the literal 0 |
| `Kernels.SmallerDeltaComesFirst` | src/examples/shortestpath.cpp:75-77 | of two vertices with equal values the one with the smaller delta has no smaller priority |
| `Kernels.AccumulateIsMinimum` | src/examples/shortestpath.cpp:71-73 | accumulate is the minimum, with `imax` above every finite value |
| `Kernels.LinearPriorityIsDelta` | src/examples/pagerank.cpp:63-69 | for PageRank, Katz and Adsorption accumulate adds, and the priority is the delta, whatever the value |
| `Kernels.RowOperations` | src/kernel/statetable.h:796-857 | which operations compute the cached priority, which store the literal 0, and which leave it alone |
| `Kernels.AllKernelsAreQuiet` | src/kernel/statetable.h:804-805 | for all shipped kernels the literal 0 stored by updateF1 is the priority of a reset delta, so not calling `priority` there is harmless |
| `Update.StepInv` | src/kernel/kernel.h:191-211 | every step of every worker keeps buffers, lock ownership and cached priorities consistent |
| `Update.Exclusive` | src/kernel/vertexlock-manager.h:54-62 | no two workers are inside critical sections of the same vertex |
| `Update.StepWritesOnlyHeld` | src/kernel/kernel.h:192-208 | a step changes only the row whose mutex its worker holds |
| `Update.StepLocks` | src/kernel/vertexlock-manager.h:54-62 | the owner map stays exactly the record of who is in which critical section |
| `Update.StepPriorities` | src/kernel/statetable.h:797-857 | outside the window between accumulateF2 and updateF1 of its owner, a row's stored priority is the one recomputed from scratch |
| `Update.StepRefines` | src/kernel/kernel.h:191-211 | each step of the locked program is an atomic absorb-and-emit, an atomic delivery, or leaves the atomic state alone; no delta is lost between g_func and the reset |
| `Update.WaitsForARunner` | src/kernel/kernel.h:192-209 | a worker blocked on a mutex is blocked by a worker that can move: nobody holds one vertex while asking for another |
| `Update.NoDeadlock` | src/kernel/kernel.h:192-209 | while some worker has work left, some worker can move |
| `Progress.StepUsesOne` | src/kernel/kernel.h:191-211 | every step of a worker uses up exactly one of the steps left: six for a vertex and three for each of its messages |
| `Progress.EveryScheduleFinishes` | src/kernel/kernel.h:250-257 | every schedule of assigned work has the same length, can go on until then, and ends with every worker finished |
| `Update.RunInv` | src/kernel/kernel.h:191-211 | the invariant holds at every moment of every run |
| `Update.RestIsAtomic` | src/kernel/statetable.h:797-857 | when no worker is inside run_iter nothing is in flight, the table is the atomic state, and every cached priority is current |
| `Linear.OutgoingMass` | src/examples/pagerank.cpp:71-81 | the messages of a vertex weigh exactly its row weight times what it absorbed |
| `Linear.ResidualStep` | src/kernel/kernel.h:191-211 | an absorb or a delivery keeps `v_j + delta_j + inflight_j = b_j + sum_i coef(i,j) v_i` at every vertex |
| `Linear.MassStep` | src/kernel/kernel.h:191-211 | under a kernel whose rows pass on at most the fraction c <= 1, pending mass never grows |
| `Linear.PotentialStep` | src/kernel/kernel.h:250-257 | with vertices not yet absorbed weighed by c, no step raises the weighed mass |
| `Linear.StatesAreClose` | src/kernel/kernel.h:191-211 | two balanced states of the same problem differ by at most the sum of their pending masses over 1 - c |
| `Linear.ErrorBound` | src/kernel/kernel.h:191-211 | a balanced state is within its pending mass over 1 - c of any exact solution |
| `Convergence.ResidualAlways` | src/kernel/kernel.h:191-211 | the residual equation holds at every moment of every run of any linear kernel |
| `Convergence.ResidualOfTable` | src/kernel/kernel.h:191-211 | the same in stored fields, with the explicit correction for a folded delta that is still stored and messages not yet generated |
| `Convergence.MassNeverGrows` | src/kernel/kernel.h:191-211 | the pending mass of a later moment is at most that of an earlier one |
| `Convergence.PassContracts` | src/kernel/kernel.h:250-257 | a stretch that starts with nothing in flight and folds every vertex, in any order and overlap, leaves at most the fraction c of the mass |
| `Convergence.DistanceToSolution` | src/kernel/kernel.h:191-211 | at every moment the distance to any exact solution is at most the pending mass over 1 - c |
| `Convergence.ScheduleIndependence` | src/kernel/kernel.h:191-211 | states of two runs with different schedules and thread counts are as close as their pending masses allow |
| `Linear.OneSolution` | src/kernel/kernel.h:191-211 | a kernel that contracts by less than 1 has at most one exact solution |
| `Solutions.SolutionExists` | src/kernel/kernel.h:191-211 | and it has one, on every graph and for every start |
| `PositiveRuns.SignsAlways` | src/kernel/kernel.h:191-211 | with non-negative coefficients and start, no value, delta or message is ever negative |
| `PositiveRuns.ValuesGrow` | src/kernel/kernel.h:191-211 | a stored value then never decreases, also as seen by a reader without locks |
| `PositiveRuns.ErrorIsMissingTotal` | src/kernel/kernel.h:191-211 | every value stays at or below the solution, and the error is exactly the total of the solution less the total of the values |
| `PageRankRuns.RowPassesOn` | src/examples/pagerank.cpp:71-81 | a vertex passes on exactly 0.8 of what it absorbs, or nothing when dangling |
| `PageRankRuns.PageRankContracts` | src/examples/pagerank.cpp:71-81 | PageRank contracts by 0.8 on every graph |
| `PageRankRuns.BudgetAlways` | src/examples/pagerank.cpp:55-81 | on every graph, at every moment, 0.2 times the ranks, those at dangling vertices counted five times, plus the pending mass is exactly `0.2 * N`, and nothing is negative |
| `PageRankRuns.BudgetOfRanks` | src/examples/pagerank.cpp:55-81 | the same in the ranks themselves: `0.2 * sum(v)` plus 0.8 times the ranks at dangling vertices plus the pending mass is `0.2 * N` |
| `PageRankRuns.RanksGrow` | src/examples/pagerank.cpp:63-65 | a stored rank never decreases |
| `PageRankRuns.TotalRankBounded` | src/examples/pagerank.cpp:55-81 | the ranks add up to at most N at every moment |
| `PageRankRuns.NeverOvershoots` | src/examples/pagerank.cpp:55-81 | every rank stays at or below that of any exact solution, whatever the schedule |
| `PageRankRuns.DistanceBound` | src/examples/pagerank.cpp:71-81 | the distance to any exact solution is at most five times the pending mass |
| `PageRankRuns.DistanceIsPendingMass` | src/examples/pagerank.cpp:71-81 | on every graph the distance, its part at dangling vertices counted five times, is exactly five times the pending mass, which is at most the distance; without dangling vertices the distance is exactly five times the pending mass |
| `KatzAdsorption.KatzContractsExactly` | src/examples/katz.cpp:72-78 | Katz contracts by c if and only if beta times every out-degree is at most c in magnitude |
| `KatzAdsorption.WholeBetaContracts` | src/examples/katz.cpp:90-90 | for a whole-number beta, as it is read, some c < 1 works if and only if beta is 0 or there are no edges |
| `KatzAdsorption.KatzStartMass` | src/examples/katz.cpp:53-59 | the initial mass is 1000000 if the source is a vertex and 0 otherwise |
| `KatzAdsorption.KatzMassAfterPasses` | src/examples/katz.cpp:53-78 | after r full rounds at most `c^r` of Katz's initial mass is pending |
| `KatzAdsorption.KatzStopIsSound` | src/examples/katz.cpp:53-78 | with beta not negative, a pass between two scans within the threshold bounds Katz's error by c / (1 - c) times the threshold |
| `KatzAdsorption.AdsorptionContractsExactly` | src/examples/adsorption.cpp:82-88 | Adsorption contracts by c if and only if damping times every vertex's total out-weight is at most c in magnitude |
| `KatzAdsorption.AdsorptionMassAfterPasses` | src/examples/adsorption.cpp:62-88 | with out-weights of at most 1 a vertex, r full rounds leave at most `damping^r` of the largest possible initial labels |
| `KatzAdsorption.AdsorptionStopIsSound` | src/examples/adsorption.cpp:62-88 | with weights not negative, a pass between two scans within the threshold bounds Adsorption's error by damping / (1 - damping) times the threshold |
| `Equations.PageRankEquation` | src/examples/pagerank.cpp:55-81 | an exact solution is a vector of ranks each of which is 0.2 plus, for every edge into its vertex, 0.8 times the rank of the edge's source over the source's out-degree |
| `Equations.KatzEquation` | src/examples/katz.cpp:53-78 | for Katz: 1000000 at the source plus, for every edge into the vertex, beta times the value of the edge's source |
| `Equations.AdsorptionEquation` | src/examples/adsorption.cpp:62-88 | for Adsorption: 10 at the labelled vertices plus, for every edge into the vertex, damping times the edge's weight times the value of its source |
| `TermCheck.Diff.EstimateProg` | src/kernel/table.h:105-116 | the scan adds up what `Contributions` lists, missing no bucket: `done()` looks at the next position only and `Next()` skips free buckets |
| `TermCheck.Contributions` | src/kernel/table.h:107-114 | a bucket that is free, or peeked at while at the default, contributes nothing; any other what was then read |
| `TermCheck.Diff.Terminate` | src/kernel/table.h:118-127 | stops exactly when there was an earlier total within the threshold, and only otherwise remembers the new one |
| `TermCheck.TermCheckLoop` | src/kernel/globaltable.h:360-385 | of the scans that the clock and the interval cause, it stops at the first whose total is within the threshold of the scan before, tells the state table exactly then, and stops at no other |
| `TermCheck.ScansWhenDue` | src/kernel/globaltable.h:367-374 | a turn of the loop scans if and only if more than the interval has passed since the end of the latest check, or since the start |
| `TermCheck.TotalsOfScans` | src/kernel/globaltable.h:367-374 | the totals compared are those of the turns that scan, all of them, in order |
| `TermCheckSoundness.EarlyScanUnderestimates` | src/kernel/table.h:105-116 | a scan finished by some moment totals at most the ranks stored then, though it read them at different moments |
| `TermCheckSoundness.LateScanOverestimates` | src/kernel/table.h:105-116 | a scan started after some moment totals at least the ranks stored then |
| `TermCheckSoundness.PassCollectsMass` | src/kernel/kernel.h:250-257 | a full pass moves at least all the mass pending at its start into the ranks |
| `TermCheckSoundness.ScansBoundMass` | src/kernel/table.h:105-127 | two scans around a pass differ by at least the mass that was pending before it |
| `TermCheckSoundness.StoppingIsSound` | src/kernel/table.h:105-127 | for every linear kernel with non-negative coefficients that contracts by c: if a pass fits between two scans that differ by at most the threshold, pending mass is at most c times and the error at most c / (1 - c) times the threshold, from then on |
| `TermCheckSoundness.ScanBoundsError` | src/kernel/table.h:105-116 | a scan by itself bounds the error from its end on: by the total of the solution less its own total |
| `PageRankStopping.PassMakesStopSound` | src/kernel/table.h:105-127 | on PageRank, with a pass between the scans, pending mass is at most 0.8 and the error at most 4 times the threshold, from then on |
| `PageRankStopping.MissingIsError` | src/examples/pagerank.cpp:55-81 | on every graph what the ranks miss of N, those at dangling vertices counted five times, is the error plus four times its part at dangling vertices; so it lies between the error and five times the error, and is the error without dangling vertices |
| `PageRankStopping.ScanMissesEnough` | src/kernel/table.h:105-116 | a scan misses at least what is missing at its end, though it read the ranks at different moments |
| `PageRankStopping.ScanMissesNoMore` | src/kernel/table.h:105-116 | a scan misses at most what was missing at its start |
| `PageRankStopping.ScanCertifies` | src/kernel/table.h:105-127 | a scan that misses at most epsilon of N, its readings at dangling vertices counted five times, certifies an error of at most epsilon from its end on, on every graph and with or without a pass |
| `PageRankStopping.ScanBracketsError` | src/kernel/table.h:105-116 | on every graph what a scan misses lies between the error at its end and five times the error at its start; without dangling vertices once the error at its start |
| `PageRankStopping.StopIsRightExactly` | src/kernel/table.h:118-127 | on every graph the error, counted five times at dangling vertices, is within 4 times the threshold if and only if at most that much of N is missing; for the plain error that much missing is enough, more than five times that much is too much, and without dangling vertices the two coincide; when no rank changed during the scan, what it misses is what is missing |
| `PageRankStopping.StalledScansStopTooEarly` | src/kernel/table.h:118-127 | without a pass the check can stop with threshold 0 at distance 1 |
| `PageRankStopping.RanksAreClose` | src/examples/pagerank.cpp:71-81 | ranks at any two moments of any two runs on the same graph differ by at most five times the sum of their pending masses |
| `PageRankStopping.OnePageRank` | src/examples/pagerank.cpp:71-81 | there is at most one exact solution |
| `PageRankStopping.PageRankExists` | src/examples/pagerank.cpp:71-81 | every graph has an exact solution |
| `PathStopping.PassTakesDeltas` | src/kernel/kernel.h:250-257 | after a full pass every value is at most the delta its vertex had when the pass began |
| `PathStopping.IdlePassIsExact` | src/examples/shortestpath.cpp:71-85 | for any weights a full pass changes no stored value if and only if the table held the exact distances when it began |
| `PathStopping.ExactForever` | src/examples/shortestpath.cpp:71-73 | a table that holds the exact distances never changes its values again |
| `PathStopping.EqualScansCertify` | src/kernel/table.h:105-127 | two scans around a full pass, read without locks, with equal totals and no vertex counted by the second only, certify exact distances from the start of the pass on |
| `PathStopping.EqualScansExactly` | src/kernel/table.h:105-127 | if no value moved during the first scan, such a pair of scans is seen if and only if the distances were exact |
| `PathStopping.SourceCountsAsNothing` | src/kernel/table.h:112-121 | a run with a full pass between two scans of equal totals that leaves a vertex one edge from the source at `imax` |
| `Walks.ShortWalkSuffices` | src/examples/shortestpath.cpp:79-85 | with non-negative weights some walk of fewer than V hops is at least as short as any given walk |
| `MinPlus.GroundedStep` | src/examples/shortestpath.cpp:71-85 | every finite value, delta and message stays the length of a walk from the source |
| `MinPlus.HeldStep` | src/examples/shortestpath.cpp:71-73 | a value of at most x that has arrived at a vertex stays there |
| `MinPlus.EdgesStep` | src/examples/shortestpath.cpp:71-85 | for every edge of weight w from i to j, something of at most `v_i + w` stays at j or on its way |
| `MinPlus.SettledIsExact` | src/examples/shortestpath.cpp:71-85 | with nothing in flight and no delta below its value, every value is the exact distance, whatever the signs of the weights |
| `MinPlus.PassCoverStep` | src/kernel/kernel.h:250-257 | during a pass every step keeps the walks accounted for, with one more hop for vertices already absorbed |
| `MinPlus.HorizonGrows` | src/kernel/kernel.h:250-257 | once every vertex is absorbed and nothing is in flight, the walks accounted for have one hop more |
| `MinPlus.CoveredIsExact` | src/examples/shortestpath.cpp:71-85 | accounting for walks of fewer than V hops is enough for exact distances |
| `ShortestPathRuns.HonestAlways` | src/examples/shortestpath.cpp:60-85 | soundness and the edge invariant hold at every moment of every run |
| `ShortestPathRuns.StoredValuesAreWalks` | src/examples/shortestpath.cpp:60-85 | every finite stored value, read at any moment, is the length of a real walk |
| `ShortestPathRuns.StoredValuesNeverGrow` | src/examples/shortestpath.cpp:71-73 | a stored value never increases |
| `ShortestPathRuns.ZeroPrioritiesMeanExact` | src/examples/shortestpath.cpp:75-77 | if nothing is in flight and every cached priority is 0, every stored value is the exact distance |
| `ShortestPathRuns.PassesExtendHorizon` | src/kernel/kernel.h:250-257 | after r full concurrent passes every value is at most the length of every walk of fewer than r hops |
| `ShortestPathRuns.EnoughPassesAreExact` | src/examples/shortestpath.cpp:71-85 | after V passes every value is the exact distance |
| `Rounds.StepInv` | src/kernel/kernel.h:144-261 | every step of the schedule thread, a worker or the barrier keeps the protocol invariant |
| `Rounds.InvAlways` | src/kernel/kernel.h:144-261 | the invariant holds at every moment of every run, for any number of workers |
| `Rounds.WorkersShareLiveIterator` | src/kernel/kernel.h:234-255 | all workers processing positions hold the current iterator, and it alone is allocated |
| `Rounds.ReplacedOnlyAtRest` | src/kernel/kernel.h:152-175 | the iterator is deleted or replaced only while every worker is past the barrier |
| `Rounds.AtMostOneIterator` | src/kernel/kernel.h:152-175 | at most one iterator is allocated at any time |
| `Rounds.OnlyThisRoundReleases` | src/kernel/kernel.h:168-172 | a broadcast that releases the schedule thread comes after every worker has finished the round it waits for |
| `Rounds.BroadcastReachesAll` | src/kernel/kernel.h:158-167 | when the schedule thread starts a round every worker is waiting to be woken |
| `Rounds.WorkersNeverExit` | src/kernel/kernel.h:177-188 | no worker ever reads NULL; when the schedule thread has exited all workers are parked |
| `Rounds.StuckExactly` | src/kernel/kernel.h:168-172 | a reachable state has no successor if and only if all workers are parked and the schedule thread is done or in its wait |
| `Rounds.LostWakeup` | src/kernel/kernel.h:168-171 | a run in which the schedule thread misses the broadcast and everything stops |
| `RoundLoop.LeavesOnNull` | src/kernel/kernel.h:148-175 | the schedule thread is past its loop only if the latest Obtain returned NULL |
| `RoundLoop.NullIsFinal` | src/kernel/kernel.h:148-175 | after a NULL it never obtains again |
| `RoundLoop.ObtainDecides` | src/kernel/kernel.h:148-175 | everywhere but at the head of the loop the latest Obtain decides: an iterator keeps the thread in the loop, NULL leads out |
| `RoundLoop.TwoStepsToObtain` | src/kernel/kernel.h:168-175 | a released schedule thread reaches the next Obtain in two of its own steps, each possible at once, with every worker resting, whatever the workers do meanwhile |
| `RoundLoop.FiveStepsToWait` | src/kernel/kernel.h:154-171 | with every worker parked five of its own steps start exactly one round and lead to the wait |
| `Wakeups.OneStageAtATime` | src/kernel/kernel.h:229-261 | a round takes a worker through nine stages, one step each; only its own steps, the barrier and the broadcast move it |
| `Wakeups.MissedForever` | src/kernel/kernel.h:168-172 | once every worker has broadcast without being heard, the schedule thread stays at or before its wait for the rest of the run |
| `Wakeups.WaitIsReleasedExactly` | src/kernel/kernel.h:168-172 | the wait is released, within a bounded number of steps on every way the run can go on, if and only if some worker has still to broadcast |
| `Wakeups.DecidedWhenWaitBegins` | src/kernel/kernel.h:168-172 | so the moment the wait begins decides, by who has broadcast then |
| `Wakeups.EveryRoundCanBeLost` | src/kernel/kernel.h:167-171 | from every reachable state between the schedule thread's broadcast and its wait, the workers may all finish first and be missed |
| `System.StepIsTransition` | src/kernel/kernel.h:144-264 | every step of the whole engine is bookkeeping, a wakeup with nothing in flight, a step of run_iter, or the end of a round; a round over all vertices has folded every one |
| `System.RunTransition` | src/kernel/kernel.h:144-264 | the same at every moment of every run |
| `System.TableIsStill` | src/kernel/kernel.h:154-188 | while an iterator is built, and after the schedule thread has exited, no worker holds a position, a mutex or a message |
| `Projection.Project` | src/kernel/kernel.h:213-264 | every run of the engine contains a run of the update program, moment by moment |
| `Projection.PassInside` | src/kernel/kernel.h:250-257 | a pass completed after a moment between rounds is, in the run inside, a stretch from rest that folds every vertex |
| `RankSystem.MassAfterPasses` | src/kernel/kernel.h:250-257 | after r completed full rounds the pending mass is at most `c^r` times the initial mass, at every moment |
| `RankSystem.BalancedAlways` | src/kernel/kernel.h:144-264 | the residual equation holds at every moment of the whole engine, for every linear kernel, contractive or not |
| `RankSystem.CleanExit` | src/kernel/kernel.h:177-188 | for every linear kernel, at exit every worker is parked with an empty buffer and the dumped table satisfies the residual equation without in-flight term |
| `RankSystem.RanksAfterPasses` | src/examples/pagerank.cpp:55-81 | after r completed full rounds the ranks are within `0.8^r * N` of any exact solution |
| `RankSystem.DumpReportsItsError` | src/kernel/kernel.h:376-415 | on every graph the distance of the dumped ranks to the solution lies between the logged total delta and five times it; without dangling vertices it is exactly five times it, and exactly N less the logged total value |
| `RankSystem.StoppedRunIsSound` | src/kernel/table.h:105-127 | end to end: if completed passes grow between the scans by more than the round in progress accounts for, the ranks are within 4 times the threshold from then on, and so when dumped |
| `PathSystem.ExactAfterPasses` | src/examples/shortestpath.cpp:71-85 | once V full rounds are completed the table holds exact distances, and keeps them |
| `PathSystem.ExactWhenPrioritiesVanish` | src/examples/shortestpath.cpp:75-77 | at exit, or while an iterator is built, stored priorities of 0 certify that every value is exact |
| `FullRuns.CountsAlways` | src/kernel/kernel.h:152-175 | with full-pass iterators every completed round counts as a pass |
| `FullRuns.RanksAfterRounds` | src/examples/pagerank.cpp:55-81 | between rounds, after r rounds of full passes, the ranks are within `0.8^r * N` of any exact solution |
| `FullRuns.PathsAfterRounds` | src/examples/shortestpath.cpp:71-85 | between rounds, after V rounds of full passes, the distances are exact |
| `FullRuns.StopAfterRoundIsSound` | src/kernel/table.h:105-127 | with full passes, one round that started after the first scan and was complete at the second makes the stop right within 4 times the threshold |
| `Plans.EveryPlanHappens` | src/kernel/kernel.h:148-255 | for any graph, kernel, number of workers and plan of work lists, some run hands out exactly the iterators of the plan, completes every round, and is back at the head of the loop; another goes on to the end |
| `EndToEnd.AnyNumberOfRounds` | src/kernel/kernel.h:148-186 | for any number of workers and of rounds some run of the protocol completes exactly so many and is back at the head of the loop, and another ends |
| `EndToEnd.SomeFullPlan` | src/kernel/statetable.h:66-124 | there are plans of any number of full passes for any number of workers |
| `EndToEnd.PageRankIsComputed` | src/examples/pagerank.cpp:55-81 | for any plan of r full passes some run ends with ranks within `0.8^r * N` of the exact solution, which exists |
| `EndToEnd.DistancesAreComputed` | src/examples/shortestpath.cpp:60-85 | for any plan of at least V full passes some run ends with the exact distances |
| `Buckets.OneBucketPerKey` | src/kernel/statetable.h:672-689 | gap-free probe chains without earlier copies make keys unique |
| `Buckets.HomeIsRemainder` | src/kernel/statetable.h:668-670 | a probe starts at the remainder of the hash on division by the size |
| `Buckets.ProbeFails` | src/kernel/statetable.h:672-689 | a probe that meets a free bucket, or comes back to its start, has proved the key absent |
| `Buckets.CountIsSize` | src/kernel/statetable.h:575-577 | the buckets in use are as many as the keys of the map |
| `Buckets.InsertFree` | src/kernel/statetable.h:889-895 | filling the first free bucket of a probe keeps every chain |
| `Buckets.Overwrite` | src/kernel/statetable.h:889-895 | on a full table overwriting the home bucket keeps every chain |
| `Ledger.PutKeepsOk` | src/kernel/statetable.h:883-903 | put stores the record and keeps the counter equal to the number of entries or one ahead; once ahead, every key fits |
| `Ledger.PutRefinesUpdate` | src/kernel/statetable.h:883-896 | put is the map update if and only if the key is present, a bucket is free, or the counter is already ahead |
| `Ledger.PutOutcome` | src/kernel/statetable.h:883-903 | put case by case: the record stored with its priority computed from v2 and v1, the keys and values that stay, the counter, and the growth to 1 + 2 size buckets |
| `Ledger.LoadOutcome` | src/kernel/statetable.h:864-904 | whatever is put into an empty table, no record is wrong and at most one key is missing; distinct keys all arrive if and only if there are no more of them than buckets |
| `StateTable.StateTable.constructor` | src/kernel/statetable.h:702-709 | an empty table of the given size, by way of one without buckets |
| `StateTable.StateTable.Clear` | src/kernel/statetable.h:579-584 | empties the table in place, also one without buckets |
| `StateTable.StateTable.BucketForKey` | src/kernel/statetable.h:672-689 | finds the bucket of every key of the map and returns -1 exactly for the others, also on a full table and for any hash function |
| `StateTable.StateTable.GetF1` | src/kernel/statetable.h:751-760 | the delta the map holds for the key, or fatal exactly when it is absent |
| `StateTable.StateTable.GetF2` | src/kernel/statetable.h:762-771 | the value the map holds for the key, or fatal exactly when it is absent |
| `StateTable.StateTable.GetF3` | src/kernel/statetable.h:773-782 | the adjacency row the map holds for the key, or fatal exactly when it is absent |
| `StateTable.StateTable.UpdateF1` | src/kernel/statetable.h:796-808 | replaces one delta, keeps the value and stores the literal 0 as priority, moving no key; a missing key changes nothing |
| `StateTable.StateTable.UpdateF2` | src/kernel/statetable.h:810-819 | replaces one value in the map, moving no key; a missing key changes nothing |
| `StateTable.StateTable.UpdateF3` | src/kernel/statetable.h:821-830 | replaces one adjacency row in the map, moving no key; a missing key changes nothing |
| `StateTable.StateTable.AccumulateF1` | src/kernel/statetable.h:832-845 | accumulates into one delta of the map, keeps the value and computes the priority from the value and the new delta, moving no key |
| `StateTable.StateTable.AccumulateF2` | src/kernel/statetable.h:847-857 | accumulates into one value of the map and keeps delta and priority, moving no key |
| `StateTable.StateTable.FindSlot` | src/kernel/statetable.h:866-880 | put's probe stops at the key, at the first free bucket of its chain, or back at home with every bucket occupied by others |
| `StateTable.StateTable.Put` | src/kernel/statetable.h:864-904 | stores the record with its priority; the map update when the key fits, otherwise the entry at the key's home bucket is replaced; the counter goes up by one for a new key, and the table grows to 1 + 2 size buckets if and only if the key is new and the counter was ahead |
| `StateTable.StateTable.Grow` | src/kernel/statetable.h:884-887 | growing puts the key into a table of 1 + 2 size buckets that keeps every key, and counts it twice |
| `StateTable.StateTable.Resize` | src/kernel/statetable.h:724-744 | all keys survive if and only if they are no more than the new size, with v1, v2, v3 unchanged and priorities recomputed; otherwise exactly one is lost |
| `Loading.ReadFile` | src/kernel/kernel.h:61-83 | puts one row per line with init_v and init_c, and counts the lines |
| `Loading.InitTable` | src/kernel/kernel.h:86-95 | after initialisation the table holds every line of an input with distinct keys if and only if NODES is at least the number of lines, and otherwise misses exactly one |
| `Loading.LoadedIsInitial` | src/kernel/kernel.h:61-83 | a loaded table of the vertices 0, ..., line - 1 is the initial state of the update program |
| `Intervals.Split` | src/kernel/statetable.h:99-116 | writes the interval of each thread and leaves the thread ids alone |
| `Intervals.SplitEvenly` | src/kernel/statetable.h:99-116 | in thread order, from position 0 to the last: all but the last interval hold total / n positions, and each begins where the one before ends |
| `Intervals.LastTakesRest` | src/kernel/statetable.h:112-116 | the last interval holds total / n positions and the remainder |
| `Intervals.Partition` | src/kernel/statetable.h:99-116 | the intervals are disjoint and cover all positions: each lies in exactly one |
| `Intervals.EndLooksMissing` | src/kernel/kernel.h:245-248 | some interval ends in -1 if and only if there are fewer positions than threads; none begins with -1 |
| `Intervals.ThreadBegin` | src/kernel/statetable.h:131-137 | the first position of the interval with the given thread id, or -1 if there is none |
| `Intervals.ThreadEnd` | src/kernel/statetable.h:139-145 | the last position of the interval with the given thread id, or -1 if there is none |
| `Iterators.WorkerRound` | src/kernel/kernel.h:239-255 | a worker runs the in-use positions of its interval in order, and fails exactly when its interval ends in -1 |
| `Iterators.WorkInOrder` | src/kernel/kernel.h:250-255 | what a worker runs earlier is behind an earlier position |
| `Iterators.RoundRuns` | src/kernel/kernel.h:239-255 | a round completes if and only if there are at least as many positions as workers, and then runs a key if and only if it is behind some position whose tested bucket is in use |
| `Iterators.RoundRunsOnce` | src/kernel/kernel.h:250-255 | a completed round runs no key twice, by one worker or by two |
| `Iterators.FullPassIsFull` | src/kernel/statetable.h:66-124 | a full pass over the vertices 0, ..., m - 1 completes if and only if there are no more workers than buckets, so with no more workers than vertices always, and then it is a full round of the engine |
| `Iterators.ScheduledRunsAll` | src/kernel/statetable.h:331-334 | a round completes and runs everything scheduled if and only if there are at least as many scheduled positions as workers and the first buckets of the table, as many as were scheduled, are in use |
| `Iterators.ScheduledCanSkip` | src/kernel/statetable.h:331-334 | for any number of workers, a table with only its first bucket free makes a completed round skip a scheduled vertex |
| `Skipping.UsedAreHomes` | src/kernel/statetable.h:668-689 | when keys hash to themselves and are smaller than the table, the buckets in use are exactly those numbered by the keys, wherever collisions put them |
| `Skipping.ScheduledRunsAllKeys` | src/kernel/statetable.h:331-334 | then a round completes and runs everything scheduled if and only if at least as many positions as workers are scheduled and as many of the smallest numbers are keys |
| `Skipping.NumberedFromZero` | src/kernel/statetable.h:331-334 | on the vertices 0, ..., m - 1 enough positions are all it takes: the wrong bucket test skips nothing |
| `Skipping.NumberedFromOne` | src/kernel/statetable.h:331-334 | on the keys 1, ..., m with a bucket to spare every completed round skips the first scheduled vertex |
| `Skipping.LoadThree` | src/kernel/statetable.h:864-904 | loading three vertices into NODES = 1 ends in such a table |
| `Scheduler.Schedule` | src/kernel/statetable.h:234-297 | lists, in order, the in-use positions that meet the condition of the branch taken |
| `Scheduler.ScheduleIsUsable` | src/kernel/statetable.h:234-297 | the list is strictly increasing and every member is in use |
| `Scheduler.SmallTableIsScheduledWhole` | src/kernel/statetable.h:234-242 | up to 1000 entries every bucket in use is scheduled |
| `Scheduler.ScheduledExactly` | src/kernel/statetable.h:269-296 | above 1000 entries, with cut_index the whole part of 1000 times the portion: scheduled is exactly what is in use, has a delta and reaches the threshold, and unless the cut is 0 or the best sample ties with the threshold, is also different from it |
| `Scheduler.UniformTableIsScheduledWhole` | src/kernel/statetable.h:274-284 | when all priorities are equal and everything has a delta, as in the first round of PageRank, the whole table is scheduled |
| `Scheduler.CutIndex` | src/kernel/statetable.h:269-269 | the cut index is 1000 times the portion, truncated |
| `Scheduler.ScheduleRespectsThreshold` | src/kernel/statetable.h:274-296 | above that, members have a delta and reach the threshold, and everything with a delta strictly above it is a member |
| `Scheduler.CutLimitsSample` | src/kernel/statetable.h:286-295 | in the strict branch only samples in front of the cut index are scheduled |
| `Scheduler.CutCountsSample` | src/kernel/statetable.h:286-295 | so at most cut_index samples are scheduled |
| `Scheduler.TopSampleIsScheduled` | src/kernel/statetable.h:274-296 | the best sample is scheduled if and only if its delta is not the default |
| `RunIter.AbsorbVertex` | src/kernel/kernel.h:192-201 | the table operations between lock and unlock perform one atomic absorb and leave its messages in the buffer |
| `RunIter.RunIter` | src/kernel/kernel.h:191-211 | an uninterrupted run_iter leaves the table in the atomic state after one absorb and all its deliveries |
| `RunIter.RunIterKeepsResidual` | src/kernel/kernel.h:191-211 | from a balanced table with nothing in flight it leads to another such table |
| `TableRuns.StepMirrors` | src/kernel/kernel.h:191-211 | any worker's step, performed as the table operation it calls, keeps the buckets equal to the state and every key in its place |
| `TableRuns.TableStoresRun` | src/kernel/kernel.h:191-211 | at every moment of every interleaved run the buckets hold the state of the update program, probe chains are intact, and each key is where it was loaded |
| `TableRuns.LoadedMirrors` | src/kernel/kernel.h:61-83 | the table filled by the loading phase is where such a run starts |
| `Scans.OrderVisitsOnce` | src/kernel/statetable.h:474-485 | a scan in bucket order visits every vertex exactly once |
| `Scans.ScanOfBuckets` | src/kernel/table.h:105-116 | what the termination check adds up, reading a value twice with workers in between, is the total of a scan that reads every vertex once |
| `Scans.ScanOfPaths` | src/kernel/table.h:105-116 | on shortest path, whatever number stands for `imax`, what the check adds up is the total of the finite values of a scan that reads every vertex once; a bucket at `imax` adds nothing |
| `Scans.EqualChecksCertify` | src/kernel/table.h:105-127 | two checks on the buckets around a full pass, with equal totals and no bucket counted by the second only, certify exact distances |
| `Scans.Next` | src/kernel/statetable.h:474-485 | moves to the next bucket in use, skipping none, or off the end |
| `Scans.Dump` | src/kernel/kernel.h:376-396 | totals the deltas and values of the buckets in use and writes one line for each, in bucket order |
| `Scans.DumpReportsVertices` | src/kernel/kernel.h:389-395 | the totals are those of the vertices whatever the hash order, and there are as many lines as vertices, one for each |

## Left out

- Parsing of input lines, configuration files, output formatting, logging, timers and sleeps: input and output.
- Floating-point rounding and overflow: the results are about the algorithm, over the reals.
- 32- and 64-bit truncation of sizes and positions: tables are assumed to fit their integer types.
- The pthread library: its mutexes, condition variables and barrier are taken to meet their specification, without spurious wakeups.
- Liveness of the whole program: a lost wakeup can stop it. What the schedule thread's wait depends on is proved in `Wakeups`, where run_iter over a worker's positions is one step; that it takes finitely many is `Progress.EveryScheduleFinishes`.
- Weak memory: the unlocked reads of the termination check see the value of some moment of the run.
- The `total_updates` counter, which is not synchronised and only logged.
- Iterators with `bfilter` set: the engine never asks for them.
- The random number generator and `std::sort`: `Scheduler.Schedule` takes the sorted sample.
- Sharding, marshalling, string hashing: not used by the computation; the table's hash function is arbitrary.
- `process_delta_v`, which no shipped algorithm overrides, and `remove`, `accumulateF3` and `get`, which do nothing or repeat the getters.
- TermCheckSoundness.StoppingIsSound: needs a complete pass between the scans, which the code does not check; what holds without one is `PageRankStopping.StopIsRightExactly` and `PageRankStopping.ScanCertifies`; on shortest path, `PathStopping.EqualScansExactly`.
- TermCheck.TermCheckLoop: what the clock shows at each turn of the loop is a parameter, finitely many turns of it.
- RunIter.RunIter: covers a worker that nobody interrupts; interleavings on the hash table are the subject of TableRuns.
