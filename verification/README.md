# Verified models of the simulator's tools

The repository wraps a network simulator in a web lab, a test runner, calibration scripts, a
documentation printer, style tools and a driver program. This project models the parts of them with
the most state, branching or arithmetic, and proves what they are for. `dafny verify dfyconfig.toml`
checks everything; no file depends on anything outside this directory.

- **The web lab's job service** (`JobProtocol`, `JobInvariant`, `JobTheorems`, `JobCauses`, `JobService`). One
  asyncio loop, so the code between two `await`s is one atomic step of a state machine whose events
  carry what the environment decides: identifiers, exit codes, parsed output, the clock, crashes and
  restarts. The class `SimulationService` holds the service's fields; each method is shown to do
  exactly one step. The theorems speak of every interleaving.
- **The weighted least-squares solver** (`LinearAlgebra`, `Elimination`, `LeastSquares`, `TreeFit`).
  Gaussian elimination with partial pivoting over exact reals, for matrices of every size, down to
  the fact that the fitted coefficients are the strict optimum. It gives up exactly when elimination
  reaches a column whose candidate pivots are all below 1e-12 (`Elimination.Refused`). The threshold
  is absolute, so it also refuses some systems that have a unique solution: `SmallRegularSystem`
  runs the solver on one, and `NoPivotNearlySingular` says what every refused system is like.
- **Two graph algorithms.** The recursive walk over the type graph lists all simple paths with
  explicit stacks (`GraphWalk`, `TypeGraph`, `TypeGather`). The load order of the bindings releases
  libraries in rounds (`DependencyOrder`), described on every graph; the recursion ends exactly on
  the closed, acyclic ones.
- **The test runner's worker pool** (`WorkerPool`, `WorkerPoolTheorems`, `TestRunner`). Threads,
  two shared queues, stop tokens and an interrupt, under every schedule. A negative process limit
  (zero means none) starts no worker and leaves the main thread waiting for ever when there are
  jobs, and that is the only way to be stuck (`FinishesIffWorkers`).
- **Configuration text** (`TextLines`, `ConfigText`, `Dictionary`, `RdmaAliases`, `ConfigPrepare`).
  The reader, the renderer and the merging between them, with Python's line breaks and spaces;
  reading what was rendered gives back the merged dictionaries in order.
- **The style fixer** (`StyleLines`, `StyleFixes`, `StyleMeans`, `StyleFixer`, `StyleChecks`). Five line
  checks under formatter guards, with files read in universal-newline mode: what each check finds, and
  that a fixed file passes the check it was fixed for.
- **The form and the simulator** (`FormNative`). Both decide the armed drop threshold, the forced
  link retry and the credit count, one from dictionaries, the other from its arguments and profile;
  the decisions are equal on every command line the web lab builds.
- **The simulator driver** (`Completion`, `TransferLedger`, `RandomTraffic`). The completion protocol
  over the quiet callbacks, the transfer patterns with their overflow guard and byte ledger, and the
  self-scheduling random traffic.
- **The benchmark summary** (`Welford`). The one-pass mean and variance against the two-pass ones.

Where a source method changes an object in place, a class with the same fields does so here and its
contract gives the whole new state through a `Snapshot()`; the lemmas over runs are about the step
functions those contracts name.

## Model

| member | source | states |
|---|---|---|
| JobService.SimulationService.Start | webui/simulation.py:108-122 | Start-up loads the saved records and leaves exactly the state of the protocol's restart step: unfinished records become interrupted and are saved again, finished ones are untouched. |
| JobService.SimulationService.Save | webui/simulation.py:124-128 | The saved record of a job becomes its in-memory one; nothing else changes. |
| JobService.SimulationService.Submit | webui/simulation.py:139-162 | Accepts exactly when the binary exists, fewer than 16 jobs are non-terminal and the catalogue accepts the request; then the new job is queued with the submitted time-out, unstarted and without result, saved as it is, and last in the queue; otherwise nothing changes. |
| JobService.SimulationService.Cancel | webui/simulation.py:164-177 | The code up to its await: a queued job ends at once, a running one becomes cancelling; tells whether the caller is left waiting for the process. |
| JobService.SimulationService.Pop | webui/simulation.py:196-203 | One turn of the worker loop: cancelled jobs are skipped, a queued one starts. |
| JobService.SimulationService.Execute | webui/simulation.py:207-234 | The start of a run up to the process creation; a missing binary ends the job as failed. |
| JobService.SimulationService.SpawnOk | webui/simulation.py:234-237 | The process has been created: if it has already ended the run is concluded at once, otherwise the polling loop begins. |
| JobService.SimulationService.LoopTop | webui/simulation.py:237-249 | The checks of the polling loop, in order: cancel, time-out, log size. |
| JobService.SimulationService.Conclude | webui/simulation.py:254-264 | What the exit code, the cancel flag and the parsed output decide about status and result. |
| JobService.SimulationService.Finish | webui/simulation.py:273-280 | The `finally` block: process and cancel mark are forgotten, the job is finished and saved. |
| JobService.SimulationService.Interrupt | webui/simulation.py:265-270 | Cancelling the worker task at whichever await it is suspended. |
| JobService.SimulationService.CloseFinish | webui/simulation.py:316-320 | Shutdown marks every non-terminal job interrupted and saves it. |
| JobInvariant.StepKeeps | webui/simulation.py:139-280 | Every step of every interleaving (submit, cancel, worker, process exit, close, crash and restart) keeps the service invariant. |
| JobTheorems.AlwaysSafe | webui/simulation.py:139-280 | In every reachable state: at most one job running or cancelling, at most 16 non-terminal, each queued job in the queue exactly once, cancelling implies marked, starts in submission order, finished implies terminal and saved, result present exactly when completed or incomplete and agreeing with it. |
| JobCauses.StatusHasCause | webui/simulation.py:164-320 | Whatever status a job has at the end of a run, it had it at the start, is still queued, or some step of the run was the cause that the status names: completed only by an uncancelled process that ended with code 0 and a complete result, timed out only past its time-out, and so on for every status. |
| JobCauses.StatusExplained | webui/simulation.py:164-320 | In every reachable state a step brings a job into a status exactly when its cause holds, a full log and a passed time-out included; an ended run leaves its exit code, a parsed one its result, and the time-out never changes. |
| JobCauses.SubmittedTimeout | webui/simulation.py:241-243 | A job submitted with a time-out is timed out in no continuation unless some step has seen it running longer than that. |
| JobCauses.CodeIsReal | webui/simulation.py:254-255 | An exit code the service knows is one the process ended with. |
| JobCauses.SavedAt | webui/simulation.py:124-177 | A submission, the start of a run, a cancel that need not wait and the end of a wait leave the record saved as it is in memory. |
| JobCauses.RestartReads | webui/simulation.py:110-110 | Start-up reads 500 records, or all if there are fewer. |
| JobTheorems.FinishedForever | webui/simulation.py:108-128 | A record saved as finished is never changed again by any continuation, restarts after a crash at any point included. |
| JobTheorems.RestartFinishesAll | webui/simulation.py:108-122 | After a restart every loaded job is finished and terminal; one that was unfinished on disk is its record with the status interrupted, and a finished one is unchanged. |
| JobTheorems.CancelQueued | webui/simulation.py:164-170 | A cancel accepted while queued: cancelled for ever, and no process is ever started for the job. |
| JobTheorems.CancelRunning | webui/simulation.py:171-177 | A cancel accepted while running: in no continuation does the job end completed, incomplete or timed out, in memory or on disk. |
| JobTheorems.ProgressDecreases | webui/simulation.py:196-252 | Each step of worker, process and shutdown makes the measure (queue, ticks to the time-out, phase) smaller. |
| JobTheorems.NeverStuck | webui/simulation.py:196-252 | While a job is unfinished some step of the service is possible. |
| JobTheorems.EventuallyFinished | webui/simulation.py:179-205 | Without new submissions a run takes at most a fixed number of service steps, and one that can take no more has finished every job. |
| Elimination.FindPivot | configs/calibration/tree_ns3_sweep.py:151-151 | The first row with the largest absolute value in the column. |
| Elimination.ClearColumn | configs/calibration/tree_ns3_sweep.py:156-160 | The elimination loop keeps the solutions and the value of the system and clears the column below the pivot. |
| Elimination.SwapKeeps | configs/calibration/tree_ns3_sweep.py:154-155 | A row swap keeps the solution set and the triangular part. |
| Elimination.RowOpKeepsSolutions | configs/calibration/tree_ns3_sweep.py:156-160 | Subtracting a multiple of the pivot row keeps the solution set, both ways. |
| Elimination.NoPivotNearlySingular | configs/calibration/tree_ns3_sweep.py:152-153 | When every candidate pivot is below 1e-12, some vector with an entry 1 is mapped below 1e-12 in every row of the original system. |
| Elimination.BackSubstitute | configs/calibration/tree_ns3_sweep.py:161-164 | Solves the triangular system, and the result is its only solution. |
| LeastSquares.BuildNormal | configs/calibration/tree_ns3_sweep.py:142-149 | The accumulated matrix and vector are those of the weighted normal equations. |
| LeastSquares.SolveSquare | configs/calibration/tree_ns3_sweep.py:150-164 | For every size: a returned vector is the unique exact solution; none is returned exactly when elimination reaches a column in which every candidate pivot is below 1e-12, and then the system is nearly singular. |
| LeastSquares.SolveLinear | configs/calibration/tree_ns3_sweep.py:140-164 | A returned vector is the unique solution of the weighted normal equations and, with non-negative weights, has strictly smaller weighted squared error than every other vector; none is returned exactly when elimination of the normal matrix meets a column without a usable pivot. |
| LeastSquares.NormalEquationsMinimise | configs/calibration/tree_ns3_sweep.py:140-141 | A solution of the normal equations minimises the weighted squared error over all vectors; any vector as good solves them too. |
| LeastSquares.MinimisersSolveNormal | configs/calibration/tree_ns3_sweep.py:140-141 | Every minimiser of the weighted squared error solves the normal equations, whatever the weights; with non-negative weights the minimisers are exactly the solutions. |
| LeastSquares.SmallerError | configs/calibration/tree_ns3_sweep.py:140-141 | Where the gradient does not vanish some vector has a smaller error. |
| LeastSquares.ErrorExpansion | configs/calibration/tree_ns3_sweep.py:142-149 | The error at another vector is the error here plus the gradient term and the weighted square of the step. |
| LeastSquares.RefusesSmallRegularSystem | configs/calibration/tree_ns3_sweep.py:152-153 | On one concrete input the normal equations have exactly one solution, and elimination of their matrix stops at the first column. |
| LeastSquares.SmallRegularSystem | configs/calibration/tree_ns3_sweep.py:152-153 | Called on that input the solver returns nothing, although a solution exists. |
| LeastSquares.OneUnknown | configs/calibration/tree_ns3_sweep.py:152-153 | In one unknown a system is refused exactly when its coefficient is below 1e-12 in magnitude. |
| TreeFit.BestCoefficients | configs/calibration/tree_ns3_sweep.py:178-183 | For rows with non-zero times the fitted pair has strictly smaller summed squared relative error than every other pair. |
| TreeFit.FitOriginalModel | configs/calibration/tree_ns3_sweep.py:167-189 | When a fit is returned it is that optimum with its bandwidth and mean error; it gives up exactly when elimination of the normal matrix meets a column without a usable pivot, and raises only on unusable rows or when the best inverse bandwidth is zero. |
| TreeFit.ErrorIsRelative | configs/calibration/tree_ns3_sweep.py:168-180 | The weighted squared error of the solver's samples is the squared relative error of the model times. |
| TreeFit.SameTime | configs/calibration/tree_ns3_sweep.py:192-195 | Predicting with the returned bandwidth gives the time of the linear model. |
| TreeFit.MeanError | configs/calibration/tree_ns3_sweep.py:184-189 | The error loop computes the mean relative error in percent of the predicted times. |
| TreeFit.PercentMeans | configs/calibration/tree_ns3_sweep.py:184-189 | The mean in percent times the number of rows is a hundred times the sum, and a relative error times the time is the difference. |
| TreeFit.UsableMeans | configs/calibration/tree_ns3_sweep.py:178-180 | Usable rows are non-empty, with a GPU count of at least one and a time other than zero. |
| TreeFit.AlphaTable | configs/calibration/tree_ns3_sweep.py:70-76 | The load factor is 1 up to two GPUs, 2 up to four, and 3 above. |
| TreeFit.StepsTable | configs/calibration/tree_ns3_sweep.py:79-80 | The steps are twice the floor of the binary logarithm, at least two. |
| TreeFit.StartupTable | configs/calibration/tree_ns3_sweep.py:60-88 | The start-up time is 15, 25 or 46, below 8 KiB, below 2 MiB and from there on. |
| TreeFit.PredictExample | configs/calibration/tree_ns3_sweep.py:192-195 | The prediction for eight GPUs and one MiB. |
| TypeGather.StaticInformation.GetCurrentPath | utils/print-introspected-doxygen.cc:402-412 | The text consists of the labels of the current path in order, each after one slash. |
| TypeGather.StaticInformation.HasAlreadyBeenProcessed | utils/print-introspected-doxygen.cc:421-433 | True exactly when the type is on the stack. |
| TypeGather.StaticInformation.RecordOutput | utils/print-introspected-doxygen.cc:414-419 | Appends the type with the current path. |
| TypeGather.StaticInformation.DoGather | utils/print-introspected-doxygen.cc:489-572 | Terminates on every finite type graph, restores both stacks, and appends the depth-first listing from its argument that avoids the stacked types. |
| TypeGather.StaticInformation.Gather | utils/print-introspected-doxygen.cc:481-487 | From empty stacks, in depth-first order: one record per simple path out of the type and no other, with the type it ends in and its labels, each after one slash. |
| TypeGraph.StepsMean | utils/print-introspected-doxygen.cc:498-572 | The edges followed are exactly those of pointer attributes (but not to a bare Object), container attributes, derived types and aggregation partners. |
| TypeGraph.StepsInOrder | utils/print-introspected-doxygen.cc:498-572 | The edges come attribute by attribute, then by derived type in the order of registration, then by aggregation. |
| TypeGraph.AttributesInOrder | utils/print-introspected-doxygen.cc:498-535 | The edges of several attributes are those of the first ones followed by those of the rest, none merged. |
| GraphWalk.WalksExact | utils/print-introspected-doxygen.cc:489-572 | The listed walks are exactly the simple paths that avoid the stack. |
| GraphWalk.WalksDistinct | utils/print-introspected-doxygen.cc:489-572 | No walk is listed twice. |
| GraphWalk.WalksInOrder | utils/print-introspected-doxygen.cc:489-572 | A walk is listed before its continuations, and earlier edges before later ones. |
| GraphWalk.JoinCut | utils/print-introspected-doxygen.cc:402-412 | A path text is cut at its labels: each stands after one slash, in order, and nothing else is there. |
| GraphWalk.RecordsList | utils/print-introspected-doxygen.cc:414-419 | The records, in order, are the end and the joined labels of the listed walks. |
| GraphWalk.RecordsAreSimplePaths | utils/print-introspected-doxygen.cc:489-572 | In depth-first order one record per simple path avoiding the stack, with the type it ends in and its labels after slashes, and nothing else. |
| DependencyOrder.ModulesThatCanBeLoaded | bindings/python/ns__init__.py:444-455 | The pending libraries, in order, all of whose dependencies are loaded. |
| DependencyOrder.KeepInOrder | bindings/python/ns__init__.py:444-455 | The libraries taken stay in the order of the pending list. |
| DependencyOrder.RoundLoads | bindings/python/ns__init__.py:444-472 | On every graph exactly the libraries that round k releases are loadable in it. |
| DependencyOrder.RoundProgress | bindings/python/ns__init__.py:457-472 | On a closed, acyclic graph every round that has something left releases something. |
| DependencyOrder.ReleasedByChain | bindings/python/ns__init__.py:457-472 | On a closed graph round k releases exactly the libraries whose longest dependency chain has k links. |
| DependencyOrder.Loader.LoadRound | bindings/python/ns__init__.py:464-469 | The released libraries move from pending to current and into their step, in order. |
| DependencyOrder.Loader.Round | bindings/python/ns__init__.py:460-472 | On every graph a round leaves pending exactly what is still left, current everything else, and records in its step exactly what it released, each library once. |
| DependencyOrder.Loader.Order | bindings/python/ns__init__.py:457-472 | On every graph the recursion ends within the levels the interpreter allows exactly when nothing is left after as many rounds, and then step i holds exactly what round i released. |
| DependencyOrder.DependenciesEarlier | bindings/python/ns__init__.py:457-472 | A dependency has a strictly shorter longest chain, so it comes in an earlier step. |
| DependencyOrder.SortToDependencies | bindings/python/ns__init__.py:474-479 | Succeeds on every closed, acyclic graph once the recursion may be as deep as there are libraries, and on no other graph at any depth; the result holds every library exactly once, each after all its dependencies. |
| DependencyOrder.LeftByChain | bindings/python/ns__init__.py:457-472 | After k rounds exactly the libraries with a chain of k links are left. |
| DependencyOrder.EndsExactlyOnAcyclicClosed | bindings/python/ns__init__.py:457-472 | Nothing is left after as many rounds as there are libraries on a closed, acyclic graph, and something is left after every number of rounds on every other graph. |
| WorkerPool.StepKeeps | test.py:1101-1185 | Every step of every schedule keeps each dispatched job in exactly one place and each stop token queued or spent on one thread, with stop tokens last. |
| WorkerPoolTheorems.StepShrinks | test.py:1101-1185 | Every event makes a weight smaller, so every schedule is finite. |
| WorkerPoolTheorems.NeverStuck | test.py:1976-2013 | With at least one worker, or no jobs, some step other than the interrupt is always possible until everything is collected and joined. |
| WorkerPoolTheorems.CanFinish | test.py:2142-2143 | From every reachable state a bounded continuation collects and joins everything. |
| WorkerPoolTheorems.FinishesIffWorkers | test.py:1626-1640 | A run can end exactly when there is at least one worker or no job; a negative process limit starts none. |
| WorkerPoolTheorems.EveryRunDelivers | test.py:1954-2013 | A run that has ended, whatever its schedule and interrupt, has one report per job, empty queues, all threads ended and one stop token per thread. |
| WorkerPoolTheorems.InterruptStopsWork | test.py:1111-1121 | After the interrupt whatever is reported is broken, or was already reported or running. |
| WorkerPoolTheorems.BrokenOnlyAfterInterrupt | test.py:1111-1121 | No job is reported broken in a run without an interrupt. |
| WorkerPoolTheorems.Summarise | test.py:1966-2134 | The collection loop counts each outcome, leaves the failed jobs in order as often as their exit code and XML say, and its verdict (test.py:2252-2255) is 0 exactly when every report is a pass or a skip. |
| WorkerPoolTheorems.CountsMean | test.py:1988-2013 | Exit code 0 counts as passed, 1 as failed, 2 as a valgrind error, every other code as a crash, a skip as skipped, and a broken report as none of them. |
| WorkerPoolTheorems.CopiesTable | test.py:1993-2127 | How often a job stands among the failed ones, by exit code, kind of suite and XML: never for a pass with good XML, a skip or a broken report. |
| WorkerPoolTheorems.FailedExactly | test.py:1993-2127 | With one report per job, a job is among the failed ones exactly as often as its own outcome says: a failing suite without good XML twice, one that exited 0 without good XML once. |
| WorkerPoolTheorems.VerdictOfRun | test.py:2252-2255 | Over a whole run all reports are good exactly when every job came out well; without an interrupt the skipped ones are exactly those marked so. |
| ConfigText.ParseValues | webui/catalog.py:137-159 | The line loop gives what reading the lines one by one gives, error and line number included. |
| TextLines.LineEnds | webui/catalog.py:141-141 | A line ends at its first break of whatever kind, and a carriage return takes a line feed with it. |
| TextLines.AsciiTable | webui/catalog.py:141-142 | The ASCII characters that are space, and those that end a line, one by one. |
| ConfigText.CleanMeans | webui/catalog.py:142-142 | The text of a line goes up to the first number sign, without the space around it. |
| ConfigText.CommentRead | webui/catalog.py:142-144 | A line that is empty up to its comment, or starts with a semicolon, says nothing. |
| ConfigText.HeaderRead | webui/catalog.py:145-150 | Brackets around a name are a section header, with or without space inside. |
| ConfigText.PairRead | webui/catalog.py:151-153 | A line with an equals sign is a key and a value, cut at the first one, without the space around them. |
| ConfigText.KeyTable | webui/catalog.py:154-154 | A key is a letter or underscore followed by word characters and dots. |
| ConfigText.RefusalMeans | webui/catalog.py:147-157 | Each refusal has its own reason: an unknown section, no equals sign, a bad key or value, a key given twice in its section. |
| ConfigText.ErrorIsFirst | webui/catalog.py:137-159 | A refusal names the first line that cannot be read; everything before it can. |
| ConfigText.CommentsDontMatter | webui/catalog.py:141-143 | A blank or comment line may stand anywhere without changing what is accepted or read. |
| ConfigText.ReadGivesOk | webui/catalog.py:144-158 | In whatever is accepted, keys are well formed and distinct, values trimmed, non-empty and free of comments, line breaks and NULs. |
| ConfigText.RoundTrip | webui/catalog.py:293-295 | Reading the rendered text gives back the same entries of both sections in the same order, values with an equals sign included. |
| ConfigText.RenderedText | webui/catalog.py:293-295 | How a configuration is written: two headed sections with a blank line between them and one spaced pair per line. |
| RdmaAliases.NormalizeValues | webui/options.py:344-351 | The loop refuses exactly when an alias and its canonical name are both given with different texts, and otherwise returns the normalised dictionary. |
| RdmaAliases.ConflictMeans | webui/options.py:348-349 | Two names of one option conflict exactly when both are given and their texts differ. |
| RdmaAliases.NormalizedMeans | webui/options.py:344-351 | No alias is left, a canonical name has its alias's value if there was one, every other name keeps its value. |
| RdmaAliases.NormalizedTwice | webui/options.py:344-351 | Normalising again changes nothing, not even the order, and finds no conflict. |
| RdmaAliases.TableIsOk | webui/options.py:319-341 | In the repository's alias table no name occurs twice, within a column or across the two. |
| ConfigPrepare.ScalarIsValue | webui/catalog.py:162-170 | Every override that is let through can stand as a configuration value. |
| ConfigPrepare.ScalarMeans | webui/catalog.py:162-170 | Booleans become 1 and 0, an infinite number is refused, and any other text is let through exactly when it is plain and has 1 to 128 characters. |
| ConfigPrepare.OpOverrideRules | webui/catalog.py:224-229 | An operation override names collective, algorithm or topology, the first two only where there is a collective. |
| ConfigPrepare.OverrideKeys | webui/catalog.py:243-245 | A stack override's key is a letter followed by word characters, and not the profile. |
| ConfigPrepare.AcceptableText | webui/catalog.py:218-245 | Without overrides a text is acceptable exactly when it reads, has operation entries and a profile, and no conflicting aliases. |
| ConfigPrepare.MergedStack | webui/catalog.py:242-246 | After the overrides a stack key has the override's text, else its old value; old keys keep their order. |
| ConfigPrepare.MergedOp | webui/catalog.py:226-230 | The same for the operation section. |
| ConfigPrepare.Prepare | webui/catalog.py:218-295 | Prepares a text exactly when the inputs are acceptable and the remaining checks, taken as a function of the merged sections, do not refuse; the text reads back as exactly the merged sections. |
| ConfigPrepare.TableCanonicals | webui/options.py:319-341 | Every canonical name of the alias table is a well-formed configuration key. |
| FormNative.FormMeans | webui/options.py:505-523 | The form refuses exactly when an armed threshold is not below the depth or, with pausing on, not above the pause threshold; it forces the link retry exactly when packets can be lost; and its credits (lines 592-594) are as many whole chunks as the buffer holds, at least one. |
| StyleFixer.CheckManually | utils/check-style-clang-format.py:619-680 | For any line check: the verdict and the fixed lines of the guarded walk; the file is written in fix mode only, and only if something was wrong. |
| StyleChecks.CheckFile | utils/check-style-clang-format.py:619-680 | For each of the five checks: the file complies exactly when every line complies or is guarded, the whitespace check ignoring guards, and a fix replaces exactly the other lines. |
| StyleFixer.AllComplyMeans | utils/check-style-clang-format.py:641-659 | The walk with its flag finds a file compliant exactly when each line is guarded or complies. |
| StyleChecks.FixThenCheck | utils/check-style-clang-format.py:619-680 | Fixing any file and checking it again reports compliance, for every one of the five checks, even when a fixed line becomes a guard; a second fix changes nothing. |
| StyleFixer.FixedFileReadsBack | utils/check-style-clang-format.py:638-678 | A fixed file read again, with universal newlines, consists of the fixed lines that are not empty. |
| StyleFixer.UniversalLine | utils/check-style-clang-format.py:638-639 | A line is read with a line feed, whichever of the three newlines it had. |
| StyleFixer.SplitJoins | utils/check-style-clang-format.py:639-639 | The lines read are, one after the other, the whole text. |
| StyleFixer.GuardedUnchanged | utils/check-style-clang-format.py:641-667 | A fix leaves guarded lines, for a check that respects guards, and compliant lines as they are and replaces all others. |
| StyleFixes.LineRepaired | utils/check-style-clang-format.py:772-993 | Each replacement of a non-compliant line is empty or complies and keeps the line's shape. |
| StyleFixes.OffStays | utils/check-style-clang-format.py:47-57 | A line that switches checks off stays one under every check that respects guards. |
| StyleMeans.GuardMeans | utils/check-style-clang-format.py:47-57 | A line is a guard exactly when one of the guard texts stands alone on it. |
| StyleMeans.DoxygenMeans | utils/check-style-clang-format.py:772-806 | A line fails the check exactly when it is space, a comment marker, space, and a backslash with a word of at least three characters that ends there, other than the three ignored ones. |
| StyleMeans.DoxygenFixes | utils/check-style-clang-format.py:807-809 | Every such tag becomes an at sign with its word, after the same front. |
| StyleMeans.LicenseFinds | utils/check-style-clang-format.py:857-875 | A licence line is found inside any comment markers and space; the first becomes the identifier in the same surroundings, the others are emptied. |
| StyleMeans.EmacsMeans | utils/check-style-clang-format.py:908-917 | A line is an emacs line exactly when one of the two words stands in it, and its fix is to empty it. |
| StyleMeans.WhitespaceMeans | utils/check-style-clang-format.py:943-947 | A line complies exactly when it ends in one line feed with no space before it. |
| StyleFixes.DoxygenFixed | utils/check-style-clang-format.py:772-819 | Up to its tag the line is kept, the backslash of the tag becomes an at sign wherever the tag occurs, and no tag is found afterwards. |
| StyleFixes.LicenseFixed | utils/check-style-clang-format.py:822-885 | The first licence line keeps what surrounds its text, and the text becomes exactly the identifier. |
| StyleFixes.LicensesOk | utils/check-style-clang-format.py:839-855 | The repository's licence texts have what the fix relies on. |
| StyleLines.WhitespaceFixed | utils/check-style-clang-format.py:928-958 | Only space at the end of the line goes, all of it, and the fixed line complies. |
| StyleLines.ExpandTabStops | utils/check-style-clang-format.py:985-985 | Within a line each tab becomes one to four blanks up to the next multiple of four columns, and no other character changes. |
| StyleLines.ExpandKeepsCore | utils/check-style-clang-format.py:961-993 | Expanding the tabs around a text leaves the stripped text unchanged. |
| FormNative.NativeDecides | scratch/gpu-cluster-sim.cc:1173-1217 | The simulator's decisions, its scan of the arguments for the explicit flag included (with lines 936-943, 1277-1290, 1337-1344 and 1385-1390). |
| FormNative.FormPredictsNative | scratch/gpu-cluster-sim.cc:1277-1290 | For Ethernet and RoCE between nodes both sides come to the same decision on every input in the form's ranges, whatever unrelated arguments stand before and after the form's own; the form refuses exactly when the simulator would abort on a threshold. |
| FormNative.WebLabPredictsNative | webui/simulation.py:218-226 | The same with the simulator's own option names, for every command line the web lab builds, the trace arguments of detailed RDMA included. |
| FormNative.FormReads | webui/options.py:393-393 | The form takes VOQ depth and chunk size from the resolved profile before the command line, and the other six options from the command line only, each with its default. |
| FormNative.NativeReads | scratch/gpu-cluster-sim.cc:817-824 | The simulator takes each option from the same source. |
| FormNative.ProfileDepthCounts | scratch/gpu-cluster-sim.cc:1337-1344 | An explicit drop threshold at or above the profile's VOQ depth is refused by the form and stops the simulator. |
| FormNative.PlaceValue | webui/options.py:443-443 | The number of a text of digits is its base-10 place value. |
| FormNative.ParsedForm | webui/simulation.py:218-222 | An option read back from the form's arguments has the value the form was given. |
| FormNative.ParsedTail | webui/simulation.py:223-226 | Arguments appended afterwards under other names change no option. |
| FormNative.FormFlag | scratch/gpu-cluster-sim.cc:1173-1180 | On the whole command line the scan finds the drop-threshold flag exactly when the form was given that option. |
| Completion.Driver.OnCollectiveComplete | scratch/gpu-cluster-sim.cc:161-188 | One call, with models that answer at once or later, does exactly the protocol's step and keeps its invariant. |
| Completion.Driver.Quiet | scratch/gpu-cluster-sim.cc:178-186 | The callback of one model: only the last success records completion. |
| Completion.CallIsRun | scratch/gpu-cluster-sim.cc:161-188 | A call is a run of single protocol steps, so the theorems over runs apply to it. |
| Completion.CompletedMeans | scratch/gpu-cluster-sim.cc:161-188 | Completion is recorded exactly when a delivery is among the events and every model reported success, with a duration of at least the delivery duration. |
| Completion.CompletionStep | scratch/gpu-cluster-sim.cc:161-188 | Completion is recorded exactly by the last missing success, or by the delivery when there are no models, with the time since delivery began to count. |
| Completion.DeliveryRecorded | scratch/gpu-cluster-sim.cc:164-175 | Over every run the recorded delivery duration is that of the first delivery, and the time counts from that much before it came. |
| Completion.CompletedAfter | scratch/gpu-cluster-sim.cc:178-186 | The recorded duration is the time from the first delivery's own beginning to the last missing success. |
| Completion.CompletedOnce | scratch/gpu-cluster-sim.cc:164-164 | After completion no event changes the recorded durations. |
| Completion.FailureIsFinal | scratch/gpu-cluster-sim.cc:178-180 | Once a model has reported a failure no continuation records completion. |
| Completion.FirstDeliveryCounts | scratch/gpu-cluster-sim.cc:164-165 | Later deliveries change neither the delivery duration nor the start. |
| TransferLedger.Flows | scratch/gpu-cluster-sim.cc:2904-2925 | The flow list holds exactly the intended pairs, each once, none to itself when there are at least two ranks. |
| TransferLedger.GuardIsExact | scratch/gpu-cluster-sim.cc:2927-2929 | The nested-division guard passes exactly when flows times size times iterations fits 64 bits. |
| TransferLedger.ComputedIsTotal | scratch/gpu-cluster-sim.cc:2930-2930 | Past the guard the 64-bit products give the exact total. |
| TransferLedger.Ledger.PatternReceive | scratch/gpu-cluster-sim.cc:100-123 | Counts the bytes of data packets and reports completion exactly when the positive total is reached. |
| TransferLedger.BytesAre | scratch/gpu-cluster-sim.cc:107-116 | A data packet counts for its effective size, or its own if that is zero; no other packet counts. |
| TransferLedger.CompletesOnLastByte | scratch/gpu-cluster-sim.cc:113-122 | With every byte delivered once, completion first fires on the packet that brings the last byte. |
| TransferLedger.PatternCompletes | scratch/gpu-cluster-sim.cc:2927-2957 | Past the guard, when every request of every flow delivers each of its bytes exactly once, in any order and pieces, the awaited total is first reached by the packet that brings the last byte. |
| RandomTraffic.Interval | scratch/gpu-cluster-sim.cc:2149-2154 | The interval is the ideal message time to the nearest nanosecond, and never zero. |
| RandomTraffic.Ideal | scratch/gpu-cluster-sim.cc:2152-2153 | The ideal message time times rate and line speed is the message's bits. |
| RandomTraffic.Traffic.Send | scratch/gpu-cluster-sim.cc:233-253 | One send keeps the counters in step with the schedule and brings the end nearer. |
| RandomTraffic.Traffic.Run | scratch/gpu-cluster-sim.cc:2187-2208 | The events end, each source has counted its schedule's sends in the window, and the offered bytes are the messages times their size, modulo 64 bits. |
| RandomTraffic.SendsArePoints | scratch/gpu-cluster-sim.cc:233-253 | A source's counted sends are the points phase plus k intervals inside the window. |
| Welford.Accumulate | utils/bench-scheduler.cc:333-367 | The one-pass loop ends with the two-pass mean and sum of squared deviations, for every non-empty list. |
| Welford.OneMore | utils/bench-scheduler.cc:345-349 | The update of mean and second moment by one more sample. |
| Welford.MeanIsLeast | utils/bench-scheduler.cc:333-367 | The squared deviations are least around the mean, and by how much they grow elsewhere. |

## Left out

- The packet engine under `src/gpu-cluster` (credits, link retry, PFC pausing, queues, collectives): the driver's models start at its callbacks.
- Floating-point rounding: the solver, the fit and the benchmark summary are over exact reals, so the square root of the variance is not taken either.
- Job service, environment: `save`, `stat`, signalling and the binary's fingerprint do not fail; identifiers are fresh; `close` is called once; a crash falls between two atomic steps; the 500 newest records are any 500 of the saved ones; records that cannot be parsed are skipped before they count.
- Job service, processes: a process that vanishes before it is signalled (the early return on a failed process lookup), a client that disconnects while its cancel waits, and a subprocess left behind when shutdown falls into its creation are not modelled. Error texts and timestamps are not modelled; the set time of an end is the flag `finished`.
- EventuallyFinished: assumes that a killed process is reaped and the worker task is scheduled, which is what its count of the service's own steps says, and that the clock moves between two looks at a running process (the time-out is counted in such ticks); a submission after shutdown is excluded, because nothing would run it.
- SolveLinear: which systems are refused is stated by the stages of elimination themselves; that a refused system is nearly singular is proved, the converse is not claimed.
- FitOriginalModel: the division by a zero inverse bandwidth and empty or unusable rows are one outcome, an exception.
- Gather: the removal of duplicates afterwards works on a copy and changes nothing, so the statement is about the output as it stands.
- Order: the Python function `dependency_order` has no depth of its own; the interpreter's recursion limit is a parameter, and reaching it is the failed outcome.
- Test runner: building and filtering the list of jobs, the XML and text reports, and the contents of a job's output; a job is its skip flag, an exit code, whether it is a suite and whether its XML says PASS or SKIP. A suite whose XML file is missing altogether raises in the original and is not modelled.
- NeverStuck: in the worker pool, needs at least one worker or no job, which FinishesIffWorkers shows to be the exact condition; a running test may take any time but ends.
- Characters: strings are sequences of Unicode scalar values; the non-ASCII letters of the word class are a parameter that excludes spaces.
- Prepare: the checks of `validate_configuration`, the numeric checks of resolved values and the profile file only refuse or read; they are one parameter, a function of the merged sections. The summary is not modelled. The alias table is a parameter too, with the repository's own table shown to fit it.
- Submit: the one textual replacement of the profile path in the rendered configuration is not modelled; what the catalogue says of the request is an input.
- TestRunner: the class carries out the pool's steps one by one on the shared fields; its methods say no more than those steps, so the theorems stand in the table instead.
- CheckManually: the verbose messages, the include checks, clang-format and the encoding check are not modelled; a file that cannot be decoded is an error before the first line. The guard flag is kept up to date even for the one check that ignores it, which nothing can observe. The licence texts are data.
- FormPredictsNative: covers Ethernet and RoCE between nodes; for NVLink and for single-node runs the two sides differ by design. The credit count is that of collectives. The base value of the link retry comes from the profile, which is not modelled. The simulator's option parser is modelled as the last matching argument winning; the form's ranges, and that no other form key starts like the drop threshold's, enter as the condition `Valid`.
- Driver: each model calls back at most once, and times are whole nanoseconds. The delivered-byte counter of random traffic and the choice of destinations are not modelled; the order of events is any order.
- PatternReceive: bytes beyond 64 bits in total are excluded, which the guard and exactly-once delivery ensure.
- Accumulate: one measured quantity stands for the six that the loop updates in the same way.
- Plotting, sweeping, internationalisation, HTTP handling, tracing and result printing: wrappers around libraries, or data.
