# Verification model of the benchmark library

This project models the parts of the CodSpeed benchmark library (a fork of Google Benchmark with its
walltime core) whose correctness needs reasoning across many steps, and proves what they are for.
`dafny verify dfyconfig.toml` checks it.

- **Start/stop protocol** (`PhaseBarrier`, `Scripts`, `StartStop`, `StartStopInvariant`, `StartStopTheorems`).
  N threads and the main thread interleave freely. Every region under a lock is one atomic step, `notify_all` is
  a step of its own, waiters may wake spuriously, and the alive counter is lowered outside the lock of its waiter.
  A thread runs any finite script of waits, timer starts and stops, iterations and skips, then merges its results
  and leaves; the documented guarantee is proved for all legal scripts, also of threads that return with an open loop. Proved: lockstep, one winner per phase, the documented guarantee, no lost wake-up, no deadlock,
  bounded runs, and exact totals.
- **One State** (`BenchState`, `BenchStateTheorems`). The object behind the benchmark loop and its timer,
  for the plain, the walltime and the analysis build. Its history is proved to be a legal script of the protocol.
- **A whole run** (`BenchmarkRuns`, `UserCounters`). States on all threads, the protocol between them, the merged
  results, and what the runner reads from them.
- **Runner and scheduler** (`Runner`, `Scheduler`). The search for an iteration count against an arbitrary
  benchmark, and the repetition loop over an arbitrary shuffle with its map of complexity families.
- **Arguments** (`Ranges`, `ArgsProduct`). Power ranges over a bounded signed type, and the mixed-radix odometer.
- **Performance counters** (`PerfKernel`, `PerfGroups`, `PerfCounters`). The kernel is an object that answers
  arbitrarily: it may refuse any descriptor, interrupt any call and fail any read. Groups are opened on demand;
  reads are compacted in place in one array of 34 words.
- **Statistics** (`Sorting`, `Walltime`, `Statistics`, `LeastSquares`, `CurveChoice`). Two independent implementations
  of median and variance, outlier bounds, the least-squares fit and the choice of its curve.
- **Strings** (`RunLength`, `BenchUri`). The run-length codec of the examples, and the bracket sanitiser with what is
  made of its results.

`Sums` holds what several modules share.

## How to read the model

Methods of classes are the code: they update fields, arrays and sequences step by step, and their contracts tie the
new state to a specification function or say the promised property outright. The theorems are lemmas about those
functions. Some fields are history and are read by no operation: the log of a `St`, the winners, answers and skips
of a `Sys`, the events of a `Sched`, and the calls and reported counts of a `Kernel`.

Doubles are reals and integers are unbounded, except where a bound is the point: the vectors of `Ranges` are over a
type with a largest value, and the predicted iteration count is shown to fit 64 bits. `llround` is written out.
Divisions by zero that the code can reach are written out too: the sign of the infinity in the runner, and NaN or
infinity in the least-squares error. `sqrt` is any function whose values are roots, `log2` any function at all.
A check of the library (`BM_CHECK`, which is nothing under NDEBUG) or an assert is a precondition that the callers in
the model are proved to meet. Where a legal caller can run into it, it is an outcome, and where it matters a flag
says whether checks are compiled in.

`std::sort` is a function with a uniqueness lemma, `std::nth_element` a method of which only the contract is used.

## What turned out differently

- `ResumeTiming` checks that the resume timestamp is zero, but `PauseTiming` keeps it during a warm-up of a walltime
  build (google_benchmark/src/benchmark.cc:280-283 and 309). In a build without NDEBUG, pausing and resuming again
  therefore aborts exactly there (`BenchStateTheorems.ResumeAfterPause`, `BenchStateTheorems.WarmupAborts`).
- The iteration search needs at most 83 runs from a single iteration, and some benchmark needs all of them
  (`Runner.SearchBound`, `Runner.SearchBoundIsTight`).
- `sanitize_bench_args` leaves a separator in the group exactly for a run of three or more colons of odd length; even
  runs are clean (`BenchUri.CleanExactlyWhen`, `BenchUri.OddRunStays`).
- `start_benchmark` looks for a separator in the name as it was given (core/src/codspeed.cpp:86). When all its separators
  are in the bracket group and the group is clean when escaped, the URI has none and gets no placeholder, and only then
  (`BenchUri.HasFileExactlyWhen`, with the input of `BenchUri.NoFileInUri`).
- `rle_decode` undoes `rle_encode` exactly for texts without decimal digits (`RunLength.RoundTrip`,
  `RunLength.DigitIsLost`).
- One word of padding is enough for the counter buffer; the code has two (`PerfCounters.PerfCounterValues.Read`).
- `Create` stops at 32 counters and ignores the rest, but the buffers of `PerfCountersMeasurement` check the number of
  requested names first (google_benchmark/src/perf_counters.h:53-55). With more than 32 names the constructor aborts in a
  build without NDEBUG; in one with NDEBUG it accepts them and measures what `Create` granted
  (`PerfCounters.NewMeasurement`).
- A leader that is opened because the current group refused a counter keeps the attributes of a member: it is neither
  disabled nor pinned, at whatever retry it is granted (google_benchmark/src/perf_counters.cc:126-184). The exact condition
  is `PerfGroups.AttributesExactlyWhen`; see also `PerfGroups.RetriedLeaderLacksThem` and the list of calls in
  `PerfGroups.RetriedLeader`.
- The repetition loop reads the first run of a complete family, and there is none exactly when all runs of a family were
  skipped (`Scheduler.AllowedExactlyWhen`, with the input of `Scheduler.SkippedFamilyFails`).
- `oAuto` is always best for times that are not negative. For any times the exact condition is
  `CurveChoice.BestExactlyWhen`; times with a zero or negative mean can mislead it (`CurveChoice.ZeroMeanMisleads`,
  `CurveChoice.NegativeTimesMislead`).

## Model

| member | source | states |
|---|---|---|
| `PhaseBarrier.Barrier.EnterLocked` | google_benchmark/src/mutex.h:132-150 | The locked region in which a thread arrives does what the step function says: abort on the check, sleep with a copy of the phase, or open the next phase. |
| `PhaseBarrier.Barrier.RecheckLocked` | google_benchmark/src/mutex.h:137-149 | The locked region after a wake-up, genuine or spurious: sleep on, return false after a phase change, or take the role of the last thread. |
| `PhaseBarrier.Barrier.RemoveThread` | google_benchmark/src/mutex.h:114-118 | Leaving lowers the membership and notifies exactly when somebody is waiting. |
| `StartStopInvariant.BarrierKept` | google_benchmark/src/mutex.h:104-150 | Every interleaved step keeps the barrier invariant: counters mean what they say, answers agree with the recorded winner of each phase, and a sleeper whose predicate holds has a notification to come. |
| `StartStopInvariant.EndKept` | google_benchmark/src/thread_manager.h:25-37 | Every step keeps the end-condition invariant, although the alive counter is lowered outside the lock of the waiting thread. |
| `StartStopInvariant.ConservedKept` | google_benchmark/src/benchmark_runner.cc:146-156 | At every step the merged results are the sum of what the threads that have merged contribute. |
| `StartStopInvariant.InvAlways` | google_benchmark/src/mutex.h:99-151 | The whole invariant holds in every state of every run, for any number of threads and any scripts. |
| `StartStopTheorems.Lockstep` | google_benchmark/src/mutex.h:132-150 | Over every run: entered_ is the number of threads waiting in the current phase, running_threads_ the number not removed, the check on entry never fails, a waiter is at most one phase behind, and live threads differ by at most one round. |
| `StartStopTheorems.OneWinnerPerPhase` | google_benchmark/src/mutex.h:104-112 | Over every run: for every finished phase exactly one thread has true as its answer to that wait, all others false. |
| `StartStopTheorems.NobodyRunsAhead` | google_benchmark/src/mutex.h:132-150 | Over every run: no thread has returned from more waits than any thread that has not completed has begun, also with removals in between. |
| `StartStopTheorems.NoIterationBeforeAllStarted` | google_benchmark/include/benchmark/benchmark.h:137-140 | The documented start guarantee: a loop iteration runs only when every other thread has reached the loop start or completed. |
| `StartStopTheorems.NoExitBeforeAllFinished` | google_benchmark/include/benchmark/benchmark.h:137-140 | The documented end guarantee: once a thread is past the loop end, no other thread has an iteration left, or a timer running unless it returned with its loop open. |
| `StartStopTheorems.TimersRunInsideTheLoop` | google_benchmark/src/benchmark.cc:356-381 | While the timer of a thread runs that has not returned with its loop open, every thread has reached the loop start or completed and none has passed the loop end. |
| `StartStopTheorems.NoLostWakeups` | google_benchmark/src/mutex.h:104-118 | In every reachable state a sleeper whose awaited predicate holds, at the barrier or at the end condition, has a notify_all pending in a thread that can move. |
| `StartStopTheorems.NoDeadlock` | google_benchmark/src/mutex.h:104-150 | In every reachable state everything is finished or some step other than a spurious wake-up is enabled. |
| `StartStopTheorems.RankMoves` | google_benchmark/src/mutex.h:104-150 | Every genuine step lowers the ranking function; a spurious wake-up raises it by at most two. |
| `StartStopTheorems.RunsAreBounded` | google_benchmark/src/mutex.h:104-150 | A run without spurious wake-ups has at most Rank(start) steps, and every spurious wake-up buys at most two more. |
| `StartStopTheorems.WaitReturnsTheTotals` | google_benchmark/src/benchmark_runner.cc:135-159 | When WaitForAllThreads has returned, all threads have merged: iterations, times, complexity and every counter are the sums over all threads, whatever the order, and the skip is that of the first skipper. |
| `StartStopTheorems.ReportedIterations` | google_benchmark/src/benchmark_runner.cc:306-337 | If every thread runs at least the requested iterations, the count reported per thread is at least the request. |
| `BenchmarkRuns.EarlyReturnCheckHolds` | google_benchmark/src/benchmark_runner.cc:146-147 | However a legal loop is written, once it is finished or skipped the check of RunInThread holds: skipped, or at least max_iterations done. |
| `BenchmarkRuns.SkipsAlwaysNoticed` | google_benchmark/src/benchmark.cc:315-345 | Over every run of the protocol: once some thread has executed a skip, the merged result is skipped. |
| `BenchmarkRuns.LoopsAreLegal` | google_benchmark/src/benchmark_runner.cc:135-159 | The histories of legal loops on a State are legal scripts, so all theorems about the protocol hold for them. |
| `BenchmarkRuns.MergedIterations` | google_benchmark/src/benchmark_runner.cc:306-337 | In every interleaving of threads that ran legal loops on their States: if nothing is reported as skipped, the merged iterations are at least threads * max, and the count per thread at least max. |
| `BenchmarkRuns.MergedLoops` | google_benchmark/src/benchmark_runner.cc:148-156 | The merged iterations, real time and CPU time are the sums over the loops of all threads: of iterations(), and of the real and CPU time of the timed slices, the latter never negative. |
| `BenchmarkRuns.RunsMakeAProperWorld` | google_benchmark/src/benchmark_runner.cc:288-338 | A world made of such runs is one that the theorems about the search assume. |
| `UserCounters.Results.IncrementCounters` | google_benchmark/src/counter.cc:49-64 | The two loops over the maps compute the union with values added where both have the name; flags come from the left. |
| `UserCounters.Increment` | google_benchmark/src/counter.cc:49-64 | The value of every name after the merge is the sum of both values, a missing counter counting as zero. |
| `UserCounters.Results.Merge` | google_benchmark/src/benchmark_runner.cc:146-156 | Merging adds one thread to the totals and leaves the skip alone. |
| `UserCounters.Results.RecordSkip` | google_benchmark/src/benchmark.cc:315-323 | Only the first skip is recorded. |
| `BenchState.State.PauseTiming` | google_benchmark/src/benchmark.cc:269-299 | Stops the timer, emits one Start/End pair unless this is a warm-up or nothing was resumed, and turns collection off. |
| `BenchState.State.ResumeTiming` | google_benchmark/src/benchmark.cc:301-313 | Starts the timer, remembers the timestamp in a walltime build and turns collection on. |
| `BenchState.State.Skip` | google_benchmark/src/benchmark.cc:315-345 | Records the first skip, leaves no iteration and stops a running timer without emitting markers. |
| `BenchState.State.Start` | google_benchmark/src/benchmark.cc:356-367 | Starts the loop: one barrier, then the timer unless skipped. |
| `BenchState.State.Finish` | google_benchmark/src/benchmark.cc:369-381 | Ends the loop: the timer is paused unless skipped, then one barrier. |
| `BenchState.State.KeepRunningInternal` | google_benchmark/include/benchmark/benchmark.h:1014-1040 | Grants a batch, a last short batch with the shortfall remembered, or ends the loop, as the specification step KeepRunning says. |
| `BenchState.StateIterator.NotEqual` | google_benchmark/include/benchmark/benchmark.h:1073-1088 | The comparison grants a pass while something is left and otherwise ends the loop. |
| `BenchState.StateIterator.Increment` | google_benchmark/include/benchmark/benchmark.h:1066-1070 | The increment takes one pass from the iterator and leaves the State alone. |
| `BenchState.BeginRange` | google_benchmark/include/benchmark/benchmark.h:1095-1104 | begin() and end() of a ranged-for loop are the specification step RangeBegin. |
| `BenchState.NextPass` | google_benchmark/include/benchmark/benchmark.h:1066-1088 | A comparison and the increment that follows are the specification step RangeNext. |
| `BenchState.BodyIgnoresIterator` | google_benchmark/include/benchmark/benchmark.h:1066-1088 | Pausing, resuming and skipping in the body commute with the increment after it. |
| `BenchState.ThreadTimer.Stop` | google_benchmark/src/thread_timer.h:30-38 | Adds the elapsed real time and the elapsed CPU time, the latter never negative. |
| `BenchStateTheorems.TimingSlices` | core/include/measurement.hpp:88-110 | For all legal pause, resume and skip sequences with a monotone non-zero clock: markers alternate, are ordered and come once per pause, none in a warm-up; real and CPU time are the sums of the slices; the timer is off once the loop is left; the collect flag follows the parity of toggles and the timer. |
| `BenchStateTheorems.ResumeAfterPause` | google_benchmark/src/benchmark.cc:279-310 | After any legal history that can be paused: pausing and resuming again aborts exactly when the State is a warm-up State of a walltime build and the checks are compiled in. |
| `BenchStateTheorems.WarmupAborts` | google_benchmark/src/benchmark.cc:279-310 | Such a State is reached by a legal call: a warm-up of five iterations whose loop has just begun. |
| `BenchStateTheorems.HistoryIsLegalScript` | google_benchmark/src/benchmark.cc:356-381 | What a State does is always a legal script of the start/stop protocol, complete when the loop is over or skipped; this joins the State to the protocol theorems. |
| `BenchStateTheorems.KeepRunningAccounting` | google_benchmark/include/benchmark/benchmark.h:926-931 | For any KeepRunning and KeepRunningBatch calls with varying sizes: when the loop ends, iterations() is the sum of the batches granted, at least max_iterations and less than it plus the last batch, and the barrier was crossed exactly twice. |
| `BenchStateTheorems.RangedForAccounting` | google_benchmark/include/benchmark/benchmark.h:1042-1104 | The ranged-for form grants exactly max_iterations and crosses the barrier exactly twice. |
| `BenchStateTheorems.SkippedHasNoneLeft` | google_benchmark/src/benchmark.cc:315-345 | In every state of every legal run a skipped State has no iterations left. |
| `BenchStateTheorems.SkippedKeepEnds` | google_benchmark/include/benchmark/benchmark.h:1014-1040 | After any legal history, a KeepRunning call on a skipped State grants nothing, finishes the loop and crosses the barrier, twice if the loop had not been started. |
| `BenchStateTheorems.SkippedRangeEnds` | google_benchmark/include/benchmark/benchmark.h:1046-1104 | A ranged-for loop over a State that is already skipped grants nothing, finishes and crosses the barrier twice. |
| `BenchStateTheorems.NothingAfterSkip` | google_benchmark/src/benchmark.cc:315-345 | Whatever is called after a skip, other than the passes of a ranged-for loop, the sum of the granted batches is the one before the skip. |
| `BenchStateTheorems.KeepIsLegalExactlyWhen` | google_benchmark/include/benchmark/benchmark.h:1014-1040 | In every reachable state a KeepRunning call passes all checks if and only if it does not have to end a loop that is over already or whose timer is paused; on a skipped State always. |
| `Runner.PredictIsLarger` | google_benchmark/src/benchmark_runner.cc:340-362 | After a run that is not reported the next count is strictly larger, so the asserts of both loops hold. |
| `Runner.PredictIsBounded` | google_benchmark/src/benchmark_runner.cc:340-362 | The next count is at most 14 times the last, at most 10^12, and the rounding stays within 64 bits. |
| `Runner.PredictGrows` | google_benchmark/src/benchmark_runner.cc:340-362 | With a minimum time of at least 1 ns the next count is at least the slowest growth, max(n + 1, 1.4 n rounded). |
| `Runner.PredictExactly` | google_benchmark/src/benchmark_runner.cc:340-362 | After at most a tenth of the minimum time the next count is ten times the last; otherwise the integer nearest to 1.4 minTime n / seconds; at least one more, at most 10^12. |
| `Runner.SlowestGrowsByAThird` | google_benchmark/src/benchmark_runner.cc:353-361 | The slowest growth is at least a factor 4/3 before the cap. |
| `Runner.OneRunExactlyWhen` | google_benchmark/src/benchmark_runner.cc:364-378 | A search, also that of a warm-up, takes one run if and only if that run is skipped, it is a dry run, its iterations per thread reach 10^12, its seconds reach the minimum time, or its real time is five times that without manual time. |
| `Runner.AcceptedIsFirst` | google_benchmark/src/benchmark_runner.cc:364-378 | Of all runs of a search only the accepted one, the last, meets that condition; each of the others is followed by the predicted, larger count. |
| `Runner.SearchEndsReported` | google_benchmark/src/benchmark_runner.cc:496-521 | The search ends with a run that is reported, whose count is the accepted one and never below the first. |
| `Runner.SearchBound` | google_benchmark/src/benchmark_runner.cc:496-521 | From any positive start at most 83 runs are needed when the minimum time is at least 1 ns. |
| `Runner.SearchBoundIsTight` | google_benchmark/src/benchmark_runner.cc:496-521 | Some benchmark needs all 83 runs from a single iteration: no smaller bound holds. |
| `Runner.BenchmarkRunner.RunWarmUp` | google_benchmark/src/benchmark_runner.cc:394-428 | The warm-up is the same search with the warm-up time, over after one run exactly if that meets the stop condition; iters, results and the repetition count are as before. |
| `Runner.BenchmarkRunner.DoNIterations` | google_benchmark/src/benchmark_runner.cc:288-338 | The merged iterations are divided by the threads, and seconds are the manual, real or CPU time as the settings say. |
| `Runner.BenchmarkRunner.FindIterations` | google_benchmark/src/benchmark_runner.cc:496-521 | In the first repetition without an explicit count the loop computes the search and ends with a run that meets the stop condition, which is the first run exactly if that meets it; any other repetition is a single run and keeps the count. |
| `Runner.BenchmarkRunner.DoOneRepetition` | google_benchmark/src/benchmark_runner.cc:463-554 | One repetition warms up if needed, appends one report of the accepted run and counts itself; after the first one, or with an explicit count, it takes one run and keeps the count. |
| `Scheduler.Benchmarks.RunOne` | google_benchmark/src/benchmark.cc:563-612 | One pass of the repetition loop on the runners and the map of families is the specification step, or reads the front of an empty list exactly when that step is not allowed. |
| `Scheduler.InvKept` | google_benchmark/src/benchmark.cc:563-612 | A step that is allowed keeps: live family records count exactly their repetitions and hold exactly the runs not skipped, erased families have had their Big-O, every report comes after all repetitions of its runner. |
| `Scheduler.StepStarts` | google_benchmark/src/benchmark_runner.cc:476-486 | For every shuffle and every outcome, each repetition finds its runner unfinished (the assert holds) and its family record not erased. |
| `Scheduler.StepAllowed` | google_benchmark/src/benchmark.cc:590-600 | When every family has a run that counts, a family that completes also has a run in its list. |
| `Scheduler.CompleteFamilyRan` | google_benchmark/src/benchmark.cc:590-600 | When a family completes, a run that was not skipped is already in its list, so the first element that names the erased key exists. |
| `Scheduler.AllowedExactlyWhen` | google_benchmark/src/benchmark.cc:563-613 | For every shuffle and every outcome: all steps are allowed if and only if every family with repetitions has a run that is not skipped. |
| `Scheduler.SkippedFamilyFails` | google_benchmark/src/benchmark.cc:590-600 | One runner with one repetition that is skipped: its family completes without a run, and the loop is stuck. |
| `Scheduler.FitInOrder` | google_benchmark/src/benchmark.cc:590-597 | When a family completes, all its repetitions are done, and Big-O is fitted to exactly its runs that were not skipped, in the order of execution. |
| `Scheduler.KeptOnce` | google_benchmark/src/benchmark_runner.cc:545-552 | Every run of a family is handed to Big-O once: the kept runs are pairwise different. |
| `Scheduler.ErasesOwnFamily` | google_benchmark/src/benchmark.cc:598-599 | The key read from the first run is the family that completed, and no other record is erased. |
| `Scheduler.EverythingDone` | google_benchmark/src/benchmark.cc:544-613 | At the end every runner has done exactly its repetitions, was reported exactly once and last, and every family has exactly one Big-O, after all its repetitions and on exactly its runs. |
| `Scheduler.Benchmarks.constructor` | google_benchmark/src/benchmark.cc:513-530 | The set-up loop gives every complexity family the sum of the repetitions of its runners. |
| `Scheduler.Benchmarks.RunAll` | google_benchmark/src/benchmark.cc:563-613 | The loop over any shuffle of the repetition indices comes through exactly when every family with repetitions has a run that is not skipped, and then ends in that state. |
| `Ranges.ArgVector.AddPowers` | google_benchmark/src/benchmark_register.h:15-37 | Appends exactly the powers of mult in [lo, hi], increasing, keeps what was there, and stays within the bounded type. |
| `Ranges.ArgVector.AddNegatedPowers` | google_benchmark/src/benchmark_register.h:39-57 | Appends exactly the negated powers in [lo, hi], increasing, by negating and reversing the new part in place. |
| `Ranges.ArgVector.AddRange` | google_benchmark/src/benchmark_register.h:59-104 | Appends, strictly increasing from lo to hi, exactly the endpoints and between them zero and the signed powers of mult, for any lo <= hi of the type. |
| `Ranges.ListingUnique` | google_benchmark/src/benchmark_register.h:59-104 | Those members determine the appended part: two increasing listings with the same members are equal. |
| `Ranges.NextPower` | google_benchmark/src/benchmark_register.h:26-34 | No power lies strictly between two neighbouring ones, so the loop skips none. |
| `Ranges.DocumentedRange` | google_benchmark/docs/user_guide.md:335-343 | Range(8, 8 << 10) with the default multiplier 8 selects 8, 64, 512, 4k and 8k. |
| `Ranges.SignedRange` | google_benchmark/src/benchmark_register.h:59-104 | The range from -65 to 10 by eights lists the endpoints, zero and the powers with both signs. |
| `ArgsProduct.Benchmark.ArgsProduct` | google_benchmark/src/benchmark_register.cc:280-306 | Appends one row per element of the product in odometer order, nothing when a list is empty; the indices end at zero. Undefined exactly without any list. |
| `ArgsProduct.OdometerShows` | google_benchmark/src/benchmark_register.cc:287-303 | After i turns the odometer is at position i, and back at zero after the product of the lengths. |
| `ArgsProduct.DigitFormula` | google_benchmark/src/benchmark_register.cc:287-303 | Digit j is (position / product of the earlier lengths) mod length j. |
| `ArgsProduct.TurnStopsAt` | google_benchmark/src/benchmark_register.cc:296-302 | A turn zeroes the columns at their last element and advances the first other one. |
| `ArgsProduct.RowsAreTheProduct` | google_benchmark/src/benchmark_register.cc:280-306 | Every index tuple is shown at exactly one turn, its position, and its row stands there. |
| `ArgsProduct.RowsDistinct` | google_benchmark/src/benchmark_register.cc:266-278 | Lists without repetitions give pairwise distinct rows. |
| `ArgsProduct.Benchmark.Ranges` | google_benchmark/src/benchmark_register.cc:266-278 | The appended rows are the product of the ranges that AddRange lists, pairwise distinct. |
| `ArgsProduct.Increment` | google_benchmark/src/benchmark_register.cc:296-302 | The carrying loop makes one turn of the odometer. |
| `PerfCounters.PerfCounterValues.Read` | google_benchmark/src/perf_counters.cc:31-55 | For a buffer of any size: all counts arrive in counter order and their number is returned exactly when no leader fails and the buffer has one word more than there are counters; otherwise 0 is returned. |
| `PerfCounters.PerfCounterValues.ReadGroup` | google_benchmark/src/perf_counters.cc:36-46 | One read and the shift to the left keep the prefix and append the counts of the group. |
| `PerfCounters.HoldsMore` | google_benchmark/src/perf_counters.cc:41-45 | Appending a group of new counters leaves the values of all earlier ones in their places. |
| `PerfCounters.PerfCounters.Snapshot` | google_benchmark/src/perf_counters.h:118-129 | True exactly when every group could be read; then position i holds the count of names()[i]. |
| `PerfCounters.AskKernel` | google_benchmark/src/perf_counters.cc:161-172 | The system call is repeated in the same group exactly as long as it is interrupted, five times at most. |
| `PerfCounters.OpenCounter` | google_benchmark/src/perf_counters.cc:161-184 | A name is asked in the current group, and as the leader of a new one exactly if that group refused it; it is given up only when refused as a leader, and a granted descriptor leads a new group or ends the current one. |
| `PerfCounters.OpenAll` | google_benchmark/src/perf_counters.cc:103-205 | For every pattern of refusals the groups are contiguous, in order and hold exactly the counters; the names are the granted ones in requested order, at most 32, and each usable name up to there was granted or refused even as a leader. |
| `PerfCounters.Create` | google_benchmark/src/perf_counters.cc:82-232 | What Create returns is exactly what the kernel granted, aligned with its groups; its calls form rounds, for different usable positions of the request in order, each asked in a group exactly if one is current; when enabling fails it is empty and every descriptor it opened is closed again. |
| `PerfGroups.CreatedWhenEnabled` | google_benchmark/src/perf_counters.cc:207-231 | The enabling calls decide between all granted counters and none, and change nothing else. |
| `PerfGroups.AlignedLeader` | google_benchmark/src/perf_counters.cc:197-204 | A new leader starts a group behind all others. |
| `PerfGroups.AlignedMember` | google_benchmark/src/perf_counters.cc:197-204 | A member joins the last group, so the flattened groups grow at the end. |
| `PerfGroups.AttributesExactlyWhen` | google_benchmark/src/perf_counters.cc:126-184 | Every call that Create makes has the disabled and pinned attributes of a first descriptor if and only if no group was current when its name was asked. |
| `PerfGroups.RetriedLeaderLacksThem` | google_benchmark/src/perf_counters.cc:161-184 | So a leader that is opened because the current group refused the name has none of them, at whatever retry it is granted. |
| `PerfGroups.RetriedLeader` | google_benchmark/src/perf_counters.cc:126-205 | A list of calls for two names in which the second is refused by the group, interrupted and then granted as a leader without the attributes. |
| `PerfGroups.SplitsMore` | google_benchmark/src/perf_counters.cc:161-184 | A new group is begun only at the start or straight after a refusal. |
| `PerfGroups.OpenedMore` | google_benchmark/src/perf_counters.cc:106-205 | The calls for one more name that is granted extend names, descriptors and the record of what was tried consistently. |
| `PerfGroups.OpenedRefused` | google_benchmark/src/perf_counters.cc:186-196 | The calls for a name that is refused leave names and descriptors alone and are on record as tried. |
| `PerfCounters.NewMeasurement` | google_benchmark/src/perf_counters.cc:265-269 | The constructor aborts exactly when checks are compiled in and more than 32 names are requested, before anything is opened; otherwise it is valid and holds what Create granted. |
| `PerfCounters.PerfCountersMeasurement.Start` | google_benchmark/src/perf_counters.h:157-166 | A failed snapshot is remembered for good; a good one holds the counts by name. |
| `PerfCounters.PerfCountersMeasurement.Stop` | google_benchmark/src/perf_counters.h:168-186 | Every counter gets its own difference between the two snapshots, appended in names() order. |
| `Walltime.QuantileMonotone` | core/src/walltime.cpp:35-48 | A larger quantile of a sorted sequence is never smaller. |
| `Walltime.QuantileBounds` | core/src/walltime.cpp:35-48 | Every quantile lies between the least and the greatest value. |
| `Walltime.QuantileEnds` | core/src/walltime.cpp:35-48 | Quantiles 0 and 1 are the first and the last value. |
| `Walltime.AffineBetweenIndices` | core/src/walltime.cpp:35-48 | From one index to the next the quantile moves from one sorted value to the other in proportion. |
| `Walltime.QuartilesAtIndices` | core/src/walltime.cpp:35-48 | With 4m + 1 rounds the quartiles are the sorted values at m, 2m and 3m. |
| `Walltime.StatsOrdered` | core/src/walltime.cpp:157-207 | min <= q1 <= median <= q3 <= max and min <= mean <= max. |
| `Walltime.FewOutliers` | core/src/walltime.cpp:182-195 | Nine times the number of 3-sigma outliers is below the number of rounds, so nine or fewer rounds never flag one. |
| `Walltime.FewBeyondQuartiles` | core/src/walltime.cpp:197-207 | At most a quarter of the rounds, rounded up, are outliers beyond the quartiles on either side. |
| `Walltime.StatsIgnoreOrder` | core/src/walltime.cpp:157-233 | All results are determined by the rounds as a multiset: any other order gives the same statistics. |
| `Walltime.OutliersAre` | core/src/walltime.cpp:182-207 | The two outlier counts are the numbers of rounds whose time per iteration is more than three deviations from the mean, and more than one and a half interquartile ranges beyond the quartiles, on either side. |
| `Walltime.NoOutlierIsMissed` | core/src/walltime.cpp:182-207 | A single round above or below a limit makes that count positive. |
| `Walltime.TwoRounds` | core/src/walltime.cpp:157-233 | All statistics of two rounds in closed form. |
| `Walltime.ComputeBenchmarkStats` | core/src/walltime.cpp:157-233 | The loops compute statistics that satisfy those defining properties, for any rounds with non-zero iterations; both outlier counts are those of the rounds outside the limits, written out. |
| `Statistics.StatisticsMedian` | google_benchmark/src/statistics.cc:40-59 | Selection and the maximum of the left part give the middle quantile of the sorted values, for every length and whatever order the selection leaves. |
| `Sorting.SelectedIsSorted` | google_benchmark/src/statistics.cc:46-47 | However nth_element arranges both sides, the sorted sequence is the sorted left part, the selected value and the sorted right part. |
| `Sorting.SortedIsUnique` | core/src/walltime.cpp:172-175 | Any two sorted arrangements of the same values are equal, so it does not matter which sort is used. |
| `Statistics.VariancesAgree` | google_benchmark/src/statistics.cc:75-91 | The mean-of-squares formula times (n - 1) is the sum of squared distances from the mean. |
| `Statistics.VarianceNotNegative` | google_benchmark/src/statistics.cc:67-91 | The clamp against negative arguments of the square root never acts in exact arithmetic. |
| `Statistics.StdDevsAgree` | google_benchmark/src/statistics.cc:75-91 | StatisticsStdDev squared times (n - 1) equals the walltime variance times n, for n >= 2. |
| `Statistics.StdDevIsRoot` | google_benchmark/src/statistics.cc:75-91 | For any number of values the deviation is not negative and its square times n - 1, or times 1 below two values, is the sum of the squared distances from the mean. |
| `LeastSquares.CoefficientIsOptimal` | google_benchmark/src/complexity.cc:86-100 | The returned coefficient gives a squared residual no larger than any other coefficient. |
| `LeastSquares.MinimalLeastSqOfCurve` | google_benchmark/src/complexity.cc:81-114 | The loops compute that coefficient and the normalized error, or NaN when the curve is zero at every sample. |
| `LeastSquares.MinimalLeastSq` | google_benchmark/src/complexity.cc:123-153 | The result is a fit of its own curve; times that are k, k n, k n^2, k n^3, k log n or k n log n give exactly k and no error for that curve; with oAuto no candidate is less in normalized error, and if the mean is positive and some candidate passes through all times, the chosen one does. |
| `LeastSquares.ExactFit` | google_benchmark/src/complexity.cc:81-114 | Times on a curve that is not zero at every sample are fitted with exactly their factor and without an error. |
| `LeastSquares.ExactChoice` | google_benchmark/src/complexity.cc:132-146 | With a positive mean, the chosen curve passes through all times whenever some candidate does. |
| `LeastSquares.TwoMeasurements` | google_benchmark/src/complexity.cc:81-114 | Two measurements fitted with a constant: their mean, and half their distance over it as the normalized error. |
| `LeastSquares.AutoIsBest` | google_benchmark/src/complexity.cc:132-146 | With a positive mean time the chosen curve and coefficient are best over all six curves and all coefficients. |
| `LeastSquares.AutoIsWorst` | google_benchmark/src/complexity.cc:132-146 | With a negative mean time the chosen curve has the largest least residual of all that can be fitted. |
| `CurveChoice.BestExactlyWhen` | google_benchmark/src/complexity.cc:132-146 | The choice is best over all six curves and all coefficients if and only if the mean time is positive, or it is zero and no candidate correlates with the times, or it is negative and all candidates that can be fitted fit equally well. |
| `CurveChoice.BestForMeasuredTimes` | google_benchmark/src/complexity.cc:132-146 | For times that are not negative the choice is always best. |
| `CurveChoice.BestForZeroMean` | google_benchmark/src/complexity.cc:135-137 | With a zero mean the constant curve is kept; it is best if and only if the times are orthogonal to every candidate. |
| `CurveChoice.BestForNegativeMean` | google_benchmark/src/complexity.cc:140-146 | With a negative mean the choice is best if and only if all candidates that can be fitted have the same least residual. |
| `CurveChoice.LeastResidual` | google_benchmark/src/complexity.cc:86-100 | The least residual of a curve, attained by some coefficient, is the sum of squared times less what the curve explains. |
| `CurveChoice.NegativeTimesMislead` | google_benchmark/src/complexity.cc:132-146 | On the times -1 and -2 of the sizes 1 and 2 the line has residual 0, but the chosen curve has at least 0.5. |
| `CurveChoice.ZeroMeanMisleads` | google_benchmark/src/complexity.cc:132-146 | On the times -1 and 1 of the sizes 1 and 2 the constant curve is kept and is not best. |
| `LeastSquares.RmsOrder` | google_benchmark/src/complexity.cc:108-113 | Normalized errors order curves as their residuals do exactly for a positive mean, the other way round for a negative one, and not at all for zero. |
| `RunLength.RleEncode` | examples/google_benchmark_cmake/memory_bench.hpp:12-40 | The loop writes the runs with their decimal counts. |
| `RunLength.RleDecode` | examples/google_benchmark_cmake/memory_bench.hpp:43-64 | The nested loops read counts and characters. |
| `RunLength.RoundTrip` | examples/google_benchmark_cmake/memory_bench.hpp:12-64 | Decoding the encoding gives the text back exactly when the text has no decimal digits. |
| `RunLength.DigitIsLost` | examples/google_benchmark_cmake/memory_bench.hpp:12-64 | The text "1" is encoded as "11", which decodes to nothing. |
| `RunLength.ParseDecimal` | examples/google_benchmark_cmake/memory_bench.hpp:24-52 | Reading a printed count gives the count. |
| `RunLength.NoLeadingZero` | examples/google_benchmark_cmake/memory_bench.hpp:24-38 | No count but zero is printed with a leading zero. |
| `RunLength.DecodeToken` | examples/google_benchmark_cmake/memory_bench.hpp:43-64 | In any text, digits and a character decode to as many copies as the digits say, and digits at the end to nothing. |
| `RunLength.RunsAreMaximal` | examples/google_benchmark_cmake/memory_bench.hpp:20-32 | The runs expand to the text, have positive counts, and neighbours have different characters. |
| `RunLength.MaximalRunsUnique` | examples/google_benchmark_cmake/memory_bench.hpp:20-32 | There is only one way to write a text as such runs. |
| `BenchUri.SanitizeBenchArgs` | core/src/codspeed.cpp:17-41 | The find-and-replace loop computes the sanitized text; a text that does not end in a bracket group comes back unchanged; undefined exactly for the empty text. |
| `BenchUri.GroupIsEscaped` | core/src/codspeed.cpp:17-41 | In a text with a bracket group at the end the group is escaped and nothing else. |
| `BenchUri.EscapesTheFirst` | core/src/codspeed.cpp:28-37 | Escaping puts a backslash before both colons of the first separator and goes on behind it; a text without a separator stays. |
| `BenchUri.UnescapeEscaped` | core/src/codspeed.cpp:28-37 | Removing the backslashes from an escaped group without own backslashes gives the group back. |
| `BenchUri.CleanExactlyWhen` | core/src/codspeed.cpp:28-37 | No separator is left in the last bracket group exactly when the group has no run of three or more colons of odd length. |
| `BenchUri.IdempotentExactlyWhen` | core/src/codspeed.cpp:17-41 | Sanitizing twice is sanitizing once under exactly the same condition. |
| `BenchUri.OnlyTheGroupChanges` | core/src/codspeed.cpp:17-41 | What is before the last bracket group and the brackets are kept. |
| `BenchUri.SplitsExactlyWhen` | google_benchmark/src/benchmark.cc:405-417 | The last separator of the sanitized name is the last one before the bracket if and only if the group has no odd run of three or more colons; otherwise it is inside the bracket. |
| `BenchUri.SplitsBeforeTheBracket` | google_benchmark/src/benchmark.cc:405-417 | For a name with such a group or with no group at all: the split name starts after the last separator in front of the group, and the URI is the sanitized name, with the placeholder in front when there is no such separator. |
| `BenchUri.SplitsAtTheLast` | google_benchmark/src/benchmark.cc:405-417 | The name is what follows the last separator, and the whole URI, with the placeholder in front, when there is none. |
| `BenchUri.StartBenchmark` | core/src/codspeed.cpp:80-93 | The URI is the sanitized name, or the name with the placeholder when it has no separator. |
| `BenchUri.HasFileExactlyWhen` | core/src/codspeed.cpp:80-93 | The URI of a started benchmark has a separator if and only if it is not the case that all separators of the name are in its group and the group is clean when escaped. |
| `BenchUri.NoFileInUri` | core/src/codspeed.cpp:80-93 | "a[b::c]" gets neither the placeholder nor keeps its separator. |
| `BenchUri.OddRunStays` | core/src/codspeed.cpp:17-41 | "a[:::]" keeps a separator in its group, and sanitizing it again changes it. |
| `BenchUri.FirstSepIsFirst` | core/src/codspeed.cpp:30-35 | The search finds the first separator, and -1 means that there is none. |

## Left out

- Memory-order effects and fairness: steps are sequentially consistent, and termination is a bound on the steps taken.
- Random seeds, printing of configurations and reports, and all reporters.
- Labels, manual iteration times set by the user (the merged manual time is a sum of arbitrary values), and rates derived from counters.
- Scheduler.Benchmarks.RunOne: what the code does after reading the front of an empty list is undefined; the model
  stops there and says so.
- ArgsProduct.Benchmark.ArgsProduct: what the code does after reading past the end, without any list, is undefined; the
  model stops there and says so, and so do BenchUri.SanitizeBenchArgs and BenchUri.StartBenchmark for the empty text.
- Runner.BenchmarkRunner.DoNIterations: the merged results of a run are an arbitrary function of the requested count;
  `BenchmarkRuns.RunsMakeAProperWorld` proves what is assumed of it for all runs of the protocol.
- Runner.BenchmarkRunner.DoOneRepetition: the extra runs for a memory manager and a profiler are not modelled; they have
  their own thread manager, and iters, the search and the merged results do not depend on them. Nor is the analysis
  build, which runs the benchmark once there and returns.
- PerfCounters.Create: of the attributes only disabled and pinned are modelled, as one flag that the kernel ignores.
- PerfKernel.Kernel.Read: counts are unbounded integers, and a read returns whole words.
- Walltime.ComputeBenchmarkStats: the division that converts seconds is by 10^9 exactly, and rounding is not modelled.
- The coefficient of variation: a quotient of two modelled values.
- The choice between real and CPU time in `ComputeBigO`: it fits one list of times and reuses the curve for the other.
- Names of benchmarks as markers under random interleaving, and the JSON written for a walltime report.
- Iteration counts of skipped States: a skip sets the counter to zero, so it no longer counts work done.
