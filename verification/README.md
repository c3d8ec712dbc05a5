# Watermark engines and their quantile sketch

A Dafny model of the two stream-processing engines of the repository and of what they rest on.

* **Quantile sketch** (`local_ddsketch/`): a dictionary of bucket counters that folds its two lowest buckets when it is
  over capacity, and a sliding window of such sketches with a cache of answers.
* **Strict engine and coordinator** (`strict/`): events and punctuation open and close tumbling windows, a late filter
  and a bounded id filter guard them, a key-value store mirrors the state, closed windows survive crashes, and the
  coordinator takes a guarded minimum of the engines' watermarks. `reports/` holds the offline form of the engine.
* **Heuristic engine, dead-letter queue and corrections** (`heuristic/`): a watermark estimated from observed lag closes
  windows early, late events become corrections, and the sink applies every correction once.

Values, times and watermarks are reals; a watermark can also be minus infinity (`Ext`). Every object the program updates
in place is a class whose methods are proved against a function on values (`StrictSpec.Process`, `HeuristicSpec.Process`,
`CoordinatorSpec.Receive`, `Histogram.Canon`, ...). The theorems are about those functions, over all runs or all
interleavings.

Main results, by module:

| module | result |
|---|---|
| `Histogram`, `SketchSpec`, `Sketch` | Collapse, insert and merge share one canonical form, so merging is exact and order-free even after collapse; the exact one-sided quantile guarantee |
| `SketchRanks` | The guarantee against the raw values added: which value a query is about, and how far the answer can be from it, below, inside and above the accepted range |
| `SlidingSpec`, `SlidingWindow`, `Betweenness` | What the window holds in every run, how many slices exist, that the cache never shows, and that merged quantiles lie between the parts |
| `StrictTrace` | The strict engine is a function of its trace: the fate of every event, the watermark and the remembered ids of every run are computed from the operations alone, and every result counts the events it should |
| `StrictRuns`, `StrictTotals` | Emission once and in order, exact window counts, conservation, zero loss, exactly which events are late, and exactly when the watermark falls |
| `StrictBroadcast` | What hearing the global watermark does to an engine: which events are then late for good, and how an id can be lost under it |
| `StrictTwoRuns`, `StrictPurging` | The id filter with purging agrees with one that never forgets, exactly when windows are at most 60 s; exactly when a purge is harmless for good |
| `StrictDelta` | Completeness is monotone in delta, flushes and heard global watermarks included |
| `OfflineSweep` | The offline sweep equals, and in general bounds, the online engine |
| `Utf8`, `Store`, `StrictRecords`, `StrictEngine` | The stored index equals memory after every operation, and a restart reads it back, also after a crash or a recovery that left records of closed windows |
| `Recovery`, `RecoveryStore` | Output survives crashes at any point after a window's first durable record, with exact conditions; recovery can always be completed; the engine's store goes through the records of that protocol |
| `ReportHistory`, `CoordinatorHistory`, `AggregatorHistory` | What each collector knows and where each global watermark moves, from the messages delivered alone; exactly when a partition is never overtaken |
| `WatermarkProtocol`, `WatermarkSafety`, `AggregatorProtocol` | Safety of both global watermarks over every interleaving of engines, reports to the coordinator and broadcasts back to the engines |
| `HeuristicHistory`, `HeuristicWindows` | Which arrivals are repetitions, where every other event goes, when windows close and what results and counters say, from the history of arrivals |
| `HeuristicWatermark`, `HeuristicProgress` | Monotone, bounded, rate limited; in sweep mode the best candidate so far, in default mode it catches up with its candidate; the lag estimate follows its readings and settles |
| `HeuristicTotals`, `Corrections`, `Completeness`, `Settling`, `SinkVersions` | Conservation of events across engine, queue, emitter and sink; when the final count is exact; that it can always be reached |

Where code and documentation differ, the model follows the code:

* `local_ddsketch/sketch.py:120-126` is documented as the smallest value of a bucket. The index is a ceiling, so it is the
  largest (`SketchSpec.SingleValueAnswer`). The documented relative error alpha does not hold as it stands
  (`SketchSpec.DocumentedErrorFails`); `SketchSpec.DocumentedErrorExactly` says for which queries it does, and
  `SketchSpec.ScaledAnswerWithinAlpha` that scaling by 1 - alpha restores it for values whose bucket is kept.
* `strict/engine.py:61` reads a name that is not defined there. The model takes the constructor's argument `delta_base_s`.
* `strict/engine.py:424-430` promises that an id is purged only after the watermark has passed it. Before the first
  punctuation that fails (`StrictPurging.EarlyPurgeCountsTwice`), with windows longer than 60 s it is not enough
  (`StrictPurging.LongWindowCountsTwice`), and a watermark that was only heard can fall again
  (`StrictBroadcast.HeardPurgeCountsTwice`); `StrictPurging.PurgeHarmlessIff` gives the condition for each purge.
* `strict/worker.py:369-380` writes the global watermark into the engines; the next accepted event takes it back
  (`strict/engine.py:385`). `StrictRuns.WatermarkFallsIff` says exactly when the watermark falls. It is without effect on
  a partition counted in every recomputation (`WatermarkProtocol.HearingIsIdle`).
* The comment at `heuristic/engine.py:467-469` says that limiting starts with the first watermark. The first watermark is
  the candidate itself, unlimited (`HeuristicWatermark.FirstWatermark`); the limit applies from then on.
* `run.py:2416` computes corrections with the default window size. Corrections meet their windows only when that size is
  the engine's (`Window.SizesMustAgree`), which the completeness theorems take as given.

## Model

| member | source | states |
|---|---|---|
| `Window.Start` | common/window.py:23-25 | The start of an event's window is a multiple of the size, at or below the event and less than one size away |
| `Window.StartUnique` | common/window.py:23-29 | No other aligned window holds the event: windows do not overlap |
| `Window.StartIff` | common/window.py:23-29 | An aligned window is the window of exactly the events with a time in it |
| `Window.StartMonotone` | common/window.py:23-25 | A later event never belongs to an earlier window |
| `Window.AlignedGap` | common/window.py:23-29 | Different windows lie at least one whole window apart |
| `Window.WindowsBetween` | common/window.py:37-44 | The loop lists exactly the aligned windows that meet the range, each once, in increasing order |
| `Window.WindowsOverlapping` | common/window.py:46-58 | Starting one window early and filtering lists the same set with the right ends |
| `Window.BetweenIsOverlapping` | common/window.py:37-58 | The two listings agree on every range |
| `Window.SizesMustAgree` | heuristic/dlq.py:171-193 | Engine and dead-letter queue assign every event to the same window if and only if they use the same size |
| `Power.CeilLog` | local_ddsketch/sketch.py:111-118 | The ceiling of a logarithm as the exponent whose power first reaches the ratio |
| `SketchSpec.BucketIndex` | local_ddsketch/sketch.py:111-118 | The computed index is the one bucket whose edges enclose the value |
| `SketchSpec.BucketUnique` | local_ddsketch/sketch.py:111-126 | A value lies between the edges of one bucket only |
| `SketchSpec.BucketMonotone` | local_ddsketch/sketch.py:111-118 | Larger values never have lower buckets |
| `Histogram.CanonMeaning` | local_ddsketch/sketch.py:160-173 | The canonical form keeps the highest indices, as many as fit; only the smallest kept bucket gains; no count is lost |
| `Histogram.CanonIdempotent` | local_ddsketch/sketch.py:160-173 | Collapsing a collapsed sketch changes nothing |
| `Histogram.CanonAfterFold` | local_ddsketch/sketch.py:168-173 | Folding buckets that will be folded anyway does not change the outcome, so the order of folding is irrelevant |
| `Histogram.CanonPlus` | local_ddsketch/sketch.py:211-250 | Merging canonical forms and collapsing is collapsing the sum of the uncollapsed histograms |
| `Histogram.RankOfCanon` | local_ddsketch/sketch.py:195-203 | Collapsing moves the bucket of a rank only if that bucket was folded, and then to the smallest kept one |
| `Histogram.RankMonotone` | local_ddsketch/sketch.py:195-203 | A larger rank never lies in a lower bucket |
| `Histogram.RankExists` | local_ddsketch/sketch.py:198-207 | The rank walk always finds a bucket: the fallback after the loop is unreachable |
| `SketchSpec.InsertionOrderIrrelevant` | local_ddsketch/sketch.py:130-156 | Any arrangement of the same values gives the same histogram |
| `SketchSpec.HistOfConcat` | local_ddsketch/sketch.py:211-236 | Histograms of two value lists add up to the histogram of both |
| `SketchSpec.MergeIsExact` | local_ddsketch/sketch.py:211-250 | Two collapsed sketches merged hold the buckets of one sketch given all values, in any arrangement |
| `SketchSpec.QuantileGuarantee` | local_ddsketch/sketch.py:177-203 | For the rank-r value v the answer is never below v; it is below gamma times v when v's bucket is kept; otherwise it is the edge of the smallest kept bucket |
| `SketchSpec.QuantileMonotone` | local_ddsketch/sketch.py:177-203 | Answers never fall when q grows |
| `SketchSpec.ScaledAnswerWithinAlpha` | local_ddsketch/sketch.py:43-60 | For a value whose bucket is kept, an answer scaled by 1 - alpha meets the documented relative error |
| `SketchSpec.SingleValueAnswer` | local_ddsketch/sketch.py:120-126 | For one value the answer is the upper edge of its bucket, a lower bound only for a value on that edge |
| `SketchSpec.DocumentedErrorExactly` | local_ddsketch/sketch.py:43-60 | The answer to a query is within relative error alpha of the rank-r value if and only if that value's bucket was not folded and the value is not in the lower part of it |
| `SketchSpec.FoldedIsFar` | local_ddsketch/sketch.py:160-173 | A folded value is answered outside the documented relative error, always |
| `SketchSpec.DocumentedErrorFails` | local_ddsketch/sketch.py:43-60 | A concrete sketch and value for which the documented relative error fails |
| `SketchSpec.RankHasValue` | local_ddsketch/sketch.py:195-203 | Every rank from one to the number of accepted values has a value, so the guarantee applies to every query |
| `SketchSpec.Rank` | local_ddsketch/sketch.py:195-197 | The queried rank lies between one and the number of values |
| `SketchSpec.RankIs` | local_ddsketch/sketch.py:195-197 | The queried rank is the least positive one that reaches the share q of the values |
| `SketchRanks.QuantileExists` | local_ddsketch/sketch.py:177-203 | Every query is about a quantile of the raw values, and it is one of the values added |
| `SketchRanks.RawGuarantee` | local_ddsketch/sketch.py:130-203 | For a raw quantile inside the accepted range the answer is not below it, and below gamma times it when its bucket is kept; a quantile below the range is answered by the least accepted value when bucket 0 is kept, one above it by the edge of the largest value's bucket |
| `SketchSpec.TotalOfHistOf` | local_ddsketch/sketch.py:138-145 | The total is the number of non-negative values inserted |
| `Sketch.DDSketch.Create` | local_ddsketch/sketch.py:62-88 | The constructor accepts exactly the parameters its four checks allow, and starts empty |
| `Sketch.DDSketch.Add` | local_ddsketch/sketch.py:130-147 | A negative value changes nothing; any other is clamped and counted once, and the buckets stay canonical |
| `Sketch.DDSketch.AddMany` | local_ddsketch/sketch.py:149-156 | A batch adds the histogram of its values |
| `Sketch.DDSketch.MaybeCollapse` | local_ddsketch/sketch.py:160-173 | The pairwise loop ends in the canonical form |
| `Sketch.DDSketch.Quantile` | local_ddsketch/sketch.py:177-207 | It raises exactly outside [0, 1]; otherwise it answers the edge of the rank bucket, or 0 when empty |
| `Sketch.DDSketch.MergeInto` | local_ddsketch/sketch.py:238-273 | In-place merge adds the counted histograms of compatible sketches whatever either had collapsed; an incompatible one is refused and nothing changes |
| `Sketch.DDSketch.Merge` | local_ddsketch/sketch.py:211-236 | The new sketch counts both arguments and leaves them untouched |
| `Sketch.DDSketch.Copy` | local_ddsketch/compat.py:163-177 | A copy has the same buckets and count and is a separate object |
| `Betweenness.BetweenTwo` | local_ddsketch/sketch.py:177-203 | The rank bucket of a sum lies between the rank buckets of its two parts |
| `Betweenness.MergedQuantileBetween` | local_ddsketch/compat.py:429-436 | For any number of non-empty parts, collapsed themselves or not, the merged quantile is at least the smallest answer of the parts, and at most the largest one unless it is the lowest bucket the merge kept; with room for the buckets the parts hold it always is |
| `SlidingSpec.Coverage` | local_ddsketch/compat.py:342-387 | In every run a slice that starts inside the window holds exactly the non-negative values of its granule, no slice holds any other value, and no slice reaches back a whole granule before the window |
| `SlidingSpec.GranuleIsHist` | local_ddsketch/compat.py:359-387 | What a complete slice holds is the histogram of the raw values added in its granule |
| `SlidingSpec.SliceBound` | local_ddsketch/compat.py:342-387 | At most ceil(W/g) + 1 sub-sketches exist in every run |
| `SlidingSpec.MergedAnyOrder` | local_ddsketch/compat.py:429-432 | The merge of all slices does not depend on the order of the dictionary |
| `SlidingSpec.WindowAnswerUnique` | local_ddsketch/compat.py:414-439 | The answer over the window is determined by the slices |
| `SlidingWindow.SlidingWindowDDSketch.Add` | local_ddsketch/compat.py:359-387 | One value moves the window, prunes, joins its granule or is dropped, as the step function says, and no stale cache survives |
| `SlidingWindow.SlidingWindowDDSketch.Advance` | local_ddsketch/compat.py:402-410 | The window edge moves forward only, expired slices go, and a cache that depended on them is forgotten |
| `SlidingWindow.SlidingWindowDDSketch.PruneExpired` | local_ddsketch/compat.py:342-355 | Exactly the slices that start before the window are removed, and the cache is reset if and only if there were any |
| `SlidingWindow.SlidingWindowDDSketch.MergeAll` | local_ddsketch/compat.py:429-432 | Copying the first slice and merging the others in any order yields the sum of all |
| `SlidingWindow.SlidingWindowDDSketch.Quantile` | local_ddsketch/compat.py:414-439 | The cached query answers exactly what a fresh merge of all present slices would answer |
| `SlidingWindow.SlidingWindowDDSketch.CommonQuantiles` | local_ddsketch/compat.py:434-435 | Every entry of the refreshed cache is a right answer for the present slices |
| `StrictRuns.WatermarkFollowsCommit` | strict/engine.py:372-389 | In every run in which the engine hears no global watermark ahead of its local one, the watermark is the last accepted punctuation minus delta and every open window ends after it |
| `StrictRuns.LocalFollowsCommit` | strict/engine.py:372-389 | In every run, whatever is heard, the local watermark is the last accepted punctuation minus delta, the watermark is not behind it, and every open window ends after it |
| `StrictRuns.WatermarkFallsIff` | strict/engine.py:382-385 | An operation moves the watermark back if and only if it is an accepted event or a larger punctuation and the watermark heard before is ahead of the new local one |
| `StrictRuns.StepWatermarkMonotone` | strict/engine.py:372-385 | While the watermark is the local one, no operation moves it back |
| `StrictRuns.LastCommitIsMax` | strict/engine.py:372-380 | The last accepted punctuation is the largest one received |
| `StrictRuns.ShutForGood` | strict/engine.py:515-518 | A window that is closed, or that the local watermark has passed, stays so through every later operation |
| `StrictBroadcast.LateForGoodIff` | strict/worker.py:369-380 | In every run, an event is late now and whatever follows, if and only if its window is closed or the local watermark has passed it; a global watermark that was heard is not enough |
| `StrictRuns.EmissionOnce` | strict/engine.py:382-418 | In every run, flushes included, open and closed windows are disjoint and the emitted results are the closed windows, each once |
| `StrictRuns.EmissionOrder` | strict/engine.py:386-413 | Before any flush the emitted starts increase over the whole run and every closed window ends at or before the local watermark |
| `StrictRuns.StepMetrics` | strict/engine.py:474-540 | Each operation moves exactly the counters its outcome names |
| `StrictRuns.Accounting` | strict/engine.py:474-540 | Every received event is on time, late, duplicate or dropped by the queue guard, and each counter is the number of such events |
| `StrictRuns.WindowsExact` | strict/engine.py:529-538 | The counters of every window, open or closed, are those of the events accepted into it; other windows had none |
| `StrictTrace.FateIsVerdict` | strict/engine.py:474-540 | In every run, whatever is heard, flushed or purged, the engine's verdict on every event is the one computed from the operations before it: full queue, window passed or flushed, id accepted before and not yet forgotten, or accepted |
| `StrictTrace.RunFollows` | strict/engine.py:372-472 | In every run the watermark, the newest event time, the remembered ids and the closed windows are those of the trace |
| `StrictTrace.WindowsCountEvents` | strict/engine.py:529-538 | In every run an open window counts the accepted events with a time in it, and as errors those with status 500; a window neither open nor closed has none |
| `StrictTrace.ResultsCountEvents` | strict/engine.py:395-413 | In every run an emitted result has the engine's partition and the bounds of an aligned window, and counts the accepted events with a time between them, at least one, and those with status 500 |
| `StrictTrace.MetricsByTrace` | strict/engine.py:474-540 | In every run each counter is the number of events with its fate, or of punctuations, in the trace |
| `StrictRuns.ZeroLoss` | strict/engine.py:505-518 | If every event is at most delta behind the largest punctuation before it, and nothing ahead of the local watermark is heard, no event is ever dropped as late |
| `StrictBroadcast.HearingLosesEvents` | strict/worker.py:369-380 | An engine that heard a global watermark past the window of an event drops that event as late, although its punctuation is honest |
| `StrictRuns.LateIffPassed` | strict/engine.py:505-518 | Before any flush an event is late if and only if its window ends at or before the watermark, which is the largest punctuation minus delta when nothing ahead of that was heard |
| `StrictTotals.Conservation` | strict/engine.py:382-418 | In every run the on-time counter is the sum of the counts in open and in emitted windows |
| `StrictTotals.CloseConserves` | strict/engine.py:390-413 | Closing any set of windows moves counts without losing or doubling one |
| `StrictTwoRuns.BoundedDedupIsExact` | strict/engine.py:420-454 | With windows of at most 60 s, one time per id, and purges only after a punctuation and under the local watermark, every event of every run meets the same fate as in an engine that never forgets an id |
| `StrictPurging.BoundedDedupIff` | strict/engine.py:420-454 | Over all runs with one time per id, and purges after a punctuation and under the local watermark, the two filters always agree if and only if windows are at most 60 s |
| `StrictPurging.LongWindowCountsTwice` | strict/engine.py:447-454 | With longer windows any event at time zero can be accepted twice, although every purge follows a punctuation and nothing is heard |
| `StrictPurging.PurgeHarmlessIff` | strict/engine.py:440-454 | At any moment of any run a purge changes no verdict from then on, whatever follows and whatever is heard, if and only if every id it drops belongs to a window that is closed or that the local watermark has passed |
| `StrictPurging.EarlyPurgeCountsTwice` | strict/engine.py:440-454 | A concrete run in which a purge before any punctuation lets a duplicate be counted |
| `StrictBroadcast.HeardPurgeCountsTwice` | strict/worker.py:369-380 | With windows of any size: a punctuation, an event, a global watermark heard, a purge and a second event make the watermark fall from 100 to -1, and the first event is accepted again |
| `StrictDelta.CompletenessMonotone` | strict/engine.py:372-389 | On the same trace a larger delta accepts every id a smaller one accepts and drops no more events as late, whatever is purged, with flushes too when an id always has the same time, as long as the engine with the larger delta hears nothing ahead of its local watermark |
| `StrictDelta.HeardMonotone` | strict/worker.py:369-380 | The same whatever is heard, under the conditions of the exact id filter for both engines |
| `StrictDelta.CountersMonotone` | strict/engine.py:505-540 | Under those conditions, and whatever is heard, a larger delta never lowers the on-time counter nor raises the late counter |
| `StrictTwoRuns.OnTimeCountsIds` | strict/engine.py:520-537 | Under the conditions of the exact id filter the on-time counter is the number of distinct accepted ids |
| `OfflineSweep.SweepStrictAll` | reports/analyze_dataset.py:194-246 | For every delta the report counts the events whose window ends after the earlier maximum minus delta; an empty dataset raises |
| `OfflineSweep.PartitionPass` | reports/analyze_dataset.py:330-342 | One pass gives each partition the totals of sweeping that partition's events alone |
| `OfflineSweep.StrictPartitionAnalysis` | reports/analyze_dataset.py:309-355 | The same for every delta; an empty dataset raises |
| `OfflineSweep.PartitionsNeverLoseMore` | reports/analyze_dataset.py:324-342 | The per-partition sweeps together never count fewer events on time than the global sweep |
| `OfflineSweep.FreshFate` | strict/engine.py:505-525 | The engine accepts a fresh event if and only if the sweep's test holds for its largest punctuation |
| `OfflineSweep.SweepBoundsEngine` | reports/analyze_dataset.py:212-229 | The sweep is a lower bound for any schedule whose punctuation never runs ahead of the events, and exact when each event follows the running maximum |
| `OfflineSweep.SweepIsEngine` | reports/analyze_dataset.py:212-229 | The sweep counts what the online engine accepts on the same distinct events with a punctuation of the running maximum after each |
| `Utf8.DecodeEncode` | common/rocks_store.py:61-69 | Decoding a stored key gives back the key |
| `Utf8.EncodeInjective` | common/rocks_store.py:61-64 | Different keys have different encodings |
| `Utf8.NoByteFF` | common/rocks_store.py:61-64 | No encoding contains the byte 0xFF (section 3 of RFC 3629) |
| `Utf8.PrefixOfEncoding` | common/rocks_store.py:143-147 | A byte prefix test on encodings is the prefix test on keys |
| `Utf8.RangeIsPrefix` | common/rocks_store.py:199-204 | The range from a prefix to the prefix followed by eight 0xFF holds exactly the keys with that prefix |
| `Store.RocksStore.Put` | common/rocks_store.py:85-93 | The store becomes the old map with one key set |
| `Store.RocksStore.Get` | common/rocks_store.py:95-106 | The stored value, or nothing for a missing key |
| `Store.RocksStore.Delete` | common/rocks_store.py:108-119 | The key goes, silently when absent |
| `Store.RocksStore.Items` | common/rocks_store.py:135-150 | Exactly the pairs whose key has the prefix |
| `Store.RocksStore.ClearPrefix` | common/rocks_store.py:185-218 | Range delete and fallback remove exactly the keys with the prefix; only the fallback knows how many |
| `Store.RocksStore.ClearByIteration` | common/rocks_store.py:207-218 | Writing deletions in batches of a thousand removes all matching keys, and the count is right |
| `StrictRecords.CodecExists` | strict/engine.py:186-192 | For every window size there is a way to print window starts that can be read back |
| `StrictRecords.WindowKeysInjective` | strict/engine.py:186-208 | Different windows have different record keys |
| `StrictRecords.PutClosed` | strict/engine.py:200-208 | Writing the record of a closed window, in either eviction state, as closing and recovery do, keeps the index equal to memory |
| `StrictRecords.HandedOver` | strict/engine.py:406-417 | Once a window has been handed over the index still equals memory, whether or not a record of it was there before |
| `StrictRecords.PutOpen` | strict/engine.py:186-192 | Writing an open-window record keeps the index equal to memory |
| `StrictRecords.DeleteOpen` | strict/engine.py:194-198 | Deleting an open-window record keeps the index equal to memory |
| `StrictRecords.PutSeen` | strict/engine.py:223-229 | Writing a seen-id record keeps the index equal to memory |
| `StrictRecords.DeleteSeen` | strict/engine.py:231-235 | Deleting a seen-id record keeps the index equal to memory |
| `StrictEngine.StrictWatermarkEngine.OnPunctuation` | strict/engine.py:372-380 | Only a larger punctuation moves the watermark and closes windows; the index still equals memory |
| `StrictEngine.StrictWatermarkEngine.HearGlobal` | strict/worker.py:369-380 | The watermark becomes the larger of itself and the global one; nothing else changes |
| `StrictEngine.StrictWatermarkEngine.AdvanceWatermark` | strict/engine.py:382-418 | Exactly the windows that end at or before the watermark leave, in increasing order, each result handed over once; the index still equals memory |
| `StrictEngine.StrictWatermarkEngine.EmitClosed` | strict/engine.py:395-418 | Handing over one window appends its result and leaves every record but that window's own as it was, and that one gone; between its three writes the store is recorded, then marked, then without it |
| `StrictEngine.StrictWatermarkEngine.PurgeSeenIds` | strict/engine.py:420-472 | The ids behind the cutoff go from memory and store, whether or not the bulk cleanup is due |
| `StrictEngine.StrictWatermarkEngine.RewriteSeen` | strict/engine.py:468-472 | Clearing and rewriting all id records keeps the index equal to memory |
| `StrictEngine.StrictWatermarkEngine.AcceptEvent` | strict/engine.py:525-537 | An accepted event is remembered and counted in its window, in memory and store alike |
| `StrictEngine.StrictWatermarkEngine.ProcessEvent` | strict/engine.py:474-551 | Queue guard, late filter and id filter apply in this order, the whole new state is that of the step function, and the index equals memory |
| `StrictEngine.StrictWatermarkEngine.FlushWindows` | strict/engine.py:726-758 | All open windows are handed over in increasing order and their records are gone |
| `StrictEngine.StrictWatermarkEngine.RestoreIndex` | strict/engine.py:237-267 | A restart reads back exactly the open windows and seen ids, and of the closed windows exactly those that still have a record, with their results |
| `StrictEngine.StrictWatermarkEngine.FromStore` | strict/engine.py:237-276 | An engine restarted over such a store is a valid engine with that index and the checkpoint's watermark fields |
| `StrictClosing.CloseOneMore` | strict/engine.py:390-413 | Closing windows one at a time in increasing order is closing them together |
| `Recovery.ReachableInv` | strict/engine.py:278-356 | Through any crashes, also during recovery or inside a flush, a delivered window carries its first durable result and an undelivered one is still on record |
| `Recovery.CrashSafeOutput` | strict/engine.py:406-418 | With tiered storage, output manager and metadata, whenever the engine is idle every window that ever had a durable record has reached the sink, with its first result |
| `Recovery.RecoveryDeliversIff` | strict/engine.py:300-352 | A complete recovery delivers an undelivered recorded window if and only if tiered storage, output manager and metadata are all present |
| `Recovery.RecoveryCanComplete` | strict/engine.py:278-356 | After a crash in any reachable state the recovery scan can be completed; with all three present it then has delivered every window with its first durable result |
| `Recovery.FilesGrow` | strict/engine.py:406-409 | The file of a closing window is there after its upload exactly when it was before or the upload to tiered storage succeeded, and no step removes a file |
| `Recovery.ScanOne` | strict/engine.py:320-349 | Scanning a window records it as uploaded exactly when there is no tiered storage or its file was there, and uploads it again otherwise |
| `Recovery.RecoveryConfirms` | strict/engine.py:278-356 | When a scan with tiered storage ends, every scanned window that is recorded as uploaded has its file |
| `RecoveryStore.ClosingIsRecovery` | strict/engine.py:406-417 | After each of the three writes that close a window, the closed-window records of the store are the durable records that the recovery protocol has at that point |
| `RecoveryStore.RestoredIsRestart` | strict/engine.py:257-267 | The closed windows a restarted engine reads back from its store are those that the restart of the protocol finds |
| `GuardedMin.GuardKeepsBelow` | strict/coordinator.py:187-202 | A recomputation over newer local watermarks keeps the global one below every partition counted each time |
| `GuardedMin.Guard` | strict/coordinator.py:199-202 | A recomputation never lowers the global watermark |
| `GuardedMin.LeastWatermark` | strict/coordinator.py:194-200 | The minimum over the counted partitions |
| `Coordinator.StrictCoordinator.ReceiveHeartbeat` | strict/coordinator.py:131-171 | A stale token changes only the violation counter; otherwise token, term, reports, statuses and global watermark are those of the step function |
| `Coordinator.StrictCoordinator.RecordReports` | strict/coordinator.py:149-169 | Reported partitions get the larger watermark and are active again; the others are untouched |
| `Coordinator.StrictCoordinator.UpdateStatuses` | strict/coordinator.py:173-185 | Every partition's status follows from the age of its last report |
| `Coordinator.StrictCoordinator.ComputeGlobalWatermark` | strict/coordinator.py:187-202 | The global watermark becomes the guarded minimum over the counted partitions and stays when there are none |
| `CoordinatorHistory.HeartbeatMeaning` | strict/coordinator.py:131-202 | A heartbeat is accepted unless its worker was heard with a larger token; then the global watermark rises to the least watermark reported by the partitions whose last report is at most 30 s old and not idle, if that is larger, and stays when there are none; a rejected one only counts as a violation |
| `CoordinatorHistory.PartByHistory` | strict/coordinator.py:149-169 | Of every partition the coordinator knows the worker, time and idle mark of the last accepted report and the largest watermark reported |
| `CoordinatorHistory.StatusByHistory` | strict/coordinator.py:173-185 | After an accepted heartbeat a partition is active, stale, idle or failed by the age of its last report: 0.5, 2 and 30 s |
| `CoordinatorHistory.BookkeepingByHistory` | strict/coordinator.py:136-148 | The term is the largest token accepted, the violations are the rejected heartbeats, and a worker was last seen at its last accepted one |
| `ReportHistory.NeverOvertaken` | strict/coordinator.py:187-202 | A partition whose first report was not behind the global watermark and which was counted ever since is never overtaken |
| `ReportHistory.OvertakenIff` | strict/coordinator.py:187-202 | A partition counted from its first report on is never overtaken if and only if that report was not behind the global watermark |
| `CoordinatorHistory.LateJoinerIsBehind` | strict/coordinator.py:151-160 | Two heartbeats after which a partition that registered late is behind the global watermark |
| `WatermarkProtocol.GlobalWatermarkSafe` | strict/coordinator.py:131-202 | Over every interleaving with delayed, lost, reordered and repeated heartbeats and broadcasts: the global watermark is not ahead of a partition counted in every recomputation, no window ending at or before it is open there, and no event of such a window is accepted there |
| `WatermarkProtocol.HearingIsIdle` | strict/worker.py:369-380 | For a partition counted in every recomputation the watermark is the local one, and hearing any broadcast, however late, changes nothing |
| `WatermarkSafety.SafeByHeartbeats` | strict/coordinator.py:131-202 | The same safety with a premise read off the heartbeats delivered: the first report of the partition was not behind, and at every accepted heartbeat since its last report was at most 30 s old and did not mark it idle |
| `WatermarkSafety.EverCountedIff` | strict/coordinator.py:187-202 | The partitions of the two rows above are those that met that test at every accepted heartbeat at which any partition did |
| `WatermarkSafety.IdleByHeartbeats` | strict/worker.py:369-380 | For a partition that met the test at every such heartbeat, hearing any broadcast changes nothing |
| `WatermarkProtocol.NoWatermarkBeforeCounting` | strict/coordinator.py:187-202 | Until some partition was counted the global watermark is minus infinity |
| `WatermarkProtocol.ExtensionAdvances` | strict/coordinator.py:136-202 | In every later state of a run the global watermark, the term, all tokens and all local watermarks are at least what they were |
| `WatermarkProtocol.FencedForGood` | strict/coordinator.py:136-144 | Once a token was accepted, at every later moment a smaller one of that worker changes the violation counter and nothing else |
| `HeuristicWatermark.WatermarkMonotone` | heuristic/engine.py:446-499 | Over every run with a forward clock the watermark never falls and never passes the largest event time |
| `HeuristicWatermark.FirstWatermark` | heuristic/engine.py:465-474 | The first watermark is the largest event time minus the lag estimate, in either mode |
| `HeuristicWatermark.RateLimited` | heuristic/engine.py:489-497 | In default mode, from the first watermark on, its advance over a run is at most (rate + 10 sizes) times the elapsed time |
| `HeuristicWatermark.StepWatermark` | heuristic/engine.py:774-886 | Only an event that passes the duplicate and future filters touches the watermark fields |
| `HeuristicProgress.NewestIs` | heuristic/engine.py:849 | The newest event time is the largest among the arrivals that repeat no other and are not too far in the future |
| `HeuristicProgress.SweepWatermark` | heuristic/engine.py:463-487 | In sweep mode the watermark of every run is the largest newest-event-minus-estimate over all updates so far, outside the first cold-start phase |
| `HeuristicProgress.DefaultWatermark` | heuristic/engine.py:463-499 | In default mode each update moves the watermark from its last value up to the candidate, but no further than the rate times the time since the last update, and one window more after a tenth of a second; nothing else moves it |
| `HeuristicProgress.NeverBeyondBest` | heuristic/engine.py:463-499 | In either mode the watermark of every run is not ahead of the largest candidate so far |
| `HeuristicProgress.Reaches` | heuristic/engine.py:489-499 | In default mode, while every candidate is at least c, the watermark is at least the smaller of c and its old value plus the rate times the time measured |
| `HeuristicProgress.ReachesCandidate` | heuristic/engine.py:489-499 | With a positive rate it reaches a candidate that stays above it once the limiter has measured the gap divided by the rate |
| `HeuristicProgress.WaitedIsClock` | heuristic/engine.py:489-499 | That time is the time between the first and the last update when the clock stands still during an update |
| `HeuristicProgress.EstimateFollows` | heuristic/engine.py:501-564 | A prior counts while cold; fewer than ten values, or none new, change nothing; otherwise the reading is taken over up to the cap unless it is near, and in sweep mode a lower one pulls the estimate down by at most the decay rate |
| `HeuristicProgress.EstimateCapped` | heuristic/engine.py:459-461 | In every run with capped priors the estimate is the cap until the first observation and never above it; the quantile read when the fallback ends is taken over up to the cap |
| `HeuristicWatermark.EstimateBounds` | heuristic/engine.py:556-564 | Over any warm readings in sweep mode the estimate stays at most its cap and at least the smaller of its start and the readings |
| `HeuristicWatermark.SweepBounds` | heuristic/engine.py:556-564 | One reading lowers the estimate by at most the decay factor and never below the reading |
| `HeuristicWatermark.EstimateSettles` | heuristic/engine.py:556-564 | Constant positive readings not above the estimate are reached exactly after finitely many updates and kept |
| `HeuristicEngine.HeuristicWatermarkEngine.UpdateLEff` | heuristic/engine.py:501-564 | Cold prior, fewer than ten values, no new values, asymmetric sweep hysteresis and default hysteresis, as the step function |
| `HeuristicEngine.HeuristicWatermarkEngine.ComputeWatermarkNow` | heuristic/engine.py:446-499 | Phase 0, the fallback, the first watermark, sweep mode and the limiter, as the step function |
| `HeuristicEngine.HeuristicWatermarkEngine.CloseUpTo` | heuristic/engine.py:655-681 | Exactly the windows that end at or before the limit close, in increasing order, and queue their results |
| `HeuristicEngine.HeuristicWatermarkEngine.UpdateGlobalWatermark` | heuristic/engine.py:625-632 | The known global watermark never falls, and windows close accordingly |
| `HeuristicEngine.HeuristicWatermarkEngine.RouteEvent` | heuristic/engine.py:890-975 | Extreme lag and closed windows go to the late events, everything else is counted in its window |
| `HeuristicEngine.HeuristicWatermarkEngine.ProcessEvent` | heuristic/engine.py:774-975 | Duplicate filter, id purge, future guard, watermark, closing and routing in this order; the whole new state is that of the step function |
| `HeuristicHistory.DuplicateByHistory` | heuristic/engine.py:805-814 | Over every run an arrival raises the duplicate counter and changes nothing else if and only if an earlier arrival with its id did not, and no purge clock since was more than 60 s past that arrival; any other arrival adds one to the holdings of its own window |
| `HeuristicHistory.SeenByHistory` | heuristic/engine.py:742-757 | The remembered ids of every run are those of such arrivals, with their arrival times |
| `HeuristicWindows.RoutedByTest` | heuristic/engine.py:830-975 | An event that repeats no other is late exactly when it is too far in the future, too old, or for a closed window; otherwise it is counted in its own window only, and as an error exactly when its status is 500 |
| `HeuristicWindows.WindowsCountEvents` | heuristic/engine.py:943-975 | In every run each window, open or closed, counts the events routed to it with a time in it, and those with status 500 |
| `HeuristicWindows.ResultsCountEvents` | heuristic/engine.py:666-681 | In every run each queued result has the bounds of an aligned window and the engine's partition, and counts the events with a time between those bounds, and those with status 500 |
| `HeuristicWindows.ClosesExactly` | heuristic/engine.py:634-681 | An observed event or a delivered global watermark closes exactly the open windows that end at or before the engine's own watermark in sweep mode, or before a global one is known, and at or before the largest global watermark heard otherwise |
| `HeuristicWindows.CountersByHistory` | heuristic/engine.py:774-975 | In every run each counter is the number of arrivals of its kind in the history |
| `HeuristicEngine.HeuristicWatermarkEngine.FlushWindows` | heuristic/engine.py:1057-1080 | All open windows close in increasing order and queue their results |
| `HeuristicEngine.HeuristicWatermarkEngine.DrainResults` | heuristic/engine.py:700-711 | The queued results are returned once and the queue is empty |
| `HeuristicEngine.HeuristicWatermarkEngine.DrainLate` | run.py:2395-2399 | The late events are taken once and the list is empty |
| `HeuristicTotals.ProcessHolds` | heuristic/engine.py:774-975 | A duplicate changes no holding; any other event adds one to the window of its time, in the window or among the late events, and to no other window; results stay accounted for |
| `HeuristicTotals.CloseKeeps` | heuristic/engine.py:655-681 | Closing keeps every window's count, keeps open and closed windows apart, and queues each result |
| `HeuristicTotals.FlushKeeps` | heuristic/engine.py:1057-1080 | The same for a flush, after which nothing is open |
| `DlqSpec.CountPermuted` | heuristic/dlq.py:154-169 | How many entries a window has does not depend on their order |
| `DlqSpec.CorrectionsConserve` | heuristic/dlq.py:171-236 | The deltas for a window add up to its entries in the batch |
| `DlqSpec.GroupHolds` | heuristic/dlq.py:188-193 | A group holds the entries of its window, each as often as it occurs, and no others |
| `Dlq.SortKeeps` | heuristic/dlq.py:161-163 | The sort orders by arrival and keeps every entry |
| `Dlq.PurgeSplits` | heuristic/dlq.py:137-152 | Every entry is either purged or kept |
| `Dlq.PurgeSides` | heuristic/dlq.py:137-152 | The purged entries arrived before the cutoff and the kept ones did not, each in their old order |
| `Dlq.DLQPipeline.Enqueue` | heuristic/dlq.py:91-107 | The entry is appended |
| `Dlq.DLQPipeline.Drain` | heuristic/dlq.py:154-169 | The batch is the oldest entries up to the limit, the rest stays, nothing is lost |
| `Dlq.DLQPipeline.PurgeExpired` | heuristic/dlq.py:137-152 | Exactly the entries that arrived before the cutoff go; the others keep their order |
| `Dlq.DLQPipeline.ComputeCorrections` | heuristic/dlq.py:171-236 | One correction per window that occurs, with all its entries as delta and ids, and a fresh id each |
| `Dlq.GroupEntries` | heuristic/dlq.py:188-193 | The groups are the windows that occur, each with its entries in order |
| `Dlq.DownstreamEmitter.Enqueue` | heuristic/downstream_emitter.py:48-56 | A full queue drops and counts the correction; otherwise it is queued |
| `Dlq.DownstreamEmitter.Drain` | heuristic/downstream_emitter.py:58-77 | The largest deltas leave first, and each id that was not emitted before is emitted once |
| `Dlq.CorrectionProtocol.IsDuplicate` | heuristic/dlq.py:367-381 | True if and only if the id was seen before; the id is remembered either way |
| `Dlq.CorrectionProtocol.ApplyCorrection` | heuristic/dlq.py:383-395 | A processed correction leaves the row alone; a new one adds its delta and one version |
| `Corrections.DeltaInOneMore` | heuristic/dlq.py:387-395 | Processing one more id adds the delta of its correction, and nothing when it was processed before |
| `Corrections.IssueKeeps` | heuristic/downstream_emitter.py:48-56 | After enqueueing, every issued correction is queued, emitted or recorded as dropped |
| `Corrections.EmitKeeps` | heuristic/downstream_emitter.py:58-77 | After a drain the wire holds exactly the emitted corrections and none is lost |
| `Corrections.DeliverKeeps` | heuristic/dlq.py:383-395 | After any delivery, new or repeated, each row is the sum of the deltas processed so far, each once |
| `SinkVersions.QueueBounded` | heuristic/downstream_emitter.py:48-56 | In every run the emitter's queue holds no more corrections than it has room for |
| `SinkVersions.VersionsCount` | heuristic/dlq.py:383-395 | In every run the version of a row is one more than the number of corrections of its window processed, each once |
| `Completeness.EveryEventIsSomewhere` | heuristic/engine.py:830-847 | Conservation at every moment of every interleaving: an event that repeats no other, by the history of arrivals alone, is in its window, among the late events, in the queue, purged by retention, or in the delta of one correction; and every correction is queued, emitted or was dropped |
| `Completeness.HistoryIs` | heuristic/engine.py:774-815 | The history the conservation law counts from is the sequence of arrivals the run delivered to the engine |
| `Completeness.NeverTooMany` | heuristic/dlq.py:383-395 | The sink never shows more events for a window than there were, whatever is repeated or reordered |
| `Completeness.EventuallyComplete` | heuristic/dlq.py:154-236 | Once nothing is in flight the sink shows the true count if and only if no entry of the window fell to retention and no correction of it was lost to a full emitter queue |
| `Completeness.SettledCount` | heuristic/downstream_emitter.py:48-77 | The exact count of a settled window: the shortfall is the purged entries and the deltas never emitted |
| `Completeness.RoomyRunLosesNone` | heuristic/downstream_emitter.py:48-56 | If every enqueueing was checked for room first, no correction is ever lost |
| `Completeness.CompleteWithRoom` | heuristic/downstream_emitter.py:48-77 | Then a settled window shows its true count if and only if retention took none of its entries |
| `Settling.CanAlwaysSettle` | heuristic/dlq.py:154-236 | From every reachable moment upkeep alone leads to a moment with nothing in flight for the window, and the sink then shows the true count if and only if nothing of the window had already been discarded |
| `Settling.EmptyDlq` | heuristic/dlq.py:154-236 | Correcting one entry at a time and draining empties the queue without overflowing the emitter |
| `Aggregator.HeuristicAggregator.ReceiveWorkerWatermark` | heuristic/aggregator.py:90-109 | The larger watermark is recorded, statuses follow the ages, and the global watermark is recomputed, as the step function |
| `Aggregator.HeuristicAggregator.ComputeGlobal` | heuristic/aggregator.py:125-136 | The global watermark becomes the guarded minimum over active and stale partitions |
| `AggregatorHistory.ReportMeaning` | heuristic/aggregator.py:90-136 | A report raises the global watermark to the least watermark reported by the partitions whose last report is at most two seconds old, if that is larger, and leaves it alone when there are none |
| `AggregatorHistory.KnownByHistory` | heuristic/aggregator.py:90-109 | Of every partition the aggregator knows the worker and time of the last report and the largest watermark reported |
| `AggregatorProtocol.HeuristicGlobalSafe` | heuristic/aggregator.py:90-136 | Over every interleaving of engines, flushes, reports and broadcasts: for a partition counted in every recomputation the global watermark is not ahead of the engine's, and an engine that was not flushed never closed a window before its own watermark had passed it |
| `AggregatorHistory.SafeByReports` | heuristic/aggregator.py:90-136 | The same bound with a premise read off the reports: the first report of the partition was not behind, and at every report since its last one was at most two seconds old |
| `AggregatorHistory.EverCountedIff` | heuristic/aggregator.py:125-136 | The partitions of the row above are those whose last report was at most two seconds old at every report at which that was so of any partition |

## Left out

- Rounding: values and times are reals, `math.log` is replaced by the exact index it approximates, and percentages and
  rounded report columns are not modelled.
- Clocks: readings of the clock, and the tests that depend on them (cache age, checkpoint every ten seconds, bulk cleanup
  every five minutes, retention cutoff), are parameters.
- The engine's id time-to-live is the constant 60 s; partitions are numbered 0 to 11 in the sweep, as in the report.
- Store keys: how a window start is printed and read back (`Codec`) is a parameter, required to be invertible on the
  starts of windows of the engine's size; `StrictRecords.CodecExists` gives one. Values are stored as they are; pickling is
  not part of the model.
- `write_batch`, `keys`, `count`, `contains` and closing of the store.
- The strict engine without a store or without an output manager, and the tiered upload itself, appear only in
  `Recovery`, as conditions and as an upload that may fail.
- JSON checkpoints, Kafka offsets, and a store that holds records but no checkpoint metadata, which the source does not
  read back; the watermark fields of the metadata are arguments of `FromStore`.
- The crash between deleting an open-window record and writing the closed one (strict/engine.py:394-407).
- Coordinator reload, node skew, lag diagnostics; one coordinator lifetime only. The worker's test of a broadcast's term
  and command id only drops broadcasts, which the protocol allows at any time.
- The results on the offline sweep and on zero loss are about engines that hear nothing ahead of their local watermark,
  as a partition counted in all recomputations does; without that they are false (`StrictBroadcast.HearingLosesEvents`).
- StrictTwoRuns.BoundedDedupIsExact: requires windows of at most 60 s, and purges after the first punctuation and not
  between hearing a global watermark and the next advance, because without any of the three it is false; `StrictPurging`
  and `StrictBroadcast` have an input for each, and `StrictPurging.PurgeHarmlessIff` the exact condition of one purge.
- The wrapper class of `compat.py` delegates to `sketch.py` and is modelled as that; the second sliding window at the end of
  `sketch.py`, which has no cache, and all serialisation are left out.
- HeuristicEngine.HeuristicWatermarkEngine.UpdateLEff: the cold-start verdict with its prior, the sketch's number of values
  and its quantile are arguments; burst and adaptive-accuracy checks are left out.
- HeuristicEngine.HeuristicWatermarkEngine.ProcessEvent: feeding the sketch, replay detection and the negative-lag verdict
  are not modelled; what the rest of `process` reads of them enters through `Ambient`. Window-loss statistics and snapshots
  are left out, and the inbound queue is empty whenever an event enters.
- Heuristic engine persistence, which repeats the strict engine's write-through pattern.
- Aggregator safety is about watermarks: a heuristic engine may open a window that ends before the global watermark,
  because it tests only whether the window was closed.
- A partition that the minimum left out for a while, or that joined behind the global watermark, can be passed by it by
  design; the safety theorems are about the others (`ReportHistory.OvertakenIff`, `CoordinatorHistory.LateJoinerIsBehind`).
- Corrections: the `replace` and `append` patterns, previous counts, sums and latency statistics; windows are identified
  by partition and start. The sink shows the published result plus the deltas applied to it.
- Correction ids are fresh numbers; a collision of random identifiers is not modelled.
- Corrections.EmitKeeps: delivery to a sink is supplied by the environment of the model: a correction that leaves the
  emitter stays available, any number of times, in any order. The repository's own loop sends nothing: run.py:2436 uses
  what it drained only for a printed number, and apart from its tests no module applies corrections.
- Message transport, HTTP, gRPC, object storage, dashboards, thread races within one handler call, and the remaining
  modules of the repository.
