# Verified model of the trading platform's core

Dafny 4.11 models of seven parts of the repository, each with the properties
its code or documentation promises. `dafny verify dfyconfig.toml` checks
everything. Prices are reals or whole ticks and bins, times are integers, and
calls into code outside a part (handlers, the disk, the chart library, the
trading calendar) are arbitrary functions, oracles or step choices.

| part | modules |
|---|---|
| the event bus: queues, publishers, workers, `flush` | `EventBus`, `EventBusDelivery`, `EventBusFlush`, `EventBusProgress`, `EventBusDeadlock`, `EventBusObjects` |
| chart indicators kept up to date bar by bar | `ChartSeries`, `ChartVwap`, `ChartEma` |
| the volume profile | `ProfileDistribution`, `ValueArea`, `ProfileNodes`, `VolumeProfile` |
| the research Parquet writer | `ParquetWriter`, `ParquetFlush`, `ParquetRepeats`, `ParquetWriterObject` |
| opportunity clusters and the simulated trade tracker | `OpportunityClusters`, `SignalTracker`, `SignalTrackerRuns`, `SignalTrackerMirror` |
| the CME session time line and the backtest's days | `CmeCalendar`, `DaySlices` |
| tick-distance encoding and the live-bar merge | `TickCodec`, `TickTables`, `LiveMerge` |

`Wrappers`, `Sorting` and `Arithmetic` hold what they share. Code that updates fields is a
class whose methods are proved equal to functions on its state; the main
results are lemmas about those functions and about whole runs.

## Where the code falls short

- `flush` is documented to block until every subscriber queue has been drained.
  It does so on every interleaving if and only if no handler publishes to an
  earlier subscription, given that someone outside the handlers may publish
  (`EventBusFlush.FlushDrainsExactlyWhenNoBackward`).
- A subscription with backpressure can be blocked for ever by its own handler if
  and only if that handler may publish an event the subscription receives
  (`EventBusDeadlock.BlocksItselfExactly`); the whole bus then comes to a halt with
  work left (`EventBusDeadlock.BlocksItself`).
- The part-file counter is said to keep restarts from colliding with prior
  files. It starts again at 1, so a restart keeps every file, whatever is added
  and whatever fails, if and only if its run id has no file with a number from 1
  on (`ParquetWriter.RestartsKeepFilesExactly`).
- A batch that fails is retained as a whole, chunks already written included. So
  every accepted row is accounted for exactly once in all runs if and only if
  `max_pending_rows` is below `max_buffer_rows`, which the defaults are not
  (`ParquetRepeats.AlwaysOnceExactly`).
- The value-area target is said to guarantee 70 percent. An empty bin on both
  sides stops the expansion below it; it is reached if and only if the unbroken
  run of traded bins around the POC holds 70 percent
  (`VolumeProfile.SeventyPercentExactly`).
- Merging troughs divides by zero if and only if a cluster has no volume
  (`ProfileNodes.FailsExactlyOnEmptyCluster`). For every bin size three valid bars
  do that (`VolumeProfile.EmptyTroughFails`); without merging their value area holds
  half of the volume (`VolumeProfile.GapMissesSeventy`).
- Peaks exclude the POC, but a merged peak lands on it if and only if the mean of
  some cluster rounds to it, and that cluster then has peaks on both sides
  (`VolumeProfile.PocAmongCentresExactly`).
- As long as updates keep epochs, the cached EMA is right for all of them if and
  only if the rebuild saw `period` bars, and two, or, for period 1, one bar while an
  earlier viewport had left a state (`ChartEma.LiveLineIsRebuild`). Old states are
  never cleared: for period 2 and one bar the next update of that bar draws a point
  smoothed from the old viewport's average, where a rebuild draws none
  (`ChartEma.LeakFromOldViewport`). After a warm rebuild the line is right if and
  only if no replacement changes the last bar's epoch (`ChartEma.WarmLineIsRebuild`).
- The cached VWAP is right if and only if no replacement changes the last bar's
  epoch (`ChartVwap.LiveLineIsRebuild`); its cached previous state is a rebuild's if
  and only if nothing was appended, or the last bar starts no session, or no sums
  are left before it (`ChartVwap.PreLastIsRebuild`).
- A position is first checked on the bar after its entry. A trade held longer
  loses more than its risk if and only if its exit bar opens beyond the stop, and
  one closed on its entry bar if and only if that bar closes beyond it
  (`SignalTrackerRuns.LosesMoreExactly`), by any multiple of the risk
  (`SignalTrackerRuns.EntryBarCanLoseMore`).
- Observed prices come back exactly from the exported table unless the VWAP is
  mid-tick and the price an odd number of ticks (`TickCodec.SnappedExactly`).
- A history poll keeps live bars, but of a bucket already on the chart it keeps
  the row shown before, not the newer live bar (`LiveMerge.ShownRowWins`).

## Model

| member | source | states |
|---|---|---|
| EventBus.Conservation | src/alpha/core/event_bus.py:93-123 | in every reachable state, for any handlers and interleaving: a blocking subscription has accepted = handled ++ in flight ++ queued, a dropping one is short of exactly drop_count evicted events, every queue holds the newest accepted events, the newest of all is at the tail or already with the worker, queues respect maxsize, task_done never outruns put, and no publisher waits on a dropping subscription |
| EventBus.NextKeeps | src/alpha/core/event_bus.py:192-202 | every step of publisher, worker and flush keeps the invariant of the whole bus |
| EventBusDelivery.PublishReachesEveryMatch | src/alpha/core/event_bus.py:93-123 | over any run from the start, suspended puts and full queues included, what a task has put into queues is exactly what it was asked to publish, each event to the subscriptions of its type and symbol in order, once, up to what is still outstanding |
| EventBusDelivery.RunDelivers | src/alpha/core/event_bus.py:98-123 | the same from any reachable state on |
| EventBusDelivery.StepDelivers | src/alpha/core/event_bus.py:99-123 | one step makes the next outstanding delivery, or none |
| EventBusDelivery.OnlyTasksDeliver | src/alpha/core/event_bus.py:123-123 | accepted lists grow only by a publisher's own event, one at a time |
| EventBusDelivery.CountersAreExact | src/alpha/core/event_bus.py:102-110 | full_count is how often a publisher found the queue full, and so is drop_count where it evicts |
| EventBusDelivery.JoinWakesExactly | src/alpha/core/event_bus.py:80-109 | a waiting join is woken by exactly the task_done, after a handler or for an evicted event, that leaves nothing unfinished |
| EventBusFlush.FlushDrainsExactlyWhenNoBackward | src/alpha/core/event_bus.py:76-80 | flush returns only with all queues empty and no handler running, on all interleavings, if and only if no handler publishes to an earlier subscription (publishing to its own is no obstacle to flush, but see EventBusDeadlock) |
| EventBusFlush.ForwardDrains | src/alpha/core/event_bus.py:78-80 | joining the queues one after another is enough when handlers never publish backward |
| EventBusFlush.BackwardRun | src/alpha/core/event_bus.py:76-80 | for any backward publish there is a run in which the earlier worker takes the event, its handler suspends, and flush returns |
| EventBusProgress.ReachableIsSound | src/alpha/core/event_bus.py:192-202 | every state the bus gets to from its start, whatever outside callers do, satisfies what the progress results ask for |
| EventBusProgress.NoDeadlock | src/alpha/core/event_bus.py:98-123 | under strictly forward handlers every such state with queued, in-flight or blocked work can move, full queues included |
| EventBusProgress.ReachableMoves | src/alpha/core/event_bus.py:98-123 | the same said of reachable states |
| EventBusProgress.StepRank | src/alpha/core/event_bus.py:192-202 | every step makes a lexicographic work measure smaller |
| EventBusProgress.EveryRunSettles | src/alpha/core/event_bus.py:98-123 | whatever the scheduler, the bus settles: all work done and flush returned |
| EventBusDeadlock.BlocksItself | src/alpha/core/event_bus.py:111-123 | for any queue size, a handler that may publish an event its own blocking subscription receives brings the bus to a state with work left and no step |
| EventBusDeadlock.BlockedForEver | src/alpha/core/event_bus.py:123-123 | a handler suspended in a put on its own full queue stays there, and its queue unhandled, whatever anybody does |
| EventBusDeadlock.BlocksItselfExactly | src/alpha/core/event_bus.py:111-123 | such a state is reachable if and only if the handler may publish an event its subscription receives |
| EventBusObjects.Subscription.Deliver | src/alpha/core/event_bus.py:99-123 | one target of publish: counts a full queue, evicts the oldest or suspends, else puts |
| EventBusObjects.Subscription.GetEvent | src/alpha/core/event_bus.py:194-194 | the worker takes the oldest event of its queue |
| EventBusObjects.Subscription.FinishEvent | src/alpha/core/event_bus.py:201-202 | task_done after the handler: the event counts as handled and the unfinished counter drops |
| EventBusObjects.PublishSegment | src/alpha/core/event_bus.py:98-123 | the publish loop up to its next suspension offers the event to exactly the matching targets passed and touches no other |
| EventBusObjects.PublishResumed | src/alpha/core/event_bus.py:123-123 | a suspended publish puts its event and goes on with the targets after it |
| ChartSeries.IncreasingIsItself | web/components/candles-chart.tsx:179-189 | sorting and deduplicating a list with rising epochs changes nothing |
| ChartSeries.SortedDedupedExactly | web/components/candles-chart.tsx:179-189 | of any list the rebuild sees, by rising epoch, exactly the bars that come last in theirs |
| ChartSeries.IsLiveExactly | web/components/candles-chart.tsx:549-556 | the live branch is taken if and only if the viewport is the same, neither list is empty, and length and second-to-last bar fit a replacement or an append |
| ChartSeries.OpsAreLive | web/components/candles-chart.tsx:549-556 | replacing the last bar or appending one takes the live branch |
| ChartSeries.LiveIsOp | web/components/candles-chart.tsx:549-561 | a live update with unchanged earlier bars is one of the two |
| ChartVwap.SessionIsSixHoursAhead | web/components/candles-chart.tsx:150-159 | the session id is the date six hours ahead |
| ChartVwap.BuildVwapData | web/components/candles-chart.tsx:212-258 | the rebuild loop returns the line and the two states of the fold over the sorted bars |
| ChartVwap.LineIsVwap | web/components/candles-chart.tsx:234-255 | each point times the session's volume so far is the sum of (high + low + close) / 3 times volume since the session began, at a date change six hours ahead or a gap over an hour; without volume it is the bar's vwap, or its close |
| ChartVwap.VwapLine.BarsChanged | web/components/candles-chart.tsx:579-584 | the effect updates the cached states and the series by the live step or by a rebuild |
| ChartVwap.LiveKeepsSync | web/components/candles-chart.tsx:299-319 | one live update leaves states and line those of a rebuild, session resets included |
| ChartVwap.LiveLineIsRebuild | web/components/candles-chart.tsx:652-655 | after any replace-last and append updates the shown line and the last state are the rebuild's if and only if no replacement changed the last bar's epoch |
| ChartVwap.PreLastIsRebuild | web/components/candles-chart.tsx:231-238 | after any replace-last and append updates that keep epochs the cached previous state is the rebuild's if and only if nothing was appended, or the last bar starts no session, or no sums are left before it |
| ChartEma.BuildEmaData | web/components/candles-chart.tsx:266-297 | the rebuild loop returns the EMA line from bar number period on, and both states |
| ChartEma.EmaIsWeightedMean | web/components/candles-chart.tsx:277-286 | the average is a sum over all closes with weights 2 / (period + 1) times powers of (period - 1) / (period + 1), the first close without the factor |
| ChartEma.EmaBetween | web/components/candles-chart.tsx:286-286 | the average never leaves the range of the closes |
| ChartEma.LineIsEma | web/components/candles-chart.tsx:287-289 | the line has the average of every bar from number period on |
| ChartEma.EmaLine.BarsChanged | web/components/candles-chart.tsx:586-603 | the effect for one period: skip without a state or before warm-up, else smooth, draw and shift the states |
| ChartEma.LiveKeepsSync | web/components/candles-chart.tsx:321-329 | from a synchronised cache each live update gives the rebuild's states and line |
| ChartEma.LiveLineIsRebuild | web/components/candles-chart.tsx:678-685 | for any rebuild, with whatever states earlier viewports have left, the line is the rebuild's after all epoch-keeping updates if and only if the rebuild saw at least period bars, and two, or, for period 1, one bar with an old previous state |
| ChartEma.WarmLineIsRebuild | web/components/candles-chart.tsx:586-603 | after a warm rebuild a sequence of updates leaves the line a rebuild's if and only if none changes the last bar's epoch; both states are the rebuild's then |
| ChartEma.LeakFromOldViewport | web/components/candles-chart.tsx:399-400 | after a change from two or more bars to one, an update draws a point smoothed from the old bars' average |
| ChartEma.LeakedPoint | web/components/candles-chart.tsx:684-685 | the same from any old previous state, and a rebuild draws nothing there |
| ChartEma.Frozen | web/components/candles-chart.tsx:591-592 | far below warm-up appended bars leave the state frozen |
| ChartEma.AlmostWarm | web/components/candles-chart.tsx:591-602 | one bar short of warm-up a skipped replacement makes the first point wrong |
| ProfileDistribution.SharesEven | src/alpha/features/volume_profile.py:178-185 | the shares of one bar differ by at most one and the lower bin has more |
| ProfileDistribution.BinHolds | src/alpha/features/volume_profile.py:152-154 | a price is in exactly one bin, the one from a boundary up to the next away from zero |
| ProfileDistribution.SpansExactly | src/alpha/features/volume_profile.py:165-173 | a bar spans exactly the bins that hold one of its prices |
| ProfileDistribution.BinsOfBars | src/alpha/features/volume_profile.py:165-185 | the distribution has a bin exactly where some bar has a price |
| ProfileDistribution.SpreadBar | src/alpha/features/volume_profile.py:165-185 | the inner loop gives each spanned bin its share and adds exactly the bar's volume in all |
| ProfileDistribution.BuildDistribution | src/alpha/features/volume_profile.py:156-187 | each bin holds the sum of the bars' shares, and the total is the volume of the bars that have bins |
| ProfileDistribution.TallyNonNegative | src/alpha/features/volume_profile.py:178-185 | bars without negative volume leave none in any bin |
| ProfileDistribution.ValidBarsKeepVolume | src/alpha/features/volume_profile.py:160-161 | bars with low up to high have bins, so all their volume is kept |
| ProfileDistribution.BuildFromTrades | src/alpha/features/volume_profile.py:189-205 | each bin holds the sizes traded in its price range, its delta is what was bought there less what was sold, and the total is conserved |
| ProfileDistribution.DeltaBounded | src/alpha/features/volume_profile.py:196-205 | no bin's delta exceeds its volume |
| ValueArea.ExpandFrom | src/alpha/features/volume_profile.py:223-243 | the loop stays in range, keeps the volume of its interval and ends at the specified interval |
| ValueArea.ReachesTarget | src/alpha/features/volume_profile.py:217-234 | the target is reached if and only if the unbroken run of traded bins around the POC holds it |
| ValueArea.GapStopsExpansion | src/alpha/features/volume_profile.py:233-234 | an empty neighbour stops the area at 3 of 6 contracts, whatever the target |
| ValueArea.LastStepNeeded | src/alpha/features/volume_profile.py:227-241 | without its last bin the area was below the target, and that bin has at least the volume of the one at the other end, more if it is the lower one |
| ValueArea.EndsAtTargetOrGap | src/alpha/features/volume_profile.py:227-234 | the area ends at the target or between empty or missing bins |
| ValueArea.AreaGrowsOn | src/alpha/features/volume_profile.py:227-241 | the area of a higher target extends that of a lower one, so these facts hold for each bin added |
| ValueArea.ValueAreaIsOptimal | src/alpha/features/volume_profile.py:118-121 | on a unimodal profile no interval with as many bins holds more and every shorter one misses the target |
| ValueArea.UnimodalReaches | src/alpha/features/volume_profile.py:220-243 | on a unimodal profile every target up to the total is reached |
| ProfileNodes.BuildClusters | src/alpha/features/volume_profile.py:263-268 | the loop returns the specified clusters |
| ProfileNodes.ClustersCut | src/alpha/features/volume_profile.py:261-268 | the clusters cut the sorted nodes exactly at the gaps wider than the merge distance |
| ProfileNodes.CenterInRange | src/alpha/features/volume_profile.py:272-278 | the weighted, rounded centre stays within its cluster's prices |
| ProfileNodes.CenterIsExactly | src/alpha/features/volume_profile.py:272-278 | the centre is bin p if and only if the weighted mean is less than half a bin from p, or half a bin and p is even |
| ProfileNodes.MergeNodes | src/alpha/features/volume_profile.py:245-281 | the method computes the merge, the division by zero included |
| ProfileNodes.MergeGuarantees | src/alpha/features/volume_profile.py:250-256 | volume is conserved, centres lie between merged nodes and more than min_merge_distance apart, ranked by volume |
| ProfileNodes.MergeRanks | src/alpha/features/volume_profile.py:258-281 | the ranking is by volume and then by rising price |
| ProfileNodes.UnmergedNodesStay | src/alpha/features/volume_profile.py:257-259 | without a merge distance all nodes stay as they are |
| ProfileNodes.MergedAreCenters | src/alpha/features/volume_profile.py:270-278 | with one, the merged nodes are the centres of the clusters |
| ProfileNodes.FarApartInPrice | src/alpha/features/volume_profile.py:265-265 | the distance in bins is the distance in price |
| ProfileNodes.FailsExactlyOnEmptyCluster | src/alpha/features/volume_profile.py:272-275 | the merge divides by zero if and only if a cluster has no volume |
| VolumeProfile.RawPeaks | src/alpha/features/volume_profile.py:290-296 | exactly the strict inner maxima other than the POC |
| VolumeProfile.RawTroughs | src/alpha/features/volume_profile.py:306-310 | exactly the strict inner minima |
| VolumeProfile.PeaksExactly | src/alpha/features/volume_profile.py:290-296 | a node is a raw peak if and only if it is an inner level above both neighbours and not the POC |
| VolumeProfile.TroughsExactly | src/alpha/features/volume_profile.py:306-310 | and a raw trough if and only if it is an inner level below both |
| VolumeProfile.FindPoc | src/alpha/features/volume_profile.py:117-120 | the lowest price among the largest bins |
| VolumeProfile.PeaksNeverFail | src/alpha/features/volume_profile.py:283-298 | merging peaks never divides by zero |
| VolumeProfile.FindNodes | src/alpha/features/volume_profile.py:122-127 | fails if and only if a group of troughs has no volume; otherwise returns the first max_hvn merged peaks and the first max_lvn merged troughs that are no such peak; the lists are disjoint and spaced out |
| VolumeProfile.Finalize | src/alpha/features/volume_profile.py:105-150 | the profile has the total volume, the POC, its value area and exactly these nodes |
| VolumeProfile.ProfileSays | src/alpha/features/volume_profile.py:112-121 | the POC is the lowest of the largest bins, val <= poc <= vah, and the area's volume is that of all bins between val and vah |
| VolumeProfile.ListsOfProfile | src/alpha/features/volume_profile.py:122-127 | the lists are the first max_hvn merged peaks and the first max_lvn merged troughs not among them, as many as there are |
| VolumeProfile.Build | src/alpha/features/volume_profile.py:75-88 | the distribution is that of the bars; there is no profile if and only if no bar has a bin, a division by zero if and only if a group of troughs is empty, and otherwise the profile describes the distribution |
| ProfileDistribution.TradesByPrice | src/alpha/features/volume_profile.py:195-203 | volume and delta of a bin by price range and side |
| VolumeProfile.BuildFromTrades | src/alpha/features/volume_profile.py:90-101 | the same for trades, where only an empty list has no profile and the total is the sum of the sizes |
| VolumeProfile.NodesOfProfile | src/alpha/features/volume_profile.py:283-312 | the listed nodes are prices of merged extremes ranked by volume, each between two of the extremes merged, and merging keeps their volume |
| VolumeProfile.SeventyPercentExactly | src/alpha/features/volume_profile.py:217-234 | the profile's value area holds 70 percent of the total if and only if the unbroken traded run around the POC does |
| VolumeProfile.RunAroundPoc | src/alpha/features/volume_profile.py:223-234 | a traded POC has such a run |
| VolumeProfile.PocAmongCentresExactly | src/alpha/features/volume_profile.py:289-298 | the POC is the price of a merged peak if and only if merging is on and some cluster's mean rounds to it; that cluster has peaks on both sides |
| VolumeProfile.CentreMayBeThePoc | src/alpha/features/volume_profile.py:274-278 | a distribution whose POC is listed as a high volume node |
| VolumeProfile.EmptyTroughFails | src/alpha/features/volume_profile.py:272-275 | for every bin size three valid bars give bins of 3, 0 and 3, and fail under any settings that merge |
| VolumeProfile.GapMissesSeventy | src/alpha/features/volume_profile.py:233-234 | without merging every profile of these bars has a value area of 3 out of 6 |
| ParquetWriter.WriterSafety | src/alpha/research/parquet_writer.py:146-216 | over any run with writes failing anywhere: the pending count is the rows retained and at most max(max_buffer - 1, max_pending); every accepted row is on disk, retained or dropped; files are never overwritten and hold 1 to max_buffer rows of their partition; no obs_id is accepted twice between resets |
| ParquetWriter.NeverOverwrites | src/alpha/research/parquet_writer.py:249-264 | whatever is called later, the files written stay as they are |
| ParquetFlush.FlushOutcome | src/alpha/research/parquet_writer.py:178-216 | a flush tries every batch: as many stay as operations raised, flush_errors grows by that and rows_written by the rows of the others, which are on disk in order in new files of their partition, full but for the last; the guard then drops the oldest batches down to half the limit |
| ParquetFlush.QuietFlush | src/alpha/research/parquet_writer.py:181-201 | when nothing raises, nothing is kept and every batch is on disk in full |
| ParquetFlush.AcceptsExactlyNew | src/alpha/research/parquet_writer.py:153-160 | over any run a row is accepted if and only if its id is new since the last reset |
| ParquetFlush.AppendIsLast | src/alpha/research/parquet_writer.py:158-160 | an accepted row is the last of its partition, and a new partition comes last |
| ParquetFlush.AddFlushesExactly | src/alpha/research/parquet_writer.py:153-163 | adding a new row touches the disk if and only if the rows in memory then fill a buffer |
| ParquetFlush.HealthyResetHasEverything | src/alpha/research/parquet_writer.py:218-225 | on a healthy disk a reset leaves every accepted row on disk, once |
| ParquetWriter.ExactlyOnce | src/alpha/research/parquet_writer.py:178-201 | accepted rows are on disk, pending or dropped exactly once if and only if no batch failed after one of its chunks had been written |
| ParquetRepeats.AlwaysOnceExactly | src/alpha/research/parquet_writer.py:203-216 | rows are accounted for exactly once over all runs and failures if and only if max_pending is below max_buffer |
| ParquetRepeats.LateRun | src/alpha/research/parquet_writer.py:249-264 | otherwise one row more than a buffer, a failed mkdir and a failed second chunk leave a batch that failed late |
| ParquetWriter.HealthyDiskHasEverything | src/alpha/research/parquet_writer.py:165-201 | with a disk that never fails a final flush leaves every accepted row on disk, once |
| ParquetWriter.RestartsKeepFilesExactly | src/alpha/research/parquet_writer.py:133-135 | every run with every pattern of failures keeps all files found at the start if and only if none has this run id and a number from 1 on |
| ParquetWriter.ReusedRunIdOverwrites | src/alpha/research/parquet_writer.py:249-264 | for any such file there is a run on a healthy disk that replaces it |
| ParquetWriter.ApplyKeeps | src/alpha/research/parquet_writer.py:146-225 | each of add, flush and reset_session keeps the invariant and the bound and only adds files |
| ParquetWriterObject.LevelObservationWriter.Add | src/alpha/research/parquet_writer.py:146-163 | deduplicates, buffers and flushes as the specification says |
| ParquetWriterObject.LevelObservationWriter.Flush | src/alpha/research/parquet_writer.py:165-216 | writes each batch, keeps the failed ones and applies the overflow guard |
| ParquetWriterObject.LevelObservationWriter.ResetSession | src/alpha/research/parquet_writer.py:218-225 | flushes and forgets the ids |
| ParquetWriterObject.LevelObservationWriter.WritePartition | src/alpha/research/parquet_writer.py:237-270 | writes chunks under increasing numbers until one fails |
| OpportunityClusters.ClusterOpportunities | scripts/analyze_setup_overlap.py:153-177 | sorts, numbers the rows, and two rows get one number if and only if a chain of overlapping closed windows joins them |
| OpportunityClusters.SameIdIffJoined | scripts/analyze_setup_overlap.py:155-156 | the same for the loop's result on any list sorted by detection |
| OpportunityClusters.ClustersAreApart | scripts/analyze_setup_overlap.py:169-174 | numbers rise exactly across a start, and a lower number's windows have all ended before a higher one begins |
| OpportunityClusters.IdCountsStartTimes | scripts/analyze_setup_overlap.py:165-177 | the number is a count that mentions no order of rows |
| OpportunityClusters.OrderDoesNotMatter | scripts/analyze_setup_overlap.py:165-165 | any two sorted arrangements of the same rows give every row the same number |
| SignalTracker.SignalTracker.PreBarUpdate | scripts/backtest.py:194-242 | checks exits of the open position, or opens the first triggered pending setup |
| SignalTracker.SignalTracker.OnPipelineOutput | scripts/backtest.py:244-265 | replaces the pending setups by the qualifying ones in rank order |
| SignalTracker.SignalTracker.CloseAtEnd | scripts/backtest.py:267-270 | closes what is open at the last close |
| SignalTracker.EntersTheBest | scripts/backtest.py:203-242 | a flat bar opens a position if and only if it touches a qualifying trigger, and then the best grade, ties to the smallest id |
| SignalTracker.GradesInOrder | scripts/backtest.py:97-104 | a grade's index is its place in the order, and a missing grade comes last |
| SignalTrackerRuns.OpensTheBestOfTheLatest | scripts/backtest.py:249-265 | in any run the candidates are those of the latest output |
| SignalTrackerRuns.DayTrades | scripts/backtest.py:354-389 | every opening of a day yields exactly one record, in order, closed on the first later bar with an exit or on the last bar; windows are disjoint and nobody is held longer than max_hold_bars |
| SignalTrackerRuns.ClosesFor | scripts/backtest.py:274-314 | every reason to close and every exit price in terms of the exit bar: a gap before the stop, the stop before the target, all before the time limit; and no earlier bar had any of them |
| SignalTrackerRuns.RecordSays | scripts/backtest.py:316-346 | times, P&L, risk, reward, their ratio and the outcome of a record |
| SignalTrackerRuns.TradeEarns | scripts/backtest.py:274-314 | with well-formed levels and bars the target earns exactly the reward, the stop loses exactly the risk, a gap at least that, and every other close of a checked bar is strictly between |
| SignalTrackerRuns.LosesMoreExactly | scripts/backtest.py:267-302 | a trade held past its entry bar loses more than its risk if and only if its exit bar opens beyond the stop, one closed on its entry bar if and only if that bar closes beyond it |
| SignalTrackerRuns.NeverOnTheFirstBar | scripts/backtest.py:368-374 | on a day that hands its first bar to a fresh tracker no position opens on that bar |
| SignalTrackerRuns.EntryBarCanLoseMore | scripts/backtest.py:267-270 | for every first bar and every multiple there is a day of two bars that ends on the entry bar and loses that multiple of the risk |
| SignalTrackerMirror.MirroredDay | scripts/backtest.py:209-314 | negated prices and flipped sides give the same records: times, reasons, holds, risk, reward, P&L, outcome |
| CmeCalendar.NextTradingDay | src/alpha/calendar/cme.py:71-75 | the first trading day after a date |
| CmeCalendar.PrevTradingDay | src/alpha/calendar/cme.py:77-81 | the last trading day before a date |
| CmeCalendar.NextAndPrevAreInverse | src/alpha/calendar/cme.py:71-81 | the two searches undo each other exactly from trading days |
| CmeCalendar.SessionDate | src/alpha/calendar/cme.py:120-127 | returns d if and only if d is a trading day and t lies in [18:00 of the trading day before, 18:00 of d) |
| CmeCalendar.SessionsTile | src/alpha/calendar/cme.py:55-56 | every instant has exactly one session date, and session dates rise with time |
| CmeCalendar.SessionPhase | src/alpha/calendar/cme.py:87-118 | the phase of the instant on its session date |
| CmeCalendar.PhasesAdvance | src/alpha/calendar/cme.py:87-118 | within one session date the phase is given by how many of eight cuts have passed, so phases only advance from CLOSED to CLOSED |
| CmeCalendar.IsOpen | src/alpha/calendar/cme.py:83-85 | open if and only if some trading day d has (d - 1) 18:00 <= t < d 16:00 |
| DaySlices.FeedDays | scripts/backtest.py:686-692 | the day loop feeds each bar of the range in exactly one day, keeps time order, and runs exactly the dates with bars |
| DaySlices.WarmupBars | scripts/backtest.py:671-672 | the bars before the first day |
| DaySlices.WarmupThenDays | scripts/backtest.py:671-689 | warmup and days together are a prefix of the bars, without gap or overlap |
| DaySlices.SliceIsSessionDate | scripts/backtest.py:687-689 | a bar's slice is its session date if and only if that date is a trading day |
| TickCodec.PlainWithinHalfTick | src/alpha/research/query.py:107-108 | for any price and level the plain decoder is at most half a tick off |
| TickCodec.PlainExactOnGrid | src/alpha/research/query.py:107-108 | and exact when price and level differ by whole ticks |
| TickCodec.SnappedExactly | scripts/export_research_bundle.py:123-128 | for on-grid prices the snapping decoder is exact if and only if the level is not mid-tick or the price is an even number of ticks, and otherwise one tick away from the level |
| TickCodec.OrderIsKept | src/alpha/research/level_observer.py:98-116 | encoding and decoding keep the order of prices |
| TickCodec.FlagsOfARow | src/alpha/research/level_observer.py:276-297 | the overlap flag holds if and only if the level is less than half a tick outside the bar, and sides compare up to half a tick |
| TickCodec.ShapeIsKept | src/alpha/research/level_observer.py:276-279 | low <= open, close <= high survives encoding and decoding |
| TickTables.Process | src/alpha/research/level_observer.py:252-308 | emits one row for each level present, none for replayed bars |
| TickTables.RowExactly | src/alpha/research/level_observer.py:252-308 | a row is emitted if and only if the bar is not replayed and its level is present: a positive VWAP, a positive RTH VWAP in an RTH phase, the opening range's high or low |
| TickTables.OneRowEach | src/alpha/research/level_observer.py:252-272 | a bar has at most one row for a level |
| TickTables.LastOfTable | src/alpha/research/query.py:88-90 | of a table in any order the reader finds that row for every bar and level |
| TickTables.Reconstruct | src/alpha/research/query.py:83-141 | one bar per time with a VWAP row, in time order, decoded from the last such row |
| TickTables.TableRoundTrip | scripts/export_research_bundle.py:85-169 | encoding snapshots and reading the table back, rows in any order, returns exactly the recorded ones with their VWAP: within half a tick by the plain reader, and by the snapping reader exactly, or one tick off when the VWAP is mid-tick and the price odd |
| LiveMerge.BucketIsFloor | web/components/dashboard.tsx:343-364 | the bucket is the latest multiple of the timeframe and its own bucket |
| LiveMerge.MergeChangesOneBucket | web/components/dashboard.tsx:366-427 | on a list in bucket order a merge keeps the order, changes only the incoming bucket, and repeating it changes nothing |
| LiveMerge.OwnBarReplaces | web/components/dashboard.tsx:383-395 | a bar of the chart's own timeframe, or of none, replaces its bucket but for the open, vwap included |
| LiveMerge.SecondsStay | web/components/dashboard.tsx:371-371 | on a chart of seconds nothing is merged |
| LiveMerge.MergeAllByBucket | web/components/dashboard.tsx:391-427 | after any sequence of bars each bucket has collected its own arrivals, in order |
| LiveMerge.FinerBarsAggregate | web/components/dashboard.tsx:384-404 | finer bars, even out of order, give each bucket they reach the highest high, lowest low, first-arrived open and last-arrived close, volume and vwap, what it held before counting as the first |
| LiveMerge.MergeHistoryWithLiveTail | web/components/dashboard.tsx:437-456 | the method merges the latest live bar and then the shown rows after the history |
| LiveMerge.PollKeepsTheTail | web/components/dashboard.tsx:436-456 | bucket by bucket what a poll leaves: history up to its last row, the shown rows after it |
| LiveMerge.ShownRowWins | web/components/dashboard.tsx:443-455 | the shown row replaces a newer live bar of its bucket, but for the open, so the newer high, low and close survive if and only if the shown row had them |

## Left out

- Floating-point and 28-digit Decimal rounding: prices are reals or integers, and only the explicit rounding steps are modelled. The value-area target is the exact ceiling of 70 percent.
- Time zones and DST: the wall clock is given, and timestamps are integers, so different strings for one instant do not occur; invalid date strings are not modelled.
- `EventBus.unsubscribe` and `stop` during a run, and a bus that starts or stops between two steps; the subscription list is fixed and listed in the order `flush` visits it. That handlers see exceptions only in the log is not modelled.
- EventBusObjects.PublishSegment: assumes a running bus; the flag is part of the step system.
- ChartEma.LiveLineIsRebuild: one period; several are independent. Adding a period while the effect takes the live branch is not modelled. Bars whose close is not finite are not modelled, and `series.update` is taken to replace the last point, append a later one and refuse an earlier one.
- Candles, volume columns, session bands and extra lines of the chart, which are drawn from the same lists without a cache.
- ValueArea.ExpandFrom: bin volumes are not negative, as the two builders make them from valid bars and trades.
- VolumeProfile.Build: bar volumes and trade sizes are not negative, and the errors for an empty list and for bars without a bin are one result.
- ProfileNodes.CenterInRange: centres are rounded half to even on the exact quotient, not on its float.
- The formatting of the profile's distributions as strings, and the symbol, session and source labels.
- ParquetWriterObject.LevelObservationWriter.WritePartition: a failing directory creation is one of the oracle's failures; temporary files and their removal are not modelled.
- ParquetWriterObject.LevelObservationWriter.Flush: popping the written keys is done in the loop that writes them, which ends in the same state.
- Reading research rows after an at-least-once write: duplicates carry the same obs_id and are not removed by the writer.
- SignalTracker.SignalTracker.OnPipelineOutput: ids are compared as integers in place of strings, and events of other types, which are ignored, do not occur.
- The engines between a bar and its setups, the statistics and all printing of the backtest.
- CmeCalendar.NextTradingDay: trading days exist before and after every date; the bounds of the calendar library are not part of this model.
- TickTables.Reconstruct: tick sizes are positive; volumes, bands, session fields, opening-range levels and RTH VWAP are copied columns and not modelled.
- The serialized form of the replay cache, Databento, IBKR, Telegram and HTTP code, settings and enums.
- LiveMerge.FinerBarsAggregate: the volume of a bucket is that of its last arrival, because the code overwrites it instead of adding up.
