# Verified model of a metrics client

This project models the concurrent and algebraic core of a Go metrics client in Dafny and proves what its
documentation and tests promise. Concurrent code is modelled as transition systems with one atomic load,
compare-and-swap, store, channel operation or critical section per step, for any number of goroutines; code that
updates objects in place is modelled as classes whose methods are proved against value-level functions.
`dafny verify dfyconfig.toml` checks everything.

- **Ring buffer** (`Ring*.dfy`): the lock-free multi-producer multi-consumer ring with the evicting push.
  `RingMachine` has the 25 program points of Push, PushDropOldest, Pop and TryPop, `RingInvariant` the inductive
  invariant, `RingPreservation` and `RingRuns` its preservation, `RingTheorems`, `RingOnce` and `RingReports` what
  follows for every run, `RingCalls` and `RingSolo` what one call does in a run and alone, `RingCapacity` the rounding
  of the capacity and the slot mask, and `RingBuffer` the object as a caller without overlapping calls sees it.
- **Exponential histograms** (`Expo*.dfy`): the base-2 exponential histogram of the OpenTelemetry Metrics Data
  Model, section "ExponentialHistogram", with indexing, recording, downscaling, merging, data points, and the
  objects that do this in place. A positive value is its binary exponent, whether it is a power of two, and an
  arbitrary real in place of `math.Log2` of its fraction.
- **Flush, Shutdown and memory** (`Flush*.dfy`, `Memory*.dfy`): workers with their batches and background
  exports, generations, requests and acknowledgements over the ring as a FIFO queue; and the memory reservations of
  producers, evicters and workers. `FlushTheorems` says what a nil result delivers, `FlushReturns` exactly when it is
  nil, `FlushDrains` how much a drain takes; `FlushRisk`, `FlushSchedules`, `FlushMisled`, `FlushShield` and
  `FlushOverlap` say exactly when a nil result can miss the failure of another call's export.
- **Cardinality limiter** (`Cardinality*.dfy`, `TagKeys.dfy`): reserve, commit and release with a lock-free fast path.
- **OTLP accumulator** (`Accumulator*.dfy`, `ExplicitBuckets.dfy`): cumulative and delta series over any history of
  exports.
- **Report plans** (`Report*.dfy`): the compiler from struct types to flat report plans against a direct interpreter,
  first with all pointer types written out, then with named pointer types that may lead back to themselves; and what
  is reported, field by field (`ReportMeaning`).
- **Codecs** (`Packetize.dfy`, `EventText.dfy`, `DogStatsDEvents.dfy`, `EventLengths.dfy`, `EventTags.dfy`,
  `Netlink*.dfy`): datagram packing, DogStatsD events, netlink messages and attributes (section 2.3.2 of RFC 3549 for
  the message header).
- **Prometheus exposition** (`Prom*.dfy`): family registry, attribute sets, label lists and keys, the store over any
  history of observations and scrapes, histogram lines, and the text of a sample line with a reader for it.

Some results differ from what one may expect of the code:

- A nil result of Flush is not always right. A failed export made in the drain of one call is reported to that call
  only. So another call can return nil although an observation accepted before it was not delivered. Overlap is not
  needed: a Flush repeated after one that ended on its context can be misled in the same way, because the worker
  goes on draining for the earlier call (`drain.go:107-114`). `FlushOverlap.RunningMisleads`, `GivenUpMisleads` and
  `LaterMisleads` are the runs. `MisledIff` says exactly from which states it can happen, and `TrustIff` exactly what
  a caller has to know of the other calls: all earlier ones returned with their acknowledgements, and none begins
  before the return.
- The comment on `accumulate` says that the new state is not committed until the transport succeeds, but
  `exporters/otlp/exporter.go:97-99` commits it after a failed send as well. The model follows the code, which is
  what makes cumulative totals complete after failed sends.
- The comment on `drain` gives one ring capacity as the bound (`drain.go:117-121`). The loop condition is
  looked at once per chunk of 500, so a drain can pop up to 499 observations more. `FlushDrains.DrainBounded` and
  `DrainExceeds` are the exact bound.
- A DogStatsD event line with two lengths whose sum does not fit 64 bits can make the test parser panic
  (`statstest/dogstatsd_parse.go:186`). `EventLengths.PanicsIff` says exactly which lines do.
- A field of a pointer type that leads back to itself keeps the compiler of report plans in the loop at
  `report_plan.go:94-97` for ever. `ReportPointers.EndsIff` and `BuildIff` say exactly when.
- The extra underscore for reserved label names does not make a name that starts with two underscores unreserved;
  `PromAttributes.ReservedIff` says exactly which exposed names stay reserved.

## Model

| member | source | states |
|---|---|---|
| `RingRuns.StepInv` | transport/buffer.go:68-224 | one atomic load, compare-and-swap or store by any goroutine inside Push, PushDropOldest, Pop or TryPop keeps the invariant over slots, goroutines, positions, deliveries and counters |
| `RingRuns.RunInv` | transport/buffer.go:41-224 | the invariant holds after every interleaving of the steps of any number of goroutines, for every capacity of at least 2 |
| `RingRuns.RunGrows` | transport/buffer.go:68-224 | positions only move forward, what was pushed at a position stays, and a delivered position stays delivered with its item in every continuation of a run |
| `RingTheorems.PositionsAndPhases` | transport/buffer.go:132-224 | in every interleaving 0 <= writePos - readPos <= capacity and every slot's sequence number is legal for a position of its lap |
| `RingTheorems.CellsAreExclusive` | transport/buffer.go:132-224 | no two goroutines are ever between claiming a slot and storing its sequence number for the same item cell, also while an evicter has marked a slot |
| `RingTheorems.RefinesFifo` | transport/buffer.go:104-224 | every step of every run is a step of a bounded FIFO queue: an enqueue with room left, a dequeue of the head, or nothing |
| `RingTheorems.DeliversOnce` | transport/buffer.go:153-224 | a pop or an eviction that won a position finds there the item its writer stored, and nobody delivered it before |
| `RingTheorems.OutcomesAgree` | transport/buffer.go:68-224 | two finished calls of a run that speak about the same position agree on its item: what is popped or evicted is what was pushed there; ReturnedExactlyOnce and ReportedExactlyOnce say that every position has such calls |
| `RingOnce.ConsumedOnce` | transport/buffer.go:104-224 | no two different calls of a run both consume a position, whether by popping it or by evicting it |
| `RingOnce.ReturnedExactlyOnce` | transport/buffer.go:104-224 | with no call in progress every position below readPos was returned by exactly one finished call, with the item pushed there |
| `RingReports.ReportedExactlyOnce` | transport/buffer.go:68-183 | with no call in progress every position below writePos was reported by exactly one finished push as accepted, with the item stored there, whether or not it replaced another |
| `RingReports.RefusedAddsNothing` | transport/buffer.go:68-129 | no step of a push that ends refused adds anything to what was pushed |
| `RingReports.ReturnsNothingTakesNothing` | transport/buffer.go:104-224 | no step of a call that returns no item moves readPos |
| `RingSolo.NeverWaits` | transport/buffer.go:68-224 | wherever the other goroutines stopped, a call that runs alone ends within twelve steps: a push is refused exactly for nil, on a full ring without eviction, while the next slot is not released, or while the oldest item to evict is not published; TryPop returns nothing exactly on an empty ring or while the oldest item is not published; Pop alone waits, exactly in that last case |
| `RingSolo.CallAlone` | transport/buffer.go:68-224 | on a ring at rest a push is refused exactly for nil or, without eviction, when it is full, a full ring evicts exactly the oldest item, and a pop returns nothing exactly when it is empty |
| `RingCalls.CallCarries` | transport/buffer.go:68-224 | in every run a call works for the item and in the way it was called with until it ends, and its result fits the call |
| `RingCalls.RefusedWhy` | transport/buffer.go:68-183 | in every run a push of an item is refused only while another goroutine is in the middle of a slot or, without eviction, when writePos is a whole lap ahead of what readPos was in one of its turns |
| `RingTheorems.EmptyMeansEmpty` | transport/buffer.go:200-224 | a pop that gives up at the writePos load is right: the queue is empty at that instant |
| `RingTheorems.EvictsOnlyWhenFull` | transport/buffer.go:104-183 | an evicter that can win readPos sees a full ring whose next write position is its own |
| `RingTheorems.EvicterKeepsItsSeat` | transport/buffer.go:153-183 | once an evicter has won readPos, no step of another goroutine takes its write position readPos + capacity |
| `RingTheorems.QuietRing` | transport/buffer.go:68-274 | with no call in progress the counters equal the positions, their difference is the queue length, and every consumed position was delivered with the item pushed there |
| `RingInvariant.SlotIsRemainder` | transport/buffer.go:132-133 | the slot of a position is its remainder modulo the capacity |
| `RingInvariant.CongruentPositions` | transport/buffer.go:132-183 | two positions of one slot less than a lap apart are the same position |
| `RingCapacity.LeastPowerOfTwo` | transport/buffer.go:296-309 | nextPowerOfTwo returns the least 2^k not below its 64-bit argument, and 0 exactly when that power needs a 65th bit |
| `RingCapacity.SmearIs` | transport/buffer.go:300-306 | the six shift-and-or lines fill every bit below the highest one: 2^(top + 1) - 1 |
| `RingCapacity.RingSizeIs` | transport/buffer.go:41-45 | the capacity is a power of two, at least 2, not below the requested one, and the least such |
| `RingCapacity.MaskIsLane` | transport/buffer.go:54-54 | for a power of two, position and mask give the slot that the transition system uses |
| `RingBuffer.Buffer.constructor` | transport/buffer.go:41-56 | a new buffer is empty, with the rounded capacity, and every slot free for its first lap |
| `RingBuffer.Buffer.Push` | transport/buffer.go:68-93 | when calls do not overlap, a push is refused exactly for nil or a full buffer and otherwise appends |
| `RingBuffer.Buffer.PushDropOldest` | transport/buffer.go:104-129 | when calls do not overlap, every item but nil is taken, and the oldest item is evicted and returned exactly when the buffer was full |
| `RingBuffer.Buffer.PushAt` | transport/buffer.go:132-147 | claiming the next position appends the item and keeps slots and sequence numbers in step with the contents |
| `RingBuffer.Buffer.ReplaceOldest` | transport/buffer.go:153-183 | on a full buffer the oldest item is returned and the new one goes to the end |
| `RingBuffer.Buffer.TakeAt` | transport/buffer.go:215-220 | taking the read position returns the oldest item and frees its slot for the next lap |
| `RingBuffer.Buffer.PopItem` | transport/buffer.go:188-224 | Pop and TryPop return the oldest item, or nothing exactly when the buffer is empty |
| `RingBuffer.Buffer.PopBatch` | transport/buffer.go:228-244 | a batch is the first min(maxItems, length) items in order, and the rest stays |
| `ExpoIndex.ShiftLaw` | exporters/otlp/exponential.go:91-106 | shifting an index right by k is the index at scale - k, across the three formulas and whatever real Log2 returns |
| `ExpoIndex.CoarseBucketContains` | exporters/otlp/exponential.go:63-106 | at scales up to 0 the bucket of a value contains it, powers of two being the closed upper end |
| `ExpoIndex.FineBucketContains` | exporters/otlp/exponential.go:63-106 | at positive scales, for an accurate logarithm, the bucket of a value contains it: index < log2(v) * 2^scale <= index + 1 |
| `ExpoIndex.IndexBounds` | exporters/otlp/exponential.go:91-106 | the index of every float64 at every scale up to 20 lies in [-1074 * 2^20 - 1, 1024 * 2^20 - 1] |
| `ExpoIndex.CoarsestBuckets` | exporters/otlp/exponential.go:91-106 | at scale -10 only three indexes are possible |
| `ExpoBuckets.AddCanon` | exporters/otlp/exponential.go:193-207 | adding a count to the tight range of some observations gives the tight range with one more |
| `ExpoBuckets.DownscaleCanon` | exporters/otlp/exponential.go:178-190 | downscaling the tight range of observations gives their tight range at the coarser scale |
| `ExpoSpec.ChangeIsBest` | exporters/otlp/exponential.go:159-174 | the scale change found by the loop leads to the finest scale at which both ranges fit, or to the coarsest one |
| `ExpoSpec.AddToPositive` | exporters/otlp/exponential.go:142-153 | adding a count to the positive range, after downscaling when the index does not fit, keeps the histogram canonical for its observations |
| `ExpoSpec.AddToNegative` | exporters/otlp/exponential.go:142-153 | the same for the negative range |
| `ExpoSpec.CanonicalUnique` | exporters/otlp/exponential.go:142-207 | two canonical histograms of observations with the same weights have the same scale and the same ranges |
| `ExpoRecord.RecordedIsCanonical` | exporters/otlp/exponential.go:110-153 | after any finite sequence of observations the histogram is the canonical one of these observations |
| `ExpoRecord.RecordedTotals` | exporters/otlp/exponential.go:110-131 | count, zero count, sum and extrema after any sequence are those of the sequence |
| `ExpoMeaning.RecordedMeans` | exporters/otlp/exponential.go:110-137 | count, sum and zero count after any sequence are the number of finite values, their arithmetic sum and the number of zeros |
| `ExpoMeaning.ScaleMeans` | exporters/otlp/exponential.go:55-62 | recording starts at the configured scale clamped to [-10, 20] and ends at the finest one from there on at which no two values of one sign are the configured size, raised to 2, apart; or at -10 with at most three buckets |
| `ExpoMeaning.SnapshotDescribes` | exporters/otlp/exponential.go:209-242 | a data point has count, sum, zero count, least and greatest value of the finite values it was recorded from, and every bucket counts the values of its sign with the bucket's index |
| `ExpoMeaning.CumulativeDescribes` | exporters/otlp/accumulator.go:208-243 | the cumulative point of any exports describes the whole stream in the same way |
| `ExpoTheorems.OrderIndependent` | exporters/otlp/exponential.go:110-207 | the histogram depends only on the multiset of recorded values |
| `ExpoTheorems.BucketsCountObservations` | exporters/otlp/exponential.go:110-207 | each bucket counts exactly the values of its sign whose index at the final scale is the bucket's |
| `ExpoTheorems.RangesAreTight` | exporters/otlp/exponential.go:178-207 | no range starts or ends with an empty bucket, and an empty range has offset 0 |
| `ExpoTheorems.ScaleIsBest` | exporters/otlp/exponential.go:142-174 | at every finer scale up to the start some two values of one sign are at least maxSize buckets apart |
| `ExpoTheorems.RangesFit` | exporters/otlp/exponential.go:142-174 | a range has at most maxSize buckets, or the scale is -10 and it has at most three |
| `ExpoTheorems.NothingIsLost` | exporters/otlp/exponential.go:110-207 | count equals the zero count plus all bucket counts |
| `ExpoTheorems.RecordedExtrema` | exporters/otlp/exponential.go:110-131 | min and max are observed values that bound all others |
| `ExpoMerge.MergeCanonical` | exporters/otlp/exponential_merge.go:17-47 | a merge is the canonical histogram of the observations of both, at the smaller scale and size, also when replay lowers the scale midway |
| `ExpoMerge.MergeCommutes` | exporters/otlp/exponential_merge.go:17-35 | merging is commutative in every field |
| `ExpoMergeTheorems.MergeIsRecordingAll` | exporters/otlp/exponential_merge.go:17-47 | merging two recorded histograms equals recording the concatenation of their observations with the smaller size from the smaller scale |
| `ExpoMergeTheorems.StartDoesNotMatter` | exporters/otlp/exponential.go:142-174 | starting at any scale between the final one and the original start gives the same histogram |
| `ExpoMergeTheorems.MergeOfParts` | exporters/otlp/exponential_merge.go:17-47 | recording a stream in two parts and merging equals recording it in one go with the same configuration |
| `ExpoMergeTheorems.MergeAssociates` | exporters/otlp/exponential_merge.go:17-47 | merging is associative in every field |
| `ExpoPoint.FromPointInvertsSnapshot` | exporters/otlp/exponential_merge.go:56-84 | rebuilding a histogram from its own data point gives the histogram back |
| `ExpoPoint.OffsetFits` | exporters/otlp/exponential.go:228-242 | the offset of every recorded range fits in 32 bits, so snapshot never replaces it by 0 |
| `ExpoPoint.CumulativeIsWholeStream` | exporters/otlp/accumulator.go:208-243 | however a stream is split into exports, the cumulative point after the last one is the point of one histogram of the whole stream |
| `ExpoHistogram.BucketRange.Downscale` | exporters/otlp/exponential.go:178-190 | the in-place loop yields the value-level downscaling |
| `ExpoHistogram.BucketRange.Add` | exporters/otlp/exponential.go:193-207 | growing the slice in place yields the value-level addition |
| `ExpoHistogram.Histogram.constructor` | exporters/otlp/exponential.go:56-61 | size and scale are clamped and everything else is empty |
| `ExpoHistogram.Histogram.FindScaleChange` | exporters/otlp/exponential.go:159-174 | the loop returns the scale change that ChangeIsBest is about |
| `ExpoHistogram.Histogram.Count` | exporters/otlp/exponential.go:142-153 | the object after addCount has the value that AddToPositive and AddToNegative are about |
| `ExpoHistogram.Histogram.Observe` | exporters/otlp/exponential.go:110-137 | the object after record has the value that the recording theorems are about; non-finite values change nothing |
| `ExpoHistogram.Histogram.ReplayBuckets` | exporters/otlp/exponential_merge.go:40-47 | the loop replays the non-empty buckets at the scale that holds when each is added |
| `ExpoHistogram.Histogram.Absorb` | exporters/otlp/exponential_merge.go:17-35 | one round of a merge takes in ranges, counts, sum and extrema of a source that keeps its value |
| `ExpoHistogram.Histogram.MergeExpo` | exporters/otlp/exponential_merge.go:17-35 | the new histogram has the merged value and shares nothing with its two sources |
| `ExpoHistogram.Histogram.Rebuild` | exporters/otlp/exponential_merge.go:56-84 | the new histogram has the value that FromPointInvertsSnapshot is about |
| `FlushRuns.StepInv` | drain.go:29-139 | every step of producers, workers and calls keeps the invariant that ties positions, batches, exports, failures and acknowledgements together |
| `FlushRuns.RunInv` | drain.go:29-139 | the invariant holds in every run with any number of workers, producers and calls |
| `FlushTheorems.FlushDelivers` | drain.go:49-59 | if Flush returns nil with a live context, every observation accepted before it left the ring and, unless evicted, was handed to the exporters in a completed batch; a batch that ended after the call's generation succeeded unless another call was responsible for it |
| `FlushTheorems.ShutdownDelivers` | drain.go:64-86 | if Shutdown returns nil with a live context under DropNewest, the ring is empty and every accepted observation was handed to the exporters, also one racing with the close |
| `FlushTheorems.NoEvictions` | pipeline.go:130-143 | under DropNewest nothing is ever evicted |
| `FlushReturns.ReturnsNilIff` | drain.go:29-139 | a Flush or Shutdown that got all acknowledgements returns nil exactly when no export made for it failed and no background export of a worker, recorded at or after its generation, had failed by that worker's acknowledgement |
| `FlushReturns.ShutdownCanSucceed` | drain.go:64-139 | for every capacity, policy and number of workers there is a run in which Shutdown returns nil with a live context |
| `FlushReturns.RemembersFailures` | drain.go:29-45 | a worker remembers a failure since a generation exactly when one of its background exports failed at or after it |
| `FlushRecords.RecordAlone` | pipeline.go:83-162 | after any run, a Record that nobody interrupts is refused exactly after the close or by a full ring that does not evict; otherwise it takes the next position, and the oldest one is evicted exactly from a full ring |
| `FlushDrains.DrainBounded` | drain.go:117-139 | in every run a worker takes fewer than 500 positions over the ring capacity between a request and its acknowledgement, whatever the producers do |
| `FlushDrains.DrainExceeds` | drain.go:117-139 | for every capacity and number of workers there is a run in which one drain takes 499 positions more than the capacity, so the bound is exact |
| `FlushDrains.DropsNeedShutdown` | pipeline.go:166-238 | an accepted observation is dropped by a worker only after a Shutdown returned |
| `FlushDrains.ShutdownCanDrop` | drain.go:64-86 | for every capacity and number of workers there is a run in which a Shutdown gives up on its context and an accepted observation is then dropped |
| `FlushOverlap.MisledIff` | drain.go:93-139 | a Flush that begins in a state can be misled into a nil result for a lost observation, with no other call beginning meanwhile, exactly when every worker can still acknowledge and some worker holds, or will take, an old observation for another Flush |
| `FlushOverlap.TrustIff` | drain.go:49-139 | a caller may trust a nil result on what it knows of the other calls exactly when all earlier ones returned with their acknowledgements and none begins meanwhile; a running call, one given up on its context, or one that begins later each breaks it, for every capacity and number of workers |
| `FlushOverlap.RunningMisleads` | drain.go:93-139 | a run in which a Flush overlaps an earlier one and returns nil although an observation accepted before it was lost, for every capacity and number of workers |
| `FlushOverlap.GivenUpMisleads` | drain.go:107-114 | the same without any overlap: the earlier Flush ended on its context while a worker went on draining for it |
| `FlushOverlap.LaterMisleads` | drain.go:93-139 | the same when the only other Flush begins after the misled one |
| `FlushMisled.RiskMisleads` | drain.go:93-139 | from every state in which a Flush is not served yet and an observation is at risk, a schedule without new calls ends in a nil result for a lost observation |
| `FlushShield.ShieldRun` | drain.go:93-139 | a call with no observation at risk from the drain of another Flush stays so through every run in which no call begins |
| `FlushOverlap.ReturnedIsOver` | drain.go:93-139 | when every call so far returned with all acknowledgements, no worker serves any of them |
| `FlushOverlap.CleanUnlessForAnother` | drain.go:93-139 | the only failures a nil result can miss are those of exports made in the drain of another call |
| `FlushOverlap.SoloCallClean` | drain.go:49-139 | a nil result has no failed export since its generation when every earlier call had returned with its acknowledgements and no other begins before it returns |
| `FlushOverlap.AllCallsClean` | drain.go:49-139 | when all calls so far returned nil, no export of an observation accepted before any of them failed since its generation |
| `MemoryAccount.RunBalanced` | pipeline.go:108-162 | every step of producers, evicters and workers keeps memUsage balanced and within the limit, with reservations made by compare-and-swap |
| `MemoryAccount.MemoryIsAccounted` | pipeline.go:108-162 | in every run memUsage is the bytes reserved and not pushed, plus those queued, plus those taken out and not subtracted, between 0 and the limit |
| `MemoryAccount.RefusedForMemoryIff` | pipeline.go:108-128 | in every run a reservation is refused exactly when the bytes accounted for and the new size exceed the limit, and a refusal changes nothing else |
| `MemoryCalls.EnqueueAlone` | pipeline.go:108-162 | after any run, an enqueue that no other goroutine interrupts reserves exactly its bytes and queues its metric when the limit allows and changes nothing otherwise; from a full ring under DropOldest it evicts the oldest metric and gives its bytes back |
| `MemoryCalls.FailedPushAlone` | pipeline.go:130-148 | an enqueue whose push is refused changes nothing |
| `MemoryCalls.BatchAlone` | pipeline.go:240-248 | a worker that is not interrupted takes the oldest metrics out and gives exactly their bytes back |
| `MemoryAccount.QuietMemory` | pipeline.go:240-248 | with an empty ring and nothing in flight memUsage is 0 |
| `Cardinality.AdmittedSound` | cardinality.go:107-124 | the locked part of admit keeps the count right, refuses exactly a new unreserved series when the limit is reached, and counts one more reservation otherwise |
| `Cardinality.StoredSound` | cardinality.go:162-164 | storing a reserved series as admitted takes no new slot |
| `Cardinality.SettledSound` | cardinality.go:165-187 | giving back the reservation of an admitted series frees no slot |
| `Cardinality.ReleasedSound` | cardinality.go:170-187 | releasing frees the slot exactly when the series was not recorded meanwhile and nobody else holds it |
| `Cardinality.MetricSeries.Admit` | cardinality.go:94-125 | the observation is accepted exactly when its series is admitted or reserved or a slot is left, and holds a reservation exactly when the series was not admitted |
| `Cardinality.MetricSeries.Commit` | cardinality.go:155-166 | the series becomes admitted, one reservation is given back and the count stays |
| `Cardinality.MetricSeries.Release` | cardinality.go:170-180 | one reservation is given back, and the slot with it exactly when it was the last one of a series not admitted |
| `Cardinality.MetricSeries.Unreserve` | cardinality.go:182-187 | a reservation count drops by one and disappears at zero |
| `CardinalityRuns.RunInv` | cardinality.go:68-187 | counts, reservations and admitted series stay consistent in every interleaving of lock-free lookups, critical sections and half-done commits |
| `CardinalityRuns.LimitHolds` | cardinality.go:68-125 | in every interleaving the count is the number of series admitted or reserved, at most the configured limit or 2000 without one, and a series has as many reservations as goroutines hold one |
| `CardinalityRuns.RefusedIff` | cardinality.go:107-119 | an observation is refused exactly when its series was never recorded, nobody holds a reservation for it and the configured limit, or 2000 without one, is reached |
| `CardinalityRuns.AdmittedGrows` | cardinality.go:155-180 | an admitted series stays admitted |
| `CardinalityRuns.NeverRefusedAgain` | cardinality.go:97-111 | a series recorded once is never refused again, even by a lookup that raced with its commit |
| `CardinalityRuns.QuietSeries` | cardinality.go:138-187 | with nothing outstanding the slots in use are exactly the recorded series, so failed recordings consumed none |
| `CardinalityCalls.RecordAlone` | cardinality.go:94-187 | after any run with the lock free, a recording that nobody interrupts records its series exactly when enqueue succeeds and the series is known or a slot is left, takes one slot exactly for a new series, and leaves everything as it was when it fails |
| `CardinalityCalls.RecordedNeedsNoLock` | cardinality.go:97-105 | an observation of a recorded series passes while another goroutine holds the lock, and changes nothing |
| `CardinalityCalls.LockIsExclusive` | cardinality.go:155-166 | in every run the lock is taken exactly while one goroutine is inside commit |
| `TagKeys.TagKeyIff` | cardinality.go:214-231 | a key is identifiers joined by single dots exactly when each character fits its neighbours |
| `TagKeys.ValidTagKey` | cardinality.go:217-231 | the one-pass scan accepts exactly the keys of the documented regular expression |
| `Accumulator.CumulativeSeries` | exporters/otlp/accumulator.go:46-223 | over any sequence of exports a cumulative series has one StartTime not after any Time, Times at least 1 ms apart, and a last point that totals everything observed, also after failed sends and idle exports |
| `Accumulator.DeltaSeries` | exporters/otlp/accumulator.go:143-167 | in delta temporality every point starts exactly where the previous one ended and does not end before it starts |
| `Accumulator.DeltaSumsAddUp` | exporters/otlp/accumulator.go:153-167 | the points of a delta counter add up to everything observed |
| `AccumulatorTimes.PointTimes` | exporters/otlp/accumulator.go:46-167 | over any history, an export that has something to send adds one point, whose Time is the latest of its observations, or now when it is repeated, and of the first instant the series has left; StartTime is the first observation of the series, or in delta the previous Time |
| `Accumulator.DeltaHistogramsAreSent` | exporters/otlp/accumulator.go:170-223 | a delta histogram series sends exactly the points observed |
| `Accumulator.TotalIsSum` | exporters/otlp/accumulator.go:153-167 | the running value of a counter is the arithmetic sum of its observations |
| `Accumulator.TotalHistogram` | exporters/otlp/accumulator.go:170-205 | the running value of an explicit histogram is the point of all observations |
| `Accumulator.TotalExponential` | exporters/otlp/accumulator.go:208-233 | the running value of an exponential series is the point of one histogram of the whole stream |
| `AccumulatorExporter.Exporter.AddSumPoint` | exporters/otlp/accumulator.go:247-263 | a point of a series already in the export is merged in place, and the points of other series are untouched |
| `AccumulatorExporter.Exporter.Observe` | exporters/otlp/accumulator.go:153-223 | one observed point updates the state and the point of its own series only, as if the series were alone |
| `AccumulatorExporter.Exporter.ObserveAll` | exporters/otlp/accumulator.go:91-128 | after the first loop every series has the state and point it would have alone |
| `AccumulatorExporter.Exporter.Unobserved` | exporters/otlp/reexport.go:47-100 | a cumulative series without input in this export is sent again once, stamped at now, and delta temporality repeats nothing |
| `AccumulatorExporter.Exporter.ExportBatch` | exporters/otlp/exporter.go:81-101 | an export commits the new state whether or not the send succeeds and sends at most one point per series, the one the series would send alone |
| `AccumulatorExporter.EachSeriesAlone` | exporters/otlp/accumulator.go:73-132 | over any history of exports the state and the points of each series are those of that series alone, so the series theorems apply to every key |
| `ExplicitBuckets.Search` | exporters/otlp/histogram.go:59-59 | the binary search returns the first bound not below the value, or the overflow bucket |
| `ExplicitBuckets.PointMeans` | exporters/otlp/histogram.go:32-60 | a data point has the number, sum, bucket counts and extremes of its observations |
| `ExplicitBuckets.AddIsConcat` | exporters/otlp/accumulator.go:189-205 | adding the point of earlier observations gives the point of all of them |
| `ReportProofs.RejectedIff` | report_plan.go:63-149 | with all pointer types written out, compiling a type fails exactly when a chain of nested structs reaches an unsupported field or the same type twice |
| `ReportPointers.EndsIff` | report_plan.go:94-97 | the loop over the pointers of a field ends exactly when they do not lead back to one of them, and then the named pointer types can be written out |
| `ReportPointers.LookBehind` | report_plan.go:94-97 | on such a field the loop returns the type behind all pointers |
| `ReportPointers.BuildIff` | report_plan.go:63-123 | on declared types build yields a plan exactly when no chain of nested structs reaches a defect or a field whose pointers lead back; without such a field it always ends, with one and no defect it never does |
| `ReportPointers.BuildAgrees` | report_plan.go:63-123 | unless it never ends, build answers as on the types with their pointer names written out |
| `ReportPointers.PlanOfDeclared` | report.go:121-163 | a plan built from declared types emits what the direct interpreter emits |
| `ReportPointers.SelfPointerIsStuck` | report_plan.go:94-97 | a struct with one field of a pointer type that points to itself is such a type |
| `ReportProofs.PlanMeansInterpreter` | report.go:121-163 | running the plan of a supported type on any value of it emits the names, types, values and attributes that a direct recursive interpreter emits, in the same order |
| `ReportMeaning.PlanReports` | report.go:121-194 | the plan of a supported type reports one metric for every value field that can be reached, at any depth, and no other: its name is the dotted names on the way, its type the one its struct tag names, its value in seconds for a duration and 0 or 1 for a bool, and its attributes the non-empty tags of the innermost structs that have them |
| `ReportMeaning.RejectedFor` | report_plan.go:63-175 | a type is rejected exactly when a chain of nested structs visits a type twice or reaches a tag that is no plain string, a metric of unknown type or a metric that is no number |
| `ReportMeaning.PointersLead` | report_plan.go:186-197 | any number of pointers is followed and a nil one at the end leads nowhere |
| `ReportProofs.CompiledMeans` | report_plan.go:63-123 | the same for a struct anywhere in the tree, with any prefix, path and inherited tags |
| `ReportProofs.NilReportsNothing` | report_plan.go:184-197 | nothing below a nil pointer is reported |
| `ReportProofs.ScopeTagsMean` | report_plan.go:127-149 | the tags of a scope resolve to the inherited values overridden by the struct's own, with distinct keys |
| `ReportProofs.AttributesMean` | report.go:148-163 | the attributes of a scope are its resolved tags without the empty values, so an empty override removes a tag |
| `ReportBuilder.BuildTags` | report_plan.go:127-149 | the loop accepts exactly the fields whose tags are plain strings and returns the overridden tag list |
| `ReportBuilder.BuildScope` | report_plan.go:84-112 | the scan accepts exactly the supported value fields and collects leaves and nested structs in field order |
| `ReportBuilder.Builder.Build` | report_plan.go:63-123 | building succeeds exactly for compilable types, appends their scopes, and unmarks the type on every way out |
| `ReportBuilder.Builder.BuildAll` | report_plan.go:117-121 | the nested structs are compiled in order and the first failure stops |
| `ReportBuilder.AttributesOf` | report.go:148-163 | the loop collects the non-empty tag values in tag order |
| `ReportBuilder.Report` | report.go:121-145 | the loops over scopes and leaves emit what the plan means |
| `Packetize.Pack` | exporters/datadog/exporter.go:110-136 | the filling loop sends the greedy grouping of the lines that fit and counts the lines that are too long |
| `Packetize.NothingIsLost` | exporters/datadog/exporter.go:110-136 | splitting the datagrams at newlines gives back exactly the non-empty lines that fit, in order |
| `Packetize.PacketsFit` | exporters/datadog/exporter.go:110-136 | every datagram is non-empty and at most size bytes |
| `Packetize.FewestPackets` | exporters/datadog/exporter.go:110-136 | no order-preserving grouping of the same lines uses fewer datagrams |
| `EventText.EscapeRoundTripIff` | statstest/dogstatsd_parse.go:233-235 | unescaping restores an escaped string exactly when it has no literal backslash-n |
| `DogStatsDEvents.PrintParses` | statstest/dogstatsd_format.go:45-84 | parsing a printed event gives the event back exactly when its title is not empty, title and text hold no literal backslash-n, fields hold no bar, and tags are non-empty without comma and bar |
| `DogStatsDEvents.ParsedIsPrintable` | statstest/dogstatsd_parse.go:171-247 | whatever the line, an event the parser returns is one that survives printing |
| `DogStatsDEvents.ReparseIsSame` | statstest/dogstatsd_parse.go:171-247 | printing a parsed event and parsing it again gives the same event |
| `DogStatsDEvents.ParsedLine` | statstest/dogstatsd_parse.go:171-204 | with lengths of any size, an accepted line is a header with the lengths of a non-empty title and a text, the two as announced, and then nothing or a bar; the event has that title and text unescaped, so its title is never empty |
| `EventLengths.PanicsIff` | statstest/dogstatsd_parse.go:171-196 | with 64-bit lengths the parser panics exactly on a line whose two valid lengths add up beyond the largest int and whose body ends before the announced title does or has a bar right after it; on every other line it answers as with lengths of any size |
| `EventLengths.PrintedIsRead` | statstest/dogstatsd_format.go:45-84 | a printed event never makes the parser panic and is read back exactly when the format can carry it |
| `EventLengths.PanicExample` | statstest/dogstatsd_parse.go:186-186 | a line on which the parser panics |
| `DogStatsDEvents.HeaderParses` | statstest/dogstatsd_parse.go:171-184 | the parser recovers both lengths and the body behind a printed header |
| `DogStatsDEvents.SectionsRestore` | statstest/dogstatsd_parse.go:197-230 | applying the printed sections to the bare title and text restores every field |
| `DogStatsDEvents.SectionSets` | statstest/dogstatsd_parse.go:206-230 | each kind of section replaces its own field, also by an empty value, and only a timestamp that is no 64-bit number is refused |
| `DogStatsDEvents.SetFieldsLoop` | statstest/dogstatsd_parse.go:198-203 | the loop applies the sections in order and stops at the first invalid one |
| `DogStatsDEvents.SplitTagsLoop` | statstest/dogstatsd_parse.go:239-247 | the loop returns the non-empty pieces between commas |
| `DogStatsDEvents.WriteTags` | serializers/dogstatsd.go:156-182 | one section with the surviving global tags and attributes, comma separated, or none at all |
| `EventTags.SurvivingTags` | serializers/dogstatsd.go:156-182 | the tags written are, in order, exactly the global tags and attributes whose key is not filtered, the key of a global tag being what stands before its first colon |
| `DogStatsDEvents.SerializeEvent` | serializers/dogstatsd_event.go:23-63 | the serializer writes what the printer prints for the event whose tags are the surviving ones, hence the same string without global tags and filters |
| `Netlink.Align4` | runtimemetrics/taskstats_parse.go:43-43 | the least multiple of 4 that is not below the length |
| `Netlink.FindAttrLoop` | runtimemetrics/taskstats_parse.go:132-150 | on arbitrary bytes the loop terminates and returns only a slice of its input |
| `Netlink.FindsFirst` | runtimemetrics/taskstats_parse.go:132-150 | on a buffer that holds aligned attributes, the last one padded or not, findAttr answers with the first value of the wanted type or says that there is none |
| `Netlink.FoundInList` | runtimemetrics/taskstats_parse.go:132-150 | conversely every answer but an error comes from a list of attributes that the buffer starts with, and a miss from one that fills the buffer |
| `Netlink.FindReplyLoop` | runtimemetrics/taskstats_parse.go:58-103 | on arbitrary bytes the loop terminates and only ever parses slices of its input |
| `Netlink.FindsReply` | runtimemetrics/taskstats_parse.go:58-103 | on a buffer that holds aligned messages, the last one padded or not, findReply reaches the first one that answers the request |
| `NetlinkReplies.FirstAnswers` | runtimemetrics/taskstats_parse.go:58-103 | the first message for the request that is no acknowledgement and not passed over by the parser answers it: with the number of an error message without its sign, as truncated when that message is too short, or with what the parser found; without such a message the reply is missing |
| `NetlinkRequests.GenlRequest` | runtimemetrics/taskstats_genl.go:54-71 | the bytes stored at the header offsets are the encoded message with a zero value |
| `NetlinkRequests.TaskstatsRequest` | runtimemetrics/taskstats_genl.go:44-48 | the request is the encoded message that carries the thread group id |
| `NetlinkRequests.FamilyRequest` | runtimemetrics/taskstats_genl.go:34-40 | the request is the encoded message that carries the family name with its terminator |
| `NetlinkRequests.RequestDecodes` | runtimemetrics/taskstats_genl.go:54-71 | scanning a request for its own sequence number and attribute type gives the value that was put in |
| `NetlinkRequests.DecodeTaskstats` | runtimemetrics/taskstats_parse.go:154-173 | a payload is refused exactly when it is too short for its version, and versions before 7 report no freepages delay |
| `NetlinkRequests.StructDecodes` | runtimemetrics/taskstats_parse.go:154-181 | the totals are read from where the kernel puts them, each capped to the largest Duration, freepages from version 7 on, also from the shorter structs of earlier versions |
| `NetlinkRequests.FamilyIdIsFound` | runtimemetrics/taskstats_genl.go:89-101 | the family id is read whatever attributes stand around it |
| `NetlinkRequests.NestedStatsAreFound` | runtimemetrics/taskstats_parse.go:107-127 | the statistics are decoded whatever attributes stand around them on both levels |
| `PromNames.Normalize` | exporters/prometheus/exposition.go:75-97 | the result is a valid Prometheus name |
| `PromNames.NormalizeValid` | exporters/prometheus/exposition.go:61-97 | normalizing gives a valid name and leaves a valid one alone |
| `PromNames.NormalizeIs` | exporters/prometheus/exposition.go:75-97 | character by character: letters, digits and underscores stay, colons where allowed, all else becomes an underscore, and one more goes before a leading digit |
| `PromNames.FamilyNameIs` | exporters/prometheus/exposition.go:99-107 | a family name is valid, a counter's ends in _total exactly once added, and a valid name that fits its type is kept |
| `PromNames.SuffixOnce` | exporters/prometheus/exposition.go:99-107 | the suffix _total is added to the name of a counter exactly when the normalized name does not end in it |
| `PromNames.ExposedAre` | exporters/prometheus/exposition.go:116-132 | exposed labels are the renamed attributes strictly sorted by name, every name valid and not le on a histogram, and exist exactly when no two attributes expose the same name |
| `PromAttributes.AttrSetIs` | exporters/prometheus/store.go:154-154 | the attribute set has every key once, in order, with the last value given for it |
| `PromAttributes.LabelsExistIff` | exporters/prometheus/store.go:154-158 | an observation has labels exactly when no two different keys are exposed under one name; a repeated key is no collision |
| `PromAttributes.LabelsAre` | exporters/prometheus/exposition.go:109-132 | a label is exposed exactly when it is the exposed name of some key with the last value given for that key |
| `PromAttributes.ReservedIff` | exporters/prometheus/exposition.go:116-122 | an exposed label name still starts with two underscores exactly when the first two characters of its key both become one |
| `PromNames.Expose` | exporters/prometheus/exposition.go:116-132 | the loops compute the labels that ExposedAre is about |
| `PromNames.SortedUnique` | exporters/prometheus/store.go:38-43 | labels sorted by name list a set of labels in only one way, so equal sets merge into one series |
| `PromNames.KeyIsUnique` | exporters/prometheus/store.go:214-221 | labelsKey is uniquely decodable: different label lists have different keys |
| `PromNames.BuildKey` | exporters/prometheus/store.go:215-221 | the builder loop writes the key that KeyIsUnique is about |
| `PromRegistry.FamilyRegistry.Register` | exporters/prometheus/exposition_registry.go:42-76 | registration succeeds exactly for the same source and type again or without any clash of family and series names, and an error changes nothing |
| `PromRegistry.DisjointFamilies` | exporters/prometheus/exposition_registry.go:29-76 | different registered families expose disjoint series names |
| `PromRegistry.AcceptsIff` | exporters/prometheus/exposition_registry.go:42-76 | a family is accepted exactly when it comes again from the same source and type, or shares no exposed name with any registered family |
| `PromStore.FoldedOk` | exporters/prometheus/store.go:169-195 | an observation keeps every series a function of what was observed since it was created: a counter the sum, a histogram the bucket counts and sum, a gauge the value with the newest timestamp and of equal ones the first |
| `PromStore.AfterObserveSane` | exporters/prometheus/store.go:142-212 | an observation, stored or refused, keeps every name with one owner and every series a function of what was observed |
| `PromStore.Replay` | exporters/prometheus/store.go:142-245 | both hold after any history of observations and scrapes |
| `PromHistory.SeriesIsHistory` | exporters/prometheus/store.go:142-245 | after any history a series exists exactly when observations of its family and labels were stored since it last expired, holds those, all of them and in their order, with their timestamps, and was last updated with the last one |
| `PromHistory.FamilyIsFounded` | exporters/prometheus/store.go:160-212 | a family has the source name, type and bounds of the first observation stored in it |
| `PromAdmission.RegistryIsHistory` | exporters/prometheus/exposition_registry.go:42-76 | the registry holds exactly the families registered by observations without colliding labels, each without a name in common with those before it; a scrape takes none away |
| `PromAdmission.StoredIff` | exporters/prometheus/store.go:142-212 | after any history an observation is stored exactly when its labels do not collide, its family registers and a histogram's bounds, those of the family's first observation, increase |
| `PromHistory.ScrapeShows` | exporters/prometheus/exposition_write.go:34-89 | a scrape after any history shows for each series its labels and, from the observations since it was created, the sum of a counter, the newest value of a gauge, and for a histogram one count per bound, +Inf, _sum and _count |
| `PromStore.Handler.Observe` | exporters/prometheus/store.go:142-212 | an observation is stored exactly when its labels do not collide, its family registers and a histogram's bounds increase; a refused one changes no series and with colliding labels registers nothing |
| `PromStore.Handler.Expire` | exporters/prometheus/store.go:230-245 | a scrape removes exactly the series not updated since the cutoff and leaves the others as they are |
| `PromScrape.WriteHistogram` | exporters/prometheus/exposition_write.go:62-89 | the running count yields one line per bound, the +Inf line, sum and count, and malformed data is refused |
| `PromScrape.LeLinesCount` | exporters/prometheus/exposition_write.go:77-87 | each le line counts the observations at or below its bound since the series was created; +Inf and _count count all of them and _sum adds them up |
| `PromScrape.BucketsAgreeWithOtlp` | exporters/prometheus/store.go:190-192 | the stored bucket counts are those the OTLP exporter would send for the same observations |
| `PromScrape.NoDuplicateLines` | exporters/prometheus/exposition_write.go:34-89 | in a valid store no two sample lines of a scrape share a metric name and a label set |
| `PromScrape.HistoryHasNoDuplicates` | exporters/prometheus/exposition_write.go:34-126 | after any history two different lines of a scrape differ in name or label set, and in their escaped text whatever their values are |
| `PromText.SampleUnique` | exporters/prometheus/exposition_write.go:91-126 | a sample line is read back in one way: equal lines have the same name, labels with their escaped values, and value |
| `PromParse.SampleIsRead` | exporters/prometheus/exposition_write.go:91-126 | a reader of the text format gives name, labels with their unescaped values, and value of a written line back; a bare line feed in a label value would be refused |
| `PromText.EscapeUnique` | exporters/prometheus/exposition_write.go:121-126 | an escaped label value ends at the first quote that the escaping did not write, and determines the value |

## Left out

- 64-bit wrap-around of positions, counters, generations, sums of bytes and counts: all are unbounded numbers.
- Rounding of float64 arithmetic, infinities and NaN in sums, and number formatting: values are reals, the exponential histogram skips non-finite values as the code does, and formatted bounds only have to be distinct.
- RingBuffer.Buffer.PushAt: on values of calls that do not overlap; the retries and rejections of overlapping calls are in the transition system.
- RingCalls.RefusedWhy: one direction only, because while calls overlap the ring need not be full at any instant of a refused Push: readPos may be stale. NeverWaits has the equivalence for a call that runs alone.
- Liveness: that waiting pops, compare-and-swap loops, flushes and shutdowns end under a fair scheduler.
- FlushTheorems.FlushDelivers: needs a context that stays live until the return and at least one worker; a failed export that another call waited for is not excluded here, MisledIff and TrustIff in FlushOverlap say when it can occur; exporters succeed or fail as a whole, and a metric is not changed while it is queued.
- Drop counters and idle exports inside the flush protocol are exports without positions; their values are not followed.
- Cardinality.MetricSeries.Admit: attribute sets are opaque identities, so sorting, capping and trimming of attributes before the lookup are not modelled, nor the limiter's drop counters.
- Accumulator.CumulativeSeries: every observation and clock reading carries a non-zero time, as Record makes sure, and a series keeps its kind; gauges, exemplars and the grouping of points into named metrics are not modelled.
- AccumulatorExporter.Exporter.ExportBatch: series of histograms occur at most once per batch, as the conversion that feeds it makes sure.
- ReportPointers.BuildIff: when a type reaches both a defect and a field whose pointers lead back, which of the two build meets first is left to Build itself.
- Report on slices, interfaces and pointers around the reported struct, the plan cache and the joining of recording errors.
- DogStatsDEvents.PrintParses: strings are sequences of one-byte characters; the metric lines of the same format are not modelled.
- NetlinkRequests.DecodeTaskstats: its own contract says when it fails and StructDecodes says which totals it reads, at the byte offsets the code uses; sockets and system calls are not modelled.
- PromStore.Handler.Observe: NaN observations and unsupported metric types are not modelled; the label value is a string already.
- PromScrape.NoDuplicateLines: for one valid store; HistoryHasNoDuplicates has it for every history. The order of families and series in the text is not modelled, and the formatter is taken to tell the bounds of a family apart.
- Transports, TLS, gRPC and HTTP handlers, configuration, resource detection, runtime collectors, rate limiter, circuit breaker, instrument wrappers and test doubles: I/O, libraries or flat branching without a deep invariant.
