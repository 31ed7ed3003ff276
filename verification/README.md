# AviSynth+ core: verified model

A Dafny model of the parts of AviSynth+ whose correctness spans many steps:
the shared frame cache and the two prefetchers that drive it, error-diffusion
and ordered dithering, copy-on-write frame properties, the graph-to-script
printer, the resampler's sliding buffer, the signature matcher, v210 packing
and the pooled allocator. `dafny verify dfyconfig.toml` checks everything.

## How it is built

- **Frame cache** (`KeyedList`, `LruCache`, `LruInvariants`, `LruTheorems`,
  `LruRecency`, `LruGrowth`, `LruRecords`, `LruCacheObject`). Every region that
  holds the mutex is one step of a state machine; blocking and waking, genuine or spurious, are separate steps, taken
  by any number of threads. Undefined behaviour (a callback on an unset pointer,
  a ghost record lost while in use) sets a `fault` flag, which is proved never
  to be set. The class `FrameCache` performs the steps in place, with the
  source's loops, and is proved equal to them. What the steps mean is told by the
  run alone: when a key was last looked up, how often it was lost.
- **Prefetchers** (`StrideLock`, `HandleBooks`, `Prefetcher`,
  `PrefetcherTheorems`, `PrefetcherProgress`, `PrefetcherSchedule`, `QueuePrefetcher`,
  `QueuePrefetcherTheorems`, `QueuePrefetcherNullFrames`,
  `QueuePrefetcherProgress`, `QueuePrefetcherSchedule`). Clients,
  workers, thread pool and destructor are one state machine on top of the cache;
  the child is a function from frame numbers to frames that may throw. The
  thread pool is a bounded FIFO whose shutdown leaves the queued jobs to be
  drained, and appears as the phases of jobs.
- **Dithering** (`FloydSteinberg`, `FloydTheorems`, `DitherTables`, `GridSums`,
  `OrderedDither`). The loops are methods on arrays; the theorems are about the state they are proved to
  compute.
- **Frame properties** (`CopyOnWrite`, `CopyOnWriteObject`, `VSArray`).
  Handles, storages and arrays are an explicit heap with reference counts.
- **Script printing** (`FilterGraph`, `FilterGraphPrinter`). The printed lines are
  given a meaning as let-bindings, and it is stated which of them the script
  language reads that way; printing is proved to print the graph.
- **Resampler buffer** (`SourceWindow`, `SourceWindowObject`), **signatures**
  (`Signatures`, `TypeMatch`, `TypeMatchTheorems`), **v210** (`V210`),
  **allocator** (`PowersOfTwo`, `BufferPool`, `BufferPoolObject`). `Arithmetic` holds the few
  facts about products and remainders that several of them share.

## What the code does not do

Where an expected property is false of the code, the model keeps the code and
proves exactly when the property holds.

- A blocking cache lookup that begins on a rolled-back entry skips the wait loop
  (avs_core/core/LruCache.h:174) and returns a null frame: `CacheAgreement`,
  `StaleReadHappens`. So `QueuePrefetcher::GetFrame` returns a null frame exactly
  when its own lookup is such a one, and two clients suffice for that:
  `NullFrameIff`, `NullFrameHappens`.
- The stride detector, once unlocked, never adopts a new candidate stride, and
  its branch that switches strides without unlocking is dead:
  `UnlockedLocksIff`, `LockChangesOnlyThroughUnlock`.
- Floyd-Steinberg errors are unbounded on images one pixel wide, except for a
  bit difference of one: `StableIff`, `ColumnDrifts`.
- The resampler compares positions as 32-bit ints; a jump that wraps into the
  old window reuses wrong samples: `ReuseExactIff`, `FalseReuseHappens`.
- Ordered dithering saturates above 2^s - 2^d, and one entry of the 16x16 table
  for odd differences (avs_core/convert/convert_bits.cpp:173) breaks its pattern;
  flat areas keep their brightness exactly when neither shows: `FlatExactIff`,
  `OddTableIsHalf`.
- v210 unpacking leaves the last column of an odd width untouched, while every
  complete pixel pair is restored: `RoundTrip`, `Unpack`.
- The `QueuePrefetcher` constructor, given no threads or no frames to prefetch,
  zeroes its parameters instead of its fields
  (avs_core/core/DeviceManager.cpp:684-704). No null pool or cache is then used
  exactly if nothing is to be prefetched and no thread was asked for: `Construct`.
  Its one caller (line 1210) keeps to that.
- Assigning a property map to itself releases the storage before reading it, which
  is safe exactly when another handle shares it: `AssignSelf`.
- A printed script is not always a script. Read as let-bindings, its lines stand
  for the graph exactly if every clip needed is a graph node with a name. But the
  script language has no `default` (avs_core/core/parser/expression.cpp:579-602)
  and no function `ArrayCreate` (avs_core/core/parser/script.cpp:349), does not
  parse the description printed for a function
  (avs_core/core/parser/expression.cpp:843-851) or captures with values
  (avs_core/core/parser/scriptparser.cpp:105-130), and ends a string at a quote. So
  it runs as a script exactly if only named clips made from clips, numbers,
  booleans and strings without quotes are needed: `Printer.Construct`,
  `DefaultIsNoScript`. And line breaks are taken out of string arguments with all
  others (line 268), so the graph is the same exactly if there are none:
  `RebuildsExactlyIff`.
- The resampler casts the byte count of a fetch to int before it decides about a
  larger buffer; there is room for the samples exactly if it fits: `RoomIff`.

## Model

| member | source | states |
|---|---|---|
| `LruTheorems.ReachableLocks` | avs_core/core/LruCache.h:89-317 | in every reachable state, for any threads and interleaving, each cached entry's `locks` is its producer handles plus its blocked threads; EMPTY means exactly one handle, AVAILABLE and ROLLED_BACK none, ROLLED_BACK at least one waiter; no unset or freed pointer is ever touched |
| `LruTheorems.OneProducer` | avs_core/core/LruCache.h:153-317 | a key never has two producers; whoever waits on an EMPTY entry waits for a live producer |
| `LruTheorems.LockedStays` | avs_core/core/LruCache.h:89-110 | no step of other threads evicts or changes an entry that somebody produces or waits on |
| `LruInvariants.StepKeeps` | avs_core/core/LruCache.h:146-317 | every mutex-held region keeps the invariant (exact locks, unique keys, ghost counts bounded by real losses, no fault) |
| `LruTheorems.CacheAgreement` | avs_core/core/LruCache.h:163-196 | over all runs of producers that store f(key) before they commit, a FOUND_AND_READY result is f(key) if and only if the lookup is not a blocking one that begins on a ROLLED_BACK entry |
| `LruTheorems.StaleReadHappens` | avs_core/core/LruCache.h:172-195 | a four-step run in which the guard fails and a blocking lookup returns NULL |
| `LruTheorems.SoloClientNeverStale` | avs_core/core/LruCache.h:163-196 | with a single blocking client the guard always holds |
| `LruTheorems.NoRollbackNeverStale` | avs_core/core/LruCache.h:294-317 | in runs without rollback the guard always holds |
| `LruInvariants.MidResize` | avs_core/core/LruCache.h:234-241 | the resize in the middle of a miss, exactly: if the capacity grows nothing is evicted; at the limit the slot just beyond it is offered for eviction if there is one, and no other, never the reserved slot |
| `LruInvariants.GhostSurvives` | avs_core/core/LruCache.h:89-110 | the eviction inside that resize leaves the ghost record in use first or second in its list |
| `LruInvariants.GrowKeeps` | avs_core/core/LruCache.h:234-241 | both resizes keep the invariant, the reserved slot and the ghost record in use |
| `LruInvariants.MissKeeps` | avs_core/core/LruCache.h:197-271 | a whole miss keeps the invariant and every held entry; the capacity rises by at most one, and only for a key evicted or refused storage at least twice before |
| `LruInvariants.TrimDownKeeps` | avs_core/core/SimpleLruCache.h:148-181 | trim with a vetoing callback keeps the invariant, never touches the slots within capacity and leaves only locked entries beyond it |
| `LruTheorems.CapacityStep` | avs_core/core/LruCache.h:199-249 | one step raises the capacity by at most one, and only on a miss of a key evicted or refused storage at least twice before |
| `LruTheorems.ControlledGrowth` | avs_core/core/LruCache.h:199-249 | over whole runs the capacity never falls, rises at most once per such miss, and never in CACHE_NO_RESIZE mode |
| `LruRecency.RecencyOrder` | avs_core/core/SimpleLruCache.h:79-129 | in every run, by any threads, the cached keys stand in the order of their last lookups, the latest first; stated on the run's lookups alone |
| `LruRecency.EvictsOldest` | avs_core/core/SimpleLruCache.h:148-181 | a step other than a rollback takes an entry out of the cache if and only if nobody produces it or waits for it and at least as many entries were looked up after it as stay in any case: the capacity, or one fewer when a miss tries in vain to grow beyond the maximum |
| `LruGrowth.GrowsIff` | avs_core/core/LruCache.h:199-249 | one step grows the cache, by one, if and only if it is an unsuppressed miss of a key whose ghost record counts two losses or more, below the maximum, and not in CACHE_NO_RESIZE mode; growth refused at the maximum stays requested |
| `LruGrowth.GrowthExact` | avs_core/core/LruCache.h:199-249 | over whole runs on at most fifty keys, told by the run: a lookup grows the cache if and only if it is an unsuppressed miss of a key evicted or refused storage at least twice, below the maximum, and not in CACHE_NO_RESIZE mode |
| `LruGrowth.GhostRoom` | avs_core/core/LruCache.h:234-241 | in runs without new limits the ghost list has room for fifty records until growth is first asked for, and then for fifty and two per entry |
| `LruGrowth.LimitsApplied` | avs_core/core/SimpleLruCache.h:72-77 | new limits bring the requested capacity into them; if they contradict each other the lower one wins |
| `LruGrowth.SuppressIff` | avs_core/core/LruCache.h:245-249 | a lookup silences the filters below if and only if it asks a cache in CACHE_OPTIMAL_SIZE mode to grow |
| `LruRecords.Records` | avs_core/core/LruCache.h:89-110 | in every run the ghost list holds at most one record more than it has room for, an entry that was not rolled back is allocated only while it is cached, and the record of a cached entry, unless dropped, has the count stored with the entry |
| `LruRecords.EvictionCounts` | avs_core/core/LruCache.h:89-110 | in every reachable state the eviction of an unlocked entry frees it and leaves a record counting one loss more than was stored with it, even if its record was dropped meanwhile |
| `LruRecords.MissStoresCount` | avs_core/core/LruCache.h:256-270 | a miss leaves a ghost record of its key, and its count is what a new entry stores |
| `LruTheorems.LookupAnswers` | avs_core/core/LruCache.h:153-276 | which of its answers a lookup gives, exactly, by what is cached under the key, the state of the entry, the capacity and the two flags |
| `LruTheorems.LookupBooks` | avs_core/core/LruCache.h:153-276 | what each lookup result does to the books of handles and waiters; FOUND_BUT_NOTAVAIL never answers a blocking lookup |
| `LruCacheObject.Search` | avs_core/core/SimpleLruCache.h:83-99 | the list search finds the first item stored under the key, or there is none |
| `LruCacheObject.FrameCache.TryEvict` | avs_core/core/LruCache.h:89-110 | the callback and splice, in place, are the eviction step: veto when locked, else the key moves to the ghosts |
| `LruCacheObject.FrameCache.Trim` | avs_core/core/SimpleLruCache.h:148-181 | the loop from the tail is the trim step and keeps the invariant |
| `LruCacheObject.FrameCache.Resize` | avs_core/core/SimpleLruCache.h:183-188 | clamp, then trim: the resize step |
| `LruCacheObject.FrameCache.LookupGhost` | avs_core/core/SimpleLruCache.h:79-129 | the ghost list's lookup puts the record at the head, dropping the oldest when full |
| `LruCacheObject.FrameCache.Lookup` | avs_core/core/LruCache.h:153-276 | lookup up to its return or first wait is the lookup step, keeps the invariant, and leaves suppressCaching as the step says |
| `LruCacheObject.FrameCache.Hit` | avs_core/core/LruCache.h:163-196 | the found branch, in place, is the hit step, with the wait loop entered only on EMPTY; `RecencyOrder` says what its move to the front is for |
| `LruCacheObject.FrameCache.Miss` | avs_core/core/LruCache.h:197-271 | the miss branch: reserve, tune, install or refuse |
| `LruCacheObject.FrameCache.TuneGhosts` | avs_core/core/LruCache.h:199-249 | the ghost bookkeeping and its growth decision |
| `LruCacheObject.FrameCache.GrowLists` | avs_core/core/LruCache.h:234-241 | both lists resized while the slot is reserved |
| `LruCacheObject.FrameCache.InstallEntry` | avs_core/core/LruCache.h:256-270 | the new entry goes into the reserved slot; without one the key counts as lost |
| `LruCacheObject.FrameCache.Resume` | avs_core/core/LruCache.h:174-195 | one wake-up: sleep again, return the value, or take over as producer |
| `LruCacheObject.FrameCache.CommitValue` | avs_core/core/LruCache.h:278-292 | commit is the commit step and keeps the invariant |
| `LruCacheObject.FrameCache.RollbackHandle` | avs_core/core/LruCache.h:294-317 | rollback is the rollback step and keeps the invariant |
| `LruCacheObject.FrameCache.SetLimits` | avs_core/core/SimpleLruCache.h:72-77 | new limits re-apply the requested capacity |
| `StrideLock.ReachableStride` | avs_core/core/Prefetcher.cpp:216-270 | after any requests: strides are never zero; locked with misses means at most two misses and fewer hits than misses |
| `StrideLock.ThirdMissUnlocks` | avs_core/core/Prefetcher.cpp:221-250 | the third consecutive off-pattern request ends the lock, and no earlier one |
| `StrideLock.RelocksInFour` | avs_core/core/Prefetcher.cpp:216-270 | from any locked state four consecutive requests of one new stride lock onto it, and it stays locked |
| `StrideLock.LockChangesOnlyThroughUnlock` | avs_core/core/Prefetcher.cpp:240-245 | the branch that switches strides while locked is dead |
| `StrideLock.UnlockedLocksIff` | avs_core/core/Prefetcher.cpp:251-270 | an unlocked detector locks onto a steady stride if and only if that stride is the candidate it already has (from the start: only stride 1), within three requests |
| `StrideLock.StartLocksIff` | avs_core/core/Prefetcher.cpp:251-270 | a new detector locks onto a steady stride if and only if it is 1, with the third request |
| `StrideLock.MissRestarts` | avs_core/core/Prefetcher.cpp:251-270 | one request off the candidate, and an unlocked detector counts to three anew |
| `StrideLock.RepeatIsForward` | avs_core/core/Prefetcher.cpp:216-219 | a repeated request counts as one frame forward |
| `StrideLock.Detector.Request` | avs_core/core/Prefetcher.cpp:216-270 | the in-place field updates are the detector step |
| `StrideLock.Detector.constructor` | avs_core/core/Prefetcher.cpp:71-76 | the initial fields satisfy the invariant |
| `PrefetcherTheorems.Transparent` | avs_core/core/Prefetcher.cpp:206-334 | with one requesting thread, any workers and interleaving: whatever GetFrame(n) returned is the child's frame n; it raised only if the child throws (`RaisesForAsked` says on which frames); the cache is never corrupted |
| `PrefetcherTheorems.HandlesConserved` | avs_core/core/Prefetcher.cpp:85-133 | every handle taken by SchedulePrefetch is settled exactly once (worker commit, worker rollback or shutdown drain) or still held by exactly one job; after shutdown none is left |
| `PrefetcherTheorems.WorkersBounded` | avs_core/core/Prefetcher.cpp:162-204 | running_workers counts the unfinished jobs and never exceeds nPrefetchFrames |
| `PrefetcherTheorems.SchedulingTerminates` | avs_core/core/Prefetcher.cpp:162-204 | each turn of the scheduling loop ends it or moves strictly away from the request; `KthTurn` says where it is |
| `PrefetcherSchedule.TurnAsks` | avs_core/core/Prefetcher.cpp:165-202 | one turn, on the fields: while workers and window allow it looks up the frame one locked stride further, or one frame if there is no lock, and takes a handle exactly if the frame is not there; at the clip's end or outside the window the pass is over |
| `PrefetcherSchedule.KthTurn` | avs_core/core/Prefetcher.cpp:162-204 | from the head of a request for n, whatever others do meanwhile, after k turns in both passes together the position is n + k * d and the next lookup is of frame n + (k + 1) * d, where d is the locked stride, or 1 without a lock |
| `PrefetcherSchedule.NewStrideAsked` | avs_core/core/Prefetcher.cpp:162-334 | over whole runs: four requests of any new stride d from a locked detector, and the first frame the last of them, for n, looks up is n + d |
| `PrefetcherSchedule.StrideOfRun` | avs_core/core/Prefetcher.cpp:216-270 | the detector sees the requests of the run, in order, and nothing else |
| `PrefetcherSchedule.PassOver` | avs_core/core/Prefetcher.cpp:272-334 | only the scheduling loop ends a pass, where window or clip end; the first pass leads to the lookup of the frame, the second to the return |
| `PrefetcherSchedule.PoolBounded` | avs_core/core/ThreadPool.cpp:97-112 | in every run no more jobs are under way than there are threads, at most six times as many are queued, and jobs start in the order in which they were queued |
| `PrefetcherSchedule.HeldUpIff` | avs_core/core/ThreadPool.cpp:26-29 | in every run the scheduler is held up by the pool exactly while six times as many jobs are queued as there are threads |
| `PrefetcherSchedule.RaisesIffFlagged` | avs_core/core/Prefetcher.cpp:272-278 | in every run: a request raises at its head if and only if a worker has reported an exception before, however long ago; and the cache keeps room for twice the window |
| `PrefetcherSchedule.ThrowsAreFlagged` | avs_core/core/Prefetcher.cpp:98-131 | a worker reports an exception exactly if the child threw on its frame |
| `PrefetcherTheorems.NoDeadlock` | avs_core/core/Prefetcher.cpp:85-334 | with at least one pool thread, as long as GetFrame or the destructor is under way some thread can take a step that is not a spurious wake-up, also on a full pool queue and while waiting for a queued frame |
| `PrefetcherProgress.CallEnds` | avs_core/core/Prefetcher.cpp:85-334 | from any reachable state the useful steps possible without a new request are bounded, and they end only when the call has returned or raised or the destructor is through |
| `PrefetcherProgress.RaisesForAsked` | avs_core/core/Prefetcher.cpp:206-334 | GetFrame raises only if the child throws on a frame requested or scheduled in this run |
| `PrefetcherTheorems.StepInv` | avs_core/core/Prefetcher.cpp:98-334 | every step of client, workers and shutdown keeps the system invariant |
| `HandleBooks.OwnerMoves` | avs_core/core/LruCache.h:278-317 | when an owner writes, commits or rolls back its handle, all other owners' entries stay as they were |
| `HandleBooks.WakeMoves` | avs_core/core/LruCache.h:174-195 | how each end of a wait moves handles and waiters |
| `HandleBooks.LookupMoves` | avs_core/core/LruCache.h:153-276 | how each lookup result moves handles and waiters |
| `QueuePrefetcherTheorems.WorkersExact` | avs_core/core/DeviceManager.cpp:609-682 | numWorkers equals the worker jobs queued or running and is at most numThreads |
| `QueuePrefetcherSchedule.TurnAsks` | avs_core/core/DeviceManager.cpp:648-673 | one turn looks up the frame at its position without blocking, and exactly a new handle goes to the queue; beyond the window or the clip it spawns workers if anything was queued, or returns |
| `QueuePrefetcherSchedule.FramesAsked` | avs_core/core/DeviceManager.cpp:645-673 | one call of GetFrame(n), whatever others do meanwhile: its k-th turn looks up frame n + k, and when it spawns or returns it has looked up exactly the frames behind n in window and clip |
| `QueuePrefetcherSchedule.SpawnsEnough` | avs_core/core/DeviceManager.cpp:674-681 | in every run: workers are spawned until each frame just queued has one or every thread is one, not more and not fewer |
| `QueuePrefetcherSchedule.FirstInFirstOut` | avs_core/core/DeviceManager.cpp:609-682 | over any run the work taken off the queue, in order, followed by the queue, is the work put on it |
| `QueuePrefetcherSchedule.FailsIffFlagged` | avs_core/core/DeviceManager.cpp:738-745 | in every run: a call that is to produce its frame gives it up if and only if a worker has reported an exception before; and the cache has one place less than there are frames to prefetch |
| `QueuePrefetcherTheorems.NoStrandedWork` | avs_core/core/DeviceManager.cpp:645-682 | while the object lives, a non-empty queue has a live worker or a client between enqueueing and spawning |
| `QueuePrefetcherTheorems.HandlesSettledOnce` | avs_core/core/DeviceManager.cpp:609-718 | every queued handle is committed or rolled back exactly once, or is in the queue or with one worker; after destruction all are settled |
| `QueuePrefetcherTheorems.FramesRight` | avs_core/core/DeviceManager.cpp:722-769 | for any number of clients a returned frame that is not null is the child's frame n; null needs a second client; it raises only if the child throws (`RaisesForAsked` says on which frames) |
| `QueuePrefetcherNullFrames.NullFrameIff` | avs_core/core/DeviceManager.cpp:722-769 | in every run, with any number of clients: the frame a call returned is null if and only if that call's own lookup began on a rolled-back entry, and is the child's otherwise |
| `QueuePrefetcherNullFrames.LookNullIff` | avs_core/core/DeviceManager.cpp:729-733 | one lookup puts its call on the way to a null frame exactly when it begins on a rolled-back entry |
| `QueuePrefetcherNullFrames.NullFrameHappens` | avs_core/core/DeviceManager.cpp:722-769 | a ten-step run of two clients, whose producer throws, in which GetFrame(7) returns a null frame |
| `QueuePrefetcherNullFrames.NullStep` | avs_core/core/DeviceManager.cpp:609-769 | no other step makes or unmakes a null frame |
| `QueuePrefetcherTheorems.NoDeadlock` | avs_core/core/DeviceManager.cpp:609-769 | as long as a call is under way or work is queued, some thread can take a step that is not a spurious wake-up; in particular spawning under the mutex never finds the pool's queue full |
| `QueuePrefetcherProgress.CallsEnd` | avs_core/core/DeviceManager.cpp:609-769 | from any reachable state of the living object the useful steps possible without a new call are bounded, and they end only when every call has returned or raised and all queued work is done |
| `QueuePrefetcherProgress.RaisesForAsked` | avs_core/core/DeviceManager.cpp:722-769 | a call raises only if the child throws on a frame that some call wanted or queued in this run |
| `QueuePrefetcherTheorems.WorkersDrain` | avs_core/core/DeviceManager.cpp:609-643 | once no client is scheduling, the workers take a bounded number of steps and come to rest only with an empty queue |
| `QueuePrefetcherTheorems.StepInv` | avs_core/core/DeviceManager.cpp:609-769 | every step of clients, workers and destructor keeps the system invariant |
| `QueuePrefetcher.Construct` | avs_core/core/DeviceManager.cpp:685-704 | what the constructor leaves in the fields, and exactly for which arguments GetFrame and the destructor then use no null cache or pool |
| `FloydTheorems.Conserves` | avs_core/convert/convert_bits.cpp:432-510 | at every point of every image: source sum = 2^D times unclamped quantized sum + error held in buffer and nextError (and 2^(D-1) per pixel in low mode) |
| `FloydTheorems.VisitedIsTotal` | avs_core/convert/convert_bits.cpp:434-509 | the serpentine walk visits every pixel exactly once |
| `FloydTheorems.Stable` | avs_core/convert/convert_bits.cpp:418-510 | width at least two: nextError and every buffer cell, padding included, stay within 2^(D+1) across all row turns |
| `FloydTheorems.ErrorRange` | avs_core/convert/convert_bits.cpp:454-457 | the error is what the quantized value times 2^D leaves of pixel and carried error, and lies in [-2^(D-1), 2^(D-1)) |
| `FloydTheorems.Spreads` | avs_core/convert/convert_bits.cpp:336-354 | where the error of a pixel goes: 4/16 to the nearest into the cell behind it in walking direction, 5/16 into its own, the rest to the next pixel together with the cell ahead, which is emptied |
| `FloydTheorems.FlatStays` | avs_core/convert/convert_bits.cpp:432-510 | a flat image of v * 2^D comes out as v everywhere, shifted to the target depth, or scaled for low dither depths |
| `FloydTheorems.Serpentine` | avs_core/convert/convert_bits.cpp:434-509 | the walk starts rightwards, steps from each pixel to its neighbour and turns under the end of each row |
| `FloydTheorems.LowClamp` | avs_core/convert/convert_bits.cpp:458-468 | low dither depths: what exceeds the dither depth is stored as its largest value, and the scaled value is clamped to the target |
| `FloydTheorems.StableIff` | avs_core/convert/convert_bits.cpp:418-510 | the bound holds for every image of a width if and only if the width is not one or D is one |
| `FloydTheorems.ColumnDrifts` | avs_core/convert/convert_bits.cpp:336-354 | a one-pixel-wide image of in-range pixels whose middle cell grows with every row |
| `FloydTheorems.OneBitStable` | avs_core/convert/convert_bits.cpp:336-354 | with D = 1 every width is stable |
| `FloydTheorems.BrightnessDrift` | avs_core/convert/convert_bits.cpp:432-510 | the total brightness error, in units of the source, is the error held at the end and at most (width + 3) * 2^(D+1), whatever the height |
| `FloydTheorems.StoredNear` | avs_core/convert/convert_bits.cpp:454-468 | on images at least two pixels wide with pixels below 2^(dither + D) a quantized value is at most two steps outside the range of the dither depth, and inside it the stored pixel is that value shifted |
| `FloydTheorems.ClampIff` | avs_core/convert/convert_bits.cpp:464-468 | the stored pixel is in range and is the scaled quantized value if and only if that is in the range of the dither depth |
| `FloydSteinberg.Convert` | avs_core/convert/convert_bits.cpp:434-509 | the loops store the specified output, scaled and clamped, everywhere and leave the specified errors; `Conserves`, `Spreads`, `FlatStays` and `ClampIff` say what that output is, in powers of two of the bit depths |
| `FloydSteinberg.ConvertRow` | avs_core/convert/convert_bits.cpp:437-506 | one row, forward or backward, touches no other row |
| `FloydSteinberg.VisitPixel` | avs_core/convert/convert_bits.cpp:441-469 | one pixel of the walk moves the error state by one step and stores the specified output |
| `FloydSteinberg.PixelInPlace` | avs_core/convert/convert_bits.cpp:441-469 | quantize, carry and diffuse for one pixel |
| `FloydSteinberg.DiffuseInPlace` | avs_core/convert/convert_bits.cpp:336-354 | the buffer update of the diffusion, in place |
| `DitherTables.TableIsBayer` | avs_core/convert/convert_bits.cpp:75-201 | every entry of the four tables for even differences is the digit-interleaved pattern |
| `DitherTables.OddTableIsHalf` | avs_core/convert/convert_bits.cpp:63-182 | every entry of the four tables for odd differences is half the even one, rounded down, but for one cell |
| `OrderedDither.TileSum` | avs_core/convert/convert_bits.cpp:224-315 | over one tile the quotients of v add up to v, by Hermite's identity at every scale |
| `OrderedDither.FlatWindow` | avs_core/convert/convert_bits.cpp:266-315 | over any tile-sized window of a constant picture, for every bit difference, the outputs add up to min(v, 2^s - 2^d), twice that for odd differences, times the back-scaling factor, plus what the misprinted entry adds |
| `OrderedDither.FlatExactIff` | avs_core/convert/convert_bits.cpp:173-315 | flat areas of value v keep their brightness in every window if and only if v does not saturate and, for a difference of seven, is in none of ten residues modulo 128 |
| `OrderedDither.LowFlatWindow` | avs_core/convert/convert_bits.cpp:284-298 | for dither depths below eight, before the scaling to the target, the values over any tile-sized window add up to the source value less half a step, twice that for odd differences, plus what the misprinted entry adds |
| `OrderedDither.LowPixel` | avs_core/convert/convert_bits.cpp:284-310 | any pixel of any picture at dither depths below eight: the value before scaling is the number of whole steps in the source less half a step plus the table entry, or, below half a step, 0 or -1, exactly; it is cut off, scaled and clamped |
| `OrderedDither.PixelIs` | avs_core/convert/convert_bits.cpp:290-310 | any pixel at depths of eight or more: the quotient of source plus entry, cut off at the dither depth, times the back-scaling factor |
| `OrderedDither.EntryIs` | avs_core/convert/convert_bits.cpp:266-274 | the table entry of any pixel is the pattern at its place in the tile, halved for odd differences, but for the misprinted cell |
| `OrderedDither.UnitIs` | avs_core/convert/convert_bits.cpp:231-233 | the step is two to the power of the bit difference |
| `OrderedDither.Hermite4` | avs_core/convert/convert_bits.cpp:139-201 | Hermite's identity for four, the step from one table scale to the next |
| `OrderedDither.Convert` | avs_core/convert/convert_bits.cpp:266-315 | the loops store the dithered, scaled and clamped pixel everywhere, for every bit difference and depth |
| `OrderedDither.ConvertPixel` | avs_core/convert/convert_bits.cpp:271-310 | one pixel, centred for low dither depths |
| `CopyOnWriteObject.PropertyMemory.Create` | avs_core/core/AVSMap.h:279-280 | a new handle shows the empty map |
| `CopyOnWriteObject.PropertyMemory.Share` | avs_core/core/AVSMap.h:279-280 | a new handle on the same storage: no storage or array is made, it shows what the other shows, and nobody else sees a change |
| `CopyOnWriteObject.PropertyMemory.Destroy` | avs_core/core/AVSMap.h:58-61 | the handle goes, its storage with the last reference; the others see no change |
| `CopyOnWriteObject.PropertyMemory.Assign` | avs_core/core/AVSMap.h:282-285 | assignment between different handles: the one refers to the other's storage and shows what it shows, nobody else sees a change |
| `CopyOnWriteObject.PropertyMemory.AssignSelf` | avs_core/core/AVSMap.h:63-70 | assigning a handle to itself changes nothing if another handle shares the storage; otherwise, and only then, the storage goes with its references to arrays and the handle dangles |
| `CopyOnWriteObject.PropertyMemory.Detach` | avs_core/core/AVSMap.h:287-293 | afterwards the handle alone uses its storage, and no handle sees a difference; nothing at all happens if it did before |
| `CopyOnWriteObject.PropertyMemory.Erase` | avs_core/core/AVSMap.h:311-320 | removes the key through this handle only; a missing key changes nothing |
| `CopyOnWriteObject.PropertyMemory.Insert` | avs_core/core/AVSMap.h:322-331 | the key shows the new array through this handle only |
| `CopyOnWriteObject.PropertyMemory.CopyFrom` | avs_core/core/AVSMap.h:333-340 | every slot of the source replaces the one here; copying to oneself does nothing |
| `CopyOnWriteObject.PropertyMemory.Clear` | avs_core/core/AVSMap.h:346-351 | the handle shows the empty map, emptied in place or replaced |
| `CopyOnWriteObject.PropertyMemory.DetachKey` | avs_core/core/AVSMap.h:300-309 | the key's array is afterwards used by this slot only, a missing key has none; nobody sees a difference |
| `CopyOnWriteObject.PropertyMemory.Append` | avs_core/core/AVSMap.h:300-309 | appending through detach(key) is seen through this handle only |
| `CopyOnWriteObject.PropertyMemory.CloneStore` | avs_core/core/AVSMap.h:248-249 | the copied storage shares every array, with counts exact |
| `CopyOnWriteObject.PropertyMemory.EmptyStore` | avs_core/core/AVSMap.h:251-254 | releasing every slot frees exactly the arrays nobody else holds |
| `CopyOnWriteObject.PropertyMemory.ReleaseStore` | avs_core/core/AVSMap.h:264-268 | the last reference destroys the storage |
| `CopyOnWriteObject.Step` | avs_core/core/AVSMap.h:275-351 | any operation on any handle does to the visible maps what it would do if every handle owned its map; all counts stay exact |
| `CopyOnWriteObject.Run` | avs_core/core/AVSMap.h:275-351 | the same for any sequence of operations on any number of handles |
| `CopyOnWrite.SetSlotOk` | avs_core/core/AVSMap.h:63-70 | add_ref on a slot keeps every array count equal to the slots holding it |
| `CopyOnWrite.DropSlotOk` | avs_core/core/AVSMap.h:58-61 | releasing a slot keeps the counts exact and frees the array with its last slot |
| `CopyOnWrite.MoveInOk` | avs_core/core/AVSMap.h:322-331 | the caller's reference becomes the slot's |
| `VSArray.PropertyArray.constructor` | avs_core/core/AVSMap.h:158 | stands for a plain sequence: empty |
| `VSArray.PropertyArray.FromValues` | avs_core/core/AVSMap.h:168-177 | stands for a plain sequence: the given values |
| `VSArray.PropertyArray.Copy` | avs_core/core/AVSMap.h:160-166 | stands for a plain sequence: the same elements, copying only the representation in use |
| `VSArray.PropertyArray.PushBack` | avs_core/core/AVSMap.h:190-205 | stands for a plain sequence: appends one element, through the one-element special case |
| `VSArray.PropertyArray.At` | avs_core/core/AVSMap.h:207-213 | stands for a plain sequence: the element at the position |
| `VSArray.PropertyArray.DataPointer` | avs_core/core/AVSMap.h:183-188 | stands for a plain sequence: size() consecutive elements |
| `FilterGraphPrinter.Printer.Construct` | avs_core/core/FilterGraph.cpp:230-235 | for every acyclic graph the printed lines, read as let-bindings, bind every variable once and before its use if and only if every clip the root needs is a graph node with a name, and then rebuild exactly the reachable graph with its sharing and its argument names (line breaks in string arguments aside); they run as a script if and only if, beyond that, no function, array, undefined value or quote in a string is needed; the returned number names the root's copy |
| `FilterGraph.RunMeansDefined` | avs_core/core/FilterGraph.cpp:260-291 | lines that bind assign every variable once and before its first use |
| `FilterGraph.RebuildsExactlyIff` | avs_core/core/FilterGraph.cpp:248-276 | the rebuilt graph is the same to the last character of its strings if and only if no string argument has a line break |
| `FilterGraph.WithoutBreaksJoin` | avs_core/core/FilterGraph.cpp:248-254 | taking the line breaks out of a text is taking them out of its pieces |
| `FilterGraph.RebuiltByScript` | avs_core/core/FilterGraph.cpp:183-216 | lines that are a script rebuild only graphs of named clips made from clips and scalars |
| `FilterGraph.DefaultIsNoScript` | avs_core/core/FilterGraph.cpp:184-186 | the line printed for a filter with an undefined argument binds a clip, but is no script |
| `FilterGraph.BrokenFails` | avs_core/core/FilterGraph.cpp:263-265 | lines with one that is no assignment do not bind |
| `FilterGraph.ReachableCopied` | avs_core/core/FilterGraph.cpp:135-223 | copies closed under arguments that include the root include everything reachable |
| `FilterGraphPrinter.Printer.DoClip` | avs_core/core/FilterGraph.cpp:135-151 | numbers and prints a clip once, after everything it refers to |
| `FilterGraphPrinter.Printer.DoFunc` | avs_core/core/FilterGraph.cpp:153-166 | the same for a function and its captures |
| `FilterGraphPrinter.Printer.DoArray` | avs_core/core/FilterGraph.cpp:168-223 | the printed arguments evaluate to copies of the values, each under its own name, or all without names if none are given |
| `FilterGraphPrinter.Printer.DoValue` | avs_core/core/FilterGraph.cpp:183-216 | one argument by type; nested arrays get their own line |
| `FilterGraphPrinter.NumberNode` | avs_core/core/FilterGraph.cpp:136-137 | nodeMap.size() is a number not used before |
| `FilterGraphPrinter.EmitNode` | avs_core/core/FilterGraph.cpp:261-277 | the line of a clip or function, its line breaks taken out, adds the copy of that node to what the lines bind |
| `FilterGraphPrinter.EmitArray` | avs_core/core/FilterGraph.cpp:279-285 | read as a let-binding, the array's line makes its variable stand for a copy of the array (as a script it does not run) |
| `SourceWindow.AlwaysExact` | avs_core/core/audio.cpp:1623-1656 | after any calls whose jumps and sizes fit an int the buffer holds exactly the child's samples [last_start, last_start + last_samples), at least those needed, through reallocation, seeks and overlapping moves |
| `SourceWindow.PassReads` | avs_core/core/audio.cpp:1615-1656 | after any calls whose jumps and sizes fit an int, the filter pass finds in the buffer, for every channel and every source sample from the filter's reach before its stretch to the reach behind it, the child's value |
| `SourceWindow.AskFor` | avs_core/core/audio.cpp:1621-1643 | what a call asks for: its stretch of the source and the filter's reach on either side |
| `SourceWindow.KeptIs` | avs_core/core/audio.cpp:1642-1652 | what a jump that fits an int keeps, exactly: the old window from the wanted start on; nothing on a step back or beyond |
| `SourceWindow.AllocatesIff` | avs_core/core/audio.cpp:1631-1640 | a call allocates a new buffer if and only if none before it needed as many bytes |
| `SourceWindow.ReuseExactIff` | avs_core/core/audio.cpp:1642-1656 | one call is right for every child if and only if the jump fits an int or nothing is reused |
| `SourceWindow.FalseReuse` | avs_core/core/audio.cpp:1642-1646 | when the cast wraps and still finds an overlap, a child with distinct samples shows wrong data |
| `SourceWindow.FalseReuseHappens` | avs_core/core/audio.cpp:1642-1646 | for every size of window, two calls 2^32 and a few samples apart leave a buffer that is not what a full fetch would give |
| `SourceWindow.SlideExact` | avs_core/core/audio.cpp:1642-1656 | one call keeps an exact window exact |
| `SourceWindow.RoomIff` | avs_core/core/audio.cpp:1625-1637 | the buffer has room for the samples of a call if and only if their byte count, which is cast to int, fits an int |
| `SourceWindowObject.SourceBuffer.Refill` | avs_core/core/audio.cpp:1621-1656 | the in-place reallocation, decided on the cast byte count, move and fetch are the specified call, for both sample types; the window then covers every sample from srcStart / 2^15 - xoff to srcStart / 2^15 + (srcEnd - srcStart) / 2^15 + xoff |
| `SourceWindowObject.SourceBuffer.Advance` | avs_core/core/audio.cpp:1783-1802 | the window slides to the wanted start |
| `SourceWindowObject.SourceBuffer.Reuse` | avs_core/core/audio.cpp:1642-1652 | the reusable samples end up at the front of the buffer |
| `SourceWindowObject.SourceBuffer.MoveDown` | avs_core/core/audio.cpp:1648-1652 | the ascending copy is right although source and target overlap |
| `SourceWindowObject.SourceBuffer.FetchInto` | avs_core/core/audio.cpp:1655-1656 | the child's samples go behind the reused ones, which stay |
| `Signatures.IsValidParameterString` | avs_core/core/PluginManager.cpp:213-269 | accepts exactly the strings of the grammar: an optional [name], a type, an optional + or * |
| `Signatures.AcceptsIff` | avs_core/core/PluginManager.cpp:213-269 | the four-state automaton accepts exactly that grammar |
| `Signatures.MatchesOwnLetter` | avs_core/core/PluginManager.cpp:351-363 | a letter takes the arguments of its own type, a dot takes any, and f takes integers too unless matching is strict; nothing else matches |
| `Signatures.SpecifierIffMatches` | avs_core/core/PluginManager.cpp:191-269 | the type letters the validator admits are exactly those that match some argument |
| `Signatures.SingleTypeMatchArray` | avs_core/core/PluginManager.cpp:365-377 | true exactly if the argument is an array whose elements all match |
| `TypeMatch.TypeMatch` | avs_core/core/PluginManager.cpp:379-517 | on every accepted signature and every argument list the walk terminates, stays inside the string, reaches none of its three throws, and decides the matching of elements |
| `TypeMatch.Leftover` | avs_core/core/PluginManager.cpp:499-517 | with no argument left: true exactly if the remaining parameters can be left out |
| `TypeMatch.SkipName` | avs_core/core/PluginManager.cpp:408-421 | steps from a bracket to the type behind the name; neither error can occur |
| `TypeMatchTheorems.MatchesIffSplit` | avs_core/core/PluginManager.cpp:380-517 | the answer is true if and only if the arguments have a greedy split into runs |
| `TypeMatchTheorems.SplitMeans` | avs_core/core/PluginManager.cpp:380-517 | a split is the whole argument list in order, one run per consumed element, each fitting its type and its + or *, and the elements left can be left out |
| `TypeMatchTheorems.SkippableIff` | avs_core/core/PluginManager.cpp:499-517 | the parameters left can be left out if and only if only unnamed ones with a * come before a named one or the end |
| `V210.RoundTrip` | avs_core/core/AviHelper.cpp:662-783 | for every width and height, ten-bit samples and arbitrary padding, unpacking the packed buffer restores every pixel pair of every row |
| `V210.Pack` | avs_core/core/AviHelper.cpp:662-691 | every row's own groups are packed at the end, although each row's last group may land on the next row's start |
| `V210.PackLine` | avs_core/core/AviHelper.cpp:672-685 | the groups of one row, and nothing before it |
| `V210.PackGroup` | avs_core/core/AviHelper.cpp:677-680 | six pixels in four words |
| `V210.Destination.Unpack` | avs_core/core/AviHelper.cpp:716-783 | every row's pairs hold the fields of their words; nothing else, an odd last column included, changes |
| `V210.Destination.UnpackLine` | avs_core/core/AviHelper.cpp:728-776 | whole groups and a rest of two or four pixels; nothing outside the row's pairs changes |
| `V210.Destination.StorePair` | avs_core/core/AviHelper.cpp:739-752 | the four samples of a pair, and no other |
| `V210.PairRoundTrip` | avs_core/core/AviHelper.cpp:677-680 | a pair survives whatever the padding behind it holds |
| `V210.FieldsOfJoin` | avs_core/core/AviHelper.cpp:677-680 | a field is right as soon as it and the fields below it are ten bits wide |
| `V210.PitchFits` | avs_core/core/AviHelper.cpp:670-676 | a row's groups fit the rounded pitch; at most one group more is written |
| `V210.PitchIs` | avs_core/core/AviHelper.cpp:670-676 | a row has as few groups as hold its pixels, and takes as few bytes, in multiples of 128, as hold its groups |
| `V210.PackedIsStream` | avs_core/core/AviHelper.cpp:672-685 | the layout without groups: the consecutive ten-bit fields of a packed row are its samples in the order U, Y, V, Y, as far as these are ten bits wide |
| `V210.UnpackedIsStream` | avs_core/core/AviHelper.cpp:728-776 | unpacking reads the same stream: every pair's samples are the fields at their places |
| `BufferPoolObject.BuffersApart` | avs_core/core/BufferPool.cpp:44-167 | two buffers in use are at least a header apart |
| `BufferPoolObject.BufferSound` | avs_core/core/BufferPool.cpp:44-167 | a buffer in use is aligned, has its header intact and lies with header and bytes inside its own live block |
| `BufferPoolObject.Pool.Allocate` | avs_core/core/BufferPool.cpp:105-147 | returns a buffer nobody holds; nothing if and only if no pooled block may be reused and the effective alignment is no power of two or malloc fails; a pooled block that fits, the smallest, is reused before malloc is asked, otherwise the report rises by the bytes, the header and the alignment's slack, and a pooled block is entered with the size and alignment asked for |
| `BufferPoolObject.Pool.Release` | avs_core/core/BufferPool.cpp:149-167 | takes the buffer back: a pooled block stays and is free again, any other is freed and its size taken back |
| `BufferPoolObject.ReturnedFits` | avs_core/core/BufferPool.cpp:105-124 | a pooled buffer that was taken back serves every request that is not larger |
| `BufferPoolObject.Pool.PrivateAlloc` | avs_core/core/BufferPool.cpp:44-76 | the aligned pointer, the five header words and the report of the real size |
| `BufferPoolObject.Pool.PrivateFree` | avs_core/core/BufferPool.cpp:78-83 | the header leads to the right block and the size reported for it |
| `BufferPoolObject.Pool.FindFree` | avs_core/core/BufferPool.cpp:107-124 | the first free fit in the multimap is a smallest one |
| `BufferPoolObject.Pool.Destroy` | avs_core/core/BufferPool.cpp:91-103 | frees every pooled block; what stays reported is the unpooled blocks |
| `BufferPoolObject.Pool.Write` | avs_core/core/BufferPool.cpp:44-74 | whatever a caller stores in its own buffer, all headers and the whole invariant survive |
| `BufferPool.AlignedPtrOk` | avs_core/core/BufferPool.cpp:59-68 | the masked pointer is the first aligned one that leaves room for the header, and its bytes end inside the block |
| `BufferPool.HeadersSafe` | avs_core/core/BufferPool.cpp:44-74 | no store through any buffer reaches any header |

## Left out

- SIMD variants, inline assembly and the device-specific paths: the C loops are modelled.
- Floating point: range conversion of a pixel before dithering (the pixel is an arbitrary integer), and the scaling of the stored pixel for dither depths below eight bits (the parameter `scale` of both dithers).
- OrderedDither.FlatWindow: dither depths of eight bits or more; below, `LowFlatWindow` states the sum before the float scaling.
- Integer widths: sizes, counts and frame numbers are unbounded, except where a 32-bit cast decides the behaviour (the resampler's offset, overlap and byte count). In particular capacity + 1 and nBytes + offset do not wrap.
- LruCacheObject.FrameCache.Lookup: allocation of entries is a fresh pointer; the object pool and the list-node pool are not modelled, nor is the leak of an entry whose only lock is rolled back.
- Memory order below the mutexes: notification after unlocking, unlocked reads of size and capacity, and the atomicity of reference counts.
- PrefetcherTheorems.Transparent: one requesting thread; the bypass while GetSuppressThreadCount is positive is a plain child call and not modelled.
- Prefetch of negative frame numbers under backward strides: the scheduler checks only the upper limit, and nothing is claimed about a lower one.
- The lock-free queue behind the thread pool, and thread start-up and joining.
- CopyOnWriteObject.PropertyMemory.Assign: between different handles only; `AssignSelf` covers the other case, and sequences of operations do not contain it.
- Property types and names, `key(n)`, `setError` and the frame-property C API: names are compared for equality only, elements are integers.
- FilterGraphPrinter.Printer.Construct: how a number is spelled (eight digits; infinities) and the line breaks put into long argument lists, which clip and function lines lose again and array lines keep, are not modelled; a clip that is no graph node prints its line under an indeterminate number, which the model does not show; a node has one name per argument or none, as its constructor makes it; DOT output, `refNodes`, cache sizes and memory figures are left out.
- SourceWindowObject.SourceBuffer.MoveDown: memcpy on overlapping ranges is undefined in C; it is modelled as the ascending copy that the code relies on.
- The resampling filter itself, its coefficients and the output position arithmetic.
- Function lookup by name, argument-name matching and plugin loading.
- V210.Pack: needs source lines padded to whole groups and one spare output group at the end, as the loops read and write them.
- BufferPoolObject.Pool.Allocate: malloc is a parameter that answers nothing or a block apart from all live ones; the debug-only guard checks are the header invariant.
- Colour-format dispatch, video and audio filters other than the above, the script parser and evaluator, plugin and registry handling, and all I/O: other parts of the system.
