# Verified models of the Linux 3.1 block layer's request path and of AES

This project models, in Dafny, the stateful schedulers and protocols of the block layer in
`android-tegra-3.1/block` and the table-driven cipher of `android-tegra-3.1/crypto/aes_generic.c`, and proves
what they keep, promise and undo. `dafny verify dfyconfig.toml` checks everything.

Each section held under the queue lock is one atomic step; a step is split where the lock is really dropped
(request allocation, the scheduler switch). Code that updates structures in place is modelled by classes and
methods, each proved equal to a function on values; the theorems are about those functions and about whole runs
of steps.

| files | what they model |
|---|---|
| `arithmetic.dfy`, `lists.dfy` | products and list removal shared by the models |
| `flush_*.dfy` | the FLUSH/FUA sequencer: model, list structure, data events, history of events, errors, progress, timing of flushes, the dispatch queue, the in-place queue |
| `throttle_*.dfy` | I/O throttling: slices and their arithmetic, the long-run rate, what a group is owed, the groups in place, the service tree and dispatch loop |
| `segments.dfy`, `segment_division.dfy`, `segment_requests.dfy` | segment counting, the division into segments, merging and scatter-gather mapping |
| `partial_completion.dfy` | `blk_update_request` |
| `deadline_*.dfy` | the deadline scheduler: model, two-view invariant, places in the FIFO, bounded waiting and its failure by merging, the choice of the next request, the in-place scheduler |
| `elevator_core.dfy` | dispatch-queue order, merge hash, last_merge |
| `elevator_switch.dfy` | changing the scheduler of a live queue |
| `tags.dfy`, `tag_reserve.dfy`, `tag_queue.dfy` | the tag allocator and the tags it keeps for synchronous requests |
| `aes_*.dfy` | AES: field and column algebra, the cipher of FIPS-197, words and tables, key schedule, the in-place context, both said byte by byte |

## Main results

- **Flush sequencer.** In every run a FUA-emulating request succeeds only after a flush issued after its data
  has completed, data waits for a preflush issued after arrival, a bio ends with an error only after a failure of
  its own data or of a flush issued since, bios end and are accounted exactly once, every request is on the list
  its stage names, nothing stalls, and once arrivals and give-backs stop a driver that keeps taking and
  completing finishes every request within a number of moves fixed by what is left. The loop of
  `flush_end_io` may issue the next flush and toggle the pending index under itself; the proof follows the list
  it walks. After every step that moves a sequence on, no request waits for a flush that is not in flight unless
  data is, and then for less than five seconds; conversely no flush is issued sooner or for nobody. Only requests
  that need a flush wait for one, and a bio any part of which failed never ends well.
- **Throttling.** Charges since a fresh slice began stay below the configured rate plus one slice, across trims,
  extensions and restarts. The wait promised for a refused bio holds for an unchanged slice, for bytes one jiffy
  later and at the promised time itself exactly as `BpsAtWaitIff` says. Through `tg_may_dispatch` it fails in two
  more ways, and `AdmittedAfterWaitIff` gives the exact condition for every refusal: within the extended slice the
  I/O limit, which a refusal by bytes never asked, may refuse next (`ByteWaitHidesIops`), and after it the slice
  restarts and only a bio within one slice's allowance passes (`LateRecheckStartsOver`). The dispatch loop ends
  with the clock frozen, bios leave each group and direction in arrival order, exactly once, and what has left
  obeys the rate bound in every state of the queue, whose slices and lists are updated in place. From below: a
  trim credits the time gone by to within a byte and an I/O, a bio is refused only over the rate, and no wait is
  longer than the rate asks for.
- **Segments.** The carried count always bounds what the mapper writes: counting maintains that some admissible
  division has that many segments, and the mapper's greedy division is minimal. The division is also the only one
  in which vectors share a segment exactly when they touch within a boundary window, the size allows and
  clustering is on.
- **Partial completion.** `blk_update_request(n)` drops exactly n bytes from the front. Two completions agree
  with one on the data always and on the sector exactly when their remainders modulo 512 do not carry.
- **Deadline.** Both views of a direction hold the same requests in their two orders through merges, draining
  dispatches everything once, and an expired request is dispatched, itself or in the request it was merged into,
  within a number of dispatches bounded by how many requests are due no later. Bounded by how many stand before
  it, as the FIFO order suggests, this is false: of two requests due at the same time the survivor of a merge keeps
  its own place (`MergedBackwards`); `MergedPlaceIff` says exactly when a merge costs a place and `ServedInTurn`
  proves the bound otherwise. For reads both need `writes_starved` of at least one; `ReadStarvesAtZero` shows the
  failure at zero. While nothing has expired, the dispatches of one direction are one sweep in sector order,
  across batches.
- **Elevator.** One-way order is kept, the hash finds what there is to find, last_merge never names a request
  that left. A scheduler switch handles private data and sort structures safely in every interleaving. Calls into
  the elevator are safe exactly outside the window between a failed registration and the return of the old
  elevator: `elevator_switch` exits the new elevator while the queue still points at it (`DrainsExited`).
- **Tags.** Bitmap, index and busy list agree through start, end, shrink and growth; invalidation restores the
  queue. However many asynchronous requests are in flight, a synchronous one is refused only while synchronous ones
  hold the two highest tags. A resize copies the old tables into new ones whose depth `init_tag_map` has clamped to
  twice nr_requests; the copy fits exactly when the real depth is not above that. While resizes fit the real depth
  never falls, and the branch of `blk_queue_end_tag` for tags beyond the map is unreachable.
- **AES.** Decryption undoes encryption for all keys of the three sizes, for every S-box permutation with its
  inverse: the table rounds refine the steps of FIPS-197, the schedules are those of sections 5.2 and 5.3.5.
  Schedule and encryption are also stated byte by byte, without the functions that define them.

Every lemma carries `{:induction false}`: all inductions are written out.

## Model

| member | source | states |
|---|---|---|
| `FlushHistory.EveryRunSafe` | android-tegra-3.1/block/blk-flush.c:144-347 | In every run of submissions, driver take/give-back, data and flush completions, every event is allowed by what happened before it: one flush at a time, data queued after its preflush and finished once, bios ended once, well only when durable and with an error only after the data or a flush issued since the submission has failed; every state is well placed and not stalled |
| `FlushHistory.ErrorHasCause` | android-tegra-3.1/block/blk-flush.c:144-229 | A bio ends with an error only after its own data has failed, or a flush that was issued after its submission |
| `FlushHistory.DataFinishesOnce` | android-tegra-3.1/block/blk-flush.c:144-285 | In every run the data of a request finishes after it was put on the dispatch queue, and never a second time |
| `FlushData.StepData` | android-tegra-3.1/block/blk-flush.c:144-347 | Every step keeps: what is with the driver was queued, and a request whose data has finished has passed its data stage |
| `FlushData.DataFirst` | android-tegra-3.1/block/blk-flush.c:275-285 | What a driver completes was queued and has not finished before |
| `FlushHistory.FuaWaitsForLaterFlush` | android-tegra-3.1/block/blk-flush.c:144-273 | A request emulating FUA ends without error only after a cache flush that was issued after its data finished has itself completed successfully |
| `FlushHistory.DataWaitsForPreflush` | android-tegra-3.1/block/blk-flush.c:144-229 | The data of a request asking for a preflush reaches the dispatch queue only after a flush issued after the request's arrival has completed successfully |
| `FlushHistory.EndedExactlyOnce` | android-tegra-3.1/block/blk-flush.c:115-127 | A request has its bio ended and its I/O accounted exactly once in the whole run, and not before it leaves the sequencer, although a sequenced request with data is ended twice (when and how it may end: EveryRunSafe) |
| `FlushHistory.EndsDiffer` | android-tegra-3.1/block/blk-flush.c:174-185 | In any safe log no bio ends twice and no request is accounted twice |
| `FlushHistory.RunHist` | android-tegra-3.1/block/blk-flush.c:9-64 | The history invariant holds along every run from a good state |
| `FlushHistory.StepHist` | android-tegra-3.1/block/blk-flush.c:144-347 | Every enabled step keeps the history invariant |
| `FlushHistory.KickHist` | android-tegra-3.1/block/blk-flush.c:244-273 | Issuing a flush keeps the history invariant: the new flush comes after everything its queue waits for |
| `FlushHistory.RetireFlushHist` | android-tegra-3.1/block/blk-flush.c:194-205 | A flush that ends, well or not, is the one that exactly the requests of its queue waited for, even as the running index toggles |
| `FlushHistory.VisitHist` | android-tegra-3.1/block/blk-flush.c:207-213 | One visit of the completion loop leaves the rest of the walked list served, though it may issue the next flush |
| `FlushHistory.PushWaitingHist` | android-tegra-3.1/block/blk-flush.c:207-213 | The whole loop over the running queue keeps the history invariant |
| `FlushHistory.EndSequenceHist` | android-tegra-3.1/block/blk-flush.c:174-185 | Ending a sequence keeps the history: success is reported only to a request entitled to it, an error only after a failure |
| `FlushHistory.BioEndOk` | android-tegra-3.1/block/blk-core.c:150-176 | The bio's end is allowed: not ended before, without error only when durable, with an error only after a failure |
| `FlushHistory.EndDataHist` | android-tegra-3.1/block/blk-flush.c:275-285 | Finishing data, in one or several parts, keeps the history |
| `FlushHistory.InsertFlushHist` | android-tegra-3.1/block/blk-flush.c:298-347 | Arrival of any request, sequenced or passed on directly, keeps the history |
| `FlushHistory.EndFlushHist` | android-tegra-3.1/block/blk-flush.c:194-229 | The whole of flush_end_io keeps the history |
| `FlushStructure.RunGood` | android-tegra-3.1/block/blk-flush.c:144-347 | After every step of every run each unfinished sequenced request is on exactly the list its lowest unset bit names, the non-pending queue is empty without a flush in flight, and nothing is stalled |
| `FlushStructure.StepGood` | android-tegra-3.1/block/blk-flush.c:144-347 | Every enabled step keeps placement, stages, indices and the absence of stalls |
| `FlushStructure.KickStruct` | android-tegra-3.1/block/blk-flush.c:244-273 | Kicking leaves no stall behind and does nothing while a flush is in flight |
| `FlushStructure.VisitStruct` | android-tegra-3.1/block/blk-flush.c:144-192 | Completing the current stage of the first walked request keeps the lists in agreement for the rest of the walk, including when the next flush is issued under it |
| `FlushStructure.PushWaitingStruct` | android-tegra-3.1/block/blk-flush.c:207-213 | The loop of flush_end_io ends with all lists in agreement and no stall |
| `FlushStructure.RetireFlushStruct` | android-tegra-3.1/block/blk-flush.c:201-211 | When a flush ends its queue is non-empty, without duplicates and of live requests, so the assertions at the loop's start cannot fail |
| `FlushStructure.DetachWalk` | android-tegra-3.1/block/blk-flush.c:159-185 | Taking the walked request off its list leaves the remaining walk intact |
| `FlushStructure.EndFlushGood` | android-tegra-3.1/block/blk-flush.c:194-229 | flush_end_io keeps the invariant |
| `FlushStructure.EndDataGood` | android-tegra-3.1/block/blk-flush.c:275-285 | Data completion keeps the invariant |
| `FlushStructure.InsertFlushGood` | android-tegra-3.1/block/blk-flush.c:298-347 | blk_insert_flush keeps the invariant |
| `FlushStructure.DriverGood` | android-tegra-3.1/block/blk.h:57-91 | Taking from and giving back to the dispatch queue keep the invariant |
| `FlushProgress.EveryRunFinishes` | android-tegra-3.1/block/blk-flush.c:144-285 | From any reachable state, a run without further arrivals and give-backs has at most as many driver moves (a take, a flush completion, a completion of some bytes) as the load names, and where the driver has no further move every request is finished |
| `FlushProgress.DriverFinishes` | android-tegra-3.1/block/blk-flush.c:144-285 | From every good state, whatever bytes and stages are left, there is a run of takes and completions alone, no longer than the load, that finishes every request |
| `FlushProgress.MovesPaid` | android-tegra-3.1/block/blk-flush.c:144-347 | In every run the driver's moves and the load left never exceed the load there was and what submissions and give-backs added |
| `FlushProgress.StepLoad` | android-tegra-3.1/block/blk-flush.c:144-347 | Every take and every completion lowers the load, although completions put data and the next flush on the queue; a give-back adds one, a submission a fixed amount over its bytes |
| `FlushProgress.PushWaitingLoad` | android-tegra-3.1/block/blk-flush.c:207-213 | The loop of flush_end_io lowers the load by one for each request it visits |
| `FlushProgress.NextMove` | android-tegra-3.1/block/blk-flush.c:191-273 | While a request is unfinished the driver has an enabled move |
| `FlushProgress.FinitelyManyCompletions` | android-tegra-3.1/block/blk-flush.c:144-285 | Completions and the work still left never exceed the work there was, so no run without arrivals has more completions than that |
| `FlushProgress.UnfinishedCosts` | android-tegra-3.1/block/blk-flush.c:144-192 | Every unfinished request still has a stage before it |
| `FlushProgress.StepWork` | android-tegra-3.1/block/blk-flush.c:144-285 | No step but a submission adds work and every completion uses some up |
| `FlushProgress.CompleteWork` | android-tegra-3.1/block/blk-flush.c:144-192 | Finishing an unfinished stage uses up work |
| `FlushProgress.PushWaitingWork` | android-tegra-3.1/block/blk-flush.c:207-213 | The loop of flush_end_io uses up one unit for each request it visits |
| `FlushProgress.UnfinishedIsOutstanding` | android-tegra-3.1/block/blk-flush.c:191-273 | While a request is unfinished the driver has something to take or to complete |
| `FlushProgress.HeldQueueRestarts` | android-tegra-3.1/block/blk.h:57-91 | A queue held for a flush is restarted when that flush ends, and it is held only while the flush is in flight |
| `FlushQueue.RequestQueue.KickFlush` | android-tegra-3.1/block/blk-flush.c:244-273 | In place, the reference kick, whose five-second timeout EveryKickPrompt, IssuedWhenDue and IssuedAfterFlush pin from both sides; the result says whether a flush was queued |
| `FlushQueue.RequestQueue.MarkDone` | android-tegra-3.1/block/blk-flush.c:149-185 | The finished stages are marked and the request leaves whatever list it is on, as in the reference step |
| `FlushQueue.RequestQueue.WaitForFlush` | android-tegra-3.1/block/blk-flush.c:160-166 | Joining the pending queue, with its time stamp, is the reference step |
| `FlushQueue.RequestQueue.DispatchData` | android-tegra-3.1/block/blk-flush.c:168-172 | Moving to the data list and the dispatch queue is the reference step |
| `FlushQueue.RequestQueue.EndRestored` | android-tegra-3.1/block/blk-flush.c:115-127 | Restoring and ending the request is the reference step |
| `FlushQueue.RequestQueue.AdvanceSeq` | android-tegra-3.1/block/blk-flush.c:144-187 | Each stage of the sequence is the reference step, with the assertion on repeated bits proved |
| `FlushQueue.RequestQueue.CompleteSeq` | android-tegra-3.1/block/blk-flush.c:144-192 | Advance and kick together are the reference step; the result says whether the dispatch queue grew |
| `FlushQueue.RequestQueue.Visit` | android-tegra-3.1/block/blk-flush.c:207-213 | One loop visit keeps the live walk a walk of the same list while callees move its members |
| `FlushQueue.RequestQueue.WalkRunning` | android-tegra-3.1/block/blk-flush.c:207-213 | The loop over the live list, with its saved successor, does what folding over the list as it was does |
| `FlushQueue.RequestQueue.Retire` | android-tegra-3.1/block/blk-flush.c:194-205 | Accounting the ended flush and toggling the running index is the reference step |
| `FlushQueue.RequestQueue.FlushEndIo` | android-tegra-3.1/block/blk-flush.c:194-229 | From any good state flush_end_io is the reference step; its assertions cannot fail |
| `FlushQueue.RequestQueue.Settle` | android-tegra-3.1/block/blk-flush.c:226-229 | The queue is rerun exactly when it got work or was held |
| `FlushQueue.RequestQueue.FlushDataEndIo` | android-tegra-3.1/block/blk-flush.c:275-285 | Data completion reruns the queue exactly when something was queued |
| `FlushQueue.RequestQueue.Arrive` | android-tegra-3.1/block/blk-flush.c:298-321 | What the policy leaves of a new request is the reference step |
| `FlushQueue.RequestQueue.InsertFlush` | android-tegra-3.1/block/blk-flush.c:298-347 | From any good state blk_insert_flush is the reference step |
| `FlushTiming.EveryKickPrompt` | android-tegra-3.1/block/blk-flush.c:232-273 | In every run, after every step that moves a sequence on: a flush is in flight, or nothing waits for one, or data is in flight and no request has waited five seconds since it joined |
| `FlushTiming.IssuedWhenDue` | android-tegra-3.1/block/blk-flush.c:232-273 | A submission or a data completion issues a flush only when none is in flight, somebody waits for it, and no data is in flight or somebody has waited five seconds; other steps but the end of a flush issue none |
| `FlushTiming.IssuedAfterFlush` | android-tegra-3.1/block/blk-flush.c:207-273 | The end of a flush issues at most one other, after some of those it served have moved on, for somebody waiting, with no data in flight or a wait of five seconds |
| `FlushTiming.StepTimed` | android-tegra-3.1/block/blk-flush.c:160-166 | After every step flush_pending_since is the time at which the first of those waiting joined, and none joined before it |
| `FlushTiming.KickTimed` | android-tegra-3.1/block/blk-flush.c:244-273 | The kick is prompt, issues only what is warranted, and starts the new pending list afresh |
| `FlushTiming.EndFlushTimed` | android-tegra-3.1/block/blk-flush.c:194-229 | The loop of flush_end_io keeps the time stamp, whichever list it walks |
| `FlushDispatch.WaitsOnlyIfNeeded` | android-tegra-3.1/block/blk-flush.c:94-109 | A request waits for a flush only on a device with a write-back cache: before its data only if submitted with FLUSH, after it only if with FUA that the device cannot write through |
| `FlushDispatch.QueueOrderKept` | android-tegra-3.1/block/blk-flush.c:160-273 | Every step but the driver's leaves the order of the dispatch queue alone: data of sequenced requests goes to the front, a flush or an unsequenced request to the end |
| `FlushDispatch.GivenBackFirst` | android-tegra-3.1/block/blk-core.c:917-929 | What the driver takes and gives back stands where it stood: the queue is as before |
| `FlushDispatch.HeldUntilFlushEnds` | android-tegra-3.1/block/blk.h:57-91 | The queue is held exactly from when the driver finds nothing queued while a flush is with a device that takes nothing else, until that flush ends |
| `FlushDispatch.RunsQueueIff` | android-tegra-3.1/block/blk-flush.c:214-285 | The end of a flush runs the queue exactly when it was held or has grown, the end of data exactly when it has grown, no other step does |
| `FlushErrors.FailedPartEndsBadly` | android-tegra-3.1/block/blk-core.c:150-176 | A bio of which any part has failed never ends without error, in that step or in whatever follows it |
| `FlushErrors.MarkedOnlyByFailure` | android-tegra-3.1/block/blk-core.c:150-176 | While the request lives its bio is marked as failed exactly by the parts of its data that fail |
| `FlushErrors.StepStays` | android-tegra-3.1/block/blk-flush.c:144-347 | Every step keeps the mark of a failed bio and ends no marked bio well |
| `FlushQueue.RequestQueue.Finish` | android-tegra-3.1/block/blk-core.c:2202-2228 | Finishing a request takes the sequencer's hook exactly for a sequenced request |
| `FlushQueue.RequestQueue.EndRequest` | android-tegra-3.1/block/blk-core.c:2247-2261 | Partial and full completion of a started request is the reference step; more remains exactly when fewer bytes were done than left |
| `FlushQueue.RequestQueue.NextRequest` | android-tegra-3.1/block/blk.h:57-91 | The head is offered unless a non-queueable flush holds the queue, and the hold is recorded |
| `ThrottleRate.RateBound` | android-tegra-3.1/block/blk-throttle.c:496-756 | With fixed limits, whatever is offered, checked and waited for, the bytes charged since a fresh slice began at s0 never exceed bps * (t - s0 + throtl_slice) / HZ at any later t, and the I/O count obeys the same bound with iops |
| `ThrottleRate.RateBoundFrom` | android-tegra-3.1/block/blk-throttle.c:496-756 | The same from any later point of a slice that is itself within its allowance: what it already carries and all that is charged from then on stay below the rate since its start |
| `ThrottleRate.RateBoundTight` | android-tegra-3.1/block/blk-throttle.c:643-683 | The extra slice in the bound is reached: a whole slice's allowance can leave at once |
| `ThrottleRate.RunInv` | android-tegra-3.1/block/blk-throttle.c:496-756 | The account that yields the bound holds along every run |
| `ThrottleRate.DoInv` | android-tegra-3.1/block/blk-throttle.c:695-756 | One check, dispatch or pause keeps the account, and the assertion of throtl_trim_slice cannot fail |
| `ThrottleRate.AccountRestart` | android-tegra-3.1/block/blk-throttle.c:496-506 | A slice restart may forget its charges because the last charge lies a full slice back |
| `ThrottleRate.AccountCharge` | android-tegra-3.1/block/blk-throttle.c:643-683 | A charge admitted against the rounded-up elapsed time keeps the bound |
| `ThrottleRate.AccountTrim` | android-tegra-3.1/block/blk-throttle.c:534-591 | Trimming with rounded-down credit keeps the bound |
| `ThrottleRate.TrimInv` | android-tegra-3.1/block/blk-throttle.c:534-591 | throtl_trim_slice keeps the account of both quantities |
| `ThrottleRate.WholeSlice` | android-tegra-3.1/block/blk-throttle.c:643-683 | A fresh slice admits a bio exactly when its bytes and one I/O are within one slice's worth of the two rates |
| `ThrottleRate.BpsAdmitsAfterWait` | android-tegra-3.1/block/blk-throttle.c:643-683 | With slice start and charges unchanged, a bio refused with wait w passes the byte check at every time from t + w + 1 on |
| `ThrottleRate.BpsWaitOneShort` | android-tegra-3.1/block/blk-throttle.c:643-683 | A concrete case where at t + w itself the byte check still refuses, so the extra jiffy is needed |
| `ThrottleRate.IopsAdmitsAfterWait` | android-tegra-3.1/block/blk-throttle.c:593-641 | For iops the bio passes from t + w on |
| `ThrottleRate.IopsNeeds` | android-tegra-3.1/block/blk-throttle.c:630-637 | A refusal by iops never falls back to a wait of one jiffy: less time has elapsed than the count needs |
| `ThrottleRate.BpsStaysAdmitted` | android-tegra-3.1/block/blk-throttle.c:643-683 | Once admitted at a time, admitted at every later time of the same slice |
| `ThrottleRate.IopsStaysAdmitted` | android-tegra-3.1/block/blk-throttle.c:593-641 | The same for I/O counts |
| `ThrottleRate.AdmittedAfterWaitIff` | android-tegra-3.1/block/blk-throttle.c:695-744 | Through tg_may_dispatch itself, for any limits and any refusal, a recheck from the end of the promised wait on passes exactly when, within the extended slice, the I/O count admits one more at that time and, at the very end of the wait, that was enough for the bytes, and, after that slice, the bio and one I/O fit a fresh slice's allowance |
| `ThrottleRate.BpsAtWaitIff` | android-tegra-3.1/block/blk-throttle.c:643-683 | At the end of its wait t + w, where tg_update_disptime has the bio looked at again, the byte check passes exactly when the wait before rounding is zero or not a whole number of slices, or the remainder of the allowance covers the remainder of the wait |
| `ThrottleRate.BytesFitLater` | android-tegra-3.1/block/blk-throttle.c:728-735 | In the same slice the byte check passes after the promised wait whichever limit refused before, and at its end exactly under the condition of BpsAtWaitIff |
| `ThrottleRate.IopsRefusalKept` | android-tegra-3.1/block/blk-throttle.c:695-744 | A wait named by the I/O limit is kept from its end t + w on, for as long as the extended slice lasts |
| `ThrottleRate.ByteWaitHidesIops` | android-tegra-3.1/block/blk-throttle.c:728-735 | A concrete bio refused for its bytes, from a fresh slice, that is refused again within the slice after its wait: the short-circuit had not asked the I/O limit |
| `ThrottleRate.LateRecheckStartsOver` | android-tegra-3.1/block/blk-throttle.c:695-744 | A larger bio rechecked after the slice end is refused anew with the wait of a fresh slice |
| `ThrottleSlice.Rounded` | android-tegra-3.1/block/blk-throttle.c:593-615 | The elapsed time both checks use covers the real one by at most a slice and is never less than a slice |
| `ThrottleSlice.Renewed` | android-tegra-3.1/block/blk-throttle.c:716-726 | The slice a check works on has started and lasts at least throtl_slice from now |
| `ThrottleRate.InvBound` | android-tegra-3.1/block/blk-throttle.c:496-683 | The account gives the rate bound at any time |
| `ThrottleLane.LaneRate` | android-tegra-3.1/block/blk-throttle.c:695-809 | What a direction has really sent, in bytes and in bios, stays below its rate plus one slice |
| `ThrottleLane.FreshLane` | android-tegra-3.1/block/blk-throttle.c:496-506 | A new direction with a fresh slice is in order |
| `ThrottleLane.PopOk` | android-tegra-3.1/block/blk-throttle.c:791-809 | Sending the first bio keeps arrival order and the rate account |
| `ThrottleLane.CheckedOk` | android-tegra-3.1/block/blk-throttle.c:695-744 | Asking about the first bio keeps the lane in order and its answer |
| `ThrottleGroup.Direction.TryFirst` | android-tegra-3.1/block/blk-throttle.c:818-826 | In place, the first bio leaves, charged, exactly when it may; arrival order and rate account are kept |
| `ThrottleLane.CheckTwice` | android-tegra-3.1/block/blk-throttle.c:695-744 | Asked again at the same time about the same bio, tg_may_dispatch answers the same |
| `ThrottleLane.WaitPositive` | android-tegra-3.1/block/blk-throttle.c:593-683 | A refused bio always waits at least one jiffy |
| `ThrottleLane.AfterCheckShape` | android-tegra-3.1/block/blk-throttle.c:716-744 | A check moves only the end of the renewed slice, never before now + throtl_slice |
| `ThrottleGroup.Direction.DispatchBios` | android-tegra-3.1/block/blk-throttle.c:791-842 | In place, at most max bios leave, oldest first, each charged; what is left is what the loop told step by step leaves; if none leaves the first was refused and, asked again at this time, is refused again; arrival order and rate account are kept |
| `ThrottleGroup.Direction.MayDispatchBio` | android-tegra-3.1/block/blk-throttle.c:695-744 | In place, the verdict is the reference one and the slice it renews or extends keeps the rate account of everything sent so far |
| `ThrottleGroup.Direction.CheckFirst` | android-tegra-3.1/block/blk-throttle.c:771-789 | The wait of the first bio, positive when it is refused; the account is kept |
| `ThrottleGroup.Direction.TryBio` | android-tegra-3.1/block/blk-throttle.c:1187-1203 | A bio with none before it is charged and sent exactly when both limits admit it, and the account is kept either way |
| `ThrottleGroup.Direction.QueueBio` | android-tegra-3.1/block/blk-throttle.c:758-769 | The bio joins the end of its list; order and account are kept |
| `ThrottleGroup.Direction.TrimSlice` | android-tegra-3.1/block/blk-throttle.c:534-591 | In place, the reference trim, which TrimInv bounds from above and TrimCredits and TrimAdmits from below: time gone by is credited to both charges and admission after it is what it was before |
| `ThrottleCredit.TrimCredits` | android-tegra-3.1/block/blk-throttle.c:534-591 | A trim moves the start over all whole slices gone by, unless they are worth neither a byte nor an I/O, takes their worth off both charges to within less than one unit, and ends the slice within two slices from now |
| `ThrottleCredit.TrimAdmits` | android-tegra-3.1/block/blk-throttle.c:534-591 | A trimmed slice admits at any later time every bio that the slice before the trim would have admitted with one byte more |
| `ThrottleCredit.TrimAdmitsIo` | android-tegra-3.1/block/blk-throttle.c:534-591 | The same for the I/O count, with one I/O more |
| `ThrottleCredit.PassesIff` | android-tegra-3.1/block/blk-throttle.c:593-744 | A bio passes exactly when, with the charges of a slice not used up or alone in a new one, it is within both rates at the end of the running slice and within what an unsigned int counts; only a group with neither limit is let pass unasked |
| `ThrottleCredit.NothingChargedTwice` | android-tegra-3.1/block/blk-throttle.c:746-756 | Along every run a slice is charged no more than what was sent |
| `ThrottleCredit.RefusedOnlyOverRate` | android-tegra-3.1/block/blk-throttle.c:643-683 | In every run from a fresh slice the byte limit refuses only a bio that, with all that was sent, exceeds the rate since the present start |
| `ThrottleCredit.BpsWaitNotLong` | android-tegra-3.1/block/blk-throttle.c:643-683 | A jiffy before the end of a wait for bytes the rate has not yet paid for the charge, the bio and one byte more |
| `ThrottleCredit.IopsWaitNotLong` | android-tegra-3.1/block/blk-throttle.c:593-641 | A jiffy before the end of a wait for I/Os the rate has not paid for more than the charge and the bio |
| `ThrottleCredit.RefusalLasts` | android-tegra-3.1/block/blk-throttle.c:728-744 | A refusal makes the slice last to the end of its wait and no longer than a slice beyond what it asks for |
| `ThrottleLane.PassedOk` | android-tegra-3.1/block/blk-throttle.c:1187-1203 | A bio that passes unqueued keeps order and account |
| `ThrottleLane.QueuedOk` | android-tegra-3.1/block/blk-throttle.c:758-769 | A bio queued last keeps order and account |
| `ThrottleTree.AddedOk` | android-tegra-3.1/block/blk-throttle.c:421-447 | Adding a group keeps the tree ordered by dispatch time and free of duplicates |
| `ThrottleTree.RemovedOk` | android-tegra-3.1/block/blk-throttle.c:402-408 | Erasing keeps the order, and the leftmost changes only if it was the one erased |
| `ThrottleTree.DueAdded` | android-tegra-3.1/block/blk-throttle.c:421-447 | Adding a group raises the number of due groups exactly when it is due |
| `ThrottleTree.TotalUpdate` | android-tegra-3.1/block/blk-throttle.c:758-809 | Changing one group changes the total by the difference of its queue lengths |
| `ThrottleQueue.Throttle.RbFirst` | android-tegra-3.1/block/blk-throttle.c:381-394 | The cached leftmost, refreshed when null, is the true minimum, and the answer is the first of the tree |
| `ThrottleQueue.Throttle.ServiceTreeAdd` | android-tegra-3.1/block/blk-throttle.c:421-447 | The group lands in order, and the leftmost cache is null or the true minimum |
| `ThrottleQueue.Throttle.Enqueue` | android-tegra-3.1/block/blk-throttle.c:449-463 | A group is put on the tree once, marked, and counted |
| `ThrottleQueue.Throttle.Dequeue` | android-tegra-3.1/block/blk-throttle.c:465-474 | A group is taken off, the cache dropped if it named it |
| `ThrottleQueue.Throttle.UpdateDisptime` | android-tegra-3.1/block/blk-throttle.c:771-789 | The group is back on the tree at exactly the earliest time a first bio may pass, asked again at that time; later than now when every first bio is refused |
| `ThrottleQueue.Throttle.DispatchTg` | android-tegra-3.1/block/blk-throttle.c:811-842 | At most eight bios leave the fronts of the two lists, reads before writes, the totals fall by as many, and nothing leaves only when every first bio is refused |
| `ThrottleQueue.TurnShares` | android-tegra-3.1/block/blk-throttle.c:811-842 | Of those up to six are reads and up to two are writes, and fewer only where the list is empty or its first bio must wait |
| `ThrottleLane.EmptiedStops` | android-tegra-3.1/block/blk-throttle.c:818-836 | The loop over one list ends with the list, with the last bio it may take, or with a bio that must wait, never sooner |
| `ThrottleQueue.Throttle.ServeFirst` | android-tegra-3.1/block/blk-throttle.c:851-868 | One turn keeps tree, totals and lists in agreement, leaves a group that still waits due exactly when its first bio may pass, and, when it hands on nothing, leaves fewer groups due |
| `ThrottleQueue.Throttle.SelectDispatch` | android-tegra-3.1/block/blk-throttle.c:844-873 | With the clock frozen the loop over the groups, updated in place, ends; then the quantum is used up or no group is due; picked apart by origin, what it hands on is for each group and direction exactly what its list lost at the front, in order |
| `ThrottleQueue.Throttle.FirstDue` | android-tegra-3.1/block/blk-throttle.c:851-861 | The first of the tree when it is due; when it is not, no group is |
| `ThrottleQueue.RetimedIs` | android-tegra-3.1/block/blk-throttle.c:771-789 | The shorter of the two waits is the earliest time a first bio may pass, and lies after now when every first bio is refused |
| `ThrottleQueue.Throttle.RateKept` | android-tegra-3.1/block/blk-throttle.c:844-873 | In every valid state the in-place account of each direction of each group shows no more sent than its rate plus one slice allows |
| `ThrottleQueue.Throttle.AddBio` | android-tegra-3.1/block/blk-throttle.c:758-769 | The bio is last in its list and its group is on the tree |
| `ThrottleQueue.Throttle.ThrottleBio` | android-tegra-3.1/block/blk-throttle.c:1126-1225 | A bio passes exactly when throttled before, without rule, or within limits with none queued before it in its direction; otherwise it is queued last, and if none was queued before it its group is due exactly when the first of its bios may pass; tree, totals, cache and arrival order stay in agreement |
| `ThrottleQueue.Throttle.FirstBio` | android-tegra-3.1/block/blk-throttle.c:1188-1220 | With an empty list the bio is charged and sent or queued with a fresh dispatch time |
| `ThrottleQueue.Throttle.ScheduleNext` | android-tegra-3.1/block/blk-throttle.c:476-494 | With bios queued the tree is not empty, and the delay reaches the earliest group, never past it |
| `Segments.GreedyLeast` | android-tegra-3.1/block/blk-merge.c:117-169 | No admissible division into segments has fewer than the mapper's greedy one, from any no larger open segment |
| `Segments.MapCountLeast` | android-tegra-3.1/block/blk-merge.c:117-169 | Any count that some admissible division realises bounds what the mapper writes |
| `Segments.MapMoreSize` | android-tegra-3.1/block/blk-merge.c:117-169 | A bigger open segment costs the mapper at most one segment more and never one less |
| `Segments.SideBySide` | android-tegra-3.1/block/blk-merge.c:202-226 | The counts of two chains add up to a count of both |
| `Segments.Joined` | android-tegra-3.1/block/blk-merge.c:277-315 | When the touching segments may join, one less suffices, with the edge sizes that result |
| `Segments.RecalcFits` | android-tegra-3.1/block/blk-merge.c:12-69 | The recount's division is admissible |
| `Segments.RecalcCoversMap` | android-tegra-3.1/block/blk-merge.c:12-69 | A recount never says less than the mapper writes |
| `Segments.RecalcExact` | android-tegra-3.1/block/blk-merge.c:12-69 | Without bounce pages the recount is exactly what the mapper writes |
| `SegmentRequests.RecalcSegments` | android-tegra-3.1/block/blk-merge.c:12-69 | The counting loop returns exactly the count and edge sizes of its greedy division, which is admissible, changing only the recorded sizes and never downwards |
| `SegmentRequests.Recount` | android-tegra-3.1/block/blk-merge.c:76-84 | A bio's recount is one its vectors can be divided into |
| `SegmentRequests.CountBio` | android-tegra-3.1/block/blk-merge.c:28-61 | The inner loop keeps the partial count realisable |
| `SegmentRequests.Request.NewHwSegment` | android-tegra-3.1/block/blk-merge.c:202-226 | Segments are added exactly when the total stays within the limit, otherwise merging is switched off |
| `SegmentRequests.Request.BackMerge` | android-tegra-3.1/block/blk-merge.c:228-250 | The bio is taken exactly when sectors and segments stay within the limits; taken or refused, the carried count still bounds the mapping; vectors are appended or untouched |
| `SegmentRequests.Request.FrontMerge` | android-tegra-3.1/block/blk-merge.c:252-275 | The same at the front |
| `SegmentRequests.JoinCount` | android-tegra-3.1/block/blk-merge.c:277-315 | The joint count, one less when the edges may join, is realisable for both chains together with the recorded edge sizes |
| `SegmentRequests.RecordJoin` | android-tegra-3.1/block/blk-merge.c:297-304 | The edge sizes recorded for single-segment requests keep both requests' counts realisable |
| `SegmentRequests.MergeRequests` | android-tegra-3.1/block/blk-merge.c:367-447 | Two requests merge exactly when both limits allow, one segment less if their edges join; the count stays valid, the data is concatenated, the second is emptied; a refusal leaves the data and the counts of both, though it may already have recorded new edge sizes, which stay sound |
| `SegmentRequests.JoinedSizes` | android-tegra-3.1/block/blk-merge.c:297-304 | The recorded sizes over-approximate the edge segments after the join |
| `SegmentRequests.Request.Splice` | android-tegra-3.1/block/blk-merge.c:427-432 | Handing over the bios keeps the joint count valid |
| `SegmentRequests.Request.RecalcAfterCompletion` | android-tegra-3.1/block/blk-core.c:2145-2156 | After a partial completion the recounted request is valid again |
| `SegmentRequests.Request.MapSg` | android-tegra-3.1/block/blk-merge.c:117-169 | The mapper writes no more entries than the carried count, in the array it is given, and they hold the bytes in order; a vector joins the entry before it exactly when clustering is on, they touch within one boundary window and the size allows; no entry crosses a boundary unless a vector does, and without clustering each vector is an entry |
| `SegmentRequests.EntriesSliced` | android-tegra-3.1/block/blk-merge.c:131-169 | The entries are the segments of a division in which neighbours are together exactly when the queue lets them |
| `SegmentRequests.SlicedInside` | android-tegra-3.1/block/blk-merge.c:131-169 | No entry of such a division crosses a boundary if no vector does, and without clustering each vector is an entry |
| `SegmentRequests.TouchingIff` | android-tegra-3.1/block/blk-merge.c:87-110 | Two requests share a segment exactly when clustering is on, the recorded edge sizes fit one segment, and the last vector of the one touches the first of the other within one window |
| `SegmentDivision.RecalcDivides` | android-tegra-3.1/block/blk-merge.c:12-69 | The recount is the number of segments of the division that shares no bounced page, and its two sizes are those of the first and the last segment |
| `SegmentDivision.DividedOnce` | android-tegra-3.1/block/blk-merge.c:12-69 | There is only one such division: any two begin their segments at the same vectors |
| `SegmentDivision.SegmentInside` | android-tegra-3.1/block/blk-merge.c:131-169 | A segment is one range of addresses and stays within the boundary window of its first vector if every vector stays within one |
| `SegmentDivision.InWindowIff` | android-tegra-3.1/block/blk-merge.c:38-44 | A range lies within one window exactly when its two ends do |
| `SegmentRequests.MapBio` | android-tegra-3.1/block/blk-merge.c:131-169 | The vectors of one bio extend the scatterlist as the greedy division does |
| `SegmentRequests.MapOne` | android-tegra-3.1/block/blk-merge.c:131-169 | One vector extends the last entry or starts a new one |
| `SegmentRequests.MapStepKeeps` | android-tegra-3.1/block/blk-merge.c:131-169 | Each step keeps the bytes written and the bound on entries |
| `PartialCompletion.Request.UpdateRequest` | android-tegra-3.1/block/blk-core.c:2010-2158 | The request is left with exactly its old bytes without the first n, reports false exactly when nothing remains, has ended exactly the bios used up, in order, and advances the sector of the request and of the bio it stops in; the botched paths cannot be reached |
| `PartialCompletion.Consume` | android-tegra-3.1/block/blk-core.c:2057-2107 | The loop stops at the bio, vector and offset where n bytes end, or at the end of the chain |
| `PartialCompletion.Cut` | android-tegra-3.1/block/blk-core.c:2125-2130 | Advancing the bio in front leaves a well-formed chain holding the remaining bytes |
| `PartialCompletion.AdvancedBytes` | android-tegra-3.1/block/blk-core.c:2125-2130 | Moving the index and trimming one vector drops exactly the finished bytes of a bio |
| `PartialCompletion.CutChain` | android-tegra-3.1/block/blk-core.c:2125-2130 | The cut chain's bytes are the old ones from the stopping point on |
| `PartialCompletion.ChainFrom` | android-tegra-3.1/block/blk-core.c:2057-2107 | Popping bios drops a prefix of the bytes |
| `PartialCompletion.CompleteTwiceData` | android-tegra-3.1/block/blk-core.c:2010-2158 | Completing a then b bytes leaves the data of completing a + b |
| `PartialCompletion.CompleteTwiceSector` | android-tegra-3.1/block/blk-core.c:2135-2137 | The sector agrees too exactly when the two remainders modulo 512 stay below 512 together, in particular when a is a multiple of 512 |
| `DeadlineProgress.ExpiredIsServed` | android-tegra-3.1/block/deadline-iosched.c:168-325 | An expired request with n requests of its FIFO due no later than it, itself among them, is dispatched, itself or in the request it has been merged into, within what is left of the batch and n * (writes_starved + 1) batches of at most max(1, fifo_batch), whatever arrives, merges or expires meanwhile; for a read this needs writes_starved of at least one |
| `DeadlineProgress.ServedInTurn` | android-tegra-3.1/block/deadline-iosched.c:168-325 | The same counting only the k requests that stand before it, n = k + 1, for runs in which no merge costs the request or its carrier its place |
| `DeadlinePlaces.MergedPlaceIff` | android-tegra-3.1/block/deadline-iosched.c:168-187 | A request merged into another keeps its place or a better one exactly when the two deadlines differ or the survivor stands at most one behind it |
| `DeadlineBackwards.MergedBackwards` | android-tegra-3.1/block/deadline-iosched.c:168-187 | For any tunables and either direction: the first request of a FIFO, merged into the last one due at the same time, is not served by the dispatches that the bound for none before it allows, once that many requests stand between |
| `DeadlineBackwards.BackwardsExists` | android-tegra-3.1/block/deadline-iosched.c:98-111 | For any tunables and any number of requests between there is such a queue |
| `DeadlineBackwards.MergedPlaceLost` | android-tegra-3.1/block/deadline-iosched.c:168-187 | That merge is one that MergedPlaceIff says costs a place |
| `DeadlineBackwards.PassedOver` | android-tegra-3.1/block/deadline-iosched.c:243-325 | A dispatch passes over the request that is last in the FIFO and first in the tree as long as another is queued |
| `DeadlinePlaces.MergePlace` | android-tegra-3.1/block/deadline-iosched.c:168-187 | No merge puts a request or its carrier further back by deadline, nor by position unless MergedPlaceIff says so; the carrier is due no later |
| `DeadlinePlaces.MergeRank` | android-tegra-3.1/block/deadline-iosched.c:168-187 | A merge never raises the number of requests due by any time: the later deadline of the two leaves the FIFO |
| `DeadlineProgress.ReadStarvesAtZero` | android-tegra-3.1/block/deadline-iosched.c:263-292 | With writes_starved zero there are runs of any number of dispatches that never serve an expired read |
| `DeadlineProgress.PotentialSuffices` | android-tegra-3.1/block/deadline-iosched.c:243-325 | As many dispatches as the potential names dispatch the request or its carrier, under either way of counting its place |
| `DeadlineProgress.DispatchDrops` | android-tegra-3.1/block/deadline-iosched.c:243-325 | Every dispatch takes the expired request or lowers its potential |
| `DeadlineProgress.DispatchPlace` | android-tegra-3.1/block/deadline-iosched.c:243-325 | A dispatch of another request never puts it back, and one that begins a batch of its direction puts it forward |
| `DeadlineProgress.MergeNoLater` | android-tegra-3.1/block/deadline-iosched.c:168-187 | After any merge the request or its carrier is queued, expired and no further back |
| `DeadlinePlaces.AddPlace` | android-tegra-3.1/block/deadline-iosched.c:98-111 | An arrival changes no expired request's place, counted either way |
| `DeadlineProgress.TurnsDrop` | android-tegra-3.1/block/deadline-iosched.c:263-314 | A new batch costs every queued request one of its turns |
| `DeadlineProgress.DispatchConserves` | android-tegra-3.1/block/deadline-iosched.c:243-325 | A dispatch moves exactly one queued request out, nothing is lost or duplicated, and it does nothing only when nothing is queued |
| `DeadlineProgress.BatchGoesUp` | android-tegra-3.1/block/deadline-iosched.c:204-220 | The request a batch goes on with is the next one upwards from the last; none of its direction lies between |
| `DeadlineProgress.LatterIsNext` | android-tegra-3.1/block/deadline-iosched.c:65-74 | Nothing in the tree lies between a request and its successor |
| `DeadlineInvariant.StepOk` | android-tegra-3.1/block/deadline-iosched.c:98-325 | Adding, merging, dispatching and time keep both views of each direction equal as sets, the tree in sector order, the FIFO in deadline order, and at most one next request, which is queued |
| `DeadlineInvariant.AddOk` | android-tegra-3.1/block/deadline-iosched.c:98-111 | An arrival keeps the two views in agreement and the FIFO in deadline order |
| `DeadlineInvariant.FrontMergedOk` | android-tegra-3.1/block/deadline-iosched.c:154-166 | Repositioning after a front merge keeps the sector order |
| `DeadlineInvariant.MergedRequestsOk` | android-tegra-3.1/block/deadline-iosched.c:168-187 | A request merge keeps the FIFO in deadline order, although the survivor may take over the other's place and deadline |
| `DeadlineInvariant.MoveOk` | android-tegra-3.1/block/deadline-iosched.c:204-220 | Moving a request out leaves one next request at most, the one behind it in the tree |
| `DeadlineInvariant.DispatchOk` | android-tegra-3.1/block/deadline-iosched.c:243-325 | Dispatching keeps the invariant |
| `DeadlineInvariant.TakePlaceKeeps` | android-tegra-3.1/block/deadline-iosched.c:172-181 | The list with the survivor in the earlier place is in deadline order |
| `DeadlineQueue.Direction.RbAdd` | android-tegra-3.1/block/elevator.c:356-376 | The insertion walk ends behind every request that does not start later |
| `DeadlineQueue.Direction.RbNext` | android-tegra-3.1/block/deadline-iosched.c:65-74 | The successor in the tree |
| `DeadlineQueue.Direction.Remove` | android-tegra-3.1/block/deadline-iosched.c:116-122 | The request leaves both views, and next moves on if it named it |
| `DeadlineQueue.Deadline.AddRequest` | android-tegra-3.1/block/deadline-iosched.c:98-111 | In place, the reference arrival with its deadline; the invariant is kept |
| `DeadlineQueue.Deadline.MergedRequest` | android-tegra-3.1/block/deadline-iosched.c:154-166 | In place, the reference repositioning |
| `DeadlineQueue.Deadline.MergedRequests` | android-tegra-3.1/block/deadline-iosched.c:168-187 | In place, the reference merge: list move, deadline and removal |
| `DeadlineQueue.MovedBehind` | android-tegra-3.1/block/deadline-iosched.c:176-186 | Moving the survivor behind the other and removing the other leaves it in the other's place |
| `DeadlineQueue.Deadline.MoveRequest` | android-tegra-3.1/block/deadline-iosched.c:204-220 | In place, the reference move |
| `DeadlineQueue.Deadline.NewDirection` | android-tegra-3.1/block/deadline-iosched.c:263-292 | Direction and starvation count of a new batch are the reference ones |
| `DeadlineQueue.Deadline.Head` | android-tegra-3.1/block/deadline-iosched.c:296-313 | In place, the reference choice, which NewBatchHead states outright: the oldest request when it has expired or there is no next one, else the next one |
| `DeadlineChoice.NewBatchHead` | android-tegra-3.1/block/deadline-iosched.c:296-313 | A new batch begins with the oldest request of its direction if that has expired or there is no next one, and otherwise goes on where the last batch of that direction ended |
| `DeadlineChoice.NewBatchDirection` | android-tegra-3.1/block/deadline-iosched.c:263-292 | A new batch takes reads unless there are none or waiting writes have been passed over writes_starved times; passing them over is counted, taking them clears the count |
| `DeadlineChoice.BatchGoesOn` | android-tegra-3.1/block/deadline-iosched.c:250-261 | A running batch takes the next request, whatever has expired, until fifo_batch are taken |
| `DeadlineChoice.OneSweep` | android-tegra-3.1/block/deadline-iosched.c:243-325 | While one direction is queued and none of it has expired, any number of dispatches take its requests one after the other in sector order, over the ends of batches too |
| `DeadlineChoice.SortedPlace` | android-tegra-3.1/block/elevator.c:356-376 | A request goes behind every one that starts no later and before every one that starts later |
| `DeadlineChoice.NextKept` | android-tegra-3.1/block/deadline-iosched.c:84-93 | Until it is dispatched the next request changes only by being merged away: then the one behind it is next |
| `DeadlineChoice.ExpiresAfter` | android-tegra-3.1/block/deadline-iosched.c:98-111 | A read expires when more than read_expire jiffies have passed since it arrived, a write with write_expire, and either is the youngest of its direction |
| `DeadlineQueue.Deadline.ChooseNext` | android-tegra-3.1/block/deadline-iosched.c:243-314 | The choice is the reference choice, and none exactly when nothing is queued |
| `DeadlineQueue.Deadline.DispatchRequests` | android-tegra-3.1/block/deadline-iosched.c:243-325 | In place, the reference dispatch; it reports a request exactly when one was queued |
| `DeadlineQueue.Deadline.Drain` | android-tegra-3.1/block/elevator.c:606-618 | Forced dispatching ends with both directions empty in both views, having moved every queued request exactly once |
| `ElevatorCore.SortKeepsOrder` | android-tegra-3.1/block/elevator.c:410-447 | For a fixed boundary every run of one direction and discard class stays in one-way order |
| `ElevatorCore.SortPasses` | android-tegra-3.1/block/elevator.c:410-447 | The request stands right behind the last one of another direction or discard class, started, a barrier, or not later on the sweep from end_sector up and then from zero; every request behind its place is of its kind and later; nothing is lost |
| `ElevatorCore.RunInOrder` | android-tegra-3.1/block/elevator.c:410-447 | Neighbours in order make a whole run in order |
| `ElevatorCore.RunSweeps` | android-tegra-3.1/block/elevator.c:410-447 | Within a run no request is met before one that the sweep from end_sector up and then from zero comes to sooner |
| `ElevatorCore.ElevatorQueue.DispatchSort` | android-tegra-3.1/block/elevator.c:410-447 | The request leaves the hash and last_merge and is inserted in the slot the order names |
| `ElevatorCore.ElevatorQueue.DispatchInOrder` | android-tegra-3.1/block/elevator.c:410-447 | A queue whose runs are in one-way order stays so |
| `ElevatorCore.ElevatorQueue.FindSlot` | android-tegra-3.1/block/elevator.c:418-445 | The walk from the tail stops at the first slot it may not pass |
| `ElevatorCore.ElevatorQueue.DispatchAddTail` | android-tegra-3.1/block/elevator.c:455-467 | The request is last, its end is the new boundary, hash and last_merge forget it |
| `ElevatorCore.ElevatorQueue.HashFind` | android-tegra-3.1/block/elevator.c:330-350 | Finds a mergeable hashed request ending at the sector whenever one exists, and drops only requests that cannot be merged |
| `ElevatorCore.ElevatorQueue.AddSorted` | android-tegra-3.1/block/elevator.c:698-715 | A mergeable request is hashed under its end and becomes last_merge if there was none |
| `ElevatorCore.ElevatorQueue.MergedRequest` | android-tegra-3.1/block/elevator.c:548-559 | After a bio merge the request is hashed under its present end and is last_merge |
| `ElevatorCore.ElevatorQueue.MergeRequests` | android-tegra-3.1/block/elevator.c:561-578 | The survivor is hashed under its new end and is last_merge; the other is forgotten |
| `ElevatorCore.HashTable.Del` | android-tegra-3.1/block/elevator.c:305-314 | Only this request is unlinked |
| `ElevatorCore.HashTable.Add` | android-tegra-3.1/block/elevator.c:316-322 | The request is linked under its key and nothing else moves |
| `ElevatorCore.HashTable.Reposition` | android-tegra-3.1/block/elevator.c:324-328 | The request is linked under its new key only |
| `ElevatorSwitch.EveryRunSafe` | android-tegra-3.1/block/elevator.c:953-1024 | In every interleaving of counting, set-up, insertion, freeing and switching, private data is released under the elevator that set it up, only such requests enter sort structures, private data is given to all but flushes outside a switch, insertion at the back and every wait of the switch drain the elevator whole, and an elevator exits once and only when nothing of it is left |
| `ElevatorSwitch.NothingLost` | android-tegra-3.1/block/elevator.c:606-774 | A request in the elevator or on the dispatch queue leaves them only by being started or merged away, also across a switch |
| `ElevatorSwitch.EveryCallLiveIff` | android-tegra-3.1/block/elevator.c:1010-1023 | A run never calls into an elevator whose operations elevator_exit has taken away exactly when it makes no call between a failed registration and the return of the old elevator |
| `ElevatorSwitch.CallsWhileFailing` | android-tegra-3.1/block/elevator.c:470-784 | In that window exactly a bio offered for merging, under the lock or on the submitter's own list, an allocation, a look for work and an insertion at the back still call, and those calls reach the exited elevator; every other call at any time reaches one in place |
| `ElevatorSwitch.RegisteredCallsLive` | android-tegra-3.1/block/elevator.c:953-1007 | As long as every new elevator can be registered, every call of the run reaches an elevator in place |
| `ElevatorSwitch.DrainsExited` | android-tegra-3.1/block/elevator.c:1010-1016 | A request allocated during a switch and inserted after the new elevator could not be registered: every call before reaches an elevator in place, and the insertion drains the exited one |
| `ElevatorSwitch.StepSafe` | android-tegra-3.1/block/blk-core.c:570-591 | Each single step is safe in a state that satisfies the invariant |
| `ElevatorSwitch.StepKeeps` | android-tegra-3.1/block/elevator.c:623-646 | Each step keeps elvpriv equal to the private requests counted or live, all of the current elevator |
| `ElevatorSwitch.CountKeeps` | android-tegra-3.1/block/blk-core.c:732-745 | Counting a private request is refused while a switch is on |
| `ElevatorSwitch.SetUpKeeps` | android-tegra-3.1/block/blk-core.c:570-591 | Set-up with the lock dropped still happens under the elevator that will release it |
| `ElevatorSwitch.AllocFailsKeeps` | android-tegra-3.1/block/blk-core.c:646-658 | A failed allocation gives its count back |
| `ElevatorSwitch.InsertKeeps` | android-tegra-3.1/block/elevator.c:648-726 | Insertion keeps private requests and sort structures of one elevator |
| `ElevatorSwitch.NonePrivate` | android-tegra-3.1/block/elevator.c:623-646 | With elvpriv zero no request has private data and nothing is sorted |
| `ElevatorSwitch.WaitOnlyFalls` | android-tegra-3.1/block/elevator.c:634-645 | While a switch waits elvpriv cannot rise |
| `ElevatorSwitch.ElevatorStays` | android-tegra-3.1/block/elevator.c:953-1024 | While any private request is counted or live the elevator does not change |
| `TagModel.StartSound` | android-tegra-3.1/block/blk-tag.c:337-384 | The tag given is the least free one below the request's limit, was nobody's, and disturbs no other; none is given exactly when asynchronous requests crowd or no tag below the limit is free |
| `TagReserve.StartBounds` | android-tegra-3.1/block/blk-tag.c:337-384 | An asynchronous request gets a tag below the depth less two, of two the lower, and is refused exactly when more than that many are in flight or all those tags are taken; a synchronous one is refused exactly when all are |
| `TagReserve.StepReserved` | android-tegra-3.1/block/blk-tag.c:200-405 | Every step that takes no tags away keeps the two highest tags from asynchronous requests |
| `TagReserve.SyncNotStarved` | android-tegra-3.1/block/blk-tag.c:349-384 | In every run, however many asynchronous requests are in flight, a synchronous one is refused a tag only while synchronous ones hold the two highest |
| `TagReserve.ShrinkingBreaks` | android-tegra-3.1/block/blk-tag.c:236-239 | Taking tags away breaks this: an asynchronous request with tag one of four holds the last when two are left |
| `TagModel.EndValid` | android-tegra-3.1/block/blk-tag.c:282-316 | A live request's tag is within the map even after shrinking, and giving it up keeps bitmap, index and busy list in agreement |
| `TagModel.ResizeValid` | android-tegra-3.1/block/blk-tag.c:220-265 | A resize whose copy fits keeps every live tag and the agreement and never lowers the real depth; an error changes nothing |
| `TagModel.ResizeOverrunsIff` | android-tegra-3.1/block/blk-tag.c:107-138 | The copy into the new tables overruns them exactly when the depth asked for exceeds the real one, the map is not shared, memory is there and twice nr_requests is less than the real depth |
| `TagModel.ResizeCanOverrun` | android-tegra-3.1/block/blk-tag.c:220-265 | From eight tags, with nr_requests lowered to two, asking for ten |
| `TagModel.Grown` | android-tegra-3.1/block/blk-tag.c:248-264 | The larger map has the old bits and index entries and is free beyond them |
| `TagModel.RequeueValid` | android-tegra-3.1/block/blk-core.c:917-929 | Requeueing keeps the agreement |
| `TagModel.InvalidateFrees` | android-tegra-3.1/block/blk-tag.c:399-405 | Afterwards every tag is free and everything busy stands before the queue, oldest first |
| `TagModel.InvalidateCounts` | android-tegra-3.1/block/elevator.c:589-604 | The in-flight counts fall by exactly what was busy |
| `TagModel.InvalidateRestores` | android-tegra-3.1/block/blk-tag.c:337-405 | Starting the first k queued requests and then invalidating restores the queue order, the tags and both in-flight counts |
| `TagModel.StartFirstIs` | android-tegra-3.1/block/blk-tag.c:337-384 | Starting the first k requests moves them, in reverse, to the head of the busy list |
| `TagQueue.TagMap.FindFirstZero` | android-tegra-3.1/block/blk-tag.c:367-370 | The least clear bit below the bound, or the bound |
| `TagQueue.TagMap.StartTag` | android-tegra-3.1/block/blk-tag.c:337-384 | In place, the reference start; on refusal nothing changes |
| `TagQueue.TagMap.EndTag` | android-tegra-3.1/block/blk-tag.c:282-316 | In place, the reference end; the out-of-range and missing-tag branches cannot be taken |
| `TagQueue.TagMap.RequeueRequest` | android-tegra-3.1/block/blk-core.c:917-929 | The tag is given up and the request is first in the queue |
| `TagQueue.TagMap.InvalidateTags` | android-tegra-3.1/block/blk-tag.c:399-405 | The loop over the busy list frees every tag and puts the requests back in order |
| `TagQueue.TagMap.ResizeTags` | android-tegra-3.1/block/blk-tag.c:220-265 | In place, the reference resize with its clamp and its errors; it reports an overrun exactly where the copy does not fit |
| `TagQueue.TagMap.Grow` | android-tegra-3.1/block/blk-tag.c:248-264 | New arrays with the old contents copied |
| `AesContext.DecryptUndoesEncrypt` | android-tegra-3.1/crypto/aes_generic.c:1329-1440 | For every key of the three sizes and every block, decryption under the derived schedule undoes encryption |
| `AesContext.RoundTrip` | android-tegra-3.1/crypto/aes_generic.c:1216-1440 | Expanding a key, encrypting and decrypting gives the block back; the error is reported exactly for other key lengths |
| `AesAlgebra.InvMixMix` | android-tegra-3.1/crypto/aes_generic.c:1128-1139 | The inverse column mix undoes the column mix |
| `AesAlgebra.InvMixXor` | android-tegra-3.1/crypto/aes_generic.c:1258-1266 | The inverse column mix distributes over adding a round key |
| `AesAlgebra.AesIsField` | android-tegra-3.1/crypto/aes_generic.c:1128-1139 | Any byte permutation with its inverse, over the field of AES, satisfies everything the proofs ask |
| `AesAlgebra.XTimeReduces` | android-tegra-3.1/crypto/aes_generic.c:1128-1128 | Multiplication by x adds the modulus exactly on overflow |
| `AesCipher.InvCipherUndoes` | android-tegra-3.1/crypto/aes_generic.c:1401-1440 | The inverse cipher of section 5.3 of FIPS-197 undoes the cipher of section 5.1 for any number of rounds and any round keys |
| `AesCipher.EqIsInvCipher` | android-tegra-3.1/crypto/aes_generic.c:1401-1440 | With the reversed, inverse-mixed keys the Equivalent Inverse Cipher of section 5.3.5 is the inverse cipher |
| `AesCipher.EqInvCipherUndoes` | android-tegra-3.1/crypto/aes_generic.c:1329-1440 | The Equivalent Inverse Cipher undoes the cipher |
| `AesCipher.BackwardMeets` | android-tegra-3.1/crypto/aes_generic.c:1401-1440 | After r inverse rounds stands what the cipher had before its last r mixes |
| `AesWords.UnpackStarX` | android-tegra-3.1/crypto/aes_generic.c:1128-1128 | star_x multiplies the four bytes of a word at once |
| `AesWords.UnpackImixCol` | android-tegra-3.1/crypto/aes_generic.c:1130-1139 | imix_col is InvMixColumns on the word's column |
| `AesWords.UnpackLsBox` | android-tegra-3.1/crypto/aes_generic.c:1141-1145 | ls_box is SubWord |
| `AesWords.FtColumn` | android-tegra-3.1/crypto/aes_generic.c:1300-1306 | Four look-ups in the forward table make one substituted and mixed column |
| `AesWords.ItColumn` | android-tegra-3.1/crypto/aes_generic.c:1372-1378 | Four look-ups in the inverse table make one substituted and inverse-mixed column |
| `AesWords.PlaceColumn` | android-tegra-3.1/crypto/aes_generic.c:1316-1322 | Four look-ups in a last-round table make one substituted column |
| `AesKey.RcoIsRcon` | android-tegra-3.1/crypto/aes_generic.c:63-63 | The table holds the powers of x that section 5.2 names |
| `AesKey.NextWord` | android-tegra-3.1/crypto/aes_generic.c:1147-1158 | Adding the word a key length back gives the next word of section 5.2, in either order |
| `AesKey.MirrorTwice` | android-tegra-3.1/crypto/aes_generic.c:1263-1265 | The destination of a decryption word is in range and taken by no other |
| `AesContext.FNRound` | android-tegra-3.1/crypto/aes_generic.c:1300-1314 | A table round is SubBytes, ShiftRows, MixColumns and AddRoundKey on the state |
| `AesContext.FLRound` | android-tegra-3.1/crypto/aes_generic.c:1316-1327 | The last round leaves out the mix |
| `AesContext.INRound` | android-tegra-3.1/crypto/aes_generic.c:1372-1386 | An inverse table round is the round of the Equivalent Inverse Cipher |
| `AesContext.ILRound` | android-tegra-3.1/crypto/aes_generic.c:1388-1399 | The last inverse round leaves out the mix |
| `AesContext.Context.Group` | android-tegra-3.1/crypto/aes_generic.c:1147-1150 | In place, the term of section 5.2 at a key-length boundary, which KeyEncBytes states byte by byte: rotated by one, substituted, and a power of x added to the first byte |
| `AesStandard.KeyEncBytes` | android-tegra-3.1/crypto/aes_generic.c:1216-1256 | After crypto_aes_expand_key the first words of key_enc are the bytes of the key; byte j of a later word is the byte one key length back plus byte j + 1 mod 4 of the word before, substituted, with x^(i/nk - 1) for j = 0, where nk divides i, byte j substituted in the middle of eight, and else byte j of the word before |
| `AesStandard.ScheduleBytes` | android-tegra-3.1/crypto/aes_generic.c:1147-1200 | The same of the reference schedule, for every word |
| `AesStandard.EncryptsByBytes` | android-tegra-3.1/crypto/aes_generic.c:1300-1368 | For the three key sizes there are states such that the first is the block plus four key words, byte r of column c being byte r + 4c, each next one has in row r of column c the mix 2, 3, 1, 1 of the substituted bytes of row r + i and column c + r + i plus the key byte, and the result the substituted bytes plus the last key words, after 10, 12 or 14 rounds |
| `AesStandard.RoundAt` | android-tegra-3.1/crypto/aes_generic.c:1300-1313 | One byte of a round, in terms of the bytes before it |
| `AesStandard.LastRoundAt` | android-tegra-3.1/crypto/aes_generic.c:1315-1327 | One byte of the last round, without the mix |
| `AesStandard.ExampleWord` | android-tegra-3.1/crypto/aes_generic.c:1147-1158 | With the S-box values it needs, the key of appendix A.1 of FIPS-197 expands to a0fafe17 as its fifth word |
| `AesStandard.ExampleMix` | android-tegra-3.1/crypto/aes_generic.c:1300-1313 | The first column of round 1 of appendix B, d4bf5d30, is mixed to 046681e5 |
| `AesContext.Context.Fill` | android-tegra-3.1/crypto/aes_generic.c:1147-1158 | The rest of a group continues the schedule word by word |
| `AesContext.Context.Schedule128` | android-tegra-3.1/crypto/aes_generic.c:1234-1238 | Forty-four words follow the schedule |
| `AesContext.Context.Schedule192` | android-tegra-3.1/crypto/aes_generic.c:1240-1245 | At least the fifty-two words needed follow the schedule |
| `AesContext.Context.Schedule256` | android-tegra-3.1/crypto/aes_generic.c:1247-1255 | Sixty words follow the schedule, with the extra substitution of 256-bit keys |
| `AesContext.Context.DecSchedule` | android-tegra-3.1/crypto/aes_generic.c:1258-1266 | Every word is where the Equivalent Inverse Cipher looks for it, the inner ones inverse-mixed |
| `AesContext.Context.ExpandKey` | android-tegra-3.1/crypto/aes_generic.c:1216-1268 | Both schedules hold the key, or the length is refused and nothing changes |
| `AesContext.Context.DecKeyAt` | android-tegra-3.1/crypto/aes_generic.c:1258-1266 | Four words of key_dec are a round key of the Equivalent Inverse Cipher |
| `AesContext.Context.Encrypt` | android-tegra-3.1/crypto/aes_generic.c:1329-1368 | The result is the cipher of FIPS-197 under the key's schedule, for 10, 12 and 14 rounds |
| `AesContext.Context.Decrypt` | android-tegra-3.1/crypto/aes_generic.c:1401-1440 | The result is the Equivalent Inverse Cipher under the derived keys |
| `AesContext.EncryptBlock` | android-tegra-3.1/crypto/aes_generic.c:1329-1368 | The unrolled rounds over two buffers are the cipher for the key length's number of rounds |
| `AesContext.DecryptBlock` | android-tegra-3.1/crypto/aes_generic.c:1401-1440 | The unrolled inverse rounds are the Equivalent Inverse Cipher |

## Left out

- Wrapping jiffies and machine-word overflow: times, sectors, byte counts and rates are unbounded integers; the 64-bit products of the throttle checks are assumed not to overflow, which for a limit left at -1 in one of bps and iops they do in the source.
- Spinlocks, RCU, interrupts, workqueues, statistics and tracing: a locked section is one step.
- blk_abort_flushes, dead-queue teardown and saved end_io callbacks of flush requests: a sequenced request here has one bio and no callback of its own.
- Requests with FUA and no data: the sequencer is modelled under the rule that a request without data carries FLUSH only.
- Failfast mixed-merge flags, discards, DMA padding, drain buffers and integrity metadata in segment counting.
- The segment boundary mask is modelled as a window size that a segment may not cross.
- Tag maps shared between queues beyond the refusal to grow them, and failing allocations when a map is first made.
- Changes of limits or tunables during a bound: limits, fifo_batch and writes_starved are fixed along a run.
- FlushQueue.RequestQueue.NextRequest: offers what is on the dispatch queue; refilling it through the elevator's dispatch function, which the loop of __elv_next_request does next, is not modelled.
- TagQueue.TagMap.ResizeTags: promises nothing of the map after an overrun; what a copy beyond the new tables does to memory is not modelled.
- DeadlineQueue.Direction.RbAdd: the red-black trees, here and in the throttle, are their in-order sequences, so balancing is not captured.
- ElevatorSwitch.EveryRunSafe: requests get REQ_SOFTBARRIER only by being inserted; one arriving with it and without private data would be sorted (elevator.c:654-664) and is not modelled. The request limits, congestion marks and batching of get_request, and the registration of sysfs entries, are not modelled.
- ElevatorCore.ElevatorQueue.HashFind: the hash function is any function into the table; elv_merge's one-hit cache test and the conditions of elv_rq_merge_ok are not modelled.
- AesAlgebra.AesIsField: the S-box is any permutation of the bytes with its inverse, and the four tables are derived from it; that the literal tables hold those values is not stated.
- cfq-iosched.c, noop, blk-cgroup parsing, sysfs, ioctl, bsg, genhd and the rest of the crypto API: interfaces or heuristics without a crisp guarantee, or easy members.
