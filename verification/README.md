# hx_sylar: a verified model of its core

hx_sylar is a C++ coroutine server framework. This project models five of its parts in Dafny and
proves what holds of them over every input, every run or every interleaving.

* **Scheduler and fibers** (`SchedulerMachine`, `SchedulerSafety`, `SchedulerRuns`, `SchedulerFates`,
  `Scheduler`).
  N workers share one locked queue; fibers migrate between workers. The machine has one action per
  atomic step of `run`: scan under the lock, swap-in, the fiber's own steps, swap-out, the count
  decrement, the inspection of the state and the writing of HOLD. The class holds the queue
  operations as loops.
* **Event table** (`EventTable`, `EventRuns`, `EventRace`, `EventRaceRuns`, `EventAttached`, `EventRaceFates`,
  `EventDelivery`, `IOManager`). Descriptor contexts, the kernel's interest set and the pending count, one
  step per critical section. `EventRace` takes every operation apart into its lookup, its growth of the table
  and its critical section, with contexts as objects that the vector, calls in flight and the kernel point at;
  `EventAttached` is the table the kernel reaches through `data.ptr`, whatever the vector holds. The class
  updates the contexts in place and is proved equal to the step functions.
* **Blocking calls and sleeps** (`HookWait`, `HookRuns`, `HookLate`, `HookRace`, `HookTimeouts`,
  `HookSchedule`, `HookScheduleRuns`, `SleepSchedule`, `SleepScheduleRuns`). `do_io` and `connect_with_timeout` as steps on
  that same event table, with the timeout callback split at its lock, its check, its write and its call of
  `cancelEvent`.
  `HookRace` runs them on the event table taken apart, `HookSchedule` runs that on the scheduler's machine,
  and `SleepSchedule` adds sleeping fibers, the timer manager and the way of a timer's callback through the
  scheduler's queue.
* **Timers** (`TimerSet`, `TimerRuns`, `TimerWorld`, `TimerManager`). An ordered set keyed by a mutable
  deadline, with 64-bit wrap-around written out. The class searches by bisection in the set it keeps.
* **Byte array and streams** (`Chunks`, `Codec`, `Bits`, `FlatBuffer`, `VarintInput`, `GatherList`,
  `ByteArray`, `TypedIO`, `ByteArrayRuns`, `Stream`). Real linked nodes and the cached cursor, proved against
  one flat buffer; fixed-width, zigzag, varint and string encodings; fixed-size transfers over a socket that moves any
  part of what it is asked to.
* **Percent encoding and request parameters** (`UrlCodec`, `Params`, `ParamStrings`, `HttpRequest`).

Clocks, timer addresses, the answers of `epoll_ctl`, the reports of `epoll_wait` and the sizes of
partial transfers are parameters or arbitrary choices. `Aborted` stands for a failing assertion and
`NullCursor` for a null dereference (`NoEntries` for the first entry of an empty list), so these are
results that the lemmas speak about.

## What turned out differently from what one would expect

* A timeout that outlives its call can cancel the wait of the next call on the same descriptor: its
  callback runs unlocked between reading the flag and calling `cancelEvent`. `LateTimeoutHitsLaterCall`
  reaches such a state and `LateTimeoutIff` says exactly when it can happen. What it does depends on the
  call it hits (`LateCancelResumes`): a `do_io` only tries again, but a `connect_with_timeout` goes on to
  read SO_ERROR, which is 0 while the connect is in progress, and returns (`LateTimeoutEndsConnect`).
* `addEvent` looks a slot up, or grows the table, under one lock and registers under another. A growth
  decided on earlier can cut the vector: the table stays right if and only if nothing at or beyond the
  new size is registered and no `addEvent` holds a context there (`LateGrowthIff`). Both halves happen:
  `LateResizeLosesAnEvent`, and `LateGrowthOrphansRegistration`, where no bit is set at the cut. A wait
  that was cut off can be neither cancelled nor added to, although a report still resumes it (`CutOffWait`):
  it is out of reach of lookups, not lost. Whatever is cut off, a second context of the descriptor cannot
  register while the kernel knows the first, so each registration keeps exactly one fate
  (`EventRaceFates.ExactlyOneFate`) and each blocked call is resumed once (`HookRace.OneResumptionPerWait`).
  But the timeout of a call whose context was cut off does not wake it (`TimeoutReachesIff`).
* The delivery loop aborts when a report covers one registered bit and one that is gone (`DeliverOk`); a
  report read before a `delEvent` is such a report (`StaleReportAborts`).
* Reading zero bytes at the end of capacity dereferences the null cursor, so an empty string that ends
  exactly there cannot be read back: `ListRoundTrip`, `EmptyStringAtCapacity`.
* A string longer than its prefix can count comes back cut: `WriteThenReadString`, and 65536 bytes
  behind a two-byte prefix come back as none (`LongStringVanishes`).
* The positional `read` checks its range with a subtraction that wraps, and then reads in the cursor's node
  whatever position it is given. `ReadAtIff` says exactly for which positions and lengths it is right whatever
  the buffer holds, and `ReadAtFails` shows it wrong past the size inside the cursor's node, in another node,
  and past the capacity. `toString` asks only for what is right.
* The positional `getReadBuffers` cuts its count by what is readable after the current position, so the list
  it gives for a later one can hold bytes at or past the size (`PiecesBeyond`).
* `writeFixSize` asked for more than is readable sends all there is and then takes the address of the
  first entry of an empty vector.
* `setIsLittleEndian(true)` leaves the buffer big endian.
* A null timer callback is accepted by `addTimer`, so "in the set exactly while the callback is
  non-null" holds of the timers added with one (`InSetIffCallback`) and fails of others
  (`NullCallbackInSet`).
* Within the first hour of the clock any step back of it counts as a rollover, because the subtraction of an
  hour wraps (`RolloverIff`).
* The table of unreserved URI characters admits `=`, which section 2.3 of RFC 3986 does not.
* `initQueryParam` parses again on every call; that this changes nothing is `ReparseChangesNothing`.

## Model

| member | source | states |
|---|---|---|
| SchedulerSafety.InvStep | hx_sylar/scheduler.cc:138-221 | every action of every worker keeps the ownership invariant: each fiber handle is in one place, and a fiber in use is owned by one worker |
| SchedulerRuns.FiberSafety | hx_sylar/scheduler.cc:138-201 | in every interleaving no two workers have one fiber; a swap-in finds its fiber not EXEC and completely switched out; HOLD overwrites only the EXEC of the segment just run; a yielding fiber is EXEC |
| SchedulerRuns.NoResumptionMeanwhile | hx_sylar/scheduler.cc:171-201 | while a worker runs a fiber or is putting it back, nobody swaps that fiber in |
| SchedulerRuns.ActiveCountExact | hx_sylar/scheduler.cc:157-205 | the active count is the number of workers between taking an item and the decrement, in every reachable state |
| SchedulerRuns.TakenInOrder | hx_sylar/scheduler.cc:142-165 | the item a scan takes precedes all other unpinned callbacks of the queue |
| SchedulerRuns.QueueConservation | hx_sylar/scheduler.cc:142-165 | over every run scheduled = queued + taken as multisets, and unpinned callbacks are taken in the order scheduled |
| SchedulerRuns.StopDrainsQueue | hx_sylar/scheduler.cc:202-236 | with no outside schedule after stop (fibers and idle fibers still schedule, and a derived stopping may hold on longer), no unpinned entry is queued once all workers have left |
| SchedulerRuns.LeavesWhenStopping | hx_sylar/scheduler.cc:202-236 | and a worker that finds nothing to do while stopping holds does leave |
| SchedulerRuns.StopsOnlyAtRest | hx_sylar/scheduler.cc:225-236 | over every run an idle fiber is told to stop only when stop was called, nothing is queued and no worker has an item |
| SchedulerRuns.ScanTakes | hx_sylar/scheduler.cc:142-165 | a scan takes the first entry that is neither pinned to another thread nor an EXEC fiber, and nothing only when there is none |
| SchedulerFates.TakenFate | hx_sylar/scheduler.cc:142-206 | over every run each entry ever taken is in the hands of one worker, or was swapped in exactly once as its own fiber or on the callback fiber kept for it, or was dropped as a finished fiber |
| SchedulerFates.StartOutcome | hx_sylar/scheduler.cc:171-206 | in every run a taken entry is swapped in and marked EXEC on its worker, unless it is a fiber whose own code has ended |
| SchedulerFates.ReadyComesBack | hx_sylar/scheduler.cc:174-194 | a fiber that yielded READY stays READY and is queued again or in a worker's hands until it is swapped in |
| SchedulerFates.FinishedByOwnCode | hx_sylar/fiber.cc:162-176 | a fiber is TERM or EXCEPT only if its own code ran to its end or threw |
| Scheduler.Scheduler.ScheduleNoLock | hx_sylar/scheduler.h:65-73 | appends a non-null handle and reports whether the queue was empty |
| Scheduler.Scheduler.ScheduleBatch | hx_sylar/scheduler.h:38-51 | moves every handle out of its slot into the queue, in order; tickle exactly when the queue was empty and the batch is not |
| Scheduler.EntriesExact | hx_sylar/scheduler.h:38-73 | the entries of a batch are its non-null slots, unpinned and in order |
| Scheduler.Scheduler.TakeTask | hx_sylar/scheduler.cc:142-165 | removes the first entry eligible for this worker, keeps the rest in order, and asks for a tickle exactly when work for others remains |
| EventTable.AddOk | hx_sylar/iomanager.cc:86-137 | keeps the table invariant; aborts exactly on a bit already set; a failing epoll_ctl changes at most the table size |
| EventTable.DelOk | hx_sylar/iomanager.cc:139-170 | keeps the invariant, hands nothing over, succeeds exactly on a set bit that epoll_ctl accepts |
| EventTable.CancelOk | hx_sylar/iomanager.cc:172-204 | as above for cancelEvent, which never aborts on a well-formed table |
| EventTable.CancelAllOk | hx_sylar/iomanager.cc:206-244 | as above for cancelAll with either or both bits set |
| EventTable.DeliverOk | hx_sylar/iomanager.cc:305-353 | delivery keeps the invariant; it aborts if and only if the report is partly registered and epoll_ctl succeeds |
| EventDelivery.ReportWakes | hx_sylar/iomanager.cc:305-353 | a report that does not abort takes away exactly the waits on the reported events, all waits of the descriptor after an error or hang-up, and logs their handles READ first |
| EventDelivery.LogOfBatch | hx_sylar/iomanager.cc:305-353 | over the reports of one epoll_wait the log gains exactly the handles of each of them, in their order |
| EventDelivery.EachReportWakes | hx_sylar/iomanager.cc:305-353 | each wait a report is for is over from its turn on and its handle is among them |
| EventTable.TriggerTwo | hx_sylar/iomanager.cc:29-39 | triggering wanted bits removes exactly them and the count moves with the bits |
| EventTable.GrownOk | hx_sylar/iomanager.cc:75-97 | growing keeps every slot in its place and makes room for the descriptor |
| EventTable.LateResizeLosesAnEvent | hx_sylar/iomanager.cc:88-97 | growing for 100 and then for 40 loses a registered wait: the kernel keeps it, cancelEvent, delEvent and addEvent on 100 are refused |
| EventTable.StaleReportAborts | hx_sylar/iomanager.cc:305-353 | two waits on one descriptor, both in the kernel's set, one removed by delEvent: a report of both aborts |
| EventRace.RaceStep | hx_sylar/iomanager.cc:86-353 | with lookup and critical section apart, every step of every operation but a growth keeps the reachable table right and each addEvent in flight on the context in the vector |
| EventRaceRuns.LateGrowthIff | hx_sylar/iomanager.cc:88-124 | after a growth decided on earlier every continuation without growths keeps the table right, if and only if nothing at or beyond the new size is registered and no addEvent has looked up a context there |
| EventRaceRuns.TableRightWhile | hx_sylar/iomanager.cc:86-353 | over every run of the separate steps whose growths meet that condition the table is right throughout |
| EventRaceRuns.LateGrowthOrphansRegistration | hx_sylar/iomanager.cc:88-124 | a run in which no bit is set when the vector is cut, the table is right after the cut, and the addEvent in flight then registers where no lookup finds it |
| EventRaceRuns.CutOffWait | hx_sylar/iomanager.cc:139-353 | for any registered context that was cut off: delEvent, cancelEvent and cancelAll answer no, a new addEvent is refused by the kernel, and a report still hands the wait over |
| EventAttached.CommitKept | hx_sylar/iomanager.cc:86-353 | a critical section on whatever context it looked up, in the vector or cut off, is when it succeeds the same operation on the table of the contexts that the kernel's data.ptr names, and changes none of them when it is refused |
| EventAttached.KernelStep | hx_sylar/iomanager.cc:75-353 | every step, any late growth included, keeps: at most one context object per descriptor holds bits, data.ptr names it, the kernel's set is its bits, and pending is the number of bits in all contexts |
| EventRaceFates.ExactlyOneFate | hx_sylar/iomanager.cc:86-353 | over every run of the separate steps, late growths included, each successful addEvent still waits in the one context of its descriptor that the kernel knows, or is removed and never scheduled, or is scheduled exactly once with its own handle |
| EventRaceFates.FateIsFinal | hx_sylar/iomanager.cc:86-353 | over all these runs a removed or scheduled registration stays so |
| EventRaceFates.Conservation | hx_sylar/iomanager.cc:86-353 | over all these runs issued = bits set in all contexts, in the vector or not, + scheduled + removed, and the pending count is the first of these |
| EventRuns.TableAlwaysOk | hx_sylar/iomanager.cc:75-244 | in every reachable state slot i is descriptor i, kernel set = bits, a set bit holds a scheduler and one of fiber and callback, a clear bit nothing, and pending = number of set bits |
| EventRuns.ExactlyOneFate | hx_sylar/iomanager.cc:86-244 | each successful addEvent is still registered, or removed and never scheduled, or scheduled exactly once with its own handle |
| EventRuns.FateIsFinal | hx_sylar/iomanager.cc:86-244 | a removed or scheduled registration stays so in every continuation |
| EventRuns.Conservation | hx_sylar/iomanager.cc:305-353 | issued = registered + scheduled + removed in every reachable state |
| IOManager.IOManager.ContextResize | hx_sylar/iomanager.cc:75-84 | existing slots keep their object, new ones carry their index |
| IOManager.IOManager.AddEvent | hx_sylar/iomanager.cc:86-137 | the in-place form equals the step function, outcome and table |
| IOManager.IOManager.DelEvent | hx_sylar/iomanager.cc:139-170 | likewise |
| IOManager.IOManager.CancelEvent | hx_sylar/iomanager.cc:172-204 | likewise |
| IOManager.IOManager.CancelAll | hx_sylar/iomanager.cc:206-244 | likewise |
| IOManager.IOManager.DeliverReports | hx_sylar/iomanager.cc:305-353 | the loop takes the table through one Report step per report of an epoll_wait, in order, and stops exactly at one that aborts; the log gains the handles of all of them |
| HookRuns.InvStep | hx_sylar/hook.cc:104-150 | every step of calls, timeouts, deliveries and closes keeps: each set bit names the one call waiting there, and each call is owed one resumption exactly while it waits |
| HookLate.ResumedOnlyWhileWaiting | hx_sylar/hook.cc:104-150 | no step resumes a call more than once, nor one that is not waiting, nor changes a returned one |
| HookLate.OneResumptionPerWait | hx_sylar/hook.cc:104-150 | in every run resumptions = waits, minus one exactly while parked, whichever of event, timeout, cancel or close comes first |
| HookLate.TimeoutIsOwn | hx_sylar/hook.cc:113-149 | ETIMEDOUT is reported only when a timeout of the same call wrote the flag |
| HookTimeouts.TimedOutIff | hx_sylar/hook.cc:139-149 | over every run a woken call ends with ETIMEDOUT if and only if a timeout callback of that same call has written its flag by then; otherwise do_io tries again and connect returns; no timeout of it stays pending |
| HookTimeouts.TimedOutIffSplit | hx_sylar/hook.cc:139-149 | the same over the runs that take every table operation apart |
| HookTimeouts.ReturnsExactlyWhen | hx_sylar/hook.cc:104-150 | a step ends a call exactly if its attempt succeeds, its addEvent is refused, or its wait is over and it timed out or is a connect |
| HookTimeouts.TimesOut | hx_sylar/hook.cc:113-149 | for either kind of call and either event a reachable run that ends with ETIMEDOUT |
| HookLate.QuietForever | hx_sylar/timer.cc:99-111 | once a call has returned with none of its callbacks past its check, none of them ever calls cancelEvent |
| HookLate.LateTimeoutIff | hx_sylar/hook.cc:113-132 | after its return a call's timeouts can still cancel if and only if one of its callbacks is past lock and check |
| HookLate.LateTimeoutHitsLaterCall | hx_sylar/hook.cc:113-150 | for either kind of call and either event a reachable state in which a returned call's callback wakes the next call's wait |
| HookLate.LateCancelResumes | hx_sylar/hook.cc:133-150 | a waiting call woken that way goes back to trying if it is a do_io and returns, by way of SO_ERROR, if it is a connect |
| HookLate.LateTimeoutEndsConnect | hx_sylar/hook.cc:264-291 | a reachable connect that returns with no report, timeout or close of its own |
| HookRace.OneResumptionPerWait | hx_sylar/hook.cc:104-150 | with every table operation split into lookup, growth and critical section, in every run, late growths included: resumptions = waits, minus one exactly while the call waits, which is exactly while the context the kernel knows holds its fiber |
| HookRace.ResumedOnlyWhileWaiting | hx_sylar/hook.cc:104-150 | no split step resumes a call more than once, nor one that is not waiting |
| HookRace.TimeoutIsOwn | hx_sylar/hook.cc:113-149 | ETIMEDOUT is reported only when a timeout of the same call wrote the flag, over the same runs |
| HookRace.ReportResumes | hx_sylar/iomanager.cc:305-353 | in every reachable state a report of the event of a waiting call, or of an error or hang-up on its descriptor, finds its context, cut off or not, and its section succeeds and resumes the call |
| HookRace.TimeoutReachesIff | hx_sylar/hook.cc:118-127 | a callback that has written the flag wakes its waiting call if and only if the vector still has the context of the wait; otherwise the call waits on |
| HookSchedule.HandOversAreSchedules | hx_sylar/iomanager.cc:29-39 | every fiber a critical section of the event table hands over, whatever context it held, is parked, once: each schedule it makes is one the worker loop's safety allows |
| HookSchedule.BlockingCallsAreSafe | hx_sylar/hook.cc:104-150 | in every run of blocking calls on any number of workers, with table operations split and late growths included, the one-handle discipline holds, so no fiber is on two workers and every swap-in finds its fiber switched out |
| HookScheduleRuns.WokenBeforeYielding | hx_sylar/hook.cc:131-140 | a reachable run in which the fiber is handed over between its addEvent and its yield, and its handle is queued once |
| SleepSchedule.WakesAreSchedules | hx_sylar/hook.cc:160-204 | the callback of a sleep finds its fiber parked and outside any blocking call, whenever a worker gets to run it |
| SleepSchedule.OneWakeUpPerSleep | hx_sylar/hook.cc:160-204 | in every run a sleep is neither lost nor ended twice: its callback is with the pending timer, collected, queued or taken by a worker, in exactly one of them, and its fiber is parked until the callback has made its call |
| SleepSchedule.CollectedWhenDue | hx_sylar/timer.cc:129-165 | the callback of a sleep leaves the timer set exactly when its deadline has passed or the clock has rolled over |
| SleepSchedule.SleepsAreSafe | hx_sylar/hook.cc:104-204 | in every run of sleeps, such blocking calls and other timers on any number of workers the one-handle discipline holds, so no fiber is on two workers and every swap-in finds its fiber switched out |
| SleepScheduleRuns.WokenBeforeYielding | hx_sylar/hook.cc:160-204 | a reachable run in which the callback of a sleep is about to run while its fiber has not yielded yet, and queues its handle once |
| TimerRuns.AddKeeps | hx_sylar/timer.cc:91-178 | adding puts exactly the new timer in, at now + period, keeps the set sorted, and calls the front hook exactly when the timer is first and no call is outstanding |
| TimerRuns.CancelKeeps | hx_sylar/timer.cc:35-44 | cancel finds and removes exactly its own timer, and says yes exactly when the callback was non-null |
| TimerRuns.RefreshKeeps | hx_sylar/timer.cc:46-59 | refresh moves its timer to now + period and keeps the rest |
| TimerRuns.ResetKeeps | hx_sylar/timer.cc:61-85 | reset moves its timer to start + new period, from now or from its old start |
| TimerRuns.CutIsExact | hx_sylar/timer.cc:147-152 | the end of the expired range lies exactly behind the deadlines that have passed, ties with the probe included |
| TimerRuns.ExpiryExact | hx_sylar/timer.cc:129-187 | exactly the callbacks due (all after a rollover) in deadline order; afterwards the rest plus the recurring ones at now + period, and the time is remembered unless the set was empty |
| TimerRuns.AfterExpiry | hx_sylar/timer.cc:154-164 | an expired recurring timer is in the set again, one period from now, and a one-shot is out of it without a callback |
| TimerRuns.ProbeIrrelevant | hx_sylar/timer.cc:147-152 | the address of the probe timer makes no difference |
| TimerRuns.WaitIsShortest | hx_sylar/timer.cc:113-127 | the wait of getNextTimer is endless exactly without timers, and otherwise the least time until any deadline in the set, 0 for a passed one |
| TimerRuns.WaitIsExact | hx_sylar/timer.cc:113-165 | on a clock that does not go back some timer expires at a later time if and only if at least that long was waited |
| TimerRuns.RolloverIff | hx_sylar/timer.cc:180-187 | a rollover is a step back by more than an hour, or any step back within the first hour |
| TimerWorld.TimerFate | hx_sylar/timer.cc:35-165 | over every run a one-shot timer is pending, fired once or cancelled, and a recurring one pending or cancelled |
| TimerWorld.CancelIsFinal | hx_sylar/timer.cc:35-44 | after cancel said yes the callback is not handed out again and cancel does not say yes again |
| TimerWorld.InSetIffCallback | hx_sylar/timer.cc:35-97 | a timer added with a callback is in the set exactly while its callback is non-null |
| TimerWorld.NullCallbackInSet | hx_sylar/timer.cc:91-97 | one added without is in the set with a null callback, and cancel answers no |
| TimerWorld.LookupsSucceed | hx_sylar/timer.cc:38-71 | in every run the set is sorted and the lookups of cancel, refresh and reset find their timer |
| TimerWorld.EarlierDeadlineWakes | hx_sylar/timer.cc:46-178 | with a clock that does not go back, if the first deadline is now earlier than at the last getNextTimer, the front hook was called since, or a thread has left the lock to call it |
| TimerManager.TimerManager.LowerBound | hx_sylar/timer.cc:7-25 | bisection by the comparator finds the lower bound in the sorted set |
| TimerManager.TimerManager.AddTimer | hx_sylar/timer.cc:91-178 | new object, set, flag and hook call equal the specification |
| TimerManager.TimerManager.Cancel | hx_sylar/timer.cc:35-44 | likewise |
| TimerManager.TimerManager.Refresh | hx_sylar/timer.cc:46-59 | likewise |
| TimerManager.TimerManager.Reset | hx_sylar/timer.cc:61-85 | likewise |
| TimerManager.TimerManager.GetNextTimer | hx_sylar/timer.cc:113-127 | likewise, clearing the flag |
| TimerManager.TimerManager.ListExpired | hx_sylar/timer.cc:129-165 | the loops that cut, collect and re-insert equal the specification |
| Chunks.FlatSlice | hx_sylar/bytearray.cc:377-404 | part of one chunk is the corresponding part of the flat bytes |
| Chunks.FlatSplice | hx_sylar/bytearray.cc:293-327 | writing inside one chunk is writing at the corresponding flat place and nowhere else |
| Chunks.IndexIsQuotient | hx_sylar/bytearray.cc:299-300 | the chunk and offset of a position are its quotient and remainder by the node size |
| Chunks.RoundUpIsLeast | hx_sylar/bytearray.cc:453-480 | the capacity asked for is the least whole number of nodes that is enough |
| FlatBuffer.CapacityIsLeast | hx_sylar/bytearray.cc:453-480 | the capacity after making room is a whole number of nodes, enough, and the least that is |
| Codec.StoredOrder | hx_sylar/bytearray.cc:49-93 | the stored bytes depend on the chosen order only, not on the host's |
| Codec.FixedRoundTrip | hx_sylar/bytearray.cc:172-201 | a fixed-width integer written on one host is read back on any other |
| Codec.ByteAt | hx_sylar/bytearray.cc:49-93 | byte i of either order is the digit of its weight |
| Codec.ZigzagMeaning | hx_sylar/bytearray.cc:94-106 | the code is 2v or -2v-1 for every value, the most negative included, in spite of the wrapping negation |
| Codec.ZigzagRoundTrip | hx_sylar/bytearray.cc:94-113 | decoding undoes encoding for every signed value |
| Codec.ZigzagOnto | hx_sylar/bytearray.cc:107-113 | and encoding undoes decoding for every pattern |
| Codec.VarintLength | hx_sylar/bytearray.cc:118-141 | 32 bits take at most 5 bytes and 64 bits at most 10 |
| Codec.VarintMeans | hx_sylar/bytearray.cc:118-141 | an encoding is the seven-bit groups of the value, least significant first, all but the last marked and none spare |
| Bits.EachBit | hx_sylar/bytearray.cc:107-113 | the operators and, or and exclusive or act on every bit by itself |
| Bits.DecodeZigzagBits | hx_sylar/bytearray.cc:107-113 | the zigzag decoding is the shift, exclusive or and wrapping negation of the source, for any width |
| Bits.OrShiftedBits | hx_sylar/bytearray.cc:206-232 | the sum in the varint loop is the source's or with the shift cut to the width |
| Bits.VarintByteBits | hx_sylar/bytearray.cc:118-141 | masking and marking a varint byte are remainder by 128 and addition of 128 |
| FlatBuffer.WritesCompose | hx_sylar/bytearray.cc:293-327 | two writes in a row are one write of both, capacity included |
| FlatBuffer.VarintAhead | hx_sylar/bytearray.cc:206-232 | the decoding loop, with shifts cut to the width, gives back any encoded value and stops behind it |
| VarintInput.VarintReads | hx_sylar/bytearray.cc:206-232 | of any bytes the reader takes those up to an unmarked one or the full width, and gives what their groups spell, cut to the width |
| VarintInput.VarintCutOff | hx_sylar/bytearray.cc:206-232 | marked bytes up to the end of what is readable give the exception, with all of them consumed |
| VarintInput.TextCutOff | hx_sylar/bytearray.cc:248-278 | a prefix that counts more than is left gives the exception, with the prefix consumed |
| FlatBuffer.ListRoundTrip | hx_sylar/bytearray.cc:148-278 | any list of typed values read back with the same types gives the same values and end position, if and only if it does not end in an empty string exactly at capacity |
| FlatBuffer.EmptyStringAtCapacity | hx_sylar/bytearray.cc:377-383 | an instance of the exception: the read dereferences the null cursor |
| FlatBuffer.OversizedString | hx_sylar/bytearray.cc:248-278 | a string of any length behind a fixed or varint prefix gives back its first length mod 2^8w (or 2^64) bytes, all of them exactly if the length fits, and the null dereference exactly when none is counted and the prefix ends at capacity |
| TypedIO.WriteThenReadString | hx_sylar/bytearray.cc:148-278 | the same of any string, the empty one included, and any prefix, written, sought back and read on the nodes |
| TypedIO.LongStringVanishes | hx_sylar/bytearray.cc:148-151 | an instance: 65536 bytes behind a two-byte prefix come back as the empty string |
| GatherList.PiecesShape | hx_sylar/bytearray.cc:546-576 | each piece is non-empty, inside one chunk, and lies in the chunk after the one before |
| GatherList.GatherIsSlice | hx_sylar/bytearray.cc:546-607 | the pieces together are the flat range: nothing skipped, repeated or reordered |
| GatherList.PiecesCover | hx_sylar/bytearray.cc:510-607 | a byte is in one of the pieces if and only if it is in the range |
| GatherList.PiecesBeyond | hx_sylar/bytearray.cc:510-545 | the list of a range reaches bytes at or past the size exactly when the range does |
| ByteArrays.ByteArray.CursorNullIff | hx_sylar/bytearray.cc:328-346 | the cursor is node position/base, and null exactly when the position is the capacity |
| ByteArrays.ByteArray.SetIsLittleEndian | hx_sylar/bytearray.cc:42-47 | whatever is asked for, the order stays big endian |
| ByteArrays.ByteArray.AddCapacity | hx_sylar/bytearray.cc:453-484 | room for the bytes asked for with the least number of nodes, nothing visible changed, the cursor repaired |
| ByteArrays.ByteArray.Write | hx_sylar/bytearray.cc:293-327 | the flat buffer with exactly this range overwritten |
| ByteArrays.ByteArray.SetPosition | hx_sylar/bytearray.cc:328-346 | refuses exactly positions past the capacity; the walk ends at the right node or at null |
| ByteArrays.ByteArray.Read | hx_sylar/bytearray.cc:377-404 | the flat slice at the position, the exception, or the null dereference, each exactly when due |
| ByteArrays.ByteArray.ReadAt | hx_sylar/bytearray.cc:348-376 | for any position: the range check with its wrapping subtraction, then the bytes at that offset of the cursor's node, or null when the walk runs off the list |
| FlatBuffer.ReadAtIff | hx_sylar/bytearray.cc:348-376 | it gives the bytes at the position, or the exception when they are not all readable, for every content of the buffer, if and only if: within the size, the length is refused, or the cursor is not null and the length is 0 or the position is in the cursor's node; past the size, the length exceeds the wrapped difference |
| FlatBuffer.ReadAtFails | hx_sylar/bytearray.cc:348-376 | three failing inputs: an unwritten byte of the cursor's node, a byte of the wrong node, and a byte for a position past the capacity |
| ByteArrays.ByteArray.ToString | hx_sylar/bytearray.cc:486-495 | all readable bytes |
| ByteArrays.ByteArray.Clear | hx_sylar/bytearray.cc:280-291 | one node left, position and size zero |
| ByteArrays.ByteArray.GetReadBuffers | hx_sylar/bytearray.cc:546-576 | the pieces of the readable range, cut to what is readable |
| ByteArrays.ByteArray.GetReadBuffersAt | hx_sylar/bytearray.cc:510-545 | the pieces from any position, cut by what is readable after the current one; null is dereferenced exactly when the range passes the capacity, and bytes at or past the size are listed exactly when it passes the size |
| ByteArrays.ByteArray.GetWriteBuffers | hx_sylar/bytearray.cc:578-607 | room and the pieces of the range, position and size unchanged |
| ByteArrays.ByteArray.ListIsExact | hx_sylar/bytearray.cc:546-607 | entries of a gather list are disjoint, non-empty, inside their node, and spell the flat slice |
| ByteArrayRuns.Run | hx_sylar/bytearray.cc:280-607 | any sequence of write, read, setPosition, clear and getWriteBuffers on the chunks is a run of the flat buffer |
| ByteArrayRuns.HoldsLastWritten | hx_sylar/bytearray.cc:293-327 | over every run each index holds the byte last written there |
| ByteArrayRuns.ReadsLastWritten | hx_sylar/bytearray.cc:377-404 | a successful read gives back the bytes last written |
| TypedIO.WriteFixed | hx_sylar/bytearray.cc:49-93 | most significant byte first on any host |
| TypedIO.WriteVarint | hx_sylar/bytearray.cc:118-141 | the encoding loop stays inside its 5 or 10 byte buffer and writes the encoding |
| TypedIO.WriteString | hx_sylar/bytearray.cc:148-166 | as much of the length as the prefix holds, then all bytes, for any string |
| TypedIO.WriteAll | hx_sylar/bytearray.cc:49-166 | values written one by one are one write of their concatenated encodings |
| TypedIO.ReadVarint | hx_sylar/bytearray.cc:206-232 | the loop equals the flat reading, failures in the middle included |
| TypedIO.ReadString | hx_sylar/bytearray.cc:248-278 | likewise for length and bytes |
| TypedIO.ReadAll | hx_sylar/bytearray.cc:172-278 | likewise for a list, up to the first failure |
| TypedIO.WriteThenRead | tests/test_bytearray.cc:9-32 | for every node size and list, writing, seeking back and reading gives the same values with nothing left to read, except for the empty string at capacity |
| Streams.SocketStream.Read | hx_sylar/stream/socket_stream.cc:18-30 | any part of the length received, placed at the position, nothing else changed; a length of 0 takes the first entry of an empty list |
| Streams.SocketStream.Write | hx_sylar/stream/socket_stream.cc:38-49 | any part of the readable bytes up to the length sent, the position behind it; the empty list exactly when there is nothing to send |
| Streams.SocketStream.ReadFixSize | hx_sylar/stream.cc:19-29 | for any length: the next bytes of the peer are stored at the old position and the length, cut to an int, is returned; it stops short exactly when a transfer call returns nothing or fails, whose answer is returned, all calls before it having moved something and together what is there; a length negative as int64_t receives nothing |
| Streams.SocketStream.WriteFixSize | hx_sylar/stream.cc:45-55 | for any length: exactly the bytes from the old position in order, all of them as long as every transfer call moves something; or what went before a failed one; or everything readable and then the empty list |
| Streams.AllOrFailed | hx_sylar/stream.cc:19-29 | the length is received if and only if every transfer call moves something |
| Streams.AllSentOrFailed | hx_sylar/stream.cc:45-55 | as long as every transfer call moves something, the length or all that is readable is sent |
| UrlCodec.UrlEncode | hx_sylar/util.cc:563-592 | the lazily allocated loop equals the per-character translation |
| UrlCodec.UrlDecode | hx_sylar/util.cc:594-625 | likewise, malformed escapes standing for themselves |
| UrlCodec.RoundTrip | hx_sylar/util.cc:563-625 | decoding undoes encoding of any byte string, if and only if it is not the case that only the encoder writes a space in it as plus |
| UrlCodec.EncodedAlphabet | hx_sylar/util.cc:563-592 | an encoding holds only unreserved bytes, percent signs and plus |
| UrlCodec.EncodeIsIdentity | hx_sylar/util.cc:566-588 | the input is returned unchanged exactly when all its bytes are unreserved |
| UrlCodec.UnreservedIff | hx_sylar/util.cc:282-543 | the table holds letters, digits and five marks |
| UrlCodec.EscapeWritten | hx_sylar/util.cc:563-592 | any other byte is written as a percent sign and its two upper-case digits |
| UrlCodec.EscapeMeans | hx_sylar/util.cc:545-625 | an escape with digits of either case decodes to its byte |
| UrlCodec.NoEscape | hx_sylar/util.cc:594-625 | a percent sign without two such digits stands for itself |
| Params.KeyOrder | hx_sylar/http/http.cc:55-58 | the key comparison is a strict weak order whose equivalence is equality up to case and the first NUL |
| ParamStrings.LowerIs | hx_sylar/http/http.cc:55-58 | of a key only capital letters are folded, each to its small one |
| Params.FirstWins | hx_sylar/http/http.cc:157-159 | what is in the map stays, and the first new pair wins per key |
| Params.ParseInto | hx_sylar/http/http.cc:147-165 | the loop ends and inserts the pairs of the string in order |
| Params.ReparseChangesNothing | hx_sylar/http/http.cc:146-168 | inserting the same pairs again, with others in between, changes nothing |
| Params.ParsedKeys | hx_sylar/http/http.cc:147-165 | no parsed key holds an equals sign, and a trimmed key has nothing left to trim |
| ParamStrings.ParseExact | hx_sylar/http/http.cc:147-165 | any string is a list of key=value pieces, keys without an equals sign and values without the separator, and perhaps a tail without an equals sign; exactly these pieces are parsed, values decoded, in order |
| ParamStrings.TrimExact | hx_sylar/util.cc:627-635 | trimming takes away the spaces, tabs and line ends at both ends and nothing else |
| Params.QueryRoundTrip | hx_sylar/http/http.cc:146-168 | printed pairs parse back to themselves if and only if no key holds an equals sign |
| Params.QueryMap | hx_sylar/http/http.cc:146-168 | the parsed map holds, per case-insensitive key, the first pair printed |
| Params.CookieRoundTrip | hx_sylar/http/http.cc:225-236 | the same for cookies, if and only if the keys also have no blanks at their ends |
| HttpRequests.HttpRequest.InitQueryParam | hx_sylar/http/http.cc:146-168 | the query's pairs are inserted behind what is there |
| HttpRequests.HttpRequest.InitBodyParam | hx_sylar/http/http.cc:195-207 | the pairs of a form body, once |
| HttpRequests.BodyPairsIff | hx_sylar/http/http.cc:199-205 | a body counts exactly when the content type holds the name of the form encoding, in any case and before any NUL |
| HttpRequests.HeaderIsFirst | hx_sylar/http/http.cc:214-218 | a header is found under its name in any case, the first of several |
| HttpRequests.HttpRequest.InitCookies | hx_sylar/http/http.cc:225-236 | the pairs of the cookie header, once |
| HttpRequests.CookiesOfHeader | hx_sylar/http/http.cc:225-236 | a cookie header printed from pairs gives these pairs, if and only if their keys survive |
| HttpRequests.HttpRequest.InitRepeatedly | hx_sylar/http/http.cc:219-223 | however often initParam is called, only the first call changes a table |

## Left out

- The generated URI and HTTP parsers, HTTP sessions, connections and pools, `TcpServer`, addresses, configuration, logging and the environment helpers.
- Wake-up liveness: `IOManager::tickle` does nothing when idle threads exist, and no bound on when a timeout fires is claimed.
- That a timeout always wakes its waiter: `do_io` arms the timer before it registers the event.
- SchedulerRuns.FiberSafety: assumes that a running segment either parks its handle once and then yields with `YieldToHold`, or yields READY or ends with nothing parked, and that a wake-up finds its fiber parked; for blocking calls and sleeps `HookSchedule` and `SleepSchedule` prove it, and it stays an assumption for user code that parks fibers by other means.
- The runs of `HookLate` keep each operation of the event table in one step; those of `HookRace`, `HookSchedule` and `SleepSchedule` split it.
- Memory-model races on plain fields, and `swapcontext` itself: a context switch is one step.
- Fibers as objects: their state is a map in the machine, because every worker and the event table share them. The idle fiber is reduced to the answer of `stopping`.
- A descriptor closed behind the manager's back.
- The byte array's file operations, floating-point codecs and hexadecimal dump; `writeDouble` has no definition.
- `std::string::resize` failing for an absurd length read from the wire: the model reports the range error that follows it.
- The node count uses exact integers where the source divides as `double`; they agree below 2^53 bytes. Sizes do not wrap at 64 bits.
- The overloads of `readFixSize` and `writeFixSize` on raw memory: the same loops over a plain buffer.
- SSL sockets, which transfer entry by entry.
- TimerWorld.EarlierDeadlineWakes: requires deadlines that do not wrap at 64 bits and readings of the clock as the source takes them.
- The reuse of a freed timer's address: addresses in the timer model are never reused. Callbacks are named after their timers, and the batch of expired ones is scheduled one by one.
- The value `connect_with_timeout` reads from SO_ERROR: the model says that it returned, and whether by timeout.
- Timers inside the blocking-call model are phases of one timeout; that the manager hands each out at most once is proved of the timer model.
- `strcasecmp` and `isxdigit` in other locales than C.
