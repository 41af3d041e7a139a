# Verified model of the event loop and the gateway

The repository is an IoT gateway. An event library (`lesson5/libev`) runs the device's RPC server, a gateway daemon
(`lesson6`) reads sensors, drives a fan, caches telemetry and raises alerts, and a script (`cloud`) passes the alerts on.
This project models the stateful core of these programs in Dafny and proves what each of its steps keeps and what whole
runs guarantee. Code that updates its state in place is modelled by classes and methods that do the same, each proved
against a specification; the lemmas say what the specifications mean.

| modules | what they model |
|---|---|
| `Watchers`, `Arrays`, `Rings`, `Options`, `Bytes` | the watcher structure, growing arrays, rings of fixed size |
| `FourHeap`, `WatcherHeaps`, `Periodics`, `Timers` | the timer heaps, the schedule of periodics, starting, stopping and expiring both kinds |
| `Pending` | the pending queues, and the trace of everything fed, cleared and invoked |
| `WatcherLists`, `FdTable`, `Backends` | the table of file descriptors, its list of changes, and the poll and select backends |
| `Plans`, `Feeds`, `EventLoop` | I/O watchers, timers and periodics side by side with one set of pending queues; the drain of the queues by callbacks that feed, clear, drain again, and start and stop watchers of all three kinds; turns of the loop, one and many |
| `WakeUp` | signals and async sends from other threads against a loop that is about to block |
| `Sha256`, `Compression` | the streaming hash for any compression function, and the compression function itself |
| `Gateway`, `FanRules`, `Filters` | the alert state machine; the smoke and temperature rules that share the fan; sensor filters, debouncing, the vote over camera frames |
| `MsgQueue`, `MemPool`, `MemTrack`, `DataCache`, `Base64` | the bounded queue as a monitor, the block pool, the allocation tracker, the telemetry cache, the encoder |
| `CloudAlerts` | the hand-off of the pending alert among the threads of the cloud script |

Objects keep their invariants in `Valid()`; since every method of a class starts and ends there, whatever `Valid()` says
holds in every reachable state. Things the outside world decides (clock readings, results of calls, which thread a signal
wakes, what a callback does) are parameters or scripts that a proof treats as arbitrary. A callback may call the operations
of the loop, as those of the RPC server do (`lesson5/jsonrpc-c/src/jsonrpc-c.c:133`, `:238`).

Where the code turned out to do something other than one would expect, the model follows the code:

- `periodic_recalc` divides by an interval of at least `MIN_INTERVAL` but then adds the real one. For a smaller interval
  the result is not on the schedule in general; `NextIsLeastIff` says exactly when it is, `OffSchedule` shows a case.
- A callback may leave a timer or periodic overdue, or an fd that the backend does not know of, until the next turn:
  `Plans.UpToDateIff` says exactly which calls do, `Serve` is a run in which one does.
- In `downheap` the test for a fourth child in the slow path is dead: the slow path runs only when there is none.
- Entry 47 of `sha256_K` (`lesson6/crypto_utils.c:37`) differs from section 4.2.2 of FIPS 180-4. Padding and streaming are
  right, but every block compresses differently from the standard, so no message of at most 55 bytes gets its standard hash.
- A tick in ALERT may switch the fan off and on again. `OpposesIff` states exactly when, `OpposingRun` is a run with the
  default thresholds that does it; no other state does.
- `auto_control` always passes 0 for `allow_alert`, and `sensor_fusion_score` is called in SAFE and MONITOR only, so that
  the smoke alert in the one and the final correction in the other are never reached.
- The cooldown of `ai_vote` is 30 seconds; a comment beside it says 120.
- `mempool_free` accepts a block that is free already; the free list is then a circle.
- `data_cache_load_from_file` trusts the numbers in its file, and overwrites the cache while it reads, so that a file that
  is wrong or breaks off can leave a cache in use that is no proper ring. `Cache.Init` says exactly when, `BrokenStart` is
  a case. A report of 512 bytes or more that cannot be sent is not cached; a cached report that cannot be sent moves
  behind the others.
- A timed wait on the message queue that expires after it has been signalled takes the signal with it (POSIX allows
  that), and `msgq_receive` and `msgq_send` then return without looking again. `ExpiryForgetsIff` says exactly when a
  sleeper is forgotten over it, `TimeoutTakesSignal` is a run in which one is.
- If the timeout thread of the cloud script meets an exception, it ends, and the alert stays pending.

## Model

| member | source | states |
|---|---|---|
| FourHeap.ParentOfChild | lesson5/libev/ev.c:2232-2236 | the parent macro inverts the child expression of the 4-ary heap, and the root is its own parent only because C division truncates |
| FourHeap.UpHeap | lesson5/libev/ev.c:2321-2338 | from a heap with one hole in its order, `upheap` restores the order and keeps contents, cached keys and back-pointers |
| FourHeap.DownHeap | lesson5/libev/ev.c:2241-2286 | the same for `downheap`, through both of its ways to find the least child |
| FourHeap.MinChild | lesson5/libev/ev.c:2253-2271 | the first least of the children that exist is chosen |
| FourHeap.AdjustHeap | lesson5/libev/ev.c:2343-2349 | after any change of one key the heap is restored |
| FourHeap.ReHeap | lesson5/libev/ev.c:2353-2361 | from arbitrary keys a heap with the same contents is built |
| FourHeap.RootIsLeast | lesson5/libev/ev.c:3103-3115 | what the library's own heap check implies: no key is below that of the root |
| WatcherHeaps.WatcherHeap.Insert | lesson5/libev/ev.c:3882-3890 | the heap then holds exactly the former watchers and the new one, with the library's invariant |
| WatcherHeaps.WatcherHeap.Remove | lesson5/libev/ev.c:3905-3919 | the heap then holds exactly the other watchers, whichever slot was vacated |
| WatcherHeaps.WatcherHeap.Overdue | lesson5/libev/ev.c:3325-3325 | the root is before now exactly when some watcher of the heap is |
| WatcherHeaps.ShiftKeepsOrder | lesson5/libev/ev.c:3451-3461 | moving every key by one offset keeps the order, so that no reheap is needed |
| Periodics.PeriodicRecalc | lesson5/libev/ev.c:3360-3381 | the loop ends, for every positive interval, at the first step after now |
| Periodics.NextIsSoon | lesson5/libev/ev.c:3360-3381 | the next due time is after now, by at most one interval |
| Periodics.NextIsLeastIff | lesson5/libev/ev.c:3360-3381 | the next due time is the least offset + k * interval after now if and only if the interval is at least MIN_INTERVAL or the base time lies a whole number of intervals from the offset |
| Periodics.OffSchedule | lesson5/libev/ev.c:3360-3381 | an interval below MIN_INTERVAL for which it is not on the schedule at all |
| Timers.TimedLoop.TimerStart | lesson5/libev/ev.c:3874-3893 | an inactive timer enters the heap at now plus its time; all else keeps its due time; an active one changes nothing |
| Timers.TimedLoop.PeriodicStart | lesson5/libev/ev.c:3962-3987 | an inactive periodic enters the heap at its next due time by callback, interval or offset |
| Timers.TimedLoop.PeriodicNext | lesson5/libev/ev.c:3401-3410 | a periodic is due next by its callback if it has one, else by its interval, after now; one with neither runs once |
| Timers.TimedLoop.Stop | lesson5/libev/ev.c:3898-3924 | the watcher leaves the heap and is not pending; a timer's time becomes relative again |
| Timers.TimedLoop.TimerAgain | lesson5/libev/ev.c:3928-3952 | the timer is due at now plus its repeat value, or is stopped when it has none, whether or not it was active |
| Timers.TimedLoop.PeriodicAgain | lesson5/libev/ev.c:4020-4024 | the periodic is due at its next due time, whether or not it was active |
| Timers.BatchComplete | lesson5/libev/ev.c:3325-3345 | when no watcher of the heap is overdue any more, the batch taken from it in due order is exactly the watchers that were |
| Timers.TimedLoop.CollectOverdue | lesson5/libev/ev.c:3325-3350 | the loop of a reify ends, with every overdue watcher collected once, in due order, and stopped or set anew |
| Timers.TimedLoop.Reify | lesson5/libev/ev.c:3321-3355 | a reify ends; exactly the overdue watchers expired, in due order; no active watcher is overdue after it; each expired watcher was fed once, no other was touched, and the trace says nothing else; a timer that ran once keeps its time relative to now |
| Timers.TimedLoop.InvokedInDueOrder | lesson5/libev/ev.c:2005-2017 | after a reify, through its two reversals, expired watchers of one priority that were not pending are invoked in the order in which they were due |
| Timers.TimedLoop.TimersReschedule | lesson5/libev/ev.c:3451-3461 | every due time moves by the offset, and the heap is still one |
| Timers.TimedLoop.PeriodicsReschedule | lesson5/libev/ev.c:3428-3446 | every periodic is due at its next due time after a jump of the clock, and the rebuilt heap holds exactly those |
| Arrays.ArrayNextSize | lesson5/libev/ev.c:1925-1942 | the new size holds cnt elements, and at least twice one more than before; it is a doubling that is less than twice what is needed, or as many elements as then fit into whole pages less four pointers |
| Arrays.GrowthIsGeometric | lesson5/libev/ev.c:1925-1957 | r reallocations from empty give a capacity of at least 2^(r+1) - 2 |
| Pending.PendingQueues.FeedEvent | lesson5/libev/ev.c:1986-2002 | a pending watcher has the events added in its slot, any other gets one new slot; every slot holds all events fed since the watcher was last cleared |
| Pending.PendingQueues.ClearPending | lesson5/libev/ev.c:3786-3800 | returns all events fed since the last clear, and leaves no slot that points to the watcher |
| Pending.PendingQueues.FeedReverseDone | lesson5/libev/ev.c:2012-2017 | every watcher of the batch is fed once, and of two new entries that of the earlier one is on top |
| Pending.PendingQueues.AdjustPriority | lesson5/libev/ev.c:3803-3809 | clamping the priority of a watcher never moves a pending one away from its slot |
| Pending.PendingQueues.TopInvocation | lesson5/libev/ev.c:3282-3288 | what is about to be invoked has all events fed to it, and no higher priority has an entry |
| Pending.LaterPushedFirst | lesson5/libev/ev.c:3275-3292 | of two entries of one priority the one pushed later is invoked first |
| Pending.DrainPosition | lesson5/libev/ev.c:3275-3292 | where each entry comes in the order of an undisturbed drain |
| Pending.NothingIsLost | lesson5/libev/ev.c:1986-2002 | in every history of the queues, what has been fed to a watcher at some point is part of what a later invocation or clear answers, or is pending still |
| Pending.EveryFeedIsAnswered | lesson5/libev/ev.c:3275-3292 | so every single event fed is in an invocation, was returned by a clear, or is pending still |
| Pending.PendingQueues.AllAnswered | lesson5/libev/ev.c:3275-3292 | with empty queues nothing is pending still |
| WatcherLists.ListAdd | lesson5/libev/ev.c:3753-3757 | the list is the former one behind the new element |
| WatcherLists.ListDelete | lesson5/libev/ev.c:3760-3773 | the list is the former one without the element, also when it was not there |
| WatcherLists.FdLists.Collect | lesson5/libev/ev.c:2108-2111 | the walk ors together exactly what the watchers of the fd want |
| WatcherLists.WantedIff | lesson5/libev/ev.c:2108-2111 | an event is wanted if and only if some watcher of the list wants it |
| FdTable.Table.FdChange | lesson5/libev/ev.c:2126-2137 | fdchanges holds each fd with reify flags exactly once, before and after |
| FdTable.Table.IoStart | lesson5/libev/ev.c:3829-3850 | the watcher is in the list of its fd, which is marked as changed and wants its events too; other fds want what they did |
| FdTable.Table.IoStop | lesson5/libev/ev.c:3855-3870 | the watcher is out of its list and not pending; other fds want what they did |
| FdTable.Table.FdKill | lesson5/libev/ev.c:2141-2150 | the list of the fd is empty, the others are as they were, and each watcher stopped was fed the error events |
| FdTable.Table.ReifyOne | lesson5/libev/ev.c:2095-2118 | one turn of the loop deals with one change, and either stops a watcher of an fd that the backend gives up or adds no change |
| FdTable.Table.FdReify | lesson5/libev/ev.c:2066-2121 | ends however many fds the backend gives up meanwhile; then no fd is dirty, the backend watches on every fd exactly what its watchers want, exactly the fds it gave up have lost their watchers, and those were fed an error and no other watcher anything; the backend has been told of each change that `ToldIff` names, with the former and the new events, then of the end of each fd it gave up, and of nothing else |
| FdTable.ToldIff | lesson5/libev/ev.c:2099-2118 | the backend is told of an fd exactly if its wanted events differ from the former ones or a watcher of it was started with EV__IOFDSET, as after the fd has been closed and opened anew with the same events |
| FdTable.ToldOnce | lesson5/libev/ev.c:2089-2120 | and once |
| FdTable.Table.FdEvent | lesson5/libev/ev.c:2048-2054 | a changed fd feeds nobody; any other feeds each of its watchers its share of the events, once, and nobody else anything |
| FdTable.Table.FeedFdEvent | lesson5/libev/ev.c:2057-2061 | the same for any fd in range whether changed or not; one out of range feeds nobody |
| EventLoop.NewLoop | lesson5/libev/ev.c:2827-2917 | a new table of fds, new timers and periodics over any three disjoint sets of watchers fit together with new pending queues and the given backend, for callbacks with any script of acceptable calls |
| EventLoop.Loop.TimerStart | lesson5/libev/ev.c:3874-3893 | starting a timer keeps the invariants of all parts, gives it its due time, and changes no other due time; the calls of callbacks that were acceptable still are |
| EventLoop.Loop.TimerStop | lesson5/libev/ev.c:3898-3924 | likewise for stopping one, which leaves it neither due nor pending and keeps its remaining time |
| EventLoop.Loop.TimerAgain | lesson5/libev/ev.c:3928-3952 | likewise for starting one again |
| EventLoop.Loop.PeriodicStart | lesson5/libev/ev.c:3962-3987 | starting a periodic keeps the invariants of all parts, gives it its next due time, and changes no other |
| EventLoop.Loop.PeriodicStop | lesson5/libev/ev.c:3992-4017 | likewise for stopping one |
| EventLoop.Loop.PeriodicAgain | lesson5/libev/ev.c:4020-4024 | likewise for starting one again |
| EventLoop.Loop.Reschedule | lesson5/libev/ev.c:3428-3461 | a jump of the clock moves the timers by the offset and the periodics to their next due times, and leaves the fds alone |
| EventLoop.Loop.IoStart | lesson5/libev/ev.c:3829-3850 | starting an I/O watcher keeps the invariants too, changes no due time, and leaves a change for the backend exactly if the watcher was not started |
| EventLoop.Loop.IoStop | lesson5/libev/ev.c:3855-3870 | likewise for stopping one, with a change exactly if it was started |
| EventLoop.Loop.FdEvent | lesson5/libev/ev.c:2048-2054 | a changed fd feeds nobody; any other feeds each started watcher of it its share and no other watcher anything, which is also all that the trace says; no due time changes |
| EventLoop.Loop.FdReify | lesson5/libev/ev.c:2066-2121 | brings the backend into line beside the other parts, with the calls that are due and no others; exactly the watchers of fds it gave up are stopped, cleared and fed an error; no due time changes |
| EventLoop.Loop.TimersReify | lesson5/libev/ev.c:3321-3355 | expiring timers beside the other parts: those due before now have their next due time, or are stopped with a time relative to now, and each has been fed, once; the others are as they were; the trace has these feeds, the clearing of stopped ones, and nothing else |
| EventLoop.Loop.PeriodicsReify | lesson5/libev/ev.c:3385-3424 | and so for periodics |
| EventLoop.Loop.FeedAll | lesson5/libev/ev.c:3586-3675 | when the callbacks of a turn are about to run, nothing is overdue and the backend knows of every change; exactly each watcher that was due by the turn's clocks, each started I/O watcher with a report, and each one whose fd was lost has been fed, with just these events; every new step of the trace has its cause in one of these; the due times are the next ones of what was due and the former ones of the rest |
| Feeds.SharesIff | lesson5/libev/ev.c:2031-2045 | an I/O watcher gets an event exactly if it is the part that it wants of some report on its fd, and not empty |
| Feeds.CausedInTurn | lesson5/libev/ev.c:3586-3675 | so every step that a turn adds to the trace before its callbacks run is the feed of a report, of a lost fd, of a due timer or of a due periodic, or clears a watcher that is stopped over it |
| EventLoop.Loop.Act | lesson5/libev/ev.c:3874-4024 | whatever function of the loop a callback calls, all parts keep their invariants, and due times, started watchers and changed fds are afterwards what the call says |
| EventLoop.Loop.RunCallback | lesson5/libev/ev.c:3288-3288 | a callback makes its calls up to its end, whatever drains they nest |
| EventLoop.Loop.InvokePending | lesson5/libev/ev.c:3275-3292 | whatever callbacks feed, clear, drain, start and stop, the drain ends with empty queues; due times, started watchers and changed fds are what their calls make of them; every new step of the trace is an invocation or has its cause in a call |
| EventLoop.Loop.Drain | lesson5/libev/ev.c:3275-3292 | every event that was pending before has been answered: it was part of an invocation or a callback withdrew it; undisturbed callbacks run by priority, last entry first |
| Plans.TimerLateIff | lesson5/libev/ev.c:3874-3952 | calls of callbacks leave a timer overdue if and only if it would be due before now, they never set it anew from its repeat value, and of their calls on it that start or stop it the last one starts it |
| Plans.PeriodicLateIff | lesson5/libev/ev.c:3962-4024 | the same for a periodic whose next time is before now, if it was not running or a call stops it or starts it again |
| Plans.CleanIff | lesson5/libev/ev.c:3829-3870 | the backend knows of every change after the calls if and only if they start no stopped I/O watcher and stop no started one |
| Plans.UpToDateIff | lesson5/libev/ev.c:3829-4024 | so nothing is overdue and no fd changed after the callbacks of a turn exactly if none of these calls is among theirs |
| EventLoop.Loop.Turn | lesson5/libev/ev.c:3586-3688 | after one turn of the loop nothing is pending; each watcher that was due by its clocks, and each started I/O watcher with ready events, is answered in the part of the trace that the callbacks of the turn wrote: it is invoked with them, or a call of a callback withdrew them; nothing else was fed before they ran, so that no watcher is invoked that was neither due nor ready nor fed by a callback; due times and started watchers before they ran are given by those before the turn, and afterwards by the calls; whether something is overdue or changed then depends on the calls as `Plans.UpToDateIff` says |
| EventLoop.Loop.Run | lesson5/libev/ev.c:3547-3690 | after any number of turns every event that was ever fed has been answered later in the trace |
| EventLoop.Serve | lesson5/jsonrpc-c/src/jsonrpc-c.c:209-239 | a server on a new loop: in its first turn its timer and its listening watcher are answered, and the accept callback leaves an fd for the backend to be told of, which the second turn does |
| Backends.PollBackend.Modify | lesson5/libev/ev_poll.c:52-86 | the array and its inverse index stay inverse through growth and swap-remove; the interest in this fd is the new mask, that in all others is unchanged |
| Backends.SelectBackend.Modify | lesson5/libev/ev_select.c:71-137 | the same for the two bitmaps, through growth by zeroed words |
| Backends.OneBitChanges | lesson5/libev/ev_select.c:106-136 | setting or clearing the bit of an fd in its word changes the bit of no other fd |
| Backends.FaultyBackend.Modify | lesson5/libev/ev_epoll.c:81-134 | a backend that may report an fd as gone, though never when nothing is wanted on it |
| WakeUp.NextKeeps | lesson5/libev/ev.c:2427-2539 | every access of every sender and of the loop keeps the invariant: a set flag will be seen, and a mark has a flag, a scan that will reach it, or a sender about to set the flag |
| WakeUp.NoLostWakeUp | lesson5/libev/ev.c:3602-3664 | in every run, when the loop blocks on an empty pipe and no sender is mid-call, no flag and no mark is set |
| WakeUp.OwedIsNotBlocked | lesson5/libev/ev.c:3602-3664 | with a mark left and the senders quiet, the loop can always step |
| WakeUp.QuietSendIsFed | lesson5/libev/ev.c:2477-2539 | and within two passes it feeds the event of that watcher or signal |
| WakeUp.EverySendIsFed | lesson5/libev/ev.c:2427-2539 | with senders that go on calling, at any pace: a mark whose flag has been set is fed within three passes of the loop, plus the five steps of each pass that found neither a byte nor a skipped write |
| WakeUp.SendInRunIsFed | lesson5/libev/ev.c:2427-2539 | so it is from any point of any run |
| WakeUp.EmptyPassMeansWaking | lesson5/libev/ev.c:2427-2466 | such a pass ends only while a sender stands between setting the flag and its write |
| WakeUp.BlockedMeansMidCall | lesson5/libev/ev.c:3602-3664 | and the loop blocks on an empty pipe, with the mark left, only while a sender is mid-call |
| WakeUp.OnlyMarksAreFed | lesson5/libev/ev.c:2512-2536 | in every run, what pipecb feeds is marked: no watcher is fed that nobody sent |
| WakeUp.FeedsAreMarks | lesson5/libev/ev.c:2512-2536 | the feeds of one watcher or signal, and its mark if it is set, are at most as many as the times that senders have marked it |
| WakeUp.FedAtMostSent | lesson5/libev/ev.c:4903-4907 | and at most as many as the calls to send it |
| WakeUp.SecondSendIsSilent | lesson5/libev/ev.c:2427-2433 | a send that finds the flag of its kind set leaves its mark and nothing else |
| WakeUp.RunningLoopGetsNoByte | lesson5/libev/ev.c:2441-2470 | nothing is written to the pipe of a loop that has not asked for it |
| WakeUp.NobodySentNoCallback | lesson5/libev/ev.c:3645-3656 | pipecb runs only if somebody has sent |
| WakeUp.QuietLoopSleeps | lesson5/libev/ev.c:3602-3664 | a loop that nobody wakes and that may block does so within two passes |
| Sha256.PadIsLeast | lesson6/crypto_utils.c:124-152 | the padded message is a whole number of blocks, with the least number of zero bytes that makes it so |
| Sha256.PaddedIsInjective | lesson6/crypto_utils.c:124-152 | different messages below 2^61 bytes have different padded forms |
| Sha256.PaddedLayout | lesson6/crypto_utils.c:124-152 | its bytes: the message, 0x80, zeros, and the number of bits |
| Sha256.BigEndianAt | lesson6/crypto_utils.c:140-147 | with the most significant byte first |
| Sha256.Context.Update | lesson6/crypto_utils.c:92-122 | the context has hashed or buffered exactly the former message and the new data |
| Sha256.Context.Final | lesson6/crypto_utils.c:124-161 | the digest is the fold of the compression function over the padded message, and the context is wiped |
| Sha256.Calc | lesson6/crypto_utils.c:163-173 | the digest of the whole message in one call |
| Sha256.CalcInPieces | lesson6/crypto_utils.c:92-173 | any way of splitting the message over updates gives the same digest |
| Compression.Compress | lesson6/crypto_utils.c:52-75 | the loops over the schedule and the rounds compute the compression function of section 6.2.2 of FIPS 180-4, for any table of constants |
| Compression.ChoiceByMask | lesson6/crypto_utils.c:45-45 | in every bit the choice takes y where x is set and z where it is not |
| Compression.MajorityByMask | lesson6/crypto_utils.c:46-46 | in every bit the majority agrees with any two that agree |
| Compression.SumsOfRotations | lesson6/crypto_utils.c:44-50 | the four sums are those of rotations and shifts of section 4.1.2 |
| Compression.WordOfBytes | lesson6/crypto_utils.c:56-59 | a word of the schedule is four bytes of the block, the most significant first |
| Compression.KnownSchedule | lesson6/crypto_utils.c:60-62 | the schedule of one known block |
| Compression.KnownRound | lesson6/crypto_utils.c:67-71 | one round gives the values that the standard's example lists |
| Compression.AddedWordByWord | lesson6/crypto_utils.c:73-74 | the state after a block is the sum of the state before and the working variables |
| Compression.InitIsSquareRoots | lesson6/crypto_utils.c:80-87 | the initial values are the fractional parts of the square roots of the first eight primes |
| Compression.Entries0 | lesson6/crypto_utils.c:25-42 | the constants of the standard are those of the cube roots of the first 64 primes; this for the first eight, `Entries8` to `Entries56` for the others |
| Compression.OutputWords | lesson6/crypto_utils.c:151-157 | the output is the eight words, the most significant byte of each first |
| Compression.OneEntryMatters | lesson6/crypto_utils.c:66-74 | two tables that differ in one entry compress every block differently from every state |
| Compression.EveryBlockDiffers | lesson6/crypto_utils.c:37-37 | so do this table and that of the standard |
| Compression.ShortHashesDiffer | lesson6/crypto_utils.c:25-75 | no message of one block gets the hash of the standard |
| FanRules.Fan.AutoControlSmoke | lesson6/mqtt_bridge.cpp:1385-1504 | smoke that is confirmed, by the third reading of it in a row, for less than the fault timeout switches the fan on exactly if it is off, and sets its time; from the fault timeout on there is no command, and an alert at first and after each interval; a reading without smoke ends the row, and switches the fan off exactly if its time is up and it is not hot; a reading that failed changes nothing; confirmed since when, by the history of readings |
| FanRules.StreakIsLongest | lesson6/mqtt_bridge.cpp:1394-1402 | what the debounce counter counts: the longest run of smoke readings at the end, failed readings left out |
| FanRules.Fan.AutoControlTemp | lesson6/mqtt_bridge.cpp:1515-1544 | without smoke and after the time of the smoke fan, the fan is switched on exactly above the one threshold and off exactly below the other |
| FanRules.TempIsSteady | lesson6/mqtt_bridge.cpp:1515-1544 | and not at all while the temperature is in the band |
| FanRules.SmokeSwitches | lesson6/mqtt_bridge.cpp:1385-1504 | the smoke rule switches on only with smoke, and off exactly for smoke that has cleared after its time where it is not hot |
| FanRules.BothNeverOppose | lesson6/mqtt_bridge.cpp:1937-1941 | one pass of both rules never issues opposing commands, whether calls fail or other threads set the fan state in between |
| Gateway.OpposesIff | lesson6/mqtt_bridge.cpp:1870-1951 | a tick issues opposing fan commands if and only if it is in ALERT, the smoke has cleared after its time in a room that is not hot, and the fan is off when it is looked at again |
| Gateway.TickActs | lesson6/mqtt_bridge.cpp:1857-1953 | what each tick does for the room: confirmed smoke sets the time of the fan and switches it on, in ALERT the fan ends up on unless the call fails, elsewhere the temperature has the last word, and the fan state changes only by a logged call that succeeded or by another thread |
| Gateway.OpposingRun | lesson6/mqtt_bridge.cpp:1910-1921 | a run from the start, with the default thresholds and no failing call, whose last tick in ALERT switches the fan off and on |
| Gateway.Controller.FusionScore | lesson6/mqtt_bridge.cpp:1653-1664 | the decaying score stays under the ceiling that the strongest tick so far sets, 20 * s - 19 |
| Gateway.DecayIsTruncated | lesson6/mqtt_bridge.cpp:1658-1660 | the decay takes a twentieth of the score, rounded toward zero |
| Gateway.Controller.WeakSignalsNeverAlert | lesson6/mqtt_bridge.cpp:1892-1897 | ticks whose signals are at most 3 never raise an alert, however many there are |
| Gateway.Controller.TickAlert | lesson6/mqtt_bridge.cpp:1910-1935 | the first tick of a visit to ALERT publishes the fire alert and no other does; after more than 30 seconds it is over |
| Gateway.Controller.AutoControl | lesson6/mqtt_bridge.cpp:1857-1953 | over every run with a clock that does not go back: the transitions of the machine, by score, suspicion and times of 60 and 30 seconds; what becomes of the fan, one alert for each visit to ALERT, entries more than 60 and alerts more than 30 seconds apart |
| Filters.SlidingAverage.Sample | lesson5/rpc_server/hal.c:383-395 | the truncated mean of the last samples, as many as there are or as the window holds |
| Filters.RemainderHasSign | lesson5/rpc_server/hal.c:394-394 | the mean is truncated as in C: the remainder is smaller than the count and has the sign of the sum |
| Filters.Sensor.Record | lesson5/rpc_server/hal.c:75-96 | a sensor is offline exactly after five failures in a row |
| Filters.FailuresAreLast | lesson5/rpc_server/hal.c:75-96 | what its counter counts: the failures at the end of all reads |
| Filters.SmokeInput.Read | lesson5/rpc_server/hal.c:504-529 | the output is the value of the last three equal successful reads; a failed read is recorded; a read is refused exactly while five or more in a row have failed and the last failure is less than 60 seconds ago |
| Filters.ChangesAtThree | lesson5/rpc_server/hal.c:516-524 | the output changes exactly at the third read in a row that differs from it |
| Filters.FirstOutput | lesson5/rpc_server/hal.c:500-524 | before that the output is 1 |
| Filters.AiVote.Vote | lesson6/mqtt_bridge.cpp:903-938 | calls an alert exactly outside the cooldown when enough of the last five frames since the last alert are positive; alerts are at least 30 seconds apart |
| MsgQueue.Queue.Enqueue | lesson6/msg_queue.c:122-127 | the message goes behind the others, with the next id |
| MsgQueue.IdsDiffer | lesson6/msg_queue.c:122-124 | no two of 2^32 messages in a row have the same id, and the first has id 1 |
| MsgQueue.Queue.SendTurn | lesson6/msg_queue.c:100-135 | the outcome of a sender's turn, and that a message is enqueued exactly when there is room |
| MsgQueue.Queue.Send | lesson6/msg_queue.c:87-135 | a closed queue refuses a new call even when there is room |
| MsgQueue.Queue.ResumeSend | lesson6/msg_queue.c:100-135 | a waiting call that runs again ends, or goes on waiting, by the room it finds, the closing and its timeout |
| MsgQueue.Queue.ReceiveTurn | lesson6/msg_queue.c:140-190 | a receiver gets the oldest message exactly when there is one; what has been received and what is queued is what was enqueued, in order |
| MsgQueue.Queue.ResumeReceive | lesson6/msg_queue.c:150-190 | the same for a waiting receiver |
| MsgQueue.Queue.Close | lesson6/msg_queue.c:228-238 | nobody sleeps on a closed queue |
| MsgQueue.Broadcast | lesson6/msg_queue.c:228-238 | every sleeper is signalled, with its call unchanged, and nobody else |
| MsgQueue.SignalKeeps | lesson6/msg_queue.c:130-131 | a message and a signal together keep that no more is queued than signalled receivers will come for, if anyone sleeps |
| MsgQueue.ExpiryForgetsIff | lesson6/msg_queue.c:163-176 | a signalled wait that expires leaves a sleeper forgotten if and only if someone sleeps and the other signalled threads are too few for what is there |
| MsgQueue.Queue.NobodyWaitsInVain | lesson6/msg_queue.c:100-190 | in every interleaving, with timeouts and spurious wake-ups, unless such an expiry has happened: a receiver sleeps over a queued message, or a sender over free room, only while another one has been signalled |
| MsgQueue.Queue.ExpireSignalledReceiver | lesson6/msg_queue.c:170-175 | the step that takes a signal; it is counted exactly when it leaves someone forgotten |
| MsgQueue.TimeoutTakesSignal | lesson6/msg_queue.c:150-190 | a run of three calls after which a receiver sleeps over a message and nobody has been signalled |
| MemPool.BlocksAreApart | lesson6/memory_pool.c:353-373 | blocks are aligned, lie in the memory, and no two overlap |
| MemPool.AlignedSizeIsLeast | lesson6/memory_pool.c:352-352 | the size of a block is the least multiple of 8 that is at least the size asked for |
| MemPool.Create | lesson6/memory_pool.c:330-382 | the pool gets the lowest free slot and starts with every block free, of the least aligned size; all the ways to fail |
| MemPool.Pool.Alloc | lesson6/memory_pool.c:412-433 | hands out the first free block, or null when there is none; live and free blocks stay a partition of all |
| MemPool.Pool.Write | lesson6/memory_pool.c:412-433 | writing in a live block leaves the free list alone |
| MemPool.Pool.Free | lesson6/memory_pool.c:435-461 | accepts exactly the addresses of blocks; the free list is right afterwards if the block was live, and never ends if it was free |
| MemPool.AllocFrom | lesson6/memory_pool.c:412-433 | null for a pool that does not exist, and otherwise exactly when the pool has no free block |
| MemPool.FreeTo | lesson6/memory_pool.c:435-461 | which error each wrong argument gives, and that exactly the addresses of blocks give none; a live block goes back to its pool |
| MemTrack.Tracker.Alloc | lesson6/memory_pool.c:133-175 | the first free entry takes the allocation; the totals and counts after it; current usage is the sum of the active sizes and the difference of the totals, as far as a size_t goes, and the peak is the greatest usage |
| MemTrack.Tracker.Free | lesson6/memory_pool.c:177-205 | the first active entry of that address is dropped, or none is there; the totals and counts after it |
| MemTrack.Tracker.DetectLeaks | lesson6/memory_pool.c:207-221 | the number of active entries, which is also the running count |
| DataCache.Cache.Push | lesson6/data_cache.c:82-121 | the entry goes behind the others, and drives out the oldest of a full cache; texts that do not fit are refused |
| DataCache.Cache.Pop | lesson6/data_cache.c:123-162 | the oldest entry is taken, cut to the caller's room |
| DataCache.Cache.Save | lesson6/data_cache.c:185-219 | writes the whole image, or a file that no load will accept as good |
| DataCache.Cache.Load | lesson6/data_cache.c:221-260 | for every file, whole or cut short: each number and entry that it has replaces that of the cache, one without the magic number replaces nothing; only a whole file is accepted and removed |
| DataCache.LoadedCases | lesson6/data_cache.c:221-260 | number by number and entry by entry, what a file leaves of the old state |
| DataCache.Cache.Init | lesson6/data_cache.c:61-80 | the cache put in use is a proper ring if and only if what the file leaves of the old one is, for every file |
| DataCache.CutAmongNumbers | lesson6/data_cache.c:237-243 | after a file that breaks off among its numbers an empty cache is proper exactly if the numbers read are zero |
| DataCache.BrokenStart | lesson6/data_cache.c:61-80 | a start that leaves a cache in use with a count of 1000 |
| DataCache.SaveThenLoad | lesson6/data_cache.c:185-260 | a cache saved and loaded again has the same entries in the same order |
| DataCache.Drain | lesson6/mqtt_bridge.cpp:1310-1330 | the drain ends; each entry sent was looked for on a live connection and its publish worked, and the drain stopped because the cache was empty, the connection lost, or a publish failed; what was sent is the oldest part of the queue, in order, what is left is the rest, with an entry that failed behind it; with a lasting connection and working publishes all is sent |
| DataCache.SentIsSettled | lesson6/mqtt_bridge.cpp:1310-1330 | what is sent and why the drain stops is settled by what the looks and the publishes find |
| DataCache.StuckDrain | lesson6/mqtt_bridge.cpp:1310-1330 | the one case in which the drain need not end: an uninitialised cache with entries, which no turn of the loop changes |
| DataCache.PublishTelemetry | lesson6/mqtt_bridge.cpp:1308-1349 | the new report is then sent, or cached behind the rest, unless no entry can hold it |
| Base64.EncodeBase64 | lesson6/mqtt_bridge.cpp:75-101 | 4 * ceil(n / 3) characters, which are the encoding of section 4 of RFC 4648, and an end mark; or -1 with the output untouched |
| Base64.AlphabetIsTable | lesson6/mqtt_bridge.cpp:64-65 | the alphabet is that of table 1 of RFC 4648 |
| Base64.KnownEncodings | lesson6/mqtt_bridge.cpp:75-101 | the examples of section 10 of RFC 4648 for one, two and three bytes |
| Base64.DecodeEncode | lesson6/mqtt_bridge.cpp:64-101 | a decoder by that section gets every input back |
| Base64.EncodeDecode | lesson6/mqtt_bridge.cpp:64-101 | what the decoder takes is an encoding, so no two texts stand for the same bytes |
| Base64.EncodeThenDecode | lesson6/mqtt_bridge.cpp:75-101 | decoding what has been written to the output gives the input back |
| CloudAlerts.HandOff.Receive | cloud/mqtt_to_influxdb.py:225-238 | the new alert is pending, and one that still was is overwritten |
| CloudAlerts.HandOff.Take | cloud/mqtt_to_influxdb.py:121-126 | whoever takes the pending alert is the only one to hold it |
| CloudAlerts.HandOff.Send | cloud/mqtt_to_influxdb.py:126-127 | the alert taken is sent, or lost to an exception |
| CloudAlerts.HandOff.CheckSend | cloud/mqtt_to_influxdb.py:467-496 | an overdue alert is sent under the lock; after an exception it stays pending and the thread has ended |
| CloudAlerts.HandOff.Conserved | cloud/mqtt_to_influxdb.py:121-275 | in every interleaving each alert is sent at most once, and the alerts received are those sent, taken, lost, overwritten or pending |

## Left out

- Events: a mask is the set of its bits, not an integer.
- Times: exact reals, so that rounding in `ev_tstamp` and the branch of `periodic_recalc` for it do not occur; the 0.95 of the score is 19/20, truncated.
- Weak memory: the wake-up protocol is interleaved one shared access at a time; its fences are not modelled.
- WakeUp.NextKeeps: the tables of signals and asyncs do not change during a run, and the pipe stands for both the pipe and the eventfd.
- EventLoop.Loop.Turn: the watchers run before and after a poll, `idle_reify`, the choice of the waiting time and jumps of the clock within a turn are left out; `Loop.Reschedule` stands by itself. The wake-up pipe is a protocol of its own, in `WakeUp`.
- Timers.TimedLoop.Reify: timers and periodics are two objects of one class; reschedule callbacks are functions that return no time before the one given, as the library asserts.
- EventLoop.Loop.InvokePending: callbacks act by a finite script, so that a callback that feeds itself for ever is not covered; they call the functions of the loop, but do not themselves set the fields of watchers that are not started, nor create watchers that the loop did not have from the start, nor free any.
- FdTable.Table.FdReify: the head of an fd's list is kept in `FdLists`, beside the table; the Windows branches, `fd_ebadf`, `fd_enomem` and `fd_rearm_all` are left out.
- FdTable.ToldIff: that a kernel forgets an fd when its file is closed is not modelled; what is proved is that the backend is told of it when it is watched anew.
- Backends: what poll and select return is an argument of `FdEvent`; the epoll backend appears only as one that may give up an fd; words of the bitmaps have 64 bits.
- Sizes: array sizes and the product in `mempool_create` are assumed not to overflow; `MemTrack` and the message ids wrap around as in C.
- Null pointers: the functions that refuse them have no counterpart here.
- Compression.ShortHashesDiffer: longer messages are not covered, for their later blocks start from states that already differ.
- Filters.SlidingAverage.Sample: the retries of the DHT11 read, the light threshold and the pins are not modelled.
- FanRules.Fan.AutoControlSmoke: the photo, the camera vote it starts and the printed messages are left out, as is `auto_control_light_pir`.
- Gateway.Controller.FusionScore: the signals of one tick are a single number; the weights of the sensors, the hour of the day and the rates are not modelled.
- DataCache.Cache.Load: files break off between numbers and entries, not inside one.
- MsgQueue.Queue.Send: a call that waits is a chain of turns; `msgq_destroy` and allocation failures are left out, and a sender asleep when the queue is closed may still enqueue, as in the code.
- DataCache: the compression counters, `data_cache_clear` and locking are left out; `Drain` is for an initialised or empty cache, `StuckDrain` for any other.
- CloudAlerts: the images themselves and the text of the messages are left out; whether an alert is overdue is a parameter.
- MemPool.Pool.Free: pools are not destroyed, and the usage callback is not modelled.
- cJSON, configuration, logging, web sessions, masking, plugins, discovery, monitors, kernel drivers: plumbing around the core.
