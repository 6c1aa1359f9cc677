# Verified model of the muduo runtime and its Engine.IO layer

This project models the hard parts of a C++ Engine.IO server and of the muduo runtime it is built on, and proves what
they keep. Where the source changes state the model is a class or a method with loops, each proved equal to a step
function; the main results are lemmas about those functions, over every run. `dafny verify dfyconfig.toml` checks it all.

| files | what they model |
|---|---|
| `TimerEntries`, `TimerQueueSpec`, `TimerQueueProofs`, `TimerQueue` | the two timer sets, deferred cancellation, the arming of the timerfd |
| `CInt`, `Date`, `TimeZone` | day numbers, UTC fields, local time with daylight saving |
| `EventLoop`, `TcpConnection`, `Bytes`, `Buffer` | the wakeup protocol, the output stream under partial writes, the byte buffer |
| `AsyncLogging`, `BoundedBlockingQueue` | buffer recycling between threads, a condition-variable queue |
| `EngineSocket`, `EngineServer`, `EngineClient` | sessions: long polls, write buffering across an upgrade, the session map, and what the client reads |
| `Numerals`, `LogStream`, `Base64`, `Utf8`, `Payload`, `PollText` | integer printing, base64, the client's UTF-8, packets and payloads, text polls |
| `Options`, `Sequences` | shared definitions |

A concurrent component is a state machine whose steps are what one thread does while it holds a mutex (or one atomic
operation); a run is any list of events, and an event that is not possible in a state leaves it unchanged, so a
statement about all runs is one about all interleavings. Times are integer microseconds or seconds, addresses are
numbers that may be reused after `delete`, C++ division truncates (`CInt`), base64 works on `bv8` and UTF-8 on `bv32`.

## What the code does not do

Some properties one would expect are false of the code. Each is stated with the exact condition under which it holds.

- Local time: where clock changes are far enough apart, a time comes back exactly if it is not repeated, or clocks go back by exactly an hour out of daylight saving time (`LocalRoundTripExactly`, `HalfHourZone`, `StandardTimeBack`); where clocks alternate, exactly if they move by an hour or the time is not repeated (`LocalRoundTrip`).
- `tm_yday` is right exactly for years after -4800 (`YdayExact`); `weekDay` is in 0..6 exactly as `WeekDayRange` says.
- A cancellation is final exactly if the timer was active or in the running batch (`CancelExact`); one that runs before `addTimerInLoop` is lost (`CancelBeforeAddIsLost`).
- The loop never sleeps over work exactly if it is not entered with a functor queued that no wakeup covers (`NeverAsleepExactly`, `EarlyPushSleeps`); a quit lasts until `loop` returns exactly if it is requested inside `loop`, neither before the first call nor after a return (`QuitExact`, `EarlyQuitIsForgotten`, `LateQuitIsForgotten`).
- A connection with unsent output is always writing exactly if no state assignment of `shutdown` or `forceClose` comes after a close (`WritesExactly`, `RaceIsReachable`, `ShutdownRace`).
- After `stop`, everything accepted was written exactly if no pass over more than 25 buffers erased text and no line came after the last collection (`StopKeepsExactly`, `StopLosesExactly`, `StopLosesTail`).
- A queue gets stuck exactly if its capacity is 0 (`StuckIffNoCapacity`).
- Packets are stranded exactly by an upgrade packet that finds some buffered (`StrandedExactly`, `UpgradeStrandsMessage`); at the end of a run some are stranded exactly if no packet was created since such a promotion (`StrandedAtEndExactly`); a held poll can still be answered exactly until the first upgrade (`HeldPollExact`, `UpgradeAbandonsPoll`).
- A POST is served exactly if no poll is held (`PostServedExactly`).
- A handshake that is let through has sent its Open packet exactly if it was a plain request over long polling; it is still in the buffer exactly over a websocket; and none was created exactly if the request asked to upgrade to long polling, whose new transport throws for want of a flush callback (`HandshakeOpensExactly`, `PollingUpgradeThrows`).
- A text poll arrives exactly if all its texts are ASCII, because the server counts bytes and the client counts the units of `responseText` (`TextPollExact`, `OneAccentFails`); a binary poll arrives exactly if it holds one packet, and otherwise brings its last (`BinaryPayloadExact`, `BinaryPollLosesMessage`). `EveryDeliveryExact` says this of every delivery of every run.

## Model

| member | source | states |
|---|---|---|
| TimerQueueProofs.StepKeeps | lib/muduo/net/TimerQueue.cc:118-276 | every add, cancel, expiry, callback and reset keeps the invariant: both sets hold the same timers under their current expiration and sequence, each live timer is in one place, each created one is live or was deleted once, and outside `handleRead` the timerfd is armed in time |
| TimerQueueProofs.RunKeeps | lib/muduo/net/TimerQueue.cc:118-276 | the invariant holds after every run |
| TimerQueueProofs.EmptyQueueInv | lib/muduo/net/TimerQueue.cc:92-103 | a new queue satisfies the invariant |
| TimerQueueProofs.NothingRefused | lib/muduo/net/TimerQueue.cc:146-175 | under the invariant a cancellation, the end of a batch and the add of a pending timer are always possible steps |
| TimerQueueProofs.SizesAgree | lib/muduo/net/TimerQueue.cc:160-174 | the size asserts: the two sets are equally large |
| TimerQueueProofs.ExpiredExact | lib/muduo/net/TimerQueue.cc:198-218 | `getExpired` takes exactly the timers due, in order, and leaves exactly the later ones |
| TimerQueueProofs.StaleCancelIsInvisible | lib/muduo/net/TimerQueue.cc:157-175 | cancelling a timer that is gone changes no timer, set or deadline, now or in any continuation, whatever lives at its address |
| TimerQueueProofs.CancelIsFinal | lib/muduo/net/TimerQueue.cc:157-250 | a timer cancelled while active or in the running batch is never active again, and is deleted once no batch runs |
| TimerQueueProofs.CancelBeforeAddIsLost | lib/muduo/net/TimerQueue.cc:140-175 | a timer not yet added escapes its cancellation |
| TimerQueueProofs.CancelExact | lib/muduo/net/TimerQueue.cc:157-175 | a cancellation of a live timer is final if and only if it was active or in the running batch |
| TimerQueueProofs.BatchOutcome | lib/muduo/net/TimerQueue.cc:220-250 | at the end of a batch a timer is armed again one interval later if it repeats and was not cancelled, deleted otherwise; all others are as they were |
| TimerQueueProofs.WholeBatch | lib/muduo/net/TimerQueue.cc:177-250 | a whole `handleRead`, from the state before it and its callbacks' events: an active timer is active afterwards if and only if no callback cancels it and it was not due or repeats; due, it is armed one interval after the time of the call; otherwise it has been deleted |
| TimerQueueProofs.TimerFires | lib/muduo/net/TimerQueue.cc:177-250 | every active timer is taken by the next `handleRead` once it is due, and is armed again one interval later exactly if it repeats |
| TimerQueueProofs.AddedTimer | lib/muduo/net/TimerQueue.cc:118-155 | a timer added for a time is active at exactly that time under the next sequence number, and repeats if and only if its interval is positive |
| TimerQueueProofs.IntervalExact | lib/muduo/base/Timestamp.h:109-113 | an interval in seconds is counted in microseconds, rounded toward zero |
| TimerQueueProofs.ReadKeepsDeadline | lib/muduo/net/TimerQueue.cc:58-67 | reading the timerfd takes its deadline exactly if it has been reached |
| TimerQueueProofs.DueTimerIsServed | lib/muduo/net/TimerQueue.cc:42-82 | once the first timer is due and 100 microseconds have passed since arming, the timerfd is readable, so `handleRead` can run |
| TimerQueues.TimerQueue.constructor | lib/muduo/net/TimerQueue.cc:92-103 | an empty queue that satisfies the invariant |
| TimerQueues.TimerQueue.AddTimer | lib/muduo/net/TimerQueue.cc:118-126 | allocates the timer with the next sequence number, pending its insertion |
| TimerQueues.TimerQueue.ResetTimerfd | lib/muduo/net/TimerQueue.cc:69-82 | the deadline is at least 100 microseconds ahead, not before the expiration, and one of the two |
| TimerQueues.TimerQueue.InsertTimer | lib/muduo/net/TimerQueue.cc:252-276 | neither set had the timer, so both insert asserts hold; it is in both, and the result says whether the earliest expiration changed |
| TimerQueues.TimerQueue.AddTimerInLoop | lib/muduo/net/TimerQueue.cc:146-155 | inserts, arms when the timer is the earliest, and keeps the invariant |
| TimerQueues.TimerQueue.CancelInLoop | lib/muduo/net/TimerQueue.cc:157-175 | erases and deletes an active timer, with the erase assert proved, notes another for the running batch, and keeps the invariant |
| TimerQueues.TimerQueue.GetExpired | lib/muduo/net/TimerQueue.cc:198-218 | moves the due timers of both sets into the batch |
| TimerQueues.TimerQueue.ResetTimer | lib/muduo/net/TimerQueue.cc:224-239 | one turn of the loop in `reset` |
| TimerQueues.TimerQueue.Reset | lib/muduo/net/TimerQueue.cc:220-250 | the whole batch re-armed or deleted, and the timerfd armed for the first timer left |
| TimerQueues.TimerQueue.RunCallback | lib/muduo/net/TimerQueue.cc:188-192 | what a callback adds and cancels leaves the batch and the invariant intact |
| TimerQueues.TimerQueue.HandleRead | lib/muduo/net/TimerQueue.cc:177-196 | the batch, its callbacks in order, the reset; the invariant holds again |
| Dates.DateRoundTrip | lib/muduo/base/Date.cc:20-42 | every date from 1 March -4800 on survives the trip through its day number |
| Dates.DayNumberRoundTrip | lib/muduo/base/Date.cc:20-42 | every day number from -32044 on names a valid date that maps back to it |
| Dates.NextDayNumber | lib/muduo/base/Date.cc:20-27 | the calendar's next day has the next number |
| Dates.NextDate | lib/muduo/base/Date.cc:29-42 | the next number names the calendar's next day |
| Dates.DayNumberOrder | lib/muduo/base/Date.h:107-110 | comparing day numbers compares dates |
| Dates.GregorianCycle | lib/muduo/base/Date.cc:20-27 | 400 years are 146097 days |
| Dates.UnixEpoch | lib/muduo/base/Date.cc:44 | 1 January 1970 is day 2440588, a Thursday |
| Dates.WeekDayRange | lib/muduo/base/Date.h:96-99 | `weekDay` is in 0..6 if and only if the day is not before -1 or is a multiple of 7 days away from it; from there on it advances by one modulo 7 |
| Dates.NoOverflow | lib/muduo/base/Date.cc:20-42 | up to the year 1400000 every product and sum of both conversions fits 32 bits |
| TimeZones.UtcEpoch | lib/muduo/base/TimeZone.cc:317-358 | second 0 is midnight of Thursday, 1 January 1970, in both directions |
| TimeZones.UtcTicks | lib/muduo/base/TimeZone.cc:317-358 | from one second to the next both conversions follow the calendar and the clock, the date changing to the calendar's next day at midnight and the weekday with it |
| TimeZones.UtcRoundTrip | lib/muduo/base/TimeZone.cc:317-358 | every time in range survives the trip through UTC fields, which are valid |
| TimeZones.UtcFieldsRoundTrip | lib/muduo/base/TimeZone.cc:317-358 | every valid date and time of day survives the opposite trip |
| TimeZones.OrdinalInYear | lib/muduo/base/TimeZone.cc:337-341 | the distance from 1 January is the ordinal of the day in its year, except in the year -4800 |
| TimeZones.YdayExact | lib/muduo/base/TimeZone.cc:317-343 | the requested `tm_yday` is the ordinal if and only if the year is after -4800 |
| TimeZones.LowerBound | lib/muduo/base/TimeZone.cc:229-232 | the binary search returns the first position not before the sentry |
| TimeZones.LastIsUnique | lib/muduo/base/TimeZone.cc:218-250 | the last transition not after the sentry is the only one between its neighbours |
| TimeZones.FindLocaltime | lib/muduo/base/TimeZone.cc:218-250 | the search equals the linear definition: the type of the last transition not after the sentry, or the first type |
| TimeZones.ToLocalTime | lib/muduo/base/TimeZone.cc:272-292 | the UTC fields of the shifted time, with the zone's flag, offset and abbreviation |
| TimeZones.FromLocalTime | lib/muduo/base/TimeZone.cc:294-315 | the local lookup with its one-hour correction |
| TimeZones.LocalRoundTripSorted | lib/muduo/base/TimeZone.cc:218-315 | where both keys of the transitions are sorted, what comes back by the type found by the local time |
| TimeZones.LocalRoundTripSpaced | lib/muduo/base/TimeZone.cc:218-315 | where every type lasts longer than clocks go back around it, only a repeated time moves: later by as much as clocks go back, less the hour taken off out of daylight saving time |
| TimeZones.LocalRoundTripExactly | lib/muduo/base/TimeZone.cc:218-315 | so a time comes back if and only if it is not repeated, or clocks go back by exactly an hour out of daylight saving time |
| TimeZones.LocalShows | lib/muduo/base/TimeZone.cc:272-292 | the fields show the time shifted by the offset of the type in force, and name that type |
| TimeZones.SkippedExactly | lib/muduo/base/TimeZone.cc:294-315 | a local time is skipped by a change of clocks if and only if no clock ever shows it |
| TimeZones.FromLocalExactly | lib/muduo/base/TimeZone.cc:294-315 | any valid fields, whatever their flag: a local time that clocks show is taken for a time at which they do, an hour earlier if the flag is set and that time is standard; a skipped one with the flag clear is read by the clock before the change |
| TimeZones.LocalRoundTripExact | lib/muduo/base/TimeZone.cc:272-315 | for alternating zones with any shift, the round trip is off by `shift - 3600` in repeated time and by nothing elsewhere |
| TimeZones.LocalRoundTrip | lib/muduo/base/TimeZone.cc:272-315 | it returns the time if and only if the shift is an hour or the time is not repeated |
| TimeZones.StandardTimeBack | lib/muduo/base/TimeZone.cc:303-312 | a zone without daylight saving time that loses an hour |
| TimeZones.HalfHourZone | lib/muduo/base/TimeZone.cc:303-312 | a half-hour zone that loses 1800 seconds |
| EventLoops.StepKeepsWakeup | lib/muduo/net/EventLoop.cc:102-308 | a step keeps the wakeup invariant if and only if it is not a push by the loop's thread outside `loop` that no wakeup covers |
| EventLoops.WakeupKeptExactly | lib/muduo/net/EventLoop.cc:102-308 | the invariant holds at every point of a run if and only if the run has no such push |
| EventLoops.NeverAsleepExactly | lib/muduo/net/EventLoop.cc:102-308 | at no point of a run is the loop in poll with a functor pending or a quit requested and nothing to wake it, if and only if `loop` is never called, for the first time or again, with an uncovered functor |
| EventLoops.WakeupIsNeverLost | lib/muduo/net/EventLoop.cc:102-308 | in those runs, with work to do in poll, the eventfd count is positive or a thread is about to write it |
| EventLoops.EarlyPushSleeps | lib/muduo/net/EventLoop.cc:160-171 | the smallest run that sleeps over a functor |
| EventLoops.QuitExact | lib/muduo/net/EventLoop.cc:102-146 | a call of `quit`, on any thread, is remembered in every continuation until `loop` has returned once more, if and only if the loop's thread is inside `loop` when it is made |
| EventLoops.QuitEndsIteration | lib/muduo/net/EventLoop.cc:110-130 | after a call of `quit` inside `loop`, in every continuation, the end of the batch is its return, and poll is not called before |
| EventLoops.ExitExact | lib/muduo/net/EventLoop.cc:102-146 | `loop` returns only at the end of a batch, and only if some call of `quit` came since it was entered |
| EventLoops.WholeIteration | lib/muduo/net/EventLoop.cc:110-130 | from one poll to the next every pending functor runs, in order, the wakeup is consumed, and the loop polls again unless a quit was requested |
| EventLoops.EarlyQuitIsForgotten | lib/muduo/net/EventLoop.cc:106-107 | a run in which `quit` before `loop` is forgotten |
| EventLoops.LateQuitIsForgotten | lib/muduo/net/EventLoop.cc:102-146 | after any return of `loop`, a quit before its next call is forgotten |
| EventLoops.LoopReturns | lib/muduo/net/EventLoop.cc:102-146 | a run in which `loop` returns |
| EventLoops.FunctorsRunInOrder | lib/muduo/net/EventLoop.cc:160-171 | exactly the functors that were pushed run, once each, in push order, each in the batch after the one it was pushed in |
| EventLoops.EventLoop.QueueInLoop | lib/muduo/net/EventLoop.cc:160-171 | a push and, when it is needed, a wakeup |
| EventLoops.EventLoop.HandleRead | lib/muduo/net/EventLoop.cc:283-291 | the eventfd is empty and the batch comes next, so draining it loses no wakeup: the invariant and the order are kept |
| EventLoops.EventLoop.DoPendingFunctors | lib/muduo/net/EventLoop.cc:293-308 | runs exactly the functors pending at its start, in order; what they and other threads queue meanwhile stays pending, in order, with the eventfd readable |
| TcpConnections.StreamIsConserved | lib/muduo/net/TcpConnection.cc:139-213 | over every run, bytes accepted then the output buffer are the messages that hit no fault, in order |
| TcpConnections.StepWrites | lib/muduo/net/TcpConnection.cc:139-428 | a step keeps "a connection with unsent output is writing" if and only if it is not the state set of `shutdown` or `forceClose` after a close with unsent output |
| TcpConnections.WritingIffOutput | lib/muduo/net/TcpConnection.cc:139-428 | without that race, while not disconnected, writing holds exactly when output is not empty, and `shutdownWrite` only sees empty output |
| TcpConnections.WritesExactly | lib/muduo/net/TcpConnection.cc:139-428 | unsent output is always being written at every point of a run if and only if no state assignment loses its race |
| TcpConnections.RaceIsReachable | lib/muduo/net/TcpConnection.cc:194-203 | a new connection can come to the state in which the race starts |
| TcpConnections.ShutdownRace | lib/muduo/net/TcpConnection.cc:194-213 | the race itself, ending in `shutdownWrite` with output left |
| TcpConnections.HighWaterExact | lib/muduo/net/TcpConnection.cc:177-186 | the high-water notice comes exactly when the backlog crosses the mark upward, with the new backlog |
| TcpConnections.WriteCompleteExact | lib/muduo/net/TcpConnection.cc:153-160 | the write-complete notice comes exactly when a successful write leaves nothing to send |
| TcpConnections.ShutdownExact | lib/muduo/net/TcpConnection.cc:205-213 | the write side is shut exactly by the queued `shutdownInLoop` when not writing, or by the write that takes the last output in kDisconnecting; with the state and the output then |
| TcpConnections.PendingShutdown | lib/muduo/net/TcpConnection.cc:368-406 | a shutdown waiting for output: over any writes and messages the write side has been shut if and only if the output was emptied at some point |
| TcpConnections.ShutdownCompletes | lib/muduo/net/TcpConnection.cc:368-406 | the write that takes all output completes it |
| TcpConnections.AcceptedExact | lib/muduo/net/TcpConnection.cc:139-192 | the kernel is given bytes exactly when write(2) is called, and as many as it took |
| TcpConnections.LoggedExact | lib/muduo/net/TcpConnection.cc:139-192 | a message is on record exactly if it came while not disconnected, and lost exactly if its direct write hit EPIPE or ECONNRESET |
| TcpConnections.StateExact | lib/muduo/net/TcpConnection.cc:194-428 | which events lead to each state, and which threads are between test and assignment |
| TcpConnections.TcpConnection.SendInLoop | lib/muduo/net/TcpConnection.cc:139-192 | a direct write if nothing is queued, the rest buffered, and writing enabled |
| TcpConnections.TcpConnection.ShutdownInLoop | lib/muduo/net/TcpConnection.cc:205-213 | shuts the write side unless writing |
| TcpConnections.TcpConnection.HandleWrite | lib/muduo/net/TcpConnection.cc:368-406 | drops what was written; when all is, stops writing and completes a pending shutdown |
| TcpConnections.TcpConnection.HandleClose | lib/muduo/net/TcpConnection.cc:408-428 | disconnected and not writing |
| Bytes.IntRoundTrip | lib/muduo/net/Buffer.h:224-249 | any signed integer of n bytes survives network byte order |
| Bytes.BytesRoundTrip | lib/muduo/net/Buffer.h:290-322 | any n bytes are the encoding of the integer read from them |
| Bytes.MostSignificantFirst | lib/muduo/net/Buffer.h:224-249 | network order: the first byte is the most significant |
| Bytes.SignExact | lib/muduo/net/Buffer.h:290-322 | two's complement: the first bit takes the range off |
| Buffers.Buffer.Retrieve | lib/muduo/net/Buffer.h:113-124 | drops a prefix |
| Buffers.Buffer.RetrieveAsString | lib/muduo/net/Buffer.h:164-170 | returns the prefix it drops |
| Buffers.Buffer.Unwrite | lib/muduo/net/Buffer.h:215-219 | drops a suffix |
| Buffers.Buffer.MakeSpace | lib/muduo/net/Buffer.h:390-409 | makes room and keeps the content; on the compaction branch the reader is past the reserve |
| Buffers.Buffer.EnsureWritableBytes | lib/muduo/net/Buffer.h:194-201 | room for the bytes, content kept |
| Buffers.Buffer.Append | lib/muduo/net/Buffer.h:182-187 | adds at the end |
| Buffers.Buffer.Prepend | lib/muduo/net/Buffer.h:354-360 | adds at the front |
| Buffers.Buffer.Swap | lib/muduo/net/Buffer.h:61-66 | exchanges storage and indices |
| Buffers.Buffer.Shrink | lib/muduo/net/Buffer.h:362-369 | fresh storage with the reserve, content kept |
| Buffers.Buffer.ReadFd | lib/muduo/net/Buffer.cc:25-57 | adds at the end whatever was read into the buffer and the overflow area |
| Buffers.Buffer.AppendInt | lib/muduo/net/Buffer.h:224-249 | adds an integer at the end in network byte order |
| Buffers.Buffer.PrependInt | lib/muduo/net/Buffer.h:328-352 | adds an integer at the front |
| Buffers.Buffer.PeekInt | lib/muduo/net/Buffer.h:290-322 | reads the integer at the front |
| Buffers.Buffer.ReadInt | lib/muduo/net/Buffer.h:254-284 | reads and drops it |
| Buffers.ReadBack | lib/muduo/net/Buffer.h:224-322 | an integer written in front of anything is read back from it |
| Buffers.ReadInts | lib/muduo/net/Buffer.h:254-284 | any list of integers of mixed widths is read back in order, leaving the rest |
| Buffers.RunOps | lib/muduo/net/Buffer.h:113-409 | over any run of operations the buffer is the byte sequence the same operations give |
| AsyncLoggings.RecyclingNeverFails | lib/muduo/base/AsyncLogging.cc:53-128 | over every run, `nextBuffer_` or a queued buffer is there under the mutex, both spare buffers are empty at the top of the loop, and both `pop_back`s find one |
| AsyncLoggings.LogIsAccounted | lib/muduo/base/AsyncLogging.cc:29-128 | text written, text dropped and buffers unwritten are the accepted lines in order; without drops the file and the buffers are |
| AsyncLoggings.DropsExactly | lib/muduo/base/AsyncLogging.cc:87-96 | text is dropped exactly by a pass over more than 25 buffers |
| AsyncLoggings.NothingIsLost | lib/muduo/base/AsyncLogging.cc:29-128 | as long as no pass finds more than 25 buffers, the file and the unwritten buffers are the accepted lines |
| AsyncLoggings.StopLosesExactly | lib/muduo/base/AsyncLogging.cc:64-127 | in such a run that has left the loop, the file lacks exactly the lines appended after the last collection, and nothing if and only if there were none |
| AsyncLoggings.StopKeepsExactly | lib/muduo/base/AsyncLogging.cc:64-127 | in every run that has left the loop, all accepted text was written if and only if no pass erased text and no non-empty line came after the last collection |
| AsyncLoggings.StopLosesTail | lib/muduo/base/AsyncLogging.cc:64-127 | a line appended before `stop` need not reach the file |
| AsyncLoggings.AppendExact | lib/muduo/base/AsyncLogging.cc:29-51 | a line goes into the current buffer exactly if that leaves a character unused; otherwise that buffer is queued as it is and the next one takes its place |
| AsyncLoggings.BuffersNeverFull | lib/muduo/base/AsyncLogging.cc:29-128 | over every run each buffer has a character unused |
| AsyncLoggings.OnePass | lib/muduo/base/AsyncLogging.cc:64-126 | one pass writes all buffers it finds, or of more than 25 a notice and the first two, and leaves the front end empty and itself ready for the next |
| AsyncLoggings.AsyncLogging.AppendLine | lib/muduo/base/AsyncLogging.cc:29-51 | accepts the line in the current or the next buffer; one as long as a buffer is lost |
| AsyncLoggings.AsyncLogging.TakeBatch | lib/muduo/base/AsyncLogging.cc:70-85 | takes all buffers, leaving a spare current and a spare next one |
| AsyncLoggings.AsyncLogging.WriteOut | lib/muduo/base/AsyncLogging.cc:87-108 | writes the batch, or its notice and first two buffers |
| AsyncLoggings.AsyncLogging.Refill | lib/muduo/base/AsyncLogging.cc:110-124 | both spare buffers are there again, empty |
| AsyncLoggings.AsyncLogging.ThreadFunc | lib/muduo/base/AsyncLogging.cc:53-128 | any number of passes until `stop`, with appends anywhere: the account is kept, and what is left in the buffers is exactly what was appended after the last collection |
| BoundedBlockingQueues.QueueIsSound | lib/muduo/base/BoundedBlockingQueue.h:31-55 | over every run: at most capacity elements, taken in the order put, every call accounted for; if a taker waits, elements are at most the awakened takers, and likewise for putters and free space |
| BoundedBlockingQueues.NeverStuck | lib/muduo/base/BoundedBlockingQueue.h:31-55 | with room for one element, putters and takers never wait at once with nobody awakened |
| BoundedBlockingQueues.ZeroCapacityStuck | lib/muduo/base/BoundedBlockingQueue.h:23-41 | with capacity 0 a putter and a taker wait for each other |
| BoundedBlockingQueues.StuckIffNoCapacity | lib/muduo/base/BoundedBlockingQueue.h:31-55 | a queue never gets stuck that way, in any run, if and only if its capacity is at least 1 |
| BoundedBlockingQueues.SpuriousProceeds | lib/muduo/base/BoundedBlockingQueue.h:31-55 | a thread that wakes up spuriously may proceed like a signalled one |
| BoundedBlockingQueues.BoundedBlockingQueue.Put | lib/muduo/base/BoundedBlockingQueue.h:31-41 | adds at the end and notifies, or waits when full |
| BoundedBlockingQueues.BoundedBlockingQueue.RePut | lib/muduo/base/BoundedBlockingQueue.h:34-41 | the same after waking |
| BoundedBlockingQueues.BoundedBlockingQueue.Take | lib/muduo/base/BoundedBlockingQueue.h:43-55 | removes the first and notifies, or waits when empty |
| BoundedBlockingQueues.BoundedBlockingQueue.ReTake | lib/muduo/base/BoundedBlockingQueue.h:46-55 | the same after waking |
| EngineSockets.PacketsAreConserved | engineio/socket.cc:54-154 | over every run and any upgrades, packets handed to transports by `Flush` then the write buffer are the packets created, in order |
| EngineSockets.PollsAreAnsweredOnce | engineio/transports/polling.cc:35-50 | accepted polls are answered at most once, in order, all but one held; the transport is writable exactly while that one is held |
| EngineSockets.WebsocketStaysWritable | engineio/transports/websocket.cc:44-56 | a websocket that became the transport is always writable; the socket never leaves its opening state, so `ForceClose` does nothing |
| EngineSockets.HandshakeAnswersOpen | engineio/server.cc:58-102 | the poll of the handshake is answered with the Open packet alone |
| EngineSockets.OpenComesFirst | engineio/server.cc:87-97 | whatever follows, that is the first thing handed to a transport |
| EngineSockets.OpenIsFlushedFirst | engineio/server.cc:86-97 | over a websocket the Open packet is the first flushed, and nothing is before the client's upgrade packet |
| EngineSockets.StepExact | engineio/socket.cc:35-154 | what every event creates and delivers: an answer to a probe past the buffer; and, when a packet is created on a writable transport or a poll is accepted, all that waits in one delivery that answers the poll held |
| EngineSockets.StrandedExactly | engineio/socket.cc:66-70 | packets become stranded on a writable transport exactly when an upgrade packet promotes a websocket with some buffered |
| EngineSockets.StrandedUntilNextPacket | engineio/socket.cc:125-154 | stranded packets stay until the next packet is created, and leave in front of it |
| EngineSockets.StrandedAtEndExactly | engineio/socket.cc:54-154 | over every run, packets are stranded at its end if and only if some promotion found packets buffered and no packet was created since |
| EngineSockets.NeverStrandedWithoutUpgrade | engineio/socket.cc:125-154 | without an upgrade packet nothing is ever stranded |
| EngineSockets.UpgradeStrandsMessage | engineio/socket.cc:54-95 | the usual upgrade strands a message sent between polls, and the Noop |
| EngineSockets.PingFreesMessage | engineio/socket.cc:125-154 | the next ping on the new transport brings stranded packets in front of its pong |
| EngineSockets.HeldPollIsAbandoned | engineio/socket.cc:66-70 | after an upgrade a held poll is held, and the answered polls are the same, in every continuation |
| EngineSockets.HeldPollExact | engineio/socket.cc:66-70 | a held poll can still be answered in some continuation if and only if no websocket has become the transport |
| EngineSockets.UpgradeAbandonsPoll | engineio/socket.cc:54-95 | a run that holds such a poll when the upgrade packet comes |
| EngineSockets.PostServedExactly | engineio/transports/polling.cc:52-69 | a POST is answered 200 if and only if every accepted poll has been answered |
| EngineSockets.UpgradesExact | engineio/socket.cc:77-95 | what each upgrade request adds |
| EngineSockets.SharedTypes | engineio/packet.h:6-17 | server and client number the packet types alike, and the server accepts exactly those of the client |
| EngineSockets.PollingUpgradeThrows | engineio/socket.cc:77-95 | an upgrade to long polling throws if and only if it is a GET: its poll triggers a flush callback that is set only by `SetTransport` |
| EngineSockets.PollingXhrTransport.HandlePollRequest | engineio/transports/polling.cc:35-50 | stores the poll, or answers 500 when one is held |
| EngineSockets.PollingXhrTransport.HandleDataRequest | engineio/transports/polling.cc:52-69 | answers 200 with its body, or 500 when a poll is held, and leaves the slot as it was |
| EngineSockets.PollingXhrTransport.DoWrite | engineio/transports/polling_xhr.cc:8-20 | ends the stored response with the data and releases the poll |
| EngineSockets.PollingXhrTransport.SendPackets | engineio/transports/polling.cc:9-14 | answers the held poll with the payload in the client's form and its content type; not writable afterwards |
| EngineSockets.WebsocketTransport.HandleRequest | engineio/transports/websocket.cc:18-42 | writable after a successful upgrade, 400 otherwise |
| EngineSockets.WebsocketTransport.SendPackets | engineio/transports/websocket.cc:44-56 | one message a packet, in order; writable afterwards unless there were none |
| EngineSockets.Socket.constructor | engineio/socket.cc:8-15 | a session on its first transport, satisfying the invariant |
| EngineSockets.Socket.Flush | engineio/socket.cc:141-154 | afterwards nothing is buffered or the transport is not writable; what went out and what is buffered are together what they were, and the session's invariant is kept |
| EngineSockets.Socket.CreateAndSendPacket | engineio/socket.cc:125-139 | exactly a packet of a known type joins the account, and none waits for a writable transport; the invariant is kept |
| EngineSockets.Socket.HandlePollRequest | engineio/transports/polling.cc:35-50 | accepted exactly if none is held; then the buffer is empty, and the poll is held exactly if it was empty before; the invariant is kept |
| EngineSockets.Socket.MaybeUpgrade | engineio/socket.cc:77-95 | the session's transport stays; the new one is writable exactly if its handshake succeeded, and its packets go to the upgrade handler; the invariant is kept |
| EngineSockets.Socket.SetTransport | engineio/socket.cc:28-33 | packets of that transport now go to `OnPacket` and its flushes to `Flush`, and nothing else of any transport changes |
| EngineSockets.Socket.OnPacketWhenUpgrading | engineio/socket.cc:54-75 | a probe creates one Noop, leaves nothing waiting and no poll held; the upgrade packet moves to a writable transport and no packet; the invariant is kept |
| EngineSockets.Socket.OnPacket | engineio/socket.cc:35-52 | each ping creates one pong and leaves nothing waiting; other packets change nothing while the session is opening |
| EngineClients.DeliveryExact | example/chat/static/engine.io.js:1543-1570 | of any texts: websocket messages are read as them, a text poll if and only if all is ASCII, a binary poll if and only if it is one packet; any binary poll is read as its last packet |
| EngineClients.EveryDeliveryExact | engineio/socket.cc:125-154 | that, of every delivery of every run, whatever upgrades happen, in the payload form of the session's handshake |
| EngineClients.ClientReceivesInOrder | engineio/socket.cc:125-154 | when every delivery arrives whole, the client gets exactly the texts created, in order, up to those still buffered |
| EngineClients.BinaryPollLosesMessage | engineio/parser.cc:70-87 | a run in which a binary poll of two messages brings the second |
| EngineClients.SameReading | example/chat/static/engine.io.js:3188-3213 | a websocket message is read like one of a text payload |
| EngineServers.EverySessionIsKept | engineio/server.cc:30-176 | in every run of a new server each session conserves its packets, pairs its polls and, unless its handshake threw, began with an Open packet |
| EngineServers.HandshakeOpensExactly | engineio/server.cc:58-102 | after an admitted handshake: the Open packet was sent if and only if it was a plain request over long polling, is buffered if and only if over a websocket, and was not created if and only if it asked to upgrade to long polling; the payload form is set by `b64` |
| EngineServers.ThrowsExactly | engineio/socket.cc:17-26 | a request makes a session throw if and only if it is a GET for an upgrade to long polling |
| EngineServers.PollReachesItsSession | engineio/server.cc:44-56 | a poll let through is answered with everything buffered, held, or refused because one is held |
| EngineServers.OtherRequestsExact | engineio/socket.cc:17-26 | every other request let through: a plain POST is answered at once, 200 if no poll is held, and changes nothing else; other plain requests change nothing; a websocket upgrade adds a transport writable exactly if its handshake succeeded; one to long polling adds a transport, or throws and changes nothing |
| EngineServers.EngineServer.VerifyRequest | engineio/server.cc:116-146 | the first applicable error is answered |
| EngineServers.EngineServer.HandleRequest | engineio/server.cc:30-102 | the session a verified request names is always in the map; a handshake adds one |
| EngineServers.EngineServer.OnSocketClose | engineio/server.cc:171-175 | removes the session |
| EngineServers.RefusedExactly | engineio/server.cc:116-146 | which error a request is refused with, for each of the four, if and only if; a refusal changes no session |
| EngineServers.SessionsAreIsolated | engineio/server.cc:30-176 | an event changes no session but the one it addresses |
| Payloads.PacketRoundTrip | engineio/parser.cc:8-54 | decoding an encoded packet into a fresh one restores type and data |
| Payloads.DecodePacketExact | engineio/parser.cc:8-27 | a non-empty message is accepted if and only if it encodes some packet, which it then gives; one without data leaves the data as they were, and a refused one changes nothing |
| Payloads.SamplePayloads | engineio/parser.cc:56-87 | two packets on the wire as text and as bytes |
| Payloads.FramingExact | engineio/parser.cc:56-68 | every text payload is split by the client into exactly the encoded packets, whatever digits and colons they contain |
| Payloads.PayloadInjective | engineio/parser.cc:56-68 | different packet lists have different payloads |
| Payloads.SplitExact | example/chat/static/engine.io.js:3325-3385 | the client finds no framing error in a string if and only if it is made of frames, and then reports exactly their non-empty messages |
| Payloads.PayloadErrors | example/chat/static/engine.io.js:3325-3385 | an error is reported exactly for an empty string, broken framing or a message that does not parse |
| Payloads.DeliverExact | example/chat/static/engine.io.js:3350-3375 | the callback gets the messages up to the first that does not parse |
| Payloads.ClientReadsExactly | example/chat/static/engine.io.js:3188-3213 | of any bytes, base64 messages aside, the client reads a message exactly if they encode some well-formed text packet |
| Payloads.PayloadDelivers | example/chat/static/engine.io.js:3325-3385 | read with one unit a byte, for well-formed texts, the client's callback gets exactly the types and texts, in order, and no error |
| Payloads.BinaryLastArrives | engineio/parser.cc:70-87 | of a binary payload the client gets the last packet |
| Payloads.BinaryPayloadExact | engineio/parser.cc:70-87 | it gets all packets if and only if there is at most one |
| Payloads.EncodePayloadLoop | engineio/parser.cc:56-68 | the loop computes the framing |
| Payloads.EncodePayloadAsBinaryLoop | engineio/parser.cc:70-87 | the loop keeps the frame of the last packet |
| Payloads.DecodePayloadLoop | example/chat/static/engine.io.js:3325-3385 | the loop delivers the packets before the first error, and whether there was one |
| PollTexts.BodyIsText | engineio/transports/polling_xhr.cc:8-20 | the browser decodes the body of a text poll into the byte lengths, the types and the texts |
| PollTexts.TextPollExact | example/chat/static/engine.io.js:3325-3385 | the client of a text poll gets exactly the types and texts if and only if all texts are ASCII |
| PollTexts.OneAccentFails | example/chat/static/engine.io.js:3350-3360 | a body with one letter beyond ASCII is an error |
| Numerals.NumeralIsCanonical | lib/muduo/base/LogStream.cc:34-73 | the numeral of a number has no leading zero and that value, in base ten or sixteen |
| Numerals.CanonicalIsNumeral | lib/muduo/base/LogStream.cc:34-73 | and is the only such text |
| Numerals.NumeralLength | lib/muduo/base/LogStream.cc:34-73 | it has at most k digits if and only if the number is below the k-th power of the base |
| Numerals.DigitChars | lib/muduo/base/LogStream.cc:30 | the sixteen digits |
| Numerals.DecimalRoundTrip | lib/muduo/base/LogStream.cc:34-55 | the decimal text is canonical and parses back |
| Numerals.CanonicalDecimalRoundTrip | lib/muduo/base/LogStream.cc:34-55 | every canonical text is that of its value |
| Numerals.TextFits | lib/muduo/base/LogStream.cc:106-114 | any signed or unsigned 64-bit value takes at most 20 characters, 16 in hexadecimal |
| LogStreams.ZeroTable | lib/muduo/base/LogStream.cc:26-28 | the table gives the digit of a remainder of either sign |
| LogStreams.ReverseRange | lib/muduo/base/LogStream.cc:52 | reverses the range in place and nothing else |
| LogStreams.Convert | lib/muduo/base/LogStream.cc:34-55 | writes exactly the decimal text and its terminator, the most negative value included |
| LogStreams.ConvertHex | lib/muduo/base/LogStream.cc:57-73 | writes exactly the hexadecimal text and its terminator |
| LogStreams.FixedBuffer.Append | lib/muduo/base/LogStream.h:37-45 | adds the text if strictly more room is left |
| LogStreams.FixedBuffer.DebugString | lib/muduo/base/LogStream.cc:81-86 | terminates inside the buffer and returns the content |
| LogStreams.LogStream.FormatInteger | lib/muduo/base/LogStream.cc:106-114 | adds the decimal text if 32 bytes are left, and stays inside the buffer |
| LogStreams.LogStream.FormatPointer | lib/muduo/base/LogStream.cc:164-176 | the same for a pointer |
| LogStreams.LogStream.InsertAll | lib/muduo/base/LogStream.h:84-160 | any sequence of insertions of numbers, pointers, doubles and strings stays inside the buffer and adds the texts that fit |
| LogStreams.InsertedInteger | lib/muduo/base/LogStream.cc:106-114 | with 32 bytes left, what is added parses back to the value |
| LogStreams.InsertedExactly | lib/muduo/base/LogStream.cc:106-114 | an insertion adds the whole text or nothing: a number exactly if 32 of the 4000 characters are free, a string exactly if it leaves one free |
| Base64.RoundTrip | lib/woody/base/ssl_util.cc:23-104 | decoding an encoded string returns it, for every byte string |
| Base64.EncodeCanonical | lib/woody/base/ssl_util.cc:23-63 | encodings are canonical in the sense of section 4 of RFC 4648 |
| Base64.CanonicalExact | lib/woody/base/ssl_util.cc:23-104 | encoding a decoded string returns it if and only if it is canonical |
| Base64.DecodeBits | lib/woody/base/ssl_util.cc:65-104 | decoding any string at all takes whole bytes of the bits of its leading alphabet characters |
| Base64.PrefixExact | lib/woody/base/ssl_util.cc:73 | those are the characters before the first one outside the alphabet |
| Base64.AlphabetExact | lib/woody/base/ssl_util.cc:9-16 | the alphabet of Table 1 of RFC 4648, and `find` as its inverse |
| Base64.EncodedLength | lib/woody/base/ssl_util.cc:44-60 | the length is 4 times the number of groups, and the padding is exactly the missing bytes |
| Base64.EncodeGroup | lib/woody/base/ssl_util.cc:33-36 | three bytes to four six-bit values |
| Base64.Base64Encode | lib/woody/base/ssl_util.cc:23-63 | the loop over the fixed arrays computes the encoding |
| Base64.EncodeTail | lib/woody/base/ssl_util.cc:44-60 | the partial group |
| Base64.DecodeGroup | lib/woody/base/ssl_util.cc:76-81 | four characters to three bytes |
| Base64.Base64Decode | lib/woody/base/ssl_util.cc:65-104 | the loop decodes up to the first character outside the alphabet |
| Base64.DecodeTail | lib/woody/base/ssl_util.cc:89-101 | the partial group, where `find` of a zero byte is 255 |
| Utf8.Ucs2RoundTrip | example/chat/static/engine.io.js:3949-3991 | code points of any 16-bit string give it back, lone surrogates included |
| Utf8.PointsRoundTrip | example/chat/static/engine.io.js:3949-3991 | scalar values survive the opposite trip through a well-formed string |
| Utf8.EncodeDecode | example/chat/static/engine.io.js:4007-4136 | a 16-bit string can be encoded if and only if it is well formed, and then decodes to itself |
| Utf8.DecodeEncode | example/chat/static/engine.io.js:4007-4136 | bytes that decode re-encode to themselves, so no overlong form or surrogate is accepted (section 3 of RFC 3629) |
| Utf8.DecoderAccepts | example/chat/static/engine.io.js:4060-4136 | the decoder accepts exactly the encodings of well-formed strings |
| Utf8.LayoutExact | example/chat/static/engine.io.js:4007-4027 | every scalar value is encoded as the table of section 3 of RFC 3629 says |
| Utf8.PairExact | example/chat/static/engine.io.js:3976-3991 | a scalar value beyond 16 bits becomes a pair of surrogates with its 20 low bits |
| Utf8.Ucs2DecodeLoop | example/chat/static/engine.io.js:3949-3973 | the cursor loop, with its step back after an unmatched surrogate |
| Utf8.Ucs2EncodeLoop | example/chat/static/engine.io.js:3976-3991 | the loop writes one or two units a code point |
| Utf8.Utf8EncodeLoop | example/chat/static/engine.io.js:4029-4040 | the loop concatenates the encoded code points, or fails on a lone surrogate |
| Utf8.Decoder.ReadContinuationByte | example/chat/static/engine.io.js:4044-4058 | six bits of a continuation byte, or an error |
| Utf8.Decoder.DecodeSymbol | example/chat/static/engine.io.js:4060-4121 | the first symbol at the cursor, and its length |
| Utf8.Decoder.Decode | example/chat/static/engine.io.js:4126-4136 | the decoding of the whole string, or failure |

## Left out

- System calls (`read`, `write`, `readv`, `timerfd_settime`, `eventfd`, `epoll`): their results are parameters, constrained only by their manual pages. The eventfd is assumed never to overflow.
- Sockets, acceptor, connector, channels, pollers, threads, process information, file rolling, zlib, HTTP parsing, session identifiers, JSON, SHA-1, the websocket mask and all user interface code.
- Reading TZif files: parsed transitions are the input of `TimeZones`. Their search needs both keys sorted, which the round trips require or derive from the spacing of the transitions. `gmtime_r` and `timegm` are replaced by the file's own `toUtcTime` and `fromUtcTime`, as its comments intend.
- Integer width: day numbers and times are unbounded; `Dates.NoOverflow` says how far that agrees with 32-bit arithmetic. Sizes and counters are unbounded throughout.
- Wall clock and monotonic clock: the timerfd is taken to follow the clock that `Timestamp::now` reads, without jumps backward. Timer intervals are real numbers of seconds truncated to microseconds, not doubles.
- `~TimerQueue`: not modelled; it deletes the timers in the set only, so one pending insertion leaks.
- The timer queue needs positive expirations for its arming guarantee; an expiration of 0 or less is in the model but is never armed for by `reset`.
- Callbacks are lists of the operations they perform on the component; exceptions out of them are not modelled.
- TcpConnections.WritingIffOutput: excludes the runs with the `shutdown` race, whose failing step `TcpConnections.StepWrites` characterises exactly.
- The output buffer of `TcpConnections` is a byte sequence; that `Buffers` refines one is proved there. All callbacks are assumed set. Errors other than EPIPE and ECONNRESET leave the message queued, as in the code.
- Buffer: `findCRLF`, `findEOL`, `retrieveUntil` and capacity growth of `std::vector` beyond the requested size.
- BoundedBlockingQueues.BoundedBlockingQueue.Put: `put` is one pass under the mutex that ends in a push or a wait, and `RePut` is a pass after waking; likewise for `take`. The wait loop is the succession of these passes.
- TcpConnections.TcpConnection.HandleClose: the connection and close callbacks it ends with are left out.
- AsyncLogging: the text of the notice for dropped buffers is a parameter; `fputs` to stderr, the flush interval and file rolling are left out.
- LogStreams.LogStream.InsertAll: the texts `snprintf` makes of doubles and of `Fmt` are parameters.
- Payloads.DecodePayloadLoop: lengths are decimal digits; the other texts that JavaScript's `Number` accepts (blank, `0x10`, `1e3`) are read as errors. The server never writes them. A callback that returns false to stop early is left out.
- Payloads.BinaryPayloadExact: the client's reader is modelled on text messages; its limit of 310 digits on a length is left out.
- EngineClients.ClientReceivesInOrder: assumes that every delivery arrives whole; `EngineClients.EveryDeliveryExact` says exactly when each one does. A body or message that is not UTF-8, in which the browser would substitute characters, is read as nothing.
- `int_to_string` is taken to be the decimal text of its argument for every length.
- Transports of a socket are numbered values in one sequence, and calls through the base class are calls on the current or upgrading number; the transport classes are proved against the same step. A transport that is neither current nor upgrading has been destroyed, so nothing is received on it.
- JSONP polling, whose `DoWrite` is empty, and `OnClose` of an upgrading transport, whose callback is never set. What an exception out of `HandleRequest` does to the process is left out; the model goes on.
- `Socket::OnMessagePacket`, the ping callback and the application's own callbacks: what they send is a `Send` event.
- `PollingTransport::OnData`, whose `DecodePayload` yields no packet; `Parser::DecodeBase64Packet`, which only fails.
- Session identifiers are parameters of the handshake: a repeated one replaces the session that had it, as the map does.
- Answers of the server other than their error code: headers, cookies and the JSON of the Open packet.
