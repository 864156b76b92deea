# ws_server, verified

`ws_server` controls a rocket test stand: it bridges WebSocket text commands to a CAN bus and runs
timed, abortable control flows.  This project models the parts of it whose correctness spans several
functions, threads or whole runs, and proves what they promise.

| files | what they model |
|---|---|
| `FiringProtocol`, `FiringOwnership`, `FiringAbort`, `FiringTightness`, `FiringFrames`, `FiringTiming` | the firing sequence: handlers, the detached worker, abort requests, shutdown and the clock as one interleaving state machine |
| `RingLog`, `Logger` | the cyclic log file, the deletion of old logs when the disk runs low, and the write path |
| `Wiggle`, `WiggleMap`, `WiggleTrace`, `WiggleTiming` | the 16-slot table that toggles valves, against a map, a trace grammar and a clock |
| `Scan`, `CanCache`, `CanListener`, `CanHistory` | the receive cache with its dirty bits, the flush through a bounded buffer, and a listener that parses the flushed text |
| `FireParser`, `Commands`, `TestingTwin` | parsing of commands, the WIGGLE handlers, the testing-mode handlers |
| `Server`, `ServerFiring`, `ServerOverlap`, `ServerTwin`, `ServerTexts` | commands, ticks and the worker interleaving at lock sections; the firing protocol inside the server; what overlapping commands can do; testing mode against production; what single texts do |
| `Heartbeat` | the heartbeat grid of the timer branch |

`dafny verify dfyconfig.toml` checks the whole project.

## How to read it

The main results, hardest first:

- *Bounded overrun after an abort* (`FiringAbort.BoundedOverrun`, `OverrunFromBlock`): after an abort
  at block i, or once the server stops, a worker can send only blocks i..m joined by zero waits.
  `FiringTightness.OverrunIsReachable` shows that this is exact: every such block is sent in some run.
  The run then ends within a bounded number of its own steps (`AbortedRunEnds`).
- *The ring log refines an append-only history* (`RingLog.RingRefinesHistory`), and its size stays
  bounded whatever the I/O does (`FileStaysBounded`).
- *Single ownership* of the firing sequence in every reachable state (`FiringOwnership.AlwaysSingleOwner`,
  `ClaimsBalance`); aborts are neither lost nor stale (`AbortStaysVisible`, `AbortReportHasCause`).
- *The wiggle table refines a map* of at most 16 sessions (`WiggleMap.RunRefines`), each id sees a
  grammar of sessions (`WiggleTrace.SessionGrammar`), and toggles obey bounds on count and time
  (`WiggleTiming.ToggleBounds`).
- *Cache agreement end to end* (`CanListener.ListenerAgrees`), through printing, tokenising and parsing; the cache
  and a drained listener hold the last value received (`CanHistory.DrainedListenerHoldsLast`).
- *FIRE parsing* equals a grammar that does not mention `sscanf` (`FireParser.Parse`), and printing
  is undone by parsing (`FireRoundTrip`).
- *Waits are exact* (`FiringTiming.WaitIsExact`): a clock test lets a block pass iff its configured wait is over, and
  the earliest time of every block is reached (`EarliestIsReached`).
- *From the text to the bus* (`ServerFiring.FrameHasText`, `AbortTextBoundsOverrun`): every run of the server is
  a run of the firing protocol, so every frame the worker attempts is the next block of a FIRE or DROWN text, and
  the overrun bound holds for ABORT texts.
- *Mode exclusion over whole runs* (`Server.ModeExclusion`), with a condition that is exact
  (`ServerOverlap.OrderlyIsExact`): after any run that meets it, a command can be continued to a
  violation iff it breaks the condition.
- *Testing mode predicts production* (`ServerTwin.TestingPredictsProduction`, `TwinOnEveryRun`): for every text
  a production server carries the command out iff the testing handlers accept the text and the server is ready,
  where ready is spelled out per command; `AcceptedIsPossible` names the accepted texts no server carries out.

Code that updates arrays and fields in place is modelled by classes and methods (`WiggleTable`,
`CanCache`, `Logger`, the parser loops, the heartbeat loop).  Each such method is proved equal to a
function of the old state; the theorems over whole runs are about these functions.

### Assumptions

- The clock, send results, thread creation, allocation in `firing_sequence_start`, I/O results,
  free-space readings and directory listings are inputs, chosen freely unless a lemma says otherwise.
- `FiringAbort.PositiveWaitsEnter`: the first clock test after a positive deadline was read still
  finds it in the future.  `wait_with_abort` tests the clock before it polls the abort flag, so a
  worker that is not scheduled for a whole wait passes it without a poll.  `AttemptAfterAbort` states
  what holds without this assumption.
- Mode exclusion holds for runs that are `Orderly`; handling commands one at a time is enough
  (`Server.SerialIsOrderly`).  `handle_wiggle` and `command_handle_text` read the state and act later
  without holding the lock across both, and `WiggleInHotfireFromBoot` and `ClaimInPrechillingFromBoot`
  give runs from start-up in which overlapping commands break the exclusion.
- During one maintenance only the logger removes files: each scan lists at least what its own deletions
  left (`Logger.ListsAll`).
- `sscanf` is modelled on digit strings after section 7.19.6.2 of ISO/IEC 9899:1999, printing after
  section 7.19.6.1.

### Where code and documentation differ

- `README.md:130` of the repository says that ABORT aborts the active firing.  The worker polls the flag
  only inside the wait loop, so blocks joined by zero waits are still sent; the lemmas follow the code.
- The command reference lets every block carry a wait; that of the last block is never used.
- Testing mode answers that it parsed DROWN even when production refuses it, because a valve id was
  set to zero; `ServerTwin.DrownNeedsValves` gives the exact condition, `DrownRefusedFromBoot` a run.

## Model

| member | source | states |
|---|---|---|
| FiringProtocol.OwnerCanMove | src/control/firing_sequence.c:50-114 | an owner of the sequence is never stuck: in every state some step of its own is enabled |
| FiringOwnership.StepKeepsSingleOwner | src/control/firing_sequence.c:208-245 | every step of handlers, worker, abort and shutdown keeps "active iff exactly one owner" |
| FiringOwnership.AlwaysSingleOwner | src/control/firing_sequence.c:208-245 | in every reachable state of every interleaving `sequence_active` is set iff there is exactly one starter or worker, and two owners are the same one |
| FiringOwnership.OwnerStep | src/control/firing_sequence.c:78-114 | what any action of the system does to an owner: others leave it alone and cannot clear its abort, its own step advances or releases it |
| FiringOwnership.GoneStaysGone | src/control/firing_sequence.c:42-48 | a run that gave its claim back never owns the sequence again |
| FiringOwnership.OwnsInBetween | src/control/firing_sequence.c:208-245 | a run owns the sequence over one unbroken stretch |
| FiringOwnership.ClaimsBalance | src/control/firing_sequence.c:218-245 | claims and releases balance: allocation failure, thread failure, abort, send failure and completion each give the claim back exactly once |
| FiringAbort.AbortStaysVisible | src/control/firing_sequence.c:290-300 | an abort made after a claim, even before the worker exists, stays visible until that run ends |
| FiringAbort.VisibleAbortIsFresh | src/control/firing_sequence.c:208-216 | an abort flag seen by a run was raised after that run's own claim |
| FiringAbort.AbortReportHasCause | src/control/firing_sequence.c:50-63 | a run ends as aborted only if an abort came between its claim and its end, or stop was raised |
| FiringAbort.HaltStaysVisible | src/control/firing_sequence.c:50-63 | an abort or a stop that is up while a run owns the sequence stays up until the run ends |
| FiringAbort.HaltTakesEffect | src/control/firing_sequence.c:290-300 | either request takes effect at once and leaves the worker where it stands |
| FiringAbort.LoopEntryIsFatal | src/control/firing_sequence.c:50-63 | once abort or stop is up, a worker that enters a wait loop does nothing more than poll and finish as aborted |
| FiringAbort.RankAdvances | src/control/firing_sequence.c:87-108 | a worker never goes back to an earlier block or to an earlier phase of one |
| FiringAbort.AttemptAfterAbort | src/control/firing_sequence.c:50-63 | the guarantee with no clock assumption: an attempt while abort or stop is up means that no wait loop was entered since |
| FiringAbort.BoundedOverrun | src/control/firing_sequence.c:87-108 | once abort or stop is up a block is attempted only if every wait not yet begun up to it is zero |
| FiringAbort.OverrunFromBlock | src/control/firing_sequence.c:87-108 | for a worker at block i: only blocks i..m joined by zero waits can still be attempted |
| FiringAbort.EarlyAbortSendsNothing | src/control/firing_sequence.c:85-90 | a FIRE aborted before its worker exists, or claimed after stop, attempts nothing, because of the 10 s wait |
| FiringAbort.AbortCountdown | src/control/firing_sequence.c:50-114 | once abort or stop is up every own step of the run uses up a bounded budget |
| FiringAbort.AbortedRunEnds | src/control/firing_sequence.c:50-114 | once abort or stop is up a run takes at most 5 own steps per block and 3 more, in any schedule, and one is always enabled until it has released its claim |
| FiringTightness.ReachBlock | src/control/firing_sequence.c:87-108 | every block behind blocks whose ids the bus takes is reached in a run where each positive wait enters its loop |
| FiringTightness.ReachUnderAbort | src/control/firing_sequence.c:87-108 | with abort or stop up, zero waits carry a worker over sendable blocks from block i to the last clock test of block m |
| FiringTightness.OverrunIsReachable | src/control/firing_sequence.c:50-63 | the overrun bound is exact: for all i..m joined by zero waits behind sendable blocks some run attempts block m after an abort, and some after a stop, at block i, with success iff its id is eleven bits wide |
| FiringFrames.HistoryAgrees | src/control/firing_sequence.c:65-114 | at every point of every run the frames sent and failures counted agree with where the worker stands |
| FiringFrames.AttemptIsNextBlock | src/control/firing_sequence.c:65-76 | each attempt carries the first block not yet sent, after fewer than three failures of it; the blocks before went out in order and have ids the bus takes |
| FiringFrames.ReportIsTruthful | src/control/firing_sequence.c:87-113 | sent frames are an in-order prefix; completed iff whole, failed iff the next block failed three times, aborted iff it stopped between blocks |
| FiringFrames.WorkerOnSchedule | src/control/firing_sequence.c:50-63 | deadlines of a running worker are never earlier than worker start plus all waits so far |
| FiringFrames.NoEarlyAttempt | src/control/firing_sequence.c:85-90 | block i is attempted no earlier than worker start + 10000 ms (nothing for a drown) + the waits before it |
| FiringFrames.EarliestIsWaitSum | src/control/firing_sequence.c:85-89 | the delays add up to the pre-delay and the sum of the waits of the blocks before |
| FiringTiming.WaitIsExact | src/control/firing_sequence.c:50-63 | a clock test of block i leads to its sending iff the reading is at least the wait before it (10000 ms before the first block of a FIRE, none of a drown) after the one at which the wait began, and to a poll otherwise |
| FiringTiming.GapBetweenBlocks | src/control/firing_sequence.c:87-108 | the block after one that went out is attempted no earlier than the wait of that one later |
| FiringTiming.EarliestIsReached | src/control/firing_sequence.c:85-108 | for every configuration and block some run attempts it exactly 10000 ms (nothing for a drown) and the waits before it after worker start |
| RingLog.Overwrite | src/util/logger.c:260-269 | a positioned write puts the chunk in one piece and leaves every other byte as it was |
| RingLog.Place | src/util/logger.c:242-258 | after capacity and offset are settled the chunk fits contiguously below the capacity |
| RingLog.ChunkLands | src/util/logger.c:242-282 | where each chunk lands, for every I/O outcome: behind the last one iff it fits, else at the start; the offset moves on iff the stream took the chunk, even if the flush fails; no other byte changes |
| RingLog.StepKeepsBounded | src/util/logger.c:242-275 | every write and preparation, with any I/O outcome, keeps offset and file inside the capacity |
| RingLog.FileStaysBounded | src/util/logger.c:215-275 | over a whole episode the file never outgrows the largest of its size at entry, 4096 and the longest chunk |
| RingLog.PrepareRefines | src/util/logger.c:215-226 | preparing again in the middle of an episode changes nothing a reader can see |
| RingLog.SettleRefines | src/util/logger.c:242-258 | growing the capacity or wrapping keeps the readable bytes a suffix of the history |
| RingLog.CommitRefines | src/util/logger.c:260-275 | a written chunk takes the place of the oldest bytes and the readable bytes stay a suffix |
| RingLog.StepRefines | src/util/logger.c:229-283 | each write or preparation without a half-failed write keeps the refinement |
| RingLog.FirstLap | src/util/logger.c:229-283 | until the first wrap all chunks follow one another from the start of the file |
| RingLog.HistoryIsWritten | src/util/logger.c:485-513 | the history is the file at entry followed by exactly the chunks whose write succeeded |
| RingLog.RingRefinesHistory | src/util/logger.c:197-283 | the last lap's remaining bytes followed by the current lap are a suffix of entry file ++ chunks; after a wrap it is longer than capacity minus the longest chunk |
| Logger.EnoughIsOneFifth | src/util/logger.c:62-84 | the integer percentage test is exactly "a fifth of the blocks is available" |
| Logger.ConsideredIsEarlier | src/util/logger.c:86-176 | the tests on a directory entry pass iff it is a regular file named simple_ws_..., with a path below 4096 characters that is not the current log |
| Logger.NotNewerInNanoseconds | src/util/logger.c:96-115 | seconds-then-nanoseconds order is the order of the time stamps in nanoseconds |
| Logger.FindOldest | src/util/logger.c:117-195 | finds an earlier log iff the listing has one: one whose seconds, then nanoseconds, are at most those of every other, the first of equals in listing order |
| Logger.DeleteNext | src/util/logger.c:331-349 | one round scans, and unlinks an oldest log if the scan was complete; nothing to unlink means nothing deletable is left |
| Logger.DeleteOldestLogs | src/util/logger.c:329-363 | terminates; deletes only earlier logs, each with the least time stamp of what the deletions before it left, only after readings below 20 percent; which reading, scan or unlink ends it, and how, is exact |
| Logger.Logger.MaybeRunMaintenance | src/util/logger.c:301-364 | throttled to 5000 ms; 20 percent free ends cyclic mode, nothing left to delete begins it, a failed call changes neither mode nor ring; at most one more preparation of the ring |
| Logger.Logger.PrepareCyclicMode | src/util/logger.c:215-226 | the fields become the prepared ring |
| Logger.Logger.PlaceChunk | src/util/logger.c:242-258 | the fields become the settled ring, and nothing is written |
| Logger.Logger.WriteCyclicBytes | src/util/logger.c:229-283 | file, offset and capacity after one chunk for every I/O outcome, and exactly when 0 is returned |
| Logger.Logger.WriteRecord | src/util/logger.c:498-511 | a record is header, payload unless empty, and newline, each a chunk of its own |
| Logger.RunRecord | src/util/logger.c:498-511 | a record extends an episode by exactly its three chunks |
| Logger.Logger.LogCyclic | src/util/logger.c:498-511 | a record in cyclic mode extends the current episode, so the ring theorems apply to it |
| Logger.AppendLine | src/util/logger.c:285-299 | whatever I/O fails, a line only adds behind the old file, and a complete one is header, payload and newline |
| Logger.Logger.AppendNormal | src/util/logger.c:285-299 | the file after one line in normal mode, for every I/O outcome |
| Logger.Logger.CyclicFileIsHistory | src/util/logger.c:197-283 | in cyclic mode the logger's own file obeys the size bound, and without half-failed writes reads as a suffix of the file at entry and all chunks |
| Logger.Logger.Write | src/util/logger.c:485-569 | maintenance with its promises about deleted logs and the mode it ends in, then one record: appended as a line, or three chunks of the current or a new episode; disabled loggers change nothing |
| Wiggle.SlotOf | src/control/wiggle.c:12-22 | the first active slot with the id, or none |
| Wiggle.FreeSlot | src/control/wiggle.c:24-34 | the first inactive slot, or none |
| Wiggle.WiggleTable.FindSlot | src/control/wiggle.c:12-22 | the scan finds that slot |
| Wiggle.WiggleTable.AllocSlot | src/control/wiggle.c:24-34 | the scan finds that free slot |
| Wiggle.WiggleTable.Start | src/control/wiggle.c:64-102 | table and sends after a start, and exactly when it succeeds |
| Wiggle.WiggleTable.Stop | src/control/wiggle.c:104-120 | table and sends after a stop; true iff the id was active |
| Wiggle.WiggleTable.StopAll | src/control/wiggle.c:122-147 | every active slot is cleared, with one exit value each if asked for, and counted |
| Wiggle.WiggleTable.ProcessSlot | src/control/wiggle.c:164-186 | one slot expires, toggles or waits, and no other slot changes |
| Wiggle.WiggleTable.Process | src/control/wiggle.c:149-188 | a tick acts on each slot once, and only in PRECHILLING |
| Wiggle.WiggleTable.SetMode | src/control/state.c:33-36 | the mode is stored and a change is reported |
| WiggleMap.FreeIffRoom | src/control/wiggle.c:24-34 | a free slot is found iff fewer than 16 sessions are in the map, which never holds more |
| WiggleMap.StartIffRoom | src/control/wiggle.c:72-87 | start succeeds iff period > 0, id <= 0x7FF, and the id is present or fewer than 16 are active |
| WiggleMap.StartRefines | src/control/wiggle.c:64-102 | a start inserts or replaces one session of the map, and sends the start value to that id alone |
| WiggleMap.StopRefines | src/control/wiggle.c:104-120 | a stop removes one session and sends its exit value |
| WiggleMap.StopAllRefines | src/control/wiggle.c:122-147 | a stop-all empties the map; each id that was in it gets at most its one exit value |
| WiggleMap.TickRefines | src/control/wiggle.c:149-188 | a tick drops the expired sessions, toggles the due ones and sends per id what the map calls for |
| WiggleMap.StepRefines | src/control/wiggle.c:12-188 | every operation keeps ids distinct, free slots zero, current value start or end, and acts as on the map |
| WiggleMap.RunRefines | src/control/wiggle.c:12-188 | all of it in every reachable table |
| WiggleMap.RunStep | src/control/wiggle.c:12-188 | sessions, mode and the sends to one id after one more operation follow from the map alone |
| WiggleTrace.ToggleAlternates | src/control/wiggle.c:182-184 | the toggle rule on the stored value continues the alternation start, end, start |
| WiggleTrace.ExtendRenders | src/control/wiggle.c:36-62 | one more operation extends the sends to an id by what the sessions' rendering gains |
| WiggleTrace.ExtendAllPlaced | src/control/wiggle.c:64-188 | each session is opened by its own accepted start and ended, while its id was active, by a later operation of the kind its ending names |
| WiggleTrace.ExtendOrdered | src/control/wiggle.c:64-147 | sessions follow one another: a replaced one ends exactly where the next starts, any other before |
| WiggleTrace.ExtendRendered | src/control/wiggle.c:36-62 | at each opening all sends belong to the sessions before, at each close to those up to and including it |
| WiggleTrace.ExtendExplains | src/control/wiggle.c:64-188 | one more operation keeps sends, requests, places and order of the sessions in agreement |
| WiggleTrace.SessionGrammar | src/control/wiggle.c:36-188 | over any run the sends to an id are its accepted sessions in order: start, end, start, ..., one exit value iff the operation that ended the active session was a stop, a stop-all with exit or an expiry, none if a restart replaced it, nothing between a close and the next start |
| WiggleTiming.BoundsSnoc | src/control/wiggle.c:177-185 | a toggle at the first reading that reaches its time keeps the bounds for the k-th toggle |
| WiggleTiming.TimingRun | src/control/wiggle.c:163-186 | the slot's due time, stop time and values agree with the toggles so far in every paced run |
| WiggleTiming.ToggleBounds | src/control/wiggle.c:89-186 | the k-th toggle lies in [t0 + k p, t0 + k (p + d)], each at least p after the one before, and no reading p after the latest goes by without the next; with a duration D, k p < D and the exit value is sent by a tick in [t0 + D, t0 + D + d] |
| Scan.DigitsNumeral | src/can/can_bus.c:233-237 | printing a number in a base and evaluating the digits gives it back |
| Scan.DigitTable | src/control/command.c:73-84 | the sixteen digits in either case, and no other character, have the values 0 to 15 |
| Scan.NumeralIgnoresCase | src/control/command.c:73-84 | upper-case hexadecimal digits read as the same number |
| Scan.SscanfField | src/control/command.c:73-84 | a number followed by '#' is converted and the rest is scanned by the rest of the format |
| Scan.TokensFront | src/control/firing_sequence.c:136-150 | `strtok_r` takes the text up to the next bar as one token |
| Scan.TokensOfJoined | src/control/firing_sequence.c:136-190 | tokenising parts joined by bars gives the parts back |
| CanCache.CommandRoundTrip | src/can/can_bus.c:147-166 | a command frame is built iff the id is 11 bits wide: eight bytes, value and duration low byte first, then zeros; it reads back with the same id and value |
| CanCache.DirtyBelowSorted | src/can/can_bus.c:226-231 | the ids the loop meets are exactly the dirty ones, ascending |
| CanCache.EntryLength | src/can/can_bus.c:233-237 | every printed entry with its bar is nine characters |
| CanCache.Snprintf | src/can/can_bus.c:233-238 | writes inside the buffer only, the whole text if it fits, and returns its full length |
| CanCache.PrintEntry | src/can/can_bus.c:233-241 | the entry is appended iff ten places are left; otherwise the text so far is kept |
| CanCache.CanCache.constructor | src/app/context.c:19-23 | the cache starts unknown and clean |
| CanCache.CanCache.StoreRx | src/can/can_bus.c:188-213 | a received frame sets value and dirty bit of its id; flagged frames are ignored |
| CanCache.CanCache.PrintIfDirty | src/can/can_bus.c:228-245 | a dirty id that fits is appended and cleaned; a full buffer loses nothing |
| CanCache.CanCache.PrintDirty | src/can/can_bus.c:226-246 | the loop emits the first dirty ids that fit and cleans exactly those |
| CanCache.CanCache.FormatDirty | src/can/can_bus.c:215-255 | the buffer holds the entries joined by bars, and exactly the emitted ids are clean |
| CanListener.EntryRoundTrip | src/control/command.c:66-87 | parsing a printed entry gives id and value back |
| CanListener.RawRoundTrip | src/control/command.c:66-87 | a printed raw command, with or without a duration, parses to itself |
| CanListener.HearFlush | src/main.c:140-148 | a listener that tokenises and parses a flushed text learns exactly the emitted ids' values |
| CanListener.ListenerAgrees | src/can/can_bus.c:188-255 | after any mix of frames and flushes the listener holds the stored value of every id that is not dirty |
| CanListener.FlushPartitions | src/can/can_bus.c:222-246 | a flush emits ascending ids and splits the dirty set into emitted and still dirty |
| CanListener.FlushDropsFront | src/can/can_bus.c:222-246 | a flush removes exactly the front of the list of dirty ids |
| CanListener.FlushCount | src/main.c:142-143 | with 8192 bytes a flush emits exactly min(n, 910) of n dirty ids |
| CanListener.DrainBound | src/can/can_bus.c:222-255 | k flushes leave the dirty ids from position 910 k on |
| CanListener.ThreeFlushesDrain | src/can/can_bus.c:222-255 | three flushes clean all 2048 ids |
| CanHistory.FrameStored | src/can/can_bus.c:195-209 | an unflagged frame gives its id data[0] + 256 data[1] (0 below two bytes) and marks it dirty; flagged frames and other ids change nothing |
| CanHistory.CacheHoldsLast | src/can/can_bus.c:188-213 | after any mix of frames and flushes an id holds the value of the last unflagged frame for it, and -1 if there was none |
| CanHistory.DrainedListenerHoldsLast | src/can/can_bus.c:188-255 | three flushes after the last frame the listener holds exactly the received ids, each with its last value |
| FireParser.SscanfMatches | src/control/firing_sequence.c:148-175 | for any list of numeric fields, the scan converts all and leaves nothing iff the text split at '#' matches |
| FireParser.ParseBlockIsGrammar | src/control/firing_sequence.c:148-186 | the two scans and the id check accept exactly the 3- and 4-field blocks with id 1..0x7FF, with their values |
| FireParser.NextToken | src/control/firing_sequence.c:136-190 | one `strtok_r` step takes the first token off the text |
| FireParser.ParsePayload | src/control/firing_sequence.c:136-194 | accepts iff there is a token and each of the first 24 parses; the result is these blocks in order |
| FireParser.Parse | src/control/firing_sequence.c:116-194 | the parser computes the meaning given by the grammar, and 1 to 24 blocks |
| FireParser.BlockRoundTrip | src/control/firing_sequence.c:148-186 | a printed block, with or without a zero wait, parses to itself |
| FireParser.FireRoundTrip | src/control/firing_sequence.c:116-194 | printing 1..24 valid blocks as a FIRE command and parsing returns the same blocks |
| Commands.HandleWiggle | src/control/command.c:285-350 | the handler's loop starts entries one after the other and stops at the first that fails |
| Commands.HandleWiggleStop | src/control/command.c:241-283 | the handler's loop stops ids one after the other up to the first that does not parse, and counts those that were active |
| Commands.HandleTestingWiggle | src/control/command.c:485-543 | accepts iff there is an entry and every entry parses with id <= 0x7FF and a positive period |
| Commands.HandleTestingWiggleStop | src/control/command.c:450-483 | accepts iff there is an id and every id parses |
| Commands.EntryRoundTrip | src/control/command.c:305-329 | a printed WIGGLE entry, with or without a zero total, parses to itself |
| Commands.WiggleRoundTrip | src/control/command.c:285-337 | printing any requests as a WIGGLE command and dispatching the text gives the same requests |
| Commands.ClassifyFire | src/control/command.c:202-214 | a printed FIRE command is dispatched with exactly its blocks |
| Commands.ValveRoundTrip | src/control/command.c:114-173 | printing a valve change as SET_VALVE and dispatching the text gives the same change iff an id is at most 0x7FF and an angle at most 0xB4, else an error |
| Commands.PrefixIsStripped | src/control/command.c:34-41 | the CAN1 prefix in front of a text means that text |
| Commands.ClassifyAbort | src/control/command.c:189-200 | ABORT#8765, with or without the prefix, is an abort and nothing else is |
| Commands.ClassifyRaw | src/control/command.c:352-384 | a printed raw command is dispatched as that command |
| Commands.StopRoundTrip | src/control/command.c:241-265 | printing ids as WIGGLE_STOP and dispatching the text gives the same ids |
| TestingTwin.FitIffSmall | src/control/wiggle.c:72-87 | entries fit one by one iff all are good and the union of ids has at most 16 members |
| TestingTwin.AllGoThrough | src/control/command.c:300-337 | no entry fails iff all are good and active and requested ids together are at most 16 |
| TestingTwin.PrefixStarted | src/control/command.c:300-337 | exactly the entries before the first failing one have been started, and why that one failed |
| TestingTwin.TestingAgrees | src/control/command.c:485-543 | for every WIGGLE text production reports success iff the testing handler accepts and the ids fit; otherwise exactly the prefix is started |
| TestingTwin.StopsNamed | src/control/command.c:248-265 | a WIGGLE_STOP ends exactly the sessions of the ids in front of the first that does not parse |
| Server.DispatchModes | src/control/command.c:718-771 | only a STATE command changes the mode; wiggles are left to start only in PRECHILLING, claims only in HOTFIRE |
| Server.DispatchKeepsInv | src/control/command.c:693-771 | an orderly command keeps the exclusion invariant |
| Server.ContinueKeeps | src/control/command.c:241-337 | a lock section keeps the mode, and unless it starts an entry it never makes a quiet table active |
| Server.ProceedKeepsInv | src/control/command.c:285-337 | every further lock section of any command keeps it |
| Server.ModeExclusion | src/control/state.c:26-45 | in every orderly run, HOTFIRE with no switch in progress means no active wiggle, and every FIRE or DROWN claim happened in HOTFIRE |
| Server.SerialIsOrderly | src/control/command.c:693-771 | handling commands one at a time is orderly |
| Server.TableIsMap | src/control/wiggle.c:12-188 | in every run of the server, orderly or not, its slot table refines the map of at most 16 sessions |
| Server.SilentModesChangeNothing | src/control/command.c:642-716 | over every run in read-only or testing mode control state and bus stay as at boot but for the clock and the stop flag, and each text gets the answer of the testing handlers, or a refusal |
| ServerFiring.FiringIsARun | src/control/firing_sequence.c:196-300 | every run of the server, whatever its clients send, is a run of the firing protocol |
| ServerFiring.AlwaysLinked | src/control/firing_sequence.c:208-245 | in every run a handler between claim and hand-over and the owner it answers for agree, and there is at most one such handler |
| ServerFiring.ClaimHasText | src/control/command.c:751-764 | every claim was ordered by a text that passed the gate in HOTFIRE: a FIRE with exactly its blocks, or a DROWN with the valves as they were, field by field |
| ServerFiring.FrameHasText | src/control/command.c:202-239 | every frame the worker attempts is the first unsent block of such a text, and the blocks before it went out in order |
| ServerFiring.DrownFrames | src/control/firing_sequence.c:260-270 | a DROWN first sends (main id, open angle, 0), then (vent id, close angle, 1000) at least 100 ms after the first went out, with the valves as they were at the text, and nothing else |
| ServerFiring.AbortTextHalts | src/control/command.c:189-200 | an ABORT text raises the flag at once for the run that owns the sequence then |
| ServerFiring.AbortTextBoundsOverrun | src/control/command.c:189-200 | after an ABORT text a block of that run is attempted only if every wait not yet begun up to it is zero |
| ServerFiring.AbortTextEndsRun | src/control/command.c:189-200 | that run ends within 5 own steps per block and 3 more |
| ServerOverlap.OverlapBreaksExclusion | src/control/command.c:292-337 | in HOTFIRE a WIGGLE past its check with a valid entry left leads to a wiggle running in HOTFIRE, whatever else is in progress |
| ServerOverlap.ReleaseStep | src/control/firing_sequence.c:50-114 | a sequence in progress can always take a step nearer to its release, by its worker or by the handler that starts it |
| ServerOverlap.OverlapClaimsInPrechilling | src/control/command.c:751-764 | in PRECHILLING a FIRE or DROWN past the gate leads to a claim in PRECHILLING, even if a sequence runs now |
| ServerOverlap.DisorderDooms | src/control/command.c:693-771 | a command that is not orderly can be continued to a violation |
| ServerOverlap.OrderlyIsExact | src/control/command.c:693-771 | after any orderly run from boot, a command can be continued to a violation by those in progress iff it is not orderly |
| ServerOverlap.WiggleInHotfireFromBoot | src/control/command.c:292-337 | for every WIGGLE command with a valid first entry, four steps from boot start it in HOTFIRE |
| ServerOverlap.ClaimInPrechillingFromBoot | src/control/command.c:751-764 | for every FIRE command, four steps from boot claim it in PRECHILLING |
| ServerTwin.HandleIsARun | src/control/command.c:693-771 | a command handled alone is a run of the server with the same reply |
| ServerTwin.FinishStarting | src/control/command.c:300-348 | the lock sections of a WIGGLE together leave the table of the handler's loop, and report its success |
| ServerTwin.FinishClaiming | src/control/firing_sequence.c:208-245 | a FIRE or DROWN past the gate reports success iff the sequence is free and allocation and thread creation succeed |
| ServerTwin.StopReports | src/control/command.c:255-281 | a WIGGLE_STOP reports success iff every id parses and one of them is active |
| ServerTwin.TestingParses | src/control/command.c:642-691 | the testing handlers, in their order, accept a text iff production's own parsing and range checks do, those of wiggle_start and of the bus included |
| ServerTwin.HandleSucceeds | src/control/command.c:718-771 | production succeeds iff the command is well formed and mode, table, claim, valves, bus, memory and thread allow it |
| ServerTwin.TestingPredictsProduction | src/control/command.c:386-691 | for every text and control state, production succeeds iff testing accepts and the server is ready |
| ServerTwin.TwinOnEveryRun | src/control/command.c:693-771 | after any run of a production server a text handled without interruption gets one reply, a success iff testing accepts it and the server is ready |
| ServerTwin.AcceptedIsPossible | src/control/command.c:450-543 | some production server carries a text out iff testing accepts it and, if it is a WIGGLE, it names at most 16 ids, if a WIGGLE_STOP, some id of eleven bits |
| ServerTwin.DrownNeedsValves | src/control/command.c:581-590 | testing accepts DROWN always, production, when it can launch a sequence, iff both valve ids are nonzero |
| ServerTwin.DrownRefusedFromBoot | src/control/firing_sequence.c:255-258 | setting either valve id to zero and DROWN in HOTFIRE, from boot, ends in an error reply |
| ServerTexts.TableIsARun | src/control/wiggle.c:12-188 | every run of the server is a run of its slot table: texts start and stop, ticks toggle, STATE#HOTFIRE and ABORT stop all with exit values |
| ServerTexts.ServerSessions | src/control/wiggle.c:36-188 | the session grammar holds for what texts and ticks make the server send to an id |
| ServerTexts.StopAllExits | src/control/wiggle.c:122-147 | the second lock section of STATE#HOTFIRE and ABORT empties the table and sends each active id its exit value, once |
| ServerTexts.HotfireText | src/control/state.c:26-45 | STATE#HOTFIRE handled alone switches the state, and every active id gets its exit value |
| ServerTexts.AbortText | src/control/command.c:189-200 | ABORT#8765 handled alone raises the abort flag, and every active id gets its exit value |
| ServerTexts.ValveText | src/control/command.c:114-173 | a SET_VALVE text changes the field it names, if in range, and nothing else |
| ServerTexts.RawText | src/control/command.c:352-384 | a raw text in HOTFIRE puts exactly its frame on the bus if the id is at most 0x7FF; otherwise nothing changes |
| ServerTexts.DrownText | src/control/firing_sequence.c:248-288 | on every server that is ready a DROWN can open the main valve at once and close the vent 100 ms later, and complete |
| ServerTexts.DrownFromBoot | src/app/context.c:25-28 | from boot, STATE#HOTFIRE and DROWN#8765 send 709#0099 with duration 0 and 100 ms later 702#0074 with duration 1000 |
| Heartbeat.CatchUp | src/main.c:264-267 | the loop ends at the first grid point after now, at most 1000 ms later |
| Heartbeat.RunTimer | src/main.c:198-268 | over a whole run the attempts are those the grid calls for |
| Heartbeat.BeatsInInterval | src/main.c:250-268 | from any grid point on, an interval of the grid has one attempt iff a tick falls in it |
| Heartbeat.OneBeatPerInterval | src/main.c:198-268 | each 1000 ms interval of the start-up grid has exactly one attempt if a tick falls in it and none otherwise; none before the grid |

## Left out

- WebSocket server, client list, reply and status wording (`src/ws/ws_bridge.c`): thin use of a library; of a
  reply only success or error is modelled.
- CAN socket setup, `ip link` and GPIO commands, epoll and timerfd: I/O without logic of its own.
- Shutdown and teardown: only the stop flag is modelled, since the detached worker is not joined and the order
  rests on the operating system.
- Configuration file and command line (`src/app/config.c`): each key sets one field, and nothing else depends on
  how the two are combined.
- Blanks, signs and `0x` prefixes in `sscanf`; numbers that do not fit their variable are reduced modulo its width,
  since section 7.19.6.2 of ISO/IEC 9899:1999 does not define them.
- Clock wrap-around, 64-bit overflow, and allocation failure outside `firing_sequence_start`.
- The firing worker and its starter are steps of a state machine on values, not methods, because they interleave
  with other threads; update in place of `sequence_active` and `sequence_abort` is captured step by step.
- A switch to PRECHILLING does not stop a running sequence, in the code and in the model.
- The per-client write-only flag of READ-DISABLE and READ-ENABLE: it selects who hears broadcasts, and is no part of
  the control state.
- Server.ModeExclusion: needs orderly runs; it fails without them, as `ServerOverlap.OrderlyIsExact` shows.
- RingLog.RingRefinesHistory: excludes writes and flushes that fail half-way, which leave an unknown part of a chunk in
  the file; the size bound covers them.
- RingLog.RingRefinesHistory: is about chunks, not CSV lines, because a record may be split at the wrap.
- Logger.Logger.Write: the header is an input; its text and the 128-byte buffer are not modelled, because every kind the
  program logs gives a header of less than 40 bytes.
- Logger.DeleteOldestLogs: assumes that no other program adds or removes logs during one maintenance.
- CanCache.CanCache.FormatDirty: does not promise a terminated string for buffers of 9 bytes or less; the only caller
  passes 8192.
- WiggleTiming.ToggleBounds: is about ticks in PRECHILLING; outside it the table does not toggle.
