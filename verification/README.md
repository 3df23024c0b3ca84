# MinifilterMonitor, verified

A minifilter driver records every file-system operation of the volumes it is
attached to; a console client drains the records and writes them to CSV files.
This project models that path in Dafny, from the operation callback in the
kernel to the characters in the file, and proves what it keeps.

`dafny verify dfyconfig.toml` checks everything.

## What is modelled

**The driver as a concurrent protocol** (`Driver`, `DriverCounters`,
`DriverOwnership`, `DriverLog`, `DriverSessions`, `DriverRuns`, `DriverTotals`,
`DriverResets`). Any number of threads run operation and transaction callbacks
beside one control thread that connects, drains and unloads; the clearing of the
list that a disconnect starts is a thread of its own, which the next client's
connect and drains do not wait for. Every interlocked operation and every section
under the list lock is one step; a thread is a program counter. The invariants
cover the lock-free counter (a 32-bit LONG that may overshoot and is written out
as such), the owner of every entry, and the list with its several takers and its
push-back. The theorems speak of every reachable state. `DriverEvents`,
`DriverCauses` and `DriverDeliveries` speak of runs with the labels of their steps: what became of each
entry, what each counter has counted and why each thread stands where it does is
read off the steps that were taken.

**The driver's functions as one caller sees them** (`Records`, `Filter`). The
same code in imperative form: the record store with its drain and clear loops
against records that arrive while they run, and the operation, port and message
callbacks on top of it. Here the other threads only append; a clearing left over
from an earlier session, which takes records as well, is the state machine's part.

**The transaction context race** (`Enlist`, `EnlistRuns`, `EnlistCalls`). Threads
look up, allocate, number and attach contexts for any instances and transactions,
with the reference count of every context. `EnlistCalls` says for every call, from its
own steps, whether it gets a context.

**The client's threads** (`Queue`, `BlockingQueue.dfy`, `Pipeline`,
`PipelineRuns`, `PipelineCauses`). The bounded queue for any number of pushers,
poppers and spurious wake-ups; then the drainer and the writer joined by the queue,
the stop flag and the counters, with their shutdown, what may start it, and when the
drainer sleeps.

**One session end to end** (`EndToEnd`, `EndToEndSteps`, `EndToEndRuns`,
`EndToEndFiles`, `EndToEndLosses`, `EndToEndProgress`). The driver's state machine, the client's threads
and the sink's files joined into one: a request of the drainer is one drain of the
driver, a write of the writer is one `Sink::Write`, and all of it interleaves with
every callback and with clearings that earlier sessions left over. The results account
for every record of a session, and go from the append log to what a reader gets from
the files.

**Capture** (`Memory`, `Capture`). Which view of a caller's buffer the driver
reads, how sizes shrink, the copy that may fault half way, and the two halves of
a supplement filled before and after the operation: whose bytes each half holds, how
many, and when it is marked, in the terms of the request.

**Rendering of captured bytes** (`Payload`, `Chains`, `ChainRounds`, `Links`,
`Walkers`, `Layouts`, `Arrays`, `ArrayLayouts`, `UsnRecords`, `CapturedText`). The loops
over `NextEntryOffset` chains, counted arrays and journal records, on arbitrary bytes
and on any prefix of a well-formed buffer. The kernel's own layouts are given as encoders
that build an entry from its names, values and lengths, so the results are round trips. `Capture.CapturedChainShows` and `CapturedText` join driver
and client.

**Output** (`Flags`, `Csv`, `Sink`, `Arguments`). Flag tables and the check that
guards them, CSV against a reader that follows section 2 of RFC 4180 with a
semicolon as delimiter, the files of split output, and the command line against
its grammar.

The environment is a parameter: copies fault, allocations and opens fail, and
records arrive as oracles say. What the models take for granted about the
Filter Manager: a requested post-operation callback comes exactly once, normal
or draining, and none comes that was not requested; `FltUnregisterFilter` returns
when nothing is in flight, the clearing after a disconnect included; one client is
connected at a time, and its messages do not overlap one another or its connect
and disconnect callbacks; fewer than 2^31 threads are inside the driver; a
transaction that has ended takes no new context.

## Where the code and expectations differ

- The last drop total of a batch need not be its maximum: a connect publishes the
  port before it empties the list and zeroes the total, so one drain can deliver
  records from both sides of a reset. `DriverResets.ResetInsideBatch` gives the
  run. `DriverTotals.LastDropTotalIsMaximum` says exactly when the last total is
  the largest: if and only if no record just before a reset carries a larger one.
  Without a reset that is always so; with one reset that one record decides.
- A connected client can lose records in two ways. A drain one of whose copies faults
  after others succeeded: those are off the list, and GetRecords fails. And the clearing
  that the previous client's disconnect started: it may still run after the next client's
  connect has returned, and then takes what is appended for that client.
  `EndToEndLosses.FaultLosesRecords` and `ClearingTakesRecord` give the runs.
  `EndToEndRuns.NoRecordIsMissing` says that these are the only ones: nothing is missing if
  and only if no such clearing has popped a record and no request has failed after some had
  been handed over.
- The captured part of an array, a hard-link list or a journal read may end inside the
  header. The client then shows nothing, not even the mark
  (`CapturedText.CapturedHeaderCut`, `CapturedRecordsShow`).
- A SID is rendered whole or not at all, so of a cut quota or SID list the
  entries shown are those whose header and SID are there, not those whose
  header is (`ChainRounds.PrefixShowsPrefix` states both).
- The hard-link walker marks its list by the announced count, not by the chain:
  a complete chain shorter than the count is marked, a longer one is cut without
  a mark. `Links.WhenMarkIsRight` says for every count and cut when the mark means
  missing content; `Links.CountMustMatch` that it does at every cut if and only if
  the count is the chain's length.
- Arrays that fill their buffer and journal records carry no length of their own,
  so their text is marked by the driver's truncation bit. For what the driver
  captured that is right: once the header is there, the mark is if and only if bytes
  are missing (`CapturedText`).

## Model

| member | source | states |
|---|---|---|
| DriverRuns.StepKeepsInv | MiniMonFlt/src/records.cpp:22-202 | every step of every interleaving, the clearing after a disconnect beside the next client included, keeps the counter, ownership, list and session invariants together |
| DriverRuns.MemoryCap | MiniMonFlt/src/records.cpp:22-49 | in every reachable state the live entries are at most MaxMemoryKb*1024/sizeof(Entry), which is below 2^31; the LONG counter is exactly live entries plus attempts in progress and has not come round; blocks exceed the entries only by threads between their decrement and their free |
| DriverRuns.MemoryInBytes | MiniMonFlt/src/records.cpp:22-41 | in bytes: the live entries of 2936 bytes each never exceed the configured kilobytes |
| Driver.EntriesFillMemory | MiniMonFlt/src/records.cpp:22-41 | the cap is the largest number of entries that fit |
| DriverCounters.ComparisonIsExact | MiniMonFlt/src/records.cpp:22-41 | the unsigned comparison on the LONG passes exactly when the pending count is within the cap, for every count below 2^32 |
| DriverRuns.EveryEntryAtOnePlace | MiniMonFlt/src/dispatch.cpp:16-67 | every number handed out is at exactly one place (one thread, the Filter Manager, one log position, discarded) and no other number is anywhere |
| DriverEvents.FateOfEntry | MiniMonFlt/src/dispatch.cpp:16-67 | which place it is follows from the steps of the run: an entry is deleted or about to be if and only if its post callback came with the draining flag; appended or about to be if and only if it came without, or the entry was filled for a shutdown or a notification; with the Filter Manager if and only if it was filled for an operation and no post callback has come |
| DriverEvents.DiscardedOnlyWhenDraining | MiniMonFlt/src/dispatch.cpp:51-63 | only an entry whose post callback came with the draining flag is ever deleted, and such an entry is never in the log |
| DriverEvents.UndrainedAllLogged | MiniMonFlt/src/dispatch.cpp:51-63 | in a run without a draining post callback nothing is deleted, and by unload every number handed out is in the log exactly once |
| DriverCauses.TotalsAreCounted | MiniMonFlt/src/records.cpp:100-189 | at every moment the drop total is the number of drops since the last reset, and the log holds for every append, in order, the entry's number and that total |
| DriverCauses.DroppedForCause | MiniMonFlt/src/records.cpp:22-49 | a callback counts a drop only if there was no room when it was judged or its allocation failed, and gets a number only if there was room and a block |
| DriverCauses.FilledForOrigin | MiniMonFlt/src/dispatch.cpp:16-39 | an entry asks for a post callback if and only if it was begun by an operation that is not a shutdown |
| DriverCauses.PortIsOpen | MiniMonFlt/src/port.cpp:69-105 | the port is set exactly from a connect to its disconnect, and callbacks are traced only then |
| DriverCauses.DrainMeasures | MiniMonFlt/src/records.cpp:139-177 | during a drain the written size is the record size times the records copied since it began, within the size asked for |
| DriverCauses.DrainEnds | MiniMonFlt/src/records.cpp:139-177 | a drain ends if and only if the list is found empty, a copy faults or what is left of the buffer is smaller than a record |
| DriverCauses.ThreadGoesOn | MiniMonFlt/src/records.cpp:22-202 | a thread inside the driver can always take its next step |
| DriverCauses.ControlGoesOn | MiniMonFlt/src/records.cpp:139-202 | and so can the control thread until the driver is gone |
| DriverRuns.AppendedOnce | MiniMonFlt/src/records.cpp:117-134 | no entry is appended twice, appended and discarded, or still held by its creator after the append |
| DriverRuns.SequenceNumbersDistinct | MiniMonFlt/src/records.cpp:100-113 | in every reachable state in which at most 2^32 numbers were handed out two appended records have the same sequence number only if they are the same record |
| DriverRuns.FirstInFirstOut | MiniMonFlt/src/records.cpp:52-77 | the list is the not yet popped rest of the append log in order, but for one record a drain pushed back before it, and drains deliver in append order, however many threads take from the list |
| DriverRuns.EveryRecordAtOneSpot | MiniMonFlt/src/records.cpp:52-77 | every record popped so far is at exactly one spot: gone for good, with the control thread, with one unfinished clearing, or pushed back; no other record is at any |
| DriverRuns.SessionIsolation | MiniMonFlt/src/port.cpp:69-105 | a record delivered to a client was appended after that client's port was published |
| DriverDeliveries.RemovedAreTaken | MiniMonFlt/src/records.cpp:139-189 | what has left the list for good is what the copies of drains handed over, each with its client's connect, and what clearings gave back, in the order of those steps |
| DriverDeliveries.HandedInSession | MiniMonFlt/src/port.cpp:69-105 | a record that a copy hands over is the log's own and was appended after the last connect |
| DriverTotals.LastDropTotalIsMaximum | MiniMonFlt/src/records.cpp:125-134 | the last drop total of a batch is its largest if and only if no record just before a reset carries a larger one, while totals fit 32 bits |
| DriverTotals.NoResetNoFall | MiniMonFlt/src/records.cpp:125-134 | a batch without a reset has its largest total last |
| DriverTotals.OneResetDecides | MiniMonFlt/src/records.cpp:180-189 | with one reset in the batch the record just before it decides |
| DriverTotals.DeliveredIsFromLog | MiniMonClient/src/main.cpp:354-356 | whatever a client has been given is such a batch: log records in append order |
| DriverTotals.HandedIsFromLog | MiniMonFlt/src/records.cpp:139-177 | all records ever handed to clients are log records in append order |
| DriverResets.ResetInsideBatch | MiniMonFlt/src/port.cpp:69-90 | in a reachable run one drain delivers a record with a larger drop total before one with a smaller |
| DriverResets.TwoHolders | MiniMonFlt/src/port.cpp:95-105 | the clearing after a disconnect and the next client's connect are reachable with a record in each one's hands |
| DriverResets.LateClearing | MiniMonFlt/src/port.cpp:69-105 | a clearing that a disconnect left over is reachable with a record listed that was appended after the next client's connect |
| DriverRuns.NothingLeaksAtUnload | MiniMonFlt/src/driver.cpp:115-127 | when the lookaside list is deleted no block is outstanding, the counter is zero and the list empty |
| DriverRuns.EveryRecordLeaves | MiniMonFlt/src/driver.cpp:115-127 | by then every record ever appended was taken off the list for good |
| DriverRuns.EveryEntryLeaves | MiniMonFlt/src/driver.cpp:115-127 | and every entry ever created was discarded, or appended and taken off the list (`DriverEvents.FateOfEntry` says which) |
| DriverRuns.UnloadIsFinal | MiniMonFlt/src/records.cpp:192-202 | after the last clear nothing can happen but the deletion of the lookaside list |
| Records.RecordStore.CreateEntry | MiniMonFlt/src/records.cpp:100-113 | success takes one block and the next number; failure counts a drop, uses no number and leaves the counter as it was |
| Records.RecordStore.Drain | MiniMonFlt/src/records.cpp:139-177 | however fast records arrive: every record taken was found, fitted and was copied; then the list was found empty, or one more record was put back because it did not fit or its copy faulted; buffer and list together are the old list and exactly what arrived before the sections entered, in order, and the status, the size and the counters say which case it was |
| Records.DrainIsDetermined | MiniMonFlt/src/records.cpp:139-177 | that contract leaves no choice: list, buffer size, arrivals and faults determine the records returned, the list left, the status and the number of sections |
| Records.RecordStore.Clear | MiniMonFlt/src/records.cpp:180-189 | exactly what was listed and what arrived while an entry was freed is given back, in order, block by block; the list is empty and the drop total zero |
| Records.ClearIsDetermined | MiniMonFlt/src/records.cpp:180-189 | list and arrivals determine what a clearing gives back: it goes on to the next arrivals only while there is an entry to free |
| Records.Fetch | MiniMonClient/src/filter.cpp:249-270 | driver and client together: GetRecords fails if and only if a copy faulted, and then what was copied before is lost; otherwise the client gets exactly the drained records, at most 1000, in order with what stays, and a short reply means an empty list |
| Filter.FilterDriver.PreOperationCallback | MiniMonFlt/src/dispatch.cpp:16-39 | an entry is made if and only if a client is connected and there is room; then a shutdown is appended at once and any other operation asks for its callback; without room one drop is counted, without a client nothing changes |
| Filter.FilterDriver.PostOperationCallback | MiniMonFlt/src/dispatch.cpp:43-67 | draining frees the entry and leaves the list; otherwise it is appended with the drop total of that moment |
| Filter.FilterDriver.Operation | MiniMonFlt/src/dispatch.cpp:16-67 | a whole operation leaves nothing outstanding; the list grows by exactly its record if it was traced and not drained, and not at all otherwise |
| Filter.FilterDriver.ConnectNotify | MiniMonFlt/src/port.cpp:69-90 | a second client is refused and changes nothing; a first one starts with an empty list and no drops, with exactly what the clearing gave back taken off blocks and counter, and the numbering goes on |
| Filter.FilterDriver.DisconnectNotify | MiniMonFlt/src/port.cpp:95-105 | the session is over, exactly what the clearing gave back is taken off blocks and counter, the drop total is zero and the numbering goes on |
| Filter.FilterDriver.MessageNotify | MiniMonFlt/src/port.cpp:110-176 | records leave the list if and only if the message is well formed and asks for them, and then as a drain does, with its status and size and nothing else changed; every other message leaves the store unchanged, and each error answer has its exact condition |
| EnlistRuns.OneSequencePerTransaction | MiniMonFlt/src/transaction.cpp:24-83 | all calls on one instance and transaction that got a context returned the same context and sequence (`EnlistCalls.OutcomeHasCall` says which calls get one) |
| EnlistCalls.OutcomeHasCall | MiniMonFlt/src/transaction.cpp:24-83 | every outcome is that of one call: without a context, and with sequence 0, if and only if one of the call's own steps failed (the lookup, the allocation, the attachment) or its transaction was over when it tried to attach; otherwise with the context attached to the transaction and that context's number; losing the race is no failure |
| EnlistCalls.EveryCallGetsTheContext | MiniMonFlt/src/transaction.cpp:54-68 | while no step fails and the transaction is not over, every call on it comes back with its one context, winner and losers alike |
| EnlistCalls.AllocatesOnlyIfNone | MiniMonFlt/src/transaction.cpp:36-48 | a call allocates a context only if its own lookup found none |
| EnlistCalls.NumbersAreCounted | MiniMonFlt/src/transaction.cpp:48-52 | each increment numbers one context, with the count so far |
| EnlistCalls.CallGoesOn | MiniMonFlt/src/transaction.cpp:24-83 | a call can always take its next step, whatever the other calls do and the Filter Manager answers, and comes back after seven steps at most |
| EnlistCalls.OnlyTheseSteps | MiniMonFlt/src/transaction.cpp:24-83 | besides those steps only a new call by an idle thread and the end of a live transaction are possible |
| EnlistRuns.DistinctSequences | MiniMonFlt/src/transaction.cpp:24-83 | with fewer than 2^32 increments sequences are non-zero, and equal if and only if the transactions are |
| EnlistRuns.NoUseAfterFree | MiniMonFlt/src/transaction.cpp:24-83 | whatever a call or a transaction holds is still allocated |
| EnlistRuns.NoContextLeaks | MiniMonFlt/src/transaction.cpp:24-83 | with no call running and every transaction over, every reference has been released |
| Queue.NoLostWakeUp | MiniMonClient/src/queue.h:22-56 | a sleeping popper means an open queue with no more items than woken poppers, and dually for pushers and free slots; after Close nobody sleeps |
| Queue.NeverAllAsleep | MiniMonClient/src/queue.h:22-56 | pushers and poppers never all sleep against each other |
| Queue.PoppedInOrder | MiniMonClient/src/queue.h:22-46 | popped items are the oldest pushed ones in order, the rest is queued, within capacity |
| BlockingQueues.BlockingQueue.Push | MiniMonClient/src/queue.h:22-32 | the method takes exactly the protocol's push step and keeps its invariant |
| BlockingQueues.BlockingQueue.Pop | MiniMonClient/src/queue.h:35-46 | the method takes exactly the protocol's pop step and keeps its invariant |
| BlockingQueues.BlockingQueue.Close | MiniMonClient/src/queue.h:49-56 | the method closes the queue and wakes everyone |
| PipelineRuns.CapturedIsAccountedFor | MiniMonClient/src/main.cpp:319-369 | at every moment captured = written + queued + held by either thread, a refused or failed batch included |
| PipelineRuns.OutputIsPrefix | MiniMonClient/src/main.cpp:303-336 | the sink's content is always a prefix, in order, of what the driver delivered |
| PipelineRuns.FailureMeansFailedWrite | MiniMonClient/src/main.cpp:319-336 | the writer gives up only after a write of the run failed |
| PipelineRuns.CleanExitDeliversAll | MiniMonClient/src/main.cpp:319-369 | in a run in which no write fails, once both threads have returned every fetched batch was written once, in order, and captured equals written |
| PipelineRuns.RefusalMeansWriteFailure | MiniMonClient/src/main.cpp:339-369 | a false Push implies that a write failed and the stop flag is set |
| PipelineCauses.StopHasCause | MiniMonClient/src/main.cpp:319-369 | the stop flag is set if and only if somebody asked for it or the writer stored it after a failed write |
| PipelineCauses.LeavingHasCause | MiniMonClient/src/main.cpp:339-369 | the drainer has left its loop if and only if it saw the flag, a request failed or Push refused a batch |
| PipelineCauses.LeavingNeedsReason | MiniMonClient/src/main.cpp:345-362 | so a drainer that has left implies the flag, a refused batch or a failed request |
| PipelineCauses.CaptureGoesOn | MiniMonClient/src/main.cpp:339-369 | with no request to stop, no failed request and no failed write both threads stay in their loops and the queue open, however often the driver is idle |
| PipelineCauses.FetchedIsReplied | MiniMonClient/src/main.cpp:345-356 | every non-empty reply becomes one fetched batch, in order |
| PipelineCauses.SleepsAfterShortReply | MiniMonClient/src/main.cpp:345-366 | between a reply and the next look at the flag the drainer sleeps if and only if the reply was shorter than a full batch |
| PipelineRuns.NoDeadlock | MiniMonClient/src/main.cpp:319-369 | in every reachable state one of the two threads can go on by itself if and only if they have not both returned |
| PipelineRuns.ShutdownTerminates | MiniMonClient/src/main.cpp:319-369 | once the stop flag is set, or the drainer has left its loop after a failed request or a refused batch, the threads take at most a computed number of steps, one more for every spurious wake-up |
| PipelineRuns.ShutdownFinishes | MiniMonClient/src/main.cpp:319-369 | from then on the steps are bounded, and whenever no thread can go on both have returned |
| PipelineRuns.EndIsReached | MiniMonClient/src/main.cpp:319-369 | from every state of a shutdown the threads by themselves reach the end within the bound |
| EndToEndSteps.StepKeepsInv | MiniMonClient/src/filter.cpp:249-270 | every step of driver, client and sink keeps them in step: requests and drains, deliveries and replies, accepted records and files; no reply is longer than a batch |
| EndToEndRuns.EveryRecordIsAccountedFor | MiniMonFlt/src/records.cpp:125-189 | at every moment of every session each record listed at its start or appended since is at one place: given to the client, lost to a faulted request, on its way, or taken by a clearing that an earlier session left over |
| EndToEndRuns.KeptInOrder | MiniMonFlt/src/records.cpp:125-189 | and those that no such clearing took stand in append order, from the first delivered to the last listed |
| EndToEndRuns.SessionMissesNone | MiniMonFlt/src/records.cpp:125-189 | they are all that were due if and only if no such clearing has popped a record |
| EndToEndRuns.QuietSweepsNothing | MiniMonFlt/src/port.cpp:95-105 | with no clearing left over at the start none takes a record of the session |
| EndToEndRuns.LostToFaults | MiniMonFlt/src/records.cpp:157-165 | a session has lost records to faults if and only if a request failed after some had been handed over, and it has lost exactly those |
| EndToEndRuns.NoRecordIsMissing | MiniMonFlt/src/records.cpp:125-189 | once both threads have returned the delivered records are, in order, all that were due but for those still listed, if and only if neither has happened |
| EndToEndProgress.RequestGoesOn | MiniMonClient/src/filter.cpp:249-270 | a drainer that fetches can ask the driver or fail on its own, and once it has asked the driver can take its next step or answer |
| EndToEndProgress.DrainComesToItsEnd | MiniMonFlt/src/records.cpp:139-177 | each step of the drain brings the answer nearer, by a computed measure that is zero when the answer is due |
| EndToEndProgress.AnswerIsWhatWasHanded | MiniMonClient/src/filter.cpp:249-270 | the reply is the records handed over, and fails if and only if a copy faulted |
| EndToEndProgress.WriteGoesOn | MiniMonClient/src/main.cpp:303-314 | a writer with a line left can write it: it succeeds if the stream takes it, and otherwise fails with the files as they are |
| EndToEnd.RecordHasNumbers | MiniMonFlt/src/records.cpp:100-134 | the client finds the low 32 bits of the creation number and of the drop total in the fields of those names |
| EndToEndLosses.FaultLosesRecords | MiniMonFlt/src/records.cpp:157-165 | some session loses a record: its drain copied it before a later copy faulted |
| EndToEndLosses.ClearingTakesRecord | MiniMonFlt/src/port.cpp:95-105 | some session loses a record, appended after its client had connected, to the clearing that the previous client's disconnect left over |
| EndToEndFiles.FilesFollowTheLog | MiniMonClient/src/main.cpp:303-369 | at every moment of every session, whatever fails: the client was given records of the append log in append order, the sink accepted a prefix of them, and the files hold exactly those, but for a part of the one record at which a write failed |
| EndToEndFiles.LogIsInFiles | MiniMonClient/src/main.cpp:303-369 | once both threads have returned and no write failed, the files hold exactly the lines of the delivered records, which are log records in append order: each altitude's in its own file, or all in one |
| EndToEndFiles.LogReadsBack | MiniMonClient/src/main.cpp:303-369 | and a reader gets from the file of every altitude, or from the one file of merged output, the labels and the columns of exactly the delivered log records that belong there, in append order; a base file that did not take its header has none |
| Memory.MapMdl | MiniMonFlt/src/memory.cpp:7-29 | a mapping is used exactly when it describes the expected address, and the size shrinks to it; without one the size stays |
| Memory.GetReadableBuffer | MiniMonFlt/src/memory.cpp:65-94 | a new system buffer goes first, never at DISPATCH_LEVEL, with at most what the completion wrote; then the list if it describes the buffer, with at most what it maps; then the buffer itself with the whole size if it may be read; otherwise nothing |
| Memory.IsRawBufferReadable | MiniMonFlt/src/memory.cpp:35-61 | never at DISPATCH_LEVEL and never null; an address of the system if and only if it was probed or the kernel is calling; any other if and only if it is probed now in the caller's process |
| Memory.CopyReadableBuffer | MiniMonFlt/src/memory.cpp:98-109 | success if and only if the source is there and does not fault; then an exact copy, and never a byte beyond the size |
| Capture.Supplement.PopulateInput | MiniMonFlt/src/trace/supplement/deviceio.cpp:55-118 | in the request's own fields: the input half holds the first bytes of the system buffer, or for fast I/O and METHOD_NEITHER of the caller's buffer if it may be read, and is truncated if and only if it is shorter than the input; the output half is written for METHOD_IN_DIRECT alone |
| Capture.Supplement.PopulateOutput | MiniMonFlt/src/trace/supplement/deviceio.cpp:122-174 | in the request's own fields: the output half holds what was written, at most the output length, from the system buffer for METHOD_BUFFERED and from the list or the raw buffer otherwise, and is truncated if and only if it is shorter than both the output length and what was written; METHOD_IN_DIRECT leaves it, and the input half is kept |
| Capture.Supplement.PopulateSecondInput | MiniMonFlt/src/trace/supplement/filesystem.cpp:13-35 | the second input of METHOD_IN_DIRECT goes to the output half and nowhere else, truncated if and only if it is shorter than its buffer |
| Capture.Supplement.PopulateEaList | MiniMonFlt/src/trace/supplement/ea.cpp:18-39 | the list half alone is filled before the operation, from the captured list, truncated if and only if shorter |
| Capture.Supplement.PopulateQuery | MiniMonFlt/src/trace/supplement/directory.cpp:45-97 | the payload half alone is filled after it, from what the completion wrote, truncated if and only if shorter than that and than the buffer |
| Capture.TakenIsFaithful | MiniMonFlt/src/trace/supplement/deviceio.cpp:106-118 | captured means 0 < size <= capacity, bytes equal to the source's prefix and truncated if and only if size < announced; not captured means nothing is set |
| Capture.CaptureControl | MiniMonFlt/src/trace/supplement/filesystem.cpp:48-156 | over both phases from a zeroed record each half says what it holds in the request's own fields: whose bytes, how many, and that it is truncated if and only if shorter than the input, the second input or what was written, by method |
| Capture.CaptureEas | MiniMonFlt/src/trace/supplement/ea.cpp:18-93 | the same for the list and the payload of an extended-attribute query |
| Capture.CapturedChainShows | MiniMonFlt/src/trace/supplement/directory.cpp:45-71 | a captured chain renders as far as it was captured, is marked if and only if content is missing, and never without the driver's truncation bit |
| CapturedText.CapturedFillingShows | MiniMonClient/src/trace/details/directory.cpp:87-134 | of a captured array that fills its buffer the whole elements show, marked if and only if bytes are missing |
| CapturedText.CapturedArrayShows | MiniMonClient/src/trace/details/info.cpp:259-293 | of a captured counted array the whole elements show, fewer than announced if and only if an element byte is missing, which behind the header is when the driver's bit is set |
| CapturedText.CapturedHeaderCut | MiniMonClient/src/trace/details/filesystem.cpp:212-288 | a captured array that ends inside its header renders as nothing, without a mark, although the driver's bit is set |
| CapturedText.CapturedRecordsShow | MiniMonClient/src/trace/details/filesystem.cpp:539-571 | of captured journal records those whose fixed part is there show, and the bit that marks them is set if and only if bytes are missing; a capture that ends inside the next USN renders as nothing |
| Payload.Advance | MiniMonClient/src/trace/payload.h:62-73 | the offset moves exactly when the entry ends inside the payload |
| Payload.CutNameIsPrefix | MiniMonClient/src/trace/payload.h:76-83 | a name cut short renders as a prefix of the whole name and the mark |
| Payload.CutAsciiNameIsPrefix | MiniMonClient/src/trace/payload.h:111-116 | the same for names kept in ASCII |
| Chains.RenderChain | MiniMonClient/src/trace/details/quota.cpp:28-130 | on arbitrary bytes below 2^32 every read is in bounds, the loop ends, the index does not wrap and the trim does not underflow; the text is the chain's entries joined, or followed by the mark, and nothing for an empty payload (the walkers of notifications, streams, attributes, SID lists and quotas are this loop on their layouts) |
| ChainRounds.RoundTrip | MiniMonClient/src/trace/details/info.cpp:126-157 | a whole encoded chain gives back every entry, whole, and no mark |
| ChainRounds.ExtentIsLength | MiniMonClient/src/trace/details/info.cpp:223-256 | the walker takes the length field for what the layout says: bytes for wide names and SIDs, characters for hard links, one byte for attribute names, name and value lengths for attributes |
| ChainRounds.PrefixShowsPrefix | MiniMonClient/src/trace/details/directory.cpp:50-84 | on any prefix exactly the entries whose header (for SIDs: header and SID) lies in it, only the last one shortened, and a mark if and only if a header or name byte is missing and the prefix is not empty |
| Walkers.NameOfRest | MiniMonClient/src/trace/payload.h:76-116 | of what follows a header only the announced part decides how the name renders |
| Walkers.WholeDirectory | MiniMonClient/src/trace/details/directory.cpp:50-84 | a whole listing renders as its numbered names, unmarked |
| Walkers.CutDirectory | MiniMonClient/src/trace/details/directory.cpp:50-84 | for any cut each entry's text: in full, or for the last one a marked prefix of its name |
| Walkers.CutChain | MiniMonClient/src/trace/details/quota.cpp:28-130 | for every layout the whole text of a chain cut anywhere: the texts of the entries that show, each as far as it is there, joined if the last one shows and followed by the mark otherwise; no text if nothing is there |
| Walkers.CutListing | MiniMonClient/src/trace/details/directory.cpp:50-84 | the same for a directory listing down to the names |
| Walkers.RenderEntriesPayload | MiniMonClient/src/trace/details/directory.cpp:50-84 | the walker of directory entries makes that text |
| Walkers.RenderEaNamesPayload | MiniMonClient/src/trace/details/ea.cpp:28-60 | the walker of attribute names, down to the text |
| Walkers.WholeEaList | MiniMonClient/src/trace/details/ea.cpp:28-60 | a whole attribute list renders as its names with bars between |
| Walkers.DecimalSpells | MiniMonClient/src/trace/details/directory.cpp:66 | the digits of an index spell it, without leading zeros |
| Layouts.ListingOfNames | MiniMonClient/src/trace/details/directory.cpp:50-84 | a listing built from names, each announced by its byte count, renders as exactly those names, numbered |
| Layouts.OneName | MiniMonClient/src/trace/details/directory.cpp:50-84 | the fourteen bytes that list the name A render as `1: A` |
| Layouts.WholeChanges | MiniMonClient/src/trace/details/directory.cpp:257-293 | a whole notification shows each change's action and whole name |
| Layouts.StreamReads | MiniMonClient/src/trace/details/info.cpp:126-157 | a stream entry shows its name and its two sizes |
| Layouts.RenderEasPayload | MiniMonClient/src/trace/eas.cpp:21-64 | the walker of extended attributes, down to names, lengths, values and flags |
| Layouts.WholeEas | MiniMonClient/src/trace/eas.cpp:21-64 | a whole attribute list shows every attribute with its whole name and whole value |
| Layouts.OwnerReads | MiniMonClient/src/trace/details/quota.cpp:28-130 | a SID or quota entry shows its owner, and a quota its figures |
| Layouts.RenderHardLinksPayload | MiniMonClient/src/trace/details/info.cpp:223-256 | the walker of hard links for both layouts, down to the parent and the name |
| Layouts.WholeLinks | MiniMonClient/src/trace/details/info.cpp:223-256 | a whole answer, with names announced by their character counts, shows every link's parent and whole name, unmarked |
| Links.RenderHardLinks | MiniMonClient/src/trace/details/info.cpp:223-256 | on arbitrary bytes the entries of chain or count, whichever is shorter, and the mark by the count, for counts up to 0xFFFFFFFF |
| Links.PrefixShowsLinks | MiniMonClient/src/trace/details/info.cpp:223-256 | for every count and every prefix with both header fields: of the entries the count leaves in, exactly those whose header lies in it, marked if and only if the count exceeds the chain or a byte of one it leaves in is missing |
| Links.WhenMarkIsRight | MiniMonClient/src/trace/details/info.cpp:249-255 | for every count and cut, exactly when the mark says that content is missing |
| Links.CountMustMatch | MiniMonClient/src/trace/details/info.cpp:249-255 | the mark is right at every cut if and only if the count is the chain's length |
| Arrays.ReadCounted | MiniMonClient/src/trace/details/info.cpp:259-293 | the elements present up to the count, marked if and only if fewer; no wrap for a count of 0xFFFFFFFF |
| Arrays.RenderRanges | MiniMonClient/src/trace/details/filesystem.cpp:261-288 | the text of trim ranges and file regions on arbitrary bytes |
| Arrays.RenderList | MiniMonClient/src/trace/details/filesystem.cpp:212-258 | the text of process ids and prefetch lists, the latter's start depending on their type |
| Arrays.RenderFilling | MiniMonClient/src/trace/details/directory.cpp:87-134 | the text of arrays that fill the buffer, marked by the driver's bit or when nothing is whole |
| Arrays.PrefixShowsElements | MiniMonClient/src/trace/details/filesystem.cpp:652-679 | on any prefix behind the header exactly the whole elements, marked if and only if an element byte is missing |
| Arrays.CutRanges | MiniMonClient/src/trace/details/filesystem.cpp:261-288 | the text of ranges cut anywhere behind the header: the whole elements, marked if and only if an element byte is missing |
| Arrays.CutList | MiniMonClient/src/trace/details/filesystem.cpp:212-258 | the same for process ids and prefetch lists |
| ArrayLayouts.CutProcessIds | MiniMonClient/src/trace/details/info.cpp:259-293 | process ids built from their fields: the whole ones behind the eight-byte header |
| ArrayLayouts.CutPrefetch | MiniMonClient/src/trace/details/filesystem.cpp:212-258 | a prefetch list built from its fields: the ids start behind a context of eight bytes for types 3 and 4, and without one for any other |
| ArrayLayouts.CutTrim | MiniMonClient/src/trace/details/filesystem.cpp:261-288 | trim ranges built from key, count and ranges of sixteen bytes |
| ArrayLayouts.CutRegions | MiniMonClient/src/trace/details/filesystem.cpp:652-679 | file regions built from flags, counts and regions of twenty-four bytes |
| Arrays.PrefixShowsFilling | MiniMonClient/src/trace/details/filesystem.cpp:574-598 | on any prefix exactly the whole elements, none if and only if the first is incomplete |
| UsnRecords.RenderRecords | MiniMonClient/src/trace/details/filesystem.cpp:539-571 | the journal walker on arbitrary bytes: in bounds, terminating, the text of what the scan finds |
| UsnRecords.PrefixShowsRecords | MiniMonClient/src/trace/details/filesystem.cpp:504-571 | on any prefix exactly the records whose fixed part is in it, whole but for the last |
| UsnRecords.CutName | MiniMonClient/src/trace/details/filesystem.cpp:485-502 | of a cut record the fields are whole, the name is a prefix and is marked if and only if a byte of it is missing |
| UsnRecords.RecordReads | MiniMonClient/src/trace/details/filesystem.cpp:485-534 | a version 2 or 3 record built from its fields shows its version, its fixed part and its own name, wherever the name starts |
| UsnRecords.OtherReads | MiniMonClient/src/trace/details/filesystem.cpp:504-536 | a record of any other version shows as its number |
| Flags.CompositesPrecedeComponents | MiniMonClient/src/trace/names.cpp:30-45 | the nested loops return true if and only if no entry is a proper part of a later one |
| Flags.RenderFlags | MiniMonClient/src/trace/names.cpp:48-74 | the text is the names in table order that still match, then what is left in hexadecimal |
| Flags.WordsArePicks | MiniMonClient/src/trace/names.cpp:48-74 | for every table and flags: an entry's name is shown if and only if all its bits are set and none belongs to a shown entry before it, in table order, and the hexadecimal rest is the bits no shown entry has |
| Flags.CheckIsExact | MiniMonClient/src/trace/names.cpp:30-74 | for non-zero masks the table passes the check with distinct masks if and only if every entry is rendered for some flags |
| Flags.OwnMaskRendersOwnName | MiniMonClient/src/trace/names.cpp:48-74 | in a table that passes, each mask alone renders as just its name |
| Flags.EveryBitRenderedOnce | MiniMonClient/src/trace/names.cpp:48-74 | the masks rendered and the remainder partition the bits of the flags |
| Csv.EscapeCsvField | MiniMonClient/src/trace/format.cpp:126-158 | quoted if and only if the field has a quote or a delimiter, quotes doubled, control characters spelled out |
| Csv.CleanUnitSpells | MiniMonClient/src/trace/format.cpp:116-148 | exactly the control characters of ASCII and Latin-1 are spelled out, with two digits that give the code back |
| Csv.RenderLine | MiniMonClient/src/trace/format.cpp:228-239 | a line is the escaped fields with delimiters between and the newline at the end |
| Csv.FileReadsBack | MiniMonClient/src/trace/format.cpp:116-158 | the reader recovers every record of a file of rendered lines, field by field, control characters spelled out |
| Csv.LineReadsBack | MiniMonClient/src/trace/format.cpp:228-239 | a reader gets from the line of one record exactly COLUMN_COUNT fields, the cleaned columns, and stops right behind it |
| Csv.OneNewline | MiniMonClient/src/trace/format.cpp:228-239 | the last character of a line is its one newline and its one control character |
| Csv.CleanKeepsText | MiniMonClient/src/trace/format.cpp:116-118 | text without control characters comes back exactly |
| Sink.Writer.Open | MiniMonClient/src/sink.cpp:22-25 | opening succeeds with the open alone; the base file holds what its stream took of the header and the stream is sound if and only if that is all of it |
| Sink.Writer.OpenFile | MiniMonClient/src/sink.cpp:59-77 | a failed open leaves no trace, a new file starts with the header, an open one is left alone |
| Sink.Writer.Write | MiniMonClient/src/sink.cpp:28-36 | a write succeeds if and only if the stream is sound, or opens and takes the header, and takes the line; then the line is at the end of the file of its altitude and nothing else changed; a failed one leaves at most a part of the line there |
| Sink.Writer.Flush | MiniMonClient/src/sink.cpp:39-46 | a stream whose flush fails takes nothing more; the others are left alone |
| Sink.Writer.WriteRecords | MiniMonClient/src/main.cpp:303-314 | a run of writes stops at the first that cannot succeed, or takes every line and flushes, whose outcome changes nothing but which streams are sound; the files hold exactly the lines routed to them so far, but for a part of the failing one |
| Sink.PathsAreDistinct | MiniMonClient/src/sink.cpp:80-86 | two altitudes share a path if and only if they are equal, and none has the base path |
| Sink.RouteHasParts | MiniMonClient/src/sink.cpp:28-86 | a line goes to the base path, or when splitting and it has an altitude to the path with a dot and the altitude before the extension |
| Sink.SplitIsPartition | MiniMonClient/src/sink.cpp:28-86 | the file of each altitude holds the header once and then the lines with that altitude in order, the base file those without one behind what it took of the header |
| Sink.LinesSoFarAreStored | MiniMonClient/src/sink.cpp:28-36 | after a failed write the file of each altitude still starts with its beginning and all its lines so far |
| Sink.OnlyRoutedFiles | MiniMonClient/src/sink.cpp:28-36 | there is no other file |
| Sink.MergedHoldsAll | MiniMonClient/src/sink.cpp:28-36 | without splitting one file holds every line in order |
| Sink.FileReadsBackRecords | MiniMonClient/src/sink.cpp:28-86 | the reader gets from each file that begins with the header the labels and then the columns of exactly the records routed to it, of merged output all of them; an altitude without a file has none |
| Arguments.ParseParameters | MiniMonClient/src/main.cpp:95-163 | the index loop computes the parse, failing on repeated switches and missing operands |
| Arguments.ParserMatchesGrammar | MiniMonClient/src/main.cpp:48-163 | the parser returns p if and only if the arguments are a concatenation, in any order, of groups of different kinds that describe p |
| Arguments.SwitchesAre | MiniMonClient/src/main.cpp:48-93 | the switches are `/s`, `/?`, `/f` and `/v`, letters in either case, and nothing else; what starts with a slash ends a list of volumes |
| Arguments.SpellingIsUnique | MiniMonClient/src/main.cpp:48-163 | no argument list is a concatenation of groups in two ways or describes two values |

## Left out

- The text of single entries and columns: names of codes and flags, SIDs, times, GUIDs, paths and stack traces are given texts (parameters of the walkers). A preview of an attribute value longer than 32 bytes carries a mark of its own.
- Fixed-size structures: their renderers have one branch each and read nothing variable.
- Conversion to UTF-8: files hold UTF-16 code units; unpaired surrogates would be replaced on the way out.
- Reading escaped control characters back to the original: a backslash is not escaped, so `\x0A` in the text is ambiguous.
- The header's labels: `Sink.FileReadsBackRecords` takes any labels that the line renderer leaves as they are.
- Paths: base path and extension are taken as the path library splits them, and distinct strings as distinct files, so a file system's case rules and characters that are not allowed in names are not modelled.
- Lower-casing of arguments outside ASCII: no other character lowers to one of the switch names.
- Validation of parsed parameters, version check, volume attachment, loading, unloading and console output of the client.
- The console loop that reports counts, and the dropped count in it: the counter appears as the captured and written totals of `Pipeline`, which are unbounded like the client's 64-bit sizes.
- Enlist's early return: without a transaction, or above PASSIVE_LEVEL, it returns 0 and touches nothing; and the outcome of `FltEnlistInTransaction`, which the source only asserts.
- IRQL, probing and structured exceptions beyond their outcomes: each is a condition or an oracle of the call.
- The remaining supplements (create, set information, volume, quota, security and others) and the file-name half of a directory query: the same capture code on one buffer.
- Device-control and file-system-control layouts: the two supplements have equal halves and share one class; their differences (fast I/O, the IRQL check of buffered output) are kept.
- The CPU memory model: interlocked operations and locked sections are sequentially consistent steps.
- DriverEntry's cleanup after a failed start: it runs the unload steps with no callback ever in flight.
- Records.RecordStore.Clear: ends only if records stop arriving, which the code relies on as well; the driver's state machine has no such bound.
- A session of `EndToEnd` runs from a connected client to before its disconnect; whatever happened before is any run of the driver.
- Sink.Writer.WriteRecords: a stream takes a line when `Write` returns, as if it had no buffer; the source's streams buffer 1 MB, so there "written" means accepted by the stream. A flush may fail unnoticed and break its stream; what it then does not store is not modelled.
- PipelineRuns.ShutdownFinishes: that a thread that can step does step is the scheduler's part.
