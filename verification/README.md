# A model of the virtual SCSI host driver

The driver (`vsc_main.c`, with `vsc_ioctl.c` for the device file) is a SCSI host whose target is a user process.
It takes commands from the SCSI mid-layer, hands them to the target in batches of up to four, moves data between
kernel scatter-gather lists and user iovecs, and completes each command from the target's response. Aborts, device
resets, detaches and an offline timer may end the same command at the same time. This project models that core and
proves what it promises.

- `Buffers`, `SgCopy`: the copy routines, as loops over arrays, against one specification on the concatenated bytes.
- `Bitmap`: the pool's words of 64 bits, refining a set of slot numbers.
- `Errors`, `Seqs`: error codes, and queues as duplicate-free sequences.
- `HostState`: a host as a value, and what each region under the host lock does to it.
- `Lifecycle`: the transition system. A step is one region under the host lock or one action outside it; any number
  of submitters, readers, responders, error handlers and sweeps interleave. A ghost book says who owes what.
  `CommandSafety`, `Fifo`, `Sweep`, `AbortRace` and `AbortVerdict` are the theorems about every run, `ResetRace` those
  about a device reset over all sibling hosts at once.
- `Calls`: whole calls run alone, as functions; `VscHost` and `DeviceReset`: the host objects whose methods compute
  them in place; `DataPath`: the write that carries data and responses, on the host object and the commands' memory;
  `Refinement`: each call is a run of the transition system.
- `SplitRead`: the batch read region by region. `SplitRuns`: runs in which any number of reads are taken apart, their
  marks and rollbacks interleaving with everything else. `SplitReaders`, `ReadOnce`: whose commands a read serves, and
  when no request is read twice. `SlotReuse`: a slot that changes hands during a read.
- `AttachTimer`: attach against the offline timer, with any number of attaching threads.
- `Dispatch`, `QueueCommand`: the round-robin over sibling hosts.
- `Events`, `EventHost`: event delivery. `EventWait`: the verdict an error handler waits for. `Ownership`: which open file owns which host.

Choices of the model. A slot that was never allocated has stat INIT and count 0, where the driver has uninitialised
memory. The batch read, success or rollback, is one step, except in the modules that take it apart. A put (decrement
and clearing of the bit) is one step. An error handler is called only for a command that is still live. Segments and
iovecs are separate memory and their lengths sum to less than 2^31. A fault of a user copy is an oracle that says
which copy fails; it happens before any byte of that copy moves. The retry of `test_and_set_bit` cannot happen under
the host lock. A host record has at most 2048 * 2048 commands. `PAGE_SIZE` is 4096. A request number names one
submission: a command that the mid-layer submits again is a new request. A release arms the offline timer if its
module setting is positive; `Detach(true)` stands for such a release.

Five things the code does that its comments do not say.

- A faulted batch read puts its commands back in reverse (`Fifo.FaultReverses`), where the comments at vsc_main.c:2469
  and 2477 aim at the original order; it keeps the order if and only if one command was waiting
  (`Fifo.FaultKeepsOrderIff`).
- That rollback does not look at what has become of its slots since the lock was dropped; the comment at
  vsc_main.c:2396-2398 sees no harm in a reset during the read. If somebody took a command meanwhile, it is queued again
  and can be completed twice (`SplitRead.SweptMeanwhile`, `SplitRead.RolledBackTwice`). The rollback keeps the invariant
  that exactly-once completion rests on if and only if all of its slots are still linked (`SplitRuns.RollBackSoundIff`),
  and over all runs in which they are, completion is exactly-once with the read taken apart
  (`SplitRuns.ExactlyOnceSplit`). Linked slots may hold other commands by then: the rollback puts back its own commands
  and no others if and only if each slot is linked and still at the allocation that was read
  (`ReadOnce.RollBackOwnIff`), which its serial tells (`ReadOnce.OwnBySerial`). Otherwise the target can read a command
  twice although every slot is linked (`SlotReuse.LinkedButReadTwice`). `ReadOnce.RollBackOnceIff` is the exact
  condition, and over all runs in which marks and rollbacks find their slots as they were read, no request is read
  twice (`ReadOnce.NothingReadTwice`).
- The abort handler can report success before its command is completed (`AbortVerdict.SuccessBeforeCompletion`). A
  command that it finds on a queue it completes itself (`AbortVerdict.FoundIsAborted`); for one that it does not find,
  the driver's state settles completion if and only if nobody but error handlers holds the slot
  (`AbortVerdict.SettledIff`).
- Both error handlers read the verdict of their event twice, and the event can still be answered in between: the abort
  handler can then return success for a command it left queued, or failure for one it completed. The two readings
  agree if and only if no such late answer turns the verdict (`EventWait.LateCall`).
- The round-robin is fair in every window if and only if a whole number of rounds fits into 2^32
  (`Dispatch.AlwaysFairIff`).

## Model

| member | source | states |
|---|---|---|
| SgCopy.Seek | vsc_main.c:2834-2844 | the resume state after the seek points at byte `offset` of the flattened list; no entry is found exactly when the offset is not inside the data |
| SgCopy.AfterChunk | vsc_main.c:2877-2914 | one chunk keeps the walk's meaning in all three ways it can go on: stopping inside the entry, at its end, or moving to the next entry |
| SgCopy.RunsOut | vsc_main.c:2875-2917 | when the inner loop runs out of entries `sl_first` may be stale, and `sl_offset` equal to the entry count keeps that harmless |
| SgCopy.Finished | vsc_main.c:2870-2920 | at the end exactly min(total - offset, sum of iovec lengths) bytes have been moved |
| SgCopy.WalkToIovec | vsc_main.c:2870-2920 | from any resume state standing at `offset` the two nested loops deliver exactly the slice from there, byte for byte, or stop at the first faulting copy with what came before it delivered |
| SgCopy.WalkFromIovec | vsc_main.c:2998-3048 | the same loops in the other direction |
| SgCopy.CopySgToIovec | vsc_main.c:2814-2932 | the iovecs, read as one, get the slice of the flattened list at the offset, the rest of them and the list unchanged; length, refusals, faults (with what they leave) and the two READ/WRITE length checks; without a fault the result of every request that is not refused, and an honest READ/WRITE succeeds if and only if it moves the whole buffer |
| SgCopy.CopySgFromIovec | vsc_main.c:2942-3060 | the flattened list gets the iovec bytes at the offset, every other byte unchanged; the same lengths, errors and if-and-only-if |
| SgCopy.CopyDataToIovec | vsc_main.c:2659-2694 | the flat form delivers the bytes from the offset on, as many as both sides hold |
| SgCopy.CopyDataFromIovec | vsc_main.c:2705-2740 | the flat form stores the iovec bytes from the offset on and changes nothing else |
| SgCopy.TransferSucceedsIff | vsc_main.c:2862-2931 | a READ/WRITE transfer that does not fault succeeds if and only if offset 0, announced total equal to the buffer length, at least one iovec, and iovecs that cover the buffer |
| SgCopy.LengthCheckIs | vsc_main.c:2923-2931 | a short or long total fails READ and WRITE only; any other command returns the number of bytes moved |
| SgCopy.ReadWriteOpcodes | vsc_main.c:915-930 | READ and WRITE are operations 08h and 0Ah of the command groups of 6, 10, 12 and 16 bytes |
| SgCopy.WriteThenRead | vsc_main.c:2814-3060 | bytes written at an offset through one fragmentation come back through any other of the same total |
| Bitmap.BitUpdates | vsc_main.c:631-633 | setting or clearing one bit of a word touches no other bit |
| Bitmap.PoolBits.constructor | vsc_main.c:3872-3877 | a fresh bitmap is the empty set, padding bits clear |
| Bitmap.PoolBits.FindFirstZero | vsc_main.c:621-630 | the least index not in the set, or the size when the set is full |
| Bitmap.PoolBits.TestAndSet | vsc_main.c:631-633 | the set gains exactly that index and the old membership is returned; padding bits stay clear |
| Bitmap.PoolBits.Claim | vsc_main.c:621-633 | the least index not in the set is set and returned, or the size when the set is full |
| Bitmap.PoolBits.Clear | vsc_main.c:683-690 | the set loses exactly that index |
| Lifecycle.StepKeeps | vsc_main.c:1113-1162 | every region under the host lock, and every action between regions, keeps counts, bits, queues, serials and the ledger of completions consistent |
| Lifecycle.RunKeeps | vsc_main.c:857-884 | so does every finite run of any interleaving |
| CommandSafety.ExactlyOnce | vsc_main.c:3489-3565 | no command has `scsi_done` called twice, and at every moment an accepted command is in exactly one of: completed, queued, in the hands of the one path that took it off its queue |
| CommandSafety.AnyResponse | vsc_main.c:3484-3512 | the target may send any response at any time; one that fails the checks changes nothing |
| CommandSafety.StaleExactly | vsc_main.c:3184-3207 | a message naming an earlier allocation of a slot passes the checks if and only if the slot is queued, read and unanswered, and holds that allocation or one a multiple of 2^32 later |
| CommandSafety.StaleNeverLands | vsc_main.c:3490-3517 | with fewer than 2^32 allocations in between, only the named allocation itself is ever accepted |
| CommandSafety.OneAnswer | vsc_main.c:3515-3519 | after an accepted response no slot holding that allocation is ever queued again, and the allocation is recorded as answered once |
| CommandSafety.PoolSafe | vsc_main.c:611-692 | counts are never negative, equal the base reference plus the holders, and are positive exactly when the bit is set; allocation fails if and only if all bits are set and never hands out a queued or referenced slot |
| CommandSafety.QueuesConserved | vsc_main.c:964-974 | the three queues are disjoint and duplicate-free, every queued slot has a request, `io_running` counts them |
| CommandSafety.QuietPool | vsc_main.c:671-692 | with nobody submitting, finishing or holding on, the number of set bits is `io_running` |
| Fifo.FifoDelivery | vsc_main.c:862-882 | unless a read faults with several commands waiting, what the target has seen, then `cmpQ`, then `reqQ` is the enqueue order less the commands removed before delivery, for any number of concurrent start loops |
| Fifo.FaultReverses | vsc_main.c:2468-2481 | a faulted read conserves the commands and leaves the reversed batch in front of the rest |
| Fifo.FaultKeepsOrderIff | vsc_main.c:2468-2481 | a faulted read keeps the order of `cmpQ` if and only if one command was waiting |
| Sweep.PassedStays | vsc_main.c:861-883 | no step brings a command back to a queue it has passed, with the batch read as one step |
| Sweep.SweepMissesNothing | vsc_main.c:1113-1162 | whatever runs whenever the sweep drops the lock, a command queued when it starts is on no queue when it ends and is completed or about to be; all the sweep took it has completed |
| Sweep.SweepTerminates | vsc_main.c:1119-1159 | without new arrivals the number of the sweep's own moves is bounded, however many moves others make |
| Sweep.QuietSweepEmpties | vsc_main.c:1113-1162 | then it ends with all three queues empty and `io_running` 0 |
| AbortRace.ConfirmedAbort | vsc_main.c:1392-1411 | after a confirmed abort, in every continuation, the command is on no queue and is completed or in the hands of one path, never both, never twice |
| AbortRace.HandlerCompletes | vsc_main.c:1396-1408 | a command the handler found queued is completed with DID_ABORT by the handler and by nobody else |
| AbortRace.LateAbort | vsc_main.c:1409-1418 | a command the handler did not find queued leaves the host as it was, and is completed for certain when the slot's count is made of error handlers' references only |
| AbortVerdict.FoundIsAborted | vsc_main.c:1392-1408 | a command found by the handler's own test under the lock has been completed with DID_ABORT in every continuation in which the handler has let go of the slot |
| AbortVerdict.SettledIff | vsc_main.c:1392-1423 | for a command not found, every run to the same state of the driver has it completed if and only if nobody but error handlers holds the slot |
| AbortVerdict.SuccessBeforeCompletion | vsc_main.c:1392-1423 | a run in which the handler returns success while the command is not yet completed |
| AbortVerdict.EitherOutcome | vsc_main.c:1392-1423 | two runs to the same records of the driver, one with the command completed and one without |
| AbortRace.FailedAbort | vsc_main.c:1353-1423 | over every run of a handler that gives up, with anything of anybody in between: its own steps change no queue, no completion and no other slot, and its slot's count by 0 in sum; while its reference is out the slot keeps its bit and is not allocated anew |
| AbortRace.HandlerCanLeave | vsc_main.c:1412-1423 | a handler that has entered can always leave by its own steps alone |
| Calls.ReachableReady | vsc_main.c:964-974 | every reachable state grants what the calls below rely on |
| Calls.GetBatchIs | vsc_main.c:2366-2481 | a read takes the first four commands, or all if they are fewer, marks them and moves them to the end of `rspQ`; a faulted one leaves them reversed at the head of `cmpQ` |
| Calls.StartAllIs | vsc_main.c:857-884 | the start loop moves all of `reqQ` behind `cmpQ` in order, marks the moved commands, lowers `Qdepth` by their number modulo 2^32, and does nothing else |
| Calls.BatchRefines | vsc_main.c:886-913 | the batch form equals the one-at-a-time form if and only if `Qdepth` counts `reqQ` |
| Calls.SubmitCallIs | vsc_main.c:1058-1080 | a submission fails without effect if and only if the pool is full; otherwise the command is last in `cmpQ`, in the least free slot, with the next serial |
| Calls.BatchStopsAtFirstBad | vsc_main.c:3621-3631 | a batch accepts responses up to the first one that the host does not await or whose tag the batch already used; a repeated (tag, sn) fails at its second occurrence |
| Calls.BatchCompletes | vsc_main.c:3545-3577 | it completes exactly the accepted ones, in order, each with the result its status words map to |
| Calls.StatusMeans | vsc_main.c:2288-2324 | which command statuses complete with which host byte, and that the status byte holds the low seven bits of the target's status |
| Calls.BatchReleases | vsc_main.c:3515-3580 | each accepted response leaves its slot on no queue, marked answered and with one reference less, and `io_running` falls by their number |
| Calls.OnlyThePrefixCounts | vsc_main.c:3621-3631 | the state left behind is the one before the failing response |
| Calls.BatchSucceedsIff | vsc_main.c:3621-3637 | a batch goes through if and only if the host awaits every response and no tag repeats |
| Calls.BatchTouchesNothingElse | vsc_main.c:3467-3589 | slots the batch does not name keep their record, bit and place |
| Calls.SweepAllIs | vsc_main.c:1113-1162 | the sweep run alone empties the queues, completes each command once in queue order with the callback's result, and drops one reference each |
| Calls.AbortCallIs | vsc_main.c:1342-1424 | with an event slot and a confirmed abort the command is on no queue, completed with DID_ABORT if it was still queued, references released; otherwise the host is exactly as before |
| VscHost.Ctrl.constructor | vsc_main.c:3831-3906 | an empty host with all slots free |
| VscHost.Ctrl.CmdAlloc | vsc_main.c:611-649 | computes the allocation: least free slot, serial cut to 32 bits, count 1 |
| VscHost.Ctrl.CmdGet | vsc_main.c:657-664 | one reference more |
| VscHost.Ctrl.CmdPut | vsc_main.c:671-692 | one reference less, the last one clearing the bit |
| VscHost.Ctrl.StartIo | vsc_main.c:857-884 | computes the start loop |
| VscHost.Ctrl.StartIoNew | vsc_main.c:886-913 | computes the batch form |
| VscHost.Ctrl.EnqueueCmdAndStartIo | vsc_main.c:964-974 | enqueues, counts, and runs the start loop |
| VscHost.Ctrl.Submit | vsc_main.c:1058-1080 | computes the submission |
| VscHost.Ctrl.PutBack | vsc_main.c:2468-2481 | the rollback leaves the reversed batch in front of `cmpQ`, `rspQ` as before the read, stat REQUEST |
| VscHost.Ctrl.GetMulti | vsc_main.c:2342-2484 | errors without effect; otherwise computes the batch read or its undoing, and returns tag and serial of each command with the two counts |
| VscHost.Ctrl.ResponseScsiCmd | vsc_main.c:3467-3589 | accepted if and only if tag, stat, serial and list membership agree; otherwise no effect |
| VscHost.Ctrl.ResponseMultiScsiCmd | vsc_main.c:3591-3637 | a count of 1 to 4 goes through if and only if the host awaits each of the first `count` responses and their tags are distinct, and then all of them are completed, in order; a count of 0 or above 4 is refused, a negative one does nothing |
| VscHost.AnswerCountedIs | vsc_main.c:3610-3637 | whatever the count, exactly the good responses at the front are completed and released, and the answer tells whether these were all |
| DataPath.XferFromUser | vsc_main.c:3071-3144 | without a fault a message goes through if and only if it is sense data, or data with an offset inside the list, an iovec and (READ and WRITE) matching lengths; the buffer then equals the old one with the message laid over it, and the number of bytes is returned; a CDB or an unknown type is refused |
| DataPath.ScsiCmdData | vsc_main.c:3156-3234 | a data request reaches the copy if and only if it passes the checks; one that can go through and does not fault succeeds, with its bytes laid over its command's buffer; no other command's memory changes |
| DataPath.SameChecks | vsc_main.c:3175-3207 | these checks are those of a response |
| DataPath.MultiDataAndRsp | vsc_main.c:3326-3395 | no command is completed unless all transfers succeeded; without faults the write goes through if and only if every message can go through and the response batch is good; the messages are laid over the commands' buffers one after the other, and nothing else is written |
| DataPath.LaidIs | vsc_main.c:3362-3380 | messages laid one after the other: each stands in its command's buffer unless a later one names the same command, and the memory of commands not named is as before |
| VscHost.Ctrl.EachQueueRemove | vsc_main.c:1113-1162 | computes the sweep |
| VscHost.Ctrl.Callback | vsc_main.c:1171-1270 | the abort and requeue callbacks complete the command once and drop one reference |
| VscHost.Ctrl.EhAbort | vsc_main.c:1342-1424 | with an event slot, a settled verdict takes the command off every queue and completes it with DID_ABORT if it was queued, any other leaves the host as it was; what is returned is the verdict read a second time, or success without a slot |
| ResetRace.QuietResetEmpties | vsc_main.c:1541-1556 | the sibling-by-sibling sweep, with every step of every sibling except enqueues in between, leaves all queues of all siblings empty and `io_running` 0, all it took completed |
| ResetRace.ResetMissesNothing | vsc_main.c:1541-1556 | with enqueues too, nothing queued on any sibling at the start is queued at the end: it is completed or about to be |
| ResetRace.ResetCanEnd | vsc_main.c:1541-1556 | the handler is never stuck: its own moves alone bring the reset to its end from everywhere |
| DeviceReset.EhDeviceReset | vsc_main.c:1480-1563 | run alone, with an event slot every sibling host ends with empty queues, every queued command completed once (DID_REQUEUE or DID_SOFT_ERROR, as the verdict reads the second time) and released, and no event queued; what is returned is the first reading |
| EventWait.Pending.Callback | vsc_main.c:1296-1334 | the verdict becomes success on a well-formed answer with result 0, failure on a well-formed one with another result, success without an answer if the host has no file; a malformed answer is refused and changes nothing |
| EventWait.Readings | vsc_main.c:1386-1416 | after any calls of the callback the verdict is success if and only if one of them confirmed and none after it refused |
| EventWait.OneCall | vsc_main.c:1296-1334 | a wait that ends with one call, or none: success for a well-formed result 0, or without an answer on a host without a file; failure otherwise |
| EventWait.LateCall | vsc_main.c:1392-1416 | the two readings of the verdict agree if and only if a call in between neither refuses what was settled nor confirms what was not |
| Refinement.ResponseIsSteps | vsc_main.c:3467-3589 | the response call is a run of the transition system |
| Refinement.BatchIsSteps | vsc_main.c:3621-3631 | so is a batch of responses |
| Refinement.StartLoopIsSteps | vsc_main.c:857-884 | so is the start loop |
| Refinement.SubmitIsSteps | vsc_main.c:1058-1080 | so is a submission |
| Refinement.SweepTurnIsSteps | vsc_main.c:1120-1130 | so is each turn of the sweep |
| Refinement.AbortIsSteps | vsc_main.c:1342-1424 | so is the abort handler, in each of its outcomes |
| SplitRead.ReadIsStep | vsc_main.c:2360-2484 | run alone, the move under the lock, the marking and, on a fault, the rollback loop make up the one step of the transition system |
| SplitRead.RollBackConservesIff | vsc_main.c:2468-2481 | whatever ran since the move, the rollback keeps the queues disjoint and counted by `io_running` if and only if every slot of its batch is linked |
| SplitRead.RolledBackTwice | vsc_main.c:2468-2481 | a completed command that is rolled back is read, answered and completed a second time |
| SplitRead.SweptMeanwhile | vsc_main.c:2395-2399 | a run in which a sweep completes a command of a batch whose copy is still to fault |
| SplitRead.RolledBackUnpassed | vsc_main.c:2468-2481 | the rollback brings a command back to a queue that a sweep has already passed |
| SplitRuns.RollBackInvIff | vsc_main.c:2468-2481 | the rollback keeps the whole invariant (counts, bits, queues, serials, ledger of completions) if and only if every slot of its batch is linked |
| SplitRuns.RollBackSoundIff | vsc_main.c:2395-2481 | the same in the middle of other reads, whose marks outside the lock blur the stats |
| SplitRuns.ActKeeps | vsc_main.c:2360-2484 | every action of a read taken apart, and every other step in between, keeps the invariant but for stats, rollbacks on linked slots |
| SplitRuns.ExactlyOnceSplit | vsc_main.c:2360-2484 | over every run of any number of interleaved reads in which each rollback finds its slots linked, no command is completed twice, no accepted command is lost and no allocation is answered twice |
| ReadOnce.RollBackOwnIff | vsc_main.c:2468-2481 | the rollback keeps the invariant and puts back its own commands and no others if and only if each slot is linked and still at the allocation that was read |
| ReadOnce.OwnBySerial | vsc_main.c:2429-2430 | with fewer than 2^32 allocations since the move, that is so if and only if the slot still carries the serial that was read |
| ReadOnce.RollBackOnceIff | vsc_main.c:2468-2481 | on linked slots, the rollback keeps it true that nothing waiting has been read if and only if each slot is at the allocation that was read or is not on `rspQ` |
| ReadOnce.NothingReadTwice | vsc_main.c:2360-2484 | over every run in which marks and rollbacks find their slots as they were read, the target reads no request twice, however many copies fault |
| SlotReuse.RunIsSplitRun | vsc_main.c:2360-2484 | every run with reads as one step is a run with reads taken apart, whatever other reads are under way |
| SlotReuse.RelistedIsReadAgain | vsc_main.c:2468-2481 | a linked slot whose command the target has already read: the rollback keeps the invariant, and the next read delivers the command again |
| SlotReuse.LinkedButReadTwice | vsc_main.c:2395-2481 | a run in which every rollback finds its slots linked, and the target reads a command twice, because a slot was freed and reused during a read |
| AttachTimer.AttachSafe | vsc_main.c:1582-1646 | attach sections and the offline body never overlap for any number of threads, where a file can be detached only after its attach has returned; while the timer is pending or its callback runs the host has no file |
| AttachTimer.WaitEnds | vsc_main.c:1589-1599 | while attach waits in `del_timer_sync` with the host lock held, the callback is not at a point that takes that lock and its own steps bring it to its end |
| AttachTimer.LockIsReleased | vsc_main.c:1582-1605 | a held host lock can always be released within eight steps of its holder and the callback |
| AttachTimer.ReleaseComesNearer | vsc_main.c:1582-1646 | no step of anybody puts that release off |
| AttachTimer.ShotRunsIff | vsc_main.c:1624-1628 | a fired timer runs the offline body if and only if nobody has the counter raised |
| AttachTimer.AgainMeansCallback | vsc_main.c:1588-1594 | attach is told to try again if and only if the offline callback has the counter raised |
| AttachTimer.NoShotLost | vsc_main.c:1615-1649 | a due offline shot stays due until the offline body has run or a new attach has set its file |
| AttachTimer.ReleaseIsAnswered | vsc_main.c:1679-1700 | a release arms the timer, and over every run after it the shot stays due until the offline body has run or a new attach has set its file; a detach by ioctl leaves the timer off |
| AttachTimer.ArmedByRelease | vsc_main.c:1693-1700 | nothing but a release arms the timer |
| AttachTimer.CanBeAnswered | vsc_main.c:1582-1649 | at every moment a due shot can be answered within five steps of the callback and of the attach that comes |
| AttachTimer.OfflineReached | vsc_main.c:1582-1649 | a run from a registered host through an attach and a release to the offline body and out of it |
| AttachTimer.AttachAnswer | vsc_main.c:1583-1594 | a failed attach answers busy, having found a file, or try again, having found the counter raised |
| AttachTimer.ShotAnswered | vsc_main.c:1582-1649 | over every run, a fired callback backs off only for an attach that does not fail, and an armed timer is answered by the offline body or by the next owner |
| Dispatch.WindowIsFair | vsc_main.c:1030-1046 | a window of n serials that does not cross the 32-bit wrap gives each of k hosts between floor(n/(kB))*B and that plus B, so counts differ by at most B |
| Dispatch.BatchToOneHost | vsc_main.c:1034-1035 | each aligned run of B serials goes to one host |
| Dispatch.AlwaysFairIff | vsc_main.c:1035 | every window, across the wrap too, is fair if and only if kB divides 2^32 |
| Dispatch.FairHostCounts | vsc_main.c:4650-4665 | for the accepted batch sizes and up to eight hosts that means 1, 2, 4 or 8 hosts |
| QueueCommand.Volume.constructor | vsc_main.c:1995 | the counter starts at 1, so the first serial is 2 |
| QueueCommand.SelectHost | vsc_main.c:1014-1050 | reads and writes take the next serial and go to its host; other commands go to host 0 and single-host mode to the original host, without a serial |
| QueueCommand.SerialsRunOn | vsc_main.c:1030-1035 | the 64-bit wrap of the counter changes no choice of host |
| QueueCommand.QueueCommand | vsc_main.c:986-1083 | a command for a disk about to be deleted is completed with DID_NO_CONNECT; otherwise the chosen host takes it or reports busy; the other hosts are not touched |
| Events.ShotAtMostOnce | vsc_main.c:3674-3719 | no event instance has its callback run with EVENT_SHOOT twice, whatever the target sends; an event in use and not swept away is on exactly one queue |
| Events.StaleEventExactly | vsc_main.c:3674-3683 | an answer naming an earlier instance matches if and only if the slot's event is read, unanswered, and that instance or one a multiple of 2^32 later |
| Events.AnsweredForGood | vsc_main.c:3674-3684 | an instance whose callback ran is matched by no later header |
| Events.FaultedGet | vsc_main.c:2565-2575 | a faulted read loses and repeats nothing and sends the event to the back of its queue |
| Events.AbortedIs | vsc_main.c:574-603 | the sweep of events empties both queues, sweeps off what was linked and nothing else, and leaves the slots alone |
| Events.SweptStaysOff | vsc_main.c:574-603 | over every run after it, no event linked at the sweep is linked again under the same allocation |
| Events.DeleteFrees | vsc_main.c:543-567 | a handler can always delete its event; then the slot is free, on no queue, and the other events are where they were |
| EventHost.EventCtrl.Raise | vsc_main.c:373-505 | the least free slot, the next serial, the end of the request queue, nothing else; fails if and only if all slots are in use |
| EventHost.EventCtrl.GetEvent | vsc_main.c:2493-2578 | the oldest request moves to the end of the answer queue, marked as read, and its header is returned; a fault sends it to the back of its own queue; the errors |
| EventHost.EventCtrl.ResponseEvent | vsc_main.c:3644-3734 | any matching header marks the event answered; with good lengths and no fault the callback runs for exactly that event, and its result is returned; every error code |
| EventHost.EventCtrl.Delete | vsc_main.c:543-567 | the event leaves its queue and its slot becomes free |
| EventHost.EventCtrl.AbortAllEvent | vsc_main.c:574-603 | both event queues end empty, every event that was linked is swept off and no other, tables and serials as before |
| Ownership.OneOwner | vsc_ioctl.c:382-421 | over every run of open, attach, detach and release a file points at a host exactly when the host points back; at most one owner and one host |
| Ownership.AttachPairs | vsc_main.c:1572-1599 | attach succeeds if and only if nothing stands in its way, and then makes exactly that pair: detach or release by the same file undoes it, no attach to that host changes anything meanwhile; a failed attach changes nothing |
| Ownership.LetGoFreesThePair | vsc_ioctl.c:428-442 | detach and release free exactly the caller's pair, and the host's own check never fails |
| Ownership.Driver.DevOpen | vsc_ioctl.c:560-565 | a new file owns nothing |
| Ownership.Driver.DevAttachHost | vsc_ioctl.c:382-421 | computes attach, error codes included |
| Ownership.Driver.ScsiAttach | vsc_main.c:1572-1608 | the host's half: busy, contended or taken |
| Ownership.Driver.DevDetachHost | vsc_ioctl.c:428-442 | computes detach |
| Ownership.Driver.ScsiDetach | vsc_main.c:1657-1672 | the host's half: not attached, or freed |
| Ownership.Driver.DevRelease | vsc_ioctl.c:659-679 | computes release |

## Left out

- Lifecycle.StepKeeps: the batch read is one step, although its stat writes and its rollback happen after the lock was dropped; `SplitRuns.ActKeeps` and `SplitRuns.RollBackSoundIff` state the same with the read taken apart.
- CommandSafety.ExactlyOnce: holds with the batch read as one step; `SplitRuns.ExactlyOnceSplit` states it with the read taken apart, for runs whose rollbacks find their slots linked.
- Refinement.SweepTurnIsSteps: does not relate `Qdepth`, which abort and the callbacks adjust inconsistently or outside the lock; the transition system leaves it out and only the start loops use it.
- AbortRace.ConfirmedAbort: the case of no free event slot, where the driver reports success at once, is not a confirmed abort; `Calls.AbortCallIs` states what that case leaves.
- DeviceReset.EhDeviceReset: takes the same parameters and is the call run alone; `ResetRace` states what it leaves with everything else in between.
- VscHost.Ctrl.EhAbort: takes as parameters whether an event slot was free and the calls of the event's callback, and is the call run alone; `AbortRace` and `AbortVerdict` state what holds with everything else in between.
- AttachTimer.AttachSafe: takes detach as one step, so its own phases (blocking requests, sweeping, arming the timer) do not interleave with attach there.
- Ownership.OneOwner: takes each call as one step; file and host references are positions in tables.
- EventHost.EventCtrl.Delete: event reference counts are not modelled; a slot is free when its handler deletes it, and sweeping the queues does not free it.
- EventHost.EventCtrl.Raise: event slots are values in a sequence field of the object, not records of their own.
- SgCopy.CopyDataToIovec: requires the offset to lie inside the buffer; beyond it the driver's unsigned subtraction wraps and the copy leaves the buffer, which has no meaning here.
- SgCopy.CopyDataFromIovec: requires the offset to lie inside the buffer, for the same reason.
- DataPath.XferFromUser: requires the offset of a sense message to lie inside the sense buffer, for the same reason.
- DataPath.ScsiCmdData: requires the same through its precondition on the messages.
- DataPath.MultiDataAndRsp: does not say which bytes a failing transfer has left in the buffers of its own command.
- EventHost.EventCtrl.AbortAllEvent: the put inside `vsc_event_del` is left to the handler's own `Delete`.
- Ownership.Driver.ScsiAttach: the counter and the timer wait are one flag here; they are modelled in `AttachTimer`.
- Ownership.Driver.ScsiDetach: the sweeps, the suspend flag and the arming of the timer are modelled elsewhere or not at all.
- The read mode of the data path (`vsc_multi_scsi_cmd_data`): the transfer loop in the other direction, without responses.
- Host registration and removal: sibling hosts are a fixed list of one to eight.
- Linked-list nodes: a queue is a field holding a sequence of slot numbers, and unlinking a node removes the number.
- Wait queues, wakeups, memory barriers, lock fairness, slab and buffer guards, latency statistics, tracing.
- Mid-layer device management, module parameters, ioctl argument copying, capability lookup, device file registration.
