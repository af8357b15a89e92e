# Verified model of the MMC/SD/SDIO core

This project models the parts of a copy of the Linux MMC/SD subsystem whose correctness rests on
protocols, counters and arithmetic, and proves properties of them with Dafny. To verify it, run
`dafny verify dfyconfig.toml`.

| modules | what they model |
|---|---|
| `CqEngine`, `CqHostDriver`, `CqRuns`, `CqDescriptors` | the command-queue engine (CQHCI, Annex B of JESD84-B51): its slot table, the driver's methods over it, whole runs of it under the block queue and the recovery work, and the descriptor layout |
| `HostClaim`, `HandOff`, `Retry` | host claims against in-flight counts for any number of queues; the hand-off of finished requests between dispatcher, interrupt and worker; the retry machine with single-sector recovery |
| `EraseRange`, `DiscardLimit` | alignment and splitting of erases; the doubling search for the discard limit and what that limit guarantees |
| `Retune` | holds on re-tuning, background operations, and partition switching with RPMB and the command queue |
| `SdioCommand`, `SdioTransfer` | the CMD53 argument (section 5.3 of the SDIO Simplified Specification); splitting a transfer as a refinement of one copy |
| `SdioCis`, `SdioCisParse`, `SdioCisStore`, `SdioCisBooks`, `SdioCisCard` | the tuple chain of a card, its parsers, the lists in memory that share a tail, what removing functions and the card does to lists and references, and the methods that do it |
| `SdioIrq` | interrupt reference counting and dispatch |
| `RequestShape` | the block count of a transfer and the trimming of its scatter list |
| `RegisterFields`, `WordBuffer` | fields of 128-bit registers (section 7.3 of JESD84-B51 for the CSD) and packing of bytes into 64-bit words |
| `Bits`, `Sums`, `Behaviours`, `Basics` | C's unsigned arithmetic, counting, runs of state machines, error numbers |

Concurrent protocols (`CqRuns`, `HostClaim`, `HandOff`) are state machines: a step is one
lock-protected section, one unlocked write or one call, the hardware, the card and the block layer
choose among the enabled steps, and theorems speak about every state of every run. Code that updates
objects in place is also given as classes whose methods are proved against the functions the machines
use. What the surroundings answer (errors, card status, allocation failures, register contents) is a
parameter of each operation and is never restricted beyond what the table says.

Where code and comments disagree, the model follows the code:

- `mmc/core/block.c:1719` restarts a single-sector read with `continue`, which still evaluates the
  loop test and so completes a sector. `Retry.ReportsTruthfulIff` says exactly when all
  sectors of a call are reported as they went, `Retry.StaleReport` shows one that is not.
- `mmc/core/core.c:2221` compares with an inclusive end, so a split that leaves one sector for the
  second command never sends it. `EraseRange.SplitCovers` says exactly when, `EraseRange.LastSectorSkipped`
  is an example.
- `mmc/host/cqhci.c:203-204` sizes the transfer-descriptor area for one tag fewer than there are slots;
  `CqDescriptors.DescriptorsFit` shows that this is right exactly with the direct-command capability.
- A direct command without an error flag is ended as successful during recovery
  (`mmc/host/cqhci.c:971`, `mmc/core/block.c:1487-1489`); nothing is claimed about its effect.
- The comment at `mmc/core/core.c:1979-1987` says that SD allocation units are always a power of two, while
  the table of sizes holds 12 MB and 24 MB; every geometry the code distinguishes is covered.
- The discard limit keeps a range to the quantity found only for quantities of two and more
  (`DiscardLimit.LimitKeepsToQuantity`). For the quantity one `mmc/core/core.c:2347-2359` sets the boundary flag,
  which `mmc_erase` looks at for trims only; an erase is kept to one group by alignment to the erase size, and on
  SD cards with an allocation unit the erase size is one sector. `DiscardLimit.LimitKeepsCommandsIff` has the exact
  condition, `DiscardLimit.SdLimitBroken` an erase of eight sectors that touches two groups.
- `mmc/core/sdio_io.c:317-318` says that blocks per command are limited by the host's transfer size too; the code
  looks at its block count only.
- `IS_ALIGNED` at `mmc/core/block.c:1260` tests divisibility for powers of two and for no other size
  (`RequestShape.AlignedTestIff`, `RequestShape.AlignedMisled`), while the register it reads the size from may hold any number.
  A legacy reliable write is one block or one aligned group, for every position, if and only if that number is a
  power of two (`RequestShape.LegacyWriteIff`).
- The comments at `mmc/core/sdio.c:97-100` and `mmc/core/sdio_bus.c:347-348` take it that a function that was not
  added can be removed; the code at `mmc/core/sdio_bus.c:352-353` returns at once for it. So a function that cannot be set
  up stays with its tuples and, if it got that far, its reference on the card, and `mmc_sdio_remove` clears the
  slots of others without removing them. `SdioCisCard.Cis.MmcSdioRemove` says exactly what is left,
  `SdioCisCard.Cis.AttachFuncs` that a failed attach leaves something as soon as one function had been allocated, and
  `SdioCisCard.LeakExample` is an input.
- `mmc/core/sdio_cis.c:417` drops a reference on the card for every function removed, but on a card without structures of
  its own (`mmc/core/sdio.c:78-90`) none was taken. So "a dropped reference was taken, and the card outlives the host's
  own" fails: references of the driver core apart, such a card goes with the first of its functions, while the host still holds it and `mmc_sdio_remove`
  goes on to use it (`mmc/core/sdio.c:839-846`). `SdioCisBooks.GoneEarlyIff` and `SdioCisBooks.CardGoesEarlyIff` say that this
  happens on exactly these cards and no others, `SdioCisCard.EarlyExample` is an input with one function, and
  `SdioCisCard.Cis.MmcSdioRemove` counts the references dropped that nobody had taken.
- Between the restart of the engine and the clearing of `recovery_needed` a notification can be lost; the run
  model has this window, and the request concerned is found by its timeout (`CqRuns.LostNotificationFound`).

## Model

| member | source | states |
|---|---|---|
| CqEngine.SubmitExact | mmc/host/cqhci.c:600-623 | accepting a request into a free slot keeps the count equal to the number of occupied slots |
| CqEngine.ErrorIrqBlames | mmc/host/cqhci.c:653-714 | an error interrupt with tasks queued always leaves recovery pending with a queued task to blame, and moves no task |
| CqEngine.ErrorIrqBlamesNamed | mmc/host/cqhci.c:669-711 | exactly the tasks named by the interrupt are blamed, and if none of those is queued exactly the first queued one |
| CqEngine.BlamedErrorSurvives | mmc/host/cqhci.c:635-651 | the error of a blamed task comes back as CRC error, timeout or I/O error, as the interrupt had it |
| CqEngine.BlameExact | mmc/host/cqhci.c:672-697 | blaming a task keeps the count, all tasks and all earlier blame |
| CqEngine.FinishExact | mmc/host/cqhci.c:716-748 | a completion is delivered if and only if its slot is occupied and no recovery is pending; otherwise the task stays queued |
| CqEngine.TimeoutExact | mmc/host/cqhci.c:823-848 | a timeout of a queued request blames it and asks for recovery; one that comes too late changes nothing |
| CqEngine.RecoverAllExact | mmc/host/cqhci.c:953-983 | recovery hands every queued task back exactly once, with the error of its own flags, and leaves the table empty with count zero |
| CqEngine.BlameIsReported | mmc/host/cqhci.c:938-971 | if any queued task is blamed, recovery reports at least one failure |
| CqHostDriver.CqHost.Request | mmc/host/cqhci.c:556-623 | the method on the slot array does what the submit function says, and refuses during recovery |
| CqHostDriver.CqHost.ErrorInterrupt | mmc/host/cqhci.c:653-714 | the interrupt code with its search loop is the blame function, and notifies exactly when it starts recovery |
| CqHostDriver.CqHost.FinishMrq | mmc/host/cqhci.c:716-748 | the completion section is the finish function, and reports done exactly then |
| CqHostDriver.CqHost.CompletionInterrupt | mmc/host/cqhci.c:750-797 | the loop over the notification mask finishes its tags in order and ends a wait for idle when none is left |
| CqHostDriver.CqHost.IsIdle | mmc/host/cqhci.c:799-811 | a wait that ends without an error leaves every slot free, and one that goes on has a task queued; pending recovery ends it with -EBUSY |
| CqHostDriver.CqHost.TimeoutMrq | mmc/host/cqhci.c:823-860 | the timeout code is the timeout function |
| CqHostDriver.CqHost.RecoverMrq | mmc/host/cqhci.c:953-975 | handing one task back is the recover function |
| CqHostDriver.CqHost.RecoveryFinish | mmc/host/cqhci.c:995-1055 | after recovery the count is zero without being forced, every slot is free, and each queued task was handed back with the outcome it is owed |
| CqRuns.RecoveryMakesProgress | mmc/host/cqhci.c:653-714 | in every reachable state a pending recovery has a queued task to blame, and N requests see at most 3N recoveries over any run |
| CqRuns.DoneExactlyOnce | mmc/host/cqhci.c:716-748 | over any run each acceptance is answered by exactly one done, nothing completes while recovery is pending, recovery is never spurious and ends with nothing queued |
| CqRuns.LostNotificationFound | mmc/host/cqhci.c:823-860 | in every reachable state where recovery is asked for and no recovery is scheduled, the timeout of some request in flight schedules it |
| CqRuns.SlotsNeverShared | mmc/core/queue.c:27-60 | no two requests in flight share a hardware slot, a direct command is alone in slot 31, and a request about to be issued finds its slot free |
| CqRuns.StepInv | mmc/core/queue.c:241-344 | every step of dispatcher, interrupt, timeout, recovery work and completion keeps the invariant behind the three results above |
| CqDescriptors.DescriptorsDisjoint | mmc/host/cqhci.c:54-65 | two tags never share a transfer-descriptor byte |
| CqDescriptors.DescriptorsFit | mmc/host/cqhci.c:198-204 | the area holds the descriptors of every data tag if and only if slot 31 is set aside for direct commands |
| HostClaim.ClaimExact | mmc/core/core.c:825-866 | a claim adds one to its own context and takes nothing from another |
| HostClaim.ReleaseExact | mmc/core/core.c:873-890 | a release takes one from its own context only |
| HostClaim.MmcHost.TryClaim | mmc/core/core.c:825-866 | one pass of the claim loop ends when told to abort or when the host is free or held by the same context or task, and takes the host in the second case only, if not aborted |
| HostClaim.MmcHost.ReleaseHost | mmc/core/core.c:873-890 | the release method is the release function and keeps the host well formed |
| HostClaim.QueueStepOk | mmc/core/queue.c:143-344 | every step of a queue keeps held claims plus pending gets minus pending puts equal to one for anything in flight plus one for a running recovery |
| HostClaim.ClaimedWhileOutstanding | mmc/core/queue.c:261-344 | in every reachable state the claims balance, the host belongs to a queue whenever that queue issues, has a request on the hardware or recovers, and no two queues do so at once |
| HostClaim.SuspendProvesIdle | mmc/core/queue.c:468-478 | once a quiesced queue's host has been claimed by somebody else, nothing of that queue is outstanding |
| HostClaim.SuspendLasts | mmc/core/queue.c:468-478 | and nothing becomes outstanding until the queue is resumed |
| HandOff.NeverOverwritten | mmc/core/block.c:2083-2120 | a finished request in complete_req is never overwritten, and at most one read or write runs on the host |
| HandOff.PostedExactlyOnce | mmc/core/block.c:2051-2081 | over any run each start is matched by exactly one post-processing, except for a request still in one pair of hands |
| HandOff.DriverStepsEnd | mmc/core/block.c:2142-2214 | the driver's own steps come to an end without help from outside |
| HandOff.QuietMeansProcessed | mmc/core/block.c:2083-2176 | and then no finished request is left behind, and a dispatcher sleeps only while the host runs a request that will wake it |
| HandOff.StepInv | mmc/core/block.c:2051-2214 | every step keeps the invariant behind these results |
| HandOff.SharedQueue.RwWaitCond | mmc/core/block.c:2142-2163 | the wait condition makes the waiting step of the machine |
| HandOff.SharedQueue.ReqDone | mmc/core/block.c:2083-2120 | the interrupt makes the done step, waking a waiter or scheduling the worker but not both |
| HandOff.SharedQueue.CompletePrevReq | mmc/core/block.c:2051-2073 | under the lock the finished request, if any, is taken out; a read or write gets it to post-process, anything else has it post-processed at once, and no other |
| HandOff.SharedQueue.CompleteWork | mmc/core/block.c:2075-2081 | the worker takes the finished request out under the lock and post-processes it once, and nothing if the dispatcher was first |
| HandOff.SharedQueue.IssueRw | mmc/core/block.c:2177-2214 | the new request is started, the previous one post-processed once, and the busy flag taken back on failure |
| Retry.ReadSingleConsumes | mmc/core/block.c:1691-1742 | single-sector recovery consumes at least a sector, and lowers the retry count to one fixed value at most |
| Retry.ReportsTruthfulIff | mmc/core/block.c:1691-1742 | every sector of a call is reported as its own read went if and only if no pass, of the number that the request's size and the card's answers give, has a command error, with the card's status fine, at the very start or right after a pass without error |
| Retry.PassesAre | mmc/core/block.c:1691-1742 | a call makes one pass a sector, up to the first whose status is no use |
| Retry.StaleReport | mmc/core/block.c:1719 | a failed first read of two sectors is reported as read |
| Retry.RecoverKeeps | mmc/core/block.c:1798-1886 | recovery never gives bytes back, keeps the counter in range and does not lower it unless bytes were consumed |
| Retry.RequeueDecreases | mmc/core/block.c:1931-1950 | every requeue leaves fewer bytes, or as many with one retry fewer left |
| Retry.RequeuesEnd | mmc/core/block.c:1798-1950 | over any run of requeues their number is bounded by size and retries, and few in a row make no progress |
| Retry.IssuesBounded | mmc/core/block.c:1931-1950 | a request is issued at most 7 * bytes + 7 times |
| Retry.BlockRequest.ReadSingleSectors | mmc/core/block.c:1691-1742 | the do/while loop is the recursive description above, report by report |
| Retry.BlockRequest.RwRecovery | mmc/core/block.c:1798-1886 | the recovery method is the recovery function |
| Retry.BlockRequest.CompleteRq | mmc/core/block.c:1931-1950 | the completion method is the completion function |
| Retry.BlockRequest.ServeToTheEnd | mmc/core/block.c:1798-1950 | whatever the attempts bring, the block layer gets the request back after boundedly many issues |
| EraseRange.RoundUpIs | mmc/core/core.c:2122-2126 | the bitwise round-up is the next multiple, in 32 bits |
| EraseRange.RoundDownIs | mmc/core/core.c:2133 | the bitwise round-down is the last multiple |
| EraseRange.PathsAgree | mmc/core/core.c:2111-2157 | the bitwise and the division path give the same result for every power of two and every 32-bit range |
| EraseRange.AlignIsLargest | mmc/core/core.c:2111-2157 | alignment finds the aligned sub-range that contains every other, and nothing if and only if there is none |
| EraseRange.AlignEraseSize | mmc/core/core.c:2111-2157 | the function with in-out bounds, choosing its path by the bit trick, computes that sub-range |
| EraseRange.SplitCovers | mmc/core/core.c:2211-2226 | the commands are disjoint and in range, and cover it if and only if the split does not leave a single sector, which is then all they miss |
| EraseRange.LastSectorSkipped | mmc/core/core.c:2221 | eight sectors from the second of a group of eight: the last is never trimmed |
| EraseRange.OneGroupPerTrim | mmc/core/core.c:2211-2226 | with the boundary flag a trim of at most a group never crosses a group boundary in one command |
| DiscardLimit.SearchQty | mmc/core/core.c:2289-2365 | the doubling search ends, on the largest quantity that is within the preferred size or the time budget, for every monotone timeout that is exact while it fits |
| DiscardLimit.SourceTimeoutsSearchable | mmc/core/core.c:1866-1960 | the driver's 32-bit timeouts meet that condition, although they wrap, when the budget is below 2^31 and the preferred size can be timed |
| DiscardLimit.LimitKeepsToQuantity | mmc/core/core.c:1993-2000 | the sector limit keeps every range at any start to the quantity found if and only if that is two or more, or groups are single sectors |
| DiscardLimit.CrossingRange | mmc/core/core.c:2347-2365 | with room for one group only, a limit-sized range starting inside a group touches two |
| DiscardLimit.CommandBounds | mmc/core/core.c:2168-2226 | every command, of erase, trim, discard or secure erase, stays inside the request; an erase is aligned whole groups of the erase size, a trim is the split of the request |
| DiscardLimit.CommandKeeps | mmc/core/core.c:2168-2359 | a command sent touches at least one group and at most the quantity, from two up on any card, and for the quantity one where erases are aligned to groups |
| DiscardLimit.LimitKeepsCommandsIff | mmc/core/core.c:2168-2359 | every command of every request within the limit keeps to the quantity if and only if the quantity is two or more, or the card is not SD, or cannot be erased, or the argument is not an erase, or the erase size is as large as the group |
| DiscardLimit.SdLimitBroken | mmc/core/core.c:2168-2226 | an SD card with groups of eight sectors and erase size one: eight sectors from sector one go out as one command over two groups |
| DiscardLimit.CommandsFitBudget | mmc/core/core.c:2168-2365 | where that condition holds, a request within the limit only sends commands whose group count fits the budget |
| DiscardLimit.CalcKeepsBothBudgets | mmc/core/core.c:2367-2393 | the smaller of the erase and trim limits, with the flag set by either search, keeps each command to the budget of its own kind under the same condition, for the timeouts the searches use, which are those of arguments that are not secure |
| DiscardLimit.SecureFitsBudget | mmc/core/core.c:1909-1915 | a secure argument multiplies the timeout, which no search allows for: all counts up to the quantity fit the budget if and only if the quantity fits the budget divided by the multiplier, and then every command of a request within the limit does |
| Retune.SectionKept | mmc/core/host.c:107-121 | between a hold and its release tuning comes before the first command or not at all |
| Retune.Host.Retune | mmc/core/host.c:123-158 | tuning starts exactly when due, needed and not already under way; whatever its own commands run into, it never nests |
| Retune.Host.WaitForCmd | mmc/core/core.c:399-439 | a command with its retries gives back its hold on every path, tunes first when that is needed and nothing holds it back, and inside a section never tunes after the section's first command; success means it was sent |
| Retune.Host.RunHeld | mmc/core/host.c:107-121 | any commands, switches, erases and queue recoveries in any order while re-tuning is held: tuning comes before the first of them or not at all |
| Retune.Host.InterruptHpi | mmc/core/mmc_ops.c:840-886 | interrupting a programming card is balanced on every path |
| Retune.Host.Switch | mmc/core/mmc_ops.c:523-597 | a switch is balanced on every path, and tuning can only precede its own command |
| Retune.Host.DoErase | mmc/core/core.c:1965-2109 | the same for the three commands of an erase and the polling |
| Retune.Host.FixState | mmc/core/block.c:1670-1686 | stopping a transfer is balanced and never tunes |
| Retune.Host.CqeRecovery | mmc/core/core.c:553-588 | so is stopping and discarding the card's queue |
| Retune.Host.Pause | mmc/core/host.c:73-80 | a pause takes one hold, once |
| Retune.Host.Unpause | mmc/core/host.c:83-89 | and gives it back, once |
| Retune.Host.Disable | mmc/core/host.c:92-99 | disabling ends a pause and clears what was due |
| Retune.Host.StartBkops | mmc/core/mmc_ops.c:953-1005 | background operations are under way, with their hold, exactly when they were started by a successful switch at the lowest level |
| Retune.Host.StopBkops | mmc/core/mmc_ops.c:909-926 | stopping them gives it back; on failure both stay |
| Retune.Host.IssueRw | mmc/core/block.c:2177-2214 | a read or write that started keeps its hold, one that failed or completes in its callback does not |
| Retune.Host.RwRecovery | mmc/core/block.c:1798-1886 | recovery of a read or write gives back its hold on every path, through its status commands, the block count of an SD write and the single-sector reads with their status and stop commands |
| Retune.Host.PollCompletion | mmc/core/block.c:1977-1992 | so does its completion, with urgent background operations or not |
| Retune.Host.MqRecovery | mmc/core/block.c:2032-2049 | recovery outside the issue path takes the hold again and gives it back |
| Retune.Host.CqeStart | mmc/core/queue.c:295-312 | with the command queue in use, tuning happens exactly for its first request, if needed and not held |
| Retune.Host.CmdqSwitch | mmc/core/mmc_ops.c:1029-1043 | the cached state of the queue follows the switch if and only if it succeeded; it is never enabled in RPMB |
| Retune.Selecting | mmc/core/block.c:869-870 | the mask arithmetic puts in the new access bits and leaves the other bits of the register |
| Retune.Host.PartSwitch | mmc/core/block.c:822-887 | on every success and failure path the current partition is the access bits of the cached register, re-tuning is paused exactly in RPMB and the queue is off there; a failure leaves partition and register as they were unless only re-enabling the queue failed, and where nothing fails the switch succeeds |
| Retune.Host.Run | mmc/core/mmc_ops.c:523-1043 | any operations in any order, whatever fails, leave the hold count equal to pause plus background operations plus outstanding read or write, without a warning, and the partition books in order |
| SdioCommand.DecodeEncode | mmc/core/sdio_ops.c:139-146 | the argument or-ed together by the driver decodes to the same write flag, function, mode, op code, address and count, 512 bytes travelling as 0 |
| SdioCommand.EncodeFits | mmc/core/sdio_ops.c:139-146 | and it fits 32 bits |
| SdioCommand.FieldsSplit | mmc/core/sdio_ops.c:139-146 | the fields are disjoint and found where the standard puts them |
| SdioTransfer.CopySplit | mmc/core/sdio_io.c:324-355 | a copy in two pieces is one copy, for incrementing and fixed addresses and any card |
| SdioTransfer.CopyFrame | mmc/core/sdio_io.c:305-358 | a copy changes no other byte of the buffer, and none when writing |
| SdioTransfer.Scatter | mmc/core/sdio_ops.c:154-173 | the scatter list cuts the buffer into consecutive, nonempty segments no longer than the host takes, as many as rounding up says |
| SdioTransfer.DmaIsCopy | mmc/core/sdio_ops.c:154-173 | however the buffer is cut up, the card sees one copy |
| SdioTransfer.AddressMask | mmc/core/sdio_ops.c:131-133 | the mask test refuses exactly the addresses beyond 17 bits |
| SdioTransfer.Bus.RwExtended | mmc/core/sdio_ops.c:118-201 | a command moves all its bytes on success and a prefix on failure, to and from the addresses its argument encodes |
| SdioTransfer.Bus.RwExtHelper | mmc/core/sdio_io.c:305-358 | on success the pieces make up one unsplit copy of the buffer, on failure exactly a prefix of it; pieces keep to block count and byte sizes; only a failed piece or a function number above 7 fails the transfer; the loops end |
| SdioCis.StringsExact | mmc/core/sdio_cis.c:27-65 | the strings of a version tuple are exactly its null-terminated pieces, and only what follows the last null is ignored |
| SdioCis.UnparsedVerdict | mmc/core/sdio_cis.c:111-144 | the tuples queued for drivers are exactly the unknown ones and the known ones without a parser |
| SdioCis.ReadDataIff | mmc/core/sdio_cis.c:295-300 | data is read if and only if the card holds those bytes |
| SdioCis.ChainExact | mmc/core/sdio_cis.c:263-342 | the walk queues, in order, exactly the unknown or unparsed tuples laid out before the first terminator or failure, and returns what stopped it: in both directions |
| SdioCisParse.CountStrings | mmc/core/sdio_cis.c:37-47 | the first loop finds the end of the field and the number of its strings |
| SdioCisParse.CopyStrings | mmc/core/sdio_cis.c:57-62 | the second copies exactly those strings without looking at the field's length |
| SdioCisParse.ParseVers1 | mmc/core/sdio_cis.c:27-73 | together they store the strings of the field, or nothing when there are none or no memory |
| SdioCisParse.ParseExtension | mmc/core/sdio_cis.c:146-224 | function extensions are accepted by type, owner, size and version, and set the fields they should |
| SdioCisParse.ParseTuple | mmc/core/sdio_cis.c:111-144 | the table loop returns the verdict and leaves the fields that the specification gives |
| SdioCisCard.Cis.ReadPointer | mmc/core/sdio_cis.c:243-257 | the pointer is read least significant byte first, up to the first error |
| SdioCisStore.AppendStep | mmc/core/sdio_cis.c:315-319 | a tuple put at the end of a list leaves every cell on exactly one owner's list and all other lists alone |
| SdioCisStore.LinkStep | mmc/core/sdio_cis.c:343-348 | linking in the common tuples keeps ownership and the function's own tuples |
| SdioCisStore.FunctionSeesCommon | mmc/core/sdio_cis.c:343-348 | a driver following its function's list sees its own tuples and then the common ones |
| SdioCisCard.Cis.ReadCis | mmc/core/sdio_cis.c:234-351 | the owner's list becomes exactly the tuples of the walk, with the common list as tail on every exit but the allocation failure; a nonempty list is refused and nothing else in memory changes; the loop ends |
| SdioCisStore.FreeLoopOnPath | mmc/core/sdio_cis.c:405-409 | over a list of distinct cells the freeing loop gives back just these cells in order if the list ends where the loop stops, and runs into a freed cell if the list's end dangles |
| SdioCisStore.FreeLoopOnce | mmc/core/sdio_cis.c:358-411 | on any memory at all, a freeing loop that comes to its end gives back cells in use, each once, and nothing else |
| SdioCisStore.FreeOwnerIff | mmc/core/sdio_cis.c:358-411 | freeing one owner's list runs into a freed cell if and only if the list runs on into that of a card already released; otherwise exactly the owner's own cells go |
| SdioCisCard.Cis.FreeCells | mmc/core/sdio_cis.c:358-411 | freeing an owner removes exactly its own cells, never looks at a freed one unless it runs on into the list of a released card, which callers exclude, and keeps all other lists |
| SdioCisStore.FreedOnceIff | mmc/core/sdio_cis.c:358-418 | for any number of functions and any order: the pointer-following loops all come to their ends, on cells in use and freeing each once, if and only if every function that runs on into the card's list goes before the card |
| SdioCisStore.CardTooEarly | mmc/core/sdio_cis.c:405-409 | with the card first, the function's loop runs into a freed cell |
| SdioCisStore.HeapEmptyIff | mmc/core/sdio_cis.c:358-418 | no tuple is left in memory if and only if no owner has one of its own |
| SdioCisCard.Cis.ReadFuncCis | mmc/core/sdio_cis.c:373-397 | a reference on the card is taken if and only if the structure was read |
| SdioCisCard.Cis.FreeFuncCis | mmc/core/sdio_cis.c:399-418 | from the release of a function: exactly its own cells go, without looking at a freed one, and one reference on the card is dropped, which is a stray exactly when it held none; the last drop releases the card and its list |
| SdioCisCard.Cis.InitFunc | mmc/core/sdio.c:64-103 | on success the function is recorded, with the tuples of its walk and, where it read its own structures, a reference on the card; on failure it is neither recorded nor removed, and keeps the tuples read so far |
| SdioCisCard.Cis.RemoveFunc | mmc/core/sdio_bus.c:350-358 | nothing happens to a function that was never added; an added one goes with its cells and its reference |
| SdioCisCard.Cis.MmcSdioRemove | mmc/core/sdio.c:835-848 | exactly the added functions go, and the card's list exactly when no other function holds a reference; no tuple is left if and only if no function that was not added has one and the card is released or had none; all that was allocated is gone if and only if every function had been added; a nonstandard card loses one reference nobody took for each of them, and any card goes before the host's own drop if and only if it is nonstandard and had an added function |
| SdioCisBooks.CardRemovedExact | mmc/core/sdio.c:835-848 | the same about what is left, for every state of a card being attached or in use, as a statement about values |
| SdioCisBooks.RemovedUpToExact | mmc/core/sdio.c:839-844 | after any number of rounds exactly the added functions gone through are gone, with their references, and all other lists are as they were |
| SdioCisBooks.GoneEarlyIff | mmc/core/sdio_cis.c:413-417 | while the host has its reference the card is gone if and only if it is nonstandard and a reference was dropped that nobody had taken |
| SdioCisBooks.CardGoesEarlyIff | mmc/core/sdio.c:839-846 | after any number of rounds the card is gone under the host if and only if it is nonstandard and one of the functions gone through had been added |
| SdioCisCard.EarlyExample | mmc/core/sdio_cis.c:399-418 | one function of a nonstandard card, added and removed: the card is released with the host's reference still held |
| SdioCisCard.Cis.AttachFuncs | mmc/core/sdio.c:1154-1202 | setting up and adding succeeds if and only if every step does, and then all functions are added; a failed attach gives everything back if and only if not even one function had been allocated |
| SdioCisCard.LeakExample | mmc/core/sdio.c:95-102 | function 1 has one tuple, function 2 cannot be set up: both stay, and the tuple and the card with them |
| SdioCisCard.Cis.FreeCommonCis | mmc/core/sdio_cis.c:358-371 | with no reference left, no function that is recorded or holds a reference runs on into the common list, and freeing it is safe |
| SdioIrq.SingleIsOnly | mmc/core/sdio_irq.c:256-271 | the single owner is the only function with a handler |
| SdioIrq.Card.SingleIrqSet | mmc/core/sdio_irq.c:256-271 | the loop finds that owner if and only if there is exactly one and the host signals interrupts |
| SdioIrq.Card.ClaimIrq | mmc/core/sdio_irq.c:283-321 | on every path, with register writes that may fail and yet take effect, the count is the number of handlers, each has its enable bit and the master bit, and a handler is in place just on success |
| SdioIrq.Card.ReleaseIrq | mmc/core/sdio_irq.c:326-357 | the handler is gone whatever the card answers, and all others stay enabled |
| SdioIrq.Card.Probe | mmc/core/sdio_irq.c:51-85 | the probe runs the handlers of the pending functions in order and returns how many, or the error |
| SdioIrq.Card.ProcessPending | mmc/core/sdio_irq.c:34-86 | the shortcut or the probe |
| SdioIrq.Card.ShortcutIsProbe | mmc/core/sdio_irq.c:42-50 | the shortcut runs what the probe would if and only if the single owner's interrupt is pending |
| RequestShape.AlignedIff | mmc/core/block.c:1260 | for a power of two the mask test is divisibility |
| RequestShape.AlignedTestIff | mmc/core/block.c:1260 | and it is for all positions only for a power of two |
| RequestShape.AlignedMisled | mmc/core/block.c:1260 | for three it is not |
| RequestShape.LegacyWriteIff | mmc/core/block.c:1254-1268 | every position and count gives one block or one aligned group if and only if the group size is a power of two |
| RequestShape.MisledAbove | mmc/core/block.c:1260 | for any other size the next power of two above it is a position that passes the test and is no multiple |
| RequestShape.ApplyRelRw | mmc/core/block.c:1254-1268 | a legacy reliable write gets one group if it starts where the mask test passes and is long enough, and one block otherwise, for any nonzero group size; for a power of two that is one aligned group |
| RequestShape.BlockCount | mmc/core/block.c:1338-1410 | at least one block, no more than asked for or allowed, one with multi-block transfers off, not the last block together with others in SPI mode, what the driver's quirk says where there is one, a group that passes the mask test or one block for a legacy reliable write, and the full count where nothing limits it |
| RequestShape.TrimList | mmc/core/block.c:1434-1447 | the list is cut after exactly the wanted bytes, whole entries before a nonempty part of the last |
| RequestShape.CutIsPrefix | mmc/core/block.c:1434-1447 | what the cut list transfers is the beginning of what the request holds |
| RequestShape.MrqPrep | mmc/core/core.c:314-323 | the loop refuses exactly the transfers beyond the host's sizes or with a list of another length |
| RequestShape.DataPrep | mmc/core/block.c:1324-1447 | the list holds exactly blocks * 512 bytes, and a request that keeps to the host's sizes is not refused afterwards |
| RegisterFields.UnstuffIsField | mmc/core/mmc.c:54-66 | the macro reads bits start to start + size of every 128-bit register, for sizes 1 to 32 but 31 |
| RegisterFields.UnstuffIsQuotient | mmc/core/mmc.c:54-66 | which is division by 2^start modulo 2^size |
| RegisterFields.UnstuffReadsSdStatus | mmc/core/sd.c:253-264 | with the offset of 384 it reads the stated field of the 512-bit SD status |
| WordBuffer.UnpackPack | mmc/host/cavium.c:298-332 | reading back what was written restores every byte |
| WordBuffer.FillWord | mmc/host/cavium.c:735-740 | the inner loop assembles the word from the segment's bytes until one of them runs out |
| WordBuffer.WriteRequest | mmc/host/cavium.c:714-749 | for any segmentation the words written are the big-endian packing of the bytes, in order |
| WordBuffer.DrainWord | mmc/host/cavium.c:322-327 | the inner loop stores the bytes of a word, most significant first, until word or buffer runs out |
| WordBuffer.ReadRequest | mmc/host/cavium.c:298-332 | for any buffer lengths the bytes stored are the unpacked words in order, each buffer full before the next |
| WordBuffer.RoundTrip | mmc/host/cavium.c:298-749 | written through one segmentation and read back through any other of the same whole-word length, data is unchanged |

## Left out

- The teaching drivers, probe and remove, power, regulators, sysfs and debugfs: glue without properties of its own.
- Real time and delays: timeouts and timers are events that may happen at any time, and a polling loop is given its number of rounds.
- Memory barriers and lock implementation: a locked section is one step.
- Lock order: deadlock freedom between different locks is not stated.
- The block layer's own race of timeout and completion (`mmc/core/queue.c:114-116`): exactly-once is stated for `mmc_cqe_request_done`.
- What synchronous requests do while they run, and the contents of commands and responses beyond what the table names.
- Hardware and card resets (`mmc_blk_reset`, `mmc_hw_reset`): recovery takes their result as an answer, and the partition books are not followed across them.
- Raw writes of the partition register by ioctl (`mmc/core/block.c:593-604`).
- Replacement of a removed card while background operations or a pause hold re-tuning back.
- `mmc_sleep` and other users of a held section that add no new shape.
- The branch of `mmc_calc_max_discard` for cards without the group definition, which returns the preferred size.
- SdioCisCard.Cis.RemoveFunc: a function is released at once, while outside users of its device may delay it; `SdioCisStore.FreedOnceIff` is about any order. References taken by the driver core are not counted: on standard cards each is dropped before the owner's own, on the others they only put off the release.
- SdioCisCard.Cis.AttachFuncs: runtime power management and claiming the host around it are left out.
- Retune.Host.RwRecovery: the reset of a card whose data transfer failed is not followed, because it initialises the card anew.
- Constants of headers outside the repository, such as the values of the trim arguments and of R5 error bits: they are told apart by name. include/linux/mmc is not part of this model.
- Retune.Host.Attempt: a CRC error of a tuning command marks re-tuning as needed too, which the code avoids; the surroundings may mark it at any command anyway, so no statement depends on it.
- Retune.Host.PartSwitch: does not follow a switch command that fails on the bus and yet takes effect in the card, because the driver has no way to see it.
- UNSTUFF of size 31, whose mask is not representable in a C int.
- SdioIrq.Card.ProcessPending: a handler that claims or releases interrupts while it runs is not modelled, because the table would change under the loop.
- SdioTransfer.Bus.RwExtHelper: the sizes of host and function must be positive, since with a zero among them the loops would ask for nothing forever.
- HandOff.SharedQueue.IssueRw: makes its steps without interruption; what other parties do in between is in the runs.
- Freeing of strings and of a function's buffer: its structure and its tuples are followed.
- Other host drivers (`atmel-mci.c`, `bcm2835.c`, `au1xmmc.c`, `cb710-mmc.c`, `android-goldfish.c`, `dw_mmc` tuning): register traffic with weaker protocols than CQHCI.
