# Models of the copy-offload kernel code and SUSAN

This project models six pieces of code and proves what they are relied on for.

- **Module reference counts and unload** (`ModuleRefcount`): the two per-CPU counters, the two-pass
  scan, of the deleter and of an observer in any state, and `delete_module`, as a step system with any
  number of tasks.
- **Module layout** (`ModuleLayout`, `ModuleSymtab`, `ModuleElf`, `ModuleLoader`): placing sections in
  core and init, reserving and filling the symbol table that is kept, and moving the contents.
- **Trace ring** (`TraceRing`): the single-producer, single-consumer ring, as a class and as a step
  system in which writer and reader interleave at each shared access.
- **I/OAT channel** (`IoatCore`, `IoatSweep`, `IoatRun`, `IoatProof`, `IoatCleanup`, `IoatTheorems`,
  `IoatAck`, `IoatChannel`; with `DmaCookies` and `Memcpy`): descriptors moving between the free list,
  prepared chains and the used list, under a device that walks `hw->next` at its own pace and reports
  how far it has come whenever it likes.
- **DMA engine and copy policies** (`DmaDevices`, `DmaTable`, `DmaEngineRun`, `DmaEngineProof`,
  `DmaShared`, `DmaGrants`, `DmaEngine`; `PageSplit`, `DmaCopy`, `IoatRequest`, `DmaServed`, `CopyWrappers`;
  `PrioPolicy`): reference counts and exclusive acquisition, the per-CPU channel table, the
  page-splitting copy with its CPU fallback, and the timer policy.
- **SUSAN** (`GridConnect`, `RowImage`, `SusanThin`, `SusanCorners`): thinning and corner detection.

Code that changes state is modelled twice where it runs concurrently: as a function on values, over
which runs are built and invariants proved, and as a class whose methods are proved to compute that
function in place. Locked sections are single steps; sequential consistency is assumed where the
code has barriers. Integers are unbounded except where written out: 64-bit word sums in
`module_refcount`, unsigned int sizes in the loader, the int conversion and size_t arithmetic of the
copy loop, cookies that wrap from INT_MAX to 1. Addresses do not wrap.

Answers from outside are parameters: whether an allocation succeeds, what a driver answers, the
cookies and polls that a loop sees, floating-point comparisons. `dma_cookie_assign`,
`dma_cookie_complete` and `dma_cookie_status` come from a header that is not part of this model;
they are taken to hand out the next positive cookie, to record and clear it, and to apply
`dma_async_is_complete`.

Where the code does not do what it seems to promise, the code is modelled and the exact condition
proved: the cookie test (`TruthfulIff`), shared and exclusive channels (`SharedExact`, with
`CollisionDuringPut` and `CollisionBetweenLoads`), symbol-table sizing (`SizingAgrees` with
`SizingCanDiffer`), the copy loop from 2^31 bytes on (`SubmitPages`). The traced `copy_from_user` tests an unsigned value for being
negative; only its status test has an effect, which is enough (`TracedCopy`). The comment on the
priority functions says "priority <"; the code compares the numbers with ">", and a higher number is
a lower priority.

## Model

| member | source | states |
|---|---|---|
| `ModuleRefcount.TwoPassCount` | source/kernel/module.c:778-802 | In every run, with gets, try-gets, puts and hand-overs interleaved with the loads of any call of module_refcount, in any state of the module: what it returns is at least the reference count at every instant between its two passes, so 0 means there was none then |
| `ModuleRefcount.BetweenExists` | source/kernel/module.c:778-802 | Every call that reaches its second pass has such an instant |
| `ModuleRefcount.CountStep` | source/kernel/module.c:962-1005 | Every step keeps counters and owned references in balance and an observer's scan within its bounds, whatever the state of the module |
| `ModuleRefcount.StepInv` | source/kernel/module.c:764-899 | Every get, put, reference hand-over, state store, grace period and scan step keeps the invariant of the unload protocol |
| `ModuleRefcount.RunInv` | source/kernel/module.c:764-899 | The invariant holds in every state of every run |
| `ModuleRefcount.SafeUnload` | source/kernel/module.c:764-899 | Once an unforced delete_module has passed the zero-refcount wait, no task holds a reference, none is inside try_module_get, and no get can happen, from then on in every run |
| `ModuleRefcount.NonBlockingDecides` | source/kernel/module.c:748-762 | delete_module with O_NONBLOCK marks the module as going if and only if there is no reference, and leaves it alone otherwise |
| `ModuleRefcount.GraceEnds` | source/kernel/module.c:769-776 | A blocking delete_module can go on from synchronize_sched if and only if nobody is between the liveness test and the increment any more |
| `ModuleRefcount.GraceIsNeeded` | source/kernel/module.c:764-776 | A run in which the count goes from 0 to 1 after the state was set to GOING: what synchronize_sched is there to wait out |
| `ModuleRefcount.RefcountStopped` | source/kernel/module.c:778-802 | On counters that nobody moves the two loops return the difference of the sums modulo the word size |
| `TraceRing.CircularBuffer.Write` | source/kernel/circular_buffer.c:23-32 | Appends to the contents of the ring, or drops the record exactly when size - 1 records are in it |
| `TraceRing.CircularBuffer.Read` | source/kernel/circular_buffer.c:35-40 | Takes the oldest record off the contents |
| `TraceRing.CircularBuffer.ReadList` | source/kernel/circular_buffer.c:44-91 | Copies the oldest min(max, length) records to the front of the output in order, removes exactly those, and leaves the rest of the output alone |
| `TraceRing.Segments` | source/kernel/circular_buffer.c:46-76 | The two segments together are min(size, filled); the first does not pass the end of the array, the second starts at its beginning and stays before end |
| `TraceRing.NoOverwriteWhileCopying` | source/kernel/circular_buffer.c:23-32 | The slot being written is none that the reader is copying and none that holds a record still to be read |
| `TraceRing.DroppedIffFull` | source/kernel/circular_buffer.c:23-32 | Interleaved with the reader, a record is dropped if and only if, for the start that cbWrite loads, all slots but one hold records not given back |
| `TraceRing.ReadTakes` | source/kernel/circular_buffer.c:44-76 | Interleaved with the writer, a read takes min(size, records published when it loaded end) |
| `TraceRing.StepInv` | source/kernel/circular_buffer.c:23-91 | One writer and one reader, interleaved at each shared load and store, keep the ring invariant |
| `TraceRing.RunInv` | source/kernel/circular_buffer.c:23-91 | The ring invariant holds in every state of every interleaving |
| `TraceRing.OutputIsPrefix` | source/kernel/circular_buffer.c:44-91 | In every interleaving the concatenated results of cbRead_list are a prefix of the accepted records, in order and never torn |
| `TraceRing.GapsCountDrops` | source/arch/x86/include/asm/uaccess_64.h:311-315 | The gap between the count_event of neighbouring records in the trace is the number of records dropped between them |
| `DmaCookies.AssignCountsUp` | source/drivers/dma/ioat/dma.c:240-243 | Assigning gives transaction n + 1 the cookie after that of transaction n, wrapping from INT_MAX to 1 |
| `DmaCookies.StatusExact` | source/include/linux/dmaengine.h:1063-1074 | With fewer than INT_MAX transactions outstanding, dma_async_is_complete reports success for a recent transaction if and only if it completed, wrap-around included |
| `DmaCookies.TruthfulIff` | source/include/linux/dmaengine.h:1063-1074 | The test is right about all recent transactions if and only if fewer than INT_MAX are outstanding |
| `DmaCookies.AliasOf` | source/include/linux/dmaengine.h:1063-1074 | Beyond that bound, an outstanding transaction that carries the cookie of the last completed one |
| `Memcpy.SplitTiles` | source/drivers/dma/ioat/dma.c:458-524 | The pieces of a prepared copy are contiguous in source and destination, each but the last xfercap long, the last at most that, and cover the copy from its start to its end |
| `Memcpy.SplitIsOneCopy` | source/drivers/dma/ioat/dma.c:458-524 | Executed in order, the pieces have exactly the effect of one memcpy on the whole memory |
| `Memcpy.CopiedByParts` | source/drivers/dma/ioat/dma.c:458-524 | Also interleaved with unrelated copies: once every byte is covered, the destination holds what the source held |
| `Memcpy.UnmapUndoesSplit` | source/drivers/dma/ioat/dma.c:534-547 | Source, destination and length of the whole copy are recovered from its last piece |
| `IoatCore.PrepFromDone` | source/drivers/dma/ioat/dma.c:472-502 | With enough descriptors the loop yields the next ones in order, filled with the split of the copy, linked by hw->next and ending in 0 |
| `IoatCore.PrepFromGivesUp` | source/drivers/dma/ioat/dma.c:472-513 | With too few, every descriptor taken is put on the free list |
| `IoatProof.PrepSucceeds` | source/drivers/dma/ioat/dma.c:458-524 | Prep as a whole with enough descriptors: the chain, its links, its acknowledged inner descriptors, and what is left of the free list |
| `IoatAck.PrepAcks` | source/drivers/dma/ioat/dma.c:493-521 | After a prep every descriptor of the chain before the last is acknowledged, the last one just if the caller says so; the last one counts the chain |
| `IoatProof.PrepFails` | source/drivers/dma/ioat/dma.c:506-513 | Prep as a whole with too few descriptors |
| `IoatSweep.SweepLists` | source/drivers/dma/ioat/dma.c:592-641 | The sweep stops at the reported descriptor, keeps it, frees just the acknowledged descriptors before it, in order |
| `IoatSweep.SweepWork` | source/drivers/dma/ioat/dma.c:603-612 | The sweep retires each cookie passed once: active drops by the sum of their tx_cnt and the completed cookie is the last of them |
| `IoatProof.DeviceStaysOnChain` | source/drivers/dma/ioat/dma.c:246-250 | The device is always at a live entry of the used list and the next word it will read is the next entry or 0 |
| `IoatProof.SubmitInv` | source/drivers/dma/ioat/dma.c:229-264 | Submitting keeps the channel invariant |
| `IoatProof.PrepFailsInv` | source/drivers/dma/ioat/dma.c:506-513 | A failed prep keeps the channel invariant |
| `IoatCleanup.SweepInv` | source/drivers/dma/ioat/dma.c:583-642 | A cleanup up to any descriptor that the device reported keeps the channel invariant |
| `IoatTheorems.StepInv` | source/drivers/dma/ioat/dma.c:229-778 | Every step of clients, cleanup, timer and device keeps the channel invariant |
| `IoatTheorems.RunInv` | source/drivers/dma/ioat/dma.c:229-778 | The channel invariant holds in every state of every run |
| `IoatTheorems.AlwaysSane` | source/drivers/dma/ioat/dma.c:229-778 | What the steps need to be defined holds in every run, so no run is cut short by it |
| `IoatTheorems.ChainTheorem` | source/drivers/dma/ioat/dma.c:229-264 | In every run each descriptor is in exactly one place, used_desc is never empty, the last completed descriptor is not recycled, and from it on (before the first completion, from the first entry on) hw->next follows the list and ends in 0 |
| `IoatTheorems.WatchdogTheorem` | source/drivers/dma/ioat/dma.c:678-725 | In every run active is the sum of tx_cnt over used descriptors with a cookie; a clear completion-pending bit means there is none; a set completion- or reset-pending bit means that the timer is armed or its handler is on the way |
| `IoatAck.ActiveTheorem` | source/drivers/dma/ioat/dma.c:254-260 | In every run active is the number of descriptors submitted after those of the last retired transaction |
| `IoatAck.SubmitAdds` | source/drivers/dma/ioat/dma.c:257-260 | A submit adds the number of its descriptors to active, and to pending unless that reaches the pending level |
| `IoatAck.InnerFreed` | source/drivers/dma/ioat/dma.c:614-620 | In every run a cleanup puts on the free list every descriptor it passes that is not the last of a transaction |
| `IoatAck.LeftOnUsed` | source/drivers/dma/ioat/dma.c:614-641 | In every run what lies on used_desc before the last completed descriptor is the last descriptor of a retired transaction |
| `IoatAck.ResetTheorem` | source/drivers/dma/ioat/dma.c:697-722 | In every run the channel is reset only by a timer check that sees no progress, after an earlier one since which nobody has seen any |
| `IoatAck.ResetIff` | source/drivers/dma/ioat/dma.c:697-722 | A check without progress resets the channel if and only if the acknowledge bit is set, and sets it otherwise |
| `IoatTheorems.StatusTheorem` | source/drivers/dma/ioat/dma.c:727-742 | In every run, with fewer than INT_MAX outstanding, the status of a transaction is success if and only if it was retired |
| `IoatTheorems.LastCookieSuffices` | source/drivers/dma/ioat/dma.c:583-642 | Success of one transaction means that every earlier one, of any submitter, was executed in full |
| `IoatTheorems.StatusMeansCopied` | source/drivers/dma/ioat/dma.c:583-642 | Success of a transaction means that its bytes, and those of every earlier one, are at their destination |
| `IoatTheorems.UnmapTheorem` | source/drivers/dma/ioat/dma.c:603-606 | The descriptor that is retired gives ioat_dma_unmap the buffers of the order it was made for |
| `IoatChannel.Channel.GetNextDescriptor` | source/drivers/dma/ioat/dma.c:436-456 | Takes the first free descriptor, or a new one, or fails |
| `IoatChannel.Channel.StartNullDesc` | source/drivers/dma/ioat/dma.c:744-778 | The used list starts with a null descriptor, acknowledged and last of its chain, if one could be had; the lists stay sound for the next call |
| `IoatChannel.Channel.PrepMemcpy` | source/drivers/dma/ioat/dma.c:458-524 | In place, the chain and the free list of the model of prep; the lists stay sound for the next call |
| `IoatChannel.Channel.TxSubmit` | source/drivers/dma/ioat/dma.c:229-264 | In place, the model of submit: cookie, hook into the chain, used list, timer, active and pending; the lists stay sound for the next call |
| `IoatChannel.Channel.CleanupPreamble` | source/drivers/dma/ioat/dma.c:571-581 | No progress changes nothing; progress clears the acknowledge bit and arms the timer |
| `IoatChannel.Channel.CleanupUpTo` | source/drivers/dma/ioat/dma.c:583-642 | In place, the model of the sweep; the lists stay sound for the next call |
| `IoatChannel.Channel.TimerEvent` | source/drivers/dma/ioat/dma.c:678-725 | In place, the model of the timer: restart, sweep, reset or acknowledge; the lists stay sound for the next call |
| `IoatChannel.Channel.TxStatus` | source/drivers/dma/ioat/dma.c:727-742 | Success at once if the cookie test says so, else the test after a cleanup; the lists stay sound for the next call |
| `DmaDevices.GetFromOk` | source/drivers/dma/dmaengine.c:202-245 | Referencing the channels of a public device brings each to 0 or the new count, with as many module references |
| `DmaDevices.PutFromOk` | source/drivers/dma/dmaengine.c:253-261 | Dropping them brings each to 0 or the lower count |
| `DmaDevices.CandidateExact` | source/drivers/dma/dmaengine.c:573-607 | The candidate is the first channel that nobody uses, that the filter accepts, on a device with all capabilities asked for and, if public with several channels, none in use |
| `DmaDevices.TryExclusiveOk` | source/drivers/dma/dmaengine.c:573-657 | A candidate channel becomes exclusively held, no channel of its device being public; a failed try leaves the device as it was |
| `DmaDevices.ReleaseOk` | source/drivers/dma/dmaengine.c:675-685 | Releasing undoes the acquisition, DMA_PRIVATE included |
| `DmaTable.EligibleExact` | source/drivers/dma/dmaengine.c:498-504 | nth_chan looks at exactly the channels with clients on listed public devices with the capability |
| `DmaTable.EligibleOrdered` | source/drivers/dma/dmaengine.c:498-517 | It looks at them in the order of the device list and of the channels of a device |
| `DmaTable.NthChanOk` | source/drivers/dma/dmaengine.c:491-526 | Its choice is such a channel if there is one, and beyond the n-th one with the lowest table_count |
| `DmaTable.RebalanceServes` | source/drivers/dma/dmaengine.c:536-571 | After a rebalance an entry names a channel, with clients, of a listed public device that can do the operation of its row; it is empty only if there is none |
| `DmaTable.RebalancePublic` | source/drivers/dma/dmaengine.c:536-571 | After a rebalance every table entry names a channel of a public device with clients; nothing but table counts changed |
| `DmaTable.RebalanceCounts` | source/drivers/dma/dmaengine.c:491-571 | Each table_count of a listed public channel is the number of table entries that name it |
| `DmaTable.CpusIsolated` | source/drivers/dma/dmaengine.c:560-570 | On SMP, with as many memcpy channels with clients on listed public devices as online CPUs, the CPUs get different ones of them |
| `DmaTable.RebalanceFair` | source/drivers/dma/dmaengine.c:491-571 | If all operation types with channels see the same ones, the counts of any two channels differ by at most one |
| `DmaEngineProof.StepInv` | source/drivers/dma/dmaengine.c:573-772 | Every get, put, request, release, register and unregister, and each half of the copy policy's get and put, keeps the invariant |
| `DmaEngineProof.RunInv` | source/drivers/dma/dmaengine.c:573-772 | The invariant holds in every state of every run |
| `DmaEngineProof.ReferenceTheorem` | source/drivers/dma/dmaengine.c:573-745 | In every run: public channels have 0 or dmaengine_ref_count clients, private ones 0 or 1, privatecnt counts the held ones (plus one if registered private), DMA_PRIVATE is set if and only if it is positive, module references equal client counts |
| `DmaShared.SharedExact` | source/drivers/dma/dmaengine.c:398-412 | In every run, with anything between the two unlocked loads: the channel returned by copy_dma_get_channel_sh is held exclusively, or one request away from it, if and only if dmaengine_ref_count is 0 when the table is loaded and the channel is held or its device listed; while the count is positive it is public and in use |
| `DmaShared.SharedIsNotExclusive` | source/drivers/dma/dmaengine.c:752-772 | So with no copy_dmaengine_put under way from the first load to the second, the shared policy never gets an exclusively held channel |
| `DmaShared.CollisionDuringPut` | source/drivers/dma/dmaengine.c:765-772 | A run in which it does, with a put between its two critical sections |
| `DmaShared.CollisionBetweenLoads` | source/drivers/dma/dmaengine.c:398-412 | A run in which it does with no put under way at either load, since one went through in between |
| `DmaShared.RunTable` | source/drivers/dma/dmaengine.c:536-571 | In every run table entries name channels that exist, also when nobody holds a reference |
| `DmaGrants.RequestTheorem` | source/drivers/dma/dmaengine.c:615-657 | A channel handed out can do all that was asked for, was accepted by the filter and used by nobody; with willing drivers a request fails only if no listed device had one |
| `DmaGrants.GetTheorem` | source/drivers/dma/dmaengine.c:691-723 | With willing drivers dmaengine_get leaves every channel of a listed public device with one reference per public user |
| `DmaGrants.RegisterTheorem` | source/drivers/dma/dmaengine.c:928-949 | A registered device is listed with its capabilities and channels, each with one reference per public user |
| `DmaGrants.UnregisterTheorem` | source/drivers/dma/dmaengine.c:983-990 | An unregistered device is off the list and off the table |
| `DmaGrants.FreshTheorem` | source/drivers/dma/dmaengine.c:716-721 | After the first dmaengine_get, after a driver has come and after one has gone, every table entry names a channel in use that serves its operation, and is empty only if there is none |
| `DmaGrants.GoneLeaves` | source/drivers/dma/dmaengine.c:701-710 | A public device whose module turns out to be gone leaves the list |
| `DmaGrants.SharedGetsChannel` | source/drivers/dma/dmaengine.c:398-412 | While the table is fresh every online CPU gets a memcpy channel from the shared policy if a listed public device has one with clients |
| `DmaEngine.Allocator.ChanGet` | source/drivers/dma/dmaengine.c:218-245 | In place, the model of dma_chan_get; balance_ref_count is the loop |
| `DmaEngine.Allocator.Get` | source/drivers/dma/dmaengine.c:691-723 | In place, the model of dmaengine_get |
| `DmaEngine.Allocator.Put` | source/drivers/dma/dmaengine.c:729-745 | In place, the model of dmaengine_put |
| `DmaEngine.Allocator.NthChan` | source/drivers/dma/dmaengine.c:491-526 | The n-th usable channel, or else the first of the least used, and its table count; none only if no listed public device has a usable one |
| `DmaEngine.Allocator.RebalanceAll` | source/drivers/dma/dmaengine.c:536-571 | In place, the model of dma_channel_rebalance; every entry can do the operation of its row, or nothing can |
| `DmaEngine.Allocator.RequestChannel` | source/drivers/dma/dmaengine.c:615-657 | In place, the model of __dma_request_channel; the device list stays well-formed |
| `DmaEngine.Allocator.ReleaseChannel` | source/drivers/dma/dmaengine.c:675-685 | In place, the model of dma_release_channel |
| `PageSplit.SplitTheorem` | source/drivers/dma/dma_policy_ex_sh.c:117-164 | There are exactly nr_pages chunks, chunk k uses page k and stays in it, each starts where the last ended and the last ends at len |
| `PageSplit.CoveredOnce` | source/drivers/dma/dma_policy_ex_sh.c:117-164 | Every byte is in exactly one chunk, at the page and offset of its user address |
| `PageSplit.TooLongStays` | source/drivers/dma/dma_policy_ex_sh.c:134-158 | From 2^31 bytes on, the int conversion in min_t keeps the remaining length from ever reaching 0 |
| `DmaCopy.Request.SubmitPages` | source/drivers/dma/dma_policy_ex_sh.c:117-158 | Below 2^31 bytes: ends if and only if the channel accepts nr_pages submissions, with 0 left and exactly the chunks submitted, whatever the retries; from 2^31 bytes on: never ends |
| `DmaCopy.Request.SubmitWhole` | source/drivers/dma/dma_policy_ex_sh.c:371-388 | One accepted submission of the whole buffer, after any number of retries |
| `DmaCopy.WaitSuccess` | source/drivers/dma/dmaengine.c:263-281 | dma_sync_wait returns success if and only if a poll before the timeout saw it, all earlier polls having seen work in progress |
| `DmaCopy.WaitEnds` | source/drivers/dma/dmaengine.c:263-281 | It returns at the first poll that is late or not in progress, with an error or that status, and not before |
| `DmaCopy.SyncWait` | source/drivers/dma/dmaengine.c:263-281 | The loop returns the status of the first poll that ends the wait |
| `DmaCopy.Request.Run` | source/drivers/dma/dma_policy_ex_sh.c:451-475 | With a channel and pages or kernel buffers: the status is that of the poll that ended the wait for the last cookie of a complete request, success if and only if it was seen in time, and the return value is 0; nr_pages is the number of chunks; each error path has its return value and leaves the status at DMA_INIT |
| `CopyWrappers.CopyDma` | source/arch/x86/include/asm/uaccess_64.h:186-204 | The DMA copy counts, and 0 is returned, if and only if success was seen in time; otherwise the CPU copies and its result is returned. Return value 0 means that all bytes were copied: by the CPU, which left none, or by the channel that served the request |
| `CopyWrappers.TracedCopy` | source/arch/x86/include/asm/uaccess_64.h:269-318 | The same for the traced variant, whose test of a negative result can never hold; the record names who copied and how many bytes |
| `IoatRequest.RequestCopied` | source/drivers/dma/dma_policy_ex_sh.c:117-164 | Success of the last cookie of a split request means that every byte of the user or kernel buffer arrived, with other submitters on the channel |
| `DmaServed.SubmittedTx` | source/drivers/dma/ioat/dma.c:229-264 | A submit step makes the transaction of the next number, with the cookie of that number, seen from any later state |
| `DmaServed.ServedArrives` | source/drivers/dma/dma_policy_ex_sh.c:117-164 | End to end: if the accepted answers were submit steps in a run of the channel and the polls were tests of the last cookie in its states, a successful wait means that all bytes are there at the poll that ended it, for pinned pages and for kernel buffers |
| `ModuleLayout.AlignFits` | source/kernel/module.c:2051-2061 | 32-bit ALIGN equals the mathematical one for every power of two while the result fits |
| `ModuleLayout.LayoutTheorem` | source/kernel/module.c:2066-2140 | Every SHF_ALLOC section, and no other, gets an aligned place of its own, in init exactly if its name starts with .init, text before read-only before the rest; with page protection text, read-only part and block end on page boundaries; only sh_entsize changes |
| `ModuleLayout.LayoutIsSnug` | source/kernel/module.c:2051-2140 | No room is wasted: a section starts where its kind starts or another of its kind ends, up to alignment, and a kind where the one before ends, or on the next page |
| `ModuleLoader.GetOffset` | source/kernel/module.c:2051-2061 | In unsigned int arithmetic, the aligned offset and the new size |
| `ModuleLoader.Loader.PlaceSections` | source/kernel/module.c:2066-2140 | In place on the headers, the layout of the model, with all recorded sizes |
| `ModuleSymtab.SymtabTheorem` | source/kernel/module.c:2302-2337 | The layout stays one; both tables are in init; core symbols and strings lie behind every core section, aligned, and nothing further on than alignment asks for |
| `ModuleSymtab.KeptExact` | source/kernel/module.c:2274-2294 | The kept symbols, in order: the first, and those with a name that are defined in an allocated executable section of core (any allocated one with CONFIG_KALLSYMS_ALL) |
| `ModuleLoader.Loader.PlaceSymtab` | source/kernel/module.c:2302-2337 | In place, the symbol-table layout of the model, counted in unsigned ints |
| `ModuleSymtab.SizingAgrees` | source/kernel/module.c:2274-2369 | add_kallsyms selects what layout_symtab counted if and only if no symbol is defined in a string table that is itself a core section; it never needs more than was reserved |
| `ModuleSymtab.SizingAgreesUsually` | source/kernel/module.c:2302-2369 | For a string table that is not SHF_ALLOC at first, it uses exactly the reserved entries and bytes |
| `ModuleSymtab.SizingCanDiffer` | source/kernel/module.c:2302-2369 | A file with a string table in core for which it uses fewer |
| `ModuleSymtab.ReadBack` | source/kernel/module.c:2355-2368 | Read back from the filled tables, each kept symbol has its own fields and its own name, whole if shorter than 128 bytes, else its first 127 bytes |
| `ModuleLoader.Measure` | source/kernel/module.c:2319-2326 | The number of kept symbols and of their string bytes |
| `ModuleLoader.Loader.AddKallsyms` | source/kernel/module.c:2355-2369 | In place at the end of core, the entries and strings of exactly the kept symbols, each to be read there with its name; nothing before them changes |
| `ModuleElf.SymbolRoundTrip` | source/kernel/module.c:2362-2365 | An entry stored as 24 bytes reads back as the same symbol |
| `ModuleLoader.Strlcpy` | source/kernel/module.c:2360-2367 | Writes the name, whole if shorter than 128 bytes, else its first 127 bytes, and a NUL; returns the full length |
| `ModuleLoader.Loader.MoveModule` | source/kernel/module.c:2803-2864 | Both blocks hold each section's bytes at its place (zeros for NOBITS), zeros elsewhere; each header points there; a failed allocation changes no header |
| `ModuleLoader.MovedAll` | source/kernel/module.c:2840-2861 | At its new address, in core or init, every allocated section has its bytes of the file, or zeros if it has none there |
| `ModuleLoader.Loader.PlaceAndMove` | source/kernel/module.c:2051-2140 | Layout, symbol-table layout and move in sequence, for any sections whose sizes fit: each step establishes what the next needs |
| `ModuleLoader.Loader.Load` | source/kernel/module.c:2302-2369 | With add_kallsyms on top, from the moved string table: every section still has its contents, and each kept symbol reads back from core with its fields and its name |
| `GridConnect.PiecesExact` | micro-benchmark_Cache_2CPU/mibench_automotive/susan.c:1053-1058 | The count of pieces is below 2 if and only if the neighbours of the point are 8-connected among themselves |
| `GridConnect.RemovalKeeps` | micro-benchmark_Cache_2CPU/mibench_automotive/susan.c:1041-1067 | Removing a point whose neighbours are connected without it disconnects no two others |
| `SusanThin.StepKeeps` | micro-benchmark_Cache_2CPU/mibench_automotive/susan.c:879-1067 | Whatever the loop body does at a point, edge points that survive and were 8-connected still are |
| `SusanThin.RunKeeps` | micro-benchmark_Cache_2CPU/mibench_automotive/susan.c:877-1067 | Over any number of steps anywhere, points that are edge points all along stay connected |
| `SusanThin.ThickPoints` | micro-benchmark_Cache_2CPU/mibench_automotive/susan.c:1041-1067 | A point with more than two neighbours, two at sides, is deleted if and only if its neighbours are connected without it |
| `SusanThin.RulesApply` | micro-benchmark_Cache_2CPU/mibench_automotive/susan.c:879-1067 | Every point has no edge point next to it, one, two, or three and more |
| `SusanThin.ThinAt` | micro-benchmark_Cache_2CPU/mibench_automotive/susan.c:879-1067 | In place, by case: an isolated point is deleted; a line end below 6 sets the neighbour with the strongest weighted response, if positive; a point between two corners on one side moves between them if and only if the response and the cells behind allow it; a right angle that goes on is deleted; a thick point is deleted if and only if its neighbours hold together; nothing else changes; and where the scan goes on |
| `SusanThin.ThinEnd` | micro-benchmark_Cache_2CPU/mibench_automotive/susan.c:906-955 | A line end grows to the first of the highest weighted neighbours, if positive |
| `SusanThin.ThinPair` | micro-benchmark_Cache_2CPU/mibench_automotive/susan.c:959-1036 | Two neighbours: straightening, or deletion of a right angle |
| `SusanThin.FindBest` | micro-benchmark_Cache_2CPU/mibench_automotive/susan.c:935-938 | The first maximum in reading order, if positive |
| `SusanThin.Thin` | micro-benchmark_Cache_2CPU/mibench_automotive/susan.c:877-1067 | The scan starts at (4, 4), goes on from where each body leaves it, and when it ends the body has been executed at every interior point |
| `SusanCorners.MaskIsDisc` | micro-benchmark_Cache_2CPU/mibench_automotive/susan.c:1493-1565 | The pixels read are those within squared distance 10 of the centre, each once |
| `SusanCorners.AdvanceOk` | micro-benchmark_Cache_2CPU/mibench_automotive/susan.c:1493-1565 | The pointer increments lead from each mask pixel to the next |
| `SusanCorners.AreaRows` | micro-benchmark_Cache_2CPU/mibench_automotive/susan.c:1491-1565 | The area is 100 and the similarity to the centre of each pixel of the seven rows of 3, 5, 7, 6, 7, 5 and 3 pixels |
| `SusanCorners.Measure` | micro-benchmark_Cache_2CPU/mibench_automotive/susan.c:1491-1565 | A pixel passes the nested early exits if and only if the full mask sum is below max_no, and then the sum is complete |
| `SusanCorners.SmallerAreaStronger` | micro-benchmark_Cache_2CPU/mibench_automotive/susan.c:1565-1642 | Of two pixels that pass, the one with the smaller area has the larger response; a pixel has one if and only if it passes |
| `SusanCorners.Respond` | micro-benchmark_Cache_2CPU/mibench_automotive/susan.c:1485-1642 | The response image is max_no minus the area where a pixel passes, and 0 elsewhere |
| `SusanCorners.CornersApart` | micro-benchmark_Cache_2CPU/mibench_automotive/susan.c:1680-1735 | Two corners are at least four rows or four columns apart |
| `SusanCorners.StrongestIsCorner` | micro-benchmark_Cache_2CPU/mibench_automotive/susan.c:1646-1735 | The first of the strongest pixels is a corner |
| `SusanCorners.IsPeak` | micro-benchmark_Cache_2CPU/mibench_automotive/susan.c:1681-1735 | The 48 comparisons |
| `SusanCorners.FindCorners` | micro-benchmark_Cache_2CPU/mibench_automotive/susan.c:1646-1749 | The list holds exactly the corners, in reading order; or there are at least MAX_CORNERS |
| `SusanCorners.CornersVisible` | micro-benchmark_Cache_2CPU/mibench_automotive/susan.c:1446-1471 | Drawing a list of corners that are apart leaves each black with eight white neighbours and all other pixels alone |
| `SusanCorners.CornerDraw` | micro-benchmark_Cache_2CPU/mibench_automotive/susan.c:1446-1471 | In place, the drawing of the list in mode 0 |
| `SusanCorners.MarkCorners` | micro-benchmark_Cache_2CPU/mibench_automotive/susan.c:1446-1471 | Found and then drawn, every corner is 0 and its neighbours 255 |
| `PrioPolicy.GrantedFresh` | source/drivers/dma/dmaengine.c:615-657 | A requested channel was held by nobody |
| `PrioPolicy.Policy.Complete` | source/drivers/dma/dma_policy_prio.c:61-87 | Four different channels that the policy did not hold, or all given back because a request came back empty, with other users of the engine in between |
| `PrioPolicy.Policy.Start` | source/drivers/dma/dma_policy_prio.c:153-187 | Four new channels and a timer at its start, or -1 and none; what was held before stays held, so a second start forgets the channels of the first |
| `PrioPolicy.Policy.Callback` | source/drivers/dma/dma_policy_prio.c:128-145 | After k callbacks the lower-priority channels of the list are suspended if and only if k is odd, the first never; tick stays in range; other channels are left alone |
| `PrioPolicy.Policy.ReleaseAll` | source/drivers/dma/dma_policy_prio.c:36-45 | Releases exactly the channels of the list, each of which must be running |
| `PrioPolicy.Policy.Stop` | source/drivers/dma/dma_policy_prio.c:191-200 | Every channel of the list is resumed, then released, and no other |

## Left out

- Channel reset: the timer's restart from the tail is a step of the model and keeps the invariants; what was copied is claimed only for runs without a restart. Register accesses, error decoding and `ioat1_dma_free_chan_resources` are not modelled.
- IoatChannel.Channel.StartNullDesc: runs start after a null descriptor was allocated; when that fails the code leaves `used_desc` empty and goes on.
- IoatTheorems.WatchdogTheorem: a fired timer whose handler has not yet acted counts as armed.
- IoatTheorems.StatusMeansCopied: assumes that no other copy from then on writes to the two buffers; so do `RequestCopied`, `ServedArrives` and `CopyDma`.
- Completion callbacks, interrupts, DMA mapping calls, PCI pools and sysfs.
- ModuleRefcount.TwoPassCount: assumes that the references at the start of the scan plus the gets made since stay below 2^64; so do `RunInv` and `SafeUnload` for the deleter's scans. Forced unload is not modelled. One observer at a time is followed, which suffices since a scan writes nothing.
- TraceRing.GapsCountDrops: `count_event` does not wrap.
- Pin failures: the return value is modelled; the release of pages from an array that was filled only in part is not.
- Liveness: retry loops, `dma_sync_wait` and the refcount wait are shown safe, not terminating.
- DmaCopy.Request.Run: the three `boot`, `sh` and `excl` ways to find a channel are one flag; `len` is at most 2^64 - 2^32.
- The exclusive policy's per-CPU slots (`start_policy_excl`): the same requests as in the priority policy.
- PrioPolicy.Policy.Start: no callback of an earlier start falls into a second one.
- ModuleLoader.Loader.AddKallsyms: the symbols are a parameter, with the types that `elf_type` stores in `st_info` already in them; that store into init is not modelled. A name that runs off the string table ends there.
- `arch_mod_section_prepend` is its default, 0, and ARCH_SHF_SMALL that of x86, 0, for the last mask. Relocation, signatures, versions and licences.
- SusanThin.Thin: the loops are cut off after any given number of steps, since nothing in the code makes them end.
- SusanCorners.Respond: the tests on the centre of gravity and the edge direction are a parameter; `dx`, `dy` and `I` of a corner are not modelled. The mask sums and the 48 comparisons, written out in the code, are loops here. Drawing mode 1 is left out.
- Edge detection, smoothing, the brightness table's exponentials, `dca.c`, trace drivers, daemons, benchmarks and scripts.
