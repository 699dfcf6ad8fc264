# xen_shm: proofs about the shared-memory pipe

xen_shm connects two Xen domains by a byte pipe in shared memory. `xen_shm_pipe.c` is the
user-space pipe: a circular buffer with one reader and one writer and no lock, and a protocol
of flag bits by which each side decides to spin, to sleep, or to wake the other. `xen_shm.c` is
the driver below it: it grants, maps and takes back the pages, carries the signals, and offers
the `await` call the pipe sleeps in. This project models both and proves what they keep.

| file | contents |
|---|---|
| `Slots.dfy` | cursor arithmetic of the circular buffer |
| `Fifo.dfy` | cursors and cells as a state machine, any schedule of the two sides |
| `DataPath.dfy` | the copy loops in place on the shared buffer, with the alignment and check bounds, refined to `Fifo` |
| `Protocol.dfy` | both ends as program counters: flags, sleeping, signals, transfers, flush, free, a killed process |
| `ProtocolInvariant.dfy` | the invariant of every schedule of `Protocol` |
| `ProtocolTheorems.dfy` | no deadlock, end of file, error results |
| `ProtocolSignals.dfy` | signals, flush, and a transfer's looks at the peer's SLEEPING bit |
| `ProtocolCalls.dfy` | calls with something to move move it; what makes a call fail; WAITING is taken back |
| `ProtocolSleep.dfy` | an end with nothing to do sleeps, or spins for good; interrupted sleeps |
| `ProtocolClosing.dfy` | free, and what becomes of the peer's wait |
| `ProtocolProbe.dfy` | the EPIPE probe's error: when it is right, and schedules from the start where it is not |
| `Await.dfy`, `AwaitTheorems.dfy` | the await ioctl for any number of callers |
| `AwaitCauses.dfy` | why a wait ends, and when a call is refused |
| `AwaitTimeout.dfy` | timed calls of await: signals lost when the time runs out |
| `AwaitRefinement.dfy` | the pipe's sleep and probe are what `Protocol` takes them for, over any schedule of everything else |
| `Handles.dfy`, `Ledger.dfy` | the unmap walk; sets of grants and mappings; the allocation order |
| `Instance.dfy` | an open descriptor as a class, with all it holds, under failing hypercalls |
| `Queue.dfy` | the queue of delayed frees, and release |

Memory is sequentially consistent: every access to the shared area is one step, and steps of the
two sides interleave in any order. An `|=` or `&=` on a flag word is one step, also where the
reader writes `writer_flags` (xen_shm_pipe.c:401). Each pipe has one reader and one writer, as
xen_shm_pipe.h asks. The hypervisor may refuse any call; an instance carries the history of what it
was denied and refused, so that success and failure can be said exactly. A side of the pipe carries the log of
its looks at the peer's SLEEPING bit, of its signals and of its results. The peer does not change the grant
references in the meta page.

Some predicates have the body `var whole := ...; whole`. It means the conjunction it names; written so, the verifier proves and uses the
predicate in one piece and does not take every contract that mentions it apart into its conjuncts, which costs it many times more.

Where the code does not do what it or its documentation says, the model follows the code:

- A read of zero bytes returns 0, which the interface calls end of file (`ZeroByteReadReturnsZero`;
  `ZeroMeans` says exactly when 0 comes back).
- The probe after 10000 rounds reports EPIPE when the writer closed in good order, and also when there are bytes to
  read (`ProbeReportsGracefulCloseAsError`, both from the start). What the error hides the next read tells: it
  returns the bytes, or the end of file, or fails, exactly when there are bytes, or the writer had closed, or neither
  (`ProbeErrorExactly`).
- An interrupted reader clears the writer's WAITING bit and leaves its own set (xen_shm_pipe.c:401).
  The two ends still never sleep on each other (`NeverBothCommitted`), but the bit stays set when the reader is in no call
  (`InterruptedReaderSwapsBits`), and a writer with a full ring beside it then spins and never sleeps: an end with nothing to do beside
  an idle peer goes to sleep exactly when the peer's WAITING is clear (`SleepsExactly`).
- EDEADLK can come back when no process waits (`RefusedThoughNobodyHolds`; `GateRefusesExactly` says when it comes back).
- A user signal can be lost between callers on one end (`UserSignalStolen`, from the start). Where new calls use the mutex it is
  safe exactly when no other caller there is about to arm without it (`UserSignalKeptExactly`); where they need not, exactly
  when the waiter is the only caller on its end (`UserSignalSafeExactly`); on a broken pipe always.
- A timed await that runs out of time clears the latent bit all the same: a signal that comes in between is lost
  (`SignalLostAtTimeout`, from the start). A taken signal is reported exactly when the time had not run out and the second look finds the pipe whole
  (`TakenReportedExactly`), and a waiting call is safe from losing one exactly when it has no timeout (`LossExactly`). The pipe's sleep has none.
- Invalidating a range unmaps pages behind it when some of its own are unmapped already (`InvalidationGoesBehind`), and asks for too few pages when the
  range does not consist of whole ones (`InvalidationExactly`, `RangeAskedExactly`, `PageAskedExactly`: exactly when it does right).
- A power-of-two number of pages is allocated twice over (`OrderMinimalExactly`).
- A denied grant is not noticed, since an unsigned reference is compared with 0 (xen_shm.c:714): init_offerer succeeds all the same,
  and the instance is consistent exactly when none was denied (`InitOfferer`).
- A failed init ignores refusals when it takes back what it has; the refused grants or header mapping stay (`InitOfferer`, `InitReceiver`).
- `__xen_shm_add_delayed_free` does not enqueue: an instance that could not be freed at release is lost (`AddDelayedFree`, `Release`).

## Model

| member | source | states |
|---|---|---|
| Slots.SlotIsModulo | xen_shm_pipe.c:629-634 | stepping a cursor and rewinding it at the end of the buffer is counting modulo the buffer size |
| Slots.EmptyTest | xen_shm_pipe.c:351-352 | equal cursors mean an empty ring and nothing else |
| Slots.FullTest | xen_shm_pipe.c:440-445 | a write cursor one before the read cursor means a full ring and nothing else |
| Slots.ReducedCursor | xen_shm_pipe.c:679-681 | read_pos_reduced is the cell of the last position the writer may reach |
| Fifo.NoUnreadCellOverwritten | xen_shm_pipe.c:699-768 | a byte is stored only into a cell that no unread byte occupies |
| Fifo.StepInv | xen_shm_pipe.c:548-639 | the order of the published, private and snapshot cursors, and the contents of the cells in use, survive every step of either side |
| Fifo.FifoUnderAnySchedule | xen_shm_pipe.c:699-790 | under every schedule the bytes delivered are the first bytes accepted, and those in transit are still in their cells |
| Fifo.WriterRun | xen_shm_pipe.c:699-790 | any number of writer steps leave the reader's side alone and only add bytes |
| Fifo.ReaderRun | xen_shm_pipe.c:548-639 | any number of reader steps leave the cells and the writer's side alone and only free room |
| Fifo.StraightCopyIn | xen_shm_pipe.c:725-768 | a wide store, where the cells do not wrap, equals the byte stores it stands for |
| Fifo.StraightCells | xen_shm_pipe.c:573-616 | a wide load, where the cells do not wrap, yields the bytes sent, in order |
| Fifo.SplitsDoNotMatter | xen_shm_pipe.c:888-927 | in whatever pieces a stream is written and read, what is read is the beginning of what is written, and begins with all of the pieces written once that many bytes are read |
| DataPath.Shared.ReadPieces | xen_shm_pipe.c:909-927 | any number of read_all calls of any sizes: their pieces put together are the next bytes that were sent |
| DataPath.Shared.WritePieces | xen_shm_pipe.c:888-907 | any number of write_all calls of any sizes: the accepted parts put together are what is sent |
| DataPath.Shared.Carry | xen_shm_pipe.c:888-927 | any number of writes of any sizes into an empty pipe, then of reads of any sizes, with the other side moving freely: what comes out is the beginning of what went in, and all of it once that many bytes are out |
| DataPath.Shared.constructor | xen_shm_pipe.c:202-208 | the size set-up makes an empty ring whose base and size are multiples of 8 |
| DataPath.Shared.ChunkBound | xen_shm_pipe.c:557-568 | a chunk ends strictly ahead, at one of the three bounds and within each |
| DataPath.Shared.CopyWordsOut | xen_shm_pipe.c:587-596 | the 64-bit loop hits its bound exactly, stays in the readable cells and the user's buffer, and delivers the bytes in order |
| DataPath.Shared.CopyChunkOut | xen_shm_pipe.c:573-616 | a chunk by words and bytes equals the chunk by bytes for every alignment; it stops short of its bound by at most 7, and only if a check is due; is_aligned implies both pointers on word boundaries |
| DataPath.Shared.ReadAvail | xen_shm_pipe.c:500-648 | with peer steps anywhere: at least the minimum of nbytes and what was available at entry, exactly that if nothing is published meanwhile; the bytes are the next of the stream and the rest of the user's memory is untouched; it looks at the writer's SLEEPING bit on entry, at most wait_check_interval + 7 bytes (after the entry look 128, or the interval) from each look to the next, and at the end with everything published; each look after the first that sees it sleeping is answered by one signal |
| DataPath.Shared.WriteAvail | xen_shm_pipe.c:650-798 | the same for writing, with the room for N - 1 bytes and the reader's SLEEPING bit |
| DataPath.Shared.Read | xen_shm_pipe.c:800-843 | fails or returns 0 for a non-empty request only if nothing had been published beyond what was read; 0 means that the writer has closed and all it accepted is delivered, and is returned if that is so at the start; otherwise the next bytes of the stream |
| DataPath.Shared.Write | xen_shm_pipe.c:845-886 | accepts a prefix of the request, of at least one byte unless it fails, and fails only if an end has closed or there was no room at the start |
| DataPath.Shared.ReadAll | xen_shm_pipe.c:909-927 | every inner read but the last moved bytes; the result is the full count, or with the first that moved none the bytes so far, or its result if there are none |
| DataPath.Shared.WriteAll | xen_shm_pipe.c:888-907 | every inner write but the last moved bytes; the result is the full count, or with the first that moved none the bytes so far, or its result if there are none |
| ProtocolInvariant.StuckMeansNothingAvailable | xen_shm_pipe.c:440-445 | the wait loop's tests mean nothing to read, or no room; the ring is never empty and full at once |
| ProtocolInvariant.StepInv | xen_shm_pipe.c:331-494 | the invariant over flags, snapshots, signals and cursors survives every step of either end |
| ProtocolInvariant.RunInv | xen_shm_pipe.c:331-494 | and every schedule |
| ProtocolTheorems.OneSawTheOtherWait | xen_shm_pipe.c:351-395 | if both ends are past their second look at the cursor, one of them has seen the other's WAITING |
| ProtocolTheorems.NeverBothCommitted | xen_shm_pipe.c:445-485 | the two ends are never both between the decision to sleep and the return of the await |
| ProtocolTheorems.WaitingEndWakesSleeper | xen_shm_pipe.c:379-382 | under any schedule that kills or interrupts neither, an end in its wait loop has signalled a sleeping peer, or got work, by its 14th own step |
| ProtocolTheorems.MarksGrow | xen_shm_pipe.c:929-945 | no schedule takes back what a signal has recorded |
| ProtocolSignals.FlushGuarantee | xen_shm_pipe.c:929-945 | from the call of flush on, once it has taken its two steps, under any schedule, the peer is never asleep with no signal on its way before it has used all that was published when flush was called |
| ProtocolSignals.SignalArrives | xen_shm_pipe.c:294-300 | any signal that an end has decided on is sent with its next step, and has the same effect for good |
| ProtocolSignals.LookGuarantee | xen_shm_pipe.c:618-643 | a look of a transfer, on the way or at its end, sends a signal if and only if the peer's SLEEPING is set, and is then as good as a flush; what the last look found is what AsleepWithWorkOnlyAfterRace goes by |
| ProtocolSignals.TransferWakesSleeper | xen_shm_pipe.c:641-643 | over any schedule that kills neither end and does not interrupt the sleeper, a transfer beside a sleeping peer does not end without an event on its way to it |
| ProtocolTheorems.AsleepWithWorkOnlyAfterRace | xen_shm_pipe.c:641-643 | if an end is asleep for good with work available, its peer's last look at the end of a transfer did not see it sleeping, or the peer is just about to signal |
| ProtocolTheorems.ZeroMeans | xen_shm_pipe.c:829-839 | 0 comes back exactly at end of file or for a request of zero bytes |
| ProtocolTheorems.ZeroByteReadReturnsZero | xen_shm_pipe.c:829-839 | from any idle state with bytes to read, a read of zero bytes returns 0 |
| ProtocolTheorems.TransferCounts | xen_shm_pipe.c:829-839 | once the wait is over a non-empty request moves at least one byte, at most what was asked for, and returns that count |
| ProtocolTheorems.FailedCallHadNothing | xen_shm_pipe.c:350-404 | a call that comes back without a transfer, other than for a closed peer, had no byte to read or no room to write when it began |
| ProtocolCalls.SleepFailsOnlyFor | xen_shm_pipe.c:395-404 | a call comes back for a failed sleep only if its process was interrupted during the call or, for the writer with EPIPE, the pipe is broken |
| ProtocolCalls.WorkIsDone | xen_shm_pipe.c:800-886 | a call with something to move, from its beginning, from any look of its wait, from await with an event on its way, or from the transfer, comes back under any schedule that neither kills nor interrupts it, within a bound on its own steps, having moved all that had been published before its last look at the peer's cursor, or all it was asked for; but that a writer fails on a broken or closed pipe |
| ProtocolCalls.WorkBegins | xen_shm_pipe.c:826-843 | every call that begins with something to move is such a call |
| ProtocolCalls.SomethingToDo | xen_shm_pipe.c:556-640 | such a call always has a step that does something, or an event on its way, so that the bound is reached |
| ProtocolCalls.WokenEndMoves | xen_shm_pipe.c:395-411 | an end woken by a signal with something to move returns a positive count |
| ProtocolCalls.WaitingTakenBack | xen_shm_pipe.c:407-409 | a call that finds its WAITING clear and moves bytes leaves it clear |
| ProtocolSleep.InterruptEndsCall | xen_shm_pipe.c:397-403 | an interrupted sleep fails the call at its second step, under any schedule that does not kill the end |
| ProtocolSleep.InterruptedReaderSwapsBits | xen_shm_pipe.c:397-403 | an interrupted reader is idle again with its own WAITING set and the writer's cleared |
| ProtocolSleep.SleepsExactly | xen_shm_pipe.c:379-395 | a call with nothing to do beside a peer in no call goes to sleep within twenty own steps if and only if the peer's WAITING is clear; otherwise it never does |
| ProtocolClosing.FreeCloses | xen_shm_pipe.c:279-292 | free, of either end, under any schedule that does not kill it: within two own steps CLOSED is set and the pipe is broken |
| ProtocolClosing.CloseEndsSleep | xen_shm_pipe.c:279-292 | an end asleep with nothing to do when its peer is freed comes back: a write fails, a read says end of file |
| ProtocolClosing.BrokenEndsWait | xen_shm_pipe.c:350-404 | on a pipe broken by the peer, drained or full, a wait comes back within thirty own steps: from anywhere if the peer closed, from any sleep if it was killed; a write fails, and a read returns 0 exactly when the writer closed, unless its round is past the snapshot and goes to the probe |
| ProtocolTheorems.ClosedIsFinal | xen_shm_pipe.c:279-292 | after CLOSED is set nothing more goes in, under any schedule |
| ProtocolTheorems.EndOfFileIsExact | xen_shm_pipe.c:351-364 | end of file means the writer has closed, every byte it ever accepted is delivered, and there will be no more |
| ProtocolTheorems.ClosedAndDrainedReadsEndOfFile | xen_shm_pipe.c:351-364 | and once that is so, a read says so by its sixth own step, under any schedule that does not kill the reader |
| ProtocolTheorems.EarlierEpipeIsExact | xen_shm_pipe.c:374-399 | saw_epipe makes an error only if the writer was killed without closing and everything it published is delivered |
| ProtocolTheorems.ProbeEpipeMeansBroken | xen_shm_pipe.c:366-370 | an EPIPE of the probe means a broken pipe |
| ProtocolProbe.ProbeErrorExactly | xen_shm_pipe.c:366-370 | after the probe's error the next read on its own returns bytes, end of file or failure exactly when there are bytes, the writer had closed with none left, or neither |
| ProtocolProbe.NextReadExactly | xen_shm_pipe.c:350-404 | and so does any read on a broken pipe after any return |
| ProtocolProbe.ProbeReportsGracefulCloseAsError | xen_shm_pipe.c:366-370 | for every ring, schedules from the start in which the probe fails after a graceful close, with nothing or with a byte left to read |
| ProtocolTheorems.StreamIntact | xen_shm_pipe.c:500-798 | first in, first out, for the two ends as a whole |
| ProtocolTheorems.LoopCountStaysInRange | xen_shm_pipe.c:366-370 | the unsigned loop counter does not wrap around |
| Await.StepInv | xen_shm.c:902-955 | the counter is 1 minus the holders minus the refused callers that have not backed out, and at most one caller holds, in every step |
| Await.HandshakeStep | xen_shm.c:232-252 | no initial signal is lost |
| AwaitTheorems.AtMostOneHolds | xen_shm.c:902-955 | among all callers in both domains at most one is past the gate |
| AwaitTheorems.CounterRestored | xen_shm.c:902-955 | the counter is 1 exactly when no caller is inside, so every way out restores it |
| AwaitTheorems.GateRefusesExactly | xen_shm.c:906-909 | EDEADLK exactly when some caller holds or has not yet backed out |
| AwaitTheorems.RefusedThoughNobodyHolds | xen_shm.h:103 | a schedule in which it comes back though nobody waits |
| AwaitTheorems.LatentExactly | xen_shm.c:938-940 | the latent bit is set by the handler after the initial signal, cleared by a caller with a signal flag, and changed by nothing else |
| AwaitTheorems.WakeUpKept | xen_shm.c:915-922 | a delivered signal keeps the wake-up condition of the only taker true through any steps of others |
| AwaitCauses.ReportHasCause | xen_shm.c:913-945 | a call that reports a signal found one it asked for: a delivery on its own end after it armed and before its look, a latent signal, or the initial signal; for any request and schedule |
| AwaitCauses.WaitEndsExactly | xen_shm.c:915-945 | on a pipe that stays whole an untimed, uninterrupted call leaves its wait if and only if it has found what it asked for, and then reports it |
| AwaitCauses.SignalEndsWait | xen_shm.c:915-945 | what has come and cannot be taken by others ends the wait within four own steps, with a report, or EPIPE on a broken pipe |
| AwaitCauses.RefusedExactly | xen_shm.c:897-904 | ENOTTY comes back only if the instance was not up when the call began, and nothing else if it is not up at the end; EPIPE if the pipe was broken then, and only if it is at the end |
| AwaitTimeout.TakenReportedExactly | xen_shm.c:925-945 | a taken latent signal is reported, as a return of 0 with time remaining, exactly when the time had not run out and the second look finds the pipe whole |
| AwaitTimeout.LossExactly | xen_shm.c:925-940 | a waiting call is safe from losing a signal, under every schedule, exactly when it has no timeout |
| AwaitTimeout.SignalLostAtTimeout | xen_shm.c:925-940 | a schedule from the start in which a delivered signal is cleared and not reported |
| AwaitTheorems.UserSignalKept | xen_shm.h:119-120 | under the mutex a user signal that came is still there when its holder looks, unless a caller without the mutex was about to arm |
| AwaitTheorems.UserExactly | xen_shm.c:909-913 | the user bit is set by the handler after the initial signal, cleared by a caller that arms, and changed by nothing else |
| AwaitTheorems.UserKeptExactly | xen_shm.c:913 | along a schedule the user bit stays set all the way exactly when no caller on that end arms |
| AwaitTheorems.UserSignalKeptExactly | xen_shm.h:119-120 | where new calls use the mutex, every schedule of the others keeps a user signal for its holder exactly when the pipe is broken or no other caller there is in a call without the mutex that has not armed |
| AwaitTheorems.UserSignalSafeExactly | xen_shm.c:913 | where calls are free, every schedule of the others keeps it exactly when the pipe is broken or the waiter is the only caller on its end |
| AwaitTheorems.UserSignalStolen | xen_shm.c:913 | a schedule from the start in which a second caller's arming takes the signal away from the waiter |
| AwaitTheorems.HandshakeCompletes | xen_shm.c:239-243 | once the receiver is up and no event is in flight both ends have had their initial signal |
| AwaitRefinement.SleepRefined | xen_shm_pipe.c:303-308 | under any schedule of other callers, the peer, the handlers and closing, the pipe's sleeping await is at every moment where the protocol's machine is, with the same latent bit, event and broken pipe |
| AwaitRefinement.HandlerRefined | xen_shm.c:232-252 | the handler on the sleeper's end is the machine's delivery, and on the other end nothing to it |
| AwaitRefinement.MovesAreEffects | xen_shm.c:962-976 | the signal ioctl and the release of the other end are the machine's effects on this one |
| AwaitRefinement.OnlyBrokenSeen | xen_shm.c:878-956 | asleep, an end of the machine depends on nothing it can see but the broken pipe, as the ioctl does |
| AwaitRefinement.ProbeIsExact | xen_shm_pipe.c:312-327 | under any schedule the probe ends within six steps of its own, with EPIPE if the pipe was broken when it began and only if it is broken at its end, and takes no signal |
| Handles.SweptAreFirstLive | xen_shm.c:381-406 | one unmap call releases the first nb live handles from the offset on, or all there are |
| Handles.SweepClears | xen_shm.c:381-406 | it marks those dead and touches no other |
| Handles.SweptRangeExactly | xen_shm.c:381-406 | these are the live handles of the nb pages if and only if all of those are live or none behind is |
| Handles.SweptPartExactly | xen_shm.c:381-406 | when m pages should go and the call is for nb of them, it releases the live ones of the m if and only if nb of them are live, or fewer are and none behind is |
| Handles.UnmappedAtMostOnce | xen_shm.c:595-645 | over any mix of calls a handle is unmapped once if it was live and no longer is, never otherwise |
| Handles.AllSwept | xen_shm.c:517-521 | a retried free unmaps nothing |
| Ledger.GrantsCount | xen_shm.c:499-504 | pages_count is the number of grants still out |
| Ledger.AllocationOrder | xen_shm.c:418-434 | 2^(order-1) <= pages < 2^order |
| Ledger.OrderMinimalExactly | xen_shm.c:432-434 | the order is the least that is enough if and only if the number of pages is no power of two; otherwise it allocates twice the pages |
| KernelInstance.Instance.InitOfferer | xen_shm.c:667-755 | succeeds exactly in OPENED, for 1 to 127 pages, when neither memory nor channel is denied, with 2^(order-1) <= pages < 2^order allocated, and then is consistent exactly when no grant was denied; on failure the error says what was denied, and exactly the grants whose revocation was refused stay |
| KernelInstance.Instance.InitReceiver | xen_shm.c:761-862 | succeeds exactly in OPENED, for the offerer's number of pages, when nothing asked for is denied, and then holds what a receiver does; on failure the error says what was denied, and only a header mapping whose unmapping was refused stays |
| KernelInstance.Instance.Unmap | xen_shm.c:381-406 | the loop is the walk of Handles, and lets go of each mapping it asks for once |
| KernelInstance.Instance.InvalidateRange | xen_shm.c:595-617 | the clipped range goes to the walk; nothing else changes |
| KernelInstance.Instance.ReleaseSpace | xen_shm.c:631-645 | every page still mapped is unmapped |
| KernelInstance.InvalidationExactly | xen_shm.c:595-617 | invalidating any range unmaps exactly the live pages that meet it if and only if as many of them are live as it asks for, or fewer are and none behind is |
| KernelInstance.InvalidationGoesBehind | xen_shm.c:381-406 | the first of two pages, invalidated twice, takes the second with it |
| KernelInstance.WholeInvalidationExactly | xen_shm.c:595-617 | for whole pages that is: each is live, or none behind is |
| KernelInstance.RangeAskedExactly | xen_shm.c:610-616 | a range asks for all pages it meets if and only if its part inside the mapping begins and ends where pages do |
| KernelInstance.PageAskedExactly | xen_shm.c:620-627 | the callback for one page asks for the page of its address if and only if a whole page fits behind the address, and for no other |
| KernelInstance.PageWholeExactly | xen_shm.c:620-627 | it asks for all pages that the 4096 bytes from the address meet if and only if the address is a page's first |
| KernelInstance.Instance.UndoMap | xen_shm.c:1299-1310 | the rollback of mmap unmaps exactly the pages that had been mapped |
| KernelInstance.Instance.Mmap | xen_shm.c:1183-1315 | succeeds exactly for a shared mapping of the right size, in the right state, when nothing is denied; a receiver is then mapped with every page, and otherwise as it was but for refused unmappings; each refusal has its own error |
| KernelInstance.Instance.FreeOfferer | xen_shm.c:499-516 | ends the grants from the last down and stops at the first refusal; the pages are freed only when no grant is left |
| KernelInstance.Instance.FreeInAttempts | xen_shm.c:499-516 | over any number of attempts each grant is ended once, in that order |
| KernelInstance.Instance.PrepareFree | xen_shm.c:485-552 | fails exactly for one refusal; on success nothing is held but what some call refused to take back and, under ptemod, exactly the data pages still mapped then; on failure the instance is consistent and can be tried again |
| KernelInstance.Drive | xen_shm.c:1183-1385 | any sequence of operations, failing anywhere: what is held is what the state calls for until the free that succeeds, and after it nothing but what some call refused to take back and, under ptemod, exactly the data pages whose handles were still live at the free; up to a denied grant |
| DelayedQueue.Driver.FreeDelayedQueue | xen_shm.c:556-583 | on any acyclic list the sweep ends, tries each instance once, unlinks exactly those whose free succeeded, and keeps the others, each for one refusal, in order |
| DelayedQueue.WithoutIn | xen_shm.c:563-581 | what is left of a list are its instances that did not go |
| DelayedQueue.Driver.AddDelayedFree | xen_shm.c:472-478 | the head of the queue stays as it was, and the instance is not in the queue |
| DelayedQueue.Driver.Release | xen_shm.c:1325-1385 | the queue is swept; the closed instance says so to its peer and is freed, with nothing left but as for Drive, or for one refusal stays consistent and is in no queue |

## Left out

- Weak memory orders, compiler reordering, time and scheduling; liveness appears as safety, or as a bound on an end's own steps.
- DataPath.Shared.ReadAvail: what its looks at the peer's SLEEPING bit see is left free; `Protocol` ties them to the bit.
- DataPath.Shared.WriteAvail: the same.
- DataPath.Shared.Read: how often its wait goes round, and what ends it with an error, is left free; `Protocol` has the whole wait, and
  FailedCallHadNothing, SleepFailsOnlyFor, WorkIsDone, EndOfFileIsExact, ClosedAndDrainedReadsEndOfFile and TransferCounts prove there what
  is used of it here.
- DataPath.Shared.Write: the same.
- ProtocolSignals.FlushGuarantee: starts after both initial signals; before that the handler takes the first event for the initial signal, whatever sent it (xen_shm.c:239-243).
- KernelInstance.Instance.InitOfferer: what ending a grant does with a reference that is none is taken to be nothing, and only in the rollback.
- KernelInstance.Instance.InvalidateRange: the callbacks run to their end; that they may run while another call is under way is not modelled.
- KernelInstance.Drive: says nothing of an instance after a denied grant, whose free would hand the hypervisor a reference that is none.
- DelayedQueue.Driver.Release: the order of freeing the instance and unregistering its notifier (xen_shm.c:1378-1382) is not modelled.
- AwaitTheorems.WakeUpKept: the wait's condition is read in one step.
- AwaitRefinement.SleepRefined: starts after both initial signals, and other calls on the sleeper's end take no signals, as the pipe's do.
- Calls on an end that was freed, other than a read or write (xen_shm_pipe.c:822-824, 863-866), and pipes not yet set up.
- What flush returns, and errors of its signal.
- ProtocolClosing.BrokenEndsWait: a wait that is awake when its peer is killed without closing may spin up to the probe first, if the dead end's ACTIVE
  or WAITING bit is set; NextReadExactly has its end, without the bound.
- The OPENED flag bit, the statistics counters, errno, and overflow of ssize_t.
- The ENOTTY and EPIPE checks of the signal ioctl are one step with the signal.
- Balloon pages, kernel map operations, page tables and `remap_pfn_range` beyond success and failure; the registration of the notifier.
- A map hypercall that fails as a whole is taken to have mapped nothing.
- `server_lib.c`, `client_lib.c`, `handler_lib.c`, the tests, the ioctl dispatch and module loading: session plumbing and set-up.
