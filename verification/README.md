# Dafny models of the BSD half of a Mach kernel

This project models the state machines, pointer structures and arithmetic at the
centre of `mk-108.1/bsd` and the integer printing and scanning of `streams-21`,
and proves what they promise over all inputs and all interleavings.

The kernel is a uniprocessor that gives up the processor only inside `sleep()`,
so a protocol is a machine whose steps are the code between two sleeps: a
`State`, an `Action`, a `Step`, a `Run` over any list of actions, an invariant
kept by every step, and a theorem about every run. Beside each machine stands
the code itself, as methods with loops or as a class changed in place, proved to
compute those steps. Data structures are proved against a plain value (a list of
deadlines, a sequence of bytes, a list of records, lists of children, a disk).

| file | subject |
|---|---|
| `FileLock.dfy` | BSD advisory locks on a vnode: counts, bits, waiters |
| `Select.dfy` | `select` against `selwakeup`: SSEL, collisions, marks on socket buffers |
| `UnixGc.dfy` | the mark phase of the Unix-domain descriptor collector |
| `StreamPair.dfy`, `StreamMemory.dfy` | back-pressure between the ends of a Unix stream, and the memory it can be charged |
| `BufferCache.dfy`, `BufferOps.dfy` | the block buffer cache over a disk |
| `Callout.dfy`, `CalloutTable.dfy` | the callout delta list and its table of slots |
| `Clist.dfy` | terminal character queues over shared blocks |
| `SocketBuffer.dfy` | socket buffers as chains of chains of mbufs |
| `ProcessTree.dfy`, `ProcessLists.dfy`, `ProcessTable.dfy` | the process tree, lists and pid hash |
| `Lookup.dfy`, `LookupLaws.dfy` | pathname translation with links, mounts and virtual mounts, and what it finds |
| `Timer.dfy` | interval timers and the slewing of the clock |
| `NumberFormat.dfy`, `NumberMeaning.dfy` | integer printing and scanning, and what the text says |
| `Accounting.dfy` | the accounting pseudo-float |

Some promises turn out to be false of the code in general. Each is refuted by a
concrete input or run and given the exact condition under which it holds:

- an allocation in the buffer cache that sleeps after the search for overlaps can
  leave a fragment mapped twice (`SleepingAllocationDoubles`); a run is safe if and only
  if every growth finds the search still right (`SleepingRunSafeIff`);
- a message with descriptors sent over a Unix stream can vanish although the send
  succeeds. It does so exactly when its rights mbuf is empty (`OneByteIsLost`), no mbuf
  can be had to copy it, or the receiver is charged beyond its memory limit, which the
  sixteen-bit `sb_mbmax` hides by wrapping (`RightsCanBeLost`, `RefusedIff`);
- an interval timer that expires in a clock step late by its whole interval or more never
  fires again (`LateInterruptEndsTimer`, `FiresAgainIff`, `SafeStepIff`);
- a tick shorter than the skew of a pending backward correction takes the microseconds of
  the clock below zero (`ShortTickSpoilsClock`); the clock stays a proper time if and only
  if each skewed tick keeps them between zero and two seconds (`StaysNormalIff`). The sum
  of clock and correction is right all the same;
- a hexadecimal number printed with `#` is read back as zero (`MarkedHexReadsZero`);
- the null stored after the text of a symbolic link falls outside its buffer exactly when
  the text fills it (`StoreNull`). A lookup through such a link succeeds if and only if it
  is a metalink with a translation that is short enough (`FullLinkWorksIff`), and there are
  such links (`FullMetalinkWorks`).

## Model

| member | source | states |
|---|---|---|
| `FileLock.AttemptMeaning` | mk-108.1/bsd/vfs_io.c:365-410 | An attempt is granted exactly when no other file holds a lock that excludes it; otherwise the file has lost its own locks in the way and nobody has gained one; counts, bits and holders agree afterwards |
| `FileLock.UnlockKeeps` | mk-108.1/bsd/vfs_io.c:421-453 | Unlocking reaches neither panic, keeps counts, bits and holders in agreement and removes just the file's own locks of the kinds asked for |
| `FileLock.UnlockWakes` | mk-108.1/bsd/vfs_io.c:432-452 | A channel whose lock becomes free is woken if VLWAIT was up, and VLWAIT comes down only with the exclusive lock |
| `FileLock.StepKeeps` | mk-108.1/bsd/vfs_io.c:334-453 | Every lock, unlock, open, dup, last close, wakeup and interruption keeps: counts equal holders, bits mirror counts, one exclusive holder or any shared ones, no panic, every sleeper waits for a held lock with VLWAIT up |
| `FileLock.CloseCounts` | mk-108.1/bsd/vfs_io.c:232-250 | Closing keeps f_count equal to the number of descriptors; a close that is not the last leaves locks and sleepers alone, and the last drops all the locks the file holds |
| `FileLock.EveryRunIsSafe` | mk-108.1/bsd/vfs_io.c:334-453 | The invariant holds after any interleaving of any number of processes and shared files |
| `FileLock.SleeperStaysOrWakes` | mk-108.1/bsd/vfs_io.c:370-396 | A step leaves a sleeper asleep or wakes it; only its own signal takes it away |
| `FileLock.ReleaseWakesAll` | mk-108.1/bsd/vfs_io.c:432-452 | In every reachable state the step that frees a lock wakes every process asleep on its channel |
| `FileLock.FlockTakes` | mk-108.1/bsd/vfs_io.c:345-403 | In every reachable state flock, or a woken process trying again: if no other file holds an excluding lock the file has the lock asked for and none of the other kind, and the process is out; otherwise the file has given up its own locks in the way and the process has failed or sleeps on the channel of another file's lock; other processes are at most woken |
| `FileLock.FunlockDrops` | mk-108.1/bsd/vfs_io.c:421-453 | Unlocking leaves the file without locks and every other file with its own |
| `FileLock.CloseDrops` | mk-108.1/bsd/vfs_io.c:232-250 | A close takes the descriptor away, and the locks exactly when no other descriptor of the file is left |
| `FileLock.Vnode.BsdUnlock` | mk-108.1/bsd/vfs_io.c:421-453 | The code in place computes the unlock and its wakeups, with both panic conditions refuted |
| `FileLock.Vnode.DropOwn` | mk-108.1/bsd/vfs_io.c:365-396 | The two waiting loops with their `goto again` end, having dropped the file's own conflicting locks and found what to wait for |
| `FileLock.Vnode.BsdLock` | mk-108.1/bsd/vfs_io.c:335-410 | The code from `again` to its return or sleep has the outcome, lock words and sleepers of one attempt |
| `FileLock.Vnode.FlockFile` | mk-108.1/bsd/vfs_io.c:335-410 | The whole call until it returns or sleeps computes the step of the machine, and is granted exactly when no other file excludes it |
| `Select.StepKeeps` | mk-108.1/bsd/sys_generic.c:364-401 | Every step of a scan, sleep, timeout, arrival or collision keeps each sleeper reachable by the wakeup of every buffer it asked about, and the scanner either so reachable or bound to retry |
| `Select.NoWakeupIsLost` | mk-108.1/bsd/uipc_socket2.c:264-298 | In every reachable state no thread is asleep while a buffer it asked about is ready, it is that buffer's sb_sel or SB_COLL is set with sb_sel non-null, and the next arrival takes it off its wait |
| `Select.ReadyMeansRetry` | mk-108.1/bsd/sys_generic.c:379-384 | A buffer that became ready after the scan passed it keeps the thread from sleeping: SSEL or nselcoll sends it round again |
| `Select.FinishMeans` | mk-108.1/bsd/sys_generic.c:370-396 | In every reachable state: a scan that found something or whose time is up ends with the thread neither asleep nor scanning; otherwise it begins again exactly when SSEL is gone or a collision was counted, and else sleeps |
| `Select.WakeupMeans` | mk-108.1/bsd/sys_generic.c:486-507 | selwakeup takes exactly the thread named off its wait, or everybody after a collision, which it counts |
| `Select.ArriveMeans` | mk-108.1/bsd/uipc_socket2.c:288-296 | Data that arrives is there, exactly the threads that the mark stands for leave their wait, and the mark is gone |
| `Select.NotifyMeans` | mk-108.1/bsd/uipc_socket2.c:288-296 | A wakeup with nothing new does the same to threads and marks |
| `Select.OverlappingScansLoseOne` | mk-108.1/bsd/uipc_socket2.c:264-272 | Without the rule that only interrupts come between scan and sleep a second scan overwrites the mark and the first thread sleeps through the arrival |
| `Select.QueueKeeps` | mk-108.1/bsd/uipc_socket2.c:264-272 | Marking a buffer takes no mark away from a sleeping thread |
| `Select.WakeupEmpties` | mk-108.1/bsd/sys_generic.c:486-507 | A wakeup takes off its wait every thread the buffer's mark or collision bit stands for |
| `Select.Kernel.WakeSelector` | mk-108.1/bsd/sys_generic.c:486-507 | selwakeup: a collision counts and wakes all; the marked thread is taken off its wait and its process loses SSEL |
| `Select.Kernel.QueueSelector` | mk-108.1/bsd/uipc_socket2.c:264-272 | sbselqueue: collision if the marked thread still waits on selwait, otherwise a new mark |
| `Select.Kernel.WakeBuffer` | mk-108.1/bsd/uipc_socket2.c:288-296 | sbwakeup: wake whom the mark stands for and clear it |
| `Select.Kernel.CheckOne` | mk-108.1/bsd/sys_socket.c:116-150 | One descriptor bit: there as asked, for reading or writing or an exceptional condition, or its buffer is marked |
| `Select.Kernel.ScanAll` | mk-108.1/bsd/sys_generic.c:427-474 | The scan is the run made of the interrupts of each moment and one look per descriptor; each bit says whether its buffer was ready in the state of that run in which it was looked at, and a count is returned exactly when some bit is set |
| `Select.Kernel.DoSelect` | mk-108.1/bsd/sys_generic.c:364-401 | Every round before the last saw nothing ready; the bits are what the last round saw in the states in which it looked; select ends with a ready descriptor, or asleep with every buffer it asked about unready and marked so that its next wakeup reaches the thread |
| `Select.Kernel.SleepOrRetry` | mk-108.1/bsd/sys_generic.c:380-396 | With nothing found the thread sleeps exactly when SSEL is still set and no collision was counted since the scan began, and otherwise scans again |
| `Select.LooksAtIsReached` | mk-108.1/bsd/sys_generic.c:364-401 | Every state in which a select looks at a descriptor is a state of the run it is part of, the one given by all that happened before it |
| `UnixGc.MarksAreReachable` | mk-108.1/bsd/uipc_usrreq.c:611-645 | When the loop ends FMARK is on exactly the files reachable, through the rights that unp_scan sees, from files referenced outside messages, and each is live |
| `UnixGc.MarksAreHeldReachable` | mk-108.1/bsd/uipc_usrreq.c:611-689 | With at most one rights mbuf in every queued record, FMARK ends on exactly the files reachable through all the rights that are queued |
| `UnixGc.StopsIffAllLive` | mk-108.1/bsd/uipc_usrreq.c:617-645 | The loop stops if and only if every reachable file has a nonzero f_count |
| `UnixGc.CountedTableIsLive` | mk-108.1/bsd/uipc_usrreq.c:621-632 | With f_count at least f_msgcount, and f_msgcount positive for a file in a message, that condition holds and the roots are the files with f_count above f_msgcount |
| `UnixGc.PassProgress` | mk-108.1/bsd/uipc_usrreq.c:617-645 | Each pass marks a new file or leaves none deferred |
| `UnixGc.FirstRightsAreAll` | mk-108.1/bsd/uipc_usrreq.c:669-689 | Stopping at the first rights mbuf of a record misses nothing if a record has one |
| `UnixGc.SecondRightsMissed` | mk-108.1/bsd/uipc_usrreq.c:669-689 | With two, the files of the second are not seen |
| `UnixGc.Collector.UnpMark` | mk-108.1/bsd/uipc_usrreq.c:691-699 | unp_mark marks and defers a file not yet marked, with unp_defer the number deferred |
| `UnixGc.Collector.UnpScan` | mk-108.1/bsd/uipc_usrreq.c:669-689 | The nested walk marks exactly the files of the first rights mbuf of every record |
| `UnixGc.Collector.VisitFile` | mk-108.1/bsd/uipc_usrreq.c:618-641 | One turn of the inner loop, unp_defer staying the number of FDEFER files |
| `UnixGc.Collector.RunPass` | mk-108.1/bsd/uipc_usrreq.c:617-644 | One pass over the file list, abandoned at a locked receive buffer |
| `UnixGc.Collector.MarkPhase` | mk-108.1/bsd/uipc_usrreq.c:611-645 | The phase ends, with nothing deferred and exactly the reachable files marked, unless a locked buffer sends it back |
| `UnixGc.Collector.Gc` | mk-108.1/bsd/uipc_usrreq.c:603-645 | With restarts, it ends in the first table where it meets no locked buffer, with the marks of that table |
| `StreamPair.EveryRunBalances` | mk-108.1/bsd/uipc_usrreq.c:143-236 | Over every interleaving of partial sends and receives sb_hiwat plus unp_cc is 4096, at most 4096 bytes are queued, what is received is a prefix of what reached the buffer, and unless a message was dropped that is all that the sends were given |
| `StreamPair.StepKeepsBalance` | mk-108.1/bsd/uipc_usrreq.c:208-236 | Every step keeps the limits and the peer's copies in balance, sb_mbmax in sixteen bits, the buffer's counters right, and a send in progress fitting |
| `StreamPair.CompletedIsExact` | mk-108.1/bsd/uipc_usrreq.c:223-231 | After each completed send or receive, a dropped message included, unp_cc and unp_mbcnt are the receiver's counts and the sender's limit is what is left of 4096 |
| `StreamPair.MeasureMeans` | mk-108.1/bsd/uipc_socket.c:342-364 | The space a send measures is the lesser of what is left of 4096 bytes and of 8192 bytes of memory in sixteen bits |
| `StreamPair.DeliverMeans` | mk-108.1/bsd/uipc_socket2.c:441-565 | Record by record: rights begin a new record with their data, a refused message changes nothing, plain data goes to the end of the last record |
| `StreamPair.MessageIs` | mk-108.1/bsd/uipc_socket.c:366-389 | A message is the rights followed by as much of the user's data as the space allows, each with its type |
| `StreamPair.RefusedIff` | mk-108.1/bsd/uipc_socket2.c:540-565 | A message is dropped silently exactly when it comes with a rights mbuf that is empty, or cannot be copied, or does not fit the receiver's memory; its bytes always fit, and its memory does unless the space was measured while the receiver was overcharged |
| `StreamPair.RightsArrive` | mk-108.1/bsd/uipc_socket2.c:540-565 | Rights that are not empty arrive, with their data, if mbufs can be had and no space was measured while the receiver was overcharged |
| `StreamPair.EmptyRightsLoseAll` | mk-108.1/bsd/uipc_mbuf.c:262-272 | Whatever is sent with an empty rights mbuf is lost whole in every reachable state, and the buffer stays as it was |
| `StreamPair.OneByteIsLost` | mk-108.1/bsd/uipc_socket2.c:552-556 | A run on a fresh pair: one byte sent with an empty rights mbuf is gone, with mbufs to be had and nothing overcharged |
| `StreamPair.RightsCanBeLost` | mk-108.1/bsd/uipc_usrreq.c:208-236 | A run on a fresh pair, with the mbufs that the space loop and sbcompress make of its writes, after which four bytes of rights are dropped by the memory limit |
| `StreamMemory.CountsFitTheirFields` | mk-108.1/sys/socketvar.h:76-81 | Over every run sb_cc is at most 4096 and sb_mbcnt at most 27648, although sb_mbmax wraps, so the sixteen-bit fields hold the counts exactly |
| `StreamMemory.EveryRunIsThrifty` | mk-108.1/bsd/uipc_socket2.c:574-607 | Over every run no two neighbouring mbufs of a record could be merged, every cluster not yet read from holds 512 bytes or more, and there are at most 64 records |
| `StreamMemory.PackedIsCheap` | mk-108.1/bsd/uipc_socket2.c:574-607 | Such a chain is charged at most two and a half times its bytes plus one mbuf |
| `StreamMemory.AppendRecordKeeps` | mk-108.1/bsd/uipc_socket2.c:540-565 | A record of rights is begun only while memory is below its limit, so only while there are fewer than 64 |
| `StreamPair.FillChain` | mk-108.1/bsd/uipc_socket.c:366-389 | The loop builds the chain whose bytes are exactly as much of the user's data as the space allows, and leaves the rest |
| `StreamPair.FillCarries` | mk-108.1/bsd/uipc_socket.c:366-389 | Whether or not clusters can be had, the chain carries exactly the smaller of the user's data and the space |
| `StreamPair.FillNotEmpty` | mk-108.1/bsd/uipc_socket.c:366-389 | Only an empty write makes an empty mbuf |
| `StreamPair.Pair.MeasureSpace` | mk-108.1/bsd/uipc_socket.c:342-364 | The space a send finds; the invariant of all runs is kept |
| `StreamPair.Pair.AppendRights` | mk-108.1/bsd/uipc_socket2.c:540-565 | A new record with the rights and the data exactly when they fit, the rights are not empty and can be copied; otherwise nothing |
| `StreamPair.Pair.PruSend` | mk-108.1/bsd/uipc_usrreq.c:208-236 | Delivery to the peer, or its silent failure, and the lowering of the limits; the invariant of all runs is kept and the user keeps exactly what did not go |
| `StreamPair.Pair.TakePiece` | mk-108.1/bsd/uipc_socket.c:545-580 | The piece and what stays queued are together what was queued; the invariant of all runs is kept |
| `StreamPair.Pair.PruRcvd` | mk-108.1/bsd/uipc_usrreq.c:143-157 | The limits go up by what has been read and the copies are exact again; the invariant of all runs is kept |
| `BufferCache.StepKeeps` | mk-108.1/bsd/vfs_bio.c:318-684 | Every action keeps: no fragment mapped by two valid buffers, done or dirty buffers hold what was last written, and a fragment that differs on the disk is covered by a dirty buffer |
| `BufferCache.EveryRunIsSafe` | mk-108.1/bsd/vfs_bio.c:318-684 | The invariant over every run of reads, sync, async and delayed writes, reuse, flushes, growth and shrinking by any processes |
| `BufferCache.ReadsAreCurrent` | mk-108.1/bsd/vfs_bio.c:64-89 | In every reachable state a valid buffer marked done holds, in each of its fragments, what the latest write or delayed write in the list of actions put there, and no other valid buffer maps them |
| `BufferCache.LastIsWritten` | mk-108.1/bsd/vfs_bio.c:318-374 | Over every run, what counts as last written to a fragment is the datum of the latest bwrite, bawrite or bdwrite whose buffer stood for it, or else the initial disk |
| `BufferCache.WriteMeans` | mk-108.1/bsd/vfs_bio.c:318-384 | bdwrite leaves the data in the buffer, done, delayed and free; bwrite and bawrite leave it on its way to the disk |
| `BufferCache.StartMeans` | mk-108.1/bsd/vfs_bio.c:318-342 | Starting a read or the write of a delayed buffer leaves its data and gives it to the device if asynchronous |
| `BufferCache.CompleteMeans` | mk-108.1/bsd/vfs_bio.c:731-749 | After a transfer the buffer is done and agrees with the disk, which only a write has changed |
| `BufferCache.OnlyItsBuffer` | mk-108.1/bsd/vfs_bio.c:318-684 | An action changes no other buffer, and disk and written data only in the range of its own |
| `BufferCache.DirtyIsKept` | mk-108.1/bsd/vfs_bio.c:565-610 | A dirty buffer is never reused, shrunk, grown or invalidated: after any action it is the same block, still dirty with the same data unless rewritten by its holder, until its write completes |
| `BufferCache.FlushedMeansOnDisk` | mk-108.1/bsd/vfs_bio.c:799-830 | When nothing is dirty the disk holds what the latest write in the list of actions put in every fragment |
| `BufferCache.CompletionReachesDisk` | mk-108.1/bsd/vfs_bio.c:731-749 | A completed write has put on the disk what was last written |
| `BufferCache.ChainSuffices` | mk-108.1/bsd/vfs_bio.c:622-632 | Searching the hash chain of the block is enough: blocks within one aligned group that overlap hash alike |
| `BufferCache.GrowSafeIff` | mk-108.1/bsd/vfs_bio.c:620-648 | If the allocation sleeps after the search, the growth is safe if and only if the search would still find nothing |
| `BufferCache.StepSafeIff` | mk-108.1/bsd/vfs_bio.c:565-648 | With allocations that sleep, an action keeps the invariant if and only if any growth of a valid buffer in it finds the search still right |
| `BufferCache.SleepingRunSafeIff` | mk-108.1/bsd/vfs_bio.c:565-648 | Over every run with such sleeps the invariant holds throughout if and only if every growth did |
| `BufferCache.SleepingAllocationDoubles` | mk-108.1/bsd/vfs_bio.c:620-648 | A concrete run with such a sleep after which two valid buffers map one fragment |
| `BufferOps.Cache.Sleep` | mk-108.1/bsd/vfs_bio.c:506-511 | Whatever other processes and the device do, the sleeper's own buffers keep their identity and data |
| `BufferOps.Cache.Biowait` | mk-108.1/bsd/vfs_bio.c:712-723 | Waits until the transfer has completed |
| `BufferOps.Cache.Bwrite` | mk-108.1/bsd/vfs_bio.c:318-342 | A synchronous write ends with the data released, done, on the disk and equal to what was last written |
| `BufferOps.Cache.Bdwrite` | mk-108.1/bsd/vfs_bio.c:352-374 | The data is what was last written and waits, done and delayed, in a buffer free for anybody; nothing else changes |
| `BufferOps.Cache.Bawrite` | mk-108.1/bsd/vfs_bio.c:379-385 | The data is what was last written and is on its way to the disk; nothing else changes |
| `BufferOps.Cache.FlushAndWait` | mk-108.1/bsd/vfs_bio.c:318-342 | The write of a delayed-write buffer leaves the caller's other buffers alone |
| `BufferOps.Cache.GetNewBuf` | mk-108.1/bsd/vfs_bio.c:656-685 | A free clean buffer, whatever the order of the free lists; delayed writes are started, never dropped |
| `BufferOps.Cache.DispatchOverlaps` | mk-108.1/bsd/vfs_bio.c:620-647 | The search waits for, writes or invalidates overlapping buffers and ends with none, not touching the buffer being grown |
| `BufferOps.Cache.Brealloc` | mk-108.1/bsd/vfs_bio.c:565-648 | The buffer gets the size asked for with its identity kept, or is given up after its delayed write was done |
| `BufferOps.Cache.InCore` | mk-108.1/bsd/vfs_bio.c:500-505 | A valid buffer for the block, or none exists |
| `BufferOps.Cache.Getblk` | mk-108.1/bsd/vfs_bio.c:481-532 | A valid buffer for exactly that block and size, held by the caller |
| `BufferOps.Cache.Bread` | mk-108.1/bsd/vfs_bio.c:64-89 | The buffer returned holds the data last written to the block |
| `BufferOps.Cache.Bflush` | mk-108.1/bsd/vfs_bio.c:799-830 | Ends with no free delayed-write buffer of the vnode left unstarted |
| `CalloutDeltas.TickLowersAll` | mk-108.1/bsd/kern_clock.c:339-347 | One tick lowers every entry's remaining time by exactly 1, overdue prefixes and zero deltas included |
| `CalloutDeltas.InsertAddsOne` | mk-108.1/bsd/kern_clock.c:512-527 | Insertion adds one entry with that time left before the first entry due no earlier and changes no other |
| `CalloutDeltas.RemoveDropsOne` | mk-108.1/bsd/kern_clock.c:550-558 | Removal drops one entry and changes no other remaining time |
| `CalloutDeltas.PopDueHead` | mk-108.1/bsd/kern_clock.c:463-474 | Popping a due head changes no other remaining time |
| `CalloutRuns.StepRefines` | mk-108.1/bsd/kern_clock.c:447-558 | Every step of the delta list is the same step of a plain list of calls with absolute deadlines |
| `CalloutRuns.RunRefines` | mk-108.1/bsd/kern_clock.c:447-558 | Unless the table overflows, every run of the kernel is the plain list's run |
| `CalloutRuns.EveryStepDoes` | mk-108.1/bsd/kern_clock.c:447-558 | In every reachable state: a tick only passes; timeout adds one call due that many ticks from now, at least one, before the first due no earlier; untimeout takes away the first such call if there is one; softclock makes the first call if it is due |
| `CalloutRuns.EveryRunFiresInOrder` | mk-108.1/bsd/kern_clock.c:463-474 | The calls made are those of the plain list of deadlines, each at its tick with its deadline minus that tick as second argument, in non-decreasing deadline order and never early; queue and free list are a permutation of the table |
| `CalloutRuns.StepKeepsSlots` | mk-108.1/bsd/kern_clock.c:463-558 | Every step keeps queue and free list together a permutation of the table |
| `CalloutTable.TickLoop` | mk-108.1/bsd/kern_clock.c:339-347 | The loop along the links computes the tick and reports whether the head is due |
| `CalloutTable.FindPlace` | mk-108.1/bsd/kern_clock.c:519-521 | The search ends at the place and remaining delta of the insertion |
| `CalloutTable.FindCall` | mk-108.1/bsd/kern_clock.c:550-551 | The search ends at the first matching call |
| `CalloutTable.Table.Hardclock` | mk-108.1/bsd/kern_clock.c:339-347 | The table in place after a tick has every remaining time lowered by one, and reports exactly whether the head is due |
| `CalloutTable.Table.Timeout` | mk-108.1/bsd/kern_clock.c:512-527 | The first free slot is linked in at its place; false exactly when the table is full, which is the panic |
| `CalloutTable.Table.Untimeout` | mk-108.1/bsd/kern_clock.c:550-558 | The first match, if any, moves to the free list and its delta to its successor |
| `CalloutTable.Table.Softclock` | mk-108.1/bsd/kern_clock.c:463-474 | A due head moves to the free list and is handed out with its lateness |
| `Clist.Getc` | mk-108.1/bsd/tty_subr.c:30-70 | Takes the first byte of the sequence, or -1; block links and free count stay right |
| `Clist.QtoB` | mk-108.1/bsd/tty_subr.c:76-133 | Takes a prefix of the length asked for, or all there is, across block boundaries |
| `Clist.Ndflush` | mk-108.1/bsd/tty_subr.c:178-226 | Drops a prefix of the length asked for, or all there is |
| `Clist.Putc` | mk-108.1/bsd/tty_subr.c:232-266 | Appends one byte exactly when the last block or the free list has room |
| `Clist.BtoQ` | mk-108.1/bsd/tty_subr.c:272-321 | Appends the part that fits and returns how much did not |
| `Clist.Unputc` | mk-108.1/bsd/tty_subr.c:344-380 | Takes the last byte, as a signed character, freeing an emptied last block |
| `Clist.FindPrev` | mk-108.1/bsd/tty_subr.c:363-368 | The walk finds the block before the last |
| `Clist.NextcIsNext` | mk-108.1/bsd/tty_subr.c:327-338 | nextc enumerates the bytes in order across blocks and ends with null |
| `Clist.SystemStep` | mk-108.1/bsd/tty_subr.c:30-380 | An operation on one queue leaves every other queue's bytes alone and every block in exactly one queue or the free list, with cfreecount right |
| `Clist.FreedSuffices` | mk-108.1/bsd/tty_subr.c:402-405 | Taking up to four blocks' worth of bytes sets free enough blocks to hold them again |
| `Clist.TakenFits` | mk-108.1/bsd/tty_subr.c:402-405 | After such a take the free list can hold what was taken, even if it was empty before |
| `Clist.Clists.Get` | mk-108.1/bsd/tty_subr.c:30-70 | Getting from one queue of the system leaves all others and the accounting of blocks intact |
| `Clist.Clists.Take` | mk-108.1/bsd/tty_subr.c:76-133 | A take from one queue leaves all others and the accounting of blocks intact |
| `Clist.Clists.Flush` | mk-108.1/bsd/tty_subr.c:178-226 | A flush of one queue leaves all others and the accounting of blocks intact |
| `Clist.Clists.Put` | mk-108.1/bsd/tty_subr.c:232-266 | A put to one queue leaves all others and the accounting of blocks intact |
| `Clist.Clists.PutAll` | mk-108.1/bsd/tty_subr.c:272-321 | An append to one queue leaves all others and the accounting of blocks intact |
| `Clist.Clists.Unput` | mk-108.1/bsd/tty_subr.c:344-380 | Taking the last byte of one queue leaves all others and the accounting of blocks intact |
| `Clist.Clists.MoveAll` | mk-108.1/bsd/tty_subr.c:393-399 | An empty destination takes over the source's blocks |
| `Clist.Clists.Cat` | mk-108.1/bsd/tty_subr.c:386-406 | All of one queue is appended to the other and no byte is lost, although the result of b_to_q is ignored |
| `SocketBuffer.CompressAdds` | mk-108.1/bsd/uipc_socket2.c:574-607 | Merging and discarding mbufs appends exactly the bytes of the new chain, with their types |
| `SocketBuffer.DropIsDropBytes` | mk-108.1/bsd/uipc_socket2.c:629-666 | sbdrop removes bytes from the list of records and keeps later record boundaries |
| `SocketBuffer.DropBytesIsPrefix` | mk-108.1/bsd/uipc_socket2.c:629-666 | What it removes is exactly the first len bytes of all records |
| `SocketBuffer.DropBytesKeepsRecords` | mk-108.1/bsd/uipc_socket2.c:629-666 | The records left are the last ones, of which only the first may have lost a prefix |
| `SocketBuffer.TakeHeadDrops` | mk-108.1/bsd/uipc_socket.c:545-580 | Freeing or trimming the first mbuf in soreceive removes exactly the first bytes of the buffer and keeps the counters right |
| `SocketBuffer.StepRefines` | mk-108.1/bsd/uipc_socket2.c:441-685 | Every operation on the chains is the operation on a list of byte records, with sb_cc and sb_mbcnt right |
| `SocketBuffer.RunRefines` | mk-108.1/bsd/uipc_socket2.c:441-685 | Every run of appends, drops and flushes is that run on the records, and sb_cc is their total length |
| `SocketBuffer.SbCompress` | mk-108.1/bsd/uipc_socket2.c:574-607 | The loop computes the merged chain and exactly what to add to the counters |
| `SocketBuffer.SbDrop` | mk-108.1/bsd/uipc_socket2.c:629-666 | The loop removes len bytes, lowers sb_cc by len, and frees memory when it empties a buffer that holds a record |
| `SocketBuffer.Buffer.SbAppend` | mk-108.1/bsd/uipc_socket2.c:441-455 | The last record gains exactly the new bytes, with sb_cc and sb_mbcnt right |
| `SocketBuffer.Buffer.SbAppendRecord` | mk-108.1/bsd/uipc_socket2.c:462-485 | A new record with exactly the new bytes comes last, with sb_cc and sb_mbcnt right |
| `SocketBuffer.Buffer.SbDropBytes` | mk-108.1/bsd/uipc_socket2.c:629-666 | Exactly the first bytes go, with sb_cc lowered by as many |
| `SocketBuffer.Buffer.SoTake` | mk-108.1/bsd/uipc_socket.c:545-580 | The bytes copied out are the first of the buffer, and exactly they go |
| `SocketBuffer.Buffer.SbDropRecord` | mk-108.1/bsd/uipc_socket2.c:672-685 | Exactly the first record goes, with sb_cc and sb_mbcnt right |
| `SocketBuffer.Buffer.SbFlush` | mk-108.1/bsd/uipc_socket2.c:614-623 | Ends with the buffer empty, even with zero-length records, and its panic is not reached |
| `ProcessTree.KidsAreChildren` | mk-108.1/bsd/kern_fork.c:232-238 | In a well-formed tree the child list of a process is exactly the processes with that p_pptr |
| `ProcessTree.PushKeeps` | mk-108.1/bsd/kern_fork.c:232-238 | Linking a process in as youngest child keeps every child list doubly linked |
| `ProcessTree.SpliceKeeps` | mk-108.1/bsd/kern_exit.c:486-495 | Closing the gap around a process keeps every child list doubly linked and leaves the process on none |
| `ProcessTree.PreorderIsUnder` | mk-108.1/bsd/kern_proc.c:63-95 | The walk order holds only top and its descendants |
| `ProcessTree.UnderIsPreorder` | mk-108.1/bsd/kern_proc.c:63-95 | It holds all of them |
| `ProcessTree.PreorderDistinct` | mk-108.1/bsd/kern_proc.c:63-95 | It holds each of them once |
| `ProcessTree.Spgrp` | mk-108.1/bsd/kern_proc.c:63-95 | The stackless walk ends having visited exactly that order; it returns their number and clears the stop signals of those and no others |
| `ProcessLists.Unhash` | mk-108.1/bsd/kern_exit.c:209-222 | The process is found on its chain and unlinked; the panic is unreachable |
| `ProcessLists.Pfind` | mk-108.1/bsd/kern_proc.c:110-120 | A process on the chain with that pid, or none on it has that pid |
| `ProcessLists.FindDead` | mk-108.1/bsd/kern_exit.c:448-460 | The first dead child that matches, and whether any child matches |
| `ProcessTable.ForkGood` | mk-108.1/bsd/kern_fork.c:230-238 | fork keeps the tree well formed and free of cycles |
| `ProcessTable.AdoptAllGood` | mk-108.1/bsd/kern_exit.c:301-346 | The exit loop gives exactly the children of the process to init and keeps the tree well formed throughout |
| `ProcessTable.DetachGood` | mk-108.1/bsd/kern_exit.c:589-598 | Leaving the parent keeps the tree well formed |
| `ProcessTable.ExitClearsDescendants` | mk-108.1/bsd/kern_exit.c:340-345 | exit clears the pending stops of exactly the descendants of the exiting process |
| `ProcessTable.ForkKeeps` | mk-108.1/bsd/kern_fork.c:207-253 | The first half of cloneproc keeps tree, lists and hash well formed |
| `ProcessTable.LaunchKeeps` | mk-108.1/bsd/kern_fork.c:284-287 | So does its second half |
| `ProcessTable.DieKeeps` | mk-108.1/bsd/kern_exit.c:198-222 | So does the move from allproc to zombproc and out of the hash |
| `ProcessTable.BuryKeeps` | mk-108.1/bsd/kern_exit.c:301-355 | So does the loop that gives the children to init |
| `ProcessTable.ReapKeeps` | mk-108.1/bsd/kern_exit.c:479-500 | So does wait when it lays a child to rest |
| `ProcessTable.BecomeInitKeeps` | mk-108.1/bsd/kern_exit.c:583-598 | So does init_process |
| `ProcessTable.BootValid` | mk-108.1/bsd/init_main.c:268-270 | A table with the kernel process, init as its child and every other slot free is well formed |
| `ProcessTable.EveryRunIsWellFormed` | mk-108.1/bsd/kern_exit.c:198-598 | After any sequence of forks, exits, waits and init_process calls each child list is exactly the processes with that p_pptr, the three lists are disjoint, and a process is hashed exactly while it runs |
| `ProcessTable.EveryStepMeans` | mk-108.1/bsd/kern_exit.c:301-355 | In every reachable state, said of parents, child lists, process lists, pids and signals: fork makes the first free slot a child of the forking process with the pid given; exit moves it from allproc to zombproc, gives its children to init and clears the stops of exactly its descendants; wait frees the dead child's slot; init_process makes a process its own parent; nothing else changes |
| `ProcessTable.LinkChild` | mk-108.1/bsd/kern_fork.c:232-238 | Written one pointer at a time it is the insertion that keeps every child list doubly linked |
| `ProcessTable.AdoptOne` | mk-108.1/bsd/kern_exit.c:301-312 | Written one pointer at a time it is a removal from one child list and an insertion into another |
| `ProcessTable.Detach` | mk-108.1/bsd/kern_exit.c:589-596 | Written one pointer at a time it is the removal that keeps every child list doubly linked |
| `ProcessTable.PidhashEnter` | mk-108.1/bsd/kern_proc.c:123-130 | The process becomes head of the chain of its pid, and every other process stays hashed as before (with EnterKeeps) |
| `ProcessTable.EnterKeeps` | mk-108.1/bsd/kern_proc.c:123-130 | Entering keeps every chain well linked and adds exactly that process to those that can be found |
| `ProcessTable.LeaveKeeps` | mk-108.1/bsd/kern_exit.c:209-222 | Leaving keeps every chain well linked and takes exactly that process from those that can be found |
| `ProcessTable.ExitHash` | mk-108.1/bsd/kern_exit.c:209-222 | The search of exit finds the process wherever it is on its chain and unlinks it |
| `ProcessTable.OffAllKeeps` | mk-108.1/bsd/kern_exit.c:198-199 | Removal from allproc keeps the three lists well linked and disjoint |
| `ProcessTable.OntoZombKeeps` | mk-108.1/bsd/kern_exit.c:200-203 | So does insertion into zombproc |
| `ProcessTable.OffZombKeeps` | mk-108.1/bsd/kern_exit.c:482-483 | So does removal from zombproc |
| `ProcessTable.OntoFreeKeeps` | mk-108.1/bsd/kern_exit.c:484-485 | So does return to freeproc |
| `ProcessTable.OntoAllKeeps` | mk-108.1/bsd/kern_fork.c:284-287 | So does insertion into allproc |
| `ProcessTable.OffQueue` | mk-108.1/bsd/kern_exit.c:198-199 | Removal through p_prev needs no knowledge of which list the process is on (with OffAllKeeps and OffZombKeeps) |
| `ProcessTable.PushZomb` | mk-108.1/bsd/kern_exit.c:200-203 | Insertion at the head, the old head pointing back (with OntoZombKeeps) |
| `ProcessTable.PushAll` | mk-108.1/bsd/kern_fork.c:284-287 | Insertion without a test for an empty list is right because allproc is never null (with OntoAllKeeps) |
| `ProcessTable.ProcTable.CloneBegin` | mk-108.1/bsd/kern_fork.c:206-252 | The first free slot becomes the youngest child of the forking process, found by the pid given, with every other parent, child list and pid as it was; or nothing, if no slot is free |
| `ProcessTable.ProcTable.CloneEnd` | mk-108.1/bsd/kern_fork.c:284-287 | The child goes to the head of allproc and nothing else changes |
| `ProcessTable.ProcTable.ExitBegin` | mk-108.1/bsd/kern_exit.c:198-222 | The process moves from allproc to the head of zombproc and is no longer found by pid; every other process stays where it was and can be found as before |
| `ProcessTable.ProcTable.ExitEnd` | mk-108.1/bsd/kern_exit.c:301-355 | The loop with spgrp inside it, although p_cptr is stale meanwhile, ends with the parent of each old child init, in reverse order before its own, and the stops of exactly the descendants cleared; no other parent, list or signal changes |
| `ProcessTable.ProcTable.Wait1` | mk-108.1/bsd/kern_exit.c:438-500 | The youngest dead child that matches leaves its parent and zombproc, and its slot is free; otherwise nothing changes and no matching child is dead |
| `ProcessTable.ProcTable.InitProcess` | mk-108.1/bsd/kern_exit.c:583-598 | The process becomes its own parent and leaves the child list of the one it had; nothing else changes |
| `Lookup.TurnShrinks` | mk-108.1/bsd/vfs_lookup.c:95-354 | Each turn follows one more of at most MAXSYMLINKS links or shortens the path, so the loop ends |
| `Lookup.NoWayOut` | mk-108.1/bsd/vfs_lookup.c:168-174 | However often `..` is repeated it does not lead out of the root directory |
| `Lookup.SelfLinkFails` | mk-108.1/bsd/vfs_lookup.c:265-287 | A link that leads to itself fails with ELOOP |
| `Lookup.StripShrinks` | mk-108.1/bsd/vfs_pathname.c:168-196 | A component and the rest are the path, and a component that is not empty is taken off |
| `Lookup.PnGetComponent` | mk-108.1/bsd/vfs_pathname.c:168-196 | The loop finds the first component, or that it is longer than MAXNAMLEN |
| `Lookup.PnSkipSlash` | mk-108.1/bsd/vfs_pathname.c:202-209 | The loop drops the leading slashes and nothing else |
| `Lookup.ExpandMeta` | mk-108.1/bsd/vfs_lookup.c:455-507 | The loop replaces every escaped component, or fails where one cannot be replaced or does not fit |
| `Lookup.StoreNull` | mk-108.1/bsd/vfs_lookup.c:439-441 | The null makes the text a string; it changes the byte after the buffer exactly when the text is MAXPATHLEN bytes long, and never anything else outside |
| `Lookup.FullLinkIsTooLong` | mk-108.1/bsd/vfs_pathname.c:128-134 | A text that fills the buffer, unless it is a metalink, makes every lookup through it fail with ENAMETOOLONG |
| `Lookup.FullLinkWorksIff` | mk-108.1/bsd/vfs_lookup.c:439-505 | A link whose text fills the buffer can be followed if and only if it is a metalink whose translation succeeds and leaves room for the rest of the path |
| `Lookup.FullMetalinkWorks` | mk-108.1/bsd/vfs_lookup.c:439-505 | A metalink followed by slashes up to exactly MAXPATHLEN bytes, so that the null is stored outside the buffer, is translated and followed |
| `Lookup.Refs.GetSymlink` | mk-108.1/bsd/vfs_lookup.c:370-511 | The text of the link; one buffer is owned on success and none on any failure; the byte after the buffer becomes null if the text fills it and otherwise stays |
| `Lookup.Refs.FollowLink` | mk-108.1/bsd/vfs_lookup.c:273-283 | The link's text in front of the rest of the path, with its buffer freed exactly once |
| `Lookup.Refs.ClimbUp` | mk-108.1/bsd/vfs_lookup.c:168-195 | `..` through the roots of mounted file systems, moving the one hold along |
| `Lookup.Refs.MountUp` | mk-108.1/bsd/vfs_lookup.c:295-307 | Through everything mounted on a vnode, moving the one hold along, on failure too |
| `Lookup.Refs.Component` | mk-108.1/bsd/vfs_lookup.c:206-240 | Virtual mounts before the directory; one more hold exactly when a vnode is found |
| `Lookup.Refs.HandOver` | mk-108.1/bsd/vfs_lookup.c:309-340 | The vnodes wanted are handed over with their holds, the others released, EEXIST for a parent that is an alias |
| `Lookup.Refs.LookupPn` | mk-108.1/bsd/vfs_lookup.c:69-364 | The loop of gotos ends, finds what the reference translation finds (what that is, `LookupLaws` says), holds exactly the vnodes it returns and none on error, and leaves no pathname buffer |
| `Lookup.Refs.LookupName` | mk-108.1/bsd/vfs_lookup.c:39-55 | The caller's pathname buffer is freed too, whatever happens |
| `LookupLaws.FindsWhatLeads` | mk-108.1/bsd/vfs_lookup.c:95-364 | Wherever a path leads along what the file systems answer (each name looked up where the one before it led, through what is mounted there, links put before the rest from where they are or from the root, `..` down through mounts, virtual mounts, or one of nine ways to fail) the translation finds just that |
| `LookupLaws.LookupFinds` | mk-108.1/bsd/vfs_lookup.c:69-95 | The same from the current directory, or from the process's root for a leading slash |
| `LookupLaws.PathFinds` | mk-108.1/bsd/vfs_lookup.c:341-354 | A path c1/.../cn of ordinary names finds the vnode at the end of the chain of lookups as component and the one before it as parent |
| `LookupLaws.MetaText` | mk-108.1/bsd/vfs_lookup.c:439-505 | The text of a metalink is its components in order with every escaped one replaced by its variable, or by its default if that is not set |
| `Timer.ItimerFix` | mk-108.1/bsd/kern_time.c:317-327 | Rejects exactly the times out of range and raises a nonzero time below a tick to it |
| `Timer.Itimer.Decrement` | mk-108.1/bsd/kern_time.c:339-369 | The code with its goto computes the new value and whether the timer expired |
| `Timer.DecrMeaning` | mk-108.1/bsd/kern_time.c:339-369 | In microseconds: the value less the step, or the interval less the overshoot, which is a proper running timer if and only if the overshoot is below the interval |
| `Timer.SafeStepIff` | mk-108.1/bsd/kern_time.c:357-367 | A step is safe for every running timer if and only if it does not exceed the interval |
| `Timer.NeverFiresAgain` | mk-108.1/bsd/kern_time.c:339-369 | A stopped timer, or one whose seconds have gone negative, fires in no later run of steps below a second; the latter counts away from zero |
| `Timer.FiresAgainIff` | mk-108.1/bsd/kern_time.c:339-369 | After an expiry some later run fires the timer again if and only if the overshoot was below the interval |
| `Timer.LateInterruptEndsTimer` | mk-108.1/bsd/kern_time.c:357-367 | Concrete late steps that stop and that wreck a timer of one tick, and no run fires it again |
| `Timer.NoDrift` | mk-108.1/bsd/kern_time.c:330-369 | Over every run of such steps what is left is the start plus an interval per expiry less the time elapsed |
| `Timer.ExpiryOnTime` | mk-108.1/bsd/kern_time.c:330-369 | The k-th expiry comes at the first step whose elapsed total reaches start + (k-1) * interval |
| `Timer.OneShot` | mk-108.1/bsd/kern_time.c:364-369 | A timer that does not repeat expires once, at the first step that reaches its value |
| `Timer.RealitExpire` | mk-108.1/bsd/kern_time.c:271-309 | The next alarm is the first whole number of intervals past the old one that is after now, unless that is more than ten seconds behind, when the phase is given up |
| `Timer.RoundedMeans` | mk-108.1/bsd/kern_time.c:150-151 | The rounded correction is whole ticks of skew, no larger than asked and short of it by less than one |
| `Timer.AdjustedMeans` | mk-108.1/bsd/kern_time.c:139-152 | What adjtime grants: whole ticks of skew, short of what was asked by less than one; the skew is kept while a correction is under way and otherwise tenfold above one second |
| `Timer.HappenKeeps` | mk-108.1/bsd/kern_clock.c:301-314 | Through ticks of any length and adjtime calls the clock plus the pending correction is the start plus the ticks plus what was granted, and the correction stays a multiple of tickdelta |
| `Timer.SlewsExactly` | mk-108.1/bsd/kern_clock.c:301-314 | For ticks of any length the correction is zero after exactly its size over tickdelta ticks and not before, the clock having advanced by the ticks plus what has gone off it |
| `Timer.NormalIffCarries` | mk-108.1/bsd/kern_clock.c:150-158 | A tick leaves the clock a proper time if and only if the skewed tick keeps its microseconds between zero and two seconds |
| `Timer.StaysNormalIff` | mk-108.1/bsd/kern_clock.c:301-314 | Over every run the clock is a proper time throughout if and only if every tick, when it came, did that |
| `Timer.LongTicksCarry` | mk-108.1/bsd/kern_clock.c:301-314 | Ticks no shorter than the skew and with room for it in a second do |
| `Timer.ShortTickSpoilsClock` | mk-108.1/bsd/kern_clock.c:301-314 | A run of two adjtime calls and a short tick after which the microseconds are negative |
| `Timer.TimeOfDay.AdjTime` | mk-108.1/bsd/kern_time.c:128-164 | The new correction and skew, and the old correction handed back as a time |
| `Timer.TimeOfDay.Tick` | mk-108.1/bsd/kern_clock.c:301-314 | The clock part of a hardclock tick |
| `NumberFormat.RoundTrip` | streams-21/streams_doscan.c:133-225 | For every 32-bit value, conversion, fill, octal mark and width up to 63, and whatever follows that does not begin with a digit, scanning what was printed gives the value back and stops at its end |
| `NumberFormat.MarkedHexReadsZero` | streams-21/streams_doprnt.c:173-184 | With `#` on a hexadecimal conversion the scan always gives zero and stops at the x |
| `NumberFormat.ValueOfDigits` | streams-21/streams_doscan.c:148-165 | Leading zeros and the digits of a number read back as the number in 32 bits |
| `NumberFormat.SignRoundTrip` | streams-21/streams_doprnt.c:217-218 | Negating in 32 bits when printing and again when scanning gives every value back, the most negative included |
| `NumberFormat.WordDigits` | streams-21/streams_doprnt.c:15-16 | No 32-bit value has more digits than the buffer provides for |
| `NumberFormat.FillDigits` | streams-21/streams_doprnt.c:422-436 | The do-while loop fills the buffer from the right with exactly the digits |
| `NumberFormat.FillBody` | streams-21/streams_doprnt.c:134-226 | Sign, octal zero or hexadecimal mark and digits, within the buffer |
| `NumberFormat.Emit` | streams-21/streams_doprnt.c:361-407 | The field right-justified, with blanks, or zeros after a minus sign |
| `NumberFormat.PrintNumber` | streams-21/streams_doprnt.c:134-226 | What is emitted for one argument is the text whose meaning `NumberMeaning.PrintMeans` gives |
| `NumberMeaning.PrintMeans` | streams-21/streams_doprnt.c:134-226 | %d and %u print decimal digits whose value with weight 10 is the magnitude, %o octal, %x and %X hexadecimal in their case, none with a needless leading zero; the sign, the mark that `#` asks for and the fill stand in their places and the field has the width asked for |
| `NumberMeaning.WritesOnce` | streams-21/streams_doprnt.c:422-436 | There is only one such text |
| `NumberMeaning.LaidLength` | streams-21/streams_doprnt.c:361-407 | The field is as long as the larger of the width and what is in it |
| `NumberMeaning.ScanMeans` | streams-21/streams_doscan.c:133-225 | Blanks are skipped, one sign is taken and then the longest run of digits allowed, whose value with weight 10, 8 or 16 is stored in 32 bits |
| `NumberFormat.Innum` | streams-21/streams_doscan.c:118-225 | The loops compute the number, whether one was stored, and where reading goes on |
| `Accounting.Compress` | mk-108.1/bsd/kern_acct.c:188-210 | The code is the rounded fraction and exponent of the scaled time, a carry included; negative times come back as they are |
| `Accounting.ScaledMeans` | mk-108.1/bsd/kern_acct.c:188-196 | The scaled time is seconds and microseconds in 64ths of a second, cut off |
| `Accounting.ShiftDown` | mk-108.1/bsd/kern_acct.c:197-201 | The shifting loop ends with the exponent the time needs and the bit to round by |
| `Accounting.CodeIsAccurate` | mk-108.1/bsd/kern_acct.c:184-210 | For every 31-bit time the code fits sixteen bits and decodes to within half a unit of the exponent before any carry |
| `Accounting.CodeIsMonotone` | mk-108.1/bsd/kern_acct.c:184-210 | The encoding is a function of the time and never decreases |
| `Accounting.CodeIsNearest` | mk-108.1/bsd/kern_acct.c:184-210 | No sixteen-bit code stands for a number closer to the time than the one chosen |

## Left out

- The sweep half of `unp_gc` and its guard against re-entry, which close sockets through code outside the model.
- Pid allocation in `cloneproc`: a pid is an argument, because its search does not make pids unique.
- A second thread of a forking process that waits for children while `cloneproc` sleeps with the child's task not yet set.
- `ptrace`, stopped children in `wait1`, resource usage, parent pids, and the signals sent by `exit`.
- Allocation of new process slots by `getproc`; a fork with no free slot fails.
- In `FileLock` a process closes only its own descriptors; threads that share a descriptor table are not modelled.
- The three descriptor bit sets of `selscan` are a list of what is asked of which buffer, in scan order; `EBADF`, devices that are not sockets (beyond their wakeups), and wrap-around of `nselcoll` within one scan.
- A thread that exits while still the mark of a socket buffer.
- Mbufs as linked cells: a chain is a sequence and a buffer a sequence of chains, so aliasing of mbufs is not captured. `sb_cc` and `sb_mbcnt` of an arbitrary socket buffer do not wrap in `SocketBuffer`; those of a stream never do (`StreamMemory.CountsFitTheirFields`).
- `soreceive` with peeking, out-of-band marks and datagrams; resizing or closing of a connected stream; the conversion of descriptors in a rights mbuf, whose failure ends the send before delivery.
- Private page buffers, `breada`, `binval`, `B_LOCKED`, `B_NOCACHE`, input/output errors, the order of the free lists and buffers smaller than a device block in the buffer cache.
- BufferCache.EveryRunIsSafe: the allocation follows the search for overlaps with no sleep between them, because with a sleep it is false; the exact condition is `GrowSafeIff`.
- BufferCache.StepKeeps: the same, with `StepSafeIff` for the machine whose allocations sleep.
- BufferCache.ReadsAreCurrent: the same; with sleeps it holds of the runs that `SleepingRunSafeIff` describes.
- BufferOps.Cache.Brealloc: the allocation is one step, where `allocbuf` can sleep in `getnewbuf`.
- BufferOps.Cache.Bread: as for `Getblk` below.
- BufferOps.Cache.Getblk: a block lies within an aligned group of eight fragments, which the hash chain search depends on; if the world given ends while it waits there is no answer.
- Overflow of `c_time` in the callout list, and the locks around it.
- Clist.Clists.Cat: the two queues differ, because `catq` of a queue onto itself does not end.
- `ndqb`, `cwaiting` and the wakeups of the clist code.
- Sleeps on a file system locked for unmounting in `lookuppn`, and changes of the file systems during one lookup; the name cache for links is part of reading a link.
- LookupLaws.FindsWhatLeads: components that contain a null, links found under the name `..`, and failures after `..` are not among the ways a path can lead.
- Bytes of a pathname buffer beyond its length, and what the byte after it belongs to when a null is stored there.
- `hzto`, `setitimer`, and a clock that moves during one call of `realitexpire`.
- The fixed 64-byte buffer of the scanner, which only fields up to 63 characters fit; left-justified fields, precision, size modifiers, floating point, strings and characters.
- The Mach scheduler, the kern_loader daemon, terminal line disciplines, the CD-ROM file system and the file streams: easier, or mostly calls into code outside the repository.
