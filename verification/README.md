# Verified models of miros

miros is an ELF interpreter and C library in Rust. This project models its most intricate
parts in Dafny and proves what they promise:

- **pthread lock protocols.** `Rwlock`, `Condvar`, `Mutex` and `FileLock` are state machines in
  which arbitrarily many threads take atomic steps in any order. `Step` performs one thread's
  next operation; a run is any sequence of moves, a move naming the thread, the call an idle
  thread makes and whether a weak compare-exchange or a futex wait gives up spuriously. Each
  protocol has an inductive invariant and theorems over every run. `RwlockCalls`, `CondvarCalls`,
  `MutexCalls` and `FileLockCalls` state what a whole call, from start to return amid any steps of
  other threads, answers and does; `RwlockAlone` and its like state when a call that runs alone
  returns, and within how many steps. `RwlockWords`,
  `CondvarWords` and the classes `PthreadMutex` and `StreamLock` hold the words as the program
  does and change them by the program's operations; each method is proved to be the protocol
  step. `Tally` counts through a per-thread map, since lock words hold such sums.
- **The small-object allocator.** `Occupancy` is the owner's bitmap with summary and count,
  `Spans` joins it with the atomic side channel, `Magazines` the per-thread caches,
  `ClassHeaps` the span lists of one class with refill, flush, reclaim, adoption and exit.
  `SlotLedger` interleaves all threads and accounts for every slot, `SlotNotices` for every
  notice of a remote free, and `SlotCycles` follows a block there and back: drawn and freed,
  freed by another thread and drained, left at exit and adopted. `SizeClasses` and `Windows` are
  the table, the reciprocal and the pointer routing.
- **Sequential algorithms.** `Getopt` against a left-to-right reference reading, and
  `GetoptItems` from what a user means through its written form and back; `TlsLayout`
  against sets of free bytes, `LinkedList` on linked nodes, `Topological` with its explicit stack
  against the recursive walk of `DepthFirst`, `HashTables` against the hashes a linker writes, and
  `Division`.

A machine word of flags is a record with packing functions proved to round-trip; a 64-bit
bitmap word is the set of its one bits. 32- and 128-bit wrap-around is written out wherever
the program relies on it. Atomic operations are sequentially consistent.

Two comments in the program are not quite what the code does. `class_heap.rs` line 157 says
that draining a full span with a notice always frees a slot. `SlotNotices.FullWithStaleNotice`
is a run in which it frees none: a summary bit stored after the owner already drained its word
and claimed the slots again; `SlotNotices.StaleNotice` says when that happens. The code then
files the span as full again, as `ClassHeaps.ThreadClassHeap.ReclaimRemoteFrees` does. The
adaptive mutex records no owner when locked but checks one when unlocked (`Mutex.UnlockRefused`).

Two runs show where the reader-writer lock keeps a thread waiting for good in a lock nobody holds.
In `RwlockLimits.LateAnnouncement` the last reader out has started a write phase but not yet stored
its announcement; a writer finds the phase running, comes and goes, and the late store then tells
a waiting reader that a write phase runs. In `RwlockLimits.RefusedReaderLast` a reader refused as one
too many undoes its count last and starts no write phase for the writer that waits for one. The
model keeps the code as it is; `RwlockAlone.AloneReturns` is the exact condition, on the words, under
which a thread left alone in its call returns.

The files: `Wrappers`, `Arithmetic`, `Tally`, `Rwlock`, `RwlockCalls`, `RwlockAlone`,
`RwlockLimits`, `RwlockWords`, `Condvar`, `CondvarSteps`, `CondvarRuns`, `CondvarDeliveries`,
`CondvarCalls`, `CondvarLimits`, `CondvarWords`, `Mutex`, `MutexCalls`, `FileLock`, `FileLockCalls`,
`Occupancy`, `Span`, `SlotLedger`, `SlotNotices`, `SlotCycles`, `Magazine`, `ClassHeap`,
`SizeClasses`, `Windows`, `Getopt`, `GetoptItems`, `LinkedList`, `TlsLayout`, `Topological`,
`DepthFirst`, `HashTables`, `Division`. `dafny verify dfyconfig.toml` checks them all.

## Model

| member | source | states |
|---|---|---|
| `Rwlock.Exclusion` | src/libc/threads/rwlock.rs:276-597 | In every state of every interleaving at most one thread holds the write lock, and while one does no thread, itself included, holds a read lock |
| `Rwlock.UnlockBranch` | src/libc/threads/rwlock.rs:590-597 | `unlock` takes the write branch exactly when the caller is the writer; otherwise the caller holds a read lock the count still covers |
| `RwlockCalls.CallAnswered` | src/libc/threads/rwlock.rs:248-597 | Any call, in any interleaving: a lock or try-lock returns zero exactly when the caller got its lock by it; the blocking ones report a deadlock exactly when the caller holds the write lock; `unlock` gives up the write lock, or one read lock of a caller without it |
| `RwlockCalls.TryWriteRefused` | src/libc/threads/rwlock.rs:494-514 | `trywrlock` is refused, touching nothing, exactly when somebody owns the right to write, or readers are counted and it is not a running write phase that this kind of lock lets writers continue; else it owns the write phase |
| `RwlockCalls.TryReadRefused` | src/libc/threads/rwlock.rs:339-372 | `tryrdlock` is busy exactly when, at its last load, somebody owned the right to write while a write phase ran or while this kind bars readers from passing a waiting writer; one too many exactly from 2^28 readers on |
| `RwlockCalls.BlockingRefused` | src/libc/threads/rwlock.rs:276-310 | The owner test of the blocking calls refuses exactly the thread that holds the write lock; a reader is one too many exactly when 2^28 are counted with it |
| `RwlockAlone.RestReturns` | src/libc/threads/rwlock.rs:248-597 | With every thread between calls and nobody but perhaps the caller writing, each call that runs alone is over within nineteen steps and obtains its lock exactly when that is free (a blocking write lock where no read lock is held) |
| `RwlockAlone.AloneReturns` | src/libc/threads/rwlock.rs:248-597 | A thread anywhere in a call, whatever it has loaded, with the others outside and without what it asks for, returns within nineteen steps of its own if and only if the words do not keep it waiting for good, and with its lock if and only if they do not refuse it |
| `RwlockAlone.WriterGivesUp` | src/libc/threads/rwlock.rs:545-588 | An unlocking writer leaves the token exactly if this kind prefers writers and one waits; else it gives up the right to write, and ends the write phase exactly if readers are counted |
| `RwlockAlone.ReaderLeaves` | src/libc/threads/rwlock.rs:516-543 | A leaving reader starts a write phase exactly when it is the last counted and somebody owns the right to write; deferred readers are let go with the last one |
| `RwlockAlone.ReaderDefers` | src/libc/threads/rwlock.rs:280-302 | Where readers must not pass a waiting writer, one defers exactly when somebody owns the right to write and readers are in |
| `RwlockLimits.LateAnnouncement` | src/libc/threads/rwlock.rs:516-543 | A run of three threads after which a reader in a lock nobody holds waits for good: the announcement of a write phase is stored after the writer it was for has come and gone |
| `RwlockLimits.RefusedReaderLast` | src/libc/threads/rwlock.rs:304-310 | A run of three threads after which a writer in a lock nobody holds waits for good: a reader refused as one too many takes itself off last without a look at what it leaves |
| `Rwlock.TokenAccounting` | src/libc/threads/rwlock.rs:374-451 | Always exactly one of: no primary writer and no token with WRLOCKED clear, an outstanding hand-over token, exactly one primary writer; the waiting count is the number of registered writers not yet deducted and never reaches the token bit |
| `Rwlock.TokenIsTaken` | src/libc/threads/rwlock.rs:399-435 | An outstanding token always has a registered waiting writer, and any waiting writer that runs alone takes it within five steps and becomes the primary writer |
| `Rwlock.ReaderAccounting` | src/libc/threads/rwlock.rs:301-312 | The packed reader count is exactly the read locks held plus the readers on their way in or out, and cannot overflow its 29 bits |
| `Rwlock.StepKeeps` | src/libc/threads/rwlock.rs:248-597 | One operation of any thread, anywhere in lock, try-lock and unlock, keeps the invariant of words and threads; what the operations add up to is `RwlockCalls` and `RwlockAlone` |
| `Rwlock.RunKeeps` | src/libc/threads/rwlock.rs:248-597 | Every interleaving from a state with the invariant stays within it |
| `Rwlock.ReadersRoundTrip` | src/libc/threads/rwlock.rs:66-92 | Packing and unpacking the readers word loses nothing |
| `Rwlock.WritersRoundTrip` | src/libc/threads/rwlock.rs:125-133 | Packing and unpacking the writers word loses nothing |
| `Rwlock.AddReaderRaw` | src/libc/threads/rwlock.rs:110-113 | Adding a reader on the raw 32-bit word never disturbs the flags, even when the count wraps |
| `Rwlock.WaitingRaw` | src/libc/threads/rwlock.rs:147-153 | Adding or subtracting one on the raw writers word reaches the token bit exactly when the 31-bit count wraps |
| `RwlockWords.PthreadRwlock.Advance` | src/libc/threads/rwlock.rs:192-597 | One thread's next atomic operation on the raw words, as the program performs it, is the protocol step, keeps the invariant, and leaves a call in progress on its way or answered as it must be |
| `RwlockWords.PthreadRwlock.FetchAddReader` | src/libc/threads/rwlock.rs:110-113 | `fetch_add` on the raw readers word adds one reader and returns the new word |
| `RwlockWords.PthreadRwlock.CompareExchangeReaders` | src/libc/threads/rwlock.rs:285-290 | The raw compare-exchange succeeds exactly when the unpacked words agree (or fails spuriously) and stores the packed new word |
| `CondvarRuns.DeparturesMatched` | src/libc/threads/cond.rs:232-275 | Every waiter that left the waiting loop is matched one-to-one with a signal delivered to its own group after it took its ticket, also across a group switch |
| `CondvarRuns.WhoHasLeft` | src/libc/threads/cond.rs:234-273 | A thread past the loop is one of the matched departures, one inside is not, and departures and waiters inside make up all tickets drawn |
| `CondvarDeliveries.SignalDeliversOne` | src/libc/threads/cond.rs:278-303 | A finished signal delivered exactly one signal if some ticket below the count it observed was unsignalled, and none otherwise; if no more waiters left than had been signalled before it, some waiter inside may now leave |
| `CondvarDeliveries.SignalsReachWaiters` | src/libc/threads/cond.rs:232-303 | Between signalers' stores, never have more waiters left than signals were delivered, and some waiter inside may leave if and only if fewer have: no delivered signal is without somebody it can wake |
| `CondvarCalls.CallServes` | src/libc/threads/cond.rs:278-340 | Any signal or broadcast, in any timely interleaving: after a broadcast every waiter inside whose ticket was drawn before the call may leave; after a signal one more signal is delivered than when it was made, unless every ticket already had one or nobody waits any more |
| `CondvarCalls.AloneReturns` | src/libc/threads/cond.rs:278-340 | With the signaler lock free, a signal or broadcast that runs alone returns within thirty steps and moves nobody else; a broadcast leaves every waiter inside free to go, a signal delivers exactly one signal if a waiter is registered and a ticket is without one |
| `CondvarCalls.EntitledReturns` | src/libc/threads/cond.rs:232-275 | A waiter that may leave, wherever in the call it stands and whatever it has loaded, is back from the call within eight steps of its own |
| `CondvarCalls.SkipsOnlyNobody` | src/libc/threads/cond.rs:278-311 | A signal or broadcast returns without the lock exactly when the count of waiters is zero, and then nobody is inside the waiting loop; otherwise it goes for the lock |
| `CondvarRuns.BroadcastFreesAll` | src/libc/threads/cond.rs:313-340 | A broadcast about to give the signaler lock back has freed every waiter registered before its sequence read; that it gets there is `CondvarCalls.CallServes` |
| `CondvarRuns.EntitledLeaves` | src/libc/threads/cond.rs:251-270 | Entitlement is exact: an entitled waiter that runs alone leaves within three steps, another is back at the top of its loop |
| `CondvarRuns.TicketSplit` | src/libc/threads/cond.rs:182-211 | With the signaler lock free, tickets split into closed, group one and group two ranges; size is original size less delivered, and the signal word counts what nobody took, modulo 2^32 |
| `CondvarRuns.OneSignaler` | src/libc/threads/cond.rs:134-168 | At most one thread is past the signaler lock |
| `CondvarRuns.WrappedTestsExact` | src/libc/threads/cond.rs:187-258 | In every state, the middle of a group switch included, the wrapped 32-bit tests of waiter and signaler answer as unbounded counters would |
| `CondvarRuns.RunKeeps` | src/libc/threads/cond.rs:91-340 | Every timely interleaving keeps the invariant of words, groups and threads |
| `CondvarRuns.ShortRunsTimely` | src/libc/threads/cond.rs:251-266 | Every interleaving of at most 2^32 operations is timely, so the theorems about timely runs hold of it without further conditions |
| `CondvarSteps.StepKeeps` | src/libc/threads/cond.rs:91-340 | One operation of any thread in wait, signal or broadcast keeps the invariant |
| `CondvarSteps.WrappedTestExact` | src/libc/threads/cond.rs:252-258 | For a waiter of an open group, `(available - start) as i32 > 0` holds exactly when the unwrapped count exceeds the start |
| `CondvarSteps.EmptinessExact` | src/libc/threads/cond.rs:187-192 | The wrapped emptiness test of `switch_group_one` holds exactly when every observed ticket has a signal delivered |
| `CondvarSteps.TakeExact` | src/libc/threads/cond.rs:258-266 | When the compare-exchange finds the wrapped signal word unchanged, the unwrapped count is the one that was loaded if and only if it is less than 2^32 above it |
| `CondvarLimits.StalledWaiterSteals` | src/libc/threads/cond.rs:251-266 | Three threads reach by timely moves alone, 2^32 waits and signals long, a state in which a stalled waiter's compare-exchange succeeds on a recycled word: it takes the signal of the only other waiter, who is then back at the top of its loop every two steps while every ticket counts as signalled and a further signal finds nobody |
| `CondvarWords.PthreadCond.Perform` | src/libc/threads/cond.rs:91-340 | On the packed words and two-entry arrays, whatever they hold, each operation is the protocol step |
| `CondvarWords.PthreadCond.Advance` | src/libc/threads/cond.rs:91-340 | The same operation keeps the invariant when it is timely |
| `CondvarWords.PthreadCond.SwitchGroupOne` | src/libc/threads/cond.rs:194-210 | The steps of closing group one and promoting group two, on the words |
| `CondvarWords.PthreadCond.AcquireLock` | src/libc/threads/cond.rs:134-168 | The signaler lock inside the size word, on the raw word |
| `CondvarWords.PthreadCond.WaitLoop` | src/libc/threads/cond.rs:250-271 | The waiting loop on the raw signal word |
| `Mutex.AtMostOneHolder` | src/libc/threads/mutex.rs:115-140 | Two threads never hold the mutex at once, and the word is nonzero exactly while one does |
| `Mutex.OwnerExact` | src/libc/threads/mutex.rs:142-171 | Between calls the owner of a recursive or error-checking mutex is its holder and nobody else, and the recursion field counts its nesting modulo 2^32 |
| `MutexCalls.CallAnswered` | src/libc/threads/mutex.rs:174-259 | Any call on a mutex of any kind, in any interleaving: lock and try-lock return zero exactly when the caller holds the mutex because of it, once more if recursive and newly otherwise; the other answers each have their exact condition |
| `MutexCalls.RecursiveNests` | src/libc/threads/mutex.rs:182-189 | Two steps of the holder of a recursive mutex, by lock or try-lock, end with zero and with level and recursion one higher |
| `MutexCalls.ErrorCheckRefuses` | src/libc/threads/mutex.rs:190-196 | Two steps of the holder of an error-checking mutex end with the deadlock error and nothing else changed |
| `MutexCalls.AloneReturns` | src/libc/threads/mutex.rs:115-259 | While nobody else holds the mutex, a thread anywhere in its call returns within six steps of its own if and only if it is not locking again a mutex that keeps no track of it |
| `MutexCalls.RestReturns` | src/libc/threads/mutex.rs:174-259 | From every reached state in which nobody else holds the mutex, a call that runs alone returns within six steps with what it asked for exactly when its kind grants that, and never exactly when it locks again what a normal or adaptive mutex already gave it |
| `MutexCalls.UnsupportedRefused` | src/libc/threads/mutex.rs:174-259 | With an unsupported protocol every call is refused at once and changes nothing |
| `MutexCalls.AdaptiveSpins` | src/libc/threads/mutex.rs:197-211 | While the word is taken, a lock call on an adaptive mutex tries as often as the mutex says, or a hundred times if it says zero, before it goes for the word in earnest |
| `Mutex.UnlockRefused` | src/libc/threads/mutex.rs:240-259 | A holder's unlock is refused if and only if the mutex is adaptive and was taken by the plain lock call |
| `Mutex.AdaptiveLockCannotBeUndone` | src/libc/threads/mutex.rs:197-248 | Locking then unlocking an adaptive mutex returns the not-owner error and leaves it held |
| `Mutex.StrangerRefused` | src/libc/threads/mutex.rs:245-248 | An unlock by a thread that does not hold a checked mutex changes nothing and says so |
| `Mutex.UnlockTakesOneLevel` | src/libc/threads/mutex.rs:249-258 | A recursive holder's unlock gives the mutex up exactly when its nesting modulo 2^32 is at most one, otherwise it takes one level off |
| `Mutex.WaitRestores` | src/libc/threads/mutex.rs:148-171 | A thread that comes back from a condition wait holds the mutex at the nesting it went in with, owner and count restored, whatever others did meanwhile |
| `Mutex.SleepersMinded` | src/libc/threads/mutex.rs:115-140 | No sleeper is stranded: the word is marked contended, or a wake is owed, or an awake contender is about to mark it |
| `Mutex.NobodySleepsOnAFreeMutex` | src/libc/threads/mutex.rs:115-140 | When nobody holds the mutex and no call is under way, nobody sleeps on it |
| `Mutex.StepKeeps` | src/libc/threads/mutex.rs:115-259 | One operation of any thread on a mutex of any kind keeps the ownership invariant |
| `Mutex.PthreadMutex.Advance` | src/libc/threads/mutex.rs:115-259 | One atomic operation on the mutex's fields is the protocol step; it keeps the invariant and strands no sleeper |
| `Mutex.PthreadMutex.Acquire` | src/libc/threads/mutex.rs:115-133 | An operation of acquire, try-acquire or spin newly gives the caller the mutex exactly when the word it replaced was UNLOCKED |
| `Mutex.PthreadMutex.UnderOwnership` | src/libc/threads/mutex.rs:182-196 | The owner test on the fields is the protocol step; an unlock is refused exactly for a thread that is not the recorded owner, and lock and try-lock finish there exactly for the owner. What they answer then is `MutexCalls.RecursiveNests` and `MutexCalls.ErrorCheckRefuses` |
| `FileLock.OneOwner` | src/libc/stdio/file_lock.rs:50-84 | The word names the one thread whose lock calls outnumber its unlock calls, the recursion count is that excess modulo 2^32, and the raw word is zero exactly when nobody holds the lock |
| `FileLockCalls.CallAnswered` | src/libc/stdio/file_lock.rs:50-84 | Any call in any interleaving: a lock returns one level deeper, an unlock one level up, or outside when that was the only level modulo 2^32 |
| `FileLockCalls.HolderNests` | src/libc/stdio/file_lock.rs:50-64 | A holder's lock is over in two steps, with level and recursion count one higher and the word as it was |
| `FileLockCalls.AloneReturns` | src/libc/stdio/file_lock.rs:50-116 | While nobody else holds the lock, a thread anywhere in its call returns within three steps of its own |
| `FileLock.UnlockTakesOneLevel` | src/libc/stdio/file_lock.rs:73-84 | The holder's unlock takes one level off and starts giving the lock up exactly at the last one |
| `FileLock.SleepersMinded` | src/libc/stdio/file_lock.rs:93-116 | No sleeper is stranded: the waiters bit is set, or a wake is owed, or an awake contender is in the loop that sets it |
| `FileLock.NobodySleepsOnAFreeLock` | src/libc/stdio/file_lock.rs:81-116 | When nobody holds the lock and no call is under way, nobody sleeps on it |
| `FileLock.RawRoundTrip` | src/libc/stdio/file_lock.rs:15-30 | Owner and waiters bit pack into 32 bits without loss, and only the free word is zero |
| `FileLock.StreamLock.Advance` | src/libc/stdio/file_lock.rs:50-116 | One operation on the raw word is the protocol step, keeps the invariant and strands no sleeper |
| `FileLock.StreamLock.AcquireContended` | src/libc/stdio/file_lock.rs:94-116 | The contended loop on the raw word |
| `Occupancy.LocalOccupancy.constructor` | src/allocator/span/occupancy.rs:31-52 | A new span has no occupied slot; bits past the last slot are set for good and the summary is exact |
| `Occupancy.LocalOccupancy.ClaimUpTo` | src/allocator/span/occupancy.rs:57-87 | For any random word the claim takes exactly min(max, free bits) bits of the first word with room round the random start, the nearest free bits round a second start, all free and in range; the count and the summary stay exact; it fails exactly when the span is full or nothing is asked |
| `Occupancy.LocalOccupancy.ReleaseSlot` | src/allocator/span/occupancy.rs:176-179 | Frees exactly the slot; count and summary stay exact |
| `Occupancy.LocalOccupancy.ReleaseSlotsByWord` | src/allocator/span/occupancy.rs:95-105 | Frees exactly the given bits, and refuses exactly when one of them is not occupied |
| `Occupancy.LocalOccupancy.IsSlotOccupied` | src/allocator/span/occupancy.rs:107-110 | Answers whether the slot is in use |
| `Occupancy.Window` | src/allocator/span/occupancy.rs:76-79 | Rotating, depositing low ones and rotating back selects that many bits of the word, the nearest ones round the start |
| `Occupancy.DepositOnes` | src/allocator/span/occupancy.rs:78 | The parallel deposit of n low ones picks the n lowest bits of the mask |
| `Occupancy.FullSummary` | src/allocator/span/occupancy.rs:58 | The summary is all ones exactly when every slot is taken, and the count reaches the total exactly then |
| `Occupancy.ExpandClaim` | src/allocator/span/mod.rs:144-159 | Expanding a claimed mask lists each of its slots once, in increasing order |
| `Spans.RemoteOccupancy.StoreWord` | src/allocator/span/occupancy.rs:122-128 | A freeing thread's first store adds its slot to the pending ones |
| `Spans.RemoteOccupancy.SwapWord` | src/allocator/span/occupancy.rs:137-153 | Swapping a word out takes exactly that word's pending slots |
| `Spans.Span.ReclaimRemoteFrees` | src/allocator/span/mod.rs:98-104 | A drain with every pending word marked empties the side channel and frees exactly its slots in the owner's bitmap; the unallocated-slot check passes |
| `SlotLedger.Conservation` | src/allocator/heap/mod.rs:137-200 | Over any run of allocation, local and remote frees, thread exit and adoption, each slot is found in exactly one place: free, cached by one thread, held, in flight, or pending |
| `SlotLedger.AllocationIsFresh` | src/allocator/heap/mod.rs:137-147 | A slot handed out is held, cached or pending nowhere else, so two live blocks never share a slot |
| `SlotLedger.RemoteFreeNoticed` | src/allocator/span/occupancy.rs:122-153 | A pending remote free's word has its summary bit set, or the freeing thread still owes it, or the owner's running drain still has the word to visit |
| `SlotLedger.NeverPanics` | src/allocator/span/occupancy.rs:99-102 | For clients that free each block once the unallocated-slot check never fires |
| `SlotLedger.QuietSpanIsDrained` | src/allocator/span/occupancy.rs:133-153 | With a clear summary and no store or drain under way, nothing is pending |
| `SlotLedger.RoutingIsByOwnership` | src/allocator/primary.rs:156-166 | A free takes the local path exactly when the freeing thread has the span filed, across exits and adoptions |
| `SlotLedger.StepKeeps` | src/allocator/heap/mod.rs:113-200 | Each step of any thread keeps the ledger, ownership and notice invariants |
| `SlotLedger.DrainPlaces` | src/allocator/span/occupancy.rs:95-105 | Every bit the owner swaps out is a pending free of an occupied slot |
| `SlotCycles.RemoteFreeReturns` | src/allocator/span/occupancy.rs:122-153 | A block freed by another thread comes all the way back: after the two stores and the owner's next drain its slot is free in the span and can be claimed again |
| `SlotCycles.Drains` | src/allocator/span/occupancy.rs:133-153 | A drain run to its end frees exactly the pending slots of the marked words and clears the marks |
| `SlotCycles.RemoteFree` | src/allocator/span/occupancy.rs:122-128 | A remote free leaves its slot pending and its word marked, and nothing else changed |
| `SlotCycles.DrawAndFree` | src/allocator/heap/mod.rs:137-180 | A block drawn and freed by the owner of its span restores the very same state |
| `SlotCycles.ClaimAndFlush` | src/allocator/heap/mod.rs:137-180 | A slot claimed and flushed is free in its span again, and nothing else has moved |
| `SlotCycles.ExitCompletes` | src/allocator/heap/mod.rs:183-200 | An exiting thread can always finish: what it cached is free, its spans are in the pool, and it has no heap left |
| `SlotCycles.AdoptionTakesOver` | src/allocator/heap/class_heap.rs:170-185 | A thread that adopts a span owns it two steps later, with everything in it as it was, and may drain it |
| `SlotNotices.StaleNotice` | src/allocator/span/occupancy.rs:122-153 | When a freeing thread is about to set a summary bit, the word has nothing pending if and only if every store into it was followed by a drain; with no other store since the thread's own, exactly when the word was drained between the thread's two stores |
| `SlotNotices.WordEmpty` | src/allocator/span/occupancy.rs:122-153 | Over any run, a side-channel word is empty exactly when each store into it was followed by a swap of it |
| `SlotNotices.FullWithStaleNotice` | src/allocator/heap/class_heap.rs:155-160 | A run to a full span with a summary bit set and nothing pending; draining it frees no slot |
| `SlotNotices.NoticesBounded` | src/allocator/heap/class_heap.rs:73-98 | While the program is handed no further block of a span, its summary is set at most once for each block held and each free under way at the start |
| `Magazines.BuildLayout` | src/allocator/heap/magazine.rs:36-66 | The filling loop gives every class its clamped capacity, low-water mark and the prefix sum of the capacities before it |
| `Magazines.CapacityFills` | src/allocator/heap/magazine.rs:25-28 | A magazine holds as many slots as fit in 4096 bytes, but at least 8 and at most 64 |
| `Magazines.WindowsDisjoint` | src/allocator/heap/magazine.rs:36-66 | The buffer windows of two classes never overlap |
| `Magazines.OffsetsFit` | src/allocator/heap/magazine.rs:43-54 | For up to 48 classes the 16-bit offset never overflows |
| `Magazines.IndexBelow` | src/allocator/non_crypto_rng.rs:40-49 | The bounded draw is below its bound for every 16-bit chunk |
| `Magazines.DrawCovers` | src/allocator/non_crypto_rng.rs:40-49 | Every index below the bound is drawn for some 16-bit chunk |
| `Magazines.Magazine.DrawRandom` | src/allocator/heap/magazine.rs:126-144 | Returns the chosen entry and fills the hole with the top one; nothing when empty |
| `Magazines.DrawKeepsOthers` | src/allocator/heap/magazine.rs:136-141 | A draw removes exactly one entry from the multiset |
| `Magazines.Magazine.PopAbove` | src/allocator/heap/magazine.rs:146-164 | Pops the top entry exactly when the count is above the threshold |
| `Magazines.Magazine.TryPush` | src/allocator/heap/magazine.rs:166-177 | Pushes exactly when there is room |
| `Magazines.Magazine.Refill` | src/allocator/heap/magazine.rs:179-186 | Stages all claimed slots when they fit, dropping none |
| `ClassHeaps.ThreadClassHeap.Refill` | src/allocator/heap/class_heap.rs:37-70 | Every claim succeeds and fits; the filing invariant holds again; the magazine is full unless no span can be had; no outstanding slot is cached a second time |
| `ClassHeaps.ThreadClassHeap.ReplenishPartial` | src/allocator/heap/class_heap.rs:73-98 | Ends with a partial span; opens fresh address space only when every empty span and every abandoned one is used up and every remote free noticed before is reclaimed; fails only when the kernel refuses even that |
| `ClassHeaps.ThreadClassHeap.ReclaimRemoteFrees` | src/allocator/heap/class_heap.rs:146-167 | Visits every span that was full at the start: each remote free noticed before the call is free in its span afterwards, the spans with notices are refiled by their new occupancy, also when the notice was stale, and the answer says whether one was drained |
| `ClassHeaps.ThreadClassHeap.Visit` | src/allocator/heap/class_heap.rs:152-165 | Reading the successor before unlinking keeps the walk on the list |
| `ClassHeaps.ThreadClassHeap.FlushToSpan` | src/allocator/heap/class_heap.rs:101-112 | Drains the magazine to its low-water mark, frees exactly the drained slots and keeps the filing |
| `ClassHeaps.ThreadClassHeap.DeallocToSpan` | src/allocator/heap/class_heap.rs:115-132 | Frees exactly the slot and refiles a span that was full or became empty |
| `ClassHeaps.ThreadClassHeap.PlaceSpan` | src/allocator/heap/class_heap.rs:135-144 | Files an unlisted span where its occupancy belongs |
| `ClassHeaps.ThreadClassHeap.ReleaseEmptySpan` | src/allocator/heap/class_heap.rs:204-211 | The empty span becomes the reserve and the demoted one is listed as empty |
| `ClassHeaps.ThreadClassHeap.ReactivateSpan` | src/allocator/heap/class_heap.rs:194-201 | Opens the reserve or else an empty span, which has no occupied slot |
| `ClassHeaps.ThreadClassHeap.AdoptSpan` | src/allocator/heap/class_heap.rs:170-185 | Takes one abandoned span over, frees in it every slot noticed while it was abandoned, and files it by what is left |
| `ClassHeaps.ThreadClassHeap.DeallocLocal` | src/allocator/heap/mod.rs:164-180 | The freed slot ends up cached and is no longer outstanding; the push after a flush always succeeds |
| `ClassHeaps.ThreadClassHeap.AllocSmall` | src/allocator/heap/mod.rs:137-147 | The slot handed out, and no other known slot, becomes outstanding; it fails only with an empty magazine and no span to be had |
| `ClassHeaps.ThreadClassHeap.AbandonAll` | src/allocator/heap/mod.rs:183-200 | At exit every cached slot is freed in its span, three of the four places go to the pool, and what stays behind is the empty reserve |
| `ClassHeaps.WalkPast` | src/allocator/heap/class_heap.rs:153-164 | Unlinking the visited node leaves what was passed and what is to come |
| `ClassHeaps.FileClaimed` | src/allocator/heap/class_heap.rs:65-68 | After a claim the span is filed as partial or, if nothing is left, as full |
| `SizeClasses.Table` | src/allocator/size_classes.rs:179-184 | Sizes are multiples of 16 between 16 and 131072, strictly increasing, never more than doubling |
| `SizeClasses.TableFormula` | src/allocator/size_classes.rs:179-184 | The sizes are the multiples of 16 up to 128, then four equal steps to each doubling |
| `SizeClasses.SpanBounds` | src/allocator/size_classes.rs:90-103 | A span has 8 to 4096 slots and at most a megabyte of data |
| `SizeClasses.SlotsFill` | src/allocator/size_classes.rs:90-103 | A span takes as many slots as fit in 128 KiB, but at least 8 and at most 4096 |
| `SizeClasses.ReciprocalDivides` | src/allocator/size_classes.rs:82-108 | Multiplying by the rounded-up reciprocal and shifting equals division whenever offset times rounding error is below 2^64 |
| `SizeClasses.SlotIndexExact` | src/allocator/size_classes.rs:105-108 | For every class and offset into its span the multiply gives offset / size, within 64 and 16 bits |
| `SizeClasses.BuildLookup` | src/allocator/size_classes.rs:139-153 | Each bucket of the lookup table holds the tightest class above its floor |
| `SizeClasses.FromLayout` | src/allocator/size_classes.rs:16-34 | The class is the tightest that fits and whose size the alignment divides; none exactly when size or alignment exceeds the largest class; the scan stays inside the table |
| `SizeClasses.LargestIsAligned` | src/allocator/size_classes.rs:27-32 | The largest class is a multiple of every alignment that is served |
| `Windows.PointerRoundTrip` | src/allocator/class_window.rs:75-89 | From any byte of any slot, the shifts and the reciprocal multiply recover the window, the span and the slot |
| `Windows.SlotsDisjoint` | src/allocator/class_window.rs:14-24 | Two different slots in any spans and windows share no byte |
| `Windows.SlotAligned` | src/allocator/size_classes.rs:12-15 | A slot of a class whose size the alignment divides starts at a multiple of it |
| `Windows.TableRoutable` | src/allocator/size_classes.rs:47-52 | Every class of the table has a power-of-two stride that holds its span and divides the window |
| `Windows.StrideTight` | src/allocator/size_classes.rs:47-52 | The stride is the least power of two that holds the span: less than twice its data |
| `Windows.ReserveAligned` | src/allocator/primary.rs:26-53 | The kept range has the asked length and starts at the first aligned address of the reservation; it and the ranges given back, none empty, tile the reservation without overlap; refused exactly when the kernel refuses |
| `Windows.ClassWindow.CreateSpan` | src/allocator/class_window.rs:93-125 | Hands out span numbers in order, each with its own data address, and refuses exactly when the window is used up |
| `Windows.ClassWindow.SpanForPointer` | src/allocator/class_window.rs:75-89 | The span number of a pointer into the window is within its capacity |
| `Windows.WindowDirectory.Mint` | src/allocator/window_directory.rs:47-62 | Publishes the window in the slot of its base address, or refuses, publishing nothing, exactly when the base lies beyond the directory or the metadata mapping is refused |
| `Windows.WindowDirectory.Lookup` | src/allocator/window_directory.rs:66-75 | Finds exactly the published window that contains the pointer |
| `Getopt.Parser.ScanAll` | src/libc/getopt/parser.rs:31-68 | A full scan ends; its calls report what one left-to-right reading of the arguments reports; argv becomes the program name, the option elements with their arguments and `--` in order, then all others in order; optind is the first of those; it panics exactly when argv is empty |
| `GetoptItems.LineRead` | src/libc/getopt/parser.rs:31-68 | Round trip: operands, letters and long options as a user means them, known or not, with their arguments attached, separate, missing or refused, written out as arguments and read by the parser, are reported as what was meant |
| `GetoptItems.EveryLine` | src/libc/getopt/parser.rs:31-68 | Every option string is a list of letters with no, one or two colons each, and every list of arguments is the written form of something meant, so the round trip says of all of them how they are read |
| `GetoptItems.Scan` | src/libc/getopt/parser.rs:31-68 | A whole scan returns the values of what was meant and leaves argv as the program name, the option elements, then the operands |
| `GetoptItems.NeedRead` | src/libc/getopt/short_option.rs:15-43 | The requirement found in the option string is the one written there for the letter's first entry; none for any other letter, or for the colon |
| `GetoptItems.MissingRead` | src/libc/getopt/short_option.rs:31-39 | A missing argument is reported as a colon exactly when the option string starts with one |
| `GetoptItems.NameFound` | src/libc/getopt/long_option.rs:15-37 | A name given in full, or shortened so that all options it may mean agree, finds the option; the first of them when shortened |
| `GetoptItems.LongRead` | src/libc/getopt/long_option.rs:55-99 | A long option whose entry says zero refuses an argument, one takes an attached or the following one and reports a missing one, anything else takes only an attached one |
| `Getopt.Parser.Next` | src/libc/getopt/parser.rs:31-68 | One call reports the next event of the reference reading, or that there is none with the arguments in final order, and always makes progress |
| `Getopt.Parser.Advance` | src/libc/getopt/permutation.rs:28-76 | Finds the next option element with everything read so far in order, or finishes |
| `Getopt.Parser.Exchange` | src/libc/getopt/permutation.rs:79-85 | Rotates the non-option block past the options behind it, in place, keeping both orders |
| `Getopt.Exchanged` | src/libc/getopt/permutation.rs:79-85 | The rotation preserves the account of options and non-options read so far |
| `Getopt.Parser.Separator` | src/libc/getopt/permutation.rs:52-63 | At `--` everything after it joins the non-options |
| `Getopt.Parser.CatchUp` | src/libc/getopt/permutation.rs:35-43 | Options met since the last exchange move in front of the accumulated non-options |
| `Getopt.Parser.Initialize` | src/libc/getopt/parser.rs:57-68 | A scan starts at index one on the first call or after optind was set to zero, and otherwise continues |
| `Getopt.ParsePartitions` | src/libc/getopt/permutation.rs:6-19 | The final arrangement is a permutation: every argument goes to the options or to the others, and both keep their order |
| `Getopt.Parser.ShortOption` | src/libc/getopt/short_option.rs:7-47 | Reports the cluster's next letter and leaves the rest of the cluster, or the element after it, to come |
| `Getopt.Parser.TakeLetter` | src/libc/getopt/short_option.rs:7-47 | Letter, attached, separate, optional and missing arguments on the parser's variables |
| `Getopt.Parser.LongOption` | src/libc/getopt/long_option.rs:7-99 | Reports a whole long option and passes its element and any argument it used |
| `Getopt.Parser.TakeLong` | src/libc/getopt/long_option.rs:39-99 | Attached, separate, refused and missing arguments, flag stores and long index on the parser's variables |
| `Getopt.Parser.Match` | src/libc/getopt/long_option.rs:15-37 | The table scan finds the first exact name, else the first abbreviated one, and is ambiguous exactly when another abbreviated name means something else |
| `Getopt.FinishedAtSeparator` | src/libc/getopt/permutation.rs:52-70 | With `--` found, one rotation completes the final order |
| `LinkedList.List.Push` | src/utils/linked_list.rs:36-44 | Links the node at the front of the sequence |
| `LinkedList.List.InsertAfter` | src/utils/linked_list.rs:46-64 | Links the node right after its anchor |
| `LinkedList.List.Remove` | src/utils/linked_list.rs:66-83 | Unlinks exactly the node and clears its links |
| `LinkedList.List.Pop` | src/utils/linked_list.rs:85-90 | Unlinks and returns the front node |
| `LinkedList.List.PrependAdopt` | src/utils/linked_list.rs:92-108 | The other list's nodes come in front in their order, and the other list is empty |
| `LinkedList.List.Contains` | src/utils/linked_list.rs:121-125 | The membership walk ends with the right answer |
| `TlsLayout.TlsLayoutAllocator.AllocateBlock` | src/tls/layout_allocator.rs:51-71 | A positive-size block goes to the highest run of free bytes that holds it and is refused only when there is none; chunks stay sorted, apart and tiling with the live blocks; an empty block changes nothing |
| `TlsLayout.TlsLayoutAllocator.DeallocateBlock` | src/tls/layout_allocator.rs:73-77 | Giving a live block back removes it and keeps chunks sorted, apart and tiling |
| `TlsLayout.TlsLayoutAllocator.Release` | src/tls/layout_allocator.rs:80-124 | The four ways to merge come to the list in which the region and the neighbours it touches are one chunk |
| `TlsLayout.ReleaseExact` | src/tls/layout_allocator.rs:80-124 | Giving a used region back frees exactly its bytes and leaves no two chunks touching |
| `TlsLayout.TakenExact` | src/tls/layout_allocator.rs:54-68 | Cutting a block off a chunk removes exactly the block's bytes |
| `TlsLayout.TakenThenReleased` | src/tls/layout_allocator.rs:51-77 | Allocating and giving back restores the very same list |
| `TlsLayout.HighestFit` | src/tls/layout_allocator.rs:54-62 | No run of free bytes that holds the block starts higher than the one chosen |
| `TlsLayout.Canonical` | src/tls/layout_allocator.rs:12-21 | The free bytes determine the list: two sorted, gap-separated lists with the same bytes are equal |
| `TlsLayout.AllReturned` | src/tls/layout_allocator.rs:33-49 | With every block given back the list is the single initial chunk |
| `TlsLayout.EmptyRegion` | src/tls/layout_allocator.rs:96-124 | Giving an empty region back keeps the list well formed if and only if it touches a neighbour |
| `TlsLayout.EmptyRegionExample` | src/tls/layout_allocator.rs:51-77 | From the initial list, placing an empty block and a 16-byte block and giving the empty one back lists an empty chunk |
| `Topological.TopologicalOrder` | src/objects/object_data_graph.rs:34-71 | For any graph, cycles included, the explicit-stack walk ends, emits each dependency object once and the program last; each object comes after every dependency of its own that cannot reach back to it, and after all such a dependency reaches |
| `DepthFirst.StackIsRecursion` | src/objects/object_data_graph.rs:34-71 | The explicit-stack walk emits exactly what the recursive post-order walk emits: all objects in their listed order, each marked, then what it needs from the last name to the first, then itself |
| `DepthFirst.Simulates` | src/objects/object_data_graph.rs:45-68 | Whatever lies beneath them on the stack, the discoveries of a list of objects do what visiting the list recursively does, and leave the rest of the stack alone |
| `Topological.ChainsByExits` | src/objects/object_data_graph.rs:34-71 | An object comes after everything it reaches that cannot reach back, however indirectly, if and only if it comes after the dependencies by which the cycles through it are left; an object on no cycle always does |
| `Topological.IndirectCanComeLater` | src/objects/object_data_graph.rs:47-68 | Three objects for which the walk emits an object before one it reaches only through a member of its own cycle |
| `Topological.Discovered` | src/objects/object_data_graph.rs:48-64 | Visiting an object puts it beneath the discoveries of its unvisited dependencies |
| `Topological.DependenciesDone` | src/objects/object_data_graph.rs:65 | When an object is emitted each of its dependencies has been emitted or leads back to it |
| `Topological.PushedExactly` | src/objects/object_data_graph.rs:57-63 | The pushed discoveries are exactly the loaded, unvisited dependencies |
| `HashTables.LookupSysV` | src/objects/object_data/hash_tables.rs:109-124 | On a table whose bucket lists end, the lookup ends with the first symbol of the name in its bucket's list |
| `HashTables.LookupGnu` | src/objects/object_data/hash_tables.rs:125-169 | The lookup finds exactly what a plain scan of the hashed symbols finds, despite bloom filter and stop bits |
| `HashTables.WalkChain` | src/objects/object_data/hash_tables.rs:152-167 | The chain walk from a bucket's first symbol to its stop bit covers the bucket |
| `HashTables.SymbolCountGnu` | src/objects/object_data/hash_tables.rs:82-98 | The count recovered from the highest bucket is exact, and there is none exactly when no symbol is hashed |
| `HashTables.ElfHashAgrees` | src/objects/object_data/hash_tables.rs:184-190 | The branch-free System V hash equals the hash of the "Hash Table" section of System V gABI chapter 5 |
| `HashTables.ElfHashFits` | src/objects/object_data/hash_tables.rs:184-190 | The System V hash always fits 28 bits |
| `Division.UnsignedDivision128` | src/libc/builtins.rs:7-26 | For every 128-bit numerator and nonzero denominator the results are quotient and remainder; a zero denominator traps |
| `Division.Round` | src/libc/builtins.rs:15-20 | One round on the remainder kept modulo 2^128 does what it would do on the 129-bit value |
| `Division.NextBit` | src/libc/builtins.rs:15-22 | Bringing one more bit down extends quotient and remainder by one bit, and the quotient bit was clear before |

## Left out

- CondvarRuns.DeparturesMatched: and the other theorems of `CondvarRuns` and `CondvarDeliveries` assume fewer than 2^29 threads and that a waiter compares and exchanges before the word's unwrapped count is 2^32 above the one it loaded (`CondvarSteps.Timely`). `CondvarSteps.TakeExact` says that the words are exact if and only if it does, `CondvarRuns.ShortRunsTimely` that runs of up to 2^32 operations always do, and `CondvarLimits.StalledWaiterSteals` runs into the first one that does not.
- Rwlock.Exclusion: assumes fewer than 2^28 threads, and that a thread unlocks only a lock it holds, as the program demands of its callers.
- Mutex.SleepersMinded: assumes that a futex wake reaches a sleeper when there is one, as the kernel promises.
- FileLock.SleepersMinded: makes the same assumption about the futex wake.
- Mutex.OwnerExact: and the nesting theorems count modulo 2^32, because the recursion field wraps; beyond 2^32 nested locks one unlock gives the mutex up.
- ClassHeaps.ThreadClassHeap.Refill: claims are chosen freely within what `Occupancy.LocalOccupancy.ClaimUpTo` is proved to guarantee, and drained slots freely within what `SlotLedger` is proved to allow; which slots the random word picks is not followed into the magazine.
- ClassHeaps.ThreadClassHeap.ReplenishPartial: the number of notices still to come is a parameter of the model (`Supply.notices`); that it is finite is `SlotNotices.NoticesBounded`, over the runs of `SlotLedger`.
- Topological.TopologicalOrder: says nothing of the order within a cycle, nor of what an object reaches only by leaving a cycle it is on through another member: `Topological.IndirectCanComeLater` has such an object come later, and `Topological.ChainsByExits` says when none does.
- Weak memory orderings: all atomics are sequentially consistent.
- Fair scheduling: what is proved of waiting is that a thread left to run alone returns, and exactly when (`RwlockAlone`, `CondvarCalls`, `MutexCalls`, `FileLockCalls`). A futex wait of the rwlock and the condition variable may return at any time, and their wakes are not modelled.
- In the condition variable, loads made under the signaler lock of words only its holder writes are taken together with the test they feed; the destroy handshake, clocks, process-shared attributes and timed waits are not modelled. Tickets are unbounded where the program has 63 bits.
- The rwlock's timed calls, attributes and initialisation.
- Robust, priority-inheriting and priority-protected mutexes, which the program refuses.
- `SlotLedger` lets an owner claim, flush and drain its spans at any time between calls and hand over spans in any order: more runs than the program has. The side channel is a set of slot numbers there; `Spans` has the bitmap.
- The abandoned hot reserve: `abandon_all` does not hand it over, so its address space is lost; `ClassHeaps.ThreadClassHeap.AbandonAll` says that it is empty.
- Minting a successor window under the growth lock, mapping, protecting and discarding pages, the large-object allocator and `realloc`.
- The quality of the random generator: draws are arbitrary values within their bound.
- Alignment of TLS blocks: the program rounds the size, not the start. `TlsLayout.EmptyRegion` says when blocks of size zero do harm.
- Linked lists in `ClassHeaps` and `TlsLayout` are sequences; `LinkedList` proves the links. Which storage a list node lives in is not modelled.
- RwlockAlone.RestReturns: claims the blocking write lock where nobody holds a read lock, since it rightly waits for one; from states with calls under way `RwlockAlone.AloneReturns` asks that the other threads are outside.
- RwlockCalls.TryReadRefused: speaks of the words at the call's last load, as the call does; a failed compare-exchange loads again.
- Getopt's messages, null argument pointers, and a program that moves `optind` during a scan other than to zero.
- ELF mapping and relocation, versioned symbols, string tables and everything that talks to the kernel.
