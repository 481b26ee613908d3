# What asynchronous calls promise, proved

This project models the asynchronous call framework of the repository and its io_uring
runtime, and proves that what they promise holds on every run.

A function annotated as asynchronous is replaced by a stub. The stub begins a task, takes
its dependency locks, marks the buffers it produces and reads, and submits the call to a
runtime; the program goes on while the kernel works. The promise is that the program
cannot tell: it sees, and leaves, what it would if every call ran to completion first.

The modules follow the program, from the promise down to the arithmetic.

- `Effects` is the common meaning: a call in flight reads its inputs at some moment and
  stores its outputs one at a time, and what is left of a set of calls can be run in order.
- `FilAsync` is the stub the compiler pass emits. `StubProtocol` is a program of such
  stubs, of its own accesses and of waits, as a transition system against a kernel that
  interleaves reads, stores and completions as it likes; here the asynchronous run is
  proved equal to the blocking run. `StubSteps` ties its phases to the emitted calls.
- `LockLog` is the history of dependency-lock requests, with the order theorems over whole
  runs; `LockTable` is the table of hashed locks, counted holders with back links, and
  queues, proved to refine that history operation by operation.
- `MarkSet` is the history of pending marks, with who may own what; `MarkRegistry` is the
  registry of recycled, generation-numbered records on two lists each, and the header
  flags, proved to refine it. `Joins` is groups of pending buffers (`wait_all`).
- `RunningList` is the list of running tasks whose removed nodes keep their links, and the
  walk that asks about all of them. `HandleTable` is the growing table of handles.
- `EffectDag` and `DagRun` are conflicts between declared effects, the edges drawn for
  them, and the executor that runs a batch along the edges; `Unordered` is what becomes of
  a batch without edges.
- `RequestTable`, `RequestLog`, `Rings`, `Tokens`, `Reclaim` and `PendingFds` are the
  request slots, the history of requests, the submission and completion rings, tokens,
  making room when slots run out, and descriptors still being opened. `Polling` is the
  modes of a poll.
- `Arena` is the bump allocator. `Bits` is powers of two, masks and the multiplicative
  hash; `Chains` and `DoubleList` are intrusive lists.

Everything the framework or a runtime changes step by step is a class whose fields change
in place or a loop that changes variables. Records that the program allocates and links by
pointer live in an arena: one sequence per field, a pointer being an index and -1 the null
pointer. What other threads, the runtimes and the kernel do while the mutex is released is
a method that does any number of allowed things; loops that wait are bounded by a patience
that may be any number, so what is proved holds after every number of rounds. The answers
the runtimes have come by are a variable of that environment, and asking a runtime
completes a call that has one.

Where the code and its comments differ the code is followed:

- `fasync_build_dag` returns 0 both when there are no edges and when they do not fit.
  `BuildDag` says exactly when, `RunBatch` what holds when they fit, and `NoRoomExact`
  which declarations can go wrong when they do not.
- `filc_async_mark_input` never waits, so a read after a write is ordered only by the
  runtime's own wait for the buffer before it queues the request.
- A program can collect the request of an annotated read, whose id `fasync_provenance`
  gives away. That call then reports -EINVAL instead of the kernel's answer, as
  `CollectedAway` shows; `taken` in `Reclaim` holds exactly the calls this has happened to,
  and `ReportsAnswer` is about all others.
- The arena's sizes wrap around for requests near the top of the address range.
  `Arena.Alloc` says exactly when the result is good, and `WrapOverruns` gives the request
  for which it is not.

## Model

| member | source | states |
|---|---|---|
| `StubProtocol.BlockingEquivalence` | compiler/pass/FilAsync.cpp:565-595 | For every program of annotated calls, accesses and waits that keeps its declarations, every interleaving of stub steps with kernel reads, stores and completions: what the program has seen at any moment is exactly what it would have seen had each call run to completion in turn, and when all calls have completed memory, resources and results are what the blocking program left |
| `StubProtocol.ConflictsCompleteFirst` | runtime/io_uring/filc_async_uring.c:301-325 | When a call is queued, every earlier call it conflicts with (one may write an object, resource or result the other may touch) has already completed |
| `StubProtocol.QueuedIndependent` | runtime/framework/filc_async.c:613-667 | A call that holds its locks, is alone on its outputs and finds nobody else producing its inputs conflicts with no call that still holds its own locks and marks: covers read after write, write after read and write after write, on objects and on lock keys |
| `StubProtocol.AccessHarmless` | runtime/framework/filc_async.c:709-729 | Once the hook lets the program touch an object (flag clear, or no owner left), no unfinished call writes anything the access reads, nor touches anything it writes; readers of a read-only object may still be running |
| `StubProtocol.NeverStuck` | runtime/framework/filc_async.c:329-379 | Until the program has stopped and every call has completed, some step is possible: a stub or access of a single thread only ever waits for calls the kernel can get on with |
| `StubProtocol.RunKeepsInv` | compiler/pass/FilAsync.cpp:565-595 | In every reachable state: finished calls hold nothing, unfinished ones hold every declared lock and mark, only the current call waits, and running what is left of the queued calls in order completes the blocking run |
| `StubProtocol.KernelKeeps` | runtime/io_uring/filc_async_uring.c:301-325 | Any read or store the kernel makes for any queued call, in any order, leaves the outcome of the whole run as it was |
| `StubProtocol.FinishKeeps` | runtime/framework/filc_async.c:977-1009 | A completion takes away exactly that call's locks and marks and keeps what the others rely on |
| `FilAsync.EmitStub` | compiler/pass/FilAsync.cpp:565-595 | The stub makes exactly the calls its arguments call for, each once: begin, then a lock call for each declared dependency with its space and mode, then an output mark for each bout= or bare buf= argument, then an input mark for each bin= one, each group in argument order, then submit; the sequence is a function of the arguments |
| `FilAsync.OrderDecides` | compiler/pass/FilAsync.cpp:565-595 | Two stubs with the same calls in protocol order are the same sequence: the order leaves no choice |
| `StubSteps.BeginsStub` | compiler/pass/FilAsync.cpp:565-595 | When a call begins, the steps still to be made are those of its whole emitted sequence |
| `StubSteps.FollowsStub` | compiler/pass/FilAsync.cpp:565-595 | Each step of the current call performs the emitted call it stands at and goes on to the next, staying only while it queues for a lock; nothing is skipped, and after the last one the call is submitted |
| `LockLog.OrderOverRuns` | runtime/framework/filc_async.c:329-407 | In every reachable state of any run: of two requests for one key by different tasks, one of them a write, the later is granted only after the earlier one's task completed, and a writer shares its lock with no other task |
| `LockLog.StepKeepsOrder` | runtime/framework/filc_async.c:329-407 | Arrivals, grants and completions each keep the order |
| `LockLog.GrantableIffUnblocked` | runtime/framework/filc_async.c:341-352 | A waiting request passes the tests of the loop if and only if no earlier clashing request of an uncompleted task is left |
| `LockLog.BlockersOverRuns` | runtime/framework/filc_async.c:329-407 | Over any stretch of a run, the set of requests a waiting one waits for never gains a member: later readers never hold up a waiting writer |
| `LockLog.CompletionUnblocks` | runtime/framework/filc_async.c:383-407 | Each completion of a task waited for makes that set strictly smaller |
| `LockLog.NoOvertaking` | runtime/framework/filc_async.c:341-352 | A request that may be granted while a clashing one waits arrived before it |
| `LockLog.OldestMoves` | runtime/framework/filc_async.c:341-352 | The oldest unfinished request for a key either holds the lock or may be granted it now |
| `LockTable.LockTable.RefinesMap` | runtime/framework/filc_async.c:249-297 | The table is a map from keys to holders and a waiter queue: counts are the true numbers of holders and writers, each back link points at the real predecessor link, queues are in order of arrival, each key in use has one lock in the bucket it hashes to, and a lock is free exactly when it has neither holders nor waiters |
| `LockTable.LockTable.LockTake` | runtime/framework/filc_async.c:329-379 | The whole of taking a lock with other threads arriving, being granted and completing while it waits: the history advances only by protocol steps; when the lock is taken every earlier request by another task for the key, one of the two being a write, has been given up, and when it is not yet, such a request is in the way |
| `LockTable.LockTable.Request` | runtime/framework/filc_async.c:329-339 | A request finds or creates the lock of its key and joins the end of that queue |
| `LockTable.LockTable.Get` | runtime/framework/filc_async.c:277-297 | The one lock in use for the key, found, recycled or created |
| `LockTable.LockTable.Find` | runtime/framework/filc_async.c:279-282 | Walking one bucket finds the lock of a key if and only if it is in use |
| `LockTable.LockTable.Conflict` | runtime/framework/filc_async.c:302-312 | Names a holder that really is in the way, and none if and only if no other task holds the lock in a conflicting mode, counts or no counts |
| `LockTable.LockTable.QueuedBehind` | runtime/framework/filc_async.c:344-348 | Whether a conflicting request of another task is ahead in the queue |
| `LockTable.LockTable.Look` | runtime/framework/filc_async.c:341-352 | The request may stop waiting if and only if the whole history lets it be granted; a holder named is one that clashes |
| `LockTable.GrantSeenLocally` | runtime/framework/filc_async.c:302-352 | Looking only at one lock's holders and the queue ahead decides what the whole history decides |
| `LockTable.LockTable.Take` | runtime/framework/filc_async.c:361-378 | The request leaves the queue and becomes the newest holder; every invariant of the table and the order hold again |
| `LockTable.LockTable.GiveUp` | runtime/framework/filc_async.c:383-407 | A completing task gives up exactly what it holds; locks nobody wants are recycled, and the abort for counts out of step cannot happen |
| `LockTable.LockTable.Detach` | runtime/framework/filc_async.c:384-391 | A holder leaves its lock in constant time through its back link |
| `LockTable.LockTable.Recycle` | runtime/framework/filc_async.c:392-404 | An empty lock, and no other, moves from its bucket to the free list; its counts are zero |
| `LockTable.LockTable.Begin` | runtime/framework/filc_async.c:932-953 | A new task holds nothing |
| `MarkSet.OwnershipOverRuns` | runtime/framework/filc_async.c:553-667 | In every reachable state a call has at most one mark on an object, and as long as no runtime shares buffers an object has at most one producer |
| `MarkSet.ProducerAlone` | runtime/framework/filc_async.c:613-640 | When a call has been made a producer, every other mark on the object is a read mark of a call active on the same thread |
| `MarkSet.OutputWins` | runtime/framework/filc_async.c:613-667 | Over any run: once a call has made an object an output or a shared one, every mark it owns on the object, for as long as it lasts and whatever it and others mark in between and after, is a write mark |
| `MarkSet.WriteMarkExact` | runtime/framework/filc_async.c:613-667 | Over any run a mark is a write mark if and only if some step up to now by its owner made that object an output or a shared one while the mark lasts: inputs alone never give one |
| `MarkSet.StepKeepsOneProducer` | runtime/framework/filc_async.c:613-640 | Only sharing can give an object a second producer |
| `MarkSet.EndedForGood` | runtime/framework/filc_async.c:587-611 | Over any stretch of a run a marking that has ended never comes back, and one that has not keeps its object and owner and stays a write mark |
| `MarkRegistry.MarkRegistry.FlagExact` | runtime/framework/filc_async_native.c:30-49 | An object's pending flag is set if and only if it has a write mark, or has a mark and is not read-only |
| `MarkRegistry.MarkRegistry.PlacesExact` | runtime/framework/filc_async.c:465-478 | Each live mark is in exactly the bucket of its lower bound and exactly its owner's list; a free record is on the free list and nowhere else |
| `MarkRegistry.BucketHolds` | runtime/framework/filc_async.c:433-496 | Comparing bounds within one bucket finds exactly the marks of the object, since live objects do not overlap |
| `MarkRegistry.MarkRegistry.Walk` | runtime/framework/filc_async.c:481-542 | Each lookup, by overlap or by lower bound, finds a mark of the wanted kind if and only if the object has one |
| `MarkRegistry.MarkRegistry.AddMark` | runtime/framework/filc_async.c:553-585 | A new marking with a tag never given before; flag, bucket, owner list and free list agree again; the only failure is a generation at its limit |
| `MarkRegistry.MarkRegistry.Upgrade` | runtime/framework/filc_async.c:544-551 | A read mark becomes a write mark, and the flag is set if the object had no producer |
| `MarkRegistry.MarkRegistry.Remove` | runtime/framework/filc_async.c:587-611 | Exactly this marking ends, its record is recycled, and the flag goes with the last mark that calls for it |
| `MarkRegistry.FlaggedEnd` | runtime/framework/filc_async.c:599-605 | Clearing the flag with the last mark, and deciding by readers when the last write mark goes, keeps the flag exact |
| `MarkRegistry.FlaggedAdd` | runtime/framework/filc_async.c:562-563 | Setting the flag only for a first mark, or a first write mark, keeps it exact |
| `MarkRegistry.MarkRegistry.MarkPending` | runtime/framework/filc_async.c:613-640 | One turn under the mutex: it makes the call a producer, or runs into a generation at its limit, if and only if every other mark on the object is a read mark of a call active on the thread; otherwise it names an owner that is in the way or drops a mark the program left; nothing else changes |
| `MarkRegistry.MarkRegistry.MarkShared` | runtime/framework/filc_async.c:642-655 | Another producer beside the others, its own mark upgraded if it has one; nothing else changes |
| `MarkRegistry.MarkRegistry.MarkInput` | runtime/framework/filc_async.c:657-667 | A read mark unless the call has a mark already; never waits, makes no producer, and changes nothing else |
| `MarkRegistry.MarkRegistry.MarkResolved` | runtime/framework/filc_async.c:750-762 | Ends one producing marking of the object if there is one |
| `MarkRegistry.MarkRegistry.ResolveBuffer` | runtime/framework/filc_async.c:764-776 | Ends the task's marking of the object if it has one |
| `MarkRegistry.MarkRegistry.IsPending` | runtime/framework/filc_async.c:778-788 | True if and only if some call still produces the object |
| `MarkRegistry.MarkRegistry.WaitBuffer` | runtime/framework/filc_async.c:672-688 | Names a producer other than the task and the running body, and none if and only if there is none |
| `MarkRegistry.MarkRegistry.OwnAccess` | runtime/framework/filc_async.c:709-716 | Whether an active call owns the object |
| `MarkRegistry.MarkRegistry.WaitAccess` | runtime/framework/filc_async.c:717-729 | Names an owner the access must wait for, never an active call, and none if and only if there is none: every owner, or only producers when an active call owns the object |
| `MarkRegistry.MarkRegistry.NoFlagNoWait` | runtime/framework/filc_async_native.c:30-49 | With the flag clear there is nothing to wait for but readers of an object the program cannot store into |
| `MarkRegistry.MarkRegistry.CompleteMarks` | runtime/framework/filc_async.c:994-995 | A completing call gives up exactly its marks |
| `MarkRegistry.MarkRegistry.NewTask` | runtime/framework/filc_async.c:932-953 | A new task owns no mark |
| `MarkRegistry.SnapshotExact` | runtime/framework/filc_async.c:800-803 | A captured (mark, generation) reads as pending if and only if that very marking still exists, through any recycling and re-marking of the record |
| `Joins.Joins.WaitAll` | runtime/framework/filc_async.c:870-928 | The group captures exactly the markings producing one of the buffers at that moment, each once, within the capacity counted; when there are none no marking, task or group is made; markings made later never join |
| `Joins.Capture` | runtime/framework/filc_async.c:882-915 | The counting pass gives the number of write marks met and the capturing pass fits in it, without duplicates |
| `Joins.MetAre` | runtime/framework/filc_async.c:882-892 | The marks met in the buckets are exactly the write marks of the given buffers |
| `Joins.Joins.TokenOutlives` | runtime/framework/filc_async.c:816-859 | A token's own marking ends only after every marking its group captured has ended, as long as nobody resolves a token by hand |
| `Joins.StepKeepsGroups` | runtime/framework/filc_async.c:816-859 | Whatever other calls and runtimes do short of resolving a token by hand, every group's own marking outlives what it captured, all of it older |
| `Joins.NewGroup` | runtime/framework/filc_async.c:897-925 | A new group's own marking comes after everything it captured, and disturbs no other group |
| `Joins.Joins.JoinPoll` | runtime/framework/filc_async.c:816-859 | A group reported complete has nothing captured left. A poll completes it if nothing is left, and if all that is left can be had by asking: each captured marking belongs to a running call whose runtime has an answer, or to another group of which the same holds. Of everything captured that still exists at the end the producer has been polled, never with BLOCK and with CHECK in a CHECK poll; the recursion through groups of groups goes strictly to older groups |
| `Joins.ReadyLater` | runtime/framework/filc_async.c:816-859 | What a group waits for stays to be had by asking while other calls and runtimes go on |
| `Joins.Joins.OlderGroup` | runtime/framework/filc_async.c:816-838 | A captured marking whose owner is another join belongs to an older group |
| `Joins.Joins.AskOne` | runtime/framework/filc_async.c:823-834 | One entry: its producer is asked, and first, if and only if the marking it captured exists and has a task for an owner; otherwise nobody is asked and nothing changes |
| `Joins.Joins.ProduceWait` | runtime/framework/filc_async.c:613-640 | The whole loop with other threads in between: when it has marked the object, the call produces it and nobody else owns it but active readers of its thread; when it gives up, somebody else still does, or a generation is at its limit |
| `Joins.Joins.AccessWait` | runtime/framework/filc_async.c:709-729 | The whole wait of an access with other threads in between, whether the access is an active call's own being decided once: it ends clear if and only if nobody it has to wait for is left |
| `Joins.Joins.BufferWait` | runtime/framework/filc_async.c:672-688 | The whole wait of a runtime for a buffer: ready if and only if nobody but the task, the running body or the program itself still produces it |
| `Joins.Joins.CompleteTask` | runtime/framework/filc_async.c:977-1009 | A call that completes stops running and gives up exactly its marks, once; a second completion changes neither |
| `RunningList.StepForward` | runtime/framework/filc_async.c:207-219 | From any task a walker can stand on, running or long removed, the next link goes strictly forward in order of creation and skips no task that was running when the walk began and still is |
| `RunningList.RunningList.GetStats` | runtime/framework/filc_async.c:1075-1094 | Every task running when the walk began whose runtime has an answer by then is completed with it and counted, every task running throughout has been polled, and only CHECK polls are made, however others begin, get answers and complete meanwhile; the counts are the numbers of annotated tasks, of completed and of failed ones at the end |
| `RunningList.RunningList.Ask` | runtime/framework/filc_async.c:1080-1085 | Asking a runtime about a task completes the task if there is an answer, and waits for one with BLOCK, with other threads in between |
| `RunningList.RunningList.Complete` | runtime/framework/filc_async.c:977-1009 | The first completion sets result and state and unlinks the task; any later one changes nothing |
| `RunningList.RunningList.Begin` | runtime/framework/filc_async.c:196-205 | The task joins the end of the list |
| `RunningList.StaleRemove` | runtime/framework/filc_async.c:207-219 | Removing a task leaves every removed task's links usable |
| `RunningList.StaleAdd` | runtime/framework/filc_async.c:196-205 | Adding a task leaves every removed task's links usable |
| `RunningList.RunningList.Visit` | runtime/framework/filc_async.c:1080-1085 | One task of the walk: a running one is asked with CHECK and the mutex released, and the next link leads on |
| `RunningList.DoneCounted` | runtime/framework/filc_async.c:989-993 | Completed and failed counts stay the numbers of completed and failed annotated tasks |
| `HandleTable.HandleTable.Find` | runtime/framework/filc_async.c:167-176 | Finds the task with the address if and only if it was added and not retired |
| `HandleTable.HandleTable.Add` | runtime/framework/filc_async.c:156-165 | The task is in the table, everything else as before, the count exact; the table doubles when, and only when, it is full |
| `HandleTable.HandleTable.Retire` | runtime/framework/filc_async.c:181-192 | A completed task leaves the table, a running one keeps its handle |
| `HandleTable.HandleTable.Grow` | runtime/framework/filc_async.c:136-154 | Doubling keeps exactly the same tasks, each in the bucket of the new width, and its only failure is a table too large to allocate |
| `HandleTable.MoveAll` | runtime/framework/filc_async.c:143-151 | Relinking every old bucket into the new table, each link read before it is overwritten, loses and repeats no task |
| `HandleTable.MoveOne` | runtime/framework/filc_async.c:146-149 | One task moves from its old bucket to its new one and nothing else does |
| `Bits.HashBits` | runtime/framework/filc_async.c:124-127 | The hash of any key is a valid bucket index |
| `EffectDag.SharedPlacesConflict` | runtime/io_uring/fasync_dep.c:13-27 | Accesses that share a byte or a resource always count as the same place, since capability ranges only widen the declared ones |
| `EffectDag.AccessConflictExact` | runtime/io_uring/fasync_dep.c:29-73 | The edge test is non-zero if and only if the accesses are at the same place and one writes; it does not depend on their order, though the kind of edge does |
| `EffectDag.SamePlaceExact` | runtime/io_uring/fasync_dep.c:34-58 | Two accesses are at the same place if and only if they name one resource, or their ranges, widened to the capabilities, meet; a range and a resource never are |
| `EffectDag.EdgeKinds` | runtime/io_uring/fasync_dep.c:60-72 | The edge is an output dependence if both write, a true one if only the first writes and the second reads, an anti-dependence if only the second writes and the first reads, and none otherwise |
| `EffectDag.OpsConflict` | runtime/io_uring/fasync_dep.c:75-108 | Operations conflict if and only if some pair of accesses does; and the pair is reported as separated by places alone if and only if some kinds conflict and no pair does |
| `EffectDag.NoConflictIndependent` | runtime/io_uring/fasync_dep.c:75-108 | Operations without a conflict are independent in everything they may read and write |
| `EffectDag.EdgesExact` | runtime/io_uring/fasync_dep.c:119-156 | The edges drawn are exactly the conflicting pairs, from the earlier operation to the later one |
| `EffectDag.EncodeRoundTrip` | runtime/io_uring/fasync_dep.c:137-137 | The packed edge decodes to the pair it was made from, within the square of the number of operations |
| `EffectDag.BuildDag` | runtime/io_uring/fasync_dep.c:110-161 | All the edges in order when they fit, with counts by kind that add up; when they do not fit the result is 0, as it is for no edges |
| `EffectDag.BuiltEdgesCover` | runtime/io_uring/fasync_dep.c:110-161 | The edges drawn order every pair of operations that may not overlap, and all go forward |
| `EffectDag.DrawPair` | runtime/io_uring/fasync_dep.c:122-154 | One pair of the double loop: an edge is stored if and only if the pair conflicts and there is room, counted by the kind of its first conflicting accesses, and a pair that only its places keep apart is counted as such; overflow is noted if and only if it conflicts and there is no room |
| `DagRun.RunDag` | runtime/io_uring/fasync_dep.c:186-287 | Against any kernel: each operation is handed over at most once and only after everything with an edge into it completed; whenever one completes, everything that could start had been handed over or had been refused since the completion before; with covering edges memory ends as if the operations had run one by one in array order; the result is 0 if and only if all completed; with forward edges what did not complete comes after, or is, an operation refused since the last completion, so without refusals it is 0 |
| `DagRun.RunBatch` | runtime/io_uring/fasync_dep.c:110-287 | Building the edges and running along what was built: when the edges fit, memory and resources end as if the operations ran one after the other, nothing that may start is held back, and only a refused operation and what comes after it stay undone |
| `Unordered.NoRoomExact` | runtime/io_uring/fasync_dep.c:131-135 | When the edges do not fit, building returns 0 and the batch runs along none. For any declarations: there are operations so declared, and a run of the kernel, that end in other memory than array order, if and only if two of them may write one place, or one may write what the other, which may write something, may read |
| `Unordered.OrderKept` | runtime/io_uring/fasync_dep.c:131-135 | Operations that do not so interfere end as in array order along no edges, whatever the kernel does first |
| `Unordered.AnyOrder` | runtime/io_uring/fasync_dep.c:186-287 | Along no edges the kernel may run the operations one after the other in any order at all |
| `DagRun.NothingAfterUnfinished` | runtime/io_uring/fasync_dep.c:285-286 | If an operation never completes nothing ordered after it, however far, is ever handed over |
| `DagRun.Run.Complete` | runtime/io_uring/fasync_dep.c:262-273 | In-degrees stay the numbers of edges from operations not yet done; no decrement meets a zero |
| `DagRun.Run.TryStart` | runtime/io_uring/fasync_dep.c:224-237 | An operation is handed over only when no edge into it is open, and only once |
| `DagRun.AfterRefused` | runtime/io_uring/fasync_dep.c:251-255 | When everything that may start has been offered and everything handed over has completed, forward edges lead from an operation refused since the last completion to each one that has not completed |
| `DagRun.GreedySnoc` | runtime/io_uring/fasync_dep.c:221-230 | A completion keeps the promise that nothing startable was held back if everything had been offered; any other event keeps it anyway |
| `DagRun.Run.Step` | runtime/io_uring/fasync_dep.c:222-276 | Every round makes progress or stops, keeps the order and keeps the outcome; it stops for want of work only when all that could start was refused |
| `DagRun.Run.Reap` | runtime/io_uring/fasync_dep.c:257-275 | Completes the first operation found ready, if any |
| `DagRun.StartedInOrder` | runtime/io_uring/fasync_dep.c:222-237 | With covering edges an operation all of whose sources are done may run beside any earlier unfinished one |
| `Effects.KernelMoveKeepsOutcome` | runtime/io_uring/fasync_dep.c:186-287 | A read or a single store by one operation keeps the outcome of all, when every earlier one is finished or independent: the commutation behind all schedules |
| `Effects.ReadEarly` | runtime/io_uring/fasync_dep.c:186-287 | An operation may read past unfinished earlier ones that do not write what it reads |
| `Effects.StoreEarly` | runtime/io_uring/fasync_dep.c:186-287 | It may store past unfinished earlier ones that do not touch that location |
| `Effects.EffectNow` | runtime/framework/filc_async.c:709-729 | An access no unfinished call can tell apart may take place now |
| `RequestTable.RequestTable.Alloc` | runtime/io_uring/fasync.c:186-207 | A free slot, if and only if there is one, under an id that is not 0 and that no request in the table has |
| `RequestTable.RequestTable.ReleaseSlot` | runtime/io_uring/fasync.c:209-218 | Exactly that id leaves the table and the slot is free again |
| `RequestTable.RequestTable.Lookup` | runtime/io_uring/fasync.c:220-230 | Finds a request if and only if the id is that of one in the table, and then its own |
| `RequestTable.RequestTable.Settle` | runtime/io_uring/fasync_native.c:98-101 | The request gets its result and state and keeps its id |
| `RequestTable.RequestTable.constructor` | runtime/io_uring/fasync.c:176-184 | All slots free, on one list |
| `RequestTable.StaleId` | runtime/io_uring/fasync.c:186-230 | A released id finds nothing until its slot is given out again a whole number of turns of the skipping 32-bit counter later, and then exactly so: never before 2^32 - 1 further allocations |
| `RequestTable.GenerationRepeats` | runtime/io_uring/fasync.c:195-198 | Two allocations share a generation if and only if the counter has gone round between them |
| `RequestTable.BumpIsNext` | runtime/io_uring/fasync.c:195-198 | Incrementing and skipping 0 gives the next generation, wrapping included |
| `RequestTable.BitmapMark` | runtime/io_uring/fasync.c:168-174 | The bitmap marks exactly the slots in use |
| `RequestTable.FreeListPop` | runtime/io_uring/fasync.c:187-192 | The free list stays acyclic and holds exactly the free slots |
| `Rings.Rings.Push` | runtime/io_uring/fasync.c:248-319 | A request is queued under a new id with its operands intact, or one of three errors exactly when its cause holds; the ring is never full when a slot is free, so it is never flushed to make room |
| `Rings.Rings.Submit` | runtime/io_uring/fasync.c:336-358 | Everything queued is published once, in the order it was pushed, across wrapping indices |
| `Rings.Enter` | runtime/io_uring/fasync.c:340-352 | Following the index array from its own head the kernel finds exactly the unpublished requests, in order |
| `Rings.SqPush` | runtime/io_uring/fasync.c:248-300 | No unpublished request is overwritten and counters stay in step modulo 2^32 |
| `Rings.FewInFlight` | runtime/io_uring/fasync.c:248-253 | Fewer requests wait to be published than the ring has entries whenever a slot is free |
| `Rings.ConservedReap` | runtime/io_uring/fasync_native.c:79-110 | An answer finds its own pending request, and the number in flight drops by one |
| `Rings.Rings.SettledPosted` | runtime/io_uring/fasync_native.c:90-103 | In every state, every settled request keeps the result the kernel gave for it: the answer goes to the request it names, as done or failed by its sign |
| `RequestLog.LoggedPush` | runtime/io_uring/fasync.c:248-300 | The history stays exact when a request is queued: each allocation queued once, and settled after that exactly when it is not unfinished any more |
| `RequestLog.LoggedSettle` | runtime/io_uring/fasync_native.c:90-103 | The history stays exact when an answer is taken: it settles the last allocation of its slot, which was unfinished |
| `Rings.Rings.Drain` | runtime/io_uring/fasync_native.c:79-110 | Every answer posted is taken once, each settling the request it names; the in-flight counter stays the number of pending slots |
| `Rings.Rings.Park` | runtime/io_uring/fasync_native.c:117-130 | The runtime sleeps only while the kernel has a request to answer, and wakes with at least one more settled |
| `Rings.Rings.ReqWait` | runtime/io_uring/fasync_syscalls.c:195-205 | Waiting for a request publishes it and ends with its own result |
| `Rings.Rings.WaitAll` | runtime/io_uring/fasync.c:378-393 | Returns 0 with nothing in flight: the bound on rounds is never reached |
| `Rings.Rings.Result` | runtime/io_uring/fasync_syscalls.c:207-225 | Collecting a result frees exactly that request; an unknown id is an error and changes nothing |
| `Rings.PlacesApart` | runtime/io_uring/fasync.c:254-255 | Entries fewer than a ring apart have different places |
| `Tokens.Tracker.Issue` | runtime/io_uring/fasync_token.c:54-68 | Before a tagged call is queued every earlier call on its token has been settled unless both only read: with the call added the history still has each such pair in order, whatever happens in between; the queue never exceeds 16 and holds every unfinished tagged call; a call is refused only for an error of its own or a full table |
| `Tokens.Tracker.TokenOrder` | runtime/io_uring/fasync_token.c:54-60 | In every state, of two tagged calls that do not both only read the answer to the earlier one had arrived before the later one was queued, each having been queued once |
| `Tokens.Tracker.Wait` | runtime/io_uring/fasync_token.c:17-32 | Conflicting calls are waited for and only finished ones dropped from the queue, in place: what is left unfinished only reads, and so does the caller; on a token only read so far a read sends nothing and waits for nothing |
| `Tokens.Tracker.Track` | runtime/io_uring/fasync_token.c:35-52 | The call joins the queue, the oldest being waited for and dropped when it is full; with room nothing is waited for |
| `Tokens.Tracker.DropOldest` | runtime/io_uring/fasync_token.c:40-46 | What is dropped to make room has finished |
| `Tokens.FindsIt` | runtime/io_uring/fasync_token.c:22-28 | The id of an unfinished call always finds its own request |
| `Reclaim.Uring.Reclaim` | runtime/io_uring/filc_async_uring.c:250-265 | Says yes if and only if the list is not empty, and then has completed at least its oldest call, and all answered ones up to the first that is not; what is left is a shorter tail of it, every call before that has finished and reported, and no report made earlier changes; if it says no the table is as it was |
| `Reclaim.Uring.Queue` | runtime/io_uring/filc_async_uring.c:268-299 | The call gets a request and joins the list last, or completes with the error that fits, that of a refused descriptor or path included; making room and trying again ends. -EAGAIN for want of room is reported only when the table is full and no call of the runtime holds a slot, and always then; with a free slot the call gets its request. Reports already made stay |
| `Reclaim.Uring.Retry` | runtime/io_uring/filc_async_uring.c:286-295 | Dispatch and making room alternate, each round with a shorter list, until the request is the last one pushed and the call the last of the list, or an error that fits is reported, that of a refused descriptor or path before any other, -EAGAIN for want of room only with the table full and the list empty; reports already made stay |
| `Reclaim.Uring.FinishListed` | runtime/io_uring/filc_async_uring.c:212-227 | A call of the list leaves it, reports once, and its request's id leaves the table; what it reports is the kernel's answer to its own request unless somebody collected that before, and -EINVAL when the id names nothing any more |
| `Reclaim.Uring.Finish` | runtime/io_uring/filc_async_uring.c:212-227 | A call reports once; finishing it again changes nothing and reports already made stay; a listed call whose request has gone reports -EINVAL |
| `Reclaim.Uring.FinishExplicit` | runtime/io_uring/filc_async_uring.c:217-221 | An explicit read keeps its slot for its caller and reports the request's own result |
| `Reclaim.Uring.Collect` | runtime/io_uring/fasync_syscalls.c:207-225 | Any id in the table can be collected, once, and gets the kernel's answer to it; an explicit read's call then reports that result, by poll or by collection, whichever comes first; listed calls that wait for this id, and no others, lose their result |
| `Reclaim.Uring.ExplicitRead` | runtime/io_uring/filc_async_uring.c:229-244 | A read the program starts is registered under its request, outside the list; it fails if and only if it is too long, names the ring's own descriptor or the table is full |
| `Reclaim.Uring.Poll` | runtime/io_uring/filc_async_uring.c:330-361 | Done if and only if the call has finished; a blocking poll of a queued call always finishes it, any poll finishes one whose request has been answered, PROGRESS leaves nothing unpublished behind, CHECK sends nothing for a call that is not done and never finishes an ignored one; reports already made stay, and a listed call whose request has gone reports -EINVAL |
| `Reclaim.Uring.Ready` | runtime/io_uring/fasync_syscalls.c:181-192 | True if and only if the id names a request that has been answered; asking settles at most what has been answered and changes no id |
| `Reclaim.Uring.ReportsAnswer` | runtime/io_uring/filc_async_uring.c:212-227 | In every state, a call with a request that has reported has reported the kernel's answer to that request, unless somebody else collected it |
| `Reclaim.Uring.AnyNumber` | runtime/io_uring/filc_async_uring.c:212-227 | Over any run of queueing, polling, collecting, explicit reads and submitting, the first result a call reports is the one it keeps, and a finished call stays finished |
| `Reclaim.Uring.CollectedAway` | runtime/io_uring/filc_async_uring.c:212-227 | The failing input: an annotated read is queued with a free slot, the program collects its request and gets the kernel's answer, and a blocking poll of the call then reports -EINVAL |
| `PendingFds.PendingFds.New` | runtime/io_uring/fasync_syscalls.c:27-37 | A handle that was not one before, for this open, or -1 if and only if all 64 are taken |
| `PendingFds.PendingFds.Resolve` | runtime/io_uring/fasync_syscalls.c:227-241 | A descriptor is itself; a handle is what its open returned, collected the first time and the same ever after; anything else is -EBADF |
| `PendingFds.PendingFds.Close` | runtime/io_uring/fasync_syscalls.c:122-138 | A close is queued for the descriptor behind the handle; the handle goes with a failed open or a queued close, and no other handle changes; without a full table it is queued unless the descriptor is unknown, failed or the ring's own |
| `PendingFds.HandleRoundTrip` | runtime/io_uring/fasync_syscalls.c:34-44 | Handles and entries correspond one to one, none being -1 |
| `Arena.Arena.Alloc` | runtime/framework/filc_async_arena.c:76-100 | The result is a multiple of the alignment; it lies inside its block if and only if header, size and alignment do not wrap 64 bits, and then it is apart from everything given before; an alignment that is no power of two is refused, and nothing else is unless the collector has no memory |
| `Arena.Arena.Bump` | runtime/framework/filc_async_arena.c:89-99 | The bump pointer moves past the range, in the current block if it fits; after chaining a fresh block the request always fits |
| `Arena.Arena.Dedicated` | runtime/framework/filc_async_arena.c:61-74 | A block of its own, large enough for the worst padding if and only if its size does not wrap |
| `Arena.Arena.ChainNormal` | runtime/framework/filc_async_arena.c:40-51 | A fresh block becomes current and is apart from everything given |
| `Arena.RoundUpExact` | runtime/framework/filc_async_arena.c:68-70 | The mask gives the first multiple of a power of two not below the base |
| `Arena.WrapOverruns` | runtime/framework/filc_async_arena.c:86-91 | The largest size with alignment 1 passes for small, and its range overruns the current block by more than all of user memory |
| `Bits.PowerTest` | runtime/framework/filc_async_arena.c:82-83 | a & (a - 1) is zero if and only if a is a power of two |
| `Bits.AndHigh` | runtime/framework/filc_async_arena.c:90-91 | Masking the low bits off rounds down to a multiple of the power |
| `Bits.AndMask` | runtime/io_uring/fasync.c:254-255 | Masking with one less than a power of two takes the remainder |

## Left out

- The records linked by pointers are modelled in arenas, by index; fields of one record type
  are sequences. What this does not capture is two pointers of different types to one
  address, and records freed and reused by another allocator.
- The kernel reads the inputs of a request at one moment, though it stores outputs one by
  one. A kernel reading them piecemeal would see the same values, as nobody else writes
  them meanwhile.
- System calls, ring setup and their failures: `io_uring_enter` takes what it is told, each
  request taken is answered once, and a sleeping wait ends with an answer.
- Allocation failure, which is fatal, except where it is a result of the arena, the handle
  table and the generation counter.
- Weak memory and compare-and-swap loops: operations under one mutex are atomic.
- Deadlock of several threads taking locks in different orders, and of a body that waits
  for its own output. `NeverStuck` is about one thread.
- How long a wait takes. The kernel may take as long as it likes; a run that ends its
  patience is a run that is still waiting.
- The thread-local stack of active calls and its depth limit: it is a parameter, a list of
  tasks.
- Objects are fixed for a run and not empty; allocating and collecting them is the
  collector's.
- Capturing more marks than fit a size in `wait_all`, and its early memory limits.
- Lock keys of one value declared with two integer widths, noted as unresolved in
  runtime/framework/filc_async.c:314-328.
- `Arena.Alloc`: memory the collector returns ends below 2^47; the free-standing allocator
  interface that replaces the arena is not part of this model.
- `EffectDag.BuildDag`: the counts by kind over the whole batch, beyond their sum; `DrawPair`
  has them pair by pair. Batches whose squared size exceeds 32 bits, which the edge
  codes cannot hold.
- `DagRun.RunDag`: the reported numbers of waves and of operations at once.
- `HandleTable.Add`: tasks with one address; the allocator never returns an address twice.
- `Rings.Push`: the request flags, and the result buffer kept for lookups by address.
- `Reclaim.Uring.Queue`: which operation a call is, whether its shape fits and the error of
  resolving its descriptor or checking its path are parameters; parsing the annotation,
  checking the argument shapes and walking the path are not part of this model.
- `PendingFds.New`: the open itself, whose request is a parameter.
- `StubProtocol.BlockingEquivalence`: one thread, calls that do not call further annotated
  functions, and no buffer shared between requests of a runtime. What a call returns is a
  function of its declared inputs, so a call that fails with -EAGAIN because the program's
  own requests fill the table (runtime/io_uring/filc_async_uring.c:286-295) is outside the
  equivalence.
- `Joins.StepKeepsGroups`: `filc_async_mark_resolved` on the token of a group ends the
  group's own mark at once; wiki/Framework-API.md means it for tests and for marks without
  an owner. The same goes for `Joins.Joins.TokenOutlives`.
- Handing a completed result to the program (`filc_async_poll`, `filc_async_wait`): a lookup
  and a removal in the handle table, both modelled there.
- The statistics, except the task counts; the remote procedure runtime, the demonstrations
  and the probes.
