# Verified protocols of the ublksrv block-device server

ublksrv serves Linux block devices from user space. A queue thread exchanges commands with the
kernel driver over io_uring, hands requests to a target, and returns results. This project models the
parts of it that are protocols over rings, counters, lists and address arithmetic, and proves what they
keep over every run:

- the command loop of a queue in per-tag mode and in batch mode, both refining one protocol of
  deliver, finish and commit (`IoProtocol`, `TagProtocol`, `TagQueue`, `BatchProtocol`, `BatchLayout`,
  `BatchFetch`, `BatchQueue`);
- the asynchronous I/O offload between queue threads and a worker thread, as an interleaved state
  machine, as the worker's loops, and as the intrusive list underneath (`AioProtocol`, `AioStranded`,
  `AioWorker`, `AioList`);
- the NVMe target: queue pair with doorbell batching and phase bits, PRP and SGL construction, address
  translation and the layout of the DMA pool (`NvmeProtocol`, `NvmeQueuePair`, `NvmeDataPointer`,
  `DmaBuf`, `NvmePool`), and its composition with a queue in per-tag mode (`NvmeTags`);
- the NBD target: chained sends, the receive coroutine, reply matching and the reply stream
  (`NbdProtocol`, `NbdConservation`, `NbdQueue`, `NbdReply`, `NbdStream`);
- the words that carry identities through the kernel (`Packing`).

Each protocol is a value-level machine: a `State`, an `Event` for everything either side may do, a partial
`Step`, and a `Run` over a list of events. `Inv` is kept by every step, so a lemma about `Run(n, es)` holds
of every reachable state. Where the code updates fields in place there is also a class on those fields.
The classes `TagQueue.Queue`, `BatchQueue.Queue`, `NvmeQueuePair.QueuePair` and `NbdQueue.Queue` keep a
ghost state and trace that tie each callback to a step of their machine, so the results about all runs are
results about them. `AioWorker.Context`, `AioList.List` and `NvmePool.Allocator` are specified by their own
contents; the interleavings of the first are those of `AioProtocol`. `Common` and `Numeric` hold what the
others share. `dafny verify dfyconfig.toml` checks the project.

## What is assumed of the other side

The guards of `Step` and the preconditions of the environment's methods state these:

- the driver answers each command once (a multishot fetch until it ends), and delivers a tag only while
  it owns it; the target finishes each delivered request once;
- the driver fills the fetch buffer without passing its end, announces every tag it has stored in the next
  CQE, ends the fetch with its last CQE, and stores nothing more until the buffer is given to it again;
- a submission takes everything prepared, and the driver reads a batch buffer when its command is
  submitted and takes all of it;
- the NVMe controller fetches commands in order, posts one completion for each fetched command, in any
  order, and sets the phase bit as section 4.6 of the NVM Express Base Specification 1.4 says;
- hugepage-backed memory is present and physically contiguous within a hugepage;
- the NBD server answers requests it has been sent, with the handle it was given, and a simple reply carries
  data exactly for a read without error;
- the NVMe controller creates a queue iff it supports that many entries;
- asynchronous requests are submitted while the queue thread is handling completions, and the first poll on a
  queue's eventfd finds a submission entry.

## What turned out not to hold

The code is modelled as it is. Each of these has the exact condition under which the expected property
does hold, and most have a concrete case in which it does not.

- An NBD read answered with an error is treated like a success: the coroutine reads data that the server
  does not send (targets/nbd/ublk.nbd.cpp:324-327), and takes the end of a later answer for a reply.
  `NbdStream.ReceivesAsMeantIff`, `NbdStream.OutOfStep`, `NbdStream.ReadErrorExample`.
- Without an IOMMU a PRP list of more than two pages is filled with sequential addresses from the first
  page on; it addresses the right bytes exactly when the buffer stays in its hugepage or the next hugepage
  happens to follow it physically. `NvmeDataPointer.LongPrpWithoutIommu`,
  `NvmePool.PrpsAcrossHugepages`. A ring is given to the controller as one contiguous
  piece, which is right iff every hugepage that starts inside it follows physically.
  `NvmeDataPointer.ContiguousIff`, `NvmePool.RingContiguousWithoutIommu`, `NvmePool.RingAcrossHugepages`.
- An asynchronous request submitted outside completion handling is announced to the worker iff the batch of
  contexts to wake is full without it: otherwise the batch is discarded when the next completions are handled, and
  the request waits until a further request or another wakeup rouses the worker.
  `AioProtocol.BackgroundSubmitIsAnnounced`, `AioProtocol.ReapingForgetsBatch`, `AioProtocol.StaysUnnoticed`,
  `AioProtocol.BackgroundSubmitLost`.
- A queue that is stopping, or finds no submission entry, does not arm the poll on its eventfd again
  (lib/ublksrv.c:261-269). With all threads at rest its requests have all been reported iff the poll is armed or
  its completion list is empty. `AioProtocol.NothingStranded`, `AioProtocol.PollLostIsFinal`,
  `AioStranded.RequestStranded`.
- A context declared queue-wide delivers rightly iff it never meets requests of two queues at once.
  `AioWorker.Context.CompleteWorker`, `AioWorker.QueueWideShortcut`, `AioWorker.TwoQueuesInOne`.
- The queue loop ends by counting commands. In per-tag mode the target may still hold requests, which can be
  told from the IO_FREE flag of their tags (`TagProtocol.DoneMeansNothingOutstanding`,
  `TagProtocol.DoneWhileTargetHolds`); in batch mode results may still be in the current buffer
  (`BatchProtocol.DoneMeansNothingOutstanding`, `BatchProtocol.DoneWithResultInBuffer`).
- In batch mode a fetch that cannot be queued again for want of a submission entry is lost for good: a queue
  that is not stopping can still end iff its fetch is outstanding. `BatchProtocol.CanEndIffFetchOutstanding`,
  `BatchProtocol.FetchLost`.
- In batch mode two buffers are enough iff at most one commit is prepared and not submitted; a result reported
  with two of them waiting overwrites the first. `BatchQueue.Queue.AddComplete`,
  `BatchQueue.TwoCommitsWaiting`.
- In per-tag mode any error answer retires its tag but only ABORT stops the queue: one that is not stopping can
  still end iff some tag is not retired. `TagProtocol.CanEndIffTagLive`, `TagProtocol.AllTagsLost`.
- In batch mode with automatic buffer registration alone, elements are 8 bytes while the command flags
  announce 16 (include/ublk_cmd.h:600-621). `BatchLayout.AnnouncedSizeAgrees`.
- The id of an asynchronous request has 11 bits for the queue, the driver 12. The framework's limit of 32
  queues keeps this from showing. `Packing.AioIdExact`.
- The second attempt of the NBD background call to start deferred requests never starts any
  (targets/nbd/ublk.nbd.cpp:691-699). `NbdProtocol.HangRiskUnreachable`.
- The NVMe target accepts a queue depth equal to the controller's maximum number of queue entries, but its
  rings have one entry more (targets/nvme/ublk.nvme_vfio.cpp:263-281, 2290), so creating them succeeds iff the
  depth is less. `NvmePool.Allocator.CreateQueues`, `NvmePool.DepthAtMaximumRefused`.

## Model

| member | source | states |
|---|---|---|
| `IoProtocol.CommitsAreFinishes` | lib/ublksrv.c:220-235 | in every run, for every tag, the results committed are a prefix of those the target gave, at most one behind, and there was one delivery for each |
| `IoProtocol.StepKeepsTagInv` | lib/ublksrv.c:220-235 | every step keeps, for every tag, the balance of deliveries, results and commits that its owner tells |
| `TagProtocol.StepKeepsInv` | lib/ublksrv.c:151-235 | every call keeps: the flags of each tag say where its exchange is, the in-flight count is the number of commands out, and the run means a run of IoProtocol |
| `TagProtocol.RunKeepsInv` | lib/ublksrv.c:1043-1101 | the invariant holds after every run |
| `TagProtocol.LegalExchange` | lib/ublksrv.c:151-235 | any exchange the protocol automaton accepts has one fetch, first; commands exceed answers by at most one; commits are the target's results in order, each once; results answer deliveries |
| `TagProtocol.TagDiscipline` | lib/ublksrv.c:151-218 | in every run every tag keeps to such an exchange, with a command out exactly when one is unanswered |
| `TagProtocol.RetiredIsFinal` | lib/ublksrv.c:1088-1100 | the automaton accepts nothing after a tag is retired |
| `TagProtocol.RetiredNeverReissued` | lib/ublksrv.c:1088-1100 | a tag retired by an error answer gets no command and no log entry in any continuation of any run |
| `TagProtocol.StepExtendsLog` | lib/ublksrv.c:1075-1078 | logs only grow and the stopping state is never cleared |
| `TagProtocol.RefinesIoProtocol` | lib/ublksrv.c:151-235 | every run means a run of IoProtocol whose events for a tag are exactly what that tag's exchange means, and whose owners are what the flags say |
| `TagProtocol.FlagsClear` | lib/ublksrv.c:210-212 | while the driver or the target has a tag, none of its flags is set |
| `TagProtocol.DoneMeansNothingOutstanding` | lib/ublksrv.c:349-353 | when the loop ends no command is out; a tag's results are all committed iff NEED_COMMIT is clear, and all its delivered requests finished iff IO_FREE is set |
| `TagProtocol.DoneWhileTargetHolds` | lib/ublksrv.c:349-353 | a run of two tags after which the loop condition holds with a request delivered and not finished |
| `TagProtocol.ShutdownStep` | lib/ublksrv.c:1049-1078 | after the stop every answer and completion lowers three for each older command, two for each held request and one for each newer command |
| `TagProtocol.ShutdownTerminates` | lib/ublksrv.c:1049-1101 | so a shutdown run from any reachable state is no longer than that measure |
| `TagProtocol.WorkBound` | lib/ublksrv.c:1049-1101 | the measure is at most three for each tag |
| `TagProtocol.NoWorkMeansDone` | lib/ublksrv.c:349-353 | at measure zero the loop condition holds, given an empty submission ring, and the target has nothing |
| `TagProtocol.CanEnd` | lib/ublksrv.c:1070-1100 | from every reachable state with a tag that is not retired a continuation meets the loop condition |
| `TagProtocol.AllRetiredIsFinal` | lib/ublksrv.c:1088-1100 | with every tag retired no continuation changes the queue |
| `TagProtocol.CanEndIffTagLive` | lib/ublksrv.c:1070-1100 | a queue that is not stopping has a continuation that ends iff some tag is not retired |
| `TagProtocol.AllTagsLost` | lib/ublksrv.c:1088-1100 | a run of two events after which the queue is not stopping and no continuation ends it |
| `TagQueue.Queue.constructor` | lib/ublksrv.c:772-803 | a new queue has every tag free and asking for its first fetch |
| `TagQueue.Queue.QueueIoCmd` | lib/ublksrv.c:151-218 | issues the command the flags ask for, get-data before commit before fetch, clears the flags and counts it; nothing without a submission entry |
| `TagQueue.Queue.CompleteIo` | lib/ublksrv.c:220-235 | is the Complete step, and puts a commit with this result on the ring |
| `TagQueue.Queue.HandleCqe` | lib/ublksrv.c:1043-1101 | is the Cqe step: delivers on OK, asks for data on NEED_GET_DATA, stops on ABORT and stays stopping |
| `TagQueue.Queue.SubmitFetchCommands` | lib/ublksrv.c:333-347 | leaves every tag with one fetch at the driver |
| `TagQueue.Queue.QueueIsDone` | lib/ublksrv.c:349-353 | answers the loop condition; when it holds no command is out and IO_FREE tells of each tag whether its requests are all finished |
| `BatchProtocol.StepKeepsInv` | lib/ublksrv_batch.c:311-445 | every step keeps conservation, distinct waiting tags, the command count and the meaning in IoProtocol |
| `BatchProtocol.RunKeepsInv` | lib/ublksrv_batch.c:296-445 | the invariant holds after every run |
| `BatchProtocol.CommitsKeepOrder` | lib/ublksrv_batch.c:311-333 | what the driver read, then the prepared commits, then the current buffer is the sequence of completions, also when no submission entry was to be had; of the code when each commit is submitted before the one after next |
| `BatchProtocol.BuffersNeverOverrun` | include/ublksrv_priv.h:308-327 | the results waiting in both buffers never exceed the queue depth |
| `BatchProtocol.RefinesIoProtocol` | lib/ublksrv_batch.c:311-370 | every batch run means a run of IoProtocol with the same deliveries, completions and commits; so each tag's results reach the driver once and in order |
| `BatchProtocol.ReadMeans` | lib/ublksrv_batch.c:311-333 | reading a buffer is committing its results one after the other |
| `BatchProtocol.DoneMeansNothingOutstanding` | lib/ublksrv.c:349-353 | when the loop ends no prep, fetch or commit is out, and every result has reached the driver iff the current buffer is empty |
| `BatchProtocol.DoneWithResultInBuffer` | lib/ublksrv.c:1199-1204 | a run that ends with a result in the buffer |
| `BatchProtocol.EndedFetchIsFinal` | lib/ublksrv_batch.c:263-267 | once the fetch has ended unqueued no request ever arrives and the stopping state never changes, in any continuation |
| `BatchProtocol.CanEnd` | lib/ublksrv_batch.c:410-440 | from every reachable state with the fetch outstanding a continuation meets the loop condition |
| `BatchProtocol.CanEndIffFetchOutstanding` | lib/ublksrv_batch.c:263-267 | a queue that is not stopping has a continuation that ends iff its fetch is outstanding |
| `BatchProtocol.FetchLost` | lib/ublksrv_batch.c:426-431 | a run of one event that loses the fetch |
| `BatchProtocol.FetchStaysArmed` | lib/ublksrv_batch.c:410-434 | the fetch stays outstanding in every step but a failure or a rearm without an entry |
| `BatchFetch.PutThenRead` | lib/ublksrv_batch.c:352-364 | a two-byte tag is read back as stored and no other place changes |
| `BatchFetch.NewFetch` | lib/ublksrv_batch.c:93-120 | a new buffer is empty, its offset 0 and nothing stored |
| `BatchFetch.StoreTagKeeps` | lib/ublksrv_batch.c:259-261 | storing a tag keeps the buffer equal to the history of stored tags |
| `BatchFetch.PostCqeKeeps` | lib/ublksrv_batch.c:276-286 | every stored tag is announced by exactly one CQE, and nothing follows the one that ends the fetch |
| `BatchFetch.HandleFrontKeeps` | lib/ublksrv_batch.c:336-370 | handling the CQEs in order tiles the buffer from 0 without gap or overlap, and the one that ends the fetch leaves nothing unhandled |
| `BatchFetch.TagOfRun` | lib/ublksrv_batch.c:352-364 | the bytes at the offset are the next tags of the history |
| `BatchFetch.RearmKeeps` | lib/ublksrv_batch.c:252-293 | the tiling restarts at 0 and the history goes on |
| `BatchLayout.ElementFitsItsBytes` | include/ublksrv_priv.h:315-326 | in every mode an element fills exactly its own 8 or 16 bytes |
| `BatchLayout.AnnouncedSizeAgrees` | lib/ublksrv_batch.c:27-35 | the size the command flags announce is the size used, iff automatic buffer registration is not used alone |
| `BatchLayout.RoundUp` | include/ublksrv_utils.h:76-77 | the result is a whole number of pages, at least the argument and less than a page above it |
| `BatchLayout.StagedUntouched` | lib/ublksrv_batch.c:330-332 | what the driver is about to read does not change with a buffer that no prepared commit names |
| `BatchLayout.StagedTouched` | lib/ublksrv_batch.c:330-332 | it does change with the first element of a buffer that one names |
| `BatchLayout.CapacityCoversDepth` | lib/ublksrv_batch.c:38-45 | each commit buffer holds a result of every tag, the fetch buffer every tag, and the counts fit 16 bits |
| `BatchQueue.Queue.constructor` | lib/ublksrv_batch.c:61-134 | the buffers have the computed sizes, enough for every tag; the prep buffer lists every tag once in order with its index or buffer, and two commands are counted |
| `BatchQueue.Queue.AddComplete` | include/ublksrv_priv.h:308-327 | is the Complete step; the element lands inside the current buffer, and what the driver is about to read stays as it was iff at most one commit is waiting to be submitted |
| `BatchQueue.Queue.SubmitCommit` | lib/ublksrv_batch.c:311-333 | is the SubmitCommit step, also with a commit still waiting: the command names the filled buffer and its count, and without results or an entry nothing changes |
| `BatchQueue.Queue.SubmitRing` | lib/ublksrv_batch.c:180-216 | what the driver reads is the prepared results in order, each with the index or buffer of its tag |
| `BatchQueue.Queue.StartRound` | lib/ublksrv.c:1199-1206 | after the commit and submission of a round every completion so far has been read, unless there was no entry, and then none is lost |
| `BatchQueue.Queue.DriverStore` | lib/ublksrv_batch.c:252-293 | the driver extends the history by a tag it owns, or one that names no request |
| `BatchQueue.Queue.HandleTag` | lib/ublksrv_batch.c:353-364 | one tag reaches the target, which may finish it at once, and no other tag moves |
| `BatchQueue.Queue.HandleNext` | lib/ublksrv_batch.c:353-364 | with one more tag of the history handled, the deliveries are still exactly its tags that name a request, in order |
| `BatchQueue.Queue.HandleTags` | lib/ublksrv_batch.c:336-370 | the loop over the bytes of a CQE handles exactly its run, in order, and moves the offset past it |
| `BatchQueue.Queue.QueueFetch` | lib/ublksrv_batch.c:252-293 | counts the ended fetch out and, with an entry, the new one in on an empty buffer |
| `BatchQueue.Queue.HandleRun` | lib/ublksrv_batch.c:410-434 | over any series of CQEs and rearms the deliveries are the tags ever stored and handled so far that name a request, each once and in order; this CQE adds its run, and the fetch is queued again iff it was the last |
| `BatchQueue.Queue.EndRun` | lib/ublksrv_batch.c:426-431 | the fetch is counted out and queued again on an empty buffer iff the CQE was its last and there is an entry |
| `BatchQueue.Queue.HandleFetchError` | lib/ublksrv_batch.c:410-434 | nothing stored is left unhandled; a full buffer is rearmed, any other error stops the queue |
| `BatchQueue.Queue.HandleCommitCqe` | lib/ublksrv_batch.c:436-440 | counts the prep or commit command out |
| `BatchQueue.Queue.QueueIsDone` | lib/ublksrv.c:349-353 | true iff stopping with no entry of any kind on the ring and a zero counter; then no command is outstanding and every tag the driver ever stored for a request has been delivered |
| `BatchQueue.TwoCommitsWaiting` | lib/ublksrv_batch.c:330-332 | a queue with two commits waiting in which a third result changes what the driver is about to read |
| `AioProtocol.StepKeepsWakeInv` | lib/ublksrv_aio.c:11-52 | every step of every thread keeps: a non-empty submit list means the worker will look at it, its eventfd is signalled, or some queue thread still owes the signal |
| `AioProtocol.StepKeepsEventInv` | lib/ublksrv_aio.c:88-109 | every step keeps: a non-empty completion list of a queue means its event is pending or the worker is about to send it |
| `AioProtocol.StepKeepsRouteInv` | lib/ublksrv_aio.c:68-110 | every step keeps every request with its own queue, and finishes it there with its own tag |
| `AioProtocol.StepConserves` | lib/ublksrv_aio.c:11-110 | every step keeps each accepted request in exactly one place |
| `AioProtocol.Partition` | lib/ublksrv_aio.c:91-109 | splitting a list by queue loses and invents nothing |
| `AioProtocol.RunKeepsInv` | lib/ublksrv_aio.c:11-243 | all of these hold in every interleaving |
| `AioProtocol.NoLostWakeup` | lib/ublksrv_aio.c:177-212 | in every interleaving, if the worker waits on a silent eventfd and a request waits for it, a queue thread still owes the write |
| `AioProtocol.RunKeepsIdleWorker` | lib/ublksrv_aio.c:11-52 | a worker that blocks has nothing of its own left |
| `AioProtocol.NothingStranded` | lib/ublksrv_aio.c:11-243 | when all threads are at rest, a queue's accepted requests are all reported, on that queue with their own tags, or still with the asynchronous back end, iff its poll is armed or its completion list is empty |
| `AioProtocol.PollLostIsFinal` | lib/ublksrv.c:255-275 | a poll not armed again stays lost and what is on the completion list stays on it, in every continuation |
| `AioStranded.RequestStranded` | lib/ublksrv.c:255-300 | for every request of the queue, a run that ends with all threads at rest, that request on the completion list, the poll not armed and nothing reported |
| `AioProtocol.BackgroundSubmitIsAnnounced` | lib/ublksrv_aio.c:177-212 | whatever the other threads are doing, a submission outside completion handling is announced now or later iff the batch is full and the context not in it |
| `AioProtocol.ReapingForgetsBatch` | lib/ublksrv.c:1206-1210 | when the thread next handles completions after such a submission it owes the worker nothing, its batch is empty and the eventfd is as the submission left it |
| `AioProtocol.StaysUnnoticed` | lib/ublksrv.c:1206-1210 | a request the worker has not been told of stays so in every continuation without a further request or a wakeup for another reason |
| `AioProtocol.BackgroundSubmitLost` | lib/ublksrv.c:1206-1210 | with the worker blocked after its first pass, a background submission stays on the list unnoticed in every such continuation |
| `AioWorker.OthersKeepOrder` | lib/ublksrv_aio.c:96-108 | splitting off one queue leaves every other queue's requests in order |
| `AioWorker.OthersAreFewer` | lib/ublksrv_aio.c:91-109 | the two parts add up, and the first request's queue is never empty, so the pass ends |
| `AioWorker.OnlyOneQueue` | lib/ublksrv_aio.c:78-86 | a list of one queue's requests is that queue's part of it |
| `AioWorker.DrainList` | lib/ublksrv_aio.c:26-41 | every request is submitted once in order, and those not left in flight are appended to the done list |
| `AioWorker.Context.SubmitWorker` | lib/ublksrv_aio.c:11-52 | whatever is added or written meanwhile: ends with an empty list, everything added so far submitted in order, and an eventfd that holds exactly the writes since its last read |
| `AioWorker.Context.CompleteWorker` | lib/ublksrv_aio.c:68-110 | each queue's list grows by exactly its own requests in order, with one event for each queue present, iff the context is not queue-wide or all requests are of one queue; otherwise all go to the first one's queue |
| `AioWorker.Context.CompleteByQueue` | lib/ublksrv_aio.c:88-109 | the partition pass delivers to every queue what is its own, and ends |
| `AioWorker.Context.HandleEvent` | lib/ublksrv_aio.c:225-243 | every request on the queue's list is completed once, in order, under its own tag; the poll is armed again iff the queue is not stopping and there is an entry; no other queue's list or event changes |
| `AioWorker.SplitQueue` | lib/ublksrv_aio.c:96-104 | the inner loop is a stable partition by queue |
| `AioWorker.QueueWideShortcut` | lib/ublksrv_aio.c:78-86 | moving the whole list to the first request's queue is the partition iff all requests are of that queue |
| `AioWorker.TwoQueuesInOne` | lib/ublksrv_aio.c:78-86 | a queue-wide context with a request of each of two queues delivers both to the first |
| `AioWorker.AddCtxForSubmit` | lib/ublksrv_aio.c:177-193 | a context is noted once, and refused only when the batch is full of others |
| `AioList.ChainConcat` | include/ublksrv_aio.h:69-83 | linking the last node of one chain to the first of a disjoint one gives one acyclic null-terminated chain |
| `AioList.List.constructor` | include/ublksrv_aio.h:53-56 | a new list is empty and well linked |
| `AioList.List.Init` | include/ublksrv_aio.h:53-56 | the list is empty |
| `AioList.List.Add` | include/ublksrv_aio.h:58-67 | appends, keeping the links, head and tail right |
| `AioList.List.Splice` | include/ublksrv_aio.h:69-83 | appends the whole of another list and leaves that one empty |
| `AioList.List.Empty` | include/ublksrv_aio.h:85-88 | tells whether the list is empty |
| `AioList.List.Pop` | include/ublksrv_aio.h:90-103 | removes and unlinks the first node, null when there is none |
| `NvmeProtocol.StepKeepsInv` | targets/nvme/ublk.nvme_vfio.cpp:1361-1414 | every step of driver or controller keeps the order of the four positions and one outstanding command for each tag |
| `NvmeProtocol.RunKeepsInv` | targets/nvme/ublk.nvme_vfio.cpp:1361-1503 | the invariant holds after every run of both |
| `NvmeProtocol.PendingBound` | targets/nvme/ublk.nvme_vfio.cpp:1370-1393 | never more than 31 unannounced commands, nor more than the ring size less 2 |
| `NvmeProtocol.OutstandingCount` | targets/nvme/ublk.nvme_vfio.cpp:1448-1503 | the commands not handled to the end are the submitted less the consumed, at most one for each tag |
| `NvmeProtocol.FetchedCoversConsumed` | targets/nvme/ublk.nvme_vfio.cpp:1448-1503 | consumed, posted, fetched and submitted stay in this order |
| `NvmeProtocol.RoomForSubmit` | targets/nvme/ublk.nvme_vfio.cpp:2289-2294 | with a free tag the slot to be written is none that is still to be fetched |
| `NvmeProtocol.SubmitNeverOverwrites` | targets/nvme/ublk.nvme_vfio.cpp:1370-1393 | in every run a command about to be written goes to a slot that holds no unfetched command |
| `NvmeProtocol.PostNeverOverwrites` | targets/nvme/ublk.nvme_vfio.cpp:1396-1414 | in every run a completion about to be posted goes to a slot that holds no unconsumed completion |
| `NvmeProtocol.EveryTagAnsweredOnce` | targets/nvme/ublk.nvme_vfio.cpp:1448-1503 | in every run a tag's submissions exceed its handled completions by one or none |
| `NvmeProtocol.TagBalance` | targets/nvme/ublk.nvme_vfio.cpp:1448-1503 | the difference is exactly whether the tag is busy |
| `NvmeTags.StepKeepsInv` | targets/nvme/ublk.nvme_vfio.cpp:2370-2420 | with the queue and the device running together every step keeps both invariants and their agreement |
| `NvmeTags.BusyIffHeld` | targets/nvme/ublk.nvme_vfio.cpp:1448-1503 | in every joint run a command is under way exactly for the tags whose request the target has |
| `NvmeTags.DeliveredCanBeSubmitted` | targets/nvme/ublk.nvme_vfio.cpp:2370-2400 | in every joint run a delivered request finds its identifier free, so what the queue pair assumes of a submission holds |
| `NvmeTags.CompletedCanBeFinished` | targets/nvme/ublk.nvme_vfio.cpp:1448-1503 | in every joint run a waiting completion is of a request the target has, so what the queue assumes of a completion holds |
| `NvmeQueuePair.SqSubmit` | targets/nvme/ublk.nvme_vfio.cpp:1370-1393 | writing at the wrap-around tail is appending to the command history |
| `NvmeQueuePair.SqFlushTests` | targets/nvme/ublk.nvme_vfio.cpp:1370-1393 | the modular pending count is the number of unannounced commands, and the ring-full test is that number reaching the ring size less 1 |
| `NvmeQueuePair.SqFetch` | targets/nvme/ublk.nvme_vfio.cpp:1361-1368 | the doorbell differs from the controller's head iff a command is to be fetched, and the slot holds it |
| `NvmeQueuePair.CqPending` | targets/nvme/ublk.nvme_vfio.cpp:1396-1402 | the phase bit at the head matches iff a completion is waiting, and the slot then holds it |
| `NvmeQueuePair.CqConsume` | targets/nvme/ublk.nvme_vfio.cpp:1404-1414 | head and phase follow the absolute position across the wrap |
| `NvmeQueuePair.CqPost` | targets/nvme/ublk.nvme_vfio.cpp:1396-1414 | a posted completion reaches its slot and leaves all waiting ones and all stale phases as they were |
| `NvmeQueuePair.QueuePair.constructor` | targets/nvme/ublk.nvme_vfio.cpp:875-923 | zeroed rings with phase 1 show no completion |
| `NvmeQueuePair.QueuePair.SubmitCmd` | targets/nvme/ublk.nvme_vfio.cpp:1370-1393 | is the Submit step on the ring, and leaves at most 31 commands, and never a full ring, unannounced |
| `NvmeQueuePair.QueuePair.FlushSq` | targets/nvme/ublk.nvme_vfio.cpp:1361-1368 | announces everything submitted |
| `NvmeQueuePair.QueuePair.CqePending` | targets/nvme/ublk.nvme_vfio.cpp:1396-1402 | true iff a completion has been posted and not consumed |
| `NvmeQueuePair.QueuePair.ConsumeCqe` | targets/nvme/ublk.nvme_vfio.cpp:1404-1414 | hands on the oldest unconsumed completion, none skipped, repeated or stale |
| `NvmeQueuePair.QueuePair.ControllerFetch` | targets/nvme/ublk.nvme_vfio.cpp:1361-1368 | the controller sees the submitted commands in order, each once |
| `NvmeQueuePair.QueuePair.ControllerPost` | targets/nvme/ublk.nvme_vfio.cpp:1396-1402 | a completion of any fetched command can be posted without looking at the driver's head |
| `NvmeQueuePair.QueuePair.PollCq` | targets/nvme/ublk.nvme_vfio.cpp:1448-1503 | handles exactly the posted completions in order, leaves the ring empty, and ends although the controller goes on posting |
| `NvmeQueuePair.QueuePair.HandleIoBackground` | targets/nvme/ublk.nvme_vfio.cpp:2402-2413 | announces everything, has handled everything posted when it returns, and ends |
| `NvmeDataPointer.DecodeSequential` | targets/nvme/ublk.nvme_vfio.cpp:1537-1560 | a list of sequential pages reads as one run of bytes |
| `NvmeDataPointer.TwoPages` | targets/nvme/ublk.nvme_vfio.cpp:1525-1536 | a buffer on two pages is the bytes of both, each looked up by itself |
| `NvmeDataPointer.PrpParts` | targets/nvme/ublk.nvme_vfio.cpp:1525-1536 | a mapped buffer always has its second page, at a page start, and the two entries address the bytes of both |
| `NvmeDataPointer.AroundBoundary` | targets/nvme/ublk.nvme_vfio.cpp:1616-1619 | the next hugepage boundary separates exactly the bytes of two hugepages |
| `NvmeDataPointer.TwoHugepages` | targets/nvme/ublk.nvme_vfio.cpp:1610-1645 | a buffer up to a hugepage long is two physically contiguous parts split at the boundary |
| `NvmeDataPointer.LongPrpWithoutIommu` | targets/nvme/ublk.nvme_vfio.cpp:1537-1560 | sequential addresses from the first byte are the buffer's bytes iff it stays in its hugepage or the next one follows physically |
| `NvmeDataPointer.ContiguousIff` | targets/nvme/ublk.nvme_vfio.cpp:1537-1560 | a buffer of any length is addressed rightly by its first byte's address alone iff every hugepage that starts inside it follows physically |
| `NvmeDataPointer.FillPrpList` | targets/nvme/ublk.nvme_vfio.cpp:1551-1559 | succeeds iff 512 entries suffice, and then the list reads as the rest of the transfer |
| `NvmeDataPointer.SetupPrps` | targets/nvme/ublk.nvme_vfio.cpp:1506-1563 | fails iff the transfer needs more than one list page or, without an IOMMU, its second page has no translation, so never for 2 MiB with an IOMMU; otherwise the entries, read as section 4.3 of the NVM Express Base Specification 1.4 says, are exactly the transfer's bytes |
| `NvmeDataPointer.SegmentTest` | targets/nvme/ublk.nvme_vfio.cpp:1593-1597 | comparing hugepage numbers finds exactly the buffers that cross a boundary |
| `NvmeDataPointer.SetupSgl` | targets/nvme/ublk.nvme_vfio.cpp:1575-1656 | the one or two descriptors address byte k of the buffer at the translation of its address plus k, for every k; fails iff the second part has no translation |
| `DmaBuf.VirtToPhysInPool` | targets/dma_buf.c:89-122 | inside a hugepage-backed pool the lookup succeeds and keeps the offset in the page |
| `DmaBuf.VirtToPhysErrors` | targets/dma_buf.c:97-117 | the lookup is the error value iff there is no page map, the address is outside, or the page is not present |
| `DmaBuf.FramesConsecutive` | targets/dma_buf.c:109-121 | page frames within a hugepage are consecutive |
| `DmaBuf.PhysicallyContiguous` | targets/dma_buf.c:89-122 | within a hugepage physical addresses run in step with virtual ones |
| `NvmePool.PageAlign` | targets/nvme/ublk.nvme_vfio.cpp:784-798 | the least multiple of the page size not below the argument |
| `NvmePool.BlocksDisjoint` | targets/nvme/ublk.nvme_vfio.cpp:724-822 | all rings, PRP pages, I/O buffers and the identify page are pairwise disjoint and inside the pool, for all sizes |
| `NvmePool.BlocksPageAligned` | targets/nvme/ublk.nvme_vfio.cpp:724-822 | every one of them starts on a page |
| `NvmePool.IntProductsFit` | targets/nvme/ublk.nvme_vfio.cpp:800-817 | for accepted parameters the products computed in int do not overflow |
| `NvmePool.Allocator.constructor` | targets/nvme/ublk.nvme_vfio.cpp:724-776 | nothing is allocated or mapped yet |
| `NvmePool.Allocator.AllocQueueBuf` | targets/nvme/ublk.nvme_vfio.cpp:784-798 | takes the next aligned piece, or fails iff it would pass the end of the region |
| `NvmePool.Allocator.GetIova` | targets/nvme/ublk.nvme_vfio.cpp:441-457 | with an IOMMU all address ranges handed out stay pairwise disjoint; without one the address is the physical one, 0 if there is none |
| `NvmePool.Allocator.QueueInit` | targets/nvme/ublk.nvme_vfio.cpp:875-907 | succeeds iff the region has room for both rings and both get an address, and then puts one right after the other |
| `NvmePool.Allocator.CreateIoQueue` | targets/nvme/ublk.nvme_vfio.cpp:1197-1241 | succeeds iff the rings can be set up and the controller accepts their size |
| `NvmePool.Allocator.CreateQueues` | targets/nvme/ublk.nvme_vfio.cpp:2289-2294 | succeeds iff every ring gets an address and the depth is less than the controller's maximum; then each ring is where the layout says and the region is used up exactly |
| `NvmePool.DepthAtMaximumRefused` | targets/nvme/ublk.nvme_vfio.cpp:263-281 | parameters that pass the checks and whose queues the controller refuses |
| `NvmePool.BackedPoolMaps` | targets/nvme/ublk.nvme_vfio.cpp:446-449 | in a hugepage-backed pool without page frame 0 every piece gets an address |
| `NvmePool.RingContiguousWithoutIommu` | targets/nvme/ublk.nvme_vfio.cpp:1209-1226 | without an IOMMU the address given for a ring, of any length, is right for all of it iff every hugepage that starts inside it follows physically |
| `NvmePool.RingAcrossHugepages` | targets/nvme/ublk.nvme_vfio.cpp:735-746 | accepted parameters and a pool in which a ring lies across a boundary and a byte of it is addressed wrongly |
| `NvmePool.PrpsAcrossHugepages` | targets/nvme/ublk.nvme_vfio.cpp:1537-1560 | the I/O buffer of accepted parameters lies across a boundary: its PRP entries are built without error and address wrong bytes |
| `NbdProtocol.StartKeeps` | targets/nbd/ublk.nbd.cpp:202-240 | starting a request keeps the queued sends linked, distinct and of requests in flight, the last one known, and both counters exact |
| `NbdProtocol.ImmediateKeepsInv` | targets/nbd/ublk.nbd.cpp:508-524 | a request that arrives with no chain at the kernel joins the chain being built, and the invariant is kept |
| `NbdProtocol.DeferKeepsInv` | targets/nbd/ublk.nbd.cpp:508-524 | one that arrives with a chain at the kernel is deferred once, and the invariant is kept |
| `NbdProtocol.StepKeepsInv` | targets/nbd/ublk.nbd.cpp:503-714 | every callback keeps the chain, counter, deferral and receive invariants |
| `NbdProtocol.RunKeepsInv` | targets/nbd/ublk.nbd.cpp:503-714 | they hold after every run of rounds |
| `NbdProtocol.SendsNeverInterleave` | targets/nbd/ublk.nbd.cpp:148-200 | in every submission of every run the sends are one run of entries with nothing between them, linked on all but the last, and no earlier send is without its CQE |
| `NbdProtocol.RingNeverFills` | targets/nbd/ublk.nbd.cpp:832-834 | a ring of depth + 1 entries always has room, so no chain is ever submitted in halves |
| `NbdProtocol.DeferredWaitForChain` | targets/nbd/ublk.nbd.cpp:607-628 | after every background call a deferred request is in next_chain and a CQE of the active chain is still to come |
| `NbdProtocol.DeferredStartWhenChainIsDone` | targets/nbd/ublk.nbd.cpp:607-628 | once those CQEs have come the next background call starts every deferred request |
| `NbdProtocol.DeferralHappens` | targets/nbd/ublk.nbd.cpp:508-524 | a run in which a request is deferred, so the two results above are about something |
| `NbdProtocol.HangRiskUnreachable` | targets/nbd/ublk.nbd.cpp:691-705 | in every run the second start attempt changes nothing and the hang warning is not reached |
| `NbdProtocol.SecondSendBgIsNoOp` | targets/nbd/ublk.nbd.cpp:691-699 | with the invariant of the first half, starting again changes nothing |
| `NbdProtocol.RecvSlotIsFree` | targets/nbd/ublk.nbd.cpp:587-602 | a receive CQE never finds the slot for it taken, and the coroutine to resume exists |
| `NbdProtocol.RecvRunsWhileInFlight` | targets/nbd/ublk.nbd.cpp:439-500 | after a background call without an error the receive coroutine runs iff some request is in flight |
| `NbdProtocol.GoodRepliesKeepLoop` | targets/nbd/ublk.nbd.cpp:439-500 | only a bad reply leaves the receive loop early |
| `NbdProtocol.UnlinkMakesOneChain` | targets/nbd/ublk.nbd.cpp:624-627 | taking the link off the last send makes the queued sends one chain |
| `NbdConservation.EachSentAndCompletedOnce` | targets/nbd/ublk.nbd.cpp:202-255 | in every run, for every tag, each request that arrived is sent once or deferred, and completed once or the one still with the target |
| `NbdQueue.Queue.constructor` | targets/nbd/ublk.nbd.cpp:716-734 | a new queue is the initial state |
| `NbdQueue.Queue.HandleIoAsync` | targets/nbd/ublk.nbd.cpp:508-524 | is the Arrive step; the request is sent now only if no send of an earlier chain is without its CQE, and deferred only if one is |
| `NbdQueue.Queue.SendReqDone` | targets/nbd/ublk.nbd.cpp:531-570 | is the SendCqe step, a zero-copy notification none; the chain is idle once its last CQE has come |
| `NbdQueue.Queue.RecvDone` | targets/nbd/ublk.nbd.cpp:572-605 | is the RecvCqe step, finds the slot for the CQE free, and touches no submission entry |
| `NbdQueue.Queue.StartDeferred` | targets/nbd/ublk.nbd.cpp:610-622 | starts all deferred requests in order and empties the list |
| `NbdQueue.Queue.HandleRecv` | targets/nbd/ublk.nbd.cpp:439-500 | deals with everything received in order, then ends or waits with one receive command |
| `NbdQueue.Queue.HandleIoBg` | targets/nbd/ublk.nbd.cpp:668-714 | is the Background step; afterwards a deferred request waits for sends whose CQEs are to come, and without an error the receive coroutine runs iff requests are in flight |
| `NbdQueue.Queue.SubmitSq` | targets/nbd/ublk.nbd.cpp:656-667 | what is submitted fits the ring, its sends are one linked chain, and no earlier send is outstanding if there are any |
| `NbdReply.HandleExact` | targets/nbd/ublk.nbd.cpp:106-124 | a handle gives back its cookie, queue and tag |
| `NbdReply.CookieCountsUses` | targets/nbd/ublk.nbd.cpp:229-231 | over any run of requests, from any initial value, a tag's cookie has grown by the number of its uses modulo 2^32 |
| `NbdReply.PassesIffCurrent` | targets/nbd/ublk.nbd.cpp:275-322 | a reply passes the checks iff it has the magic and the handle of the current use of one of this queue's tags |
| `NbdReply.StaleReplyRefused` | targets/nbd/ublk.nbd.cpp:297-322 | the reply to an earlier use passes iff its tag has been used a multiple of 2^32 times since, so over fewer uses it never does |
| `NbdReply.DoRecv` | targets/nbd/ublk.nbd.cpp:404-430 | what the non-blocking attempts put in the buffer, followed by what the queued receive asks for, is the next len bytes of the stream |
| `NbdStream.DecodeInvertsEncode` | targets/nbd/ublk.nbd.cpp:275-300 | the sixteen bytes of a reply give back its magic, error and handle |
| `NbdStream.TurnTakesAnswer` | targets/nbd/ublk.nbd.cpp:439-500 | a turn on an answer takes exactly its bytes, finds its request through the handle, and ends it with the result and data sent |
| `NbdStream.TurnOnReadError` | targets/nbd/ublk.nbd.cpp:324-327 | a turn on a read answered with an error waits for data, or takes what follows for it and ends the read as a success |
| `NbdStream.ReceivesAsMeantIff` | targets/nbd/ublk.nbd.cpp:439-500 | over any series of answers the coroutine ends every request in order with the result and data meant for it, iff no read is answered with an error |
| `NbdStream.OutOfStep` | targets/nbd/ublk.nbd.cpp:324-327 | after such an error, for reads of any length, the next answer is taken for the read's data, reply first, and what is left of it or after it for the next reply |
| `NbdStream.ReadErrorExample` | targets/nbd/ublk.nbd.cpp:324-327 | two answers on which the first read succeeds with wrong data and the loop is left with -EPROTO |
| `NbdStream.StreamDrivesLoop` | targets/nbd/ublk.nbd.cpp:439-500 | the receive loop of NbdProtocol, driven by the bytes of such answers, finishes exactly the requests answered, in that order, and goes on reading |
| `Packing.RouteInvertsUserData` | include/ublksrv.h:367-388 | every completion is routed to what it was submitted for: driver command, target I/O or internal event, with its tag, operation and data |
| `Packing.UserDataInjective` | include/ublksrv_priv.h:335-350 | words of different origins never collide, across all classes |
| `Packing.AioIdExact` | include/ublksrv_aio.h:28-34 | an id names its queue and tag iff they fit 11 and 13 bits |
| `Packing.AioIdsOfTwoQueues` | include/ublksrv_aio.h:28-34 | queues 0 and 2048 share every id |
| `Packing.PosExact` | include/ublksrv.h:390-397 | a position gives back tag and offset always, and the queue iff it fits 12 bits |

## Left out

- NbdProtocol.StepKeepsInv: covers per-tag command mode without NEED_GET_DATA and request types that NBD has a command for; other types are completed inside handle_io_async without having been counted in flight, and other commands would fall between the sends.
- NbdQueue.Queue.EndChain: leaves an entry that is not a send alone, where the code goes through last_send_sqe unconditionally; the invariant makes the two the same.
- NbdReply.DoRecv: a receive that fails with -EAGAIN after part of a message has arrived starts over at the beginning of the message, and is not modelled.
- BatchProtocol.StepKeepsInv: a commit the driver takes only in part is logged by the code and not sent again; the model assumes it is taken whole.
- BatchQueue.Queue.HandleRun: requires at most one commit waiting to be submitted if the target reports results on the spot, which the submission before each reaping gives; AddComplete says what happens otherwise.
- AioProtocol.RunKeepsInv: models one context with a shared list for each queue; the shortcut for queue-wide contexts is in AioWorker, and result values are not modelled.
- AioWorker.SplitQueue: works on sequences; the list operations it uses are proved on the heap in AioList.
- TagProtocol.ShutdownTerminates: assumes that commands issued after the stop are answered with ABORT and that submission entries are to be had.
- NvmePool.Allocator.CreateQueues: a VFIO mapping or an admin command that fails for another reason than the queue size is not modelled.
- NvmePool.BlocksDisjoint: rounds nothing up to hugepages; the pool created is at least as large as the total here.
- Setting up and tearing down devices, VFIO, IOMMU, hugepages, mmap and controller reset: system calls and hardware waits with nothing to keep between calls.
- Control-device commands, JSON device data, command line and daemon handling.
- The loop, null, qcow2, iSCSI, NFS and other targets, which add no protocol of their own.
- The NBD handshake, which is blocking code that ends the process on errors.
- Idle handling, CPU affinity, memory barriers and the poll mode of the queue loop.
- The admin queue's commands and the translation of NVMe status codes.
