# Routing daemon verification

A Dafny model of the native routing daemon and the protocol pieces around it,
with proofs of what every run keeps. The daemon holds a registry on one control
thread and hands work to a file worker, a DNS worker, subprocess scans and many
sockets; it relies on caches, hints and watermarks that must agree with simple
definitions.

Each component has a specification as values (state, steps, runs) with its
theorems, and, where the source updates things in place, a class or methods with
loops that are proved to take exactly those steps.

| files | what they model |
|---|---|
| Common, Text, Sorting, LastOwner | options and digits, `strcmp`, decimal printing, `qsort`, the remove-then-append dedupe |
| NetworkSnapshot | the per-network route view |
| PublicationLane, LaneOutcomes, FileLane | the two-thread file publication lane, what becomes of a job, and the lane's fields under the mutex |
| RoutePublication, PublicationOutcomes | the dirty-revision and repair protocol on top of the lane, and what becomes of a flush |
| RouteFiles, FileOutcomes, RouteFileWriter | route files on disk over passes that fail anywhere, what becomes of a path, and the writer |
| RepairedFiles | the protocol and the files together |
| OutputQueue, OutputOutcomes, OutputTotals, ClientOutput | a client's output queue, what becomes of a message, the daemon-wide totals, and the queue in place |
| PendingRoutes, PendingOutcomes, PortSearch, RouteAllocator | pending routes with hints and expiry watermark, what becomes of a row, port choice, and allocation in place |
| ListenerReconcile, ListenerOutcomes | shared listener captures, registration fences, reconciliation, and what becomes of a row |
| ScopeRegistry, ScopeOutcomes, ScopeAncestry, ScopeAuthorization, ScopeCases | process identities pinned to networks, what becomes of a pin, inherited controller scopes, the table in place, and two histories |
| NetworkBroker, BrokerLoop, BrokerAnswers, BrokerServer, BrokerCases | broker slots and descriptors, the loop over 64 slots, what a peer gets, the slots in place, and two runs |
| Json, JsonText, JsonValidator, JsonAccepted, JsonGrammar | the JSON printer and accessor, the strict validator, what it accepts of the printer's, and the grammar it accepts exactly |
| DnsTable, Dns, DnsNames | the DNS index, the question parser and responder, and names as labels |
| Calendar | the closed-form UTC conversion |

The operating system (clock, bind, process table, rename and unlink, socket
writes, subprocess output) appears as answers that may be anything it can give.
The monotonic clock does not go back. Memory allocation succeeds except where its
failure is a step of its own. Network ids are short enough for their printed
identities to fit. File paths are an injective datatype, because the real name
sanitizer is not injective.

## Findings

Where the code does not do what a comment or a simple reading promises, the
model follows the code. A lemma shows the case, and another says exactly when it
happens; for equal births only one direction is stated, since with them a reader
of births cannot tell the two processes apart.

- A refused snapshot enqueue can take the most urgent lease with it, so the
  earliest queued deadline can rise; the queue is then failed and reported
  expired at once (`OutputQueue.RefusedEnqueueRaisesDeadline`; exactly when:
  `OutputQueue.EnqueueRaisesDeadlineOnlyWhenRefused`).
- The two missed scans before a listener row is stopped can be one capture that
  two requests share (`ListenerReconcile.SharedCaptureCountsTwice`; exactly when:
  `ListenerReconcile.StoppedOnOneCapture`).
- A registration report identical to the row does not fence it
  (`ListenerReconcile.RepeatedReportDoesNotFence`; exactly when:
  `ListenerReconcile.ReportFencesWhenItChanges`).
- When the authorization table is full, a live process whose birth cannot be read
  is forgotten and can then be pinned to a second network
  (`ScopeCases.FailedReadsAllowTwoNetworks`; exactly when a live identity leaves:
  `ScopeRegistry.LiveIdentityLeavesExactly`).
- The walk to a controller can take a process that reused the parent's pid for the
  parent if it was born in the child's own tick (`ScopeCases.EqualBirthInherits`
  and `ScopeCases.NineIsNoAncestor`; with a smaller birth it is the parent:
  `ScopeAncestry.ParentIsReal`).
- If the call that restores a received socket's blocking flag fails in the reply,
  it is not tried again (`BrokerCases.FailedRestoreStays`; exactly when the flag is
  as it came: `BrokerLoop.FlagsAreRestored`).
- While one peer waits in accept, a blocking accept on a copy of the same listener
  is answered instead of waiting (`BrokerCases.SecondAcceptIsRefused`; exactly
  when: `BrokerLoop.BlockingCallIsRefusedExactly`).
- A DNS label that holds a zero byte or a dot is answered for a record with other
  labels (`DnsNames.ZeroByteFindsAnother`, `DnsNames.DottedLabelFindsAnother`;
  exactly when: `DnsNames.RowHasTheLabels`).
- A JSON key that is printed with an escape is never found by the accessor
  (`Json.EscapedKeyIsNotFound`; exactly when: `Json.LookupFindsFirstMember`).

## Model

| member | source | states |
|---|---|---|
| `PublicationLane.StepKeeps` | native/agent/portmanager_agent_publication.c:89-260 | every step of either thread keeps phases, callback order, job order and deadlines, counters and ownership of contexts, in any interleaving |
| `PublicationLane.RunKeeps` | native/agent/portmanager_agent_publication.c:89-260 | the lane's invariants hold after every interleaving of control and worker steps |
| `PublicationLane.CallbacksNeverOverlap` | native/agent/portmanager_agent_publication.c:89-238 | in every interleaving prepare, run and finish of one job are contiguous: the next job is prepared only after the previous one finished, and a run lies between its own prepare and finish |
| `PublicationLane.SerialIsContiguous` | native/agent/portmanager_agent_publication.c:179-238 | in an accepted callback log job numbers never decrease, and a job has no callback after its finish or before its prepare |
| `PublicationLane.EachContextDestroyedOnce` | native/agent/portmanager_agent_publication.c:84-260 | every submitted context, whether replaced, expired, rejected, finished or abandoned, is held by one job and not destroyed, or destroyed exactly once; all are once the worker has exited |
| `PublicationLane.CountersAreTheHeldJobs` | native/agent/portmanager_agent_publication.c:141-224 | until disposal, count and bytes equal the queued and active jobs and stay within 32 jobs and the lane's byte limit |
| `PublicationLane.StepSettles` | native/agent/portmanager_agent_publication.c:186-260 | a step changes only pending receipts, and only the finish of that very job with result 0 commits one |
| `PublicationLane.ReceiptsSettleOnce` | native/agent/portmanager_agent_publication.c:186-260 | a receipt that left pending keeps its verdict for the rest of any run: it never settles twice and never turns from failed to committed |
| `PublicationLane.HeadSweepIsFullSweep` | native/agent/portmanager_agent_publication.c:213-224 | on a queue with nondecreasing deadlines, removing expired jobs from the head only is removing all expired jobs |
| `PublicationLane.SweepExpiresExactly` | native/agent/portmanager_agent_publication.c:213-224 | in every reachable state deadlines are nondecreasing from the active job through the queue, so the head sweep removes exactly the expired queued jobs |
| `PublicationLane.CoalescingLaneIsShallow` | native/agent/portmanager_agent_publication.c:141-157 | a lane used only with coalescing submissions never holds more than one queued job behind the active one |
| `LaneOutcomes.AcceptedExactly` | native/agent/portmanager_agent_publication.c:143-151 | in every run a submission is accepted if and only if its size fits beside the jobs it leaves alone and, unless it replaces one, fewer than 32 are held and memory is to be had |
| `LaneOutcomes.SubmissionIsHeld` | native/agent/portmanager_agent_publication.c:152-177 | in every run an accepted submission is the newest job, with its own context and size, under the pending receipt it returned; a replaced job's receipt and deadline carry over, a new one's deadline is 8000 ms ahead; a refused one changes no job and no receipt |
| `LaneOutcomes.RunDecidesResult` | native/agent/portmanager_agent_publication.c:97-105 | in every run a job's result is the callback's outcome, or -1 if it was canceled or past its deadline when the callback returned; one that already was is not run |
| `LaneOutcomes.ReapDecides` | native/agent/portmanager_agent_publication.c:188-201 | in every run a poll cancels and fails exactly an active job past its deadline, and takes back exactly a job whose run is over |
| `LaneOutcomes.RunCanceled` | native/agent/portmanager_agent_publication.c:188-194 | in every run only a canceled job has a failed receipt while it is held |
| `LaneOutcomes.FinishSettles` | native/agent/portmanager_agent_publication.c:204-212 | in every run, finishing a job whose receipt is pending makes it 1 if the finish callback returned 0 and -1 otherwise; the callback was told the run's result, or -1 of a canceled job; no other receipt changes |
| `LaneOutcomes.TimelyRunCommits` | native/agent/portmanager_agent_publication.c:204-212 | in every run a job whose run came out 0 and that was taken back before its deadline has its receipt at 1 once the finish callback returns 0 |
| `LaneOutcomes.RoundCommitsTheOldest` | native/agent/portmanager_agent_publication.c:93-236 | from every reachable idle lane, one poll, a run of the oldest job that comes out 0 and the next poll, all before its deadline, prepare, run and commit that job, whatever is queued behind it |
| `LaneOutcomes.NoRequestIsLost` | native/agent/portmanager_agent_publication.c:186-260 | in every run a pending receipt has its job, and after disposal no receipt is pending |
| `FileLane.ExpireQueued` | native/agent/portmanager_agent_publication.c:215-224 | the expiry loop leaves the queue, receipts, counters and destroyed contexts that the head sweep specifies |
| `FileLane.FailQueued` | native/agent/portmanager_agent_publication.c:242-248 | the disposal loop fails every queued receipt and destroys every queued context |
| `FileLane.Publications.constructor` | native/agent/portmanager_agent_publication.c:117-139 | a new lane is the initial state of the specification |
| `FileLane.Publications.Submit` | native/agent/portmanager_agent_publication.c:141-177 | submission refines the lane's submit step: admission limits, replacement of the newest queued job under its own receipt and deadline, rejection destroying the context |
| `FileLane.Publications.PollReap` | native/agent/portmanager_agent_publication.c:183-202 | the first critical section of a poll refines the reap step: late active work is cancelled and failed, done work taken back |
| `FileLane.Publications.PollFinish` | native/agent/portmanager_agent_publication.c:204-212 | finishing refines the finish step: verdict, counters and destruction; what that does to the receipt: `LaneOutcomes.FinishSettles` |
| `FileLane.Publications.PollExpire` | native/agent/portmanager_agent_publication.c:213-224 | expiry refines the sweep step, also while an active write is stuck |
| `FileLane.Publications.PollHandoff` | native/agent/portmanager_agent_publication.c:225-236 | handing the next job to the worker refines the handoff step |
| `FileLane.Publications.Dispose` | native/agent/portmanager_agent_publication.c:240-260 | disposal refines the dispose step: queued jobs destroyed, the active one cancelled and left to the worker |
| `FileLane.Publications.WorkerTake` | native/agent/portmanager_agent_publication.c:93-100 | taking the active job refines the worker's take step, which skips a cancelled job's run |
| `FileLane.Publications.WorkerRan` | native/agent/portmanager_agent_publication.c:100-102 | the end of a run refines the worker's step: a job cancelled meanwhile fails whatever its run returned |
| `FileLane.Publications.WorkerPublish` | native/agent/portmanager_agent_publication.c:103-106 | publishing the result refines the worker's step |
| `FileLane.Publications.WorkerExit` | native/agent/portmanager_agent_publication.c:107-115 | the worker's exit destroys the abandoned job |
| `RoutePublication.StepKeeps` | native/agent/portmanager_agent_state.c:3630-3706 | mutation, flush, finish and every lane step keep the invariants of the revision protocol |
| `RoutePublication.RunKeeps` | native/agent/portmanager_agent_state.c:3630-3706 | the protocol's invariants hold after every run of mutations, flushes, finishes and lane steps |
| `RoutePublication.Flushed` | native/agent/portmanager_agent_state.c:3674-3706 | computes the flush step and the receipt it returns, also for a capture or a submission that fails |
| `RoutePublication.Finished` | native/agent/portmanager_agent_state.c:3648-3665 | computes the finish step: the flag, the recorded commit and the lane's settlement |
| `RoutePublication.RouteTables.constructor` | native/agent/portmanager_agent_state.c:3674-3675 | the tables start in the protocol's initial state |
| `RoutePublication.CommitCoversEveryRequest` | native/agent/portmanager_agent_state.c:3648-3706 | a receipt that reports commit was satisfied by a snapshot captured at or after every request sharing it, hence at no older a revision, whatever coalescing, failures and timeouts occurred |
| `RoutePublication.ClearFlagMeansCurrent` | native/agent/portmanager_agent_state.c:3648-3665 | once anything has been committed, a clear dirty flag means that the last committed snapshot carries the current dirty revision |
| `RoutePublication.CommitClean` | native/agent/portmanager_agent_state.c:3648-3665 | committing a capture newer than all committed ones keeps the rule that a clear flag means the last commit carries the current revision |
| `RoutePublication.RanClears` | native/agent/portmanager_agent_state.c:3630-3643 | a pass that came out well and whose receipt a repair request shares was newer than the files' last repair, so that it had begun by forgetting every signature |
| `RoutePublication.CommittedRepairForgotSignatures` | native/agent/portmanager_agent_state.c:5089-5105 | a repair whose receipt reports commit was carried out by a pass that had begun by forgetting every content signature and wrote everything out |
| `PublicationOutcomes.RevisionCountsMutations` | native/agent/portmanager_agent_state.c:107-112 | in every run the dirty revision is the number of mutations |
| `PublicationOutcomes.FlushIsRequested` | native/agent/portmanager_agent_state.c:3674-3706 | in every run a flush captures the routes it is given at the revision the mutations add up to; if accepted, its request is recorded, the newest job carries that snapshot and its receipt is pending; a repair's number is greater than any before it |
| `PublicationOutcomes.ReportedExactlyWhenCommitted` | native/agent/portmanager_agent_state.c:3648-3665 | in every run a receipt reports commit if and only if a snapshot was committed under it |
| `PublicationOutcomes.FinishCommitsExactly` | native/agent/portmanager_agent_state.c:3648-3665 | in every run the finish callback commits the oldest job's snapshot if and only if its run came out 0 and it was not canceled: its receipt is then 1, and the registry is dirty only if it was and was mutated after the snapshot; otherwise the receipt is -1 and the registry dirty |
| `PublicationOutcomes.FlushReachesTheFiles` | native/agent/portmanager_agent_state.c:3630-3706 | from every reachable idle lane, a flush followed by a poll, a pass that succeeds and another poll is written, committed and reported, and leaves the registry clean exactly if it was not mutated in between |
| `RoutePublication.RouteTables.MarkDirty` | native/agent/portmanager_agent_state.c:107-112 | raises the dirty revision and sets the flag, keeping the protocol's invariants |
| `RoutePublication.RouteTables.FlushRouteTables` | native/agent/portmanager_agent_state.c:3674-3706 | captures the current revisions with the registry's routes and returns the receipt of the lane's coalescing submission, keeping the protocol's invariants |
| `RoutePublication.RouteTables.FinishPublication` | native/agent/portmanager_agent_state.c:3648-3665 | clears the flag only for the current revision, sets it on failure, keeping the protocol's invariants |
| `RouteFiles.PassKeeps` | native/agent/portmanager_agent_state.c:3318-3566 | whatever write or delete fails in a pass, no file it left behind is lost from the written sets and every remembered signature stays true |
| `RouteFiles.RunKeeps` | native/agent/portmanager_agent_state.c:3318-3566 | over any run of passes and outside tampering: every entry or claim file on disk and every non-empty network table is in the written sets, and every signature is the content, except for files another program touched since |
| `RouteFiles.TamperKeeps` | native/agent/portmanager_agent_state.c:3149-3193 | another program changing or removing a file keeps the invariants, which then no longer speak of that file |
| `RouteFiles.SuccessfulPassIsExact` | native/agent/portmanager_agent_state.c:3404-3552 | a pass that succeeds leaves exactly its snapshot's files: current paths hold their routes even where the write was skipped, old networks' tables are empty, removed paths are gone, any other file is an empty table, and the written sets are the snapshot's own |
| `RouteFiles.CommittedRepairRewroteEverything` | native/agent/portmanager_agent_state.c:3630-3646 | a successful pass for a newer repair rewrote or removed every file it is responsible for, whatever was done to those files before |
| `RepairedFiles.CommittedRepairReachedTheDisk` | native/agent/portmanager_agent_state.c:3630-3706 | protocol and disk together: in every run of the daemon in which other programs touch its files, a repair request whose receipt reports commit was answered by a pass of that run that succeeded and wrote a snapshot captured no earlier than the request; right after it tables, entry files and claim files showed exactly the routes the registry held when that snapshot was captured, and every file the pass was responsible for was its work or gone |
| `RepairedFiles.PassShows` | native/agent/portmanager_agent_state.c:3350-3552 | after a successful pass for a newer repair, each network's table lists the last owners of its routes, and each entry and claim file lists each of its routes as often as the snapshot does and no other |
| `RepairedFiles.CapturesStay` | native/agent/portmanager_agent_state.c:3676-3695 | a capture, routes included, stays as it was taken for the rest of any run |
| `RepairedFiles.ClearedByPass` | native/agent/portmanager_agent_state.c:3630-3646 | each snapshot the protocol counts as rewritten was written by a successful pass of the run that was newer than the files' repair revision |
| `RepairedFiles.RepairsAgree` | native/agent/portmanager_agent_state.c:3640-3643 | the writer's repair revision is always the one the protocol counts on |
| `RouteFiles.FilesHoldTheirRoutes` | native/agent/portmanager_agent_state.c:3350-3387 | with its number of occurrences: an entry file holds exactly the snapshot's routes for its port and network, a claim file exactly the compose routes that claim its port by logical or actual port |
| `FileOutcomes.DutyMeans` | native/agent/portmanager_agent_state.c:3404-3516 | a path is written if some route of the snapshot calls for it, emptied or removed if only the writer remembers it, and otherwise none of the pass's business |
| `FileOutcomes.NewerWriterIsLeftAlone` | native/agent/portmanager_agent_state.c:3066-3076 | in every run a pass neither writes nor deletes a file that belongs to a newer writer, and fails if it had business with it |
| `FileOutcomes.SupersededPassIsHarmless` | native/agent/portmanager_agent_state.c:3392-3398 | in every run a pass whose preflight found a newer generation changes no file and fails |
| `FileOutcomes.UnhinderedPassSucceeds` | native/agent/portmanager_agent_state.c:3318-3566 | in every run a pass that meets no newer writer and no failing rename or unlink succeeds |
| `FileOutcomes.EachPathIsWholeOrUntouched` | native/agent/portmanager_agent_state.c:3154-3193 | in every run a pass, failed or not, leaves each path as it was or deals with it completely: content, signature and ownership together |
| `FileOutcomes.SuccessfulPassRemembers` | native/agent/portmanager_agent_state.c:3154-3193 | in every run, after a pass that succeeds, every file called for is there and remembered by the content it ought to have, every other remembered entry or claim is gone and forgotten, and a file that was not fresh enough has been written again |
| `FileOutcomes.UnchangedFileIsKept` | native/agent/portmanager_agent_state.c:3154-3170 | in every run a fresh file of the right remembered content is not written again |
| `RouteFileWriter.GroupRoutes` | native/agent/portmanager_agent_state.c:3437-3442 | the routes collected from one run of equal paths are all the routes of that path, in order |
| `RouteFileWriter.GroupEnd` | native/agent/portmanager_agent_state.c:3428-3435 | finds the end of the run of equal paths |
| `RouteFileWriter.Advance` | native/agent/portmanager_agent_state.c:3404-3516 | attempting one more path extends a partly done pass by exactly that path and its success |
| `RouteFileWriter.Complete` | native/agent/portmanager_agent_state.c:3404-3516 | a pass that did every path with a duty has treated all paths, and succeeded exactly if each attempt did |
| `RouteFileWriter.CurrentNetworks` | native/agent/portmanager_agent_state.c:3358-3360 | collects each non-empty network id of the snapshot once |
| `RouteFileWriter.Merge` | native/agent/portmanager_agent_state.c:3518-3526 | the merged written set keeps the old one's order and has exactly the members of both |
| `RouteFileWriter.Writer.WriteIfChanged` | native/agent/portmanager_agent_state.c:3154-3193 | one write attempt: reuse, refusal by a newer generation, rewrite or failure, with the signature remembered exactly on a changed write; no other path is touched |
| `RouteFileWriter.Writer.Unlink` | native/agent/portmanager_agent_state.c:3066-3076 | one deletion attempt; the signature is forgotten exactly when the file is gone; a newer writer's file is left alone: `FileOutcomes.NewerWriterIsLeftAlone` |
| `RouteFileWriter.Writer.WriteNetworks` | native/agent/portmanager_agent_state.c:3404-3414 | attempts exactly the tables of the snapshot's networks, each with the last owners of its routes |
| `RouteFileWriter.Writer.EmptyOldNetworks` | native/agent/portmanager_agent_state.c:3416-3424 | attempts to empty exactly the tables of networks written before and not current |
| `RouteFileWriter.Writer.WriteGroups` | native/agent/portmanager_agent_state.c:3428-3457 | treats exactly the items' paths, each with all its routes, touches no other path, and lists the paths; used for entries and for claims |
| `RouteFileWriter.Writer.RemoveOld` | native/agent/portmanager_agent_state.c:3494-3516 | attempts to remove exactly the files written before and not current |
| `RouteFileWriter.Writer.WriteFiles` | native/agent/portmanager_agent_state.c:3404-3516 | all loops of a pass together treat every path with a duty and nothing else, and return the snapshot's own sets |
| `RouteFileWriter.Writer.Publish` | native/agent/portmanager_agent_state.c:3630-3646 | one whole publication is a pass in the sense of the specification: every path treated by its duty, success exactly when every attempt succeeded, written sets replaced on success and merged on failure |
| `NetworkSnapshot.IdentityIsKey` | native/agent/portmanager_agent_state.c:744-746 | within one network two routes print the same identity exactly when port and direction agree |
| `NetworkSnapshot.NetworkRoutesByKey` | native/agent/portmanager_agent_state.c:1050-1070 | folding the dedupe by printed identity is folding it by port and direction |
| `NetworkSnapshot.RunLastsMeaning` | native/agent/portmanager_agent_state.c:3301-3307 | in positions sorted by identity, one survives the run collapse exactly when no later position of the list has its identity |
| `NetworkSnapshot.FinalListing` | native/agent/portmanager_agent_state.c:3301-3308 | the positions left after both sorts are exactly the last owners, in original order |
| `NetworkSnapshot.FinalRows` | native/agent/portmanager_agent_state.c:1050-1070 | the rows at the last owners' positions are the filtered remove-then-append fold |
| `NetworkSnapshot.SelectPositions` | native/agent/portmanager_agent_state.c:3294-3299 | collects exactly the network's positions, increasing |
| `NetworkSnapshot.KeepRunLasts` | native/agent/portmanager_agent_state.c:3301-3307 | compacts the array in place to the last position of each run |
| `NetworkSnapshot.AppendRows` | native/agent/portmanager_agent_state.c:3309-3312 | returns the rows at the selected positions, in order |
| `NetworkSnapshot.LastPositions` | native/agent/portmanager_agent_state.c:3294-3308 | sorting, keeping the last of each run and sorting back selects the rows of the filtered remove-then-append fold |
| `NetworkSnapshot.BuildNetworkSnapshot` | native/agent/portmanager_agent_state.c:3290-3315 | for every route list and network, returns the same sequence as filtering to the network and folding the quadratic dedupe |
| `LastOwner.LastMeaning` | native/agent/portmanager_agent_state.c:1050-1070 | a selected row is a last owner exactly when no later selected row has its key |
| `LastOwner.FoldKeepsLast` | native/agent/portmanager_agent_state.c:1050-1070 | folding remove-then-append over selected rows lists their last owners, in original order, for any rows and key |
| `LastOwner.FoldSame` | native/agent/portmanager_agent_state.c:1050-1070 | two keys that agree on which rows are equal give the same fold |
| `Sorting.QSort` | native/agent/portmanager_agent_state.c:3300 | sorts in place for any total order and permutes the elements |
| `OutputQueue.StepKeeps` | native/agent/portmanager_agent_output.c:61-187 | every enqueue, partial write, failure and disconnect keeps order, wire, receipts, counters and leases |
| `OutputQueue.RunKeeps` | native/agent/portmanager_agent_output.c:61-187 | the queue's invariants hold after every run |
| `OutputQueue.WireIsFramesInOrder` | native/agent/portmanager_agent_output.c:89-187 | for every run the bytes on the socket are a prefix of whole frames in enqueue order with only wholly unsent snapshots missing; only the head is partly sent and at most one unsent snapshot waits |
| `OutputQueue.ReceiptMeansDelivered` | native/agent/portmanager_agent_output.c:61-71 | a delivery receipt is 1 exactly when all bytes of its frame were written, 0 exactly while the frame waits, -1 exactly when it was coalesced or discarded |
| `OutputQueue.CountersAreTheFrames` | native/agent/portmanager_agent_output.c:61-64 | a queue's bytes and frames are its waiting frames, within 8 MiB and 128 |
| `OutputQueue.AcceptedEnqueueNeverRenews` | native/agent/portmanager_agent_output.c:89-128 | after an accepted enqueue the earliest deadline is the old one or the new frame's own, whichever is earlier, however many snapshots were replaced |
| `OutputQueue.EnqueueRaisesDeadlineOnlyWhenRefused` | native/agent/portmanager_agent_output.c:92-114 | an enqueue raises the earliest queued deadline exactly when it is a snapshot that is refused after removing a strictly more urgent predecessor |
| `OutputQueue.RefusedEnqueueRaisesDeadline` | native/agent/portmanager_agent_output.c:97-114 | a run in which a refused snapshot raises the earliest queued deadline from 1000 to 1500 |
| `OutputQueue.EnqueueNeverRaisesReport` | native/agent/portmanager_agent_output.c:157-165 | no enqueue, accepted or refused, raises the remaining time the daemon reports for a pending queue |
| `OutputQueue.StalledPeerExpires` | native/agent/portmanager_agent_output.c:157-165 | a peer that takes no bytes while its queue is not empty is reported expired within 1000 ms, whatever is enqueued meanwhile |
| `OutputOutcomes.KeptPicks` | native/agent/portmanager_agent_output.c:97-108 | coalescing keeps, in order, exactly the frames that are no snapshot still to be begun |
| `OutputOutcomes.GonePicks` | native/agent/portmanager_agent_output.c:97-108 | and takes out exactly those |
| `OutputOutcomes.MessageIsTaken` | native/agent/portmanager_agent_output.c:89-128 | in every run a message is taken if and only if the client is healthy, the daemon has room and at most 8 MiB and 128 frames wait with it; it then waits last, whole, for a second or what the replaced snapshots had left; a refusal fails the client |
| `OutputOutcomes.WireCarriesTheMessages` | native/agent/portmanager_agent_output.c:89-187 | in every run the wire is the payloads of the completed frames as they were enqueued, in order, and a beginning of the next one's |
| `OutputOutcomes.WriteMovesTheLine` | native/agent/portmanager_agent_output.c:167-187 | in every run a write puts exactly the next bytes of the first frame on the wire, completes it with a receipt of 1 exactly at its last byte, changes nothing if the socket is full, and fails the client if it is broken |
| `OutputOutcomes.DisconnectLosesTheLine` | native/agent/portmanager_agent_output.c:73-82 | in every run a disconnect empties the line, makes exactly the pending receipts -1, and nothing is written afterwards |
| `OutputOutcomes.FailureIsFinal` | native/agent/portmanager_agent_output.c:130-136 | a response that cannot be made fails the client, and in every run a failed client is sent nothing more |
| `OutputTotals.QueueUses` | native/agent/portmanager_agent_output.c:61-128 | a queue operation removes, accepts and keeps frames and duplicates none |
| `OutputTotals.OnQueueKeeps` | native/agent/portmanager_agent_output.c:61-187 | an operation on one of many queues keeps references, totals and every queue's invariants |
| `OutputTotals.StepKeeps` | native/agent/portmanager_agent_output.c:37-187 | creating, releasing, opening and every queue operation keep the daemon-wide accounting |
| `OutputTotals.TotalsAreExact` | native/agent/portmanager_agent_output.c:43-71 | over every run of any number of queues a payload's references are its holders plus its queued frames, the byte total is the live payloads, the frame total the queued frames, within 64 MiB and 16384 |
| `OutputTotals.PayloadIsTaken` | native/agent/portmanager_agent_output.c:43-59 | in every run a payload is taken if and only if it is not empty, within 8 MiB, and within 64 MiB together with all still referred to |
| `OutputTotals.MessageReachesItsQueue` | native/agent/portmanager_agent_output.c:89-128 | in every run a message is enqueued with its own payload on its own queue only, and the daemon has room if and only if fewer than 16384 frames wait in all, replaced snapshots aside |
| `ClientOutput.Coalesce` | native/agent/portmanager_agent_output.c:92-108 | the coalescing walk removes exactly the unsent snapshots and finds their earliest deadline |
| `ClientOutput.Accept` | native/agent/portmanager_agent_output.c:89-128 | coalescing and appending together are the enqueue step, accepted exactly when no limit refuses |
| `ClientOutput.Take` | native/agent/portmanager_agent_output.c:171-183 | a write of some bytes is the flush step whatever the budget, and the socket grows by that many |
| `ClientOutput.Discard` | native/agent/portmanager_agent_output.c:73-82 | removing frame by frame settles every receipt as the disconnect step does |
| `ClientOutput.Output.constructor` | native/agent/portmanager_agent_output.c:37-41 | a new queue is the specification's initial state |
| `ClientOutput.Output.Enqueue` | native/agent/portmanager_agent_output.c:89-128 | refines the enqueue step and reports acceptance exactly when no limit refuses |
| `ClientOutput.Output.Reject` | native/agent/portmanager_agent_output.c:130-136 | a response without a message fails the queue and changes nothing else |
| `ClientOutput.Output.Flush` | native/agent/portmanager_agent_output.c:167-187 | refines the flush step; the socket grows by what is returned, and failure is reported exactly for a failed or closed queue or a broken write |
| `ClientOutput.Output.Disconnect` | native/agent/portmanager_agent_output.c:73-82 | refines the disconnect step, frame by frame |
| `ClientOutput.Output.MillisecondsLeft` | native/agent/portmanager_agent_output.c:157-165 | the loop computes the remaining time of the specification |
| `PendingRoutes.EndpointInjective` | native/agent/portmanager_agent_state.c:748-750 | two endpoints print alike exactly when port and network agree |
| `PendingRoutes.AllocationIdInjective` | native/agent/portmanager_agent_state.c:3913 | within one daemon process, different allocation numbers print different ids |
| `PendingRoutes.FindEndpointIsLinear` | native/agent/portmanager_agent_state.c:2642-2674 | the hinted endpoint lookup returns the row of the linear scan, whatever stale, colliding or missing hints there are, and keeps the invariants |
| `PendingRoutes.FindReservedIsLinear` | native/agent/portmanager_agent_state.c:1331-1366 | the hinted reserved-port lookup answers as the linear scan over pending rows and running processes, and clearing a hint after a miss is safe |
| `PendingRoutes.LookupsAreExact` | native/agent/portmanager_agent_state.c:3820-3981 | in every reachable state pending rows differ pairwise in endpoint, actual port and allocation id, and both lookups are exact |
| `PendingRoutes.SkippedCleanupIsFull` | native/agent/portmanager_agent_state.c:2556-2607 | skipping a cleanup before the watermark leaves the rows a full pass would leave, for any scan result |
| `PendingRoutes.CleanupIsAlwaysFull` | native/agent/portmanager_agent.h:134-138 | in every reachable state the watermark is no later than any expiry, so cleanup always equals a full pass |
| `PendingRoutes.RemovedOnlyWhenNotListening` | native/agent/portmanager_agent_state.c:2564-2606 | a cleanup removes a row exactly when it is expired and a successful scan lacks its actual port |
| `PendingRoutes.StepKeeps` | native/agent/portmanager_agent_state.c:3820-3981 | lookups, extension, insertion, cleanup and both removals keep distinct rows, covered hints and the watermark |
| `PendingRoutes.RunKeeps` | native/agent/portmanager_agent_state.c:3820-3981 | the invariants of pending routes hold after every run, with or without hint tables |
| `PendingRoutes.CleanupKeeps` | native/agent/portmanager_agent_state.c:2541-2610 | a cleanup keeps distinct rows, covered hints and the watermark |
| `PendingOutcomes.EndpointPicks` | native/agent/portmanager_agent_state.c:3967-3975 | removing an endpoint keeps, in order, exactly the rows whose port or network differs |
| `PendingOutcomes.EndpointIsRemoved` | native/agent/portmanager_agent_state.c:3961-3981 | in every run, once an endpoint is removed its lookup finds nothing and every other endpoint's lookup finds the row it found before |
| `PendingOutcomes.IdPicks` | native/agent/portmanager_agent_state.c:3949-3958 | removing an id takes out the first row that has it, and nothing if there is none |
| `PendingOutcomes.AllocationIsRemoved` | native/agent/portmanager_agent_state.c:3948-3959 | in every run releasing an id takes out the one row that has it and nothing if there is none; no row has it afterwards |
| `PendingOutcomes.CleanupDropsTheLapsed` | native/agent/portmanager_agent_state.c:2541-2610 | in every run a cleanup drops exactly the rows past their time whose port a working scan did not find listening; the others stay in order, renewed by 300 seconds if listening and by one if the scan failed; a pass that looked leaves the earliest expiry as the watermark |
| `PendingOutcomes.InsertedIsFound` | native/agent/portmanager_agent_state.c:3911-3934 | in every run a row can be inserted if and only if its endpoint has none and no row or process has its port; both lookups then find it, under the next id, for 300 seconds |
| `PendingOutcomes.ExtendedIsRenewed` | native/agent/portmanager_agent_state.c:3858-3864 | in every run extending an endpoint gives its row 300 seconds from now and changes nothing else about any row |
| `PendingOutcomes.HashVectors` | native/agent/portmanager_agent_state.c:1237-1246 | two published values of the hash |
| `PortSearch.NearestIsClosest` | native/agent/portmanager_agent_state.c:1372-1395 | with availability that implies a valid port, nearest search returns an available permitted port than which none is closer, upward on ties, and 0 exactly when there is none |
| `PortSearch.CandidatesDistinct` | native/agent/portmanager_agent_state.c:1419-1424 | probes within one turn of the range are distinct ports |
| `PortSearch.CandidatesCover` | native/agent/portmanager_agent_state.c:1419-1424 | a whole turn probes every port of the range |
| `PortSearch.HashedIsFirstAvailable` | native/agent/portmanager_agent_state.c:1397-1427 | for a valid range, hashed search returns the first available port in probe order, within the range; if the scan covers the range, 0 means that no port of it is available |
| `RouteAllocator.ChoiceFree` | native/agent/portmanager_agent_state.c:1368-1427 | neither search returns a reserved, invalid or unbindable port |
| `RouteAllocator.NearestUnlessHashed` | native/agent/portmanager_agent_state.c:1372-1395 | without hashing an allocation gets a nearest free port it may have, and none only if there is none |
| `RouteAllocator.FirstFromTheHash` | native/agent/portmanager_agent_state.c:1397-1427 | with hashing it gets the first free port of the virtual range from the hash of scope and port on, going round, and none if the range is invalid |
| `RouteAllocator.Sweep` | native/agent/portmanager_agent_state.c:2564-2607 | the compaction loop keeps, renews and drops rows as specified and finds the least expiry |
| `RouteAllocator.DropEndpoint` | native/agent/portmanager_agent_state.c:3967-3975 | keeps exactly the rows of other endpoints, in order; which rows those are: `PendingOutcomes.EndpointPicks` |
| `RouteAllocator.ScanEndpoint` | native/agent/portmanager_agent_state.c:2665-2671 | the linear scan finds the endpoint's first row |
| `RouteAllocator.FindRow` | native/agent/portmanager_agent_state.c:2647-2674 | the hinted lookup with its validation, fallback and new hint is the specified one |
| `RouteAllocator.DropId` | native/agent/portmanager_agent_state.c:3949-3958 | removes the first row with the id and no other; which row that is: `PendingOutcomes.IdPicks` |
| `RouteAllocator.ScanPort` | native/agent/portmanager_agent_state.c:1345-1350 | the linear scan finds the port's first row |
| `RouteAllocator.ScanProcesses` | native/agent/portmanager_agent_state.c:1358-1363 | says whether a running process that was not merely detected uses the port |
| `RouteAllocator.Allocator.constructor` | native/agent/portmanager_agent.h:127-138 | a new allocator is the specification's initial state, with or without hint tables |
| `RouteAllocator.Allocator.CleanupPending` | native/agent/portmanager_agent_state.c:2541-2610 | refines the cleanup with its watermark and reports whether rows went |
| `RouteAllocator.Allocator.FindPendingEndpoint` | native/agent/portmanager_agent_state.c:2642-2674 | returns the first row of the endpoint and changes nothing but hints |
| `RouteAllocator.Allocator.ActualPortReserved` | native/agent/portmanager_agent_state.c:1331-1366 | answers exactly whether the port is taken and changes nothing but hints |
| `RouteAllocator.Allocator.PortAvailable` | native/agent/portmanager_agent_state.c:1368-1370 | available is exactly not reserved and bindable, and only hints change |
| `RouteAllocator.Allocator.RouteNearest` | native/agent/portmanager_agent_state.c:1372-1395 | returns the nearest search's port over current availability |
| `RouteAllocator.Allocator.RouteHashed` | native/agent/portmanager_agent_state.c:1397-1427 | returns the hashed search's port over current availability |
| `RouteAllocator.Allocator.AllocateRoute` | native/agent/portmanager_agent_state.c:3820-3946 | cleans up, then: a sender served by an active route gets its port; the endpoint's row is extended if there is one; an unscoped sender gets the requested port of a host listener; otherwise exactly one new row with the chosen port is appended, or no port is left; nothing else in the table changes |
| `RouteAllocator.Allocator.ReleaseAllocation` | native/agent/portmanager_agent_state.c:3948-3959 | removes exactly the first row with the id and says whether there was one; what is gone afterwards: `PendingOutcomes.AllocationIsRemoved` |
| `RouteAllocator.Allocator.RemovePendingEndpoint` | native/agent/portmanager_agent_state.c:3961-3981 | removes exactly the rows of the endpoint; what lookups find afterwards: `PendingOutcomes.EndpointIsRemoved` |
| `ListenerReconcile.ReconcileRowKeeps` | native/agent/portmanager_agent_state.c:2470-2512 | reconciling one row keeps counters equal to its history and every event justified |
| `ListenerReconcile.ReleaseRowKeeps` | native/agent/portmanager_agent_state.c:4394-4440 | releasing a row on a capture keeps the same |
| `ListenerReconcile.RegisterRowKeeps` | native/agent/portmanager_agent_state.c:4084-4122 | a registration keeps the same at the next revision |
| `ListenerReconcile.StepKeeps` | native/agent/portmanager_agent_state.c:2461-2517 | registrations, preparations, completions, reconciliations and releases keep the registry's invariants |
| `ListenerReconcile.RunKeeps` | native/agent/portmanager_agent_state.c:2461-2517 | the registry's invariants hold after every run |
| `ListenerReconcile.CapturesAreFenced` | native/agent/portmanager_agent_state.c:2461-2517 | in every run, whatever captures are shared, a row is seen, adopted, missed, stopped or released only on a capture created after the row's latest registration, and reconciliation stops a row only after two misses since it was last seen or changed owner, the first at least two seconds earlier |
| `ListenerReconcile.FenceIsExact` | native/agent/portmanager_agent_state.c:2482 | a capture is refused for a row exactly when the row was registered at or after the capture's creation |
| `ListenerReconcile.ReportFencesWhenItChanges` | native/agent/portmanager_agent_state.c:4084-4122 | in every run, after a report about a running row a capture so far is refused for it if and only if the report changed pid, host or other fields, or an earlier registration was already no older than the capture |
| `ListenerReconcile.ReportFencesEverything` | native/agent/portmanager_agent_state.c:4118-4122 | hence, if some capture is newer than the row's registration, a report fences its row against every capture so far if and only if it changes the row |
| `ListenerReconcile.SharedCaptureCountsTwice` | native/agent/portmanager_agent_state.c:2500-2512 | a run of eight operations: two requests share one capture, each counts it, and the row is stopped with a single capture in existence |
| `ListenerReconcile.StoppedOnOneCapture` | native/agent/portmanager_agent_state.c:2493-2512 | in every run each stop is the doing of one reconciliation, and all the misses it counted are of one capture if and only if, when that request came, no other capture had been brought to the row since its counter stood at zero |
| `ListenerReconcile.ConsultedIsCounted` | native/agent/portmanager_agent_state.c:2482-2503 | in every run the captures of the counted misses are exactly those that requests brought to the row, unfenced, since its counter stood at zero |
| `ListenerReconcile.NewerCaptureIsAnother` | native/agent/portmanager_agent_state.c:2493-2512 | a capture created after the row was first found missing is never the only one counted |
| `ListenerReconcile.RowMoves` | native/agent/portmanager_agent_state.c:2461-2517 | an operation only extends a row's history, and only a request whose capture speaks about the row counts that capture or stops the row |
| `ListenerReconcile.RepeatedReportDoesNotFence` | native/agent/portmanager_agent_state.c:4118-4122 | a run: after a report identical to the row the older capture counts a miss against it, and after a report that changes it the capture does not |
| `ListenerOutcomes.OwnerDecides` | native/agent/portmanager_agent_state.c:1784-1803 | the search for an endpoint's owner finds someone if and only if someone listens there: the first with a pid, or the last if none has one |
| `ListenerOutcomes.ReconciliationDecides` | native/agent/portmanager_agent_state.c:2469-2513 | in every run, row by row: a fenced row does not change; an external running row whose own process listens at its endpoint keeps running, pid, host and other fields with no miss; one where others listen takes the pid and name of the listener that decides; one where nobody listens counts a miss, and stops if and only if it is the second or later and the first is two seconds old |
| `ListenerOutcomes.ReleaseDecides` | native/agent/portmanager_agent_state.c:4401-4440 | in every run a release changes only the row it names, and stops it if and only if its capture is not fenced off, nobody listens at its endpoint and the route is not scoped |
| `ListenerOutcomes.ReportIsCarried` | native/agent/portmanager_agent_state.c:4084-4122 | in every run a report makes the first running row of its key carry its pid, host and other fields, clearing misses only if the owner changed, or appends a running row; no other row changes |
| `ListenerOutcomes.RunsUntilEnded` | native/agent/portmanager_agent_state.c:2470-2512 | in every run a row is running if and only if its history has no stop by reconciliation, release or explicit stop |
| `ListenerOutcomes.UnheldCapturesAreAbandoned` | native/agent/portmanager_agent_scan.c:95-106 | in every run a capture's counter is the number of holds requests have on it, and one nobody holds has been abandoned |
| `ListenerOutcomes.PreparedRequestHolds` | native/agent/portmanager_agent_scan.c:134-165 | in every run a request that is not refused comes out holding a capture of its command: one it had, else the newest unfinished one of the current generation, else a new one watermarked with the current revision |
| `ListenerOutcomes.GenerationCountsInvalidations` | native/agent/portmanager_agent_scan.c:111-116 | in every run the generation is the number of invalidations |
| `ListenerOutcomes.HeldCapturesAreCurrent` | native/agent/portmanager_agent_scan.c:111-116 | in every run each capture a request holds is of the generation the request last saw, so a preparation after an invalidation starts over |
| `ListenerOutcomes.ServedCaptureIsGood` | native/agent/portmanager_agent_scan.c:169-181 | a request is served only from a capture it holds, of its command, finished and not failed; one that did not work or was abandoned completes as failed |
| `ListenerReconcile.PrepareExtends` | native/agent/portmanager_agent_scan.c:111-165 | a preparation keeps every capture's watermark and time, and a new capture is watermarked with the current revision |
| `ListenerReconcile.FindByEndpoint` | native/agent/portmanager_agent_state.c:1784-1803 | the loop with its fallback finds the listener that owns the endpoint: the first with a pid, else the last without one; both directions: `ListenerOutcomes.OwnerDecides` |
| `ListenerReconcile.FindByPid` | native/agent/portmanager_agent_state.c:1770-1782 | says whether a listener of the row's own pid stands at its endpoint |
| `ListenerReconcile.Broker.constructor` | native/agent/portmanager_agent_scan.c:122-124 | a new registry is the specification's initial state |
| `ListenerReconcile.ReconcileAll` | native/agent/portmanager_agent_state.c:2469-2513 | the loop reconciles every row as specified; what that is for each row: `ListenerOutcomes.ReconciliationDecides` |
| `ListenerReconcile.FindCapture` | native/agent/portmanager_agent_scan.c:137-147 | finds the capture the context holds, else the newest unfinished one of the same command and generation |
| `ListenerReconcile.Broker.PrepareRequest` | native/agent/portmanager_agent_scan.c:134-165 | refines a request's preparation: watermarks taken afresh, captures shared or created |
| `ListenerReconcile.Broker.ReconcileProcesses` | native/agent/portmanager_agent_state.c:2461-2517 | refines reconciliation with the request's own finished capture; what that does to each row: `ListenerOutcomes.ReconciliationDecides` |
| `ScopeRegistry.ReclaimKeeps` | native/agent/portmanager_agent_authorization.h:142-150 | reclaiming keeps pids unique, adds nothing, removes only identities that are gone for good or whose read failed, and changes nothing if it frees nothing |
| `ScopeRegistry.ReclaimForgets` | native/agent/portmanager_agent_authorization.h:143-149 | an identity whose read failed during a reclaim is in the table no more |
| `ScopeRegistry.LiveEntryLeavesExactly` | native/agent/portmanager_agent_authorization.h:132-156 | an entry that is alive when a pin ends has left the table if and only if the pin reclaimed a full table and its read of that entry failed |
| `ScopeRegistry.LiveIdentityLeavesExactly` | native/agent/portmanager_agent_authorization.h:132-229 | the same for every operation of every run: a live identity leaves the table if and only if the operation's reclaim misread it |
| `ScopeCases.FailedReadsAllowTwoNetworks` | native/agent/portmanager_agent_authorization.h:143-150 | a run over a table of 8192 live processes in which the reads of one reclaim fail: a process that lives all the time ends up pinned to two networks |
| `ScopeRegistry.PinTable` | native/agent/portmanager_agent_authorization.h:132-156 | a pin keeps the table's invariants and every live entry its reclaim did not misread, leaves the table unchanged on failure, and on success holds the live identity under the network |
| `ScopeRegistry.PinAgrees` | native/agent/portmanager_agent_authorization.h:134-141 | a pin that succeeds agrees with every earlier pin of the same identity, unless a reclaim misread that identity |
| `ScopeRegistry.PinKeeps` | native/agent/portmanager_agent_authorization.h:132-156 | a pin keeps the table sound and one network per identity that no reclaim misread, whatever reads fail |
| `ScopeRegistry.InheritKeeps` | native/agent/portmanager_agent_authorization.h:190-215 | an inherited lookup, with the pin it may make, keeps the same |
| `ScopeRegistry.RegisterKeeps` | native/agent/portmanager_agent_authorization.h:217-229 | a controller registration keeps the same |
| `ScopeRegistry.RunKeeps` | native/agent/portmanager_agent_authorization.h:132-229 | the same holds after every run over any process history and any failing reads |
| `ScopeRegistry.EachIdentityHasOneNetwork` | native/agent/portmanager_agent_authorization.h:132-156 | over every run, with reads failing at any time, table pids are unique, and an identity none of whose reads failed during a reclaim is never pinned to two networks and, pinned and alive, is in the table with its network |
| `ScopeOutcomes.ReclaimGivesUpNothing` | native/agent/portmanager_agent_authorization.h:143-149 | a pass over a full table gives up nothing if and only if every entry is read back at its turn |
| `ScopeOutcomes.ReclaimKeepsTheLiving` | native/agent/portmanager_agent_authorization.h:143-149 | everything a pass keeps was read back during it |
| `ScopeOutcomes.PinnedExactly` | native/agent/portmanager_agent_authorization.h:132-156 | a pin succeeds if and only if the identity is read back, the table has it under no other network, and its pid is known, the table is not full, or some entry gives way |
| `ScopeOutcomes.PinLeaves` | native/agent/portmanager_agent_authorization.h:132-156 | a pin that succeeds leaves its identity in the table and, unless the table was full, every entry of another pid where it was; a reused pid's entry becomes the new identity's and no controller; one that fails leaves the table alone |
| `ScopeOutcomes.PinDecides` | native/agent/portmanager_agent_authorization.h:132-156 | in every run the same of the operation and its history |
| `ScopeOutcomes.WalkFinds` | native/agent/portmanager_agent_authorization.h:193-213 | while nothing changes, a walk from a live process finds the nearest controller among up to 64 processes |
| `ScopeOutcomes.DescendantInherits` | native/agent/portmanager_agent_authorization.h:190-215 | in every run, while nothing changes, a live process whose line of parents leads to a controller gets that controller's network, and with room in the table is a controller itself from then on |
| `ScopeOutcomes.RegisteredExactly` | native/agent/portmanager_agent_authorization.h:217-229 | in every run a registration succeeds if and only if the key is good, the identity is read back, it inherits no other network and it can be pinned; it is then a controller of its network and inheritance is on |
| `ScopeOutcomes.InheritanceNeedsARegistration` | native/agent/portmanager_agent_authorization.h:190-229 | in every run inheritance is on if and only if some controller was registered |
| `ScopeAncestry.ParentIsReal` | native/agent/portmanager_agent_authorization.h:208-212 | a parent read between two sightings of the child and born no later is the child's parent, or has exactly the child's birth; with a smaller birth it is the parent |
| `ScopeAncestry.WalkLineage` | native/agent/portmanager_agent_authorization.h:195-213 | a walk that finds a controller went from the process to it along links that are genuine parent links except where the births are equal |
| `ScopeAncestry.InheritedScopeHasAncestor` | native/agent/portmanager_agent_authorization.h:190-215 | an inherited scope carries the network of a controller at the end of such a lineage of at most 64 processes |
| `ScopeAncestry.ControllersAreRooted` | native/agent/portmanager_agent_authorization.h:190-229 | in every run each controller entry, inherited ones too, has the network of a process that was registered as controller and to which a lineage leads |
| `ScopeAncestry.InheritedScopeIsRooted` | native/agent/portmanager_agent_authorization.h:190-215 | in every run an inherited scope is the network of a registered controller to which a lineage leads from the process |
| `ScopeCases.EqualBirthInherits` | native/agent/portmanager_agent_authorization.h:208-212 | a history that is a proper one, in which a pid is reused within the child's own birth tick, and the child inherits a controller's scope |
| `ScopeCases.NineIsNoAncestor` | native/agent/portmanager_agent_authorization.h:208-212 | in that history no line of parents leads from the child to that controller |
| `ScopeAuthorization.ReclaimExited` | native/agent/portmanager_agent_authorization.h:143-149 | the swap-with-last loop computes the specified table |
| `ScopeAuthorization.ScanPid` | native/agent/portmanager_agent_authorization.h:134-136 | finds the pid's first entry |
| `ScopeAuthorization.ScanExact` | native/agent/portmanager_agent_authorization.h:181-186 | finds the first entry of exactly that identity |
| `ScopeAuthorization.Authorization.constructor` | native/agent/portmanager_agent_authorization.h:128-129 | a new registry is empty |
| `ScopeAuthorization.Authorization.MarkController` | native/agent/portmanager_agent_authorization.h:204-205 | marks exactly the identity's entry, if there is one, and keeps one network per identity |
| `ScopeAuthorization.FindController` | native/agent/portmanager_agent_authorization.h:193-213 | the ancestry loop finds the entry the specified walk finds |
| `ScopeAuthorization.Authorization.PinScope` | native/agent/portmanager_agent_authorization.h:132-156 | refines the pin and keeps one network per identity |
| `ScopeAuthorization.Authorization.ControllerScope` | native/agent/portmanager_agent_authorization.h:190-215 | refines the inherited lookup, pinning and marking the process |
| `ScopeAuthorization.Authorization.RegisterControllerScope` | native/agent/portmanager_agent_authorization.h:217-229 | refines registration: refused for a conflicting inherited or pinned network |
| `NetworkBroker.StepBalanced` | native/network-broker/portmanager_network_broker.c:117-443 | every slot step opens, moves and closes descriptors so that what the slot and the closed ones gained is what was opened |
| `NetworkBroker.StepFlags` | native/network-broker/portmanager_network_broker.c:117-299 | every slot step keeps each open file description at the flag it came with, unless one slot is using it nonblockingly or a call restoring it failed, and never makes nonblocking what another slot has changed |
| `NetworkBroker.StepSlot` | native/network-broker/portmanager_network_broker.c:300-443 | every step keeps phases, peer and deadline or frees the slot, and with an agent performs socket operations, retried accepts too, only after the agent acknowledged the broker and then the identity that was asked for |
| `NetworkBroker.WaitsExactly` | native/network-broker/portmanager_network_broker.c:216-299 | a connect or accept that would have to wait is answered instead exactly when it finds the description's flag nonblocking |
| `BrokerLoop.RunKeeps` | native/network-broker/portmanager_network_broker.c:383-447 | ownership, slots, socket flags and authorization hold after every run of turns |
| `BrokerServer.Broker.FindFree` | native/network-broker/portmanager_network_broker.c:369-370 | finds the first free slot |
| `BrokerServer.Broker.Restore` | native/network-broker/portmanager_network_broker.c:118 | puts a changed flag back or leaves it, touching nothing but that description |
| `BrokerServer.Broker.ReleaseClient` | native/network-broker/portmanager_network_broker.c:117-126 | releasing in place takes the specification's release step and leaves the other slots alone |
| `BrokerServer.Broker.ReplyTo` | native/network-broker/portmanager_network_broker.c:127-142 | replying in place takes the reply step: a failed restoration turns a success into a failure that returns nothing |
| `BrokerServer.Broker.MakeNonblocking` | native/network-broker/portmanager_network_broker.c:216-224 | changes the flag only if it blocks now, and then remembers it |
| `BrokerServer.Broker.TryAccept` | native/network-broker/portmanager_network_broker.c:225-241 | takes the accept step: wait, fail, or return a configured connection; which descriptor comes back: `BrokerAnswers.RequestIsAnswered`, `BrokerAnswers.RetriedAcceptIsAnswered` |
| `BrokerServer.Broker.ExecuteRequest` | native/network-broker/portmanager_network_broker.c:242-299 | takes the execution step for every kind of request; what the peer gets: `BrokerAnswers.RequestIsAnswered` |
| `BrokerServer.Broker.ReceiveItems` | native/network-broker/portmanager_network_broker.c:314-324 | the loop over what came with a byte takes the specification's items in order: a socket is kept exactly if it is the slot's first and nothing before it was invalid, every other one is closed at once, and the message is invalid from the first offence on |
| `BrokerServer.Broker.BeginRegistration` | native/network-broker/portmanager_network_broker.c:330-332 | asks the agent for the broker or the peer, or replies that it cannot |
| `BrokerServer.Broker.ReceiveOne` | native/network-broker/portmanager_network_broker.c:300-335 | takes the step of one received byte |
| `BrokerServer.Broker.ProgressOne` | native/network-broker/portmanager_network_broker.c:420-428 | takes the step of one answer of the agent |
| `BrokerServer.Broker.ReadyOne` | native/network-broker/portmanager_network_broker.c:429-436 | takes the step of a socket that became ready |
| `BrokerServer.Broker.SendOne` | native/network-broker/portmanager_network_broker.c:354-363 | takes the step of sending the reply |
| `BrokerServer.Broker.Handle` | native/network-broker/portmanager_network_broker.c:405-443 | any event on any slot of the array is the specification's step on that slot |
| `BrokerServer.Broker.Stop` | native/network-broker/portmanager_network_broker.c:446 | releases every slot, as the specification's shutdown does |
| `BrokerServer.Broker.constructor` | native/network-broker/portmanager_network_broker.c:117-126 | a new server's array holds 64 free slots and it has no descriptor |
| `BrokerServer.Broker.AdmitArrivals` | native/network-broker/portmanager_network_broker.c:365-382 | admits the arrivals in order |
| `BrokerLoop.ExecutionsAreAuthorized` | native/network-broker/portmanager_network_broker.c:300-428 | in every run with an agent configured, each socket operation, including each retried accept, was performed after that slot's registrations for the broker and then for that peer identity were acknowledged |
| `BrokerLoop.DescriptorsHaveOneOwner` | native/network-broker/portmanager_network_broker.c:117-443 | each descriptor is in exactly one field of one slot and open, or in none and closed exactly once |
| `BrokerLoop.ShutdownClosesEverything` | native/network-broker/portmanager_network_broker.c:446 | after the final release every descriptor ever opened has been closed exactly once |
| `BrokerLoop.FlagsAreRestored` | native/network-broker/portmanager_network_broker.c:117-142 | in every run, for every open file description shared by any number of received copies: at most one slot has changed its flag, and while none has, the flag is as the first copy came if and only if no call restoring it failed |
| `BrokerLoop.BlockingCallIsRefusedExactly` | native/network-broker/portmanager_network_broker.c:216-329 | in every run, with an agent (where the peer's acknowledgement executes) and without one (where the last byte does), a connect or accept that would wait, on a socket that came blocking, is answered at once if and only if another slot is using a copy of it nonblockingly or a call restoring its flag failed |
| `BrokerLoop.WaitingCallGoesOn` | native/network-broker/portmanager_network_broker.c:225-231 | in every run an accept that waits and is tried again without a connection goes on waiting |
| `BrokerAnswers.RequestIsAnswered` | native/network-broker/portmanager_network_broker.c:242-299 | in every run a slot that performs its request is refused, left waiting or answered; the reply is a success if and only if the call was and no restoring call failed; a descriptor the call gave then comes back unclosed, and otherwise none comes back and it is closed once |
| `BrokerAnswers.RetriedAcceptIsAnswered` | native/network-broker/portmanager_network_broker.c:225-241 | in every run a retried accept returns the descriptor it was given, unclosed, if and only if it could be configured and the listener's flag restored, and closes it otherwise; without one it waits on or fails |
| `BrokerAnswers.WaitingConnectIsAnswered` | native/network-broker/portmanager_network_broker.c:431-435 | in every run a waiting connect is a success if and only if it came about and its socket's flag could be restored |
| `BrokerAnswers.ItemsOutcome` | native/network-broker/portmanager_network_broker.c:313-327 | what came with a byte is valid if and only if it was whole and nothing, or the slot's first socket alone; that socket is then the slot's, with the description it came with |
| `BrokerAnswers.ByteIsTaken` | native/network-broker/portmanager_network_broker.c:300-335 | in every run the end of the connection frees the slot, anything invalid fails the request, a valid socket is kept, and after the last byte the agent is asked for the broker first |
| `BrokerAnswers.AgentIsAskedForThePeer` | native/network-broker/portmanager_network_broker.c:420-427 | in every run a refusal by the agent fails the request, and the broker's acknowledgement closes its connection and asks for the peer on a new one |
| `BrokerAnswers.ReplyIsSent` | native/network-broker/portmanager_network_broker.c:354-363 | in every run a returned descriptor is held until acknowledged, and sending the last byte of any other reply frees the slot |
| `BrokerAnswers.ArrivalIsAdmitted` | native/network-broker/portmanager_network_broker.c:365-382 | in every run a usable connection gets a free slot, if there is one, for 8000 ms; any other is closed and no slot changes |
| `BrokerAnswers.TurnDropsExactly` | native/network-broker/portmanager_network_broker.c:401-405 | in every run a turn frees each slot whose deadline has come or whose peer is another process, and leaves alone a slot to which nothing happened |
| `BrokerAnswers.WorkingCallsRestoreEveryFlag` | native/network-broker/portmanager_network_broker.c:117-142 | in every run whose restoring calls all succeed, each description no slot is using nonblockingly has the flag it came with |
| `BrokerCases.FailedRestoreStays` | native/network-broker/portmanager_network_broker.c:135-140 | a run from the start in which a reply's restoring call fails: after the slot is released with every other call succeeding, the description is still nonblocking though it came blocking |
| `BrokerCases.SecondAcceptIsRefused` | native/network-broker/portmanager_network_broker.c:225-233 | a run from the start in which one peer waits in accept and another peer's blocking accept on a copy of the same listener is answered instead of waiting |
| `BrokerLoop.NoSlotOutlivesItsDeadline` | native/network-broker/portmanager_network_broker.c:401-405 | after a turn that visits every slot, an occupied slot's deadline lies after the turn's time |
| `BrokerServer.Broker.AdmitOne` | native/network-broker/portmanager_network_broker.c:365-382 | refines admission into the first free slot, or closes the connection |
| `BrokerServer.Broker.ServeSlot` | native/network-broker/portmanager_network_broker.c:402-444 | refines one slot's visit: deadline and birth first, then its events |
| `BrokerServer.Broker.ServeTurn` | native/network-broker/portmanager_network_broker.c:383-445 | refines a whole turn over the array: admissions, then every slot in order, keeping the invariants |
| `Json.CloseAll` | native/agent/portmanager_agent_json.c:101-161 | a printed string ends where it was printed to end, and shows an escape exactly if some character needed one |
| `Json.ScanString` | native/agent/portmanager_agent_json.c:177-193 | a printed string is taken for the key exactly when it is at depth one, plain, equal to the key and followed by a colon; otherwise the scan goes on behind it |
| `Json.ScanValue` | native/agent/portmanager_agent_json.c:171-195 | no printed value, however nested and whatever its strings contain, is taken for a key unless it is a string followed by a colon |
| `Json.ScanOuter` | native/agent/portmanager_agent_json.c:171-195 | scanning the outer members finds the first of that name, whatever is nested in values before it |
| `Json.LookupFindsFirstMember` | native/agent/portmanager_agent_json.c:171-195 | in every printed object whose bare values are not empty and start with no blank, lookup of a plain key finds the first outer member of that name and nothing otherwise; a key that needs an escape is never found |
| `Json.EscapedKeyIsNotFound` | native/agent/portmanager_agent_json.c:171-195 | an object with one member whose key holds a quote: the member is there and is not found |
| `Json.ReadBack` | native/agent/portmanager_agent_json.c:197-263 | reading a printed string returns the printed text exactly when it fits the buffer, control characters without a short escape as '?' |
| `Json.ReadPrinted` | native/agent/portmanager_agent_json.c:197-263 | reading a whole printed string returns its text exactly when it fits |
| `Json.PrintedStringReadsBack` | native/agent/portmanager_agent_json.c:265-273 | for every such printed object, reading a plain key returns the text of the first outer member of that name if it is a string that fits, and nothing if there is no such member |
| `Json.EscapesAreStandard` | native/agent/portmanager_agent_json.c:101-161 | quote, backslash, the five control characters with short forms and the others print as section 7 of RFC 8259 has them, and everything else as itself |
| `JsonText.Grow` | native/agent/portmanager_agent_json.c:9-32 | the new capacity is enough and is doubled no more than needed |
| `JsonText.Buffer.constructor` | native/agent/portmanager_agent_json.c:34-38 | a new buffer is empty |
| `JsonText.Buffer.Append` | native/agent/portmanager_agent_json.c:47-63 | appends the text and keeps room for the terminator |
| `JsonText.Buffer.AppendString` | native/agent/portmanager_agent_json.c:101-161 | appends exactly the printed string, with room for the terminator |
| `JsonText.FindQuote` | native/agent/portmanager_agent_json.c:183-187 | the inner loop finds the end of a string body and whether it is escaped |
| `JsonText.SkipBlank` | native/agent/portmanager_agent_json.c:163-169 | stops at the first character that is not blank |
| `JsonText.AtString` | native/agent/portmanager_agent_json.c:180-193 | one string of the scan is either the answer or is passed without changing it |
| `JsonText.FindJsonKey` | native/agent/portmanager_agent_json.c:171-195 | the cursor loop finds the place the specified lookup finds |
| `JsonText.ReadJsonString` | native/agent/portmanager_agent_json.c:197-263 | the reading loop returns what the specified reader returns |
| `JsonValidator.EndsCloses` | native/shared/pm_agent_scope_client.h:102-116 | validator and accessor agree on where a valid string ends and on whether it is escaped |
| `JsonValidator.ScanAccepted` | native/shared/pm_agent_scope_client.h:117-157 | no accepted value is taken for a key unless it is a string followed by a colon |
| `JsonValidator.ScanListed` | native/shared/pm_agent_scope_client.h:126-142 | lookup in accepted members finds exactly what the list of outer members holds |
| `JsonValidator.ListedDistinct` | native/shared/pm_agent_scope_client.h:126-137 | the outer members of an accepted object have pairwise different names |
| `JsonValidator.AcceptedMembersAreUnique` | native/shared/pm_agent_scope_client.h:98-157 | for every object the validator accepts, lookup finds exactly the outer members and each is the only one of its name |
| `JsonAccepted.StringRead` | native/shared/pm_agent_scope_client.h:102-116 | every printed string is accepted, whatever its characters |
| `JsonAccepted.NumberRead` | native/shared/pm_agent_scope_client.h:148-156 | every number of RFC 8259 is accepted to its end |
| `JsonAccepted.PrintedIsAccepted` | native/shared/pm_agent_scope_client.h:98-157 | every printed object within eight levels and 16 different unescaped names a level is accepted to its last character |
| `JsonGrammar.ReadValue` | native/shared/pm_agent_scope_client.h:117-157 | whatever is accepted is derived by the grammar within the limits |
| `JsonGrammar.TreeRead` | native/shared/pm_agent_scope_client.h:117-157 | whatever the grammar derives within the limits is accepted, blanks included |
| `JsonGrammar.AcceptsExactlyTheGrammar` | native/shared/pm_agent_scope_client.h:98-157 | a text is accepted to its end if and only if the grammar of RFC 8259 derives it within the limits on depth and names |
| `DnsTable.LowerBoundIsFirst` | native/agent/portmanager_agent_dns.c:131-163 | at the lower bound of the sorted index stands the first record with the name, if there is one |
| `DnsTable.IndexOrderTotal` | native/agent/portmanager_agent_dns.c:131-138 | the comparison is a total order on the table's rows |
| `DnsTable.Lookup` | native/agent/portmanager_agent_dns.c:153-170 | binary search over the index returns the row of the first-match scan, for every table and name |
| `DnsTable.BuildIndex` | native/agent/portmanager_agent_dns.c:140-151 | the index holds every record once, by name and then by position |
| `Dns.NamesFit` | native/agent/portmanager_agent_dns.c:523-561 | a name that is read always fits its 256-byte buffer with the terminator |
| `Dns.SameBytesSameName` | native/agent/portmanager_agent_dns.c:536-555 | parsing depends only on the bytes of the question |
| `Dns.ResponseFits` | native/agent/portmanager_agent_dns.c:589-644 | every response stays within its buffer and carries the query's id; it is empty exactly for a query under 12 bytes or a buffer without 28 bytes to spare |
| `Dns.ResponseParts` | native/agent/portmanager_agent_dns.c:618-643 | the response is its header, the query's own question and, exactly for a wanted known name, the answer |
| `Dns.QuestionReadsBack` | native/agent/portmanager_agent_dns.c:614-627 | for a query with a readable question, the echoed question reads back as the query's question |
| `Dns.AnswersExactly` | native/agent/portmanager_agent_dns.c:618-643 | there is an A answer if and only if the question is of class IN and type A or ANY and the name, read as C text, is in the table; its last four bytes are then the address of the first record with that name, in order, behind the fixed fields of a record; the header's bytes say so, with code 3 for an unknown name |
| `Dns.QuestionFields` | native/agent/portmanager_agent_dns.c:557-564 | type and class are the four bytes before the end of the question |
| `Dns.BareResponses` | native/agent/portmanager_agent_dns.c:605-616 | a query without a question gets a bare header without error, one whose question cannot be read a bare header with a format error |
| `DnsNames.ZeroByteFindsAnother` | native/agent/portmanager_agent_dns.c:551-563 | a packet whose label holds a zero byte gets an A answer from a table in which no record has its labels |
| `DnsNames.DottedLabelFindsAnother` | native/agent/portmanager_agent_dns.c:548-553 | a packet whose one label holds a dot gets the A answer of a record with two labels |
| `DnsNames.RowHasTheLabels` | native/agent/portmanager_agent_dns.c:536-563 | for a table of hostnames and any readable question: a record found has the question's labels if and only if no label byte is zero or a dot; and the row found is the first row with those labels if and only if that, or nothing was found |
| `DnsNames.ParsedText` | native/agent/portmanager_agent_dns.c:536-561 | the name read is the question's labels joined with dots |
| `DnsNames.CleanBytes` | native/agent/portmanager_agent_dns.c:551-553 | the label bytes hold no zero and no dot exactly if the labels read hold none |
| `DnsNames.SplitDotted` | native/agent/portmanager_agent_dns.c:548-553 | labels without dots, joined with dots, are cut back into themselves |
| `DnsNames.DottedSplit` | native/agent/portmanager_agent_dns.c:548-553 | any text, cut at its dots and joined again, is itself |
| `Dns.EncodedReads` | native/agent/portmanager_agent_dns.c:536-555 | from any label boundary on, the encoded labels parse to the hostname |
| `Dns.HostnameSurvives` | native/agent/portmanager_agent_dns.c:523-566 | every normalized hostname, encoded label by label, is read back as itself with its type and class |
| `Dns.NormalizeHostname` | native/agent/portmanager_agent_dns.c:68-102 | accepts exactly the names that are hostnames after dropping one final dot and lowercasing, and returns them lowercased |
| `Dns.ReadQuestion` | native/agent/portmanager_agent_dns.c:523-566 | the parsing loop returns the specified question |
| `Dns.Write` | native/agent/portmanager_agent_dns.c:577-643 | writes the bytes and keeps everything before them |
| `Dns.WriteParts` | native/agent/portmanager_agent_dns.c:620-643 | the buffer then starts with header, question and answer |
| `Dns.BuildResponse` | native/agent/portmanager_agent_dns.c:589-644 | the buffer holds exactly the specified response |
| `Calendar.YearStep` | native/agent/portmanager_agent_probe.c:283-288 | the years' part of the era formula grows from one year to the next by 366 exactly for a leap year, else by 365 |
| `Calendar.NextDayIsOneMore` | native/agent/portmanager_agent_probe.c:283-288 | the era formula grows by one from each valid day to the next |
| `Calendar.EraDaysCounts` | native/agent/portmanager_agent_probe.c:283-288 | the era formula of the n-th day after the epoch, counted one by one, is n |
| `Calendar.EveryDateIsCounted` | native/agent/portmanager_agent_probe.c:283-288 | every valid date from 1970 on is the day whose number the formula gives |
| `Calendar.DatesAreOrdered` | native/agent/portmanager_agent_probe.c:283-288 | an earlier date has a smaller day number |
| `Calendar.NextDayIsADayLater` | native/agent/portmanager_agent_probe.c:283-289 | consecutive days differ by exactly 86400000 milliseconds |
| `Calendar.MillisSinceTheEpoch` | native/agent/portmanager_agent_probe.c:283-289 | a timestamp is 86400000 ms for each day since the epoch plus its time of day |
| `Calendar.FractionIsCut` | native/agent/portmanager_agent_probe.c:262-278 | the milliseconds are the whole thousandths of the decimal fraction, cut and not rounded |
| `Calendar.MillisPreserveOrder` | native/agent/portmanager_agent_probe.c:283-289 | earlier timestamps get smaller values |
| `Calendar.ReadTail` | native/agent/portmanager_agent_probe.c:261-281 | accepts exactly an optional fraction and the final Z, and cuts the fraction to milliseconds |
| `Calendar.EpochMilliseconds` | native/agent/portmanager_agent_probe.c:252-290 | accepts exactly the fields of valid timestamps from 1970 to 9999 with a valid tail, and returns their milliseconds |

## Left out

- Poll loop, socket accept and read plumbing, argument parsing and request dispatch of the daemon: glue around the modelled components.
- Operating-system adapters (`lsof` and `ps` parsing, process tables, address lookup, spawning): their answers are parameters.
- Integer and raw-value accessors of the JSON reader.
- Json.LookupFindsFirstMember: a member whose bare value is empty or starts with a blank is not covered; such text is no JSON value.
- Docker, version-manager and process shims, launcher, TCP byte pump and peer attribution: command-line and system plumbing.
- Startup adoption of route files: a writer starts from any state whose written sets cover the disk; how file names are sorted into networks, entries and claims is not modelled.
- Sorting and binary search of the writer's path lists and its signature arrays: modelled as membership and as a map.
- Freshness of reused route files for readers: not a property of the writer, which may keep an unchanged file.
- On-disk and in-memory DNS tables under cancellation, and the fence of DNS table replacement: only lookup and responses are modelled.
- Reference counts of publication receipts and of delivery receipts: a receipt is its number and stays readable.
- Fixed-buffer truncation, reallocation failure, logging, and timestamps as text.
- Integer overflow of a requested port plus a huge scan range, of allocation numbers and of revisions: integers are unbounded.
- Scheduling of route publication (coalescing window, retry delay, heartbeat): a flush may happen at any time.
- Concurrency and byte budgets of the scan broker's polling: a capture completes, successfully or not, at any time.
- Address policy of the network broker (`pm_nb_target` and the address tests): its verdict is part of the answer to a request.
- The agent registration client's own phases: an acknowledgement arrives or is refused; only its JSON validation is modelled.
- RouteAllocator.Allocator.AllocateRoute: does not model how an active route or a host listener is found, which are answers, nor the publication of the route tables afterwards, which is the revision protocol's flush.
- OutputTotals.TotalsAreExact: states the daemon-wide totals on values, not on heap objects; sharing of a payload is its number.
- RouteFiles.SuccessfulPassIsExact: speaks of files no other program touched since this writer last did, because a skipped write trusts its signature; a repair removes that exception.
- ScopeRegistry: that an identity (pid and birth) once gone never returns, and that a process born later has no smaller birth, are taken as facts about the operating system.
- NetworkBroker: peers that change the flag of a socket themselves while the broker holds a copy are not modelled.
- Calendar.EpochMilliseconds: takes the six numbers that `sscanf` reads; how they are read from text is not modelled.
- ListenerReconcile.CapturesAreFenced: a registration is one that changed the row; an identical report does not count, as in the source.
