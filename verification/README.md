# libinotify-kqueue in Dafny

libinotify-kqueue emulates the Linux inotify interface on top of the BSD kqueue. A program holds
inotify instances; each has a worker thread that owns a set of kqueue watches, compares directory
listings to find out what happened in a directory, and feeds events through a bounded queue into a
pipe. This project models the logic behind that and proves what it is relied on for.

The parts, from the bottom up:

* **Rank-balanced tree** (`RankTree.dfy`, `TreeOrders.dfy`): the weak-AVL tree that holds directory
  lists and watches, as a tree value and a path up to the root that stands for the parent links.
* **Directory diff** (`Names`, `DirEvents`, `RenameGraph`, `DepList`, `DiffSpec`, `DiffMeaning`,
  `DirDiff`): a class `DirList` whose methods read a listing, match renames by inode, schedule
  overlapping renames over several rounds, break circular ones and rebuild the stored list. The
  lemmas say what the reported events mean when they are replayed on the old directory.
* **Masks and filters** (`Flags.dfy`): the translation between inotify masks and kqueue filters, and
  what sharing one watch between subscribers does to the reports.
* **Watch graph** (`WatchGraph`, `Subwatches`, `Hub`, `DiffCallbacks`, `DirRefresh`, `MaskUpdate`,
  `WatchLife`, `NewWatch`, `Notify`, `Descriptors`, `Worker`): one kqueue watch per file, shared
  through dependency records; a directory diff from its listing to the entries that are freed; a
  change of mask; the beginning and the end of an inotify watch; a kernel event. The class `Worker`
  has the operations, and every one of them keeps the invariant `Worker.Valid`.
* **Reader** (`ClientView.dfy`): what a program that follows the events of a directory knows of it.
* **Sharing** (`Sharing`, `Transparency`): what an inotify watch hears of a whole kernel event, and
  how that depends on the others that have records on the same watch.
* **Event queue and pipe** (`EventStream`, `EventQueue`): coalescing, the overflow marker, partial
  flushes, and the accounting of the space in the pipe.
* **Worker protocol** (`Protocol`, `ProtocolInv`, `ProtocolRuns`, `ProtocolEnds`): user threads and
  worker threads as a state machine over atomic steps, with safety over all runs, and a measure that
  every step forward makes smaller.

Three things the source is meant to do turn out not to hold in every case. Each has its exact
condition here:

* Replaying the reported events gives the new directory if and only if the renames are not circular
  (`DirDiff.DirList.Refresh`, example `DirDiff.SwapIsCircular`). With circular renames exactly one
  name per cycle is missed.
* What an inotify watch hears of a kernel event is what it would hear with the watch to itself, except
  for stray messages: when the file system is revoked, an event bit that only others asked for is
  reported as one more IN_UNMOUNT (`Flags.Stray`). A watch without IN_ONESHOT hears the same if and
  only if there is no stray message, and the same messages, if not as many times, in any case. A
  one-shot watch closes after its first message; it hears the same if and only if every stray message
  comes after one of its own, or its own first message is IN_UNMOUNT alone
  (`Transparency.SharingIsTransparent`; example `Transparency.OneShotExample`: the watch hears
  IN_UNMOUNT and never learns of the rename).
* While a mask is changed, the filter computed for a watch, which watch.c:231 asserts to be not empty,
  is empty at some point if and only if the new mask asks nothing of a file that has two or more names
  in the directory and no other records (`Worker.Worker.UpdateFlags`, `MaskUpdate.TracedDone`; example
  `MaskUpdate.EmptyOnTheWayExample`).

Assumptions, all of them visible as preconditions or as the steps of a state machine: a listing has
no name twice; a directory does not contain itself; what the system says of the type of a file is
true, or not known, and a file that is watched keeps its type (`fs` in the watch graph, which
`Worker.TypesKnown` shows to be just that); what is watched is a regular file, a directory or a
symbolic link; registrations and allocations succeed; `sendmsg` sends everything or nothing; the
notice that the pipe is empty comes only when it is. The comment in compat/tree.h:53-70
gives the null node the rank -1; the code, and this model, go by rank 0, which is what makes the rank
of a leaf 1.

## Model

| member | source | states |
|---|---|---|
| `Names.NameOrderTotal` | dep-list.c:491-498 | The order that names are compared in is total and strict. |
| `Names.NameOrderTransitive` | dep-list.c:491-498 | ... and transitive, so that a list in this order has each name once. |
| `RenameGraph.StuckIsCycles` | dep-list.c:434-461 | When a round of renames makes no progress, every pending rename lies on a cycle of at least two pending renames. |
| `RenameGraph.CyclesDisjoint` | dep-list.c:434-461 | Two cycles that share a rename are the same set of renames: the pending ones are a union of disjoint cycles. |
| `RenameGraph.ForcedOnCycle` | dep-list.c:452-460 | A rename that is reported before its target name is vacated lies on a cycle that is pending as a whole at that time. |
| `RenameGraph.CycleIsBroken` | dep-list.c:452-460 | In a complete schedule every cycle has such a rename ... |
| `RenameGraph.CycleBrokenOnce` | dep-list.c:452-460 | ... and only one. |
| `RenameGraph.ForcedIffCyclic` | dep-list.c:434-461 | A complete schedule reports no rename early if and only if the renames have no cycle. |
| `DepList.MatchCorrect` | dep-list.c:373-398 | Matching renames is one-to-one and keeps inodes, only changed entries take part, and per inode it leaves no pair of an old and a new entry unmatched. |
| `DiffSpec.LegalGivesPlan` | dep-list.c:411-468 | A schedule of the renames, between the removals and the additions, makes each callback that is due exactly once, each kind in its stage, and no rename onto a name before that is vacated, except the early ones. |
| `DiffMeaning.ReplayMeaning` | dep-list.c:400-468 | Replaying the reported events on the old directory gives the new one without the target names of the early renames; it gives exactly the new one if and only if there are none. |
| `DiffMeaning.ReportOrder` | dep-list.c:400-410 | Every name disappears before it reappears if and only if no rename was early; then also each event finds the directory as it says: sources in place, targets free or reported as replaced. |
| `DiffMeaning.OneRoleEach` | dep-list.c:411-468 | Every changed old entry leaves and every new one appears in exactly one event. |
| `DirDiff.ReadingIsReadState` | dep-list.c:226-297 | Splitting a listing against the stored list gives the diff unique names on both sides, and a new entry points to the old one of its name exactly if that has another inode. |
| `DirDiff.GoalIsListing` | dep-list.c:226-297 | The unchanged and the new entries together are the listing. |
| `DirDiff.NoProgress` | dep-list.c:452-460 | A round that reports nothing was not already a forced one, and leaves all pending renames blocked by each other. |
| `DirDiff.InsertSorted` | dep-list.c:163-176 | Inserting an entry with a new name keeps a list in name order. |
| `DirDiff.RebuiltShowsGoal` | dep-list.c:470-481 | The rebuilt list shows exactly the unchanged and the new entries. |
| `DirDiff.NoSentinel` | dep-list.h:35-39 | At every stage of matching renames and of reporting them no old or new entry carries the type word that is reserved for search keys. |
| `DirDiff.DiffTheorem` | dep-list.c:226-481 | The whole diff, from a stored list and a listing to the final list and the meaning of the report, circular renames or not. |
| `DirDiff.SwapIsCircular` | dep-list.c:452-460 | Two entries that swap their names are a circular rename. |
| `DirDiff.DirList.ReadDir` | dep-list.c:226-297 | Marks the entries that are still there, and collects the others of the listing with the entry whose name they take. |
| `DirDiff.DirList.MatchMoves` | dep-list.c:373-398 | Leaves the marks and links of the matching, and returns the number of renames. |
| `DirDiff.DirList.ReportGone` | dep-list.c:411-421 | Reports the entries that are gone, as removed or as replaced, in list order. |
| `DirDiff.DirList.Round` | dep-list.c:437-451 | One round reports renames whose target is free, or one that is not if that is wanted, and counts them. |
| `DirDiff.DirList.ReportMoves` | dep-list.c:434-461 | The rounds end for every input, with all renames reported, in an order that the two lists alone determine. |
| `DirDiff.DirList.ReportAdded` | dep-list.c:462-467 | Reports the new entries that are not renames. |
| `DirDiff.DirList.Calculate` | dep-list.c:350-481 | Makes the callbacks of a legal plan, in its order, and leaves the stored list rebuilt. |
| `DirDiff.DirList.Refresh` | dep-list.c:226-481 | The stored list shows the listing afterwards, in name order and without marks; replay gives it, in order and step by step, if and only if the renames have no cycle, and misses the names of the early renames otherwise. |
| `RankTree.InsertColor` | compat/tree.h:463-513 | Restores the weak-AVL conditions after a node was attached, through every flip and rotation, and keeps the order of the elements. |
| `RankTree.Insert` | compat/tree.h:637-669 | Adds exactly the new element, at its place, unless one compares equal; order and balance stay. |
| `RankTree.RemoveColor` | compat/tree.h:515-593 | Restores the weak-AVL conditions after a node was taken out, through every demotion and rotation, and keeps the order of the elements. |
| `RankTree.Remove` | compat/tree.h:595-635 | Takes exactly the root of a subtree out, also by moving its successor to its place, and keeps the tree balanced. |
| `RankTree.Delete` | compat/tree.h:595-635 | Removes exactly the element that compares equal; order and balance stay. |
| `RankTree.Find` | compat/tree.h:671-688 | Finds an element that compares equal if and only if there is one. |
| `RankTree.Smallest` | compat/tree.h:758-772 | Finds the leftmost element. |
| `RankTree.Next` | compat/tree.h:712-733 | Steps to the next element in order, or past the end. |
| `RankTree.Foreach` | compat/tree.h:712-772 | Stepping from the smallest element on visits all elements, in order, once. |
| `RankTree.HeightBound` | compat/tree.h:53-70 | A balanced tree with n nodes and height h has 2^h at most (n + 1)^2. |
| `TreeOrders.ItemCmpOrders` | dep-list.c:491-498 | The comparison of directory entries is one the tree works with. |
| `TreeOrders.InsertEntry` | dep-list.c:93-101 | Inserting an entry into the tree inserts it into the list in name order. |
| `TreeOrders.FindEntry` | dep-list.c:203-215 | Looking up a name in the tree finds the entry the list has under it. |
| `TreeOrders.RemoveEntry` | dep-list.c:109-117 | Removing an entry from the tree cuts exactly it out of the list. |
| `TreeOrders.KeyCmpOrders` | watch-set.c:142-154 | The comparison of watches is one the tree works with, and only equal keys compare equal. |
| `TreeOrders.KeysStay` | watch-set.c:142-154 | Whatever record of a watch comes first, the key derived from it is the one the watch was inserted with. |
| `TreeOrders.StillIndexes` | watch-set.c:142-154 | However records were added, removed and re-pointed, the tree is in order under the comparison that goes by the records there are now. |
| `TreeOrders.FindWatch` | watch-set.c:115-132 | With that comparison, in a tree that was built under earlier records, a lookup returns the watch of the file if and only if there is one. |
| `TreeOrders.InsertWatch` | watch-set.c:98-106 | A new watch, compared by its first record, is in the tree afterwards, next to all others. |
| `TreeOrders.RemoveWatch` | watch-set.c:82-90 | A watch goes from the tree, and no other does. |
| `Flags.ParentFilter` | watch.c:53-97 | A watch on the file itself has a filter that is not empty if and only if the type of the file is supported. |
| `Flags.SharingTransparent` | worker-thread.c:362-400 | For one bit, before any closing: a subscriber of a shared watch compares its directory exactly when it would if the event were cut down to its own filter; up to IN_ISDIR it is offered the same report if and only if the bit is not a stray one, for which it is offered IN_UNMOUNT instead of nothing. |
| `Flags.IsDirDifference` | watch.c:148-153 | When exactly IN_ISDIR differs between the shared and the own event. |
| `Flags.StrayExample` | worker-thread.c:391-398 | A stray report does occur. |
| `WatchGraph.AddDepKeeps` | watch.c:394-433 | Adding a record to a watch, new or not, keeps the graph and its filters. |
| `WatchGraph.DelDepKeeps` | watch.c:443-462 | Removing a record removes exactly that one; a watch without records goes, and filters agree again. |
| `WatchGraph.ChgDepKeeps` | watch.c:473-492 | Re-pointing a record to another entry for the same file changes exactly that record, and keeps graph and filters. |
| `Subwatches.AddSubwatchKeeps` | inotify-watch.c:215-322 | Starting to watch an entry, in each of its cases, keeps graph and filters. |
| `Subwatches.DelSubwatchKeeps` | inotify-watch.c:330-343 | After an entry is no longer watched no record refers to it, and no other record has changed. |
| `Subwatches.MoveSubwatchKeeps` | inotify-watch.c:352-368 | After a rename nothing refers to the old entry, and only the new entry has gained a record. |
| `Hub.TellKeeps` | worker-thread.c:61-101 | Offering an event keeps all invariants, among them that a one-shot watch that told something is closed. |
| `Hub.RemovedKeeps` | worker-thread.c:186-203 | The callback for a removed entry keeps all invariants, and takes exactly this entry off the list. |
| `Hub.ReplacedKeeps` | worker-thread.c:214-223 | The same for a replaced entry. |
| `Hub.MovedKeeps` | worker-thread.c:235-250 | The callback for a rename keeps all invariants, and puts the new entry in the place of the old one. |
| `Hub.AddedKeeps` | worker-thread.c:160-176 | The callback for a new entry keeps all invariants, and adds exactly this entry to the list. |
| `Hub.NothingAfterIgnored` | worker.c:612-621 | After IN_IGNORED nothing is offered for a descriptor, not even a second one, until it is handed out again. |
| `DiffCallbacks.TraceKeeps` | worker-thread.c:269-289 | At every stage of a diff the graph is sound, the list is what the callbacks so far make it, and nothing else has changed. |
| `DiffCallbacks.DiffKeepsGraph` | dep-list.c:411-480 | No stale references: when a diff frees its changed old entries no record refers to them; the list holds the unchanged and the new entries; the watch of the directory and all other inotify watches are as before. |
| `ClientView.MovedConveyed` | worker-thread.c:235-250 | A rename is reported as IN_MOVED_FROM with the old name and IN_MOVED_TO with the new one, next to each other, and both with the lower half of the inode as cookie. |
| `ClientView.ActConveyed` | worker-thread.c:160-250 | Each callback tells a reader the same as the event of the diff that it is made for. |
| `DirRefresh.RunKeeps` | worker-thread.c:269-289 | A whole diff, from any true listing: all invariants hold, no other inotify watch and no entry of another directory is touched, no entry is in memory that is in no list, and the list has the names of the listing, each with the listed inode or the one found on opening it. |
| `DirRefresh.ReaderFollows` | worker-thread.c:269-289 | A program that adds a name on IN_CREATE and IN_MOVED_TO and removes one on IN_DELETE and IN_MOVED_FROM knows the names of the directory after a diff if and only if the renames between the stored list and the listing have no cycle. |
| `MaskUpdate.RemaskedKeeps` | inotify-watch.c:387-398 | With the new mask in place, all filters are right except as far as entries of this directory are still to be done. |
| `MaskUpdate.StageNext` | inotify-watch.c:401-411 | Doing one entry leaves that to the others, touches no other record, and leaves the entry watched if it has to be and can be opened. |
| `MaskUpdate.EmptyOnTheWay` | watch.c:211-234 | When one entry is done, a computed filter is empty if and only if all remaining records belong to other names of the file in the directory that are still to be removed. |
| `MaskUpdate.TracedDone` | watch.c:211-234 | Over all entries, whatever their order: an empty filter was computed at some point if and only if, with the new mask in place, some watch had records for two or more names of its file in this directory, all of them unwanted, and no others. |
| `MaskUpdate.EmptyOnTheWayExample` | inotify-watch.c:401-411 | That happens in a sound graph with two names for one file. |
| `WatchLife.AttachedKeeps` | inotify-watch.c:104-177 | A new inotify watch with its record on a new or a shared watch keeps the graph and its filters. |
| `WatchLife.UnwatchDone` | inotify-watch.c:184-206 | Freeing an inotify watch takes away exactly its records; nothing refers to its entries; the rest stays sound. |
| `Notify.TellsReported` | worker-thread.c:391-398 | What a record is told for a bit is the report that its mask and the event call for. |
| `Notify.AssertionsHold` | worker-thread.c:374-377 | The four assertions of the notification loop: the derived key leads back to the watch; type and inode agree; the entry of a record is the one the directory list has under its name. |
| `Notify.DiffKeeps` | worker-thread.c:269-289 | A diff in the middle of the notification loop leaves the records the loop goes through as they are. |
| `Notify.RowsKeep` | worker-thread.c:362-400 | Through all bits and records all invariants hold, the watch and its records stay, and after the bit that calls for a diff the list of the directory shows the listing. |
| `Sharing.RowsHear` | worker-thread.c:362-400 | Through all bits and records an inotify watch hears what each bit offers to each of its records, in order: the report, or the changes of the directory; after the first message a one-shot watch hears nothing more. |
| `Transparency.SharingIsTransparent` | worker-thread.c:362-400 | For a whole kernel event, with the closing of one-shot watches: an inotify watch hears the same as if it had the watch to itself and the event were cut down to its filter, if and only if stray messages do no harm; a one-shot watch that they do harm to hears one IN_UNMOUNT. |
| `Transparency.SameMessages` | worker-thread.c:362-400 | An inotify watch without IN_ONESHOT hears a message if and only if it would hear it with the watch to itself. |
| `Transparency.OneShotExample` | worker-thread.c:75-83 | A one-shot watch that would hear of a rename hears IN_UNMOUNT instead, because the directory of the file is watched for IN_ATTRIB. |
| `Notify.PruneNext` | worker-thread.c:406-422 | Ending one inotify watch leaves the shared watch in place if another one has a record on it, and has ended all that had to end otherwise. |
| `Worker.Worker.AllocateWd` | worker.c:495-519 | Returns the first descriptor after the last one handed out, around the circle of 1 to INT_MAX, that is not in use; ends whenever fewer than INT_MAX are. |
| `Worker.Worker.UpdateFlags` | inotify-watch.c:379-412 | After a mask is replaced or merged, every filter is the union of what the records need, no record needs nothing, every entry the mask asks something of is watched if it can be opened, and only records of this inotify watch have changed; says exactly when an empty filter was computed on the way. |
| `Worker.Worker.RemoveIwatch` | worker.c:612-621 | Reports IN_IGNORED once, and leaves the graph without exactly the records of this inotify watch. |
| `Worker.Worker.Remove` | worker.c:587-604 | Succeeds if and only if the descriptor is in use, and changes nothing otherwise. |
| `Worker.Worker.InitIwatch` | inotify-watch.c:104-177 | A new inotify watch with a fresh descriptor; its list shows the listing of a directory; all its entries are watched that the mask asks something of and that can be opened; nothing else changes. |
| `Worker.Worker.AddOrModify` | worker.c:529-578 | Changes the mask of the inotify watch on the file if there is one and adds one if not, fails if and only if the file cannot be opened, and keeps the invariant of the worker. |
| `Worker.Worker.Compare` | dep-list.c:226-461 | Brings the entries of the directory in name order, compares them with the listing, and returns the callbacks in the order of the scheduler. |
| `Worker.Worker.DirectoryDiff` | worker-thread.c:269-289 | From a listing alone: new entries get memory, each callback is made once, in order, and the old entries are freed; the list shows the listing afterwards, and a program that listens to all changes knows its names if and only if the renames have no cycle. |
| `Worker.Worker.Deaggregate` | worker-thread.c:362-400 | Deals with the bits of the event in their fixed order, each for all records in order, by a report or by a diff, and keeps the watch and its records. |
| `Worker.Worker.Prune` | worker-thread.c:403-422 | Ends exactly the inotify watches that are closed or whose file is gone; looks at the watch only while it exists; terminates. |
| `Worker.Worker.ProduceNotifications` | worker-thread.c:297-423 | A whole kernel event, whatever the listing of the directory, keeps the invariant of the worker; exactly the inotify watches that are closed or whose file is gone end; a directory that the event calls a diff for has its list up to date. |
| `Worker.TypesKnown` | watch.h:108-143 | That the types of watched files do not change is all that is asked of the file system. |
| `Worker.OneshotQuiet` | worker-thread.c:75-83 | A watch that has been one-shot since it was added and is still there has told nothing. |
| `EventStream.EnqueueGood` | event-queue.c:140-204 | An offer is kept, merged with an equal immediate predecessor, or refused with one marker per run of refusals. |
| `EventStream.FlushGood` | event-queue.c:214-327 | Whole events leave in order; none is lost or sent twice. |
| `EventStream.LimitGoodIffSafe` | event-queue.c:87-97 | Changing the limit keeps the stream honest if and only if the queue is within the new limit or ends in the marker already. |
| `EventStream.StreamRefinement` | event-queue.c:104-204 | In every run, the stream sent and queued is the offered one with events equal to their immediate predecessor dropped and each maximal run of refused events replaced by one overflow marker. |
| `EventStream.HistoryIsInput` | event-queue.c:140-204 | The verdicts behind that are about exactly the offered events, in order. |
| `EventStream.SentIsFinal` | event-queue.c:214-327 | What is sent is never taken back. |
| `EventStream.QueueBound` | event-queue.c:104-204 | With a limit that is not lowered the queue never exceeds it by more than one. |
| `EventQueue.EventQueue.SetMaxEvents` | event-queue.c:87-97 | Sets the limit if it is positive, and changes nothing otherwise. |
| `EventQueue.EventQueue.Extend` | event-queue.c:104-128 | Makes room for one more event inside the array, keeps the queue, and never allocates more than the limit and one. |
| `EventQueue.EventQueue.Enqueue` | event-queue.c:140-204 | Does to the array what the specification does to the queue, with every index in range while three times the number of events fits an int. |
| `EventQueue.EventQueue.Fit` | event-queue.c:225-235 | Counts the events that fit, and their bytes. |
| `EventQueue.EventQueue.Flush` | event-queue.c:214-327 | Sends the events that fit, shifts the others to the front, and remembers the last one sent. |
| `EventQueue.EventQueue.ResetLast` | event-queue.c:333-341 | Forgets the last event sent, so that the next one is not merged into it. |
| `EventQueue.BatchFits` | event-queue.c:225-235 | The batch fits the space, and no longer one would. |
| `EventQueue.PumpKeepsPipe` | worker-thread.c:448-466 | A flush fits into the space left, and the subtraction that follows does not wrap. |
| `EventQueue.PipeAccounting` | worker-thread.c:448-483 | In every run the bytes sent since the pipe was last empty never exceed the buffer size read then. |
| `EventQueue.FlushProgress` | worker-thread.c:448-466 | With an empty pipe a flush sends something if and only if the first event fits the buffer; otherwise nothing is sent and no space is left. |
| `EventQueue.PumpQueue` | worker-thread.c:448-466 | One turn of the worker's loop does that to the queue and the space. |
| `ProtocolInv.StepKeepsInv` | controller.c:112-143 | Every step of every thread keeps the invariant of the protocol. |
| `ProtocolRuns.RunsKeepInv` | worker-thread.c:431-514 | The invariant of the protocol holds in every state of every run. |
| `ProtocolRuns.WorkerLifetime` | worker.c:450-487 | In every run a worker is in memory while a thread holds a reference, it is freed only when none holds or can get one, and listed workers have distinct descriptors. |
| `ProtocolRuns.OneCommand` | controller.c:336-378 | At most one command is outstanding per worker, and no wake-up is left over while the worker lives. |
| `ProtocolRuns.OwnResult` | controller.c:359-372 | A call returns the result of its own command or EBADF. |
| `ProtocolRuns.ResultWanted` | worker-thread.c:109-139 | A worker writes a result only to the thread that waits for exactly this command. |
| `ProtocolRuns.WaiterPromised` | worker.c:158-170 | A waiting thread has a wake-up, a command on its way, or a dying worker that is still to post. |
| `ProtocolRuns.NoDeadlock` | controller.c:336-378 | In every reachable state in which a call, a command or the death of a worker is under way, some step leads on that does not fail a call that could succeed. |
| `ProtocolEnds.StepMeasure` | controller.c:336-378 | Every step makes the measure smaller, except a new call and the death of a worker, which raise it by a constant at most, the steps of a dying worker that waits for references, and a change of the limit. |
| `ProtocolEnds.StepsBounded` | worker-thread.c:431-514 | Between any two states of a run, under any schedule and however often dying workers look for references, the number of other steps is bounded by the measure at the first state and the number of new calls and deaths. |
| `ProtocolEnds.CallsEnd` | controller.c:336-378 | All calls end: a run that goes on by steps forward takes at most as many as the measure says, and when no step forward is left no thread is in a call, no command is under way, and every dying worker is gone. |
| `ProtocolRuns.InstanceLimit` | controller.c:112-122 | With a limit that is not lowered there are never more instances than it allows. |

## Left out

- Direct mode (IN_DIRECT), the param command for the pipe buffer, and the variant of notification through the pipe instead of EVFILT_USER.
- Failing allocations and registrations, and the error paths of listing a directory; a diff that finds the directory unreadable is modelled as doing nothing.
- Mount points inside watched directories and the SKIP_SUBFILES variant.
- Pointers: the tree is a value with a path up to its root, list entries and records are identified by numbers, so aliasing of freed memory is stated as "no record refers to the entry" instead.
- Flag words are sets of named bits or records of marks; `Flags.Platform` switches what only some kernels have. The bits outside these sets are not modelled.
- Names in `ClientView` are those of the stored list; a reader that starts in the middle or shares a descriptor with other watches is not modelled.
- The masking of events caused by reading a directory (`skip_next`, worker-thread.c:345-356): a kernel event is what is left after it.
- `Worker.Worker.Compare`: the callbacks of a diff are worked out first and then made; the source makes each when it comes to it, and none of them reads what the diff still has to do.
- `Worker.Worker.UpdateFlags`: entries are taken in any order, not in name order; what is stated holds for all orders.
- `Transparency.SharingIsTransparent`: leaves out IN_ISDIR, for which `Flags.IsDirDifference` has the condition, and the cookie.
- `Protocol.Evict`: gives up the descriptor of all listed workers that carry it; the source stops at the first, and there is never a second.
- `ProtocolRuns.WorkerLifetime`: calls are made with a descriptor that is not negative, and a worker dies by end of file only after it was listed.
- `ProtocolEnds.CallsEnd`: is about runs that go on by steps forward; that a scheduler lets only dying workers run, which wait for references, is not excluded.
- `EventQueue.PumpKeepsPipe`: lengths of events are given by a formula on names, not by the memory layout of the C structure.
- SPLAY trees and the parts of compat/tree.h that the library does not use.
- Building paths, socket options and logging: they call the system and decide nothing that the model relies on.
- The test suite and the build files of the repository.
