# A verified model of a persistent, transactional message queue

SAFMQ is a message-queue server: clients open queues, enqueue and retrieve messages by
priority, alone or in transactions, and the messages survive a crash in log files. This
project models the parts of the server that must agree with one another and proves that
they do.

* `QueueModel`, `RandPq`, `IndexCursors`: the index of a queue, a list by priority whose
  cursors share reference-counted, copy-on-write positions; the object is shown to refine
  plain (target, valid) cursors.
* `Message`, `LogFormat`, `Recovery`, `StorageInvariant`, `QStorage`: the packed message and
  the log files byte for byte, the index, the handles and the per-file counts. The invariant
  says that the unpurged records in the files rebuild the index; every operation keeps it.
  Recovery reads just those records as long as nothing is appended behind one that a crash
  has torn.
* `QueueOps`, `Effects`: what one queue's operations do, as the code does it and as a client
  sees it. `Claims`, `Outlook`, `Lifecycle`, `Prospect`: what the queue does while sessions
  have work pending on it.
* `Server`, `ServerRuns`, `Loss`, `Commit`, `Outcome`: all sessions and queues as one state
  machine whose steps are the locked operations, in any order; rollback, commit and the life
  cycle of a message over whole runs, and what each command does to its message.
  `Overtaking` and `LostCopy` hold runs that go wrong.
* `SessionSteps`, `SessionEnd`, `Interrupted`, `Session`: one session's object, with the loops
  that commit, roll back and shut down, and its end with other sessions in between.
* `Registry`: the registry of queues and the handles of all sessions.
* `StreamCache`, `Stats`, `Wire`: the cache of open files, the sliding-window statistics and
  the length-prefixed parts of the protocol.

Runs are `clean` when no message is put ahead of the front while pending work shares the
position of the index's begin cursor, no retrieve goes through a cursor that is out of date
in the same way, and no handle that pending work uses is closed or moved off its message. The
condition is exact: `Lifecycle.DoExact` and `ServerRuns.RunExact` show that pending work
stays sound if and only if every step is clean. The code does leave it, and `Overtaking` holds
a run for each case: a rollback that shows another session's uncommitted message, a retrieve
whose acknowledgement deletes another session's message, and a session whose end closes
another's retrieve, since the number of a closed cursor is handed out again.
`Lifecycle.FreeExact` says when a number comes into use, and `Session` and
`Interruptions.EndInterrupted` say exactly when a session may end without harm.

A clean run may still lose a message, which then stays hidden with no pending work that could
show it, until a restart. `Losses.RunLost` says exactly where: a queue is closed over a
retrieve that was not acknowledged, or a retrieve through a cursor is answered and then the
copy of its cursor is refused, because the new handle was closed or invalidated between two
locks of the one command (`LostCopy.CopyLoses` is a run). Without such a step every entry is
visible or claimed by one piece of pending work, never both, and a rollback leaves no trace.

The cache of open files cannot tell how often a stream is lent. `StreamCache.RunExact` gives
the exact condition on its callers, and `StreamCache.TwoBorrowers` a run that breaks it.

The code and the documentation part company in a few places, and the model follows the code:
`seekID` stops at hidden entries; `ShutdownQueue` drops unacknowledged retrieves without
cancelling them; the purge of expired messages forgets hidden ones when it decides whether
to look again (`Claims.ShownMayExpire` says when that matters, `Overtaking.PurgeForgets` gets
there); an append behind a record that a crash has torn is lost (`LogFormat.AppendFound`), and
may let the next recovery find a message that was never put (`LogFormat.EntryMadeUp`); a
temporary queue's name stays marked after the queue is gone.

## Model

| member | source | states |
|---|---|---|
| RandPq.RaPriorityQueue.constructor | shared/randpq.h:272-275 | an empty queue with its begin and end cursors, each on a position of its own |
| RandPq.RaPriorityQueue.GetPosition | shared/randpq.h:310-315 | a new position with one holder; the other positions are untouched |
| RandPq.RaPriorityQueue.Release | shared/randpq.h:192-197 | destroying a cursor changes no other cursor's target or validity, and keeps every count exact |
| RandPq.RaPriorityQueue.Copy | shared/randpq.h:179-186 | assigning a cursor gives it the source's value and changes no other cursor; assigned to itself it is left without a position |
| RandPq.RaPriorityQueue.MakeWritable | shared/randpq.h:293-302 | copy-on-write: afterwards the cursor is the only holder of its position, and no cursor's target or validity changed |
| RandPq.RaPriorityQueue.Advance | shared/randpq.h:161-165 | advancing moves this cursor to the next entry and no other cursor |
| RandPq.RaPriorityQueue.Begin | shared/randpq.h:235-238 | begin() moves to the front exactly the cursors that share its position, and makes them valid again |
| RandPq.RaPriorityQueue.EndCursor | shared/randpq.h:240-243 | end() changes no cursor |
| RandPq.RaPriorityQueue.LowerBound | shared/randpq.h:277-282 | the backward walk finds the place behind the last item that the new one does not precede |
| RandPq.RaPriorityQueue.Enqueue | shared/randpq.h:227-231 | inserts at that place, keeps the list in priority and arrival order, and returns a cursor on the new entry; no other cursor changes |
| RandPq.RaPriorityQueue.InvalidateAll | shared/randpq.h:284-291 | invalidates exactly the positions on a node |
| RandPq.RaPriorityQueue.Erase | shared/randpq.h:245-253 | erases exactly the entry under a valid cursor, invalidates exactly the cursors on it, returns a cursor on the next entry; through an invalid cursor nothing is erased |
| RandPq.DropKeeps | shared/randpq.h:317-322 | giving up a position keeps every count equal to the number of its holders and leaves no position without one |
| RandPq.ShareKeeps | shared/randpq.h:304-308 | a shared copy keeps the counts exact |
| RandPq.FreshKeeps | shared/randpq.h:310-315 | a new position keeps the counts exact |
| RandPq.SingleHolder | shared/randpq.h:91-93 | a count of one means that nobody else holds the position |
| RandPq.SplitKeeps | shared/randpq.h:293-302 | splitting a shared position changes what no cursor refers to |
| RandPq.InvalidateKeeps | shared/randpq.h:245-253 | after an erase no valid position is left on the erased entry |
| QueueModel.InsertOk | shared/randpq.h:227-231 | insertion keeps descending priority and arrival order within a priority |
| QueueModel.RemoveOk | shared/randpq.h:245-253 | removal keeps that order |
| QueueModel.InsertPos | shared/randpq.h:277-282 | behind the last item not preceded, before all items preceded |
| IndexCursors.OpenOn | QStorage.cpp:348-360 | openCursor run on the queue with shared positions: the handle is on the first visible entry, shares the begin position exactly if that is the front, and only begin() touched other cursors |
| IndexCursors.SeekOn | QStorage.cpp:372-393 | seekID run on the queue with shared positions: the cursor is on the first entry with the receipt id from where it stood, hidden or not, or is left alone |
| IndexCursors.AdvanceOn | QStorage.cpp:803-811 | AdvanceCursor run on the queue with shared positions: the cursor is on the next entry, or at the end, on a position of its own, and no other moved |
| IndexCursors.EraseOn | QStorage.cpp:716-739 | FinalizeRetrieveCursor run on it: the entry is gone, the other cursors on it are invalid, and the handle's is on the entry behind |
| Messages.Unpacks | safmq.h:203-224 | an image gives back every field of the struct that was packed into it |
| Messages.Packs | safmq.h:203-224 | every sequence of 1328 bytes is the image of one struct |
| Messages.ImageItem | QStorage.cpp:112-118 | the index entry made of an image has the struct's priority, id, class, receipt id, time stamp and time to live, each from its own place |
| LogFormat.HeaderReads | QStorage.h:143-149 | a written header reads back with its marker, flag and length |
| LogFormat.ReadRecord | QStorage.cpp:109-132 | the scan step reads one appended record exactly, whatever follows it |
| LogFormat.ReadCut | QStorage.cpp:110-122 | at a tail cut inside a header or a message image the scan stops |
| LogFormat.RecordAt | QStorage.cpp:108-126 | record k starts at the sum of the sizes of the records before it |
| LogFormat.LiveOfNext | QStorage.cpp:112-118 | the unpurged records of a longer prefix, with their offsets |
| LogFormat.FoundAt | QStorage.cpp:105-139 | one turn of the scan loop, at the start of a record, finds what that record holds and moves to the start of the next |
| LogFormat.ScanFile | QStorage.cpp:92-142 | the scan loop on any bytes finds what Scan says |
| LogFormat.ScanLog | QStorage.cpp:92-142 | the scan of a log finds exactly its unpurged records, in order, with their true offsets, also when the log is cut inside a header or message image |
| LogFormat.TornReads | QStorage.cpp:109-132 | a torn record takes the start of the next append for its own bytes: the scan stops there or goes on past that start |
| LogFormat.AppendFound | QStorage.cpp:484-498 | an append behind a torn record is lost: recovery finds the message at its place if and only if nothing was torn |
| LogFormat.TornFinds | QStorage.cpp:109-132 | the scan step taken at a torn record makes a message of its bytes and those of the next append if and only if five bytes or more were written and the flag among them says unpurged |
| LogFormat.EntryMadeUp | QStorage.cpp:92-142 | an append behind a torn record is not only lost: the next recovery finds a message that was never put, at the torn record's place, if and only if the crash left that record's flag byte and it says unpurged |
| LogFormat.ScanReadable | QStorage.cpp:92-142 | a log of which at most the last record is torn, inside its header or image, is read as its unpurged records |
| Recovery.FlagRewrite | QStorage.cpp:207-214 | rewriting one header's flag in place changes that record's flag and no record boundary |
| Recovery.LogAppend | QStorage.cpp:486-498 | appending a record leaves the records before it and their offsets as they were |
| Recovery.LiveRecord | QStorage.cpp:486-498 | an item with a given offset is the live record that starts there |
| Recovery.PurgeLive | QStorage.cpp:207-214 | purging a record takes exactly its item out of what a scan returns |
| Recovery.InsertDrop | QStorage.cpp:117-117 | dropping an item commutes with inserting later ones |
| Recovery.RebuildDrop | QStorage.cpp:117-117 | rebuilding without one item is the rebuilt index without it |
| Recovery.LiveItemsAppend | QStorage.cpp:86-89 | appending to the current file puts an item behind all others in (file, offset) order |
| Recovery.LiveItemsPurge | QStorage.cpp:86-89 | purging a record drops one item from what the files hold |
| Recovery.LiveItemsRemove | QStorage.cpp:592-601 | a file without live records can be deleted without changing what the files hold |
| StorageInvariant.ItemRecord | QStorage.cpp:117-117 | every index entry's offset is the start of its own live record |
| StorageInvariant.MessageIndexed | QStorage.cpp:112-118 | every live record of a message is in the index that recovery rebuilds, with that message's priority, id, class, receipt id and times, at its place |
| LogFormat.Delivered | QStorage.cpp:276-305 | a record's image is that of one message, and its index entry describes that message |
| LogFormat.RecordOfWf | QStorage.cpp:467-501 | the record that Enqueue writes reads back as the index entry that Enqueue makes |
| StorageInvariant.AppendAgrees | QStorage.cpp:467-536 | an append keeps recovery, live counts and distinct places in agreement with the index |
| StorageInvariant.RotateAgrees | QStorage.cpp:522-526 | rotation to a new file keeps the agreement |
| StorageInvariant.PurgeAgrees | QStorage.cpp:682-714 | purging a record, and deleting its file when the count reaches zero, keeps the agreement; the count is zero exactly when no entry is left in the file |
| StorageInvariant.StatSucceeds | QStorage.cpp:194-228 | statMessage finds the record of any index entry and purges exactly that record |
| StorageInvariant.SetFlagPurges | QStorage.cpp:207-214 | the rewritten bytes are the log with one flag set |
| StorageInvariant.BodyAtRecord | QStorage.cpp:276-305 | the bytes at an entry's offset are its own record's length, image and body |
| StorageInvariant.RecoveryUnique | QStorage.cpp:79-90 | recovery from given files has one result |
| StorageInvariant.RecoveredNext | QStorage.cpp:86-89 | reading the files in order of their ids rebuilds what all of them hold |
| StorageInvariant.ScannedLogs | QStorage.cpp:92-142 | in files that hold readable logs recovery finds exactly what the logs hold |
| StorageInvariant.CrashKeeps | QStorage.cpp:484-498 | a crash in the middle of an append changes nothing that recovery reads |
| StorageInvariant.SameAfterCrash | QStorage.cpp:79-90 | recovery before and after a crash gives the same items |
| StorageInvariant.AppendReadable | QStorage.cpp:484-498 | an append leaves logs that recovery can read if and only if the log appended to has no torn record |
| StorageInvariant.RecoveredPlaced | QStorage.cpp:92-142 | recovered entries are at distinct places |
| Storage.QStorage.Recover | QStorage.cpp:79-90 | a queue opened on any files, whatever bytes they hold: index and counts are those of what the scans find, every entry is visible, hasTTL is right; files that hold readable logs, at most the last record of each torn, make a valid queue |
| Storage.QStorage.RecoverFiles | QStorage.cpp:79-90 | reads the files one after another, in order, whatever they hold |
| Storage.QStorage.RecoverFile | QStorage.cpp:92-142 | enqueues and counts exactly what the scan finds in a file |
| Storage.QStorage.AddRecovered | QStorage.cpp:112-118 | one recovered message: into the index, the count and hasTTL |
| Storage.Restart | QStorage.cpp:79-142 | crash recovery refines memory: from what a crash has left of the files of any valid queue, in the middle of an append or not, the same entries come back in the same order, all visible, and the queue is valid again |
| Storage.QStorage.StatMessage | QStorage.cpp:194-228 | always finds the record, and sets that record's purged flag on disk and nothing else |
| Storage.QStorage.ReleaseFile | QStorage.cpp:592-601 | one live message less in the file; the file is removed when none is left |
| Storage.QStorage.PurgeStored | QStorage.cpp:682-698 | files, counts and index agree again afterwards; the file is deleted exactly when its last entry left |
| Storage.QStorage.PurgeEntry | QStorage.cpp:682-699 | the same, with the entry erased and the cursors on it invalidated |
| Storage.QStorage.NextCursorId | QStorage.cpp:176-182 | one more than the largest handle, or 0 |
| Storage.QStorage.CloseCursor | QStorage.cpp:362-370 | the handle goes, and nothing else changes |
| Storage.QStorage.OpenCursor | QStorage.cpp:348-360 | a new handle on the first visible entry; begin() moves the handles that share its position |
| Storage.QStorage.AdvanceCursor | QStorage.cpp:803-811 | only the named handle moves, as Effects.AdvanceAt says |
| Storage.QStorage.CursorCopy | QStorage.cpp:785-801 | only the destination changes, and only if both handles are usable, or the destination is at the end; copied to itself a handle becomes invalid |
| Storage.QStorage.SeekID | QStorage.cpp:372-393 | moves the handle to the first match from where it is, hidden or not |
| Storage.QStorage.AppendRecord | QStorage.cpp:484-513 | the record is appended at the end of the file, created if need be, and counted |
| Storage.QStorage.AppendMessage | QStorage.cpp:479-513 | the new entry names the current file and the true offset of its record |
| Storage.QStorage.Rotate | QStorage.cpp:522-526 | the next file id if and only if the current file is larger than the limit |
| Storage.QStorage.Enqueue | QStorage.cpp:467-536 | a hidden entry with the message's own priority, id, class, receipt id and times, and a handle on it; the record on disk is unpurged; recovery, counts and order still agree; a new file is begun if and only if the current one is now larger than the limit; recovery goes on reading what the files hold if and only if the current one does not end with a torn record |
| Storage.QStorage.Show | QStorage.cpp:542-566 | FinalizeEnqueue and CancelRetrieve: exactly the handle's entry becomes visible and the handle is closed |
| Storage.QStorage.Delete | QStorage.cpp:682-714 | FinalizeRetrieve and CancelEnqueue: exactly the handle's entry leaves index and disk, other handles on it become invalid, the handle is closed; through an unusable handle nothing happens |
| Storage.QStorage.DeleteAndAdvance | QStorage.cpp:716-739 | the same, and the handle stays open on the entry behind |
| Storage.QStorage.PeekCursor | QStorage.cpp:259-346 | delivers the message and body of the entry's own record, never a hidden one, and a message that has the priority, id and times of the entry |
| Storage.QStorage.BeginRetrieve | QStorage.cpp:615-632 | hides the first visible entry and returns a handle on it, or reports no messages and leaves no handle open |
| Storage.QStorage.StartRetrieve | QStorage.cpp:834-844 | hides the entry under a usable handle, unless it is hidden already |
| Storage.QStorage.BeginRetrieveID | QStorage.cpp:634-653 | the same by receipt id; a hidden match is refused and its handle stays open |
| Storage.QStorage.PassStep | QStorage.cpp:927-981 | one turn of the purge loop: erases the entry under the cursor or leaves it, and moves on |
| Storage.QStorage.PurgePass | QStorage.cpp:924-982 | the in-place loop is a filter, and it ends |
| Storage.QStorage.TTLPurge | QStorage.cpp:916-984 | removes exactly the visible entries with a time to live that their age has reached, and keeps the rest in order; hasTTL then says whether a visible entry has a time to live |
| Storage.SkipHidden | QStorage.cpp:351-354 | stops at the first visible entry, and knows whether it left the front |
| Storage.SeekForward | QStorage.cpp:381-387 | stops at the first match from a node on |
| QueueOps.PassAt | QStorage.cpp:927-981 | the state of the purge after one more entry, with and without it |
| QueueOps.PassEnd | QStorage.cpp:927-981 | at the end of the list everything expired is gone |
| QueueOps.UnexpiredMembers | QStorage.cpp:933-934 | what the filter keeps: an entry that is hidden, has no time to live, or has an age below it |
| QueueOps.TTLPurgeWf | QStorage.cpp:916-984 | the purge keeps the order and leaves no valid handle on a removed entry |
| QueueOps.UsableExact | QStorage.cpp:230-243 | a handle is usable exactly if it is valid and on an entry of the index, and exactly then a deletion through it takes anything out; which error each other handle gives |
| QueueOps.SecondFinalize | QStorage.cpp:682-714 | a second finalize through another handle on the same entry does nothing, and goes on doing nothing over the next begin() if and only if that handle does not share the begin position |
| QueueOps.UnhideWf | QStorage.cpp:660-675 | showing an entry keeps every valid handle on an entry of the index |
| QueueOps.DiscardWf | QStorage.cpp:682-714 | so does deleting one |
| QueueOps.FirstVisibleShows | QStorage.cpp:348-360 | the entry a new cursor is put on is visible |
| Effects.AdvanceAt | QStorage.cpp:803-811 | advancing takes a handle to the very next entry, hidden or not, or behind the last one, and touches nothing else |
| Effects.BrowseAll | QStorage.cpp:803-811 | a client that goes on advancing is on every entry behind its own, one after another and none twice, and then at the end |
| Effects.SeekAt | QStorage.cpp:372-393 | the first entry with the receipt id from where the handle stands; if there is none, nothing changes |
| Effects.CopyAt | QStorage.cpp:785-801 | the destination gets the source's place, and nothing else changes |
| Effects.OpenAt | QStorage.cpp:348-360 | a new handle on the first entry that is not hidden, or at the end |
| Effects.RetrieveAt | QStorage.cpp:615-632 | hides the first entry that is not hidden, leaves a new handle on it; with none, leaves the list and the set of handles as they were |
| Effects.RetrieveCursorAt | QStorage.cpp:834-844 | hides the entry under the handle if it is visible; refused if it is hidden |
| Effects.RetrieveIDAt | QStorage.cpp:634-653 | hides the first entry with the receipt id from the first visible one on; a hidden match is refused |
| Effects.EnqueueAt | QStorage.cpp:467-536 | a hidden entry behind all of its priority or a higher one and before all of a lower one, with a handle on it; no other handle moves |
| Effects.UnhideAt | QStorage.cpp:542-566 | exactly the handle's entry becomes visible, and exactly that handle is closed |
| Effects.DiscardAt | QStorage.cpp:682-714 | exactly the handle's entry leaves the list, that handle is closed, and those of the others that were on it become invalid |
| Effects.DiscardAndAdvanceAt | QStorage.cpp:716-739 | the same, with the handle left on the entry that was behind |
| Effects.PurgeMembers | QStorage.cpp:916-984 | a purge takes out exactly the visible messages whose time stamp and time to live have passed, and keeps the order |
| Effects.Outlives | QStorage.cpp:916-984 | a visible message with a time to live is still there after any purges if and only if all of them came before its time |
| Claims.EnqueueSound | QStorage.cpp:467-536 | a new pending enqueue leaves every other pending handle on its own hidden entry, unless it overtakes one |
| Claims.BeginRetrieveSound | QStorage.cpp:615-632 | a retrieve claims an entry that no other pending work is on |
| Claims.DiscardSound | QStorage.cpp:682-714 | ending one claim by deletion leaves all others on their own hidden entries |
| Claims.UnhideSound | QStorage.cpp:660-675 | so does ending one by showing its entry |
| Claims.OpenCursorSound | QStorage.cpp:348-360 | opening a cursor moves no pending handle |
| Claims.TTLPurgeSound | QStorage.cpp:916-984 | expiry touches no claimed message |
| Claims.ShownMayExpire | QStorage.cpp:542-566 | showing a message does not set hasTTL, so hasTTL goes on covering every visible message that may expire if and only if it is set already or the message has no time to live |
| Claims.OvertakeExact | shared/randpq.h:235-238 | after a put, the next begin() leaves every pending handle where it was if and only if the put did not go ahead of a front that one of them holds through the begin position |
| Overtaking.PurgeForgets | QStorage.cpp:916-984 | a run that gets there, on any empty queue: a message with a time to live is put, a purge comes before the put is final, and then the message is visible while hasTTL is off |
| Overtaking.RollbackShowsAnother | shared/randpq.h:235-238 | a concrete run in which it does not: cancelling a retrieve then shows a message that another session is still enqueueing, and leaves the retrieved one hidden |
| Overtaking.RetrieveTakesAnother | MessageCmds.h:546-556 | a concrete run in which a retrieve through a cursor that is out of date is registered on another session's uncommitted message: the acknowledgement deletes that one, and the message delivered stays hidden |
| Overtaking.ClosesAnother | MessageCmds.h:557-565 | a concrete run in which a cursor number that a session still lists is handed out to another's retrieve, and closing it makes that retrieve's acknowledgement do nothing |
| Lifecycle.DoExact | QStorage.cpp:542-714 | a step of a queue keeps each pending handle on a hidden entry of its own, the one its key names, if and only if it is clean |
| Lifecycle.TakeInv | MessageCmds.h:123-167 | Retrieve: the message delivered is claimed by no other work, so its key is new |
| Lifecycle.TakeIDInv | MessageCmds.h:258-279 | Retrieve by id likewise |
| Lifecycle.TakeCursorExact | MessageCmds.h:571-582 | Retrieve through a cursor, for any state: sound if and only if it is refused, or the cursor, when it shares the begin position, is at the front |
| Lifecycle.RebindExact | MessageCmds.h:546-556 | the copy of the client's cursor leaves all pending work sound if and only if it is refused or no pending work uses the handle copied to |
| Lifecycle.RefusesExact | MessageCmds.h:546-556 | the copy that is to take a retrieve over is refused if and only if, between the two locks, the new handle was closed or its entry erased |
| Lifecycle.AddExact | MessageCmds.h:41-77 | Enqueue of a message with a fresh id: sound if and only if it does not go ahead of a front that a claim holds through the begin position |
| Lifecycle.CloseExact | QStorage.cpp:362-370 | closing a handle is sound if and only if no pending work uses it |
| Lifecycle.SeekExact | QStorage.cpp:372-393 | a search through a handle is sound if and only if no pending work uses the handle, or the search leaves it where it is |
| Lifecycle.CopyExact | QStorage.cpp:785-801 | copying a cursor is sound if and only if it is refused, no pending work uses the destination, or that one is given another cursor on the same entry |
| Lifecycle.AdvanceExact | QStorage.cpp:803-811 | advancing a handle is sound if and only if no pending work uses it |
| Lifecycle.FreeExact | QStorage.cpp:176-182 | which steps make pending work use a given handle: those that are given its number as new, and those through it |
| Lifecycle.OpenStaysFree | QStorage.cpp:176-182 | an open handle is used by pending work only after a retrieve through it |
| Prospects.DoLoses | TransactionManager.cpp:159-182 | only dropping an unacknowledged retrieve, or a refused copy that was to take one over, makes a hidden message that no pending work accounts for; every other clean act leaves those as they are |
| Prospects.DoTentative | TransactionManager.cpp:79-106 | a clean step other than a commit or an expiry leaves unchanged what the queue would show if all pending work were undone |
| Prospects.Exclusive | QStorage.cpp:542-714 | with nothing lost, an entry is hidden if and only if pending work claims it, and then one piece of work alone |
| Prospects.NothingPending | QStorage.cpp:542-714 | with nothing pending that prospect is what is visible |
| Outlooks.EnqueueOutlook | QStorage.cpp:467-536 | an enqueue leaves what is or would be shown as it is |
| Outlooks.UnhideOutlook | QStorage.cpp:660-675 | showing a claimed entry that the outlook shows leaves the outlook as it is |
| Outlooks.DiscardOutlook | QStorage.cpp:682-714 | deleting a claimed entry that the outlook does not show leaves the outlook as it is, and takes exactly that entry from the index |
| Outlooks.TakeOutlook | QStorage.cpp:615-632 | so does claiming a visible entry for a retrieve |
| Server.ActedSplits | QStorage.cpp:467-714 | an act under one queue's lock concerns that queue and its claims alone |
| ServerRuns.StepExact | TransactionManager.cpp:41-182 | a step of any session keeps the invariant of all queues and the sessions' books if and only if it is clean |
| ServerRuns.RunExact | TransactionManager.cpp:41-182 | the invariant holds all along a run, whatever the interleaving, if and only if every step of it is clean |
| ServerRuns.FreeStepExact | QStorage.cpp:176-182 | whoever takes it, a step makes a cursor number used by pending work of a queue if and only if it hands the number out for it or goes through a cursor of that number |
| ServerRuns.CommandRecord | TransactionManager.cpp:118-157 | what a command records about its work: nothing is ready to settle outside a transaction |
| ServerRuns.RunInv | TransactionManager.cpp:41-182 | in every clean run, whatever the interleaving of sessions (RunExact: in no other): pending handles stay sound, every pending entry's queue handle is open, and outside a transaction every registered entry is an unacknowledged retrieve |
| ServerRuns.Started | QStorage.cpp:79-90 | recovered queues without sessions satisfy the invariant, with nothing lost |
| ServerRuns.StepProspect | TransactionManager.cpp:51-106 | one clean tentative step of any session leaves every queue's prospect as it is |
| ServerRuns.RollbackIdentity | TransactionManager.cpp:79-106 | any clean run of tentative steps, no copy among them refused, by any sessions, that starts and ends with nothing pending leaves the visible sequence of every queue exactly as it was |
| Losses.StepLost | TransactionManager.cpp:159-182 | a clean step of any session loses exactly the message whose claim it drops without settling it: one of a queue closed over a retrieve that was not acknowledged, or one whose retrieve through a cursor ends with a refused copy |
| Losses.RunLost | TransactionManager.cpp:159-182 | over a clean run no lost message is found again, and none is lost if and only if no step is of those two kinds |
| Losses.ExclusiveExact | QStorage.cpp:542-714 | every entry is visible, or claimed by exactly one piece of pending work and not both, if and only if nothing is lost |
| Losses.LifeCycle | QStorage.cpp:542-714 | over any clean run that starts with nothing lost, every entry is in the end visible or claimed by exactly one piece of pending work, across all sessions, if and only if no step lost one |
| Losses.RollbackExact | TransactionManager.cpp:79-106 | a clean run in which nothing is committed and nothing expires, and that starts and ends with nothing pending, leaves the visible sequence of a queue as it was if and only if no step lost a message of it |
| LostCopy.CopyLoses | MessageCmds.h:546-556 | a run of clean steps that loses a message though no queue is closed: another session retrieves and acknowledges the message that the new handle stands on, and the copy is refused |
| ServerRuns.DeliversVisible | QStorage.cpp:615-653 | a retrieve of any kind delivers a message that was visible |
| ServerRuns.FirstVisibleBest | QStorage.h:117-119 | the message BeginRetrieve delivers is the oldest visible one of the highest visible priority |
| Commits.CommitEnqueue | TransactionManager.cpp:65-69 | committing an enqueue leaves what the commit will show as it is |
| Commits.CommitRetrieve | TransactionManager.cpp:58-63 | committing a retrieve leaves what the commit will show as it is, and removes the message |
| Commits.CommitInterleaved | TransactionManager.cpp:51-77 | a commit that other sessions' steps run into, each entry under its own lock: each pending enqueue or acknowledged retrieve has one step that commits it; until then its message is hidden whatever the others do; from then on the enqueued message has been shown, and the retrieved one is gone and never comes back |
| Commits.StepPending | TransactionManager.cpp:51-77 | a step of any session on other work leaves pending work on its hidden message |
| Commits.StepGone | QStorage.cpp:682-714 | an entry that has left an index does not come back, whatever step is taken |
| Commits.CommitExact | TransactionManager.cpp:51-77 | after a session's commit, if no other session's step comes in between, every queue shows what it showed before with the session's enqueues among it, in index order, and has lost exactly the messages it retrieved and acknowledged |
| Outcomes.PutOutcome | TransactionManager.cpp:124-131 | a put outside a transaction makes its message visible at once; in one the message stays hidden and the put is registered |
| Outcomes.SentOutcome | TransactionManager.cpp:118-122 | a retrieve that was sent is registered, and its message stays hidden |
| Outcomes.FailedOutcome | MessageCmds.h:105-116 | a retrieve that could not be sent makes its message visible again |
| Outcomes.AckOutcome | TransactionManager.cpp:135-157 | an acknowledgement outside a transaction deletes its message; in one it is noted for the commit, and the message stays hidden |
| Outcomes.SettleOutcome | TransactionManager.cpp:51-106 | a commit shows what was put and deletes what was acknowledged, a rollback deletes what was put and shows what was acknowledged, and neither touches other work |
| Outcomes.ShutOutcome | TransactionManager.cpp:159-182 | closing a queue deletes what was put, shows what was acknowledged in a transaction, and leaves a message hidden whose retrieve was not acknowledged |
| Outcomes.AckFinal | TransactionManager.cpp:145-153 | a message that was acknowledged outside a transaction is never in the queue again, whatever the others do |
| Session.ServiceThread.constructor | ServiceThread.cpp:70-86 | a session starts with no transaction, no queue, no cursor and nothing pending, in any sound server |
| Session.ServiceThread.BeginTransaction | TransactionManager.cpp:41-49 | starts a transaction unless one is open |
| Session.ServiceThread.CommitEntry | TransactionManager.cpp:56-74 | one turn of the commit loop |
| Session.ServiceThread.CommitTransaction | TransactionManager.cpp:51-77 | settles every enqueue and every acknowledged retrieve, in a run of commit steps with no other session's in between, and leaves exactly the retrieves that were not acknowledged |
| Session.ServiceThread.RollbackEntry | TransactionManager.cpp:84-103 | one turn of the rollback loop |
| Session.ServiceThread.RollbackTransaction | TransactionManager.cpp:79-106 | undoes every enqueue and every acknowledged retrieve, in a run of rollback steps with no other session's in between, and leaves exactly the unacknowledged retrieves |
| Session.ServiceThread.EndTransaction | TransactionManager.cpp:108-116 | commits, with no other session's step in between, and closes the transaction |
| Session.ServiceThread.Enqueue | TransactionManager.cpp:124-131 | in a transaction no queue changes and the put is recorded for the commit; outside one exactly the message becomes visible at once, and its handle is closed |
| Session.ServiceThread.BeginRetrieve | TransactionManager.cpp:118-122 | the retrieve is recorded under its queue handle and message id |
| Session.ServiceThread.FinalizeRetrieve | TransactionManager.cpp:135-157 | succeeds exactly if the retrieve is pending; in a transaction it is marked for the commit and no queue changes; outside one exactly the message is deleted, its handle is closed, and nothing is left pending of it |
| Session.ServiceThread.LowerBound | TransactionManager.cpp:161-161 | the least key at or above a handle's first |
| Session.ServiceThread.ShutdownEntry | TransactionManager.cpp:165-179 | one turn of the shutdown loop; an unacknowledged retrieve is dropped without being cancelled |
| Session.ServiceThread.ShutdownPending | TransactionManager.cpp:159-182 | ends all pending work of one handle and no other, each piece once, and terminates, in any state of the queues; from a sound one in a run of shutdown steps |
| Session.ServiceThread.CloseCursors | ServiceThread.cpp:337-343 | closes exactly the numbers that the session lists under the handle, whoever uses them by now, and nothing else |
| Session.ServiceThread.ShutdownQueue | ServiceThread.cpp:318-352 | afterwards the handle has no pending work and no cursor, and is not open; other handles keep theirs; pending work everywhere is still sound if and only if none of it, but the handle's own, went through a number listed under the handle |
| Session.ServiceThread.RegisterQueue | ServiceThread.cpp:165-174 | a handle that is not in use |
| Session.ServiceThread.Disconnect | ServiceThread.cpp:88-98 | the destructor's loop ends with nothing pending, no cursor and no open queue; the others' pending work is still sound if and only if none of it went through a number that this session listed |
| Session.CommitShows | TransactionManager.cpp:51-77 | what the commit loop did to the queues: the session's enqueues are visible, its acknowledged messages gone, the rest as before |
| Session.RollbackKeeps | TransactionManager.cpp:79-106 | what the rollback loop did: every queue's visible and held messages are as before |
| SessionSteps.SettleJoin | TransactionManager.cpp:51-106 | settling one key in the session's own fields is one step of the state machine |
| SessionEnds.CloseAllExact | ServiceThread.cpp:337-343 | closing several handles is sound if and only if no pending work uses one of them |
| SessionEnds.SettleAlive | TransactionManager.cpp:159-182 | ending work whose handle is open is a clean step on the work that is alive, and leaves that sound |
| SessionEnds.SettleDead | TransactionManager.cpp:159-182 | ending work whose handle has been closed changes no queue and none of that |
| SessionEnds.CloseLively | ServiceThread.cpp:337-343 | closing listed numbers that no other session's work uses leaves the work that is alive sound |
| SessionEnds.ClosePath | ServiceThread.cpp:337-343 | closing unused numbers one at a time is a clean run, a step for each |
| SessionEnds.ShutExact | ServiceThread.cpp:318-352 | with the handle's own work gone, closing it is sound if and only if no work uses a number listed under it |
| SessionEnds.NotSpared | ServiceThread.cpp:88-98 | once a session that listed a number in use elsewhere has ended, that work is unsound |
| Interruptions.EndInterrupted | ServiceThread.cpp:318-352 | a session's end with any clean steps of others in between, each call under its own lock: pending work is sound all along if and only if each number is in use by none at the time it is closed |
| Interruptions.GivenInBetween | ServiceThread.cpp:337-343 | that none was in use when the end began is not enough: the next retrieve is given a listed number, and closing it then makes that retrieve unsound |
| SessionSteps.PendingOpen | ServiceThread.cpp:278-316 | a pending entry always finds its queue |
| SessionSteps.NullLeast | QStorage.h:58-60 | no uuid is less than UUID_NULL |
| SessionSteps.NoneOfHandle | TransactionManager.cpp:159-182 | when the lower bound is of another handle, no key of this one is left |
| SessionSteps.KeyLessTransitive | QStorage.h:58-60 | the order of keys is transitive |
| Registry.QManager.GetQueue | QManager.cpp:120-129 | the queue of that name if there is one; its use count is one higher, and every other count, the queues and the marks are as before |
| Registry.QManager.CreateQueue | QManager.cpp:155-187 | refuses a name that exists or has a separator, control character or space; otherwise adds exactly the named queue, and marks its name if and only if it is temporary |
| Registry.QManager.DeleteQueue | QManager.cpp:189-229 | removes a queue without uses, refuses one with uses or without existence |
| Registry.QManager.ReleaseQueue | QManager.cpp:131-153 | one use less of exactly one queue; a temporary one goes with its last use |
| Registry.OpenInv | QManager.cpp:120-129 | opening a queue by name keeps each use count equal to the number of handles |
| Registry.StepInv | QManager.cpp:120-229 | every open, close, creation and deletion by any session keeps each use count equal to the number of handles |
| Registry.RunInv | QManager.cpp:120-229 | over all interleavings: use counts are handle counts, and no session holds a queue that does not exist |
| Registry.DeleteExact | QManager.cpp:195-229 | a queue is deleted on request if and only if it exists and no session has it open |
| Registry.CloseExact | QManager.cpp:131-153 | closing a handle removes a queue if and only if it was its last handle and the name was once made for a temporary queue |
| Registry.TempsExact | QManager.cpp:155-187 | over any run from a server just started, a name is marked if and only if a temporary queue was once made of it |
| Registry.PermanentStays | QManager.cpp:131-153 | a queue is there, under the same name, after any closes by any sessions, if no temporary queue was ever made of its name and nobody deletes it |
| Registry.PermanentLost | QManager.cpp:155-187 | temporary names are never unmarked: a permanent queue created under one is deleted with its last handle |
| StreamCache.StreamCache.constructor | StreamCache.h:74-79 | an empty cache of the given size |
| StreamCache.StreamCache.FindEntry | StreamCache.h:134-139 | the first entry for a file |
| StreamCache.StreamCache.MoveForward | StreamCache.h:145-150 | a hit moves the entry one place forward |
| StreamCache.StreamCache.Refresh | StreamCache.h:152-166 | the stream is closed and opened again exactly if it cannot do what is asked, even while it is lent; either way one more loan is out |
| StreamCache.StreamCache.FetchMiss | StreamCache.h:190-213 | a miss takes a free place or the last one, whose stream is closed unless it is lent |
| StreamCache.StreamCache.Get | StreamCache.h:124-232 | for any file, lent or not: returns a stream that is cached for it, is lent, and can be read and written as asked; names stay distinct, the size within its bound and lent streams open if and only if the file's own stream was not lent or will do; each stream stays with one borrower if and only if that stream was not lent |
| StreamCache.StreamCache.Release | StreamCache.h:238-254 | in any state: a stream that is still cached stays open, one that is not is closed; the cache stays in order if and only if no other loan of the stream is out |
| StreamCache.StreamCache.Remove | StreamCache.h:260-284 | exactly the file's entry goes, the others keep their order; a lent stream stays open |
| StreamCache.StreamCache.ShiftDown | StreamCache.h:274-278 | the entries behind move up by one |
| StreamCache.StreamCache.Destroy | StreamCache.h:84-91 | when every stream has come back: all streams ever opened have been closed exactly once |
| StreamCache.ReplaceInv | StreamCache.h:190-213 | a stream that takes another's place keeps the cache's invariant |
| StreamCache.ForwardInv | StreamCache.h:145-150 | transposing two entries keeps it |
| StreamCache.RemoveInv | StreamCache.h:260-284 | removing an entry keeps it |
| StreamCache.ReopenExact | StreamCache.h:152-166 | a stream that is closed for being opened again leaves the cache in order if and only if it is not lent |
| StreamCache.FetchExact | StreamCache.h:124-232 | a fetch closes no lent stream and keeps the cache in order if and only if it does not reopen a stream that is lent |
| StreamCache.HitMode | StreamCache.h:145-166 | a hit keeps a stream that can do what is asked, and otherwise has a new one that can be read and written and is not at the end; its entry is one place further forward |
| StreamCache.MissPlaced | StreamCache.h:190-213 | a file that is not cached comes behind the others, or in the place of the last one when the cache is full |
| StreamCache.FetchSingle | StreamCache.h:124-232 | in order with single loans, it stays so if and only if the file's cached stream is not lent |
| StreamCache.GiveExact | StreamCache.h:238-254 | a release keeps the cache in order if and only if it is of the last loan of the stream, cached or not |
| StreamCache.StepExact | StreamCache.h:124-284 | a fetch, release or removal keeps order and single loans if and only if it does not fetch a file whose cached stream is lent |
| StreamCache.RunExact | StreamCache.h:124-284 | over any run of fetches, releases and removals no lent stream is closed and none is closed twice, with one borrower each, if and only if no file is ever fetched while its cached stream is lent |
| StreamCache.TwoBorrowers | StreamCache.h:194-254 | a run in which that happens: a stream with two borrowers is closed under the second, whose release closes it again |
| StreamCache.RefetchExact | StreamCache.h:152-166 | a file fetched again before its release keeps its lent stream if and only if that stream can do what is asked now |
| Statistics.RingRotates | Stats.cpp:19-45 | rotation keeps slot cur-k equal to the count of second last-k, the capped gap included |
| Statistics.RingStarts | Stats.cpp:19-45 | the first rotation clears whatever the arrays held |
| Statistics.RingCounts | Stats.cpp:48-52 | counting an event keeps the ring exact |
| Statistics.WindowGrows | Stats.cpp:65-101 | one more slot makes the window one second longer |
| Statistics.Stats.ClearSlots | Stats.cpp:26-41 | sets to zero exactly the slots of the seconds that passed, in all three rings |
| Statistics.Stats.RotateSamples | Stats.cpp:19-45 | afterwards the rings are exact for the current second |
| Statistics.Stats.MessageEnqueued | Stats.cpp:48-52 | one more event in the current second, in this ring alone |
| Statistics.Stats.MessageDequeued | Stats.cpp:53-57 | likewise |
| Statistics.Stats.MessagePeeked | Stats.cpp:59-63 | likewise |
| Statistics.Stats.EnqueueCounts | Stats.cpp:65-101 | the numbers of events in the last 10, 60 and 300 seconds, for any history under a clock that does not go back |
| Statistics.Stats.DequeueCounts | Stats.cpp:103-147 | likewise for retrieves |
| Statistics.Stats.PeekCounts | Stats.cpp:149-185 | likewise for peeks |
| Statistics.WindowCounts | Stats.cpp:70-99 | the sums over the slots are the true counts, modulo 2^32 |
| Wire.LongRoundTrip | server_operators.h:80-99 | a number comes back as a signed 32-bit variable holds it |
| Wire.FieldsRoundTrip | server_operators.h:339-434 | an add, remove or enumerate request comes back, with exactly what follows it, if and only if its size, taken as a signed 32-bit number, is at least that of its lengths; otherwise it is refused |
| Wire.FieldsFit | server_operators.h:339-434 | requests of less than 2^31 bytes always come back |
| Wire.FieldsInverse | server_operators.h:339-434 | whatever bytes come: a request that is accepted is the encoding of the strings that are taken from it |
| Wire.IdentitiesInverse | lib/client_operators.h:119-137 | likewise a list, but that a negative count stands for an empty one too |
| Wire.ReplyInverse | lib/client_operators.h:139-153 | likewise a reply |
| Wire.RequestBytes | lib/client_operators.h:427-440 | the bytes of a request to add an identity: the size, the three lengths, then the three strings |
| Wire.IdentityBytes | server_operators.h:599-619 | the bytes of a list: the count, and for each identity the subject and then the issuer behind its length |
| Wire.LongBytes | server_operators.h:95-100 | a number goes out in four bytes, the most significant first, in two's complement |
| Wire.IdentitiesRoundTrip | lib/client_operators.h:119-137 | a list of identities comes back, with exactly what follows it |
| Wire.ReplyRoundTrip | lib/client_operators.h:139-153 | a temporary-queue reply or a lone error code comes back, with exactly what follows it |
| Wire.Input.ReadLong | server_operators.h:80-85 | reads four bytes, or fails |
| Wire.Input.ReadString | server_operators.h:71-78 | reads a string byte by byte, or fails |
| Wire.Input.ReadRequest | server_operators.h:339-434 | the stream decoders of the requests of 3, 2 and 1 strings are the decoder of the round trip |
| Wire.Input.ReadIdentities | lib/client_operators.h:119-137 | the stream decoder of the list likewise |
| Wire.Input.ReadReply | lib/client_operators.h:139-153 | the stream decoder of the reply likewise |
| Wire.Output.WriteRequest | lib/client_operators.h:427-464 | writes the size, the lengths and the strings |
| Wire.Output.WriteIdentities | server_operators.h:599-619 | writes the number of identities and each with its lengths |
| Wire.Output.WriteReply | server_operators.h:621-632 | writes the fields that the error code calls for |
| Bytes.BE32RoundTrip | server_operators.h:80-99 | network order reads back |
| Bytes.ByteOrder | server_operators.h:95-100 | in memory the least significant byte comes first, on the wire the most significant one |

## Left out

- Sockets, threads, mutexes, signals, WaitForID and WaitFront wake-ups: each locked operation is one step, and a wait followed by an open and a seek is those steps.
- Failures of the file system and failed opens: what the stream library does then is not modelled. A record cut inside its body is found by recovery as if it were whole, as in Storage.QStorage.Recover; what a retrieve then delivers is not modelled.
- Messages.Pack: takes `char` as signed and the machine as one with the least significant byte first. A label or queue name shorter than its field is padded by the caller.
- A negative body size in a log: it would move the scan backwards; in the model the scan stops there.
- Cursor and position objects: RandPq names them by numbers in maps; lists of positions are maps, since nothing depends on their order.
- `dequeue()`, which nothing calls and which invalidates the cursors on the next entry instead of the erased one.
- Storage.QStorage: holds its index as a sequence and its handles as (target, valid, tied) values; RandPq and IndexCursors show the queue object, called as this class calls it, to give those values. Where the model uses a stream it uses the file's bytes; StreamCache is modelled on its own.
- Storage.Restart: from logs with at most one torn record each, the last; once there is more behind one, Storage.QStorage.Recover says what is read, and LogFormat.AppendFound and LogFormat.EntryMadeUp what that is when the record is cut inside its header or image.
- Storage.QStorage.Show: through a valid handle at the end of the list the source writes through an iterator that is on no entry; the model closes the handle. Pending handles are never there.
- Storage.QStorage.TTLPurge: error messages for expired messages are not sent.
- MessageCmds.h: the commands are steps of the state machine, not objects; their response codes, waiting loops and the sending of a reply are outcomes chosen by the run.
- Session.ServiceThread.Enqueue: security checks, message ids and times come from elsewhere; the id of a new message is taken to be fresh.
- Session.ServiceThread: the queues are values in a map, changed by the functions that QStorage is proved to compute; the release of the queue object is in Registry. Queue handles and cursor handles are unbounded.
- Session.ServiceThread.CommitTransaction: the method runs without other sessions' steps in between, and visits the entries in any order instead of that of their keys; Commits.CommitInterleaved says what each entry's commit does when they come in between.
- Session.ServiceThread.RollbackTransaction: likewise uninterrupted; ServerRuns.RollbackIdentity holds for every interleaving.
- Session.ServiceThread.EndTransaction: as CommitTransaction.
- Commits.CommitExact: for a commit without other sessions' steps in between; Commits.CommitInterleaved is for any.
- Session.ServiceThread.ShutdownPending: uninterrupted, like the methods above; Interruptions.EndInterrupted holds for every interleaving of a session's end with the others' steps.
- Session.ServiceThread.CloseCursors: likewise, where the source locks the queue for one close at a time, so that a number may be handed out again during the loop (Interruptions.GivenInBetween).
- Session.ServiceThread.ShutdownQueue: likewise uninterrupted; asks that no command of the session is running.
- Session.ServiceThread.Disconnect: likewise, on both counts. The queue objects are released in Registry.
- ServerRuns.RunInv: for clean runs; ServerRuns.RunExact shows that it holds in no other.
- ServerRuns.RollbackIdentity: for clean runs without refused copies, as explained above; Losses.RollbackExact is the exact form.
- Losses.LifeCycle: for clean runs; so are the other results on losses.
- Queue statistics other than the window counts, peeks by id and at the front, which open a cursor, read and close it again.
- Registry.QManager: the configuration file, the directory of a queue and security; a new queue's address is one that no live queue has. Restarts of the server are not among the steps.
- StreamCache.StreamCache.Get: asks for at least one place, as the source reaches in front of its array otherwise. Positions within a stream and truncation are not modelled, and stream addresses are not used again.
- Statistics.Stats.RotateSamples: asks for a clock at 512 seconds or more, counted from its epoch, so that the first rotation clears every slot, and for one that does not go back. The text that DequeueCounts logs is not modelled.
- Wire.FieldsRoundTrip: for strings of less than 2^31 bytes; sums that overflow a signed variable are taken to wrap around. What is consumed after a refusal is not modelled. A size field that is cut short counts as cut input.
- Wire.Input.ReadRequest: one decoder for any number of strings, where the source writes out those for 3, 2 and 1; Wire.Output.WriteRequest likewise.
- The client-information list, whose decoder appends to a name it does not clear, login, permissions and the other fixed-size records.
- File names: files are numbers, and the listing of a directory is given in order.
- Forwarding, system delivery, access control lists, loggers, configuration, the service wrapper, the client library's wrappers and the user interface.
