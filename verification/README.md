# Verified models of the fesTerm mobile core

Dafny models of the stateful and algorithmic parts of the fesTerm mobile app and of two of its scripts, each with
machine-checked proofs of what the code is for. `dafny verify dfyconfig.toml` checks everything.

| files | what they model |
|---|---|
| `Forest`, `AccessTree`, `Hoist` | the accessibility tree rewrite: an in-place pass loop over an array of nodes, against a reference function on trees |
| `Registry`, `HostSteps`, `HostPoll`, `Host` | the document host: the registry of open documents, the host's steps and polls, and the host object |
| `HostFrames`, `HostInvariant`, `HostSaves`, `HostClosing`, `HostReading`, `HostTickets`, `HostOrphans`, `HostSheets`, `HostEffects` | theorems over every run of the host's protocol |
| `HostFiles` | the host together with the iOS and Android file adapters |
| `Preview` | the Markdown preview loader and its worker thread |
| `KeyPress` | the press state of on-screen keys, over frames |
| `Pane` | directory panes fed by racing listing threads |
| `Calendar` | day number to calendar date |
| `TextBuffer` | bounded text buffers, byte and character indices, the caret |
| `SvgPath` | the SVG path interpreter |
| `LineReader` | the chunked line reader |

How the models are built. An object that the source updates in place is a class; each of its methods is proved to
do exactly what a function on the abstract state says, and the theorems are about that function. Threads, native
file events and the user are steps that may happen in any order; a *run* is any sequence of such steps from the
start, and "over every run" means for every such sequence. Results of native calls, the clock and pointer facts are
inputs. Machine integers are bounded where the source can overflow (`Calendar` computes in 64-bit integers; every
`checked_add` of the registry and the host is an explicit limit).

Main results:

- **Tree rewrite.** On every forest, in every node order, the loop produces one reference forest. Reading order, nodes,
  reachability and the one-parent shape are kept, ancestors only shrink, and exactly the leaf elements below the roots
  disappear from above content. The first sweep does all the work: one sweep runs if there is nothing to lift, and
  otherwise two of the eight. The comment at `app/festerm-mobile/src/accessibility.rs:218` says that each pass lifts
  content one level; the code updates the parent map as it goes, so one sweep lifts through any depth.
- **Panes and previews.** A folder that is asked for opens once its listing arrives, and only the newest request counts;
  a preview shows the parse of the current text, and does so by the third call.
- **Document host.** In every reachable state no handle dangles and no source reads and saves at once. Save numbers
  strictly increase, each ticket is settled at most once, save-then-close acts on the receipt of its own save and on
  nothing else, a document with unsaved text closes only by discarding it and its text moves only by typing or reloading, a
  requested re-read is never lost, write access is only ever earned, and a fresh ticket proves that the text and the
  access of the document are those of its capture.
- **Every save in flight has its receipt on the way.** Taken alone, the host relies on its files: a document would stay marked as saving
  for good exactly if its file were reported gone while its save is in flight (`HostOrphans.OrphanedExactlyWhenGone`,
  `HostOrphans.SavingIsInFlight`). The native adapters meet that assumption. On iOS nothing is handed out while a save
  works, and its completion comes first; on Android a save's only event is its receipt. `HostFiles` composes the host
  with both adapters and proves that the event cannot happen and that every save in flight has its receipt on the way.
- **Key presses.** What a gesture sends is proved for every sequence of calls in its frames: any number of surface
  starts, latch changes and other keys. Whether an auto key repeats depends on the latch only at the press's start, and
  then exactly the frames repeat that are late enough after the start and after each repeat before.
- **Paths.** However an icon path is written, with relative or absolute commands, with lines for horizontal and vertical
  ones, or elsewhere, it draws the same polylines, moved along; curves are sampled where repeated division puts them.

## Model

| member | source | states |
|---|---|---|
| `Hoist.HoistFromLeaves` | app/festerm-mobile/src/accessibility.rs:217-272 | on a well-formed update the array ends up as the reference forest `Hoisted`, with all nodes and roles kept, after one sweep if nothing is to be lifted and two otherwise |
| `Hoist.Sweep` | app/festerm-mobile/src/accessibility.rs:219-271 | one sweep reaches the reference forest whatever the node order, and reports a move exactly if some leaf element below the roots still holds content |
| `Hoist.Round` | app/festerm-mobile/src/accessibility.rs:233-267 | one node's turn keeps the forest, the parent map and all earlier turns, and leaves the reference result as it was; a recorded parent is always indexed, so the early `continue` is unreachable |
| `Hoist.Move` | app/festerm-mobile/src/accessibility.rs:251-262 | trimming a node and splicing what was taken after it in its parent |
| `Hoist.PartitionChildren` | app/festerm-mobile/src/accessibility.rs:242-247 | children split into text runs and the rest, both in order; ids missing from the update count as content |
| `Hoist.InsertAfter` | app/festerm-mobile/src/accessibility.rs:256-261 | the lifted ids land right after the node, or at the end if it is not listed |
| `Hoist.BuildIndex` | app/festerm-mobile/src/accessibility.rs:220-225 | every id of the update is mapped to a place holding it |
| `Hoist.BuildParents` | app/festerm-mobile/src/accessibility.rs:226-231 | each recorded parent lists its child, and every listed child is recorded |
| `Hoist.MoveKeepsProgress` | app/festerm-mobile/src/accessibility.rs:251-266 | a move keeps forest, parents and finished turns, does not change the final result, and only happens on an unsettled forest |
| `Hoist.ProgressEnd` | app/festerm-mobile/src/accessibility.rs:219-271 | when all turns of a sweep are made, the forest is a fixed point |
| `Hoist.HoistGuarantees` | app/festerm-mobile/src/accessibility.rs:214-272 | reading order without text runs is identical, same trees and nodes, ancestors of a node only shrink and for content shrink by exactly the leaf elements below the roots, nothing is left to lift, a second rewrite changes nothing |
| `Hoist.OrderIsIrrelevant` | app/festerm-mobile/src/accessibility.rs:233-235 | any permutation of the node list has the same result |
| `Hoist.UnfoldingIsUnique` | app/festerm-mobile/src/accessibility.rs:220-231 | the node list and its roots determine the forest, so the result is a property of the array alone |
| `AccessTree.LeafElementsExactly` | app/festerm-mobile/src/accessibility.rs:192-212 | a node is a leaf element exactly if it supports one of the ten named actions or carries a toggle, a value or a number |
| `Forests.LiftKeepsHoisted` | app/festerm-mobile/src/accessibility.rs:251-262 | lifting out of one leaf element anywhere leaves the fully hoisted forest unchanged |
| `Forests.HoistedReading` | app/festerm-mobile/src/accessibility.rs:217-272 | the hoisted forest reads in the same order |
| `Forests.HoistedAbove` | app/festerm-mobile/src/accessibility.rs:217-272 | which ancestors each node keeps |
| `AccessTree.MatchesLift` | app/festerm-mobile/src/accessibility.rs:251-262 | the two child-list updates realise exactly the tree operation `Lift` |
| `DocumentHosts.DocumentHost.Poll` | app/festerm-mobile/src/documents.rs:234-316 | whatever arrives: picker, opened file and writer epoch first, then every event of every source in queue order, then exactly one try of each queued refresh; it keeps the invariant and reports true exactly if the opened file got its view |
| `HostPolls.PollIsSteps` | app/festerm-mobile/src/documents.rs:234-316 | a poll is a run of host steps: those from outside, one per event, one per queued refresh |
| `DocumentHosts.DocumentHost.PollRefresh` | app/festerm-mobile/src/documents.rs:302-314 | each queued document is tried exactly once |
| `DocumentHosts.DocumentHost.TakeEvents` | app/festerm-mobile/src/documents.rs:286-297 | all queued events, source by source, each queue in order |
| `DocumentHosts.DocumentHost.PollEvents` | app/festerm-mobile/src/documents.rs:297-301 | the events are handled one by one in that order |
| `DocumentHosts.DocumentHost.InvalidateSources` | app/festerm-mobile/src/documents.rs:224-231 | every document with a source loses access, its epoch moves on, and its re-read is queued; nothing else changes |
| `DocumentHosts.DocumentHost.Attach` | app/festerm-mobile/src/documents.rs:318-403 | opens or shares the document, compares the read under the old ticket, grants access, adds source, tab and active view; every refusal leaves the host as it was |
| `DocumentHosts.DocumentHost.StartRefresh` | app/festerm-mobile/src/documents.rs:419-437 | a read starts under a ticket of the present document, or the call fails without a change |
| `DocumentHosts.DocumentHost.RefreshNext` | app/festerm-mobile/src/documents.rs:302-314 | success or a definite failure leaves the queue, busy stays queued |
| `DocumentHosts.DocumentHost.OnLoaded` | app/festerm-mobile/src/documents.rs:441-486 | the read branch of an event |
| `DocumentHosts.DocumentHost.OnSaved` | app/festerm-mobile/src/documents.rs:487-498 | the receipt branch |
| `DocumentHosts.DocumentHost.OnSaveFailed` | app/festerm-mobile/src/documents.rs:499-522 | the failure branch |
| `DocumentHosts.DocumentHost.OnEvent` | app/festerm-mobile/src/documents.rs:439-532 | dispatch, with the branch for a file that is gone |
| `DocumentHosts.DocumentHost.TakeSave` | app/festerm-mobile/src/documents.rs:534-549 | only the number in flight is taken, and only once |
| `DocumentHosts.DocumentHost.SaveView` | app/festerm-mobile/src/documents.rs:551-583 | a save starts with the next number, or nothing but a spent ticket number remains |
| `DocumentHosts.DocumentHost.CloseView` | app/festerm-mobile/src/documents.rs:610-644 | closing clears every handle to the view and, with the last view, source, queue entry and preview |
| `DocumentHosts.DocumentHost.DuplicateView` | app/festerm-mobile/src/documents.rs:646-665 | a second view with its own tab, or no change |
| `DocumentHosts.DocumentHost.ShowSheets` | app/festerm-mobile/src/documents.rs:1068-1125 | the pending close request, then what was pressed in the close sheet |
| `DocumentHosts.DocumentHost.ActivateTab` | app/festerm-mobile/src/documents.rs:161-171 | activates the view of the tab and says whether there is one |
| `DocumentHosts.DocumentHost.CloseTab` | app/festerm-mobile/src/documents.rs:585-589 | closes the view of the tab without discarding |
| `DocumentHosts.DocumentHost.RequestClose` | app/festerm-mobile/src/documents.rs:591-597 | asks to close the view of the tab |
| `DocumentHosts.DocumentHost.RefreshActive` | app/festerm-mobile/src/documents.rs:599-608 | queues the active document |
| `HostInvariant.StepKeepsInv` | app/festerm-mobile/src/documents.rs:161-665 | every step keeps: live handles, sources, queue and previews of open documents, distinct tabs below the next one, never a read and a save together, a source saving exactly while its document is marked saving |
| `HostInvariant.SaveOutcome` | app/festerm-mobile/src/documents.rs:551-583 | a save press either starts one save under a new number or changes nothing but the ticket counter |
| `HostInvariant.JoinOutcome` | app/festerm-mobile/src/documents.rs:341-374 | attaching grows the registry by one view; granting access cannot fail, so no view is left without a tab |
| `HostSaves.RunKeepsInv` | app/festerm-mobile/src/documents.rs:161-665 | the invariant in every state of every run |
| `HostSaves.StepStartsOne` | app/festerm-mobile/src/documents.rs:551-583 | a step starts at most one save, with the next number; only a save press does |
| `HostSaves.SaveNumbersIncrease` | app/festerm-mobile/src/documents.rs:563-581 | over every run the numbers of saves strictly increase, across documents |
| `HostSaves.InFlightNumbersDiffer` | app/festerm-mobile/src/documents.rs:534-581 | two saves in flight never share a number |
| `HostSaves.OtherReceiptsAreRefused` | app/festerm-mobile/src/documents.rs:500-549 | a receipt with another number changes nothing; a failure with another number at most drops a pending save-then-close |
| `HostSaves.MatchingReceiptIsAccepted` | app/festerm-mobile/src/documents.rs:487-491 | the receipt of the save in flight always settles it: saved point, version, no conflict, no other document touched |
| `HostSaves.MatchingFailureIsAccepted` | app/festerm-mobile/src/documents.rs:507-520 | the failure of the save in flight always settles it, keeps unsaved text unsaved, and requeues, removes or revokes as the reason demands |
| `HostSaves.SettledAtMostOnce` | app/festerm-mobile/src/documents.rs:487-549 | over every run a ticket is finished or failed at most once |
| `HostClosing.SaveThenCloseIsSafe` | app/festerm-mobile/src/documents.rs:487-499 | over every run a file event asks to close a view only as the accepted receipt of the save started from that view's sheet, with no cancel, failure or close since |
| `HostClosing.PendingOrigin` | app/festerm-mobile/src/documents.rs:1113-1124 | a pending save-then-close traces back to one press in the sheet of its view |
| `HostClosing.AbandoningClears` | app/festerm-mobile/src/documents.rs:500-506 | cancel, failure and close of the view each drop the pending save-then-close |
| `HostClosing.OnlyDiscardDropsUnsaved` | app/festerm-mobile/src/documents.rs:610-644 | a document disappears only while nothing is being saved, and with unsaved text only by pressing discard in the sheet of its last view |
| `HostClosing.UnsavedTextSurvives` | app/festerm-mobile/src/documents.rs:610-644 | over every run unsaved text stays open until somebody discards it |
| `HostSheets.SaveThenCloseHappens` | app/festerm-mobile/src/documents.rs:487-499 | over every run the receipt of a save started from a view's sheet does ask to close that view, whichever view is active, unless it was cancelled, failed, closed, or its file lost |
| `HostSheets.SavedSheetCloses` | app/festerm-mobile/src/documents.rs:487-499 | and the next frame closes the view, or asks again if it is the last view of text typed meanwhile |
| `HostSheets.RequestIsHonoured` | app/festerm-mobile/src/documents.rs:1077-1079 | a requested close is used up and closes the view, or opens its sheet if that would lose unsaved text |
| `HostSheets.FlightStays` | app/festerm-mobile/src/documents.rs:487-549 | only its receipt, its failure or the loss of its file end a save in flight |
| `HostSheets.CloseExactly` | app/festerm-mobile/src/documents.rs:610-644 | every case of closing: refused while saving, the sheet, or the view gone with its handles and nothing else, and with the last view its document, source, queue entry and preview |
| `HostSheets.TabCloses` | app/festerm-mobile/src/documents.rs:585-589 | closing a tab closes its view or opens its sheet |
| `HostSheets.DiscardCloses` | app/festerm-mobile/src/documents.rs:1119-1120 | discarding closes the view, unsaved text or not |
| `HostEffects.CancelExactly` | app/festerm-mobile/src/documents.rs:1121-1124 | cancelling closes the sheet and forgets the pending save-then-close |
| `HostEffects.SavingSheetWaits` | app/festerm-mobile/src/documents.rs:1095-1114 | while the document is being saved, save and discard do nothing |
| `HostEffects.SavePressExactly` | app/festerm-mobile/src/documents.rs:1114-1118 | save in the sheet saves the view, and if that starts, the view waits for exactly that save |
| `HostEffects.SaveExactly` | app/festerm-mobile/src/documents.rs:551-583 | a save starts if and only if the document is writable, its source idle, no conflict undecided, the text within its limit and the native call accepted; it takes the present text and expects the version the user last saw |
| `HostEffects.FailureExactly` | app/festerm-mobile/src/documents.rs:499-522 | what each reason of a failed save does to the document, the queue and the source |
| `HostEffects.AttachExactly` | app/festerm-mobile/src/documents.rs:318-403 | a file is attached if and only if there is room and its document is not being saved; it gets a new view in a new last tab, active, and a fresh source |
| `HostEffects.NewFileOpens` | crates/festerm-mobile-docs/src/editor.rs:198-245 | a file not open before becomes a clean, available document at the version read, with the access it came with |
| `HostEffects.OpenFileIsShared` | app/festerm-mobile/src/documents.rs:353-402 | a file already open keeps its document and text, takes the access it came with, and a read older than the document is read again |
| `HostEffects.PickTakesTickets` | app/festerm-mobile/src/documents.rs:241-253 | picking a file captures a ticket of every open document |
| `HostEffects.DuplicateExactly` | app/festerm-mobile/src/documents.rs:646-665 | a second view of the same document in a new last tab, active, or no change without room |
| `HostEffects.ActivateExactly` | app/festerm-mobile/src/documents.rs:161-171 | a chosen tab becomes active, and another view's contents sheet goes |
| `HostEffects.UnknownTab` | app/festerm-mobile/src/documents.rs:585-597 | a tab that does not exist changes nothing but a pending request |
| `HostEffects.RefreshActiveExactly` | app/festerm-mobile/src/documents.rs:599-608 | the active view's document is queued, and nothing else happens |
| `HostTickets.UnsavedTextIsKept` | app/festerm-mobile/src/documents.rs:439-665 | over every run unsaved text stays open, at the same revision, until somebody types into the document, reloads it or discards it |
| `HostTickets.OnlyUsersTouchUnsaved` | crates/festerm-mobile-docs/src/editor.rs:318-471 | no event, receipt, attach or close moves unsaved text; only an edit or a reload of the document does |
| `HostReading.RequestIsKept` | app/festerm-mobile/src/documents.rs:302-314 | a request leaves the queue only with a read in flight under a ticket of that moment, or with its document |
| `HostReading.RereadIsNeverLost` | app/festerm-mobile/src/documents.rs:281-314 | the same over every run |
| `HostReading.IdleRequestIsServed` | app/festerm-mobile/src/documents.rs:419-437 | a request for an idle source is served at the next try the native side accepts |
| `HostReading.AccessIsEarned` | app/festerm-mobile/src/documents.rs:370-480 | write access appears only by an attach of a writable file or a fresh writable read |
| `HostReading.WriteAccessIsEarned` | app/festerm-mobile/src/documents.rs:224-518 | the same over every run |
| `HostReading.StaleReadOnlyRevokes` | app/festerm-mobile/src/documents.rs:454-472 | a stale read always requeues and changes nothing but write access, which it revokes exactly if it arrives read-only |
| `HostReading.FreshReadSettlesAccess` | app/festerm-mobile/src/documents.rs:475-480 | a fresh, acceptable read leaves the document available with exactly the access it reports |
| `HostEffects.UnaskedReadAsksAgain` | app/festerm-mobile/src/documents.rs:481-485 | a read without a ticket changes nothing but the queue |
| `HostEffects.ObserveExactly` | crates/festerm-mobile-docs/src/editor.rs:390-436 | the outcome of comparing a read: closed, stale, busy or refused without a change; otherwise conflict settled, recorded, or text replaced |
| `HostEffects.RefreshExactly` | app/festerm-mobile/src/documents.rs:302-314 | one try: busy stays as it is, an idle source starts a read, every other document leaves the queue unavailable and without a source |
| `HostEffects.SuspendExactly` | app/festerm-mobile/src/documents.rs:224-231 | suspending revokes and requeues every document with a source, and no other |
| `HostEffects.GoneExactly` | app/festerm-mobile/src/documents.rs:523-529 | a file reported gone leaves its document open, unavailable and without a source |
| `HostEffects.EditExactly` | crates/festerm-mobile-docs/src/editor.rs:318-346 | typing takes effect exactly on a writable document, as a new revision |
| `HostEffects.ConflictIsDecided` | crates/festerm-mobile-docs/src/editor.rs:438-471 | an undecided conflict refuses saving; keeping edits saves over the version seen; reloading is clean at that version |
| `HostTickets.StepIsOlder` | crates/festerm-mobile-docs/src/editor.rs:318-490 | no step turns a counter back or reuses a handle; each change of text or access moves a counter |
| `HostTickets.HandlesNeverRecycle` | crates/festerm-mobile-docs/src/editor.rs:221-278 | over every run a closed view or document never returns under its handle |
| `HostTickets.FreshMeansUntouched` | crates/festerm-mobile-docs/src/editor.rs:378-405 | over every run a ticket that is still fresh proves the document open, with text, access and counters unchanged, at every step since its capture |
| `HostTickets.ReadsKeepUnsavedText` | crates/festerm-mobile-docs/src/editor.rs:408-436 | a read never touches unsaved text; another version becomes a conflict |
| `HostTickets.ReadsRefreshCleanText` | crates/festerm-mobile-docs/src/editor.rs:407-436 | an accepted read leaves a clean document clean at the version read, and reports a change exactly if the version differs |
| `HostTickets.SavesRecordWhatTheyWrote` | crates/festerm-mobile-docs/src/editor.rs:492-554 | after prepare, typing and receipt, the document is clean exactly if the text is back at the point that was written |
| `HostOrphans.OrphanedExactlyWhenGone` | app/festerm-mobile/src/documents.rs:412-529 | a step leaves a document saving without a source if and only if it reports the file gone while its save is in flight |
| `HostOrphans.GoneDuringSaveIsForever` | app/festerm-mobile/src/documents.rs:523-529 | what that assumption protects from: such a document would stay saving and unavailable, refuse saves and access, and its last view would not close |
| `HostOrphans.GoneDuringSaveHappens` | app/festerm-mobile/src/documents.rs:412-529 | the host alone does not exclude the event: with files that deliver events in any order it can happen, so the assumption on the adapters is needed |
| `HostOrphans.SavingIsInFlight` | app/festerm-mobile/src/documents.rs:439-583 | in a run of the host alone without that event, a document is marked saving exactly while its save is in flight |
| `HostFiles.GoneNeverMeetsSave` | crates/festerm-ios-window/src/document_ios.rs:309-471 | over every run of host and adapters, a file is never reported gone to a host whose save of it waits |
| `HostFiles.ReceiptIsOnItsWay` | crates/festerm-ios-window/src/document_ios.rs:371-471 | over every run of host and adapters, a document is marked saving exactly while its save is in flight, and then its adapter works on that save, or holds its receipt, or the receipt is the next of its events |
| `HostFiles.ComingTaken` | crates/festerm-ios-window/src/document_ios.rs:445-471 | a poll of an adapter with a save takes nothing, or the receipt first |
| `HostFiles.ComingAdvances` | crates/festerm-ios-window/src/document_android.rs:107-161 | no native progress, automatic re-reads included, loses the receipt |
| `HostFiles.ReportsAreHandedOut` | crates/festerm-ios-window/src/document_ios.rs:445-471 | an adapter at rest hands out all it has, in order, and keeps nothing; one at work on iOS hands out nothing |
| `HostFiles.JobsReportThemselves` | crates/festerm-ios-window/src/document_ios.rs:309-443 | a job's report is its own, whatever the adapter held before |
| `HostFiles.HostRuns` | app/festerm-mobile/src/documents.rs:234-316 | the host of a run with adapters makes a run of the host alone, so every result about those applies |
| `Registry.OpenKeepsValid` | crates/festerm-mobile-docs/src/editor.rs:198-245 | opening keeps documents, origins and views consistent |
| `Registry.PrepareKeepsValid` | crates/festerm-mobile-docs/src/editor.rs:492-530 | so does preparing a save |
| `Registry.CloseKeepsValid` | crates/festerm-mobile-docs/src/editor.rs:561-583 | so does closing a view |
| `Registry.CloseKeepsDirty` | crates/festerm-mobile-docs/src/editor.rs:561-583 | the last view of a saving document does not close, and of a dirty one only by discarding |
| `Registry.FailUndoesPrepare` | crates/festerm-mobile-docs/src/editor.rs:492-559 | failing a save that was just prepared restores the registry but for the spent number |
| `Preview.PreviewLoader.Document` | app/festerm-mobile/src/document_preview.rs:41-124 | cancel what is not wanted, join a finished worker, answer from the cache, wait, or start a worker |
| `Preview.PreviewLoader.Forget` | app/festerm-mobile/src/document_preview.rs:32-39 | drops the slot and cancels the worker of that document |
| `Preview.SlotsFollowCalls` | app/festerm-mobile/src/document_preview.rs:32-123 | a call fills at most the slot of its own document, and forgetting empties exactly one, so the host's set of previewed documents covers the cache |
| `Preview.RunKeepsInv` | app/festerm-mobile/src/document_preview.rs:24-124 | over every interleaving each parsed slot comes from a worker that was never cancelled and read the text of that revision |
| `Preview.AnswersAreCurrent` | app/festerm-mobile/src/document_preview.rs:41-83 | over every interleaving a returned document is the parse of the current text at the current revision, from a worker that was never cancelled |
| `Preview.FinishedWorkerAnswers` | app/festerm-mobile/src/document_preview.rs:53-80 | a finished worker's call answers with the document if the text parses, with the parse error if not, and with the two messages if the worker died or said nothing |
| `Preview.UnansweredCall` | app/festerm-mobile/src/document_preview.rs:81-123 | a call without an answer waits for the running thread, gives the reason there is no source, reports a failed start, or starts a worker on exactly its text |
| `Preview.AnswersAreKept` | app/festerm-mobile/src/document_preview.rs:76-80 | an answer is repeated until the text changes or the document is forgotten |
| `Preview.OtherWorkIsCancelled` | app/festerm-mobile/src/document_preview.rs:48-52 | after a call the pending worker is for its document and revision, or is cancelled |
| `Preview.OneWorker` | app/festerm-mobile/src/document_preview.rs:24-29 | at most one worker runs at any moment |
| `Preview.CancelIsFinal` | app/festerm-mobile/src/document_preview.rs:48-52 | a cancelled worker stays cancelled |
| `Preview.ForgetIsFinal` | app/festerm-mobile/src/document_preview.rs:32-39 | after forgetting a document no earlier worker's result enters its slot |
| `Preview.ThirdCallAnswers` | app/festerm-mobile/src/document_preview.rs:53-117 | from any reachable state, if workers finish between calls and start when asked, the third call for one revision answers, and with the parse of its text unless a thread died |
| `Panes.Pane.LoadPath` | app/festerm-mobile/src/files.rs:275-294 | a new generation becomes the only pending load |
| `Panes.Pane.Refresh` | app/festerm-mobile/src/files.rs:296-298 | reloads the present path |
| `Panes.Pane.OpenDir` | app/festerm-mobile/src/files.rs:300-312 | opening a folder, or going up, clears the selection and loads |
| `Panes.Pane.GoTo` | app/festerm-mobile/src/files.rs:314-317 | going to a path clears the selection and loads |
| `Panes.Pane.Poll` | app/festerm-mobile/src/files.rs:324-351 | what one poll applies, drops or reports |
| `Panes.RunKeepsInv` | app/festerm-mobile/src/files.rs:275-351 | over every interleaving path and listing come from one load, and applied generations strictly increase |
| `Panes.OnlyTheNewestLoadApplies` | app/festerm-mobile/src/files.rs:324-351 | an applied listing is the reply of the newest load, and the selection keeps exactly the listed names |
| `Panes.SupersededIsNeverApplied` | app/festerm-mobile/src/files.rs:275-351 | a load that was superseded before its reply was applied never is |
| `Panes.NewestReplyIsTaken` | app/festerm-mobile/src/files.rs:324-351 | in every run a poll that finds the newest load's reply shows its path and listing, clears the error and returns true, or reports its refusal and leaves what is shown; without a reply it changes nothing |
| `Panes.AskedFolderOpens` | app/festerm-mobile/src/files.rs:275-351 | over every run a folder asked for, and not superseded, opens with its listing at the first poll after its reply |
| `Panes.RefusalIsReported` | app/festerm-mobile/src/files.rs:275-351 | and a folder that cannot be listed is reported, with the pane left where it is |
| `Panes.IdlePollIsSilent` | app/festerm-mobile/src/files.rs:324-327 | without a load in progress a poll changes nothing |
| `Panes.AskingKeepsWhatIsShown` | app/festerm-mobile/src/files.rs:273-317 | asking keeps path, listing and error; visiting drops the selection, reloading keeps it |
| `KeyPresses.KeyPress.Begin` | app/festerm-mobile/src/key_press.rs:81-111 | interruptions cancel, a frame without pointer resets |
| `KeyPresses.KeyPress.Key` | app/festerm-mobile/src/key_press.rs:114-194 | what one key does in one frame |
| `KeyPresses.KeyPress.Cancel` | app/festerm-mobile/src/key_press.rs:68-72 | drops the press and blocks |
| `KeyPresses.KeyPress.Latch` | app/festerm-mobile/src/key_press.rs:75-77 | remembers the latch for presses that start now |
| `KeyPresses.CancelSilences` | app/festerm-mobile/src/key_press.rs:68-136 | after a cancel no call fires until a frame begins with the pointer neither down nor released |
| `KeyPresses.InterruptionsCancel` | app/festerm-mobile/src/key_press.rs:87-132 | each interruption, and straying off the key, is such a cancel |
| `KeyPresses.GestureRuns` | app/festerm-mobile/src/key_press.rs:81-194 | an uncancelled gesture, with any surface starts, latch changes and other keys in its frames, is the press alone, frame by frame |
| `KeyPresses.HoldKey` | app/festerm-mobile/src/key_press.rs:139-192 | a hold key fires exactly once per gesture, the alternate if and only if some frame saw it down for the hold delay |
| `KeyPresses.ReleaseKey` | app/festerm-mobile/src/key_press.rs:139-192 | a release key fires exactly once, on release |
| `KeyPresses.AutoKey` | app/festerm-mobile/src/key_press.rs:139-192 | an auto key fires at least once and at most once plus one per interval after the delay; exactly once if and only if a modifier was latched when the press started, whatever the latch does later, or no frame saw it down for the delay |
| `KeyPresses.AutoKeyFrames` | app/festerm-mobile/src/key_press.rs:139-163 | of an unlatched auto key, the first frame sends, and a later one exactly if it is the delay after the start and the interval after every repeat before it |
| `KeyPresses.AutoKeyKeepsUp` | app/festerm-mobile/src/key_press.rs:139-163 | the rate from below: with frames at most a gap apart, the time held is less than the delay and one interval and gap per repeat |
| `KeyPresses.ClickSends` | app/festerm-mobile/src/key_press.rs:184-192 | a click on a key nobody holds sends it |
| `KeyPresses.OneKeyAtATime` | app/festerm-mobile/src/key_press.rs:139-183 | while one key is held, another one going down does nothing |
| `KeyPresses.IdleFrameResets` | app/festerm-mobile/src/key_press.rs:107-111 | a frame without pointer lets keys work again, whatever was cancelled |
| `KeyPresses.StraysBeyondTen` | app/festerm-mobile/src/key_press.rs:122-128 | a pointer on its key strays exactly beyond ten points from where it went down |
| `Calendar.FormatDate` | app/festerm-mobile/src/files.rs:862-878 | for every 64-bit second count no step overflows and the fields are those of `Civil` for that day |
| `Calendar.CivilFields` | app/festerm-mobile/src/files.rs:862-878 | for every day number the fields are a valid Gregorian date, and its day number is the argument |
| `Calendar.CivilInverse` | app/festerm-mobile/src/files.rs:862-878 | every valid date is the conversion of its own day number |
| `Calendar.CivilSuccessor` | app/festerm-mobile/src/files.rs:862-878 | day n + 1 is the calendar successor of day n; day 0 is 1970-01-01 |
| `Calendar.CivilIncreases` | app/festerm-mobile/src/files.rs:862-878 | the conversion is strictly increasing |
| `TextBuffers.PasswordBuffer.InsertText` | app/festerm-mobile/src/password_buffer.rs:33-45 | splices the longest prefix within the character limit at the clamped index and returns its length |
| `TextBuffers.PasswordBuffer.DeleteCharRange` | app/festerm-mobile/src/password_buffer.rs:47-54 | removes exactly the characters of the clamped range |
| `TextBuffers.ReviewBuffer.InsertText` | app/festerm-mobile/src/dictation.rs:29-37 | splices the longest prefix within both limits, never splitting a character, never passing a limit |
| `TextBuffers.ReviewBuffer.DeleteCharRange` | app/festerm-mobile/src/dictation.rs:39-41 | the same deletion |
| `TextBuffers.RoundTrip` | app/festerm-mobile/src/password_buffer.rs:18-24 | character to byte index and back, always on a boundary |
| `TextBuffers.WidthIsEncodedLength` | app/festerm-mobile/src/password_buffer.rs:18-24 | a character's width is the length of its encoding (section 3 of RFC 3629), which decodes to it and announces its length |
| `TextBuffers.BytesIsEncodedLength` | app/festerm-mobile/src/dictation.rs:29-37 | byte counts are those of the encoded text |
| `TextBuffers.DeleteUndoesInsert` | app/festerm-mobile/src/password_buffer.rs:33-54 | deleting what was inserted restores the text if and only if the index was in range or nothing was inserted |
| `TextBuffers.CaretAfter` | app/festerm-mobile/src/documents.rs:128-134 | the caret computed from byte lengths lands just after the spliced text |
| `TextBuffers.CaretFollowsSelection` | app/festerm-mobile/src/documents.rs:1039-1058 | character range to byte range to caret: selecting and replacing agree on where the text is |
| `LineReader.ReadOutput` | scripts/windows_test_runner.py:93-115 | the loop computes `FedAll`, and the most that was ever pending is `Peak`, which is at most 512 + 4096 bytes |
| `LineReader.ReadChunk` | scripts/windows_test_runner.py:97-109 | one chunk |
| `LineReader.TakeLines` | scripts/windows_test_runner.py:104-107 | the complete lines are taken out in order, long ones dropped |
| `LineReader.ForwardsEverything` | scripts/windows_test_runner.py:101-102 | forwarded output is the input |
| `LineReader.ChunkingIsInvisible` | scripts/windows_test_runner.py:93-115 | however the stream is cut, exactly its lines are observed, if and only if no line is longer than 512 bytes |
| `LineReader.ObservedIsShort` | scripts/windows_test_runner.py:104-111 | nothing longer than the limit is ever observed or kept |
| `SvgPath.ParsePath` | scripts/validate-icons.py:231-349 | the loop accepts and draws exactly what the recursive interpreter does |
| `SvgPath.ReadRound` | scripts/validate-icons.py:260-347 | one round: close the subpath, or draw a segment for the command given or still in force, or an error |
| `SvgPath.DrawSegment` | scripts/validate-icons.py:275-347 | one segment: its numbers, its points, the new current point, or an error |
| `SvgPath.ReadValues` | scripts/validate-icons.py:250-258 | the next numbers, or an error if there are too few |
| `SvgPath.FinishSubpath` | scripts/validate-icons.py:242-248 | a subpath is kept only with at least two points |
| `SvgPath.CubicPoints` | scripts/validate-icons.py:205-228 | the sampled points of a cubic curve |
| `SvgPath.AbsolutePathsDrawTheSame` | scripts/validate-icons.py:231-349 | rewriting any path to absolute commands, implicit lineto and closepath included, gives the same polylines or the same fault (section 9.3 of SVG 2); the rewriting of an accepted path has absolute commands only |
| `SvgPath.LinesDrawTheSame` | scripts/validate-icons.py:294-305 | replacing `H x` by `L x y0` and `V y` by `L x0 y` throughout gives the same outcome |
| `SvgPath.MovedPathsDrawMoved` | scripts/validate-icons.py:231-349 | moving every absolute coordinate, and leaving relative ones, moves every polyline by as much |
| `SvgPath.LineGoesThere` | scripts/validate-icons.py:287-293 | a line adds exactly its point and leaves the pen there |
| `SvgPath.MoveBegins` | scripts/validate-icons.py:277-286 | a moveto begins a subpath at its point and keeps the one before, which must have drawn something |
| `SvgPath.CurveGoesThere` | scripts/validate-icons.py:205-228 | a cubic curve adds eight samples, placed by repeated division of its sides, the last at its end |
| `SvgPath.ArcGoesThere` | scripts/validate-icons.py:275-347 | an arc with proper flags adds its samples and leaves the pen at its end; other flags are refused |
| `SvgPath.CloseGoesBack` | scripts/validate-icons.py:264-271 | closing returns to the first point of the subpath, adding it unless already there, with no command in force |
| `SvgPath.RoundsRememberStart` | scripts/validate-icons.py:260-347 | the pen's start is the first point of its subpath, always |
| `SvgPath.LineAfterClose` | scripts/validate-icons.py:264-293 | after closing, a relative line counts from the first point of the subpath |
| `SvgPath.NothingToGoOn` | scripts/validate-icons.py:264-273 | nothing to close and no command in force are errors |
| `SvgPath.CubicIsDivided` | scripts/validate-icons.py:205-228 | the sampling formula is repeated linear division of the four points, in order |
| `SvgPath.AcceptedPathsDraw` | scripts/validate-icons.py:231-349 | an accepted path yields polylines of at least two points each |

## Left out

- Malformed accessibility updates: the guarantees of the rewrite need distinct ids, children that form a forest and text runs that hold only text runs. `Hoist.HoistFromLeaves` itself runs on any array.
- Drawing, layout, notices, glyph previews, focus and all egui widget behaviour.
- Native picker, clipboard and speech adapters, and the file input and output of the document adapters: they appear as the events and failures they deliver. `HostFiles` models the job and report slots of the document adapters; why a native call fails is left open. Unexpected events of a file that is still being opened only set a notice and are not steps.
- Document text in `Registry`: text is its revision and its place in the edit history; byte contents, undo grouping, line endings and size limits appear as the outcome of the check.
- Remote and untitled origins of the registry: the mobile host only opens local files.
- Hash-map order: where the source iterates a map, the order is any order.
- Generation overflow of `Pane` and of epochs and revisions: these counters are unbounded here.
- The format string of `format_date` and `format_size`, ETA and progress.
- Floating point in the key timing and the SVG interpreter: exact real arithmetic.
- `arc_points` trigonometry, `same_point` tolerance and the tokenizer `path_tokens`: an arbitrary function, an arbitrary predicate and a given token list.
- Decoding, `rstrip` and the cap of 8192 results in `TestContext`: observed lines are bytes, and errors of the descriptor end the stream.
- The preview cache of outline sections and the table of contents sheet beyond the handle it holds.
- Transfer sessions, host trust, app lock, terminal core, packaging and evidence scripts.
