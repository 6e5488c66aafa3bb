# Verified models of Terma's protocols and data structures

Terma is a terminal and SFTP client: an Electron desktop shell (`desktop/`) around a browser
user interface (`public/`). This project models the parts of it that hold protocols, state
machines and index structures, and proves what they promise. Run `dafny verify dfyconfig.toml`
to check all of it.

| part | files | what is proved |
|---|---|---|
| Storage migration | `StoragePaths`, `RuntimeTree`, `StorageProtocol`, `StorageSafety`, `StorageRecovery`, `StorageContents`, `StorageResume`, `StorageForeign`, `StorageMigration` | copy, compare, promote and roll back a data directory, with a crash after any effect |
| Workspace | `WorkspaceLayout`, `WorkspaceInvariant`, `WorkspaceNormalize`, `WorkspaceOperations`, `WorkspaceTheorems`, `WorkspaceMoves`, `WorkspaceOpening`, `WorkspaceDrops`, `WorkspacePlaces`, `WorkspaceHistory`, `WorkspaceRuns`, `WorkspaceObjects` | the tree of panes and its tabs, through opening, closing, moving and dropping |
| Drag session | `DragSession`, `DragSessionSafety`, `DragSessionOutcome`, `DragSessionTargets`, `DragSessionGaps`, `DragSessionAnswers`, `DragSessionPromises`, `DragSessionObject` | one native drag-out in the desktop process, for every order of events, writes and timers |
| Linux adapter | `LinuxDrag`, `LinuxDragSafety`, `LinuxDragCompletion`, `LinuxDragCleanup`, `LinuxDragObject` | the helper process behind a drag-out on Linux |
| Phrases | `PhraseTemplates`, `PhraseCompiler`, `PhraseTokens`, `PhraseIndex`, `PhraseAnswers`, `PhraseCache`, `PhraseTable` | template matching, the bigram index and the lookup cache of the translations |
| Clipboard bridge | `ClipboardBridge`, `ClipboardOwner` | ownership of the X11 CLIPBOARD selection |
| Browser folder | `BrowserPaths`, `BrowserFolder`, `BrowserTree`, `BrowserCollect`, `BrowserOutcome`, `BrowserDirectory` | a flat file list listed and collected as a tree |
| Window guard | `WindowCorrection` | where an unreachable window is moved |
| Health checks | `HealthBatch` | four workers over one list of connections |

Each part that changes state step by step has a specification on values (a state and functions
on it) about which the properties are proved, and a class or methods that perform the steps in
place and are proved to leave exactly the state the specification computes: `Migration`,
`ManifestWalk`, `Dock` over `Pane` objects, `NativeDragSession`, `LinuxHelper`, `PhraseTable`,
`Owner`, `BrowserFileDirectory` and `Collector`, `Checks`. The objects of the drag session, the
Linux adapter, the clipboard bridge and the health checks carry the invariant of their part, and
their methods promise what can be seen from outside: messages, log entries, claims and counts.
`Common` holds what several parts share.

## How the environment is modelled

- Storage: marker and settings writes are atomic (a temporary file is renamed), removals
  succeed, and nobody changes the source while it is migrated. A crash may happen after any
  single effect; an interrupted copy leaves anything at all in the directory it works on, an
  interrupted removal of a slot a part of what was there. Any operation but a removal may fail.
  `Circumstances` says whether the copier may produce (and an interrupted removal leave) anything
  at all, whether other programs create `data` or `.ssh` in the target, and whether the program
  may die inside an undo.
- Workspace: tab keys are not empty, and pane ids tell panes apart; everything else about a
  layout and a tab list may be broken. Drawing is left out: an operation ends with the
  reconciliation that drawing the tabs begins with.
- Drag session: a handler or a firing timer is one step, and so is each stretch of a write
  request between two waits. Native events may arrive at any time, also while a call into the
  native side is running (`during`), and may repeat. What the surrounding program answers
  (whether a transfer task exists, how its job ends) is a parameter of each step. An error has a
  message, which may be empty, and a text that is shown then and is not. Where it matters
  (`DropsAreWholeIff`), deliveries fail as cancelled only once the session is aborted.
- Linux adapter: the log of what is reported, started and signalled is part of the state, with
  the calls and the exit of the helper that the rules refer to. Lines from the helper may come
  in any order and at any time.
- Phrases: texts are UTF-16 code units. The sort and the regular expressions of the runtime
  are functions; the expression `^L0(.+?)L1...$` is matched as the engine does it, by lazy
  growth of each capture with backtracking.
- Clipboard: an image is its own hash (SHA-256 is taken as free of collisions). A refresh is
  split where it waits; what it read before waiting may be outdated when it is used.
- Window guard: coordinates are real numbers.

## What turned out not to hold

The code is modelled as it is. Where an expected property fails, the exact condition is proved
or a run that breaks it is given.

- `pathInside` takes a child whose name starts with two dots for an outsider, so a target
  inside the source is accepted when its first name starts that way (`PathInsideIff`,
  `DottedTargetAccepted`). The migration then writes inside the source root, but never into
  the source's `data` or `.ssh` (`WritesOutsideSourceIff`, `WritesSpareSourceData`).
- A finished promotion whose settings cannot be written is undone. If the program dies inside
  that undo, the marker still vouches for the target and completion fails from then on
  (`DamageIsPossible`). Completion succeeds from a crash point exactly if the marker does not
  vouch for a damaged target (`ResumeCompletesIffUndamaged`), and from every crash point of every
  run exactly if the program does not die inside an undo or there is nothing to migrate
  (`CrashPointsCompleteIff`).
- A `data` or `.ssh` that another program creates in the target is safe in every run exactly if
  the source has both and the program does not die inside an undo (`ForeignSlotsSafeIff`).
- A drag session whose native start throws keeps its expiry timer and is answered twice
  (`ThrownStartAnswersTwice`); there is one result at most, and nothing after it, exactly if the
  start may not throw (`OneResultIffStartHolds`).
- A macOS drop of any number of items can be reported as done with not one of them written: the
  expiry fallback gives up while a write is pending, an accepted cancellation aborts the write, and
  a refused one clears the way (`DropReportedWithNothingWritten`). All top-level items of every
  reported drop have ended exactly if there are none or no fallback timer may go off
  (`DropsAreWholeIff`); a particular short report needs a fallback that gave up while a write was
  pending and fewer items had ended (`MacDropIsReportedLate`).
- A drag that has ended can stay unanswered for good: when it expires while items of a macOS drop
  are still being written, neither the last write nor the timer that expiry sets answers it
  (`ExpiredDropIsNotAnswered`). Every ended drag is answered, sooner or later, exactly if it is
  neither cancelled nor expires and no macOS drop is told another target late
  (`EndedDragsAreAnsweredIff`).
- A helper that reports that it has closed and does not exit is left alone
  (`ClosedHelperIsTrusted`); every other helper that is not needed any more is killed in the end
  (`NoHelperIsLeftBehind`).
- The clipboard bridge takes the loss announced for its own release for another owner's claim:
  it claims the image again exactly if the announcement comes in the settle window
  (`OwnReleaseIsTakenForALoss`).
- A file with a backslash, or another improper name, in its path is listed by the browser folder
  but cannot be opened, and the folder cannot be collected (`ImproperIsListedButLost`). Collecting
  succeeds exactly if all names are proper and there are at most 1000 files and directories
  (`CollectSucceedsIff`).
- A window correction on a work area at most 96 wide is followed by another unless the window
  reached at most 96 into it from the left or is at least as wide (`OneCorrectionSufficesIff`).
- Normalizing a workspace that is not reconciled can leave a pane empty, one whose keys are not
  open or are held by earlier panes (`StalePaneIsLeftEmpty`). The result is well formed exactly if
  at most one pane holds anything, or each such pane holds an open key that no earlier one holds,
  the chosen one excepted if some open key is in no pane; everything else is repaired in any case
  (`NormalizeRestores`).

## Model

| member | source | states |
|---|---|---|
| StoragePaths.PathInsideIff | desktop/storage-migration.js:24-27 | the containment test agrees with containment except for children whose first name below the parent starts with two dots |
| StoragePaths.AcceptedIff | desktop/storage-migration.js:29-45 | a transition is accepted exactly if its id is 32 lower-case hexadecimal digits and the target is neither the source nor inside it, children whose first name starts with two dots excepted |
| StoragePaths.OwnFilesPass | desktop/storage-migration.js:80-86 | the stage and the marker of the migration itself, and the slots, are not taken for those of another one; a stage or marker with another id of that length is |
| StoragePaths.WritesOutsideSourceIff | desktop/storage-migration.js:29-45 | an accepted migration writes outside the source root exactly if the target does not lie in it |
| StoragePaths.WritesSpareSourceData | desktop/storage-migration.js:62-78 | even an accepted target inside the source leaves the source's data and key directories alone |
| StoragePaths.DottedTargetAccepted | desktop/storage-migration.js:24-36 | a concrete target inside the source that passes every check |
| RuntimeTree.RowsDetermineOutlines | desktop/storage-migration.js:107-126 | equal manifests of two directory listings mean equal trees up to file contents |
| RuntimeTree.ManifestDecidesHolding | desktop/storage-migration.js:107-130 | the manifest comparison succeeds exactly if the second root holds, slot by slot and in order, entries of the same names and outlines as the first, but for transient names in `data`, which do not count |
| RuntimeTree.CopyPassesComparison | desktop/main.js:621-636 | what the production copier makes of a source passes the comparison |
| RuntimeTree.CopyKeepsAll | desktop/main.js:621-636 | the production copier keeps the slots, and in them every entry, the same node under the same name and in order, but for transient names in `data`; it brings nothing else |
| RuntimeTree.ManifestWalk.Walk | desktop/storage-migration.js:110-127 | the walk pushes exactly the rows of the tree below the prefix, ignoring transient names where told |
| RuntimeTree.BuildManifest | desktop/storage-migration.js:107-130 | the manifest has a row of the kind, path and size of every node that can be reached in `data` by a path whose first name is not ignored, or in `.ssh` by any, and no other rows; those of `data` come first |
| RuntimeTree.ManifestShowsTheRoot | desktop/storage-migration.js:107-130 | the rows of a manifest are exactly those of the nodes at the paths of the root that are not ignored |
| StorageSafety.RunKeepsInvariant | desktop/storage-migration.js:145-220 | every interleaving of steps, failures, crashes and restarts keeps the protocol's invariant |
| StorageSafety.SettingsNameACompleteRoot | desktop/main.js:747-779 | in every run the settings name the source or a root that holds every entry of the source, with its name and outline and in order, but for transient names in `data`, and no others, whatever the copier produced |
| StorageRecovery.ResumeCompletesIffUndamaged | desktop/storage-migration.js:145-203 | completion from a crash point ends promoted with equal manifests exactly if the marker does not vouch for a damaged target |
| StorageRecovery.RollbackCleans | desktop/storage-migration.js:212-219 | a rollback from any crash point leaves no data, keys, staging directory or marker in the target |
| StorageRecovery.RecoverySettles | desktop/main.js:759-779 | after any run and a crash, one undisturbed start settles the migration: completed or rolled back, with neither stage nor marker left |
| StorageRecovery.EveryCrashPointCompletes | desktop/storage-migration.js:145-203 | in runs in which no finished promotion is undone, every crash point can be completed |
| StorageRecovery.DamageIsPossible | desktop/main.js:747-770 | for every source with something to migrate, a run after which the marker vouches for a target that is no longer complete |
| StorageResume.CrashPointsCompleteIff | desktop/storage-migration.js:145-220 | every crash point of every run can be completed exactly if the program does not die inside an undo or there is nothing to migrate |
| StorageContents.SettingsNameTheSameContents | desktop/main.js:621-636 | with the production copier the root the settings name keeps every entry of the source, the same node under the same name and in order, but for transient names in `data`, in every run with a crash after any effect |
| StorageContents.RecoveryKeepsContents | desktop/main.js:759-779 | after any run and a crash one undisturbed start leaves all these entries of the source in use in the target, or nothing of the migration |
| StorageForeign.RunStaysAccounted | desktop/storage-migration.js:132-143 | with both slots staged, the marker claims exactly the slots this migration created |
| StorageForeign.UnstagedSlotIsLost | desktop/storage-migration.js:132-143 | without a staged copy, another program's slot is taken for a promoted one and removed |
| StorageForeign.InterruptedUndoLoses | desktop/storage-migration.js:132-143 | a death inside an undo loses a slot created before the next one |
| StorageForeign.ForeignSlotsSafeIff | desktop/storage-migration.js:184-198 | another program's slots are safe in every run exactly if the source has both slots and no undo is interrupted |
| StorageMigration.Migration.CheckTarget | desktop/storage-migration.js:62-87 | a target is accepted exactly if the transition is valid, the real target is accessible and not in the real source as far as the path test can tell, and neither slot nor a marker or stage of another migration is there |
| StorageMigration.Migration.CopyRuntimeDirectory | desktop/main.js:621-636 | the stage gets the slots of the source and in them every entry, the same node under the same name and in order, but for transient names in `data` |
| StorageMigration.Migration.RemoveOwned | desktop/storage-migration.js:132-143 | exactly the target slots the marker claims are removed |
| StorageMigration.Migration.Complete | desktop/storage-migration.js:145-203 | the directory after a completion is the one the protocol's steps reach, and it throws exactly where they do |
| StorageMigration.Migration.PromoteNext | desktop/storage-migration.js:184-198 | one slot is announced, moved and recorded as the protocol does it |
| StorageMigration.Migration.RollBack | desktop/storage-migration.js:212-219 | a rollback leaves what the protocol's undo leaves |
| StorageMigration.Migration.Recover | desktop/main.js:759-779 | a full recovery ends where the undisturbed protocol ends |
| WorkspaceInvariant.PrunedLeaves | public/app-docking.js:776-784 | pruning keeps exactly the non-empty panes, in order |
| WorkspaceInvariant.ReconcileRestores | public/app-docking.js:541-565 | from any layout and tab list reconciling restores the invariant and keeps exactly the open tabs |
| WorkspaceInvariant.ReconcileIdempotent | public/app-docking.js:541-565 | reconciling twice is reconciling once |
| WorkspaceNormalize.NormalizeRestores | public/app-docking.js:786-817 | from any layout and tab list normalizing leaves each open tab in exactly one pane and nothing else, every pane showing one of its tabs, and exactly the panes that held something; the result is well formed exactly if each of those, unless alone, holds an open key that no earlier one holds, or is the chosen one and an open key is in no pane |
| WorkspaceNormalize.StalePaneIsLeftEmpty | public/app-docking.js:786-817 | a layout whose second pane is left empty, whether its key is not open or the first pane holds it |
| WorkspaceTheorems.ActivateTabWellFormed | public/app-docking.js:929-941 | an activated tab is shown, active and in the focused pane; no tab moves |
| WorkspaceTheorems.FocusPaneWellFormed | public/app-docking.js:726-735 | focusing a pane keeps the layout and makes its tab the active one |
| WorkspaceTheorems.AddTabOpens | public/app-docking.js:826-860 | an opened tab is open, shown, focused and active, the others stay open, and the welcome tab never stays beside others |
| WorkspaceOpening.AddTabKeepsOthers | public/app-docking.js:826-860 | every other tab keeps its pane, its order and its record; the tab opens in the pane that holds it, else in the executing, the focused or the first one, right after the tab shown there; only the welcome tab and a pane holding nothing else go |
| WorkspaceMoves.CloseTabsKeepsSurvivors | public/app-docking.js:1120-1147 | exactly the requested unpinned tabs close; survivors stay in their pane and order, only emptied panes go, and a pane shows what it showed unless that was closed |
| WorkspacePlaces.CloseTabsShows | public/app-docking.js:1120-1147 | a pane whose shown tab is closed shows the one of its record that was shown last and stays, or the one in the place of the first closed tab, or the last; the focus stays, goes to the pane of the anchor or to the first pane |
| WorkspaceHistory.RememberedShows | public/app-workspace-groups.js:126-136 | once a tab is remembered, the record of its pane has it as the one shown last, before it the one shown until then, and says of all other tabs what it said; no other record changes |
| WorkspaceHistory.ClosingIsRecorded | public/app-docking.js:1132-1141 | after closing, the record of a pane has the tab the pane shows as the last, and says of the others what it said |
| WorkspaceHistory.ClosingGoesBack | public/app-docking.js:1120-1147 | closing an activated tab goes back to the one its pane showed before, whatever the record said, with the focus in that pane and nothing else changed |
| WorkspaceHistory.ClosingUndoesOpening | public/app-docking.js:826-860 | closing a tab that was just opened gives back all panes as they were, with the focus in the pane in which it opened |
| WorkspaceDrops.MoveTabMoves | public/app-docking.js:1196-1208 | a moved tab is as many places further as asked for, or first or last if that is out of its pane; the other tabs keep their order, and what is shown stays |
| WorkspaceDrops.NextNameIsFresh | public/app-docking.js:345-352 | the next pane id is not in use |
| WorkspaceDrops.NextNameIsFirst | public/app-docking.js:345-352 | every pane id between the last serial and the next one is in use |
| WorkspaceDrops.ReplacedLeaves | public/app-docking.js:769-774 | replacing a pane by a split puts the split's panes in its place and moves no other |
| WorkspaceDrops.DropLands | public/app-workspace-drag.js:234-288 | a dropped tab is in the destination pane, shown, focused and active; all other tabs keep their order, only an emptied pane goes, a new pane has an unused id, and a refused drop changes nothing |
| WorkspacePlaces.DropPlaces | public/app-workspace-drag.js:234-288 | a dropped tab leaves its place and is at the index asked for in the target pane, at the nearer end if that is out of range, last without one, or in a pane of its own on the side asked for; a pane that showed it shows the remembered tab, or the one to the left or in the place of the dragged one |
| WorkspaceRuns.StepKeepsWellFormed | public/app-docking.js:826-860 | no operation breaks the workspace, and none but opening brings a key into it |
| WorkspaceRuns.RepairedRunsStayWellFormed | public/app-docking.js:541-565 | from any layout that reconciling repairs, every sequence of operations stays well formed |
| WorkspaceObjects.Purge | public/app-docking.js:544-551 | the loop over the pane objects leaves each key in the first pane that held it and every pane showing one of its tabs |
| WorkspaceObjects.Dock.NextPaneId | public/app-docking.js:345-352 | the loop ends at the first unused serial |
| WorkspaceObjects.Dock.NormalizeAfterMutation | public/app-docking.js:786-817 | the objects are left as the normalizing function computes |
| WorkspaceObjects.Dock.ReconcileTabs | public/app-docking.js:541-565 | the objects are left as the reconciling function computes |
| WorkspaceObjects.Dock.AddTab | public/app-docking.js:826-860 | opening leaves the objects in the specified state, and a workspace that is in order stays in order with that key added |
| WorkspaceObjects.Dock.ActivateTab | public/app-docking.js:929-941 | activating leaves the objects in the specified state, and a workspace that is in order stays in order |
| WorkspaceObjects.Dock.FocusPane | public/app-docking.js:726-735 | focusing leaves the objects in the specified state, and a workspace that is in order stays in order |
| WorkspaceObjects.Dock.CloseTabs | public/app-docking.js:1120-1147 | closing leaves the objects in the specified state, and a workspace that is in order stays in order |
| WorkspaceObjects.Dock.ClosePane | public/app-docking.js:1132-1141 | one pane loses the closed tabs and shows its most recent survivor; its record of recent tabs is trimmed |
| WorkspaceObjects.Dock.MoveTab | public/app-docking.js:1196-1208 | moving leaves the objects in the specified state, and a workspace that is in order stays in order |
| WorkspaceObjects.Dock.TakeOut | public/app-workspace-drag.js:240-254 | the source pane loses the dragged tab and shows the remembered tab, the one to the left or the one in its place |
| WorkspaceObjects.Dock.DropTab | public/app-workspace-drag.js:234-288 | dropping leaves the objects in the specified state, with no pane object in two places, and a workspace that is in order stays in order |
| DragSessionSafety.StepKeepsSound | desktop/main.js:1325-1599 | every step but a throwing start keeps the session's invariant |
| DragSessionSafety.OneResultAndNothingAfter | desktop/main.js:1341-1427 | in every run whose start returned at most one result is sent, as the last message, when no write is pending and no delivery runs |
| DragSessionSafety.ReportIsHonest | desktop/main.js:1379-1416 | a failure spoils the result of an external drag, and a bad result has a message |
| DragSessionOutcome.FailureSpoilsTheDrag | desktop/main.js:1379-1392 | once a write has ended with an error that is not its cancellation, or a content error has come in, no result of the run reports success unless the drop was an internal one |
| DragSessionOutcome.FailingIffAStepFailed | desktop/main.js:1496-1506 | the session takes the drag for failed exactly if in some step a delivery or a slot failed without being cancelled, or a content error came in |
| DragSessionOutcome.DeliveredOnce | desktop/main.js:1467-1490 | for each item and target at most one delivery runs and none starts after one succeeded |
| DragSessionOutcome.EveryWriteIsAnswered | desktop/main.js:1442-1510 | no write request is answered twice, and each is answered when the result is out |
| DragSessionOutcome.MacDropIsReportedLate | desktop/main.js:1349-1367 | a macOS external drop is reported when all awaited items have ended and the grace timer, set after that, has run out with no write coming in; all top-level items have ended then unless a fallback gave up while a write was pending and fewer had ended |
| DragSessionTargets.ResultTellsLastTarget | desktop/main.js:1578-1630 | in every run the result tells an internal drop exactly if the target told last before it, by the renderer or by an `ended` event, was internal; if none was told, it does not |
| DragSessionAnswers.EndedDragsAreAnsweredIff | desktop/main.js:1341-1427 | a drag that has ended with no write pending is answered, awaits items of its macOS drop, or has a timer on that answers it, in all runs exactly if it is not cancelled, does not expire, and no macOS drop of items is told another, not final target after its end |
| DragSessionAnswers.ExpiredDropIsNotAnswered | desktop/main.js:1805-1819 | a drag that has expired and ended is answered by no write and no timer, not even the one that expiry sets |
| DragSessionGaps.ThrownStartAnswersTwice | desktop/main.js:1805-1842 | after a start that throws, expiry sends a second result |
| DragSessionGaps.OneResultIffStartHolds | desktop/main.js:1826-1842 | in all runs there is one result at most and nothing after it, exactly if the native start may not throw |
| DragSessionGaps.DropReportedWithNothingWritten | desktop/main.js:1805-1819 | for any number of items, a run in which a macOS drop is reported as done with nothing written, its one delivery having failed as cancelled after an accepted cancellation |
| DragSessionGaps.DropsAreWholeIff | desktop/main.js:1349-1367 | in the runs in which deliveries fail as cancelled only after an abort, all top-level items of every reported macOS drop have ended exactly if there are none or no fallback timer may go off |
| DragSessionPromises.StepTells | desktop/main.js:1325-1599 | no handler or timer takes a message back or adds one after a result; a new result is the last message, sent with no write pending and no delivery running, and no success after a failure unless internal |
| DragSessionPromises.ProceedWriteTells | desktop/main.js:1467-1490 | a write with its slot is answered exactly if its delivery has succeeded and none runs; otherwise it waits for the one delivery that does |
| DragSessionPromises.ReportTellsWhy | desktop/main.js:1382-1416 | the message of an external result: a cancelled job, else the first write error, the last content error, a cancellation, what the native side said, or a standard text |
| DragSessionObject.NativeDragSession.Release | desktop/main.js:1325-1339 | a session that is released is not found any more, its timers cannot go off, what is still written is aborted, and no message is sent |
| DragSessionObject.NativeDragSession.ComposeResult | desktop/main.js:1379-1416 | the result is a success exactly if the drop was internal, or the drag completed or ended with an operation, nothing failed and the job is not over otherwise; a bad result has a message |
| DragSessionObject.NativeDragSession.MaybeFinish | desktop/main.js:1341-1427 | the result goes out exactly if it is due: ended for good, nothing pending, a macOS drop complete with its grace period, Windows acknowledged; the invariant and the promises about messages are kept |
| DragSessionObject.NativeDragSession.BeginWrite | desktop/main.js:1442-1466 | the new request is listed or answered, no delivery runs twice, the grace period starts anew, and the invariant and the promises are kept |
| DragSessionObject.NativeDragSession.ProceedWrite | desktop/main.js:1466-1490 | the request is answered exactly if its delivery has succeeded and none runs, else it joins the one delivery; none runs twice or again after a success |
| DragSessionObject.NativeDragSession.EndWrite | desktop/main.js:1490-1510 | the request is answered once and leaves the list, and the drag fails exactly if it did or the write ended with an error that is not its cancellation |
| DragSessionObject.NativeDragSession.Handle | desktop/main.js:1512-1577 | a native event keeps the invariant and the promises about messages, makes the drag fail exactly if it is a content error of a live session, and a gesture is passed on |
| DragSessionObject.NativeDragSession.HandleEnd | desktop/main.js:1578-1598 | the drag has ended as reported last, except that `ended` does not replace `cancelled`; its target is the one an `ended` event brings, else as before; invariant and promises are kept |
| DragSessionObject.NativeDragSession.ChooseTarget | desktop/main.js:1618-1630 | whatever the native side reports meanwhile, invariant and promises are kept and the drag fails exactly if a content error comes in; after a final target Windows is acknowledged and no result is due any more |
| DragSessionObject.NativeDragSession.Cancel | desktop/main.js:1632-1652 | a cancellation is taken up exactly before the end, on macOS also after `ended`; it stays exactly if accepted, then with an abort and a fallback timer; invariant and promises are kept whatever is reported meanwhile |
| DragSessionObject.NativeDragSession.Expire | desktop/main.js:1805-1811 | expiry happens once, cancels the drag and sets the fallback timer; it keeps invariant and promises whatever is reported meanwhile |
| DragSessionObject.NativeDragSession.FallBack | desktop/main.js:1660-1673 | a fallback that gives up ends the drag as cancelled or timed out, takes the items that have ended for all that are awaited, and answers exactly if no write is pending and Windows is acknowledged; one that does not changes only timers |
| LinuxDragSafety.RunKeeps | desktop/native-sftp-drag.js:357-539 | every run obeys the monitor's rules |
| LinuxDragSafety.StepAdds | desktop/native-sftp-drag.js:357-713 | no call, line, timer or exit takes a log entry back or adds one out of order: completion earned and alone, one drag after a late activation, orderly signals, one exit |
| LinuxDragSafety.CompletedIsEarned | desktop/native-sftp-drag.js:418-499 | `completed` comes at most once and alone among terminal events, after release, uncancelled, with an internal target or all content and no read error |
| LinuxDragSafety.DragStartsOnce | desktop/native-sftp-drag.js:501-539 | the system drag starts at most once and after an activation that followed `ready` |
| LinuxDragSafety.SignalsAreOrderly | desktop/native-sftp-drag.js:396-415 | no timer signals a helper that has exited, and SIGKILL comes only after SIGTERM |
| LinuxDragSafety.ExitIsReported | desktop/native-sftp-drag.js:629-666 | when the helper has exited, a terminal event has been reported |
| LinuxDragCompletion.UndisturbedDragCompletes | desktop/native-sftp-drag.js:501-666 | a drag whose helper gets ready, that is activated after that, has its content read and settles after the activation is completed at the latest by a clean exit, by whatever inputs these come, unless there is a cancellation, a read error, a failing start, a timeout, a disposal or an early closing |
| LinuxDragCleanup.NoHelperIsLeftBehind | desktop/native-sftp-drag.js:396-482 | once a drag is over, cancelled, disposed of, unreadable or delivered, the timers that are on end in SIGKILL unless the helper has exited or reported that it has closed |
| LinuxDragCleanup.ClosedHelperIsTrusted | desktop/native-sftp-drag.js:418-421 | a helper that reports that it has closed is never signalled by a timer, even if it does not exit |
| LinuxDragObject.LinuxHelper.Fail | desktop/native-sftp-drag.js:357-372 | a drag that has not settled settles with `error` as its last entry, also right after the exit of the helper; the invariant and the order of the log are kept |
| LinuxDragObject.LinuxHelper.FinishAfterHelperClose | desktop/native-sftp-drag.js:418-435 | the end of the helper is reported as completed exactly if all content was read, without a read error and without a cancellation |
| LinuxDragObject.LinuxHelper.FinishInternalDrop | desktop/native-sftp-drag.js:490-500 | an internal drop completes exactly when it was released and is not over, with `completed` and a cancel command |
| LinuxDragObject.LinuxHelper.StartDrag | desktop/native-sftp-drag.js:501-539 | the system drag begins exactly if the helper is ready and the drag activated, and neither begun nor cancelled nor over; a start that does not throw is reported as started and moving and will settle, one that throws ends the drag with an error |
| LinuxDragObject.LinuxHelper.OnFinalizeTimer | desktop/native-sftp-drag.js:516-530 | a settled drag counts as released exactly if it was or is neither over nor cancelled, and an internal one completes; a cancelled one is over; the log entries are exactly those |
| LinuxDragObject.LinuxHelper.OnLine | desktop/native-sftp-drag.js:546-606 | what each line of the helper adds to the log; none breaks the invariant or the order of the log |
| LinuxDragObject.LinuxHelper.OnReady | desktop/native-sftp-drag.js:601-623 | the drag settles; it becomes ready exactly if it had not settled, is not cancelled and has files, and an early activation is void then |
| LinuxDragObject.LinuxHelper.OnClose | desktop/native-sftp-drag.js:629-666 | a drag that is not over ends as cancelled, as completed exactly if all is released and read without an error and the exit was clean or asked for, or as failed; no timer is left |
| LinuxDragObject.LinuxHelper.Activate | desktop/native-sftp-drag.js:669-675 | an activation is accepted exactly while the drag is registered, not cancelled and not over, starts it if the helper is ready, and keeps the log in order |
| LinuxDragObject.LinuxHelper.SetInternalTarget | desktop/native-sftp-drag.js:676-682 | a target update is accepted under the same condition, and completes a drag that was released already exactly if the target is internal |
| LinuxDragObject.LinuxHelper.Cancel | desktop/native-sftp-drag.js:683-713 | a cancellation is accepted exactly while the drag is registered; it is reported at once exactly if the drag has not started |
| PhraseTemplates.MatchIsShortestSplit | public/app-i18n.js:660-683 | the matcher returns exactly the split of the phrase with the lexicographically shortest captures |
| PhraseTemplates.MatchesIffSplit | public/app-i18n.js:724-727 | a template matches exactly if the phrase splits into its literals with non-empty captures free of line terminators |
| PhraseTemplates.SplitHolds | public/app-i18n.js:677-682 | a matched phrase holds every literal and has at least the minimum length |
| PhraseTokens.TokenAtIff | public/app-i18n.js:660-683 | a token is found exactly where one stands; a dash in front of the name is outside the name exactly if a name follows it |
| PhraseTokens.CompiledIff | public/app-i18n.js:660-683 | a text makes a template exactly if a token stands somewhere in it once trimmed and the literals between the tokens have at least two units; names, literals, sizes and anchor are those of the cut at the leftmost tokens |
| PhraseCompiler.CompiledFromText | public/app-i18n.js:660-683 | a compiled template has the tokens of its text in order, and literals and tokens in turn give the text back |
| PhraseCompiler.CompileTemplate | public/app-i18n.js:660-683 | the compiling loop computes the specified template, or none |
| PhraseCompiler.Measure | public/app-i18n.js:680-682 | the anchor is the first of the longest literals |
| PhraseIndex.RankingIsStable | public/app-i18n.js:643-646 | the templates are in rank, and those of equal rank keep their order |
| PhraseIndex.CandidatesSuffice | public/app-i18n.js:685-699 | looking at the candidates gives the same template and captures as scanning all templates by rank |
| PhraseIndex.CandidatesAre | public/app-i18n.js:685-699 | the candidates are, by rank, exactly the fallbacks and the templates whose anchor occurs in a phrase that is long enough |
| PhraseAnswers.PhraseStandsForTheFirst | public/app-i18n.js:629-637 | a phrase stands for the key of the first source that says it in either language, the empty phrase for none |
| PhraseAnswers.RankedByLength | public/app-i18n.js:643-646 | the ranked templates are all the compiled ones, the longer literal text first, then the longer expression |
| PhraseAnswers.SourceLengthMeasures | public/app-i18n.js:666-683 | templates compare as the written-out sources of their expressions do, with all escapes |
| PhraseAnswers.AnswerIsTheFirst | public/app-i18n.js:720-730 | a phrase is answered with the key of the first source that says it, else with the first template by rank that matches and its captures, else as a miss |
| PhraseCache.RecencyIsByLastUse | public/app-i18n.js:701-718 | the list of recent phrases holds each cacheable phrase of the history once, ordered by last use |
| PhraseCache.LookIsTransparent | public/app-i18n.js:720-730 | a lookup through the cache gives the uncached answer |
| PhraseCache.CacheIsRecentAndTransparent | public/app-i18n.js:701-730 | after any history the cache holds exactly the last 2048 distinct cacheable phrases since the rebuild, and every answer is the uncached one |
| PhraseTable.PhraseTable.Rebuild | public/app-i18n.js:623-658 | rebuilding ranks the compiled templates, files each under its anchor's first two units or as a fallback, and empties the cache |
| PhraseTable.PhraseTable.Candidates | public/app-i18n.js:685-699 | the bucket search finds exactly the templates whose anchor occurs in a long enough phrase, and the fallbacks, by rank |
| PhraseTable.PhraseTable.CachedLookup | public/app-i18n.js:701-708 | a cached phrase moves to the end of the cache |
| PhraseTable.PhraseTable.CacheLookup | public/app-i18n.js:710-718 | a new phrase goes to the end and the oldest go while there are too many |
| PhraseTable.PhraseTable.Find | public/app-i18n.js:720-730 | a lookup through cache, phrases and buckets gives the plain answer |
| ClipboardBridge.CachedImageIsCurrent | desktop/x11-clipboard-image-bridge.js:181-187 | in every run the cached image is a bounded PNG and the current one |
| ClipboardBridge.ClaimIsWarranted | desktop/x11-clipboard-image-bridge.js:181-199 | a claim is made only by a connected bridge that does not own the selection, with focus, for a valid image that is not suppressed |
| ClipboardBridge.ClaimedIff | desktop/x11-clipboard-image-bridge.js:181-272 | a claim is made exactly by a focused reading of a connected bridge that is not the owner, for an image that is new or not suppressed, or with nothing read for the cached one, not suppressed, within 30 seconds and 60 claims |
| ClipboardBridge.ReleasedIff | desktop/x11-clipboard-image-bridge.js:201-272 | the selection is released exactly by a connected owner that loses the focus, stops, or reads nothing while nothing settles |
| ClipboardBridge.ReadingIsCached | desktop/x11-clipboard-image-bridge.js:219-268 | a valid image that is read is cached; one that is not read any more stays for 30 seconds |
| ClipboardBridge.CountersCount | desktop/x11-clipboard-image-bridge.js:181-199 | in every run the counter of claims is the number of claims in the log since the current image came, and the time of the change is when it came |
| ClipboardBridge.OwnershipIsLogged | desktop/x11-clipboard-image-bridge.js:181-209 | in every run the bridge takes itself for the owner exactly if it has claimed the selection and neither released nor lost it since, and is cut off exactly if it was stopped |
| ClipboardBridge.StepClaimsRightly | desktop/x11-clipboard-image-bridge.js:181-374 | no event takes an act back or makes the bridge claim without warrant, and the cached image stays valid and current |
| ClipboardBridge.NeverClaimsAfterStop | desktop/x11-clipboard-image-bridge.js:362-374 | no claim follows a stop |
| ClipboardBridge.YieldsUntilTheClipboardChanges | desktop/x11-clipboard-image-bridge.js:325-340 | in every run from the start: after a loss more than 30 seconds after the current image came, or after 60 claims of it, the bridge claims nothing as long as every reading shows that image |
| ClipboardBridge.ReclaimsIffSettling | desktop/x11-clipboard-image-bridge.js:259-268 | after a loss a focused reading of the same image claims again exactly if the loss came within 30 seconds of the change and before 60 claims |
| ClipboardBridge.OwnReleaseIsTakenForALoss | desktop/x11-clipboard-image-bridge.js:201-209 | after a release for lack of focus the image is claimed again exactly if the loss announced some time later came within 30 seconds of the change and before 60 claims |
| ClipboardOwner.Owner.ClaimImage | desktop/x11-clipboard-image-bridge.js:181-199 | a valid image is claimed exactly if the bridge is connected and not the owner, the image is not suppressed and the server takes the claim; the cached image stays valid and current |
| ClipboardOwner.Owner.AfterRead | desktop/x11-clipboard-image-bridge.js:219-268 | whatever was read, the cached image stays valid and current and nothing is claimed without warrant |
| ClipboardOwner.Owner.OnSelectionClear | desktop/x11-clipboard-image-bridge.js:325-340 | the selection is lost, nothing is claimed, and unless the change is settling the image is yielded |
| ClipboardOwner.Owner.StopBridge | desktop/x11-clipboard-image-bridge.js:362-374 | the selection is released exactly if the bridge had it, once, and the bridge is stopped and cut off |
| BrowserTree.ResolvableIff | public/app-browser-files.js:23-27 | a path resolves exactly if no name in it is empty, a dot, two dots, or has a backslash or a NUL |
| BrowserTree.ListingShowsTheChildren | public/app-browser-files.js:46-67 | listing shows exactly the immediate children of a directory once each, of the right kind and size |
| BrowserCollect.CollectBringsEverything | public/app-browser-files.js:129-140 | collecting the top listing brings every file once under its path without the folder and every directory once, and fails exactly if they are more than 1000 |
| BrowserOutcome.CollectSucceedsIff | public/app-browser-files.js:129-140 | collecting the top listing succeeds exactly if all names of all files are proper and files and directories together are at most 1000 |
| BrowserOutcome.ImproperIsListedButLost | public/app-browser-files.js:23-67 | a file with an improper name is listed down to that name, cannot be opened, and makes collecting fail |
| BrowserDirectory.BrowserFileDirectory.FileAt | public/app-browser-files.js:34-45 | the first file with the joined path, or an error |
| BrowserDirectory.BrowserFileDirectory.ListEntries | public/app-browser-files.js:46-67 | the listing loop computes the specified entries |
| BrowserDirectory.Collector.Visit | public/app-browser-files.js:133-137 | visiting an entry adds what the specified walk adds, or fails where it fails |
| BrowserDirectory.CollectEntries | public/app-browser-files.js:129-140 | collecting computes the specified result |
| WindowCorrection.OneCorrectionSufficesIff | desktop/windows-x11-window-guard.js:19-62 | a corrected window needs no further correction exactly if the work area is wider than 96, or the window reached at most 96 into it from the left, or is at least as wide as the work area |
| WindowCorrection.CorrectedIsReachableIff | desktop/windows-x11-window-guard.js:38-60 | after a correction title and 96 units of width are visible exactly if window and work area are that wide and the title bar is high enough and fits |
| WindowCorrection.LostTitleMovesLittle | desktop/windows-x11-window-guard.js:42-51 | a window whose title is lost goes to the top, and sideways only as far as it must to be in the work area, or to its left edge if it is too wide and begins before it |
| WindowCorrection.LostWidthMovesToTheEdge | desktop/windows-x11-window-guard.js:52-60 | a window of which too little shows goes to the edge it came from, or to the left edge if it is too wide, and keeps its height where it can |
| WindowCorrection.PlanCorrection | desktop/windows-x11-window-guard.js:19-62 | the planner computes the specified position |
| HealthBatch.EveryInterleavingChecksAll | public/app-connection-health.js:174-211 | in every interleaving connections are requested once each and in order by four workers at most; what is requested is answered or in flight, the counters count the results, and at the end all are answered |
| HealthBatch.EveryInterleavingEnds | public/app-connection-health.js:174-211 | in every interleaving at most 2 * total + 4 steps have an effect; while a worker has not finished some step has, and after exactly that many all have finished |
| HealthBatch.AnswerLandsAtItsIndex | public/app-connection-health.js:175-197 | an answer lands at the index of its question and moves no other |
| HealthBatch.AnswersStay | public/app-connection-health.js:194-197 | an answer once recorded stays |
| HealthBatch.Checks.Take | public/app-connection-health.js:174-178 | a worker takes the next connection or finishes |
| HealthBatch.Checks.Receive | public/app-connection-health.js:194-197 | an answer is recorded and counted |

## Left out

- RuntimeTree.ManifestWalk.Walk: does not model the rows of symbolic links, because how the copier
  treats a link is up to the runtime; nor the text of a row (it keeps kind, path and size).
- RuntimeTree.BuildManifest: leaves out the rows of symbolic links, as the walk does.
- StorageSafety.SettingsNameACompleteRoot: says nothing of file contents, because it covers copiers
  that may produce anything; `SettingsNameTheSameContents` does, for the production copier.
- Storage: permissions, leftovers of an interrupted marker write, and removals that fail; a marker
  that cannot be read; the resolution of real paths, whose results are parameters.
- Storage: the source is a part of the disk that no step of the protocol touches; what that means
  for paths that overlap is in `WritesOutsideSourceIff` and `WritesSpareSourceData`.
- Storage: the older packaged-runtime migration, and the time at which a migration is requested.
- Workspace: the direction and ratio of a split; split nodes are values, so that their update in
  place and the ids `workspaceNextSplitId` makes are not captured. Pane objects are.
- Workspace: workspace groups (the record of recent tabs is kept per pane only), tab fields other
  than key, title and pin, toolbars, scrolling, the mobile layout, close dialogs and the sessions
  behind closed tabs.
- Drag session: activation, client points, renamed items, the ticket and its owner, the result of
  staged drags, and the quitting of the application.
- DragSessionGaps.ThrownStartAnswersTwice: is stated for a session that is idle when the start
  throws; `OneResultIffStartHolds` says for all runs when there is one result.
- Linux adapter: cursor points, debug events, how long each timer waits, the text of errors, and
  kills on an exited process by `fail`, which are no timer's.
- Phrases: flattening the resources, the fallback replacements, nested translation of captures,
  and applying translations to the page.
- Clipboard bridge: answering selection requests, the BMP copy, the clipboard revision (it only
  skips readings), and connecting to the display.
- Browser folder: writable directory handles, choosing a folder, names for received files, and
  the path of the parent in a listing.
- Window guard: non-finite numbers, and the guard process around the planner.
- Health checks: the pause between two requests, progress messages and drawing.
- The Windows and macOS drag adapters, remote clients, the bundled X server, credentials, and all
  pages of the user interface not named above.
