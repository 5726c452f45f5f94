# Verification of the MAP mail store

A Dafny model of the Message Access Profile (MAP) provider for Camel, and proofs about it.  The
provider shows the folders and messages of a phone as a mail account.  Four parts are modelled.

**The store summary** (`KeyFiles`, `Paths`, `FolderTree`, `SummaryIndex`, `SummaryChanges`,
`SummaryObjects`, `SummaryRuns`, `SummaryValues`, `StoreSummary`).  A key file holds a display name and a parent id
per folder.  Two hash tables cache the full names, one from id to name and one back, and share
their string objects; only the first one frees them.  `FolderTree.BuildFullName` is the simple definition of a
full name.  A string object is modelled as an address with a text, so that sharing, freeing and
the difference between `g_hash_table_insert` and `g_hash_table_replace` can be stated.  The class
`StoreSummary.CamelMapStoreSummary` has the fields and methods of the original; each method is
proved to take one step of the machine in `SummaryRuns`, whose runs are then shown to keep the
tables coherent with the recomputed names.  `SummaryObjects` covers the tables of folders that
share a full name.

**The threads** (`Protocol`, `ProtocolSafety`, `ProtocolExpunge`, `ProtocolProgress`,
`ProtocolStories`, `ProtocolHalts`).  Any number of threads fetch messages, refresh, expunge, mark, open folders, connect and browse the folder tree of one store.
A thread is at a program point, and each point has one shared action: acquiring or releasing a
lock, reading or writing a shared flag or table, waiting, broadcasting, or a device call that may
fail at will.  The device has one current directory; a failed selection may leave it anywhere.
The condition variable releases its mutex and sleeps in one step, may wake without a broadcast,
and serves all uids of a folder.  `ProtocolStories` tells from the sequence of a thread's actions what
it has done by the end of an operation, and `ProtocolHalts` what it no longer does after a failure.

**Messages** (`FlagSync`, `FolderRefresh`, `MapFolder`).  The merge of the server's flag word into
the local one, the write-back of the read mark, the reconciliation of a folder with a message
listing, and the expunge that may be refused by the device at any message.  The loops of
`MapFolder` are proved to compute the summaries and change records defined in `FolderRefresh`.

**The folder walk** (`Hierarchy`).  The recursion that asks the device for its folders, fills the
table of paths and links the records that are returned.

Where code and comments differ, the code is followed.  Saving clears the dirty mark even when the
file could not be written (`SaveIsPersistedIff`, `FailedSaveLosesChange`).  Loading a missing file
keeps the key file in memory (`LoadIsPersistedIff`).  Clearing drops the key file but leaves the
tables; they are usable again after a load or a rebuild.  A new message without any property is never entered
(`RefreshedListed`).  Expunging with an error already set gives up at the first message marked
deleted (`DeleteMessages`), and expunging never selects the folder's directory, as marking does
(`ExpungeFindsItsDirectoryIff`).  A path that the device lists twice is freed by the table and read
afterwards (`GetFolderInfo`).  The records of nested folders are built but nothing returned leads to
them, because no record is ever made the child of another.

## Model

| member | source | states |
|---|---|---|
| `KeyFiles.StoreGroupSpelling` | camel/camel-map-store-summary.c:704 | which group names are skipped as the store group, letter by letter |
| `KeyFiles.WithoutKeepsOrder` | camel/camel-map-store-summary.c:741-742 | a removed group leaves the others in their order |
| `KeyFiles.NumberOfDecimal` | camel/camel-map-store-summary.c:397-402 | a number written in the file is read back |
| `Paths.JoinInjective` | camel/camel-map-store-summary.c:76-99 | different lists of '/'-free components have different joined names |
| `Paths.SlashPrefixIsProperPrefix` | camel/camel-map-store-summary.c:294-303 | a name starts with another name and a slash exactly when its component list properly extends the other's |
| `FolderTree.FullNameIsJoinedPath` | camel/camel-map-store-summary.c:76-99 | the recursively built full name is the joined list of display names from the topmost named ancestor down; no name, no full name |
| `FolderTree.NamePrefixIsSubtree` | camel/camel-map-store-summary.c:294-303 | with distinct '/'-free names, the test against "name/" holds exactly for the proper descendants |
| `FolderTree.EditReplacesPrefixInside` | camel/camel-map-store-summary.c:357-432 | a rename or move exchanges the path of the folder inside every path of its subtree and keeps the rest |
| `FolderTree.EditKeepsNamesOutside` | camel/camel-map-store-summary.c:357-432 | a rename or move leaves every full name outside the subtree alone |
| `FolderTree.ShorterPathIsTaken` | camel/camel-map-store-summary.c:411-432 | no move can give a folder a proper prefix of its old path, since an ancestor bears it |
| `FolderTree.SubtreeNamesDoNotClash` | camel/camel-map-store-summary.c:307-355 | no new name in the subtree equals another member's old name, so no unpatched entry is overwritten |
| `FolderTree.NewNameIsNotBelowOldName` | camel/camel-map-store-summary.c:338-350 | the new name of the folder is not found by the scan for its own old subfolders |
| `FolderTree.ChangeIsAcyclic` | camel/camel-map-store-summary.c:357-432 | renaming, moving or adding a folder closes a cycle exactly when climbing from its new parent arrives at the folder |
| `FolderTree.MoveIsAcyclic` | camel/camel-map-store-summary.c:411-432 | a move closes a cycle exactly when the new parent lies in the moved subtree |
| `FolderTree.CyclicMove` | camel/camel-map-store-summary.c:411-432 | a concrete move into a subfolder, after which the full name is never built |
| `FolderTree.ChangedFullName` | camel/camel-map-store-summary.c:357-432 | the full name after such a change is told by the key file before it |
| `FolderTree.EditKeepsDistinct` | camel/camel-map-store-summary.c:357-432 | after a rename or move full names stay distinct exactly when no other folder bore the new full name before |
| `FolderTree.RenameIsAcyclic` | camel/camel-map-store-summary.c:357-372 | renaming closes no cycle |
| `SummaryIndex.SoundTablesAreInverse` | camel/camel-map-store-summary.c:17-21 | tables that share their objects entry by entry are inverse maps |
| `SummaryIndex.SoundHasNoDangling` | camel/camel-map-store-summary.c:17-21 | such tables reach no freed string |
| `SummaryIndex.CoherentRoundTrip` | camel/camel-map-store-summary.c:757-774 | the id of the full name of an id is that id |
| `SummaryIndex.CoherenceDeterminesTables` | camel/camel-map-store-summary.c:102-128 | two coherent pairs of tables for one key file have equal contents, however they were reached |
| `SummaryIndex.CoherentNamesAreDistinct` | camel/camel-map-store-summary.c:17-21 | coherence is impossible once two folders have the same full name |
| `SummaryIndex.LookupTellsFree` | camel/camel-map-store-summary.c:756-774 | one lookup of a name tells whether another folder bears it |
| `SummaryIndex.ReplaceOneIsSound` | camel/camel-map-store-summary.c:307-337 | replacing an entry keeps ownership, sharing and inverseness exactly when the new name was not entered for another id, and changes only that id's name |
| `SummaryIndex.ReplaceStepsHaveNoDangling` | camel/camel-map-store-summary.c:317-337 | in sound tables one entry can be replaced under any name: no freed string is reachable between the removal, the insertion and the replacement, nor after them |
| `SummaryIndex.PrefixScanFindsDescendants` | camel/camel-map-store-summary.c:338-348 | the scan, run after the folder's own entry was replaced, visits exactly the old names of its proper descendants |
| `SummaryIndex.CollectedAreDescendants` | camel/camel-map-store-summary.c:338-350 | in whatever order it walks the table, it collects each proper descendant once |
| `SummaryIndex.PatchAllKeepsMixed` | camel/camel-map-store-summary.c:349-350 | after patching some of the subtree in any order, the patched names are the new ones and all others still the old ones |
| `SummaryIndex.ReplaceSubtreeRestoresCoherence` | camel/camel-map-store-summary.c:307-355 | a rename or move of an indexed folder restores full coherence, whatever order the table is walked in |
| `SummaryIndex.RenameHasNoDangling` | camel/camel-map-store-summary.c:307-355 | through the whole rename, after each of the three updates of each patch, no freed string is reachable |
| `SummaryIndex.RenameCoherence` | camel/camel-map-store-summary.c:307-355 | a rename or move ends coherent if and only if the new full name was not entered for another folder |
| `SummaryChanges.RebuildFromAnything` | camel/camel-map-store-summary.c:101-128 | whatever the tables held, a rebuild leaves each folder with its full name, each name with the last folder in file order that bears it, and no freed string |
| `SummaryChanges.RebuildIsCoherentIffDistinct` | camel/camel-map-store-summary.c:101-128 | a rebuild ends coherent if and only if full names are distinct |
| `SummaryObjects.SoundIsTidy` | camel/camel-map-store-summary.c:17-21 | sound tables are tidy: every object is owned once, borrowed ones are alive, and names lead to folders cached under them |
| `SummaryObjects.RebuiltIsTidy` | camel/camel-map-store-summary.c:101-128 | a rebuild leaves tidy tables even when folders share a name |
| `SummaryObjects.StepsLiveIff` | camel/camel-map-store-summary.c:307-337 | in tidy tables replacing an entry leaves a freed string in reach exactly when the folder's name does not lead back to it and the entry of that name has the folder's own string as key |
| `SummaryObjects.SafeReplaceIsTidy` | camel/camel-map-store-summary.c:307-337 | otherwise the tables stay tidy, under whatever new name |
| `SummaryObjects.RemoveIsTidy` | camel/camel-map-store-summary.c:728-754 | removing a folder keeps tables tidy |
| `SummaryObjects.RunsHaveNoDanglingIff` | camel/camel-map-store-summary.c:307-432 | over any run of replacements and removals, with or without duplicate names, no freed string is ever in reach exactly when each replacement is safe where it happens |
| `SummaryObjects.LiveThroughoutIff` | camel/camel-map-store-summary.c:307-355 | the same for the patches of one rename or move |
| `SummaryObjects.RunsLoseNoString` | camel/camel-map-store-summary.c:307-432 | over any run of replacements and removals every string is freed or still owned: none is lost |
| `SummaryObjects.RebuildLosesNoString` | camel/camel-map-store-summary.c:101-128 | nor does a rebuild lose one |
| `SummaryObjects.LookupsStaySafeIff` | camel/camel-map-store-summary.c:319-326 | every cached name keeps its entry exactly when the operation does not take away a name that another folder is cached under |
| `SummaryObjects.RunsFindTheirIdsIff` | camel/camel-map-store-summary.c:319-326 | over any run every id that is compared is there exactly when no operation does so |
| `SummaryObjects.RebuiltIsEntered` | camel/camel-map-store-summary.c:101-128 | a rebuild enters every cached name |
| `SummaryObjects.RenamedTwinDangles` | camel/camel-map-store-summary.c:101-128 | two folders of one name: after a rebuild, renaming the first leaves a freed key in the tables |
| `SummaryObjects.RemovedTwinOrphans` | camel/camel-map-store-summary.c:319-326 | two folders of one name: after a rebuild and the removal of the last, the first is cached under a name that leads to no id |
| `SummaryObjects.ClashThenRenameDangles` | camel/camel-map-store-summary.c:307-337 | giving a folder another's name is harmless in itself, but the other's next rename leaves a freed key |
| `SummaryObjects.RenameAfterRebuild` | camel/camel-map-store-summary.c:101-128 | when a rebuild met a name twice, renaming one of its bearers leaves a freed string in the tables exactly when it is the first but not the last of them |
| `SummaryChanges.NewFolderCoherence` | camel/camel-map-store-summary.c:374-409 | entering a folder keeps coherence if and only if its full name was not entered for another and no folder has it as parent id, or its full name stays |
| `SummaryChanges.RemoveEntryIsSound` | camel/camel-map-store-summary.c:741-748 | taking the name entry out first leaves no freed string reachable at either step |
| `SummaryChanges.RemoveFolderCoherence` | camel/camel-map-store-summary.c:728-754 | removing a folder keeps coherence if and only if no folder has it as parent id |
| `SummaryChanges.ListFoldersIsSubtree` | camel/camel-map-store-summary.c:689-726 | listing below the non-empty full name of a folder gives its subtree in file order |
| `SummaryChanges.SubtreeOfMembers` | camel/camel-map-store-summary.c:689-726 | that listing has the folder and each descendant exactly once |
| `SummaryRuns.EditIsProper` | camel/camel-map-store-summary.c:357-432 | under conditions checked before the call the edited tree is acyclic and the folder gets the full name foretold |
| `SummaryRuns.EditInStepIff` | camel/camel-map-store-summary.c:357-432 | after a rename, move or new folder the summary is in step if and only if the foretold name was free and, where no subtree is patched, there was none to patch |
| `SummaryRuns.RemoveInStepIff` | camel/camel-map-store-summary.c:728-754 | after a removal it is in step if and only if the folder was not listed or is no parent id |
| `SummaryRuns.StepKeepsInvariant` | camel/camel-map-store-summary.c:183-432 | every operation keeps ownership, freedom from dangling strings and, while usable, coherence |
| `SummaryRuns.RunsStayCoherent` | camel/camel-map-store-summary.c:183-432 | at every point of every allowed run the cached names are the recomputed ones, the tables are inverse and no freed string is reachable |
| `SummaryRuns.LoadIsPersistedIff` | camel/camel-map-store-summary.c:183-213 | a load ends with the file equal to a clean key file if and only if the file was read, the version was replaced or the summary was dirty |
| `SummaryRuns.SaveIsPersistedIff` | camel/camel-map-store-summary.c:215-244 | a save does so if and only if nothing was to be written, the write succeeded or the file had these contents |
| `SummaryRuns.RunsPersistedIff` | camel/camel-map-store-summary.c:183-259 | from any state, a clean summary equals its file at the end of a run if and only if it did at the start or some operation mended it, and no failed write or missed load went unmended since |
| `SummaryRuns.DamagedFileIsMissed` | camel/camel-map-store-summary.c:183-213 | starting up on a damaged file of the current version leaves a clean summary that differs from its file |
| `SummaryRuns.FailedSaveLosesChange` | camel/camel-map-store-summary.c:215-244 | a run of two operations in which a failed write leaves a clean summary that is not in the file |
| `SummaryRuns.SaveThenLoad` | camel/camel-map-store-summary.c:183-244 | saving and loading give back the key file and the contents of both tables while the version is current |
| `SummaryRuns.VersionStaysCurrentIff` | camel/camel-map-store-summary.c:194-206 | a current version stays current in a step exactly unless the step clears, removes the store group or writes another version |
| `SummaryRuns.RunsStayCurrent` | camel/camel-map-store-summary.c:194-206 | the version is current at the end of every run without such a step after its last load |
| `SummaryValues.UpgradeDropsFolders` | camel/camel-map-store-summary.c:198-206 | a load of another version leaves nothing but the new version: no folder, empty tables, nothing to list |
| `SummaryValues.LoadKeepsCurrentFile` | camel/camel-map-store-summary.c:190-206 | a load of the current version keeps what was read, or what was there if the file is missing |
| `SummaryValues.EditSetsValues` | camel/camel-map-store-summary.c:357-432 | which value each edit of a folder sets; every other value stays |
| `SummaryValues.NewFolderNumbers` | camel/camel-map-store-summary.c:397-402 | the flags and the total of a new folder are read back as given |
| `SummaryValues.EditKeepsOrder` | camel/camel-map-store-summary.c:357-432 | an edited folder keeps its place in the file and a new one comes last |
| `SummaryValues.RemovedIsUnlisted` | camel/camel-map-store-summary.c:728-754 | after a removal the list of all folders is the old one without that folder, in the same order |
| `StoreSummary.CamelMapStoreSummary.GetFolderFullName` | camel/camel-map-store-summary.c:544-561 | the cached name, which is the recomputed one while the summary is in step |
| `StoreSummary.CamelMapStoreSummary.GetFolderIdFromName` | camel/camel-map-store-summary.c:756-774 | the one folder that bears the full name, if any |
| `StoreSummary.CamelMapStoreSummary.GetFolders` | camel/camel-map-store-summary.c:689-726 | below a folder's name, exactly its subtree in file order |
| `StoreSummary.CamelMapStoreSummary.LoadIdFnameHash` | camel/camel-map-store-summary.c:101-128 | the loop leaves the rebuilt tables, owned apart and without freed strings |
| `StoreSummary.CamelMapStoreSummary.ReplaceEntry` | camel/camel-map-store-summary.c:307-337 | the three table updates of one entry; in tidy tables no freed string is reachable after any of them exactly when the replacement is safe |
| `StoreSummary.CamelMapStoreSummary.MatchSubfolders` | camel/camel-map-store-summary.c:294-303 | collects the id of every name with the prefix, each name visited once in any order |
| `StoreSummary.CamelMapStoreSummary.MapSsHashReplace` | camel/camel-map-store-summary.c:305-355 | with recursion the whole subtree is replaced in some order, whether or not the tables agree with the key file; from tidy tables no freed string is reachable at any step exactly when each replacement is safe |
| `StoreSummary.CamelMapStoreSummary.PatchSubfolders` | camel/camel-map-store-summary.c:349-350 | the loop patches every matched folder and never looks up a missing entry; from tidy tables a patch leaves no freed string reachable exactly when it is safe |
| `StoreSummary.CamelMapStoreSummary.Load` | camel/camel-map-store-summary.c:183-213 | takes the load step on both version branches: another version leaves no folder, the current one keeps what was read; fails exactly when the file was not read |
| `StoreSummary.CamelMapStoreSummary.Save` | camel/camel-map-store-summary.c:215-244 | takes the save step; fails exactly when it was dirty and the write failed |
| `StoreSummary.CamelMapStoreSummary.Clear` | camel/camel-map-store-summary.c:246-259 | empties the key file and marks it dirty, nothing else |
| `StoreSummary.CamelMapStoreSummary.Remove` | camel/camel-map-store-summary.c:261-276 | clears the key file and unlinks the file, which is gone exactly if that succeeded |
| `StoreSummary.CamelMapStoreSummary.MonitorDelete` | camel/camel-map-store-summary.c:131-148 | the deletion of the file from outside takes the same step as a successful removal |
| `StoreSummary.CamelMapStoreSummary.RebuildHashes` | camel/camel-map-store-summary.c:278-286 | takes the rebuild step |
| `StoreSummary.CamelMapStoreSummary.SetFolderName` | camel/camel-map-store-summary.c:357-372 | takes the rename step, indexed or not; from a state in step it ends in step exactly under the condition foretold, without freed strings on the way if the name was free |
| `StoreSummary.InStepCanCall` | camel/camel-map-store-summary.c:357-432 | in step with the key file there is nothing more to check before a rename, move or new folder |
| `StoreSummary.CamelMapStoreSummary.SetParentFolderId` | camel/camel-map-store-summary.c:411-432 | takes the move step unless it would close a cycle; from a state in step it ends in step exactly when the new full name was free |
| `StoreSummary.CamelMapStoreSummary.NewFolder` | camel/camel-map-store-summary.c:374-409 | takes the step that enters a folder; from a state in step it ends in step exactly under the condition foretold, and never with a freed string in reach |
| `StoreSummary.CamelMapStoreSummary.RemoveFolder` | camel/camel-map-store-summary.c:728-754 | takes the step that removes a folder from tables in any state; its group is gone and the list of folders is the old one without it; from a state in step it ends in step exactly when the folder was no parent id |
| `StoreSummary.CamelMapStoreSummary.SetValue` | camel/camel-map-store-summary.c:434-524 | the other setters change no name and keep the summary in step |
| `ProtocolSafety.FollowsKeepsHolds` | camel/camel-map-folder.c:384-463 | along every path of every operation, failure exits included, the held locks change by exactly what is acquired and released |
| `ProtocolSafety.LocksExclude` | camel/camel-map-store.c:757-800 | in every reachable state a lock, re-entrant or not, is held by at most one thread |
| `ProtocolSafety.FlagsNameOneThread` | camel/camel-map-folder.c:393-463 | a uid is in the in-flight table exactly while one thread is between inserting and removing it, and a folder is flagged as refreshing exactly while one thread refreshes it |
| `ProtocolSafety.StepKeepsSingleRefresh` | camel/camel-map-folder.c:762-816 | the refreshing flag is set and reset by one thread at a time on every exit |
| `ProtocolSafety.StepKeepsWakeups` | camel/camel-map-folder.c:393-463 | no step makes a sleeper miss its wakeup, although the broadcast comes after the mutex is released |
| `ProtocolSafety.NoWakeupIsLost` | camel/camel-map-folder.c:393-463 | in every reachable state a thread asleep for a uid has a live owner of that uid or is owed a broadcast |
| `ProtocolSafety.RequestsFindTheirDirectory` | camel/camel-map-store.c:263-280 | whenever a listing, a message request or the mark of a marking operation is sent, the device is in the directory its sender last selected, and the recorded current folder names it |
| `ProtocolExpunge.ExpungeFindsItsDirectoryIff` | camel/camel-map-folder.c:168-188 | an expunge selects no directory: its deletions find the folder's directory exactly when the device was there when it took the lock |
| `ProtocolExpunge.SettledExpungeIff` | camel/camel-map-folder.c:168-188 | when the last selection before that succeeded, this is so exactly when it selected the folder's directory |
| `ProtocolExpunge.ExpungeMayMissItsDirectory` | camel/camel-map-folder.c:168-188 | a run of one thread that opens a folder, refreshes it and expunges it, and sends the deletion while the device is in the root directory |
| `ProtocolSafety.StepKeepsDevice` | camel/camel-map-store.c:347-376 | other threads' selections, also those that do not record the current folder, never move the device under a request |
| `ProtocolSafety.AtMostOnePrune` | camel/camel-map-folder.c:818-821 | over any run, on all folders together, at most one removal pass takes place |
| `ProtocolSafety.NextKeepsInv` | camel/camel-map-folder.c:360-483 | every step of every thread keeps all of these invariants |
| `ProtocolProgress.LocksAreTakenInRankOrder` | camel/camel-map-store.c:483-498 | a lock is acquired only above all locks held: folder info, current folder, cache, state |
| `ProtocolProgress.StateLockIsHeldAlone` | camel/camel-map-folder.c:384-463 | a thread that holds a state lock holds no other lock and acquires none |
| `ProtocolProgress.Unblocked` | camel/camel-map-store.c:483-498 | following a blocked thread from lock to holder ends at a thread that can act |
| `ProtocolProgress.NoDeadlock` | camel/camel-map-folder.c:384-463 | in every reachable state with an unfinished operation some thread can do its next action |
| `ProtocolStories.OperationsDoTheirWork` | camel/camel-map-folder.c:384-463 | whenever a thread has ended an operation, it has done what that is for, in order, unless a call it depends on failed: a fetch has sent Get and read the cache, or waited and read the cache; a refresh has listed the messages |
| `ProtocolStories.StoriesAreTold` | camel/camel-map-folder.c:384-463 | at every point of every run the thread's actions so far are those of its operation |
| `ProtocolStories.FetchPlanned` | camel/camel-map-folder.c:412-463 | between the insertion and the removal of its uid a fetch makes the directory, selects the folder, sends Get, parses and reads the cache, or a call failed |
| `ProtocolStories.FetchWaits` | camel/camel-map-folder.c:393-403 | a thread that found the uid in flight ends only after it was not, and after reading the cache |
| `ProtocolStories.RefreshStep` | camel/camel-map-folder.c:762-1071 | a refresh lists the messages unless a call failed, sends each mark unless the selection failed, and makes the removal pass if it found the initial fetch granted |
| `ProtocolStories.MarkStep` | camel/camel-map-folder.c:1247-1286 | a mark is sent unless the selection failed |
| `ProtocolStories.ExpungeStep` | camel/camel-map-folder.c:168-212 | an expunge asks for the deletion of each message it finds marked, until none is left or one is refused |
| `ProtocolStories.BrowseStep` | camel/camel-map-store.c:469-501 | listing the folder tree asks for the root's folders unless the store is offline or the root cannot be listed |
| `ProtocolStories.RunHasHistory` | camel/camel-map-folder.c:384-463 | the actions and outcomes can be told of every run |
| `ProtocolStories.DirsDiffer` | camel/camel-map-store.c:358 | different folders have different directories below the root |
| `ProtocolHalts.FailuresHalt` | camel/camel-map-folder.c:422-455 | no thread goes on with what depends on a call that failed |
| `FlagSync.ExchangeOfBit` | camel/camel-map-summary.c:258 | masked bits take the given value, the others stay |
| `FlagSync.MapInfoSetFlags` | camel/camel-map-summary.c:246-259 | exchanges the masked bits and tries to send the read mark exactly when it is asked to change |
| `FlagSync.MapMessageInfo.UpdateFlags` | camel/camel-map-summary.c:317-344 | merges the server's word; a read mark is tried exactly when the server changed it to something the message does not have, and repeats what the server just reported |
| `FlagSync.MapMessageInfo.UpdateUserFlags` | camel/camel-map-summary.c:297-315 | takes the server's user flags but keeps the calendar mark |
| `FlagSync.UserFlagsFollowServer` | camel/camel-map-summary.c:297-315 | all user flags but the calendar mark become the server's, and that one is never lost |
| `FlagSync.WriteBackEchoesServer` | camel/camel-map-summary.c:317-344 | the merge sends a read mark exactly when the server changed it to something the message does not have |
| `FlagSync.MergeOfBit` | camel/camel-map-summary.c:325-333 | bits in which the server's word changed take the server's value, the others keep the local one |
| `FlagSync.RunsMoveBitByBit` | camel/camel-map-summary.c:317-344 | over any run of reports and local edits each bit follows the last thing that happened to it |
| `FlagSync.UneditedBitFollowsServer` | camel/camel-map-summary.c:317-344 | without edits a bit ends at the server's last value if the server ever changed it, else at its original local value |
| `FlagSync.RepeatedUserFlags` | camel/camel-map-summary.c:297-315 | repeated user flags change nothing, but are announced as a change exactly when the kept calendar mark is not listed |
| `FolderRefresh.RefreshedListed` | camel/camel-map-folder.c:839-1031 | a listed message is kept exactly when it was known or has a property; its marks are the listed ones, its other flags untouched |
| `FolderRefresh.RefreshedUids` | camel/camel-map-folder.c:827-1046 | the uids become the listed ones on the initial fetch, and old and listed ones together otherwise |
| `FolderRefresh.RefreshedKeepsUnlisted` | camel/camel-map-folder.c:1035-1046 | without the removal pass no message is lost and an unlisted one keeps its flags |
| `FolderRefresh.RefreshRecords` | camel/camel-map-folder.c:916-1042 | a refresh records as added the new messages listed with a property, as removed the unlisted ones of an initial fetch, and as changed those listed with another mark, and no others |
| `FolderRefresh.EchoesRepeatTheListing` | camel/camel-map-folder.c:902-944 | every read mark sent is the listed value of a message whose mark differed |
| `FolderRefresh.EchoedInOrder` | camel/camel-map-folder.c:902-944 | a refresh tries one mark for each listed message that was known with another read mark or is new and read, in the order of the listing |
| `FolderRefresh.RefreshIsIdempotent` | camel/camel-map-folder.c:827-1061 | a second refresh from the same listing changes nothing, records nothing and sends nothing |
| `FolderRefresh.RunOfRefreshesUids` | camel/camel-map-folder.c:818-1046 | over any run of refreshes messages are lost only to the first one of an initial fetch |
| `FolderRefresh.RunOfRefreshesMarks` | camel/camel-map-folder.c:864-914 | after any run a message has the marks of the last listing that named it |
| `FolderRefresh.AddressRoundTrip` | camel/camel-map-folder.c:839-846 | the uid cut from a message's object path builds that very path again, and no other uid does |
| `FolderRefresh.RemovalPassKeepsListed` | camel/camel-map-folder.c:1035-1046 | the removal pass after the merge leaves the summary and the change record of an initial fetch |
| `FolderRefresh.ExpungeSplitsUids` | camel/camel-map-folder.c:161-221 | wherever the expunge stops, the old uids split into the remaining and the removed ones, and a complete one leaves no message marked deleted |
| `MapFolder.CamelMapFolder.RefreshInfo` | camel/camel-map-folder.c:735-1075 | the failure exits change nothing; else the summary is the refreshed one, the change record is exactly the difference, and the device was told exactly the read marks that differed |
| `MapFolder.CamelMapFolder.MergeListing` | camel/camel-map-folder.c:827-1033 | the loop over the listing computes the refreshed summary, its change record and the read marks sent |
| `MapFolder.CamelMapFolder.UpdateListed` | camel/camel-map-folder.c:847-920 | a known message takes the listed marks and is recorded only if that changed it |
| `MapFolder.CamelMapFolder.AddListed` | camel/camel-map-folder.c:921-1029 | a new message is entered with its first property and ends with the listed marks |
| `MapFolder.CamelMapFolder.RemoveUnlisted` | camel/camel-map-folder.c:1035-1046 | removes and records exactly the unlisted messages |
| `MapFolder.AgreeingDeviceIsUnchanged` | camel/camel-map-folder.c:902-944 | a device that is in the state it listed is left in that state |
| `MapFolder.CamelMapFolder.DeleteMessages` | camel/camel-map-folder.c:146-221 | for every refusal point: the removed messages are those marked deleted before it, each asked for and acknowledged, gone from summary and cache, and recorded; success leaves none of the array; a message without info is met exactly where a uid of the array is no longer in the summary |
| `Hierarchy.InboxSpelling` | camel/camel-map-store.c:449 | which full names are the inbox, letter by letter |
| `Hierarchy.KeptNamesInOrder` | camel/camel-map-store.c:418-446 | each kept entry comes after just as many records as there are kept entries before it |
| `Hierarchy.WalkFindsReachable` | camel/camel-map-store.c:378-467 | the walk finds exactly the paths reachable through answering folders and kept names |
| `Hierarchy.WalkIsDistinct` | camel/camel-map-store.c:378-467 | with distinct '/'-free sibling names no path is entered twice |
| `Hierarchy.EnteredIsLive` | camel/camel-map-store.c:428-429 | a path just entered can still be read exactly when the table did not have it |
| `Hierarchy.CreateFolderHierarchy` | camel/camel-map-store.c:378-467 | the recursion fills the table with the walked paths, chains each level and names each record after its parent; it reads no freed path exactly when no path is entered twice |
| `Hierarchy.RepeatedName` | camel/camel-map-store.c:428-457 | a folder that is listed twice is such a case |
| `Hierarchy.GetFolderInfo` | camel/camel-map-store.c:469-501 | no freed path is read exactly when the walk meets no path twice; then the table is the set of reachable paths, the result heads the list of the kept top folders in listed order, and just the top folder spelled inbox is marked as the inbox |

## Left out

- D-Bus and BlueZ: proxies, signals, timeouts and reply formats; calls are outcomes that are parameters or freely chosen.
- The configuration dialogs, Bluetooth discovery, settings, provider registration and object boilerplate: only easy members.
- Building and slicing of MIME and bMessage text, timestamps, content types, subjects, senders and the recipient strings of a listing; a cached message is an opaque value.
- The cache's file names: SHA-256 file names are taken to be injective, and the renaming of files under older names is not modelled.
- Camel's own summary, search and change-record internals: the summary is a map from uid to flags, adding a present uid again changes nothing, and the list of recent uids is not kept.
- Flag words are sets of bits; and, or and and-not are intersection, union and difference.
- The key file's text format and its checks of group names; a version is current only in its usual decimal spelling.
- The summary's own lock: its operations are taken to be atomic, except that reading the group names releases it before the tables are read.
- Cyclic parent ids, on which the original does not return: the operations that build names require acyclic parents.
- `StoreSummary.CamelMapStoreSummary.SetFolderName`: an id that is compared must be there, and a folder found below must have a display name, because the original reads them unseen; whether it ends in step is told for states in step and names without a slash.
- `StoreSummary.CamelMapStoreSummary.SetParentFolderId`: the same; for an id without a display name the original has no full name to enter.
- `StoreSummary.CamelMapStoreSummary.NewFolder`: the same as for `SetFolderName`, without the folders below.
- `StoreSummary.CamelMapStoreSummary.MonitorDelete`: the time between the deletion of the file and the callback.
- A freed string is taken to keep its text; the theorems say when none is in reach.
- `StoreSummary.CamelMapStoreSummary.MatchSubfolders`: the copies of the matched ids are allocated when they are patched, not when they are collected.
- `StoreSummary.CamelMapStoreSummary.SetValue`: one method for the six setters that differ only in the key.
- `MapFolder.CamelMapFolder.DeleteMessages`: which other thread removed a message between the reading of the array and the lock is not modelled, only that some may be gone.
- `MapFolder.CamelMapFolder.RefreshInfo`: the listing has distinct uids and no property of a message with two values, as the reply's dictionary type ensures; its locks and its refreshing flag are in `Protocol`.
- `Protocol` abstracts from the contents of messages and summaries; the loops it only counts as steps are those of `MapFolder` and `Hierarchy`.
- `ProtocolStories.BrowseStep`: which of the listed folders are visited below the root is the subject of `Hierarchy`.
- `ProtocolProgress.NoDeadlock`: states that some thread can act, not that every thread eventually does; the scheduler is arbitrary.
- Lookup of a folder by its type, clearing a folder's summary, copying of flags and tags to a new message and the database columns: easy members.
