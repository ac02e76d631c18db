# Verified model of oci-utils

This project models the stateful parts of oci-utils in Dafny and proves what they
guarantee: the `ocid` daemon and its block-volume worker, the locked cache files,
the metadata tree operations, the reconciliation of VNICs, the routing-table file,
the choice of virtual functions for guests and the session report parser.
`dafny verify dfyconfig.toml` checks all of it.

Each component has a specification made of functions, and the code that changes
state (`IscsiWorker`, `OcidThread`, `CacheFile`, `VnicUtils`, `RouteTableFile`, the
path and filter loops) is written as methods proved equal to it. The theorems are
about the specification. Everything read from outside (sessions, volumes, command
results, write failures, the order in which processes and threads run) is an
arbitrary input.

| file | component |
|---|---|
| Wrappers.dfy, Text.dfy | Option; ASCII letters, decimal numbers, words, lines |
| StoredFiles.dfy, Runs.dfy | what a write can do to a cache file; runs of a step function |
| IscsiPass.dfy | one call of `iscsi_func`: specification and class |
| IscsiRuns.dfy, IgnoreCleanup.dfy, IgnoreRuns.dfy | runs of passes: offline counters, attach failures, the ignore list |
| WorkerThreads.dfy | `OcidThread` and `daemon_main` as interleaved steps |
| CacheFile.dfy | `write_cache` and `load_cache` as interleaved processes |
| Json.dfy, MetadataPaths.dfy | JSON trees, get and set by path |
| PathExpansion.dfy, PathFilter.dfy | wildcard expansion, filtering by paths |
| MetadataFilter.dfy, NameConversion.dfy | filtering by keys, the two renaming passes |
| Interfaces.dfy, VnicLists.dfy | interface correlation, the exclude and deconfig lists |
| RouteTables.dfy | adding and deleting routing table names |
| GuestFunctions.dfy, SessionReport.dfy | virtual functions for guests, the iscsiadm session parser |

## What the code does against its own description

These follow the code where it and its comments or purpose disagree. Each is a lemma.

- The daemon's ignore list exists so that manually detached volumes stay detached. The
  clean-up removes a volume because it is still connected to the instance, so such a
  volume is attached again by the next pass - unless the entry before it was removed just
  then, in which case the loop skips it. `IgnoredVolumeIsReattached` says exactly when: an
  even number of connected entries stands directly before it, and the list could be saved.
- If the ignore list gets shorter and cannot be written, its timestamp becomes None, and
  every later pass raises when it compares a number with it: the worker never attaches or
  detaches again (`WedgeCause`, in terms of the input; `WedgedForever`). The password cache
  is not part of the model: a failed write of it sets `chap_pw_ts` to None and wedges the
  worker in the same way at line 299 of ocid_main.py, so `PassCompletes` and `WedgeCause`
  say "exactly" of passes whose password writes succeed.
- `iqn not in inst_volumes` compares a string with dictionaries, so which volumes are
  detached does not depend on what the instance lists (`ListingSparesNothing`), and from
  the start of the daemon there is a run that detaches a volume the instance lists all
  along (`ListedVolumeIsDetached`).
- A failed attach in a pass that raises afterwards is forgotten, and tried again by the
  next pass, exactly when no later volume of the same pass caused a write
  (`RetriedAfterRaise`).
- A cache write that fails part-way is neither truncated nor rolled back, and the rest
  of its buffer is flushed after the unlock; the next reader is handed the new bytes over
  the old content (`BrokenWriteLeaves`, `BrokenWriteIsVisible`, and `MixtureIsWhole` for
  when that happens to be whole). From every initial file there is a run in which a reader
  returns such a mixture (`MixtureIsRead`). Without such a failure readers see whole
  writes only, and the next write that is completed with no late flush pending mends the
  file (`CompletedWriteMends`).
- `request_stop` is lost on a thread that has not yet set `active` (`WhenAStopHolds`,
  `HastyMainLosesAStop`); `daemon_main` avoids it by waiting for the first iteration.
- Where list elements are shaped alike, a filter reads back from the tree built for it
  exactly when it ends in a name, a wildcard or index 0 and none of its concrete paths has
  two indices in a row (`OneFilterReadsBack`).
- Exclude and deconfig lists that cannot be loaded are taken to be empty. The daemon then
  configures what the list on disk says to leave alone (`FailedLoadReconfigures`), and the
  next command that saves a change leaves nothing else on disk (`FailedLoadForgets`).
- `_find_vlan` tests the device name a domain's interface has, not its presence, and
  interfaces on a libvirt network or bridge have an empty one. So a VNIC that a guest
  already has is refused exactly when a domain has it with a device name
  (`HeldIsRefused`); otherwise it is given away once more, with a function
  of another MAC (`GivenAwayTwice`).
- Nothing sets `is_vf` in an interface dictionary, and an absent key reads as '-', so
  no interface is ever reported as DELETE (`DeletedExactly`, `NothingIsDeleted`).
- `delete_route_table` does not skip comment lines (`DeleteUndoesAdd`), `add_route_table`
  spoils a file without a final newline (`NewEntryIsALine`), and when 10 to 254 are taken
  it writes -1, which a table can hold only once (`AddKeepsTable`).
- Fields under an unreadable `Target:` line are credited to the next device, which shows
  exactly when that device lacks one of their keys (`DeviceIsOwn`, `SectionsStayApart`).

## Model

| member | source | states |
|---|---|---|
| IscsiPass.IscsiWorker.Run | lib/oci_utils/impl/ocid_main.py:242-570 | one call of iscsi_func leaves the context (changed in place when it raises) and the files exactly as the specification of a pass says; which ignore list that obeys, what it attaches, records and writes is the subject of the rows from IscsiRuns and IgnoreRuns |
| IscsiPass.IscsiWorker.AttachVolumes | lib/oci_utils/impl/ocid_main.py:426-468 | the early write and the attach loop |
| IscsiPass.IscsiWorker.DetachLost | lib/oci_utils/impl/ocid_main.py:481-531 | the detach loop, with the KeyError on a missing portal |
| IscsiPass.IscsiWorker.CleanIgnore | lib/oci_utils/impl/ocid_main.py:540-547 | the loop that removes from the list it iterates over, index by index |
| IscsiPass.IscsiWorker.WriteBack | lib/oci_utils/impl/ocid_main.py:549-568 | which files are rewritten after the clean-up, and the timestamp kept |
| IscsiRuns.ListingSparesNothing | lib/oci_utils/impl/ocid_main.py:495-495 | which volumes a pass detaches does not depend on the volumes the instance lists |
| IscsiRuns.ListedVolumeIsDetached | lib/oci_utils/impl/ocid_main.py:495-517 | for every volume but a boot device and every detach_retry there is a run from the start of the daemon in which the instance lists the volume in every pass and the last one detaches it |
| IscsiRuns.PassCompletes | lib/oci_utils/impl/ocid_main.py:400-515 | a pass completes exactly when the ignore timestamp is a number and every device due for detaching has a portal; the password timestamp compared at line 299 is not modelled |
| IscsiRuns.PassCounts | lib/oci_utils/impl/ocid_main.py:484-538 | one pass moves the offline count of each volume one step, or detaches it |
| IscsiRuns.PassDetaches | lib/oci_utils/impl/ocid_main.py:477-531 | complete or not, a pass detaches exactly the volumes that are due and come before the first due one without a portal; one that raises changes no other counter |
| IscsiRuns.OfflineCounters | lib/oci_utils/impl/ocid_main.py:477-538 | after any run, with passes that raise or not, the counter of a volume is its number of offline passes since it was last detached or found online, capped at detach_retry + 1 |
| IscsiRuns.DetachTiming | lib/oci_utils/impl/ocid_main.py:504-517 | in any run a volume, offline in state blocked or transport-offline and not the boot device, is detached exactly at offline pass max(detach_retry, 1) + 1 and only with auto_detach; in a pass that raises, if it comes before the device that does |
| IscsiRuns.StreakIsConsecutive | lib/oci_utils/impl/ocid_main.py:497-507 | the passes a counter stands for are all complete passes since the volume was last detached or online, each found it offline |
| IscsiRuns.BootNeverDetached | lib/oci_utils/impl/ocid_main.py:486-488 | no pass, complete or not, detaches a device whose name ends in boot:uefi |
| IscsiRuns.AttachedExactly | lib/oci_utils/impl/ocid_main.py:432-441 | a pass attaches exactly the volumes that are connected, not on the list in use, not in the session and not recorded as failed |
| IscsiRuns.FailuresOutsideSession | lib/oci_utils/impl/ocid_main.py:470-475 | at the end of a pass no recorded failure is in its session |
| IscsiRuns.DetachLeavesFailures | lib/oci_utils/impl/ocid_main.py:527-531 | the deletion of a failure on detach never fires |
| IscsiRuns.CacheHoldsFailures | lib/oci_utils/impl/ocid_main.py:413-475 | after a complete pass with successful writes the next pass loads exactly the failures held in memory, over the early, mid-loop, final and timestamp-only branches |
| IscsiRuns.FailureRemembered | lib/oci_utils/impl/ocid_main.py:438-441 | a recorded failure survives every pass that does not see the volume, and is not retried |
| IscsiRuns.FailureRecorded | lib/oci_utils/impl/ocid_main.py:460-464 | a failed attach is on disk by the end of the pass and is that pass's last attach of the volume |
| IscsiRuns.FailureAfterRaise | lib/oci_utils/impl/ocid_main.py:432-468 | after a pass that raised a failed attach is on disk exactly when a later volume of the loop caused a write |
| IscsiRuns.RetriedAfterRaise | lib/oci_utils/impl/ocid_main.py:413-468 | so exactly when none did, the next pass that may attach the volume tries it again |
| IscsiRuns.RecordedIsNotRetried | lib/oci_utils/impl/ocid_main.py:413-475 | over any run, a failure that is on disk is not retried until a pass has seen the volume in its session |
| IscsiRuns.NoRetryUntilSeen | lib/oci_utils/impl/ocid_main.py:413-475 | the same from the failed attach on, in a complete pass with its final write or in one that raised after a later write |
| IgnoreCleanup.CleanKeepsUnconnected | lib/oci_utils/impl/ocid_main.py:542-547 | the clean-up keeps every unconnected entry, in order |
| IgnoreCleanup.CleanMembers | lib/oci_utils/impl/ocid_main.py:542-547 | it adds nothing and drops only connected entries |
| IgnoreCleanup.CleanHalves | lib/oci_utils/impl/ocid_main.py:542-547 | it drops at least half of the connected entries, on lists with repeats too |
| IgnoreCleanup.CleanExactly | lib/oci_utils/impl/ocid_main.py:542-547 | on a list without repeats an entry survives exactly when it is unconnected or an odd number of connected ones stands directly before it |
| IgnoreRuns.ScanLeaves | lib/oci_utils/impl/ocid_main.py:524-526 | after the detach loop the list is the one in use less the volumes detached, in order |
| IgnoreRuns.CleanupIsLogarithmic | lib/oci_utils/impl/ocid_main.py:542-554 | from the pass that has or reads the list on, n complete passes with the same volumes leave at most count / 2^n connected entries |
| IgnoreRuns.CleanupFinishes | lib/oci_utils/impl/ocid_main.py:542-554 | so logarithmically many passes make the list disjoint from the connected volumes |
| IgnoreRuns.PassIgnore | lib/oci_utils/impl/ocid_main.py:397-437 | an ignored volume is not attached, and leaves the list only when seen connected or detached |
| IgnoreRuns.StoredListIsObeyed | lib/oci_utils/impl/ocid_main.py:400-437 | a pass that has no ignore list yet, or one older than the file, and can read the file, obeys the list in the file: it attaches exactly the volumes connected, not on it, not in the session and not recorded in the cache file, each with the code its attach returned; a complete pass keeps every entry neither connected nor detached, and adds none |
| IgnoreRuns.UnreadableListIsEmpty | lib/oci_utils/impl/ocid_main.py:404-410 | the same with the empty list when such a pass cannot read the file |
| IgnoreRuns.MemoryListIsObeyed | lib/oci_utils/impl/ocid_main.py:399-410 | the same with the list of the pass before when the file is not newer, whatever is in it |
| IgnoreRuns.ShorterListIsSaved | lib/oci_utils/impl/ocid_main.py:549-554 | after a complete pass both ignore files hold the list the pass ended with if that is shorter than the one it obeyed, and the old file is as it was if not |
| IgnoreRuns.ListSurvivesRestart | lib/oci_utils/impl/ocid_main.py:549-554 | so a daemon started anew after such a pass obeys the same list |
| IgnoreRuns.ReadingCopies | lib/oci_utils/cache.py:90-128 | reading the list copies the old file over the new one, which stays so unless a shorter list is saved |
| IgnoreRuns.CacheIsThere | lib/oci_utils/impl/ocid_main.py:427-568 | a complete pass whose last write succeeds leaves a cache file that can be read; one without volumes writes the file even if it raises |
| IgnoreRuns.FailuresHaveCodes | lib/oci_utils/impl/ocid_main.py:460-464 | every recorded failure has the code an attach of its volume returned, in this pass or before |
| IgnoreRuns.AttachedOnlyAfterRelease | lib/oci_utils/impl/ocid_main.py:397-437 | over any run an ignored volume is attached only strictly after a pass that saw it connected or detached it |
| IgnoreRuns.IgnoredVolumeIsReattached | lib/oci_utils/impl/ocid_main.py:540-547 | an ignored volume is attached by the next pass exactly when it is connected, an even number of connected entries stands directly before it, the list could be saved, and nothing else keeps that pass from attaching it |
| IgnoreRuns.WedgeCause | lib/oci_utils/impl/ocid_main.py:549-554 | a complete pass loses the ignore timestamp exactly when the list cannot be written and holds a volume that is connected, or offline and due |
| IgnoreRuns.WedgedForever | lib/oci_utils/impl/ocid_main.py:399-400 | without a timestamp every later pass raises and does nothing |
| WorkerThreads.OcidThread.Step | lib/oci_utils/impl/ocid_main.py:171-201 | an access of run keeps the worker in order and a stop in force, brings a worker that was stopped, or does not repeat, nearer its end, and brings one that repeats and is active one step nearer its next call |
| WorkerThreads.OcidThread.RequestStop | lib/oci_utils/impl/ocid_main.py:156-163 | the request is in force afterwards exactly when the worker was past the line that sets active; where it is and what it holds does not change |
| WorkerThreads.OcidThread.RunOnce | lib/oci_utils/impl/ocid_main.py:171-201 | undisturbed and without repeat, run makes one call, signals it and ends |
| WorkerThreads.WorkerProgress | lib/oci_utils/impl/ocid_main.py:179-201 | a stop request in force stays in force, and each step then brings the worker nearer its end |
| WorkerThreads.CallsKeepComing | lib/oci_utils/impl/ocid_main.py:181-201 | in every schedule, n steps of a repeating worker that has started and stays active make n / 8 calls, rounded either way, so any eight make one; and it is never blocked |
| WorkerThreads.Rounds | lib/oci_utils/impl/ocid_main.py:181-201 | undisturbed, every eight steps bring it back to the same line with exactly one more call and the first iteration signalled |
| WorkerThreads.FirstIterationComes | lib/oci_utils/impl/ocid_main.py:165-196 | in every schedule a worker that main has started and not asked to stop ends its first iteration within seven steps of its own, so that main goes on |
| WorkerThreads.RunKeepsInv | lib/oci_utils/impl/ocid_main.py:786-815 | what every schedule of all threads keeps |
| WorkerThreads.NoStopIsLost | lib/oci_utils/impl/ocid_main.py:786-813 | once a worker is asked to stop, active stays False in every schedule and it begins at most one more call |
| WorkerThreads.ReadyMeansEveryWorkerRan | lib/oci_utils/impl/ocid_main.py:788-802 | READY is sent only after every worker has completed a call |
| WorkerThreads.ReadyIsSent | lib/oci_utils/impl/ocid_main.py:797-813 | READY has been sent when main sleeps, and every worker has been asked to stop and woken when main joins |
| WorkerThreads.RefreshCallsOnce | lib/oci_utils/impl/ocid_main.py:780-784 | a refresh calls each function exactly once before it exits |
| WorkerThreads.EveryStepCounts | lib/oci_utils/impl/ocid_main.py:744-763 | while main joins, every step of anyone lowers the measure |
| WorkerThreads.ProgramEnds | lib/oci_utils/impl/ocid_main.py:812-815 | from the joins on at most 10n + 1 steps remain, and a schedule stops only where the program has exited |
| WorkerThreads.WhenAStopHolds | lib/oci_utils/impl/ocid_main.py:156-179 | a stop request holds exactly when it finds the worker past the line that sets active |
| WorkerThreads.LostForever | lib/oci_utils/impl/ocid_main.py:744-763 | a worker that is active while main joins keeps main there in every schedule |
| WorkerThreads.HastyMainLosesAStop | lib/oci_utils/impl/ocid_main.py:788-791 | without the wait for the first iteration there is such a schedule |
| CacheFile.CacheFile.WriteCache | lib/oci_utils/cache.py:251-299 | whatever was in the file and however long it was, exactly the new content is left, with its own timestamp |
| CacheFile.CacheFile.LoadCache | lib/oci_utils/cache.py:151-181 | the whole content with the file's timestamp |
| CacheFile.FillStep | lib/oci_utils/cache.py:286-288 | writing in place under the exclusive lock keeps the invariant of all processes |
| CacheFile.TruncateStep | lib/oci_utils/cache.py:288-289 | truncating at the end of the data leaves exactly the data, before the unlock |
| CacheFile.StepKeepsInv | lib/oci_utils/cache.py:251-299 | every access of every reader and writer keeps the invariant |
| CacheFile.ReadersSeeWholeWrites | lib/oci_utils/cache.py:161-179 | in every interleaving without a broken-off write a reader returns the whole content of the latest completed write |
| CacheFile.CommitsAreWrites | lib/oci_utils/cache.py:257-289 | a content becomes current exactly when a writer creates the file, empty, or truncates it at the end of its data, which then is all of it; each time with a later modification time |
| CacheFile.LaterWritesAreNoticed | lib/oci_utils/cache.py:155-165 | a returned timestamp is never newer than its content, so at any later moment of the run every write completed since shows as a later modification time; after a write of one's own, exactly those do |
| CacheFile.TimeIsFromStat | lib/oci_utils/cache.py:155-181 | in every interleaving the timestamp a reader returns is the modification time at its first access, before it opens the file, whatever is written while it waits |
| CacheFile.WriterEndsInWrote | lib/oci_utils/cache.py:288-299 | in every interleaving a writer that has truncated, and gets its two remaining accesses, returns the time of its own commit |
| CacheFile.LogGrows | lib/oci_utils/cache.py:257-289 | whatever breaks off, the contents completed up to one moment stay the first ones of those completed later |
| CacheFile.BrokenWriteLeaves | lib/oci_utils/cache.py:286-297 | for any old and new content, a write that fails part-way leaves the bytes it wrote or flushed late over the old content, and completes nothing |
| CacheFile.BrokenWriteIsVisible | lib/oci_utils/cache.py:161-179 | the next undisturbed reader returns exactly that |
| CacheFile.BrokenWriteShows | lib/oci_utils/cache.py:286-297 | it passes for a whole write exactly when some write left that content: the last one, if the bytes written were there already, or an earlier one |
| CacheFile.MixtureIsWhole | lib/oci_utils/cache.py:286-289 | when the mixture equals the old content, and when the new one |
| CacheFile.OverlayIs | lib/oci_utils/cache.py:286-288 | byte by byte, what writing over an open file leaves: the new bytes, the old ones elsewhere, zeros in a gap |
| CacheFile.WriteCanReach | lib/oci_utils/cache.py:257-288 | from any initial file every new content and number of bytes written can be played, with nothing completed in between |
| CacheFile.MixtureIsRead | lib/oci_utils/cache.py:257-297 | from any initial file, for all new data, every place where its write breaks off and every late flush, there is a run in which a reader returns the new bytes over the old content; no write left that content, unless the new bytes were there already |
| CacheFile.CompletedWriteMends | lib/oci_utils/cache.py:284-297 | in every run, whatever broke off before: a write that begins with no late flush pending and is completed leaves exactly its data, and from there until the next broken-off write readers return whole contents again |
| MetadataPaths.ReadPath | lib/oci_utils/metadata.py:22-50 | the loop of _get_by_path, with None and the raising cases apart |
| MetadataPaths.WritePath | lib/oci_utils/metadata.py:53-104 | the loop of _set_by_path, with padding, creation and the appending of a final index |
| MetadataPaths.ReadAfterWrite | lib/oci_utils/metadata.py:22-104 | a written value is read back exactly when the final index is at most the length of its list |
| MetadataPaths.WriteFrame | lib/oci_utils/metadata.py:73-104 | every existing path that is neither prefix nor extension of the written one reads as before |
| PathFilter.GetIsWalk | lib/oci_utils/metadata.py:39-50 | a read finds a value exactly when the keys lead to it through lists and dictionaries |
| PathFilter.ReadStops | lib/oci_utils/metadata.py:42-50 | where it finds nothing: None where a name is missing, at any depth, or a final index, unless the list holds that number; an exception in all other cases |
| PathFilter.ReadStopsInText | lib/oci_utils/metadata.py:42-50 | a text on the way: an index goes on with one character, a name raises if the text contains it and gives None if not |
| PathFilter.WriteStops | lib/oci_utils/metadata.py:73-104 | where a write stops: with creation off a missing name leaves the tree as it is; which keys store, key a dictionary by a number, or raise |
| PathExpansion.GetPathKeys | lib/oci_utils/metadata.py:146-207 | the list of concrete paths, extended key by key, with the raising cases |
| PathFilter.ExpansionIsMatching | lib/oci_utils/metadata.py:146-207 | over a uniform tree the concrete paths are exactly those that match the filter key by key, the last of several keys alike in lower case standing for them, and the filter is invalid exactly when there is none |
| PathExpansion.ReplaceByIndices | lib/oci_utils/metadata.py:179-188 | remove and append give every path once per index, in order |
| PathFilter.ExpansionShape | lib/oci_utils/metadata.py:146-207 | concrete paths are distinct, equally long and as many as the product of the wildcard list lengths |
| PathFilter.PathsResolve | lib/oci_utils/metadata.py:179-202 | when list elements share the shape of element 0 every concrete path leads to a value |
| PathFilter.FilterNew | lib/oci_utils/metadata.py:344-375 | the path branch of _filter_new |
| PathFilter.PicksAre | lib/oci_utils/metadata.py:362-364 | every concrete path is stored, in order, with its value, a missing one as null |
| PathFilter.BadWhenRaised | lib/oci_utils/metadata.py:362-373 | a filter fails exactly when the read of one of its concrete paths raises |
| PathFilter.ExpansionChained | lib/oci_utils/metadata.py:179-188 | a filter ending in a wildcard lists the elements of its last list in order, so each is appended after the one before |
| PathFilter.FilteredTreeReadsBack | lib/oci_utils/metadata.py:344-375 | for filters ending in a name, a wildcard or index 0, without adjacent indices, the built tree reads the source value at every concrete path, and is a partial copy of the source |
| PathFilter.OneFilterReadsBack | lib/oci_utils/metadata.py:344-375 | over a uniform tree one filter reads back at all its concrete paths exactly under these conditions |
| PathFilter.SinglePathReadsBack | lib/oci_utils/metadata.py:372-373 | for one concrete path: exactly when it starts with a name, has no adjacent indices, and any final index is 0 |
| MetadataFilter.FilterTree | lib/oci_utils/metadata.py:377-421 | the recursive filter over lists and dictionaries |
| MetadataFilter.FilterIsExact | lib/oci_utils/metadata.py:377-421 | None exactly when nothing is selected; otherwise a pruning in which every branch leads to a selected key and every topmost selected entry survives, in order, with its value |
| MetadataFilter.AskedSurvives | lib/oci_utils/metadata.py:396-409 | an entry anywhere in the tree whose key is asked for as written, or in lower case, survives with its whole value |
| MetadataFilter.FixedIffTight | lib/oci_utils/metadata.py:377-421 | filtering leaves a tree alone exactly when every branch already leads to a selected key |
| MetadataFilter.FilterTwice | lib/oci_utils/metadata.py:377-421 | filtering is idempotent |
| NameConversion.ConvertTree | lib/oci_utils/metadata.py:240-326 | the recursive walk of both renaming passes, colliding keys overwriting one another |
| NameConversion.ServiceNamesDiffer | lib/oci_utils/metadata.py:111-143 | the attribute map stays invertible in lower case |
| NameConversion.CamelOfRow | lib/oci_utils/metadata.py:317-322 | each SDK name of the table becomes the service name of its row |
| NameConversion.OtherKeysStay | lib/oci_utils/metadata.py:317-322 | every other key stays as it is |
| NameConversion.ServiceNamesBecome | lib/oci_utils/metadata.py:261-267 | a service name, in upper or lower case, becomes the SDK name of its row; every other key its lower case |
| NameConversion.LastWins | lib/oci_utils/metadata.py:240-326 | of entries that get the same name the last one wins, and no other name appears |
| NameConversion.KeyRoundTrip | lib/oci_utils/metadata.py:261-267 | a key survives renaming and back exactly when it is an SDK name, or lower case and not a key of the inverse map |
| NameConversion.RoundTrip | lib/oci_utils/metadata.py:240-326 | the second pass undoes the first exactly on documents all of whose keys survive |
| Interfaces.CorrelateData | lib/oci_utils/vnicutils.py:782-877 | the correlation loop, raising on empty metadata and on unparsable addresses; what it makes of each interface is in ReportedWithOne, ReportedWithPair and ReportedWithNone |
| Interfaces.JoinKeeps | lib/oci_utils/vnicutils.py:807-872 | joining keeps the MAC and every secondary address, present or marked missing, in all candidate cases |
| Interfaces.JoinedState | lib/oci_utils/vnicutils.py:809-861 | an interface is in order only if a candidate carries a proper address |
| Interfaces.CorrelationConserves | lib/oci_utils/vnicutils.py:803-877 | each metadata interface once and in order, and exactly the unclaimed system interfaces left |
| Interfaces.ReportedWithOne | lib/oci_utils/vnicutils.py:812-826 | with one system interface of its MAC, the reported interface has every key as the system has it, and those the system lacks as the metadata has them; the system's secondary addresses, if any, stand, those it lacks are marked missing, and it is in order exactly if the system's address is not link local |
| Interfaces.ReportedWithPair | lib/oci_utils/vnicutils.py:832-856 | with a macvlan and a vlan of its MAC: IFACE is the macvlan's link, VLAN the vlan's name, the macvlan's other keys win, the vlan's secondary addresses win, and the vlan's address decides the state |
| Interfaces.ReportedWithNone | lib/oci_utils/vnicutils.py:809-861 | with no system interface of its MAC, or several without such a pair, it is reported as the metadata has it, to be added |
| Interfaces.ThreeCases | lib/oci_utils/vnicutils.py:807-839 | every metadata interface is in one of the three cases |
| Interfaces.LeftState | lib/oci_utils/vnicutils.py:935-947 | a system interface nobody claims is reported with its own data, to be deleted unless excluded or a virtual function |
| Interfaces.CorrelationRaises | lib/oci_utils/vnicutils.py:820-854 | the correlation raises exactly when the address that decides the state of some interface cannot be parsed |
| Interfaces.CorrelationSucceeds | lib/oci_utils/vnicutils.py:820-826 | no exception when the system's addresses can be parsed |
| Interfaces.GetNetworkConfig | lib/oci_utils/vnicutils.py:931-951 | correlation, leftovers marked DELETE, then the last round; what is reported is in the rows down to NothingIsDeleted |
| Interfaces.OnlyStatesChange | lib/oci_utils/vnicutils.py:931-951 | from the correlation to the report every key but CONFSTATE, and both address lists, stay as they are |
| Interfaces.ConfigConserves | lib/oci_utils/vnicutils.py:931-951 | the reported configuration has every interface of both sources: the metadata's covered, the others unchanged but for their state |
| Interfaces.DeletedExactly | lib/oci_utils/vnicutils.py:931-948 | reported as DELETE are exactly the unclaimed system interfaces that are not excluded and whose is_vf entry is present and empty |
| Interfaces.NothingIsDeleted | lib/oci_utils/vnicutils.py:941-948 | as nothing writes is_vf, none does |
| VnicLists.VnicUtils.AutoConfigure | lib/oci_utils/vnicutils.py:335-479 | the classification loop and the three work rounds |
| VnicLists.VnicUtils.AutoDeconfigure | lib/oci_utils/vnicutils.py:553-575 | the unconfigure loop, stopping at the first exception |
| VnicLists.StaysListed | lib/oci_utils/vnicutils.py:579-592 | an unconfigured address stays on the list on disk until an operator's configuration of it succeeds, as long as the lists can be loaded |
| VnicLists.ExcludedIsLeftAlone | lib/oci_utils/vnicutils.py:302-316 | until it is included again, neither operator nor daemon touches an interface that an excluded item names, as long as the lists can be loaded |
| VnicLists.OnlyIncludeReleases | lib/oci_utils/vnicutils.py:318-333 | an item leaves the exclude list exactly by being included |
| VnicLists.AutoConfigForgetsNone | lib/oci_utils/vnicutils.py:391-395 | every interface that needs configuring and may be configured is tried |
| VnicLists.AutoConfigInOrder | lib/oci_utils/vnicutils.py:368-479 | everything that is due is done and nothing else: first the permitted interfaces in state ADD are configured, then the unexcluded in state DELETE removed, then those permitted with secondary addresses missing or asked for modified, each round in the order of the report |
| VnicLists.OnlyWhatIsDue | lib/oci_utils/vnicutils.py:368-479 | each event is about an interface of the report for which it is due, with the addresses it is to get |
| VnicLists.DeconfigReachesAll | lib/oci_utils/vnicutils.py:555-573 | an unconfigure that runs to its end takes down and lists the address of every interface with a valid address that is not the primary, not in state ADD and not excluded |
| VnicLists.DeconfigExactly | lib/oci_utils/vnicutils.py:555-573 | an unconfigure takes down exactly these interfaces, up to the first of them that fails |
| VnicLists.DeconfigStops | lib/oci_utils/vnicutils.py:555-573 | it stops exactly when one of them fails |
| VnicLists.DaemonRespectsLists | lib/oci_utils/vnicutils.py:368-410 | a daemon pass leaves both lists alone and never configures or modifies an interface they name |
| VnicLists.ListsHaveNoRepeats | lib/oci_utils/vnicutils.py:579-607 | over any run of operator and daemon, whatever cannot be loaded or saved, neither list on disk has repeats |
| VnicLists.OnlyOperatorReleases | lib/oci_utils/vnicutils.py:421-461 | an address leaves the deconfig list exactly by an operator's successful configuration of it |
| VnicLists.UnconfiguredIsLeftAlone | lib/oci_utils/vnicutils.py:368-461 | until then no daemon pass configures or modifies an interface with that address, as long as the lists can be loaded |
| VnicLists.FailedLoadReconfigures | lib/oci_utils/vnicutils.py:98-113 | a daemon pass tries to configure an interface the list on disk names exactly when it cannot load the lists |
| VnicLists.FailedLoadForgets | lib/oci_utils/vnicutils.py:108-127 | a command that could not load the lists leaves only its own change on disk, whatever the lists were: the excluded item, or the addresses it unconfigured; including and configuring save nothing then |
| VnicLists.SavedIsLoaded | lib/oci_utils/vnicutils.py:98-127 | what was saved last, with both writes done, is what the next command loads |
| VnicLists.QuietStepCopies | lib/oci_utils/vnicutils.py:98-113 | a command that saves nothing leaves the file it reads alone and makes the other a copy of it, if it could load |
| RouteTables.RouteTableFile.AddRouteTable | lib/oci_utils/impl/network_helpers.py:580-612 | stops at the first active line that has the name, or cannot be read: the file and the backup stay as they are, and the answer is True or an exception; otherwise appends the name with the least number of 10 to 254 that no active line has, by a guarded rewrite |
| RouteTables.RouteTableFile.DeleteRouteTable | lib/oci_utils/impl/network_helpers.py:629-649 | the filtering loop and the guarded rewrite |
| RouteTables.RouteTableFile.Replace | lib/oci_utils/impl/network_helpers.py:602-610 | the whole new text, or the old one unless the restore fails too; the old text is in the backup after a failed write |
| RouteTables.LineCounts | lib/oci_utils/impl/network_helpers.py:587-587 | the lines that count have something on them and do not start with # |
| RouteTables.StoppedAddKeeps | lib/oci_utils/impl/network_helpers.py:591-593 | over any commands, adding a name the table has, or to a table that cannot be read up to it, changes neither file |
| RouteTables.AddingAgainKeeps | lib/oci_utils/impl/network_helpers.py:591-593 | in a table that can be read, adding a name it has answers True and changes nothing |
| RouteTables.FirstFree | lib/oci_utils/impl/network_helpers.py:594-598 | the least free number, or -1 when all are taken |
| RouteTables.LeastFreeNumber | lib/oci_utils/impl/network_helpers.py:594-598 | -1 exactly when 10..254 are all taken, never below 245 entries |
| RouteTables.AddKeepsTable | lib/oci_utils/impl/network_helpers.py:580-612 | adding a new name adds exactly one entry; numbers and names stay distinct exactly when one of 10..254 is free or -1 still is |
| RouteTables.DeleteKeepsTable | lib/oci_utils/impl/network_helpers.py:629-649 | deleting removes exactly the entries of the name |
| RouteTables.DeleteUndoesAdd | lib/oci_utils/impl/network_helpers.py:630-639 | delete restores the file exactly when no line, comments included, used the name before |
| RouteTables.NewEntryIsALine | lib/oci_utils/impl/network_helpers.py:600-605 | the new entry is a line of its own exactly when the file ended in a newline |
| RouteTables.FailedOpsVanish | lib/oci_utils/impl/network_helpers.py:602-649 | over any run with working restores the table is what the successful operations alone would have made of it |
| RouteTables.RunKeepsTable | lib/oci_utils/impl/network_helpers.py:580-649 | over any run in which every add finds room numbers and names stay distinct |
| RouteTables.EntriesStay | lib/oci_utils/impl/network_helpers.py:580-649 | over any run with working restores, whatever names are added and whatever fails, an entry of the first table stays until its name is deleted |
| RouteTables.OthersExactly | lib/oci_utils/impl/network_helpers.py:633-639 | deleting keeps every line as often as before, but for those whose second word is the name |
| GuestFunctions.FindUnassigned | lib/oci_utils/kvm/virt.py:157-207 | None exactly when no function is free of the configured and the domains' MACs and not given before; else the free one of the wanted MAC if there is one, else the free one whose MAC is listed first |
| GuestFunctions.FindVlan | lib/oci_utils/kvm/virt.py:110-132 | the first domain whose last interface of the MAC has a device name, None exactly when there is none |
| GuestFunctions.FindVnicByIp | lib/oci_utils/kvm/virt.py:74-81 | the first VNIC with the address, None exactly when there is none |
| GuestFunctions.HoldsExactly | lib/oci_utils/impl/virt/virt_utils.py:139-144 | a domain's dictionary has a device name for a MAC exactly when its last interface of that MAC has one |
| GuestFunctions.TestVnicAndAssignVf | lib/oci_utils/kvm/virt.py:317-355 | decides by the first VNIC with the wished address: refuses exactly when there is none, or its MAC is in use with a device name, or nothing is free; raises exactly when it gets further and the physical interface is missing; else gives the free function of that VNIC's MAC, or the first free one |
| GuestFunctions.HeldIsRefused | lib/oci_utils/kvm/virt.py:127-129 | with functions left, a VNIC that domains have already is refused exactly when one has it with a device name; what is given otherwise has another MAC |
| GuestFunctions.GivenAwayTwice | lib/oci_utils/impl/virt/virt_utils.py:143-144 | such a host, for every address and function: a domain has the VNIC on a libvirt network, and the VNIC is given a function again |
| GuestFunctions.AssignAll | lib/oci_utils/kvm/virt.py:602-616 | the functions chosen for one guest are pairwise distinct, and each suits its own wish: the wished address is that of a VNIC not in use, and the function is the free one of its MAC when one is left; it stops exactly at a wish that cannot be met or whose network cannot be made |
| SessionReport.Session | lib/oci_utils/iscsiadm.py:154-193 | the accumulating loop |
| SessionReport.Sections | lib/oci_utils/iscsiadm.py:156-170 | every report is what its sections print, the lines before the first target being an unnamed section |
| SessionReport.OnlySections | lib/oci_utils/iscsiadm.py:156-170 | no other sections print it |
| SessionReport.LeadingTarget | lib/oci_utils/iscsiadm.py:154-170 | an unnamed section at the start makes no difference to the parser |
| SessionReport.ReportIsDevices | lib/oci_utils/iscsiadm.py:154-193 | what any report yields, whatever lines it begins with, section by section |
| SessionReport.DeviceIsOwn | lib/oci_utils/iscsiadm.py:158-170 | in any report a device gets its last section's fields over those of the unnamed sections directly before it; so exactly its own if and only if it has all their keys |
| SessionReport.SectionsStayApart | lib/oci_utils/iscsiadm.py:158-170 | when names occur once, the result is each device with its own fields exactly when every named section has all keys of the unnamed ones directly before it |
| SessionReport.RepeatedNames | lib/oci_utils/iscsiadm.py:158-193 | when no unnamed section has fields, names may repeat and the last section of a name wins |

## Left out

- OCI sessions, metadata requests, `iscsiadm`, `ip`, libvirt and every other command: their results are inputs.
- JSON text: cache contents are byte sequences, or values for the worker; parsing and printing are not modelled.
- load_cache_11876 and write_cache_11876 in the locking model: they appear in the worker's pass only, as copy, load and two writes.
- Locks of threads in one process: record locks do not exclude them; every process of the locking model has one operation under way.
- Choosing between a global and a user cache file by age, max_age, the fallback file name and file modes.
- LaterWritesAreNoticed: assumes that every change of a file gets a later modification time; two changes within one clock tick are not told apart, and os.utime on the file is not modelled.
- The list of all iqns kept beside the attach failures (nothing reads it back), CHAP passwords and their file, and the limit on the number of scanned addresses.
- The order in which `list(set(...))` writes the ignore list and the missing secondary addresses: the model keeps first occurrences in order.
- UnconfiguredIsLeftAlone: for runs whose commands and passes can load the lists; FailedLoadReconfigures shows that the condition is needed. The same holds of StaysListed and ExcludedIsLeftAlone.
- ReadersSeeWholeWrites: for runs without a write that fails part-way; MixtureIsRead shows that the condition is needed, and CompletedWriteMends from where on it holds again.
- PassCompletes: without the password file, whose failed write also sets a timestamp to None and makes the comparison at line 299 raise in every later pass; the same holds of WedgeCause.
- A `cache_file.close()` that raises in the error branch of write_cache (cache.py:295): the exception leaves write_cache, whose callers in the worker do not catch it. In the model closing may flush late or not at all, and write_cache returns.
- Every operator command and every pass of the daemon is one atomic load, work and save: two that overlap can lose an update of the exclude or deconfig list, which the results on VnicLists do not show.
- Several changes on a single load: `get_vnic_utils` excludes and includes on the same VNICUtils that the command then configures with; in the model each is a command that loads the lists anew.
- Heap sharing between filtered and source metadata: trees are values, so writes through a shared subtree are not modelled; the containers changed in place by _set_by_path are rebuilt along the path instead.
- A dictionary that gets an integer key, and the state of a half-changed tree after an exception: outcomes without a tree.
- Filters that mix plain keys and paths, the renaming of extendedMetadata inside filter keys, `_post_process`, tuples.
- Letters, digits and white space beyond ASCII; underscores in numbers; carriage returns in the routing-table file.
- Bare-metal substitution of interface names, namespaces, routing rules and the command sequences that configure one interface: one success or failure each.
- FilterNew: keys with a slash only, already split at the slashes.
- Several filters at once: FilteredTreeReadsBack gives a sufficient condition for them; the exact one is for a single filter.
- The old net_exclude file and its migration, and the namespace and secondary-address keys saved with the two lists.
- auto_deconfig for given secondary addresses, add_private_ip and del_private_ip: they change no list the results are about, except the exclude entry del_private_ip drops.
- Finding the physical interface of a VNIC and the arguments of virt-install; MAC addresses are taken as already lower-case. A domain interface without a mac or source element, on which get_interfaces_from_domain raises, is not part of the model.
- Argument parsing, logging, printing, growfs, image migration and the remaining commands.
