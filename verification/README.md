# Verification model of the device-management backend

This project models the algorithms and protocols of the backend in Dafny and
proves what they keep. Each module follows one component of the source; code
that changes fields, arrays or tables in place is modelled by classes and
methods with loops, and each of these is proved against a specification about
which the lemmas speak.

| module | component |
|---|---|
| `AccessChange` | the runner that coalesces access-change triggers, as steps of any number of threads |
| `Jobs` | the single-slot job master and its workers, as steps of any number of offerers and workers |
| `Archive`, `Directories`, `Backup` | walking a directory tree into an archive, extracting it anywhere, and backup and restore around that while the application and its hooks live on |
| `BackupFile`, `Cron` | backup file names, the newest backup, and the scheduled job |
| `EventLog` | the stability event log: append, rotate, torn writes, and the ring-buffer reader |
| `Oom` | the out-of-memory watcher's choice of victim and its signals |
| `Btrfs`, `Disks` | the reconfiguration planner replayed in a world of abstract file systems, and the choice of its inputs |
| `Lsblk` | block-device entries grouped into disks, and the device-name patterns |
| `Database`, `Migrator` | the OIDC client store in two tables, and the schema migrations |
| `UserConfig`, `Access` | typed settings over a key/value table, and external access: update and sync |
| `Comparator` | the screenshot comparator |
| `Display` | the size formatter of the status display |
| `Text`, `Helpers` | the order of strings and the pieces of the patterns in use; options and sorting |

`dafny verify dfyconfig.toml` checks the whole project.

## What does not hold

Some properties that one might expect are false of the code. In each case the
model keeps the code as it is and proves when the property does hold.

- "At most one event starts after the last trigger": two start exactly when that
  trigger falls between the runner clearing `dirty` and calling the event
  (`AccessChange.StartsAfterLastTrigger`, `AccessChange.TwoStartsAfterLastTrigger`).
- A nil job is accepted, and once taken keeps the master busy forever
  (`Jobs.WedgedByNil`, `Jobs.WedgeIsReachable`, `Jobs.NilWedges`).
- Shrinking four or more btrfs devices to two or three of them issues no balance,
  so the device removal is refused (`Btrfs.PlanReachesTarget`,
  `Btrfs.FourToTwoIsRefused`).
- With nothing in use, activation without formatting only mounts the file system that
  it finds: other selected devices are not added, and success is reported
  (`Disks.ActivationReaches`, `Disks.BlankDeviceIsLeftOut`).
- With a file system in use, a selection of disks that are not in use is refused,
  after the file system in use has been unmounted (`Disks.ActivationReaches`,
  `Disks.UnusedSelectionIsRefused`, `Disks.UnusedSelection`,
  `Btrfs.WrongMountIsRefused`).
- A write to the event log that stops inside a line hides every event written behind
  it, and the next rotation drops them; the newest events that are read are the newest
  ever written exactly when none of these was written behind such a line
  (`EventLog.ReadsHistoryIff`, `EventLog.TornHidesNewest`).
- Extraction follows entry names out of the destination (`Archive.StaysBelow`,
  `Archive.StaysBelowAll`, `Archive.EscapeIsPossible`), and then changes what is
  outside exactly when an entry that leads there makes something that is not there
  already (`Archive.ExtractElsewhere`, `Archive.ExtractionElsewhere`); archives written
  by a backup have no such names (`Archive.ArchiveIsContained`).
- A backup is read as another application's exactly if its application's name is the
  other's continued by what looks like a year or a date (`BackupFile.ReadAsAnother`).
  So the latest backup of an application need not be its own, and the scheduled
  restore may take another's: `BackupFile.LatestIsNewest` says exactly when it is its
  own newest, and backups of "app-n" hide all backups of "app" from before the year n
  (`BackupFile.AnotherIsLatest`).
- A sync does not always post what the update posted: it does exactly when the relay
  is off or IPv4 is enabled and not public (`Access.SyncAgreesWithUpdate`).
- The time of the last backup is written with 64 bits and read with 32, so outside the
  32-bit range a job that has just succeeded is due again (`Cron.DueAgain`).
- In a time zone that is not a whole number of hours from UTC the job can succeed
  twice in its hour (`Cron.PartHourZoneRunsTwice`).
- The suffixes of the size formatter run out at the sixth power of the unit, where its
  index is out of range (`Display.FormatSize`).
- Migration fails from a database recorded at version 3 or 4 that lacks the proxy
  table, which the migrations themselves never produce (`Migrator.WhenMigrationFails`).

## Model

| member | source | states |
|---|---|---|
| AccessChange.AccessChangeRunner.Trigger | backend/event/access_change.go:30-40 | one call leaves a run owed and the runner live, and asks for a spawn only if none was live; the same step as in the protocol |
| AccessChange.AccessChangeRunner.Run | backend/event/access_change.go:42-56 | the runner goes idle only with nothing owed; it repeats the event exactly as long as triggers land during events |
| AccessChange.OneRunnerOneEvent | backend/event/access_change.go:30-56 | in every reachable state of every interleaving at most one runner is live and one event open, the flag says whether one is live, nothing is owed to an idle runner, and starts never exceed triggers |
| AccessChange.InvStep | backend/event/access_change.go:30-56 | every step of every thread keeps the invariant behind the above |
| AccessChange.NoLostTrigger | backend/event/access_change.go:30-56 | whenever the runner is idle, each past trigger was followed by an event that started after it and has ended |
| AccessChange.QuietStep | backend/event/access_change.go:42-56 | without new triggers each step brings the end nearer and neither adds nor drops an owed start |
| AccessChange.StopsAfterLastTrigger | backend/event/access_change.go:42-56 | after the last trigger at most six steps remain, and the run can stop only with the runner idle |
| AccessChange.StartsAfterLastTrigger | backend/event/access_change.go:30-56 | exactly one event starts after the last trigger, or exactly two if a runner was about to call the event |
| AccessChange.TwoStartsAfterLastTrigger | backend/event/access_change.go:42-56 | a run with two starts exists |
| AccessChange.Drain | backend/event/access_change.go:42-56 | from every state that meets the invariant a trigger-free run leads to the idle runner |
| Jobs.SingleJobMaster.Offer | backend/job/master.go:30-41 | an offer is taken in exactly when the slot is free, and otherwise changes nothing |
| Jobs.SingleJobMaster.Take | backend/job/master.go:43-53 | a waiting job is handed out once; otherwise nothing changes |
| Jobs.SingleJobMaster.Complete | backend/job/master.go:55-66 | only a busy slot is freed; otherwise an error and no change |
| Jobs.Worker.Do | backend/job/worker.go:30-44 | one round runs the waiting job and frees the slot, or does nothing; a nil job leaves the slot busy |
| Jobs.InvStep | backend/job/master.go:30-66 | every step of every offerer and worker keeps the slot, the workers and the job lists in agreement |
| Jobs.ExactlyOnce | backend/job/master.go:30-66 | accepted jobs run once each and in order, at most one is outstanding and one running, a worker holds one exactly when the slot is busy, and completing never fails |
| Jobs.RejectedOffer | backend/job/master.go:30-41 | an offer has no effect exactly while a job is outstanding or being handed back |
| Jobs.WedgedByNil | backend/job/worker.go:30-34 | the slot is stuck only through an accepted nil job, which is the last accepted |
| Jobs.WedgeIsReachable | backend/job/worker.go:30-34 | one nil offer and one poll reach that state |
| Jobs.NilWedges | backend/job/worker.go:30-34 | once it is stuck no step of any run changes the state |
| Jobs.EveryStepAdvances | backend/job/master.go:30-66 | while a job is outstanding, every step of any offerer or worker changes nothing or brings the job exactly one move nearer its end |
| Jobs.EveryRunAdvances | backend/job/master.go:30-66 | in every run, offers included, the moves still needed and the changes made add up to the same number until the job is done |
| Jobs.Completes | backend/job/worker.go:30-44 | without nil jobs the outstanding job can always be brought to completion without further offers, in exactly the moves still needed, at most four |
| EventLog.EventLog.Append | backend/stability/events.go:52-75 | exactly the events whose line is written are added to the history, with the time of the call if they carry none; every one is remembered as far as readers can ask, unless it was written behind a torn line; after a successful append the file is within its size or holds at most 1000 events; which failures are reported; and that one call is one step of the runs below |
| EventLog.AppendThenRecent | backend/stability/events.go:52-84 | whatever else fails, an event written to a file without a torn line is what is read first afterwards, with its time |
| EventLog.EventLog.Write | backend/stability/events.go:58-74 | the file after any combination of failing calls, torn lines included |
| EventLog.EventLog.Rotate | backend/stability/events.go:127-150 | rotation keeps exactly the newest events that can be read, or nothing changes |
| EventLog.EventLog.ReadLast | backend/stability/events.go:86-125 | the ring buffer returns the last events before the first torn line in either direction, or an error if the file cannot be opened |
| EventLog.EventLog.ReadRing | backend/stability/events.go:106-124 | unrolling the ring in either direction gives the events in order |
| EventLog.RingIndex | backend/stability/events.go:112-121 | both index computations, with truncating remainders, meet the slot of the wanted event |
| EventLog.Overwrite | backend/stability/events.go:98-105 | overwriting the oldest slot keeps exactly the newest events in the ring |
| EventLog.AppendedRemembers | backend/stability/events.go:52-75 | one append, with or without rotation and whatever fails, forgets nothing that survives |
| EventLog.NothingSurvivingIsLost | backend/stability/events.go:52-150 | after any appends, rotations and failures, torn lines included, the newest k events that can be read are the newest k surviving ones, for every k up to 1000 |
| EventLog.ReadsHistoryIff | backend/stability/events.go:52-150 | after any appends, rotations and failures, for every k up to 1000: the newest k events that can be read are the newest k ever written if, and unless events repeat only if, none of these was written behind a torn line |
| EventLog.LastSifted | backend/stability/events.go:52-150 | dropping events from a history shows among its newest k exactly when one of these is dropped |
| EventLog.NeverTorn | backend/stability/events.go:52-75 | so they do when no write stops inside a line |
| EventLog.TornHidesNewest | backend/stability/events.go:98-105 | otherwise an event can be written and reported as written, and never be read |
| EventLog.VisibleConcat | backend/stability/events.go:98-105 | nothing behind a torn line is read, and everything before it is |
| EventLog.EventLog.Recent | backend/stability/events.go:77-84 | up to 1000 the answer is the newest surviving events, newest first; beyond, it is so exactly when the file still reaches back that far |
| EventLog.RequestedLimit | backend/rest/backend.go:755-763 | every limit within the exact range is passed on, and any other becomes the default |
| EventLog.HealthEvents | backend/rest/backend.go:755-763 | every request is answered from the surviving events, and from the unbounded history if, and unless events repeat only if, none of the events asked for was written behind a torn line |
| Btrfs.Diff | backend/storage/btrfs/disk.go:141-149 | the difference in order, repetitions kept |
| Btrfs.WithoutContents | backend/storage/btrfs/disk.go:141-149 | it is the set difference, and free of duplicates if its input is |
| Btrfs.Apply | backend/storage/btrfs/disk.go:55-139 | the plan is issued up to the first command that fails, which is an error |
| Btrfs.Convert | backend/storage/btrfs/disk.go:97-136 | the same for the commands that change an existing file system |
| Btrfs.Update | backend/storage/btrfs/disk.go:43-53 | the UUID is new exactly when formatting, and returned exactly on success |
| Btrfs.PlanReachesTarget | backend/storage/btrfs/disk.go:55-139 | for all lists of distinct devices, replaying the plan on a file system on them ends with exactly the wanted devices and the profile for their number, except for two kinds of request, for which a command is refused; with no device before or after, nothing is done |
| Btrfs.SharedDeviceSuffices | backend/storage/btrfs/disk.go:55-139 | with a device in common the plan succeeds unless the request is a shrink from four or more to two or three without additions, and then it is refused |
| Btrfs.FourToTwoIsRefused | backend/storage/btrfs/disk.go:97-136 | that exception occurs |
| Btrfs.StoppedAnywhere | backend/storage/btrfs/disk.go:55-139 | wherever the plan stops, the file system has the devices its profile needs, all that stay and none from elsewhere; no command of an admissible request is refused |
| Btrfs.FormatReachesTarget | backend/storage/btrfs/disk.go:74-88 | with nothing mounted, formatting mounts a file system on exactly the selected devices with the profile for their number |
| Btrfs.WrongMountIsRefused | backend/storage/btrfs/disk.go:97-136 | a plan made from the devices of one file system while another is mounted is refused, if a device to be added is in the latter |
| Btrfs.ReplayMounted | backend/storage/btrfs/disk.go:97-136 | commands change the mounted file system as they would alone, and another only by taking its devices |
| Btrfs.PlanInWorld | backend/storage/btrfs/disk.go:90-136 | the whole plan, mounting included, in a world of several file systems |
| Btrfs.PlanServes | backend/storage/btrfs/disk.go:55-139 | for every plan that activation can ask for: exactly when it is carried out, and exactly when it leaves the chosen file system on the selected devices |
| Btrfs.ActServes | backend/storage/disks.go:147-188 | an admissible activation is served, takes nothing from another file system and leaves each with the profile for its number of devices |
| Btrfs.ActsServe | backend/storage/disks.go:141-272 | after any activations and deactivations in a row, each activated selection is served |
| Btrfs.ModeFor | backend/storage/btrfs/disk.go:66-72 | the profile is the most demanding one that the number of devices supports |
| Disks.Disks.ActivateDisks | backend/storage/disks.go:141-188 | for every combination of failures: the calls made, in order, the commands the planner issued, and that an error is recorded exactly when one is returned |
| Disks.NothingChangesUnderTheLink | backend/storage/disks.go:147-272 | however far an activation gets, nothing is unmounted or changed while the link leads to the external disk, it leads there again only after every command of the planner, and each change of the link is followed by the event |
| Disks.PlannerHasUuid | backend/storage/disks.go:162-182 | the planner is only reached with a UUID found on a selected disk, or to format |
| Disks.Disks.Deactivate | backend/storage/disks.go:257-272 | the internal disk is linked before the mount is removed, and errors of the event do not stop it |
| Disks.Disks.ActivateCommon | backend/storage/disks.go:247-255 | the event follows only a successful link |
| Disks.FirstActiveUuid | backend/storage/disks.go:200-211 | a UUID of a selected active disk, and none only if there is none |
| Disks.FirstUuid | backend/storage/disks.go:213-222 | a UUID of a selected disk, and none only if there is none |
| Disks.ActiveDevicesContents | backend/storage/disks.go:190-198 | the planner's input is free of duplicates and names exactly the active disks |
| Disks.ActivationReaches | backend/storage/disks.go:147-222 | activation without formatting ends with the chosen file system on exactly the selected devices if and only if a disk in use is selected and the request is not the excluded shrink, or nothing is in use and the selection is that file system as it is; and exactly when it goes through without error |
| Disks.BlankDeviceIsLeftOut | backend/storage/disks.go:162-186 | with nothing in use, a blank device selected next to one with a file system is not added, and no error is reported |
| Disks.UnusedSelectionIsRefused | backend/storage/disks.go:162-186 | with a file system in use, a selection of disks that are not in use is refused |
| Disks.UnusedSelection | backend/storage/disks.go:162-186 | that occurs: with one disk in use, selecting a disk of another file system |
| Lsblk.ParentOfNamedWithP | backend/storage/model/lsblk_entry.go:80-88 | the parent of d + "p" + digits is d |
| Lsblk.ParentOfNamedByNumber | backend/storage/model/lsblk_entry.go:80-88 | the parent of d + digits is d if and only if d ends neither in a digit nor in "p" |
| Lsblk.MmcBootPattern | backend/storage/model/lsblk_entry.go:51-58 | the boot partitions are exactly the names /dev/mmcblkAbootB with numbers A and B, and belong to /dev/mmcblkA |
| Lsblk.AllDisks | backend/storage/lsblk.go:114-162 | the disks are in strict order of device, one for each disk entry name, each with the partitions listed after its last entry, in order |
| Lsblk.ListedFromEntries | backend/storage/lsblk.go:114-171 | every listed disk field by field from the last supported entry with its name, and its partitions field by field from the entries that belong to it and come later, in order |
| Lsblk.ListingUnique | backend/storage/lsblk.go:114-162 | that describes one result, so the iteration order of the map does not matter |
| Lsblk.GroupedStep | backend/storage/lsblk.go:122-154 | each entry keeps the grouping of the entries seen so far |
| Lsblk.SortByDevice | backend/storage/lsblk.go:24-28 | sorted by device, with nothing lost or added |
| Lsblk.ExtractActiveUuid | backend/storage/lsblk.go:93-101 | the non-empty UUIDs of mounted entries |
| Lsblk.ExtractBootDevices | backend/storage/lsblk.go:103-112 | the devices that have a boot partition entry |
| Lsblk.ActiveByUuid | backend/storage/lsblk.go:93-133 | a disk with a UUID is active exactly when some entry with that UUID is; one without, only by its own entry |
| Lsblk.SameUuidSameActivity | backend/storage/lsblk.go:93-133 | disks that share a UUID are equally active |
| Lsblk.PartitionPlacement | backend/storage/lsblk.go:142-152 | with distinct names a partition belongs to its parent exactly when it is listed after it |
| Lsblk.PartitionsInOrder | backend/storage/lsblk.go:142-152 | each partition of a device appears once, in input order, and no other does |
| Lsblk.OnlyItsOwn | backend/storage/lsblk.go:127-152 | a disk has its own partitions and, for a raid, itself; nothing else |
| Lsblk.FindRootPartition | backend/storage/model/disk.go:62-69 | the first root partition, and none only if there is none |
| Lsblk.AvailableDisks | backend/storage/lsblk.go:39-52 | exactly the disks that are neither for boot nor hold the root partition, in order |
| Lsblk.OfferedAre | backend/storage/lsblk.go:39-52 | told from the entries alone: a device is offered if and only if a supported entry has its name, none of its boot partitions is listed, no partition of it mounted at the root is listed behind its last entry, and it is no raid mounted there itself |
| Comparator.CompareImages | visual-diff/cmd/comparator.go:103-145 | the count is the number of flagged pixels, and the mask is true exactly there; images of different size count whole |
| Comparator.IsAntialiased | visual-diff/cmd/comparator.go:173-194 | true exactly when a neighbour in one image matches the pixel in the other |
| Comparator.CellInjective | visual-diff/cmd/comparator.go:122-138 | different pixels have different mask cells |
| Comparator.PaintOne | visual-diff/cmd/comparator.go:135-138 | setting a new pixel's cell raises the number of true cells by one and touches no other pixel |
| Comparator.CompareRow | visual-diff/cmd/comparator.go:127-140 | after each row count and mask describe the flagged pixels of all rows so far |
| Comparator.FlaggedIff | visual-diff/cmd/comparator.go:147-194 | exactly which pixels are flagged: those whose colours are apart in some channel from each other and, in both directions, from all neighbours in the other image |
| Comparator.RepaintFlagsInterior | visual-diff/cmd/comparator.go:147-194 | on a plain background, a region painted in a colour that is apart is flagged exactly where its whole neighbourhood is in it |
| Comparator.Symmetric | visual-diff/cmd/comparator.go:147-194 | the flagged pixels do not depend on which image is first |
| Comparator.Monotone | visual-diff/cmd/comparator.go:147-194 | with more fuzz no pixel is newly flagged |
| Comparator.ShiftTolerated | visual-diff/cmd/comparator.go:147-194 | an image moved by one pixel along an axis, with any new edge, has no flagged pixel |
| Comparator.DiagonalShift | visual-diff/cmd/comparator.go:147-194 | moved along both axes, only two opposite corners can be flagged |
| Database.Oidc.Clients | backend/config/oidc.go:19-64 | every row in order, each field from its own column, with its URIs in row order; an error without the tables |
| Database.CollectUris | backend/config/oidc.go:23-39 | grouping by client keeps the order and the duplicates |
| Database.Oidc.AddClient | backend/config/oidc.go:66-100 | a failure at any statement leaves the database as it was; otherwise the client is written whole |
| Database.UrisAfterInsert | backend/config/oidc.go:90-98 | a new row comes last for its client whatever rowid it is given, and changes no other client |
| Database.UrisAfterDelete | backend/config/oidc.go:86-89 | deleting a client's URIs leaves the others' lists alone |
| Database.AddClientIsUpdate | backend/config/oidc.go:66-100 | one committed call is one update of a map from id to client, URIs as given |
| Database.LastWriterWins | backend/config/oidc.go:19-100 | after any calls with any failures, the store lists for each id the client last committed, once |
| Migrator.Migrator.MigrateTo | backend/config/migrator.go:44-52 | the pending migrations in order up to any version, stopping at the first that fails |
| Migrator.Migrator.Migrate | backend/config/migrator.go:34-42 | the same, to the latest version |
| Migrator.InTwoGoes | backend/config/migrator.go:34-52 | stopping at any version on the way makes no difference |
| Migrator.MigratingAgainChangesNothing | backend/config/migrator.go:34-52 | migrating a migrated database does nothing |
| Migrator.RerunFromScratch | backend/config/migrator.go:54-134 | even with the recorded version lost, the migrations change nothing in a migrated database |
| Migrator.NormalizePreserves | backend/config/migrator.go:78-102 | moving the URIs to their own table changes no client, including those that already have rows there |
| Migrator.MigrationPreserves | backend/config/migrator.go:54-134 | each migration succeeds where its predecessors have run, keeps every row and every client, and makes the tables of its version |
| Migrator.FreshDatabase | backend/config/migrator.go:19-134 | the exact schema of every version, from an empty database |
| Migrator.MigrationsPreserveMeaning | backend/config/migrator.go:19-134 | from every legacy database, whatever tables and columns it has, migration succeeds, reaches one schema, keeps settings and proxies with new flags 0, and lists each client with its fields as they were and with its own URI if that is not empty and the URI table has none for it, and those of the table otherwise |
| Migrator.WhenMigrationFails | backend/config/migrator.go:104-134 | migration fails if and only if the recorded version is 3 or 4 and the proxy table is missing |
| UserConfig.ParseOfFormat | backend/config/db.go:123-153 | a number written as text is read back exactly when it fits the width it is read with |
| UserConfig.AppTimeKeysDiffer | backend/config/user_config.go:198-208 | different applications or modes have different keys, and none is another setting's |
| UserConfig.Defaults | backend/config/user_config.go:33-208 | every setting that other code relies on has its default before anything is set |
| UserConfig.UserConfig.SetPublicIp | backend/config/user_config.go:136-146 | the address is read back, or none if it was removed; nothing else changes |
| UserConfig.UserConfig.SetPublicPort | backend/config/user_config.go:148-158 | the port is kept or removed; nothing else changes |
| UserConfig.UserConfig.SetBackupAppTime | backend/config/user_config.go:198-208 | the time is read back exactly when it fits 32 bits; no other application or mode is affected |
| Access.BuildRecord | backend/redirect/redirect.go:130-187 | every field of the published record: the local address exactly if IPv4 is enabled, the given or seen public address exactly if it is also public, the mapping flag exactly if the first is there without the second; and no record exactly when a needed answer is missing |
| Access.ExternalAddress.Update | backend/access/external_address.go:75-155 | exactly why it is turned down, and that nothing is saved then; otherwise the settings read back as requested; the record posted is the requested one, and a public address in it is the one that was probed; every outside call in order for every combination of failures |
| Access.ExternalAddress.Check | backend/access/external_address.go:84-127 | the addresses that are probed, published and kept, and when the update is turned down |
| Access.ExternalAddress.Save | backend/access/external_address.go:141-146 | the six setters together |
| Access.ExternalAddress.Sync | backend/access/external_address.go:157-172 | what is posted and applied from the saved settings |
| Access.SavedReadsBack | backend/access/external_address.go:141-166 | what an update saves is what a sync reads |
| Access.SyncAgreesWithUpdate | backend/access/external_address.go:75-172 | with the same answers from the network, a sync posts the update's record if and only if the relay is off or IPv4 is enabled and not public |
| BackupFile.NameOrder | backend/backup/backup.go:131-132 | names of one application's backups are ordered as their times are |
| BackupFile.PadOrder | backend/backup/backup.go:131-132 | fixed-width decimal numbers are ordered as texts as they are as numbers |
| Helpers.Sort | backend/cron/backup_job.go:126-126 | in order for every order in which elements may be equal, with nothing lost or added |
| BackupFile.DatesInName | backend/backup/file.go:15-32 | every place at which the date pattern can match in a written name |
| BackupFile.ParseIsReadAs | backend/backup/file.go:15-32 | which application a written name is read as, whatever the application is called and whatever the time |
| BackupFile.ReadAsAnother | backend/backup/file.go:15-32 | for names of one line, another application's backups are read as this one's if and only if its name is this one's continued by "-dddd" at the end or by "-dddd-dddd", and this one's is read back itself |
| BackupFile.ParseOfName | backend/backup/file.go:15-32 | the application is read back from a written name if and only if it is one line, contains nothing like "-dddd-dddd" and does not end in "-dddd" |
| BackupFile.LatestBackup | backend/cron/backup_job.go:114-130 | the greatest name among those read as the application's, and none only if there is none |
| BackupFile.LatestIsNewest | backend/cron/backup_job.go:114-130 | in any directory, that name is the newest backup of the application if and only if the application is read back from its own names and one of its backups is above every other file read as its own |
| BackupFile.LatestUnlessMistaken | backend/cron/backup_job.go:114-130 | so it is in every directory of written backups, if no other application's are read as this one's |
| BackupFile.YearLikeOrder | backend/cron/backup_job.go:126-126 | how the backups of "app-n" compare with those of "app", by their fields |
| BackupFile.AnotherIsLatest | backend/cron/backup_job.go:114-130 | a backup of "app-n" is taken for the latest of "app" instead of one from before the year n |
| Cron.ShouldRun | backend/cron/scheduler.go:11-31 | due exactly at the configured hour of a matching day, outside the clock hour of the last success |
| Cron.MatchesIff | backend/cron/scheduler.go:11-31 | the configured hour and weekday by the calendar, from the days and seconds since the epoch |
| Cron.BackupJob.Run | backend/cron/backup_job.go:61-112 | which applications succeed and which times are recorded in one run over all of them |
| Cron.WhoSucceeds | backend/cron/backup_job.go:74-112 | exactly who succeeds in a run: the applications outside the clock hour of their last success, at the configured hour of a matching day, whose backup or restore works, other than syncthing; and nobody if the job is switched off |
| Cron.VisitRecorded | backend/cron/backup_job.go:79-112 | a success is recorded so that it is never before an earlier one nor in the same clock hour |
| Cron.InvStep | backend/cron/backup_job.go:61-112 | runs of the job and changes of the settings keep the recorded times ahead of every success |
| Cron.SetAuto | backend/backup/backup.go:105-109 | the settings are read back, except a mode outside the list, which is ignored |
| Cron.EverySuccess | backend/cron/backup_job.go:74-112 | in every run with changing settings, each success is a backup or a restore of an application other than syncthing, at the configured hour of a matching day |
| Cron.OncePerClockHour | backend/cron/scheduler.go:11-14 | in every run with changing settings, each application and mode succeeds at most once in a clock hour |
| Cron.FailureStaysDue | backend/cron/backup_job.go:91-112 | a failure changes nothing and, in the same clock hour, leaves the application due exactly while the configured hour lasts; in a whole-hour zone that is the whole clock hour |
| Cron.OncePerDay | backend/cron/scheduler.go:11-31 | with a whole-hour zone and the hour unchanged, at most one success a day |
| Cron.PartHourZoneRunsTwice | backend/cron/scheduler.go:11-14 | in every other zone, for every configured hour, there is a run with two successes in that hour of one day |
| Cron.DueAgain | backend/config/user_config.go:198-208 | after a success the job is due again in the same hour if and only if the time does not fit 32 bits |
| Archive.Walk | backend/backup/backup.go:430-463 | everything below a directory is listed once, directories before their contents; a socket is an error |
| Archive.CreateTarGz | backend/backup/backup.go:417-464 | the archive lists exactly the tree; it fails exactly when there is a socket |
| Archive.ExtractTarGz | backend/backup/backup.go:466-513 | what extraction makes of the whole file system, for any entry list and any destination, with names cleaned as they are joined to it |
| Archive.ExtractedTree | backend/backup/backup.go:466-513 | whatever is extracted below the destination is a tree |
| Archive.ExtractedPart | backend/backup/backup.go:466-513 | any list with directories before their contents extracts to exactly what it lists |
| Archive.SocketsAreSkipped | backend/backup/backup.go:484-511 | entries that are neither directories nor files make no difference |
| Archive.RoundTrip | backend/backup/backup.go:417-513 | extracting an archive of a tree rebuilds the tree: names, contents and owners |
| Archive.JoinClimbs | backend/backup/backup.go:488-488 | where a name leads: as many levels up as it climbs, and then down |
| Archive.JoinConcat | backend/backup/backup.go:488-488 | joining is compositional |
| Archive.JoinOne | backend/backup/backup.go:488-488 | one component leads down, up, or nowhere, and never above the root |
| Archive.JoinIsClean | backend/backup/backup.go:488-488 | below a clean directory every name leads to a clean path |
| Archive.StaysBelow | backend/backup/backup.go:488-488 | a name stays below a destination if and only if it comes back down through the directories that it climbed out of |
| Archive.StaysBelowAll | backend/backup/backup.go:488-488 | a name stays below every destination if and only if it never climbs above its start |
| Archive.ExtractionStaysBelow | backend/backup/backup.go:466-513 | an archive whose names all lead below the destination, directly or after climbing out of it, changes nothing outside, and makes there what the names say as seen from it |
| Archive.ExtractElsewhere | backend/backup/backup.go:488-509 | extracting an entry leaves everything outside the destination as it is if and only if it leads below it, makes nothing, or makes what is there already, owner included |
| Archive.ExtractionElsewhere | backend/backup/backup.go:466-513 | extracting an archive leaves everything outside as it is from beginning to end if and only if that holds of each of its entries |
| Archive.EscapeIsPossible | backend/backup/backup.go:488-509 | an archive that writes a file outside the destination |
| Archive.RoundTripIn | backend/backup/backup.go:417-513 | wherever an archive of a tree is extracted, the tree comes back there and the rest of the file system is unchanged |
| Backup.Make | backend/backup/backup.go:130-365 | each call is the next of its operation; while the application runs, and in every hook, its directories may become anything, and otherwise they rest |
| Backup.StopAndCopy | backend/backup/backup.go:177-214 | what is copied is both directories as of one instant, after the post-stop hook: every path that is no socket there, with its node, and nothing else |
| Backup.Rests | backend/backup/backup.go:177-216 | from the post-stop hook to the start or the next hook nobody else writes |
| Backup.WhoWrites | backend/backup/backup.go:130-365 | exactly which calls give the application or a hook a chance to write, before the copy and after the directories are in place |
| Backup.TouchedWhileStopped | backend/backup/backup.go:172-357 | in every trace a call that touches the directories comes after the stop and before any start, where neither the application nor a hook can write |
| Backup.Backup.Create | backend/backup/backup.go:130-233 | for a failure at any call: exactly how far it gets and in which order, that the archive holds, of both directories as of after the post-stop hook, every path that is no socket, with its node, and nothing else, what a failing write leaves, that nothing else changes, and whether the application is left running |
| Backup.Backup.Restore | backend/backup/backup.go:251-365 | for a failure at any call and for every archive: exactly how far it gets and in which order, which directory is as before, as in the archive or damaged, that no other application's files change unless a name in the archive climbs above its start, and whether the application is left running |
| Backup.PutInPlace | backend/backup/backup.go:296-362 | the same from the stop on |
| Backup.Replace | backend/backup/backup.go:309-342 | both directories are put in place, or which of them is untouched and which is finished |
| Backup.Refill | backend/backup/backup.go:309-326 | one directory becomes its part of the archive, path by path without sockets, with its top given to the owner; a failing wipe or copy may leave anything of it |
| Backup.BackupThenRestore | backend/backup/backup.go:130-365 | a backup, any later changes, and a restore: what is put in place before the pre-start hook has exactly the files and directories that the backup found after its post-stop hook, with the same nodes, and a top that belongs to the application's user; and exactly when both go through |
| Backup.UndisturbedRoundTrip | backend/backup/backup.go:130-365 | if nobody else writes, these are the directories at the call of the backup and at the end of the restore |
| Backup.ArchivePutsBack | backend/backup/backup.go:309-342 | every archive of two directories is complete, and whatever is put in place from it has exactly their files and directories |
| Directories.SubOfPair | backend/backup/backup.go:187-214 | the two directories put into one come out of it as they were |
| Directories.Unpack | backend/backup/backup.go:258-281 | extraction into a new temporary directory gives what the archive says, as a tree of proper names |
| Directories.ArchiveGivesBack | backend/backup/backup.go:187-345 | every archive of two directories is unpacked to what was packed, and its names stay below any destination |
| Directories.PackedComesBack | backend/backup/backup.go:187-345 | what is packed, and put in place again, has exactly the files and directories that were found, with the same nodes |
| Oom.IsProtected | backend/stability/protect.go:30-42 | true exactly for a protected name or a control group that contains a protected part |
| Oom.Candidates | backend/stability/proc.go:33-65 | exactly the eligible processes, by descending score |
| Oom.KillWorst | backend/stability/oom.go:97-136 | the victim is eligible and has the greatest score of all eligible processes; which signals it gets and what is reported for every sequence of answers |
| Oom.SignalledIsLegal | backend/stability/oom.go:97-136 | all signals go to one process that is readable, has memory, is neither protected by name or control group, nor this process, nor process 1, and weighs at least as much as every other such process; a kill comes only last, after a request to stop and with every probe answered, and then always |
| Oom.WorseIsWorse | backend/stability/proc.go:126-132 | the order of scores is that of memory weighted by a thousandth more for every unit of a positive adjustment |
| Oom.EligibleIff | backend/stability/proc.go:33-65 | who may be signalled, with protection read as parts of the control group |
| Oom.Tick | backend/stability/oom.go:59-136 | that holds of every tick, and signals go out exactly under pressure with an eligible process; memory that cannot be read, and under pressure a process directory that cannot be read, end it with an error and no signal |
| Display.FormatSize | backend/hardware/lcd/display.go:143-161 | the value times the power that the suffix names is the size, the value is at least one and below the unit, and has a decimal exactly below one hundred; the suffix runs out of range exactly from the sixth power on |
| Display.Divisor | backend/hardware/lcd/display.go:147-151 | the loop ends with the largest power of the unit that is at most the size, without leaving 64 bits |
| Display.DivideAgain | backend/hardware/lcd/display.go:148-151 | repeated truncating division is one division by the product |
| Display.SuffixUnique | backend/hardware/lcd/display.go:147-151 | no other suffix fits the size |

## Assumptions

- Replaying btrfs commands follows the tool's refusals: a balance to a profile
  that keeps fewer copies is refused unless forced, a balance needs the devices of
  its profile, a removal is refused if too few would remain for the current profile,
  and a device of the mounted file system cannot be added to it. Adding and
  formatting are forced, so they take a device from a file system that is not
  mounted. A command either has its effect or fails without one.
- A listed disk that carries a UUID carries a btrfs file system.
- A proper beginning of a JSON line, whatever follows it on that line, stops the
  decoder; only the bare line end may be missing.
- An application leaves its two top directories in existence. A stopped application
  does not write, except by its hooks.
- The daemon is user and group 0, and its calls to change owners during extraction
  succeed. The copy library is represented by what it transfers: all but sockets.
- SQLite gives a new row the largest rowid plus one.
- Equal elements may be sorted in any order, and a map may be iterated in any order.

## Left out

- Backup.Backup.Create: errors when the archive is closed, which the source ignores, do not occur here.
- Backup.Backup.Restore: where an archive with names that climb above their start writes is not followed up: from its extraction on, the directories, the archives and the temporary directory are any that a file system can have (`Stray`).
- Backup.StopAndCopy: a copy that fails leaves only the temporary directory behind, which is not represented afterwards.
- Archive.RoundTrip: symbolic and hard links, file modes under the process mask and extended attributes are not part of a tree here.
- Archive.CreateTarGz: the bytes of tar and gzip are not represented; an archive is its list of entries.
- Archive.ExtractTarGz: what a failing extraction has written so far is not represented.
- BackupFile.NameOrder: years beyond 9999 are outside the statement, since they take a fifth digit.
- EventLog.EventLog.ReadLast: a read error in the middle of the file, which the source treats as its end, is not represented; the length of a line is any function of its event.
- Cron.OncePerDay: daylight saving is not represented; the zone offset is fixed during a run.
- Cron.BackupJob.Run: times are whole seconds, and comparing two times compares the instants.
- Lsblk.AllDisks: splitting the command's output into columns is not represented, and whether an entry is mounted is a field of the entry; a disk is updated through its map entry instead of a pointer.
- Disks.ActivationReaches: the file systems have the profile meant for their number of devices, as activation leaves them; one made otherwise is not covered.
- Oom.Tick: the records written to the event log along the way are not represented, nor is the text of the process files; scores are scaled by 1000 and exact.
- Comparator.CompareImages: images have their origin at zero and channels are exact; reading and writing PNG files and comparing whole directories are not represented.
- Display.FormatSize: the printed decimals are represented by their number; rounding to them is not.
- Migrator.Migrator.MigrateTo: the migration engine's own bookkeeping table is the `version` field; rolling back is not used by the source.
- Database.Oidc.Clients: NULL in columns other than the legacy URI is not represented.
- Access.ExternalAddress.Update: the outside services are their answers; the answers do not change between the probe and the publication.
- The endless loops around the modelled rounds (the worker's, the watcher's and the scheduler's) only sleep and repeat.
- HTTP handlers, authentication, certificates, the relay, snapd, service management and the front end call systems that are not visible here.
- Free-space checks, disk usage and hooks are calls that succeed or fail; the numbers are not represented.
