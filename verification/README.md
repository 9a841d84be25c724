# mybtrfs: a verified model

A Dafny model of mybtrfs, a tool that snapshots btrfs subvolumes, sends them to a backup target, and
prunes both sides by a retention policy. `dafny verify dfyconfig.toml` checks everything.

| files | what they model |
|---|---|
| `Calendar`, `Retention` | the retention scheduler: calendar arithmetic, deltas, the five-stage cascade over ordered maps |
| `RetentionLaws` | what the cascade means: the deltas are differences of calendar periods, and the cascade is the flat rule "oldest entry of every period still in range" |
| `RetentionHistory`, `RetentionTheorems`, `DatedHistories` | what that implies over whole histories, of entries and of the subvolumes a directory lists: path independence, idempotence, bounds, conservation, monotonicity |
| `Model`, `Lineage`, `Parent`, `SendCommand`, `Safety` | the relationship graph and its indexes, the walk over possibly cyclic `parent_uuid` data, parent selection and the command line it becomes, the safety anchors |
| `Service`, `PortLaws`, `ServiceLaws`, `ServiceRuns`, `ServiceDrain` | the run, resume and prune state machine: what its ports do, what survives every prune and every failure, the unbroken incremental chain, the drained backlog |
| `Pipeline`, `PipelineLaws` | the process pipelines `pipe` and `pipe3` as a step system |
| `Restore` | restore over a tree of files, with a failure possible at every port call |
| `RawStream` | raw stream targets: publication, listing, deletion, and the codec stages |
| `Decimal`, `Naming`, `PolicyStrings`, `DatedSnapshots` | names and policy strings as printers and parsers that undo each other, and how names become dated entries |
| `Inventory` | the inventory's partition and counts |
| `Wrappers`, `Sequences` | shared shapes: options, results, filters, the stable sort |

How the parts are stated:

- Code that changes state is written as methods and classes. `Service` gives each operation a
  specification function (`RunStep`, `ResumeStep`, `PruneBothStep`, ...), the methods are proved equal
  to it, and the theorems are about the functions. `Restore.Machine`, `RawStream.RawTarget` and the
  scheduler's methods state their results in their own contracts.
- A failure at any point is a budget: `Ports.deletes` is the number of deletions that succeed before
  one fails, `Restore.Machine.budget` the number of port calls, `RawTarget.budget` the number of file
  operations. A statement for every budget holds at every point the operation can break off at.
- What the environment answers is data: the ids and uuids the kernel assigns, what a transfer leaves
  behind, the clock, the listings. Freshness and uniqueness are predicates named where they are needed
  (`Healthy`, `FreshPorts`, `UniqueIds`).

Findings, each stated in Dafny:

- The cascade is not always the flat rule "oldest entry of every period still in range": truncation
  toward zero merges the next period into the current one. `RetentionLaws.HorizonIsExact` says for every
  `now` up to where it is: to the end of today if `now` has no fraction of a second, else to the end of
  its hour. `NextHourBreaksTheFlatRule` and `TomorrowBreaksTheFlatRule` say that, beside an entry of the
  current hour, any entry of the next one, or of tomorrow's first, is deleted under some policy although
  the flat rule keeps it; `HoursAreExact` and `DaysAreExact` say when the deltas are the calendar
  differences.
- After a failed or refused receive the transfer adapter deletes whatever garbled subvolume it finds at
  the receive path. A subvolume made by an earlier restore looks exactly like that, so a transfer back
  that is staged at its path deletes it, and a destination moved aside to the staging path is lost.
  `Restore.Endangered` says so in terms of the files, the backup and the destination, before the call;
  `Restore.Machine.Restore` promises that nothing is lost unless it holds, and that the staging path is
  deleted if it does and the restore gets that far. `ReceiveKeepsIff` is the same for one receive;
  `RestoredVolumeIsLost` is a concrete case.
- A transfer back onto a path that has the backup's own name is staged at the destination itself, and
  then always fails (`Restore.Machine.Produce`, `Restore.Machine.Restore`).
- The raw `send_receive` cleans up file by file and ignores what fails. With every removal working, an
  error restores the directory exactly when none of the backup's three files existed before
  (`RawStream.RawTarget.SendReceive`): a failed resend of an existing leaf deletes the published backup.
- Publication of a raw backup is atomic only if the directory's uuid file was there before: on a first
  transfer the listing is an error while the uuid file is half written, and a transfer that breaks off
  at that point leaves a directory on which every later transfer fails. `RawTarget.SendReceive` states
  both, and the condition with "if and only if".
- A raw sidecar whose stream is gone can not be deleted: `delete` fails on it every time
  (`RawStream.RawTarget.Delete`).
- For a backup path without a file name the transfer adapter refuses only after the pipeline has run
  (`Restore.Machine.SendReceive`).
- Without the drain threads, or waiting for the producer first, the pipelines can deadlock, whatever a
  pipe holds (`PipelineLaws.NoDrainDeadlocks`, `ProducerFirstDeadlocks`), and a consumer that stops
  early lets the call return before the bridge's final callback (`EarlyExitSkipsTheReport`).
- `next_free_name` returns a name that is taken exactly when some leaf carries the highest counter and
  `base_0` is taken as well: in a release build the increment wraps to 0 there
  (`Naming.NextNameIsFree`).

## Model

| member | source | states |
|---|---|---|
| Retention.ComputeDeltas | crates/domain/src/retention.rs:325-373 | the running corrections and the month borrow compute the deltas of the hour, the policy's day and week, and the month and year of the week's first day |
| Retention.AnchoredMonth | crates/domain/src/retention.rs:349-358 | the month borrow lands on the calendar month and year of the day the week began |
| Retention.RollUp | crates/domain/src/retention.rs:272-299 | one stage: marks the covered representatives and hands on one representative per coarser period, the oldest |
| Retention.FirstHours | crates/domain/src/retention.rs:257-267 | the floor, the newest under `Latest`, and the first entry of every hour |
| Retention.Cascade | crates/domain/src/retention.rs:254-304 | the five stages together flag exactly the entries kept by the floor or by some tier |
| Retention.ScheduleEntries | crates/domain/src/retention.rs:240-319 | the whole scheduler, loops and maps included, returns the verdict on the sorted input |
| RetentionLaws.HoursAreExact | crates/domain/src/retention.rs:360-360 | the hour delta is the difference of the hour indices if and only if the entry is not later than the hour of `now`, or `now` has no fraction of a second |
| RetentionLaws.DaysAreExact | crates/domain/src/retention.rs:361-361 | the day delta is the difference of the day indices if and only if the entry is not after today, or `now` is in the midnight hour with no fraction |
| RetentionLaws.DeltasArePeriods | crates/domain/src/retention.rs:325-373 | up to the horizon every delta is the distance of calendar periods, months and years taken at the week's start; only the hours of later today are negative |
| RetentionLaws.PeriodMonotone | crates/domain/src/retention.rs:325-373 | a later reading is never in an earlier period: the deltas are antitone in the entry and monotone in `now` |
| RetentionLaws.PeriodsNest | crates/domain/src/retention.rs:269-299 | same hour implies same day, same week, same month, same year |
| RetentionLaws.TimelineDeltas | crates/domain/src/retention.rs:245-252 | along the sorted list every delta falls, and the buckets are nested |
| RetentionLaws.RepIsFirst | crates/domain/src/retention.rs:269-299 | each stage's representative of a period is the first entry of that period |
| RetentionLaws.CascadeIsFlat | crates/domain/src/retention.rs:245-304 | up to the horizon, an entry is preserved if and only if the floor covers it, or it is the newest under `Latest`, or for some tier it is the oldest of its period and the tier keeps all, or counts `n > 0` and the period is at most `n` before that of `now` |
| RetentionLaws.HorizonIsExact | crates/domain/src/retention.rs:360-363 | the cascade follows the flat rule on all timelines up to a given hour, for all policies, if and only if that hour is not after the horizon: the end of today if `now` has no fraction of a second, else its hour |
| RetentionLaws.NextHourBreaksTheFlatRule | crates/domain/src/retention.rs:360-360 | if `now` has a fraction of a second: with an entry of this hour and one of the next, an hourly tier keeps the second by the flat rule and deletes it in the cascade |
| RetentionLaws.TomorrowBreaksTheFlatRule | crates/domain/src/retention.rs:361-362 | if `now` has no fraction of a second: with an entry of this hour and one of tomorrow's first hour, a weekly tier keeps the second by the flat rule and deletes it in the cascade |
| RetentionHistory.PrunesCompose | crates/domain/src/retention.rs:240-319 | deleting some of the older entries, none that the policy keeps at that time, does not change what a later prune of everything keeps |
| RetentionTheorems.VerdictConserves | crates/domain/src/retention.rs:306-318 | preserve and delete are complementary parts of the sorted input, in order: interleaved by the flags they give it back |
| RetentionTheorems.GenerosityGrows | crates/domain/src/retention.rs:269-304 | raising any count or floor only grows what is preserved, because roll-up ignores what a tier keeps |
| RetentionTheorems.VerdictBounded | crates/domain/src/retention.rs:376-400 | with no floor and counting tiers, at most the sum of `n + 1` over the tiers with `n > 0` is kept of entries not after the hour of `now` |
| RetentionTheorems.BoundIsReached | crates/domain/src/retention.rs:376-382 | the bound is reached: of one entry in each of the last `n + 1` periods a tier of `n > 0` alone deletes none, for every unit |
| RetentionTheorems.OnePeriodMore | crates/domain/src/retention.rs:376-382 | an entry of an older period is not kept by that tier |
| RetentionTheorems.EarlierPrunesVanish | crates/domain/src/retention.rs:240-319 | whatever earlier prunes deleted among what the policy did not keep at the time, a later prune preserves exactly what it would have preserved of everything ever taken |
| RetentionTheorems.PathIndependence | crates/domain/src/retention.rs:240-319 | pruning after every round leaves exactly what pruning once at the end would leave, if later rounds do not sort before earlier ones; equal time stamps are allowed |
| RetentionTheorems.Idempotence | crates/domain/src/retention.rs:240-319 | pruning again at the same moment deletes nothing |
| DatedHistories.PathIndependence | crates/application/src/retention.rs:40-69 | for the subvolumes of a directory, whose names give the dates, foreign names skipped: whatever anchors the earlier prunes had and wherever their deletions broke off, of what is listed in the last round the policy keeps exactly what it would keep of everything ever taken |
| DatedHistories.LeftIsListed | crates/application/src/retention.rs:40-69 | what a directory lists after a prune of all it lists, with any anchors and any number of deletions that succeed, is what the histories take it to be |
| Service.DatedEntryOf | crates/application/src/retention.rs:76-101 | every dated entry's wall-clock reading lies the same fixed offset from its instant |
| DatedSnapshots.OrderedAlike | crates/application/src/retention.rs:76-101 | two dated subvolumes are ordered by instant as by wall clock |
| DatedSnapshots.EntriesFormTimeline | crates/application/src/retention.rs:51-56 | the sorted entries of any candidates form a timeline, which is what the scheduler's theorems ask for |
| Sequences.StableSortKeepsTies | crates/domain/src/retention.rs:246-246 | entries that compare equal keep their order of arrival |
| DatedSnapshots.PruneFollowsFlatRule | crates/application/src/retention.rs:40-69 | a prune of subvolumes none of which is dated after the horizon decides by the flat rule |
| DatedSnapshots.SortedByCreation | crates/domain/src/retention.rs:245-246 | the next snapshot with a time stamp sorts after every one with that time stamp in its directory, whatever else was created or deleted there before |
| Model.Build | crates/domain/src/model.rs:145-174 | fails if and only if two subvolumes share a uuid, and then names a first repeat; otherwise all three indexes describe the list |
| Model.RelationshipGraph.Get | crates/domain/src/model.rs:177-180 | the uuid index finds what a linear scan finds |
| Model.RelationshipGraph.ChildrenOf | crates/domain/src/model.rs:183-186 | the parent index equals a filter over all subvolumes, in order |
| Model.RelationshipGraph.ReceivedFrom | crates/domain/src/model.rs:189-192 | the received index equals a filter over all subvolumes, in order |
| Lineage.Climb | crates/domain/src/parent.rs:79-95 | the climb stops, cycles or not, at the chain top |
| Lineage.Related | crates/domain/src/parent.rs:78-129 | terminates on every graph and returns each id once: exactly the other read-only subvolumes reachable by child steps from the chain top's uuid or parent uuid |
| Lineage.SiblingsAreRelated | crates/domain/src/parent.rs:105-114 | snapshots of one source are related although the source itself is not in the list |
| Lineage.ParentIsRelated | crates/domain/src/parent.rs:78-129 | an eligible subvolume whose uuid is the snapshot's parent uuid is related, if it has a parent uuid itself |
| Lineage.FamilyIsRelated | crates/domain/src/parent.rs:79-129 | every read-only descendant of an ancestor up to 4096 generations back is related, whatever else the graph holds |
| Parent.CorrelatesAreCopies | crates/domain/src/parent.rs:58-72 | the correlation test finds exactly the read-only subvolumes that share an identity by reception: received from it, it from them, or both from a third |
| Parent.DedupById | crates/domain/src/parent.rs:211-212 | dedup of an id-sorted list keeps one element for every id |
| Parent.TargetCorrelates | crates/domain/src/parent.rs:196-214 | the three lookups, retain, sort and dedup give the brute-force filter of the correlation test, each id once |
| Parent.ParentPosition | crates/domain/src/parent.rs:182-185 | the position found holds the newest candidate not newer than the snapshot, else the oldest of all |
| Parent.BestParent | crates/domain/src/parent.rs:138-192 | refuses exactly a strict request when nothing may serve; otherwise the parent is the one with the greatest (`cgen`, id) among those that may serve and are not newer than the snapshot, else the one with the smallest; parent and clone sources together are all that may serve, as often as listed, the clone sources newest first; what may serve is another read-only subvolume of the source on the snapshot's filesystem with a copy on the target, in strict mode a related one |
| Parent.ChoiceAnswers | crates/domain/src/parent.rs:138-192 | the same about the function the orchestration is specified by |
| SendCommand.BuildSendArgs | crates/adapters/src/btrfs_cli.rs:253-271 | the loop builds the specified command line |
| SendCommand.SendArgsSay | crates/adapters/src/btrfs_cli.rs:250-271 | read as `btrfs send` reads its options, the command line names this parent, these clone sources in this order, and this subvolume to send |
| Safety.Enforce | crates/domain/src/safety.rs:43-65 | the in-place extension of the preserve list is the specified anchoring |
| Safety.EnforceIsMonotone | crates/domain/src/safety.rs:41-65 | anchors only move subvolumes from delete to preserve, lose none, and rescue exactly the named ids, or everything |
| Safety.LatestCommonPair | crates/domain/src/safety.rs:71-88 | the sorted search with early return finds the latest common snapshot with all its copies |
| Safety.LatestCommonIsNewest | crates/domain/src/safety.rs:68-88 | there is a pair whenever any snapshot has a copy, and among the snapshots with a copy it has the greatest (`cgen`, id) |
| Service.RetentionService.DeleteAll | crates/application/src/retention.rs:64-67 | the delete loop removes its victims in order and stops at the first failure |
| Service.RetentionService.Prune | crates/application/src/retention.rs:40-69 | schedule, anchors and fail-fast deletion, for every number of deletions that succeed |
| Service.BackupService.Run | crates/application/src/backup.rs:193-271 | the full cycle does what the run specification says, failures and the command line of the send included; the clock is read for the name and again for each of the two prunes |
| Service.BackupService.Resume | crates/application/src/backup.rs:283-346 | likewise for resume |
| Service.BackupService.FindDue | crates/application/src/backup.rs:292-308 | the filter chain and `max_by` find the newest snapshot of the basename without a copy |
| Service.BackupService.PruneBoth | crates/application/src/backup.rs:388-439 | builds the anchors, prunes the backups, then the snapshots |
| Service.BackupService.ChooseParent | crates/application/src/backup.rs:448-464 | builds both graphs and makes the specified choice of parent and clone sources, with the errors for duplicate uuids and a strict refusal |
| Service.ParentChoiceMeans | crates/application/src/backup.rs:448-464 | a duplicate uuid or a strict refusal is an error; otherwise a full send if nothing may serve or the mode is `No`, else the best parent and all others as clone sources |
| Service.PruneService.Prune | crates/application/src/prune.rs:72-152 | the second implementation has the same specification as the first without seeds |
| Service.ListsDirectory | crates/application/src/backup.rs:484-497 | a listing holds exactly the subvolumes whose path on the host is the directory's and one name more |
| PortLaws.SnapshotIsNamed | crates/application/src/backup.rs:155-175 | the name of a new snapshot reads back as the basename and the moment, with a counter beyond those of all listed snapshots of that name, unless the counters are used up |
| PortLaws.SnapshotOutcome | crates/adapters/src/btrfs_cli.rs:195-214 | making a snapshot succeeds if and only if the path is free and the new subvolume shows as read-only; what a failed call leaves behind, and where |
| PortLaws.TransferOutcome | crates/adapters/src/btrfs_cli.rs:243-327 | a transfer succeeds if and only if the copy arrives whole at a free path and the snapshot has a uuid; exactly which subvolume can be lost at a taken path, and what a broken receive leaves |
| ServiceLaws.VictimsAreFair | crates/application/src/retention.rs:51-67 | only candidates with a parsable name that no anchor names are ever deleted |
| ServiceLaws.PruneIsExact | crates/application/src/retention.rs:40-69 | a prune succeeds if and only if every scheduled deletion does, and then exactly the scheduled subvolumes are gone |
| ServiceLaws.LatestPairSurvives | crates/application/src/backup.rs:388-439 | the latest common snapshot and all its copies survive every prune, for every policy and every failure point |
| ServiceLaws.EmptyTargetSparesSource | crates/application/src/backup.rs:406-418 | when the target lists no backup, no source snapshot is deleted |
| ServiceLaws.ForeignNamesSurvive | crates/application/src/retention.rs:71-81 | a subvolume outside the naming scheme is never deleted |
| ServiceRuns.PairIsStable | crates/application/src/prune.rs:72-152 | after a prune, wherever it stopped, the latest pair of the listing is the same pair with the same copies |
| ServiceRuns.RunLeavesBoth | crates/application/src/backup.rs:193-271 | a run that reports success leaves its new snapshot on the source and the matching backup on the target |
| ServiceRuns.RunSendsIncrementally | crates/application/src/backup.rs:193-271 | on linked directories a run in mode `Yes` sends its snapshot relative to the best of the other listed snapshots with a copy among the listed backups, with all the rest of them as clone sources, and the command line says so, whatever fails afterwards |
| ServiceRuns.ResumeSendsIncrementally | crates/application/src/backup.rs:283-346 | so does a resume with what it sends |
| ServiceRuns.LinkedForever | crates/application/src/backup.rs:193-381 | any interleaving of runs, resumes and prunes, with any policies and failures, leaves a snapshot with a copy |
| ServiceRuns.ChainContinuity | crates/application/src/backup.rs:193-464 | once one run has succeeded, after any interleaving the next run or resume in mode `Yes` never falls back to a full send: what it sends is sent relative to the best listed snapshot with a copy, with all others as clone sources |
| ServiceRuns.DueWaits | crates/application/src/backup.rs:299-308 | what a resume sends is named after the basename, has no copy, and is the newest such snapshot; it sends nothing only if there is none |
| ServiceDrain.SendsNewest | crates/application/src/backup.rs:297-325 | under keep-all policies a successful resume sends the newest waiting snapshot and changes nothing else |
| ServiceDrain.NothingDue | crates/application/src/backup.rs:326-346 | with nothing waiting it changes nothing and reports no transfer |
| ServiceDrain.ResumeSucceeds | crates/application/src/backup.rs:283-346 | outside strict mode it succeeds if and only if there is nothing to send or the transfer succeeds |
| ServiceDrain.ResumeDrains | crates/application/src/backup.rs:283-346 | as many successful resumes as there were uncopied snapshots send each exactly once, newest first by generation and id, and leave none |
| Pipeline.InvKept | crates/adapters/src/command.rs:97-342 | every step of processes, bridge, drain threads and parent keeps the pipeline invariant |
| PipelineLaws.ReachableIsOk | crates/adapters/src/command.rs:97-342 | every state reachable from a freshly started pipeline satisfies the invariant |
| PipelineLaws.Progress | crates/adapters/src/command.rs:105-181 | until the call has returned some step is possible: no deadlock, whatever each process blocks on |
| PipelineLaws.RunsReturn | crates/adapters/src/command.rs:97-342 | every run ends, and it can end only where the call has returned |
| PipelineLaws.InOrder | crates/adapters/src/command.rs:127-135 | at all times a reader has taken an initial part of what was sent, also across the bridge |
| PipelineLaws.BridgeDelivered | crates/adapters/src/command.rs:119-158 | once the bridge's reader has seen end of file it holds every byte, and the final callback has happened and carried their number |
| PipelineLaws.ReportsTell | crates/adapters/src/command.rs:119-158 | every callback of the bridge carries exactly the number of bytes it has passed on so far |
| PipelineLaws.NothingBehindTheReader | crates/adapters/src/command.rs:127-158 | nobody writes into a pipe whose reader has ended; a process that dies of it has failed, the bridge goes on to its final callback |
| PipelineLaws.RootCause | crates/adapters/src/command.rs:179-198 | the call returns after every process; it succeeds iff all did, else it names the first failure from the producer down with its whole standard error |
| PipelineLaws.NoDrainDeadlocks | crates/adapters/src/command.rs:171-177 | without the drain threads, for every pipe capacity, a reachable state is stuck |
| PipelineLaws.ProducerFirstDeadlocks | crates/adapters/src/command.rs:309-313 | waiting for the producer first, for every pipe capacity and with or without drain threads, a reachable state is stuck |
| PipelineLaws.EarlyExitSkipsTheReport | crates/adapters/src/command.rs:148-158 | if the reader stops early the call can return successfully before the final callback, for every pipe capacity |
| Restore.AsideIsUnique | crates/application/src/restore.rs:319-338 | there is one move-aside path, so a dry run names the one a real run takes |
| Restore.AsideNames | crates/application/src/restore.rs:342-353 | the move-aside paths are `.broken` and `.broken.N` behind the destination's name |
| Restore.StagingIsBeside | crates/application/src/restore.rs:164-225 | a transfer back is staged beside the destination under the backup's own name, and is made exactly if the destination is not under the mount point of the backup's filesystem |
| Restore.ReceiveOutcome | crates/adapters/src/btrfs_cli.rs:243-327 | a receive succeeds if and only if the path was free, the pipeline worked and something read-only and received arrived and was verified; exactly what it leaves |
| Restore.MakeWritableOutcome | crates/adapters/src/btrfs_cli.rs:216-240 | where the writable snapshot is made and when the call succeeds, by what stands at the destination |
| Restore.RemoveTakesTheTree | crates/application/src/restore.rs:256-266 | a deletion takes away a whole tree and nothing else |
| Restore.RenameKeeps | crates/adapters/src/local_fs.rs:38-40 | moving a tree to a free path keeps the whole tree and everything else |
| Restore.ReceiveKeepsIff | crates/adapters/src/btrfs_cli.rs:291-330 | a receive keeps everything that was there if and only if the path was not taken by something garbled-looking, or its deletion fails |
| Restore.RestoredVolumeIsLost | crates/adapters/src/btrfs_cli.rs:304-315 | an earlier restore's subvolume at the receive path is deleted |
| Restore.Machine.MoveAsideTarget | crates/application/src/restore.rs:319-338 | the suffix search ends on the first free name, for fewer paths than the counter counts |
| Restore.Machine.Produce | crates/application/src/restore.rs:215-266 | from the backup to a verified subvolume: the staging copy goes only after a clean result; staged at the destination itself it fails |
| Restore.Machine.Restore | crates/application/src/restore.rs:148-281 | for a failure at any call: unless the destination is endangered, which can be told before the call, the original is whole at the destination or at the move-aside path and nothing else is touched; if it is endangered and the restore gets there, the staging path is deleted; nothing moved means nothing changed; it succeeds when the ports work |
| RawStream.NamesApart | crates/adapters/src/raw_stream.rs:572-575 | stream, sidecar, temporary sidecar and uuid file have different names and only the sidecar can be listed |
| RawStream.SidecarIsListed | crates/adapters/src/raw_stream.rs:390-404 | a sidecar is listed unless its leaf ends in `.tmp` |
| RawStream.RestoreInvertsSend | crates/adapters/src/raw_stream.rs:112-198 | the stages restore picks from the sidecar invert the stages send used, for every codec, with or without encryption, for all streams |
| RawStream.RestoreRefuses | crates/adapters/src/raw_stream.rs:125-172 | restore understands exactly the documented words, and asks for a passphrase exactly when the record says it is encrypted |
| RawStream.FileNames | crates/adapters/src/raw_stream.rs:352-367 | the extensions of the stream by codec and encryption, and of the sidecar |
| RawStream.SidecarNamesOnly | crates/adapters/src/raw_stream.rs:390-404 | what the listing takes for a sidecar is a leaf followed by `.info`, the leaf not ending in `.tmp` |
| RawStream.RawTarget.List | crates/adapters/src/raw_stream.rs:386-451 | the scan returns exactly the readable sidecars, oldest first by their time of creation, and the two error cases |
| RawStream.RawTarget.SendReceive | crates/adapters/src/raw_stream.rs:556-774 | the published record carries the stream's own new uuid, names the snapshot, is listed as a read-only backup of its name that counts as its copy, and its words give the stream back with the same passphrase; the send is started with this parent and these clone sources; for a fresh leaf every listing before the one rename that publishes the entry with its whole, non-empty stream is the old one if and only if the uuid file was there before (or nothing could be written at all); without it readers meet the half-written uuid file, and an unreadable uuid file fails every transfer without a change; an error leaves all other files alone and removes each own file whose removal works, which restores the directory if and only if the leaf was fresh; it succeeds when the pipeline delivers and the file operations work |
| RawStream.RawTarget.Delete | crates/adapters/src/raw_stream.rs:492-537 | removes the stream and the sidecar and touches nothing else at any step; a sidecar without its stream stays |
| RawStream.EntryIsACopy | crates/adapters/src/raw_stream.rs:287-316 | an entry that records the snapshot's name and uuid is listed as a backup of that name and counts as a copy of it |
| Naming.CaptureSound | crates/domain/src/naming.rs:106-122 | what the matcher captures is how the text is written in the name grammar |
| Naming.CaptureComplete | crates/domain/src/naming.rs:106-122 | the matcher recovers every text the grammar can write |
| Naming.CapturesUnique | crates/domain/src/naming.rs:106-122 | a text has at most one reading in the name grammar |
| Naming.NameRoundTrip | crates/domain/src/naming.rs:56-164 | parsing a made and counted name returns basename, counter, offset and the time truncated to the format |
| Naming.ParseNameMeans | crates/domain/src/naming.rs:106-164 | a text is a name in the scheme if and only if the grammar can write it with a valid date, time and offset, and it means what its groups say; a counter that does not fit counts as 0 |
| Naming.OffsetIsRounded | crates/domain/src/naming.rs:56-65 | a printed offset is read as the nearest whole minute, half a minute away from zero, for every offset that this leaves below a day |
| Naming.NextNameIsFree | crates/domain/src/naming.rs:83-103 | the next name is free if and only if no name of the base carries the last counter or the wrapped name is free |
| Naming.NextCountsOn | crates/domain/src/naming.rs:83-103 | below the highest counter, the next name has a larger counter than any that is there |
| Naming.RepeatedNames | crates/domain/src/naming.rs:83-103 | repeated use from an empty directory yields the base, then `_1`, `_2`, and so on |
| Decimal.ParsePrinted | crates/domain/src/retention.rs:183-186 | a printed number parses back exactly when it fits 32 bits |
| PolicyStrings.Parse | crates/domain/src/retention.rs:128-154 | succeeds if and only if the floor and every token are valid and no unit repeats; the tiers are what the tokens say; an error names the first bad token |
| PolicyStrings.FloorMeans | crates/domain/src/retention.rs:108-117 | exactly `all`, `latest`, `no` and numbers with a unit are read as floors, each as what it says, apart from white space around them |
| PolicyStrings.TierMeans | crates/domain/src/retention.rs:158-202 | exactly `*` or a number with a unit letter is read as a tier, each as what it says |
| PolicyStrings.ParseInvertsPrint | crates/domain/src/retention.rs:120-154 | a policy written with its floor and its tiers in any order, with any white space around and between them, is read as that policy |
| PolicyStrings.AllDeletesNothing | crates/domain/src/retention.rs:110-110 | the floor `all` makes the scheduler delete nothing, whatever the schedule says |
| PolicyStrings.NoKeepsNothing | crates/domain/src/retention.rs:112-133 | the floor `no` with the schedule `no` makes it keep nothing |
| PolicyStrings.ParseIgnoresOrder | crates/domain/src/retention.rs:134-152 | the order and spacing of the tokens do not matter |
| PolicyStrings.TokenRoundTrip | crates/domain/src/retention.rs:189-202 | a printed tier parses back to its unit and count, or not at all when it does not fit |
| PolicyStrings.WindowRoundTrip | crates/domain/src/retention.rs:108-117 | so does a printed floor window |
| PolicyStrings.WordsOfJoin | crates/cli/src/cli.rs:638-654 | joined words split back into themselves |
| PolicyStrings.EntryPolicy | crates/cli/src/cli.rs:619-655 | printing any subset of tier counts and parsing the text gives exactly those counts, an error exactly when one does not fit or the floor is malformed, the floor `all` when none is set, and the fallback when nothing is set |
| Inventory.List | crates/application/src/inventory.rs:93-131 | pairs every snapshot with all its copies and collects incomplete and orphaned backups |
| Inventory.ManagedAre | crates/application/src/inventory.rs:159-180 | managed are exactly the subvolumes directly in the directory whose names follow the naming scheme |
| Inventory.ClassesAre | crates/application/src/inventory.rs:101-130 | incomplete is what is writable and was received from nowhere, correlated what holds the content of some snapshot, orphaned the rest |
| Inventory.CountAll | crates/application/src/inventory.rs:137-154 | counts what the inventory lists |
| Inventory.OrphansAreReal | crates/application/src/inventory.rs:121-124 | with unique ids the orphans are exactly the complete backups that are a copy of no snapshot |
| Inventory.ThreeWays | crates/application/src/inventory.rs:101-130 | every managed backup is exactly one of correlated, orphaned and incomplete |
| Inventory.StatsCountAll | crates/application/src/inventory.rs:137-154 | with unique ids the total counts every managed backup once |

## Left out

- RetentionLaws.CascadeIsFlat: stated for `hour_of_day` 0, the only value the program sets, and up to the horizon, beyond which it is false.
- RetentionTheorems.PathIndependence: `hour_of_day` 0, one fixed reference offset, no entry dated after its round's prune, and no entry sorting before one of an earlier round.
- RetentionTheorems.EarlierPrunesVanish: the same.
- DatedHistories.PathIndependence: the same, for a directory that lists no path twice.
- RetentionTheorems.VerdictBounded: `hour_of_day` 0.
- Service.DatedEntryOf: chrono's range limits and leap seconds are not modelled, so no conversion overflows.
- Lineage.Related: the list is stated as a set of reported subvolumes with unique ids; the order of the walk is not.
- ServiceRuns.ChainContinuity: source and target are distinct filesystems with unique ids, uuids and paths, and nothing else changes them in between.
- ServiceDrain.ResumeDrains: for waiting snapshots that are read-only, have a uuid, and were not received from one another.
- PortLaws.TransferOutcome: whether the copy's parent link fits the kind of send, which the adapter checks last, is part of the environment's answer.
- Restore.ReceiveOutcome: the same.
- Naming.OffsetIsRounded: chrono's rounding is taken as documented.
- Restore.Machine.MoveAsideTarget: with as many existing paths as the counter has values the search would not end; fewer are required.
- RawStream.RawTarget.SendReceive: the sidecar's text is taken as the record it parses to; whether it parses back is an answer of the environment.
- PipelineLaws.RunsReturn: a process makes finitely many picks; one that computes for ever is not modelled, nor is a producer that reads the terminal.
- PipelineLaws.RootCause: trimming and lossy decoding of the error text.
- Naming.NameRoundTrip: whole-minute offsets and years 0 to 9999, which is what the formats can write.
- Transfer speed and the time between progress callbacks: floating point and clocks. A callback may or may not follow each chunk.
- Reads that fail without an effect in `run`, `resume` and `prune`: they only end the operation early in a state the model already has.
- Per-basename scheduling: the code schedules a directory's whole set together, and so does the model.
- Crash safety of raw `delete`, and dependency closure of raw incrementals: the code does not promise them.
- The raw entry's 64-bit id derived from its uuid: taken as any number.
- Uuid text parsing, TOML, regular-expression and process libraries, mount tables, locks, journal, progress display, status, diff, drive discovery, ssh, and the command line apart from `entry_policy`.
