# dv-backup: a verified model

dv-backup copies Docker volumes into one archive file and back. This project models it as a transactional state machine
over a Docker host and a directory, and proves what its runs promise, for every schedule of failures and every length of
the volume and container lists.

**The world.** `Docker.Host` holds volumes with their settings and contents, containers with their states, the trace of
all requests so far, and a schedule of faults: the i-th request meets `faults[i]`, which can make it fail, make a helper
exit with any code, and decide what a failed helper leaves behind. `Disk.Fs` does the same for file operations, down to
the number of bytes a failed write still wrote; it keeps a log of the operations and whether they went well. Cancellation is such a failure, plus a flag for a context that is done
before the start. Volume contents are maps from path to bytes; unpacking overlays them, so clearing first matters. A
volume that a container may be writing to (one that is in use and mounts it) reads back as anything and keeps anything:
that the containers were stopped in time is therefore needed to prove the round trip.

**The foreign formats.** tar, zstd, SHA-256, YAML, and the outer tar headers are the fields of a `Codecs.Codec`, arbitrary
functions bound by the laws in `Codecs.Lawful`: decoding inverts encoding, digests have 64 characters, headers that are
written span whole blocks and announce regular entries, and a header cut short is no header. A header that is read may
be of any type: what it states as its size and how much data follows it are separate. How a stream is cut into reads is
arbitrary, anew for each request. `CodecExists.LawsAreConsistent` shows that these laws can be met.

**Two layers.** Each operation is a class method or a loop as in the source, proved equal to a specification function
(`...Spec`) of the old state; the theorems are lemmas about these functions.

| Files | Part of the program |
|---|---|
| `Docker`, `Disk`, `Traces` | the engine, the directory, and what a trace of requests means |
| `Sorting`, `Selection`, `Manifests`, `SizeText`, `TailBuffer` | small kernels |
| `Stopper` | stopping containers and starting them again |
| `Archive`, `ArchiveWriter`, `Codecs`, `CodecExists` | the outer archive: printing, parsing, writing on a failing disk |
| `Backup`, `BackupPromises`, `BackupDuties` | whole backups: what they keep, when they succeed, what they must and may not do |
| `Restore`, `RestorePromises`, `RestoreDuties` | the same for restores |
| `EndToEnd`, `Cli` | backup on one host and restore on another; exit codes |
| `HelperProtocol`, `HelperOutcome`, `PipeProtocol` | the concurrent protocols, as interleaved steps |
| `Refinement` | every interleaving ends in a way that the sequential model allows |
| `ShellWords`, `RetryLine` | the retry command, the shell that reads it, and the program that reads it after the shell |

The main results are `EndToEnd.RoundTrip`, `EndToEnd.DisasterRecovery`, `RestorePromises.RetryCompletes`,
`RestorePromises.UnforcedIsHarmless`, `Backup.BackupRestarts` and `Restore.RestoreRestarts`, `Backup.BackupIsAtomic`,
`BackupPromises.AnsweredBackup`, `Archive.OpenPrefix`, `HelperProtocol.ReturnIsSafe`, `HelperProtocol.EndingRunReturns`,
`PipeProtocol.RunsEnd`, `PipeProtocol.StoredMeansAll`, `HelperOutcome.FailsExactlyWithCause`,
`Refinement.HelperRunRefines`, `Refinement.BackupVolumeRefines`, `RestoreDuties.AnsweredRestore` and
`RetryLine.RetryLineMeansRetry`.

**Where the code and its documentation differ.** The repository's README promises that a backup never overwrites an
archive. `NewWriter` takes every error of Stat for "does not exist", and the archive is put in place with a rename; so an
existing archive is replaced if that Stat fails for another reason. `Backup.BackupIsAtomic` proves that this is the only
way; `BackupPromises.ReplacedExactlyIfStatFails` proves that, with everything else in order, it happens if and only if
the Stat fails; `BackupPromises.FailingStatReplacesArchive` is such a run.

The retry command that a restore prints is meant to repeat exactly the rest of the job. `RetryLine.RetryLineMeansRetry`
proves that it does if and only if the archive's name does not look like a flag (a dash and more), and the first run
used another image than the default or the environment variable `DV_BACKUP_IMAGE` names no other: the command leaves the flag out for the
default image, and the environment then decides.

**What Open does not check.** The reader records the size that a tar header states, whatever the type of the entry. For a
link or a directory Go's archive/tar skips no data, and for a sparse file less than stated; so `Open` accepts a file in
which, say, a symbolic link named `volumes/a.tar.zst` with a non-zero size has a section that overlaps the next entry or
goes beyond the end of the file. `Archive.SafeExactlyIfHonest` gives the exact condition, `Archive.OverstatedBreaks` the
file. The digests in the manifest still protect the contents. Archives that dv-backup wrote are never affected
(`Archive.OpenPrefix`). An archive cut inside the padding of an entry reads like one that ends there; the same theorem
proves that this is harmless, because the manifest comes after all volumes.

**Assumptions on the host.** `Sound`: ids and names are unique and the maps agree. `MountsExist`: no in-use container
mounts a volume that does not exist; a restore stops nobody for a volume it creates.

## Model

| member | source | states |
|---|---|---|
| Sorting.SortIsStable | internal/stopper/stopper.go:87-98 | the sort used for restarts (and for names) gives an ascending permutation in which ties keep their order |
| Sorting.StableSortIsUnique | internal/stopper/stopper.go:87-98 | ascending, permuted and stable determine the result: any stable sort gives the same list |
| Sorting.LexMeans | internal/stopper/stopper.go:31-48 | the order of names in plain terms: a beginning comes first, else the first difference decides |
| Sorting.StableOrder | internal/stopper/stopper.go:87-98 | in a stable sort two elements that tie stand in the order they had |
| Selection.AnonymousMeans | internal/selection/selection.go:16-21 | anonymous volumes in plain terms: labelled so, or named by 64 hexadecimal digits |
| Selection.NamedFacts | internal/selection/selection.go:16-33 | the named volumes are all and only those that are not anonymous, ascending by name, each once |
| Selection.Named | internal/selection/selection.go:24-33 | the filtering loop followed by the sort computes the named volumes |
| Selection.FilterFacts | internal/selection/selection.go:38-83 | a filter succeeds exactly if every requested name and project matches something (without requests: if there is anything); the result is never empty and is exactly the subsequence of wanted items; a failure names exactly the requests that match nothing |
| Selection.Filter | internal/selection/selection.go:38-83 | the loop over items with its two maps of flags refines that filter, including which requests are reported missing |
| Selection.VolumesDistinct | internal/selection/selection.go:24-91 | of volumes with distinct names exactly those are selected that are not anonymous and are asked for by name or Compose project, each once, ascending by name |
| Selection.Volumes | internal/selection/selection.go:86-91 | selecting volumes is naming, then filtering by name and compose project |
| Manifests.Validate | internal/manifest/manifest.go:90-108 | accepts exactly the lists with valid distinct names, derived paths and digests of 64 characters |
| Manifests.ValidNameMeans | internal/manifest/manifest.go:20-24 | valid names in plain terms; none contains a slash or starts with a dash or a dot |
| Manifests.Find | internal/manifest/manifest.go:111-118 | finds a volume of that name, and nothing exactly if there is none |
| Manifests.FindByIndex | internal/manifest/manifest.go:111-118 | with distinct names, looking up a volume's name gives back that volume |
| Manifests.VolumePaths | internal/archive/reader.go:90-97 | the reader accepts a volume path exactly if the writer could have made it; paths of different volumes differ and are none of the two other entries |
| Manifests.VolumeEntryIsPath | internal/archive/reader.go:90-97 | whatever entry the reader accepts as a volume is the path of a valid name |
| SizeText.FormatBytes | internal/manifest/readme.go:10-24 | for all 64-bit sizes: the divisor is the largest power of 1024 not above the size, it never overflows, and the unit index stays within the six units |
| TailBuffers.TailBuffer.Write | internal/dockerx/helper.go:35-41 | one write leaves the last max bytes of the old contents and the new bytes |
| TailBuffers.WritesKeepTheTail | internal/dockerx/helper.go:29-41 | after any sequence of writes the buffer is the last max bytes of all of them together |
| Docker.Daemon.Ask | internal/dockerx/fake.go:67-134 | a query is recorded, changes nothing else, and fails if its fault says so or the container is unknown |
| Docker.Daemon.CreateVolume | internal/dockerx/fake.go:105-114 | an existing volume stays as it is, a new one is empty; a failed request may have created it |
| Docker.Daemon.StopContainer | internal/dockerx/fake.go:137-150 | success means exited, an error means nothing changed |
| Docker.Daemon.StartContainer | internal/dockerx/fake.go:153-166 | success means running, an error means nothing changed |
| Docker.Daemon.RunHelper | internal/dockerx/fake.go:177-222 | pack, overlay, clear or look, exactly, if it succeeds on a quiet volume; otherwise any outcome, but for this volume only; a broken input stream is never a success |
| Docker.UsersMembers | internal/backup/backup.go:172-180 | the containers using a volume are all and only the non-helpers that mount it |
| Docker.WritersAreFound | internal/dockerx/dockerx.go:64-83 | the tests InUse, UsesVolume and IsHelper find exactly the containers with live processes that mount the volume and are no helpers |
| Stopper.UsersOfFacts | internal/stopper/stopper.go:31-48 | exactly the in-use non-helpers that mount one of the volumes, each id once, by name |
| Stopper.UsersOf | internal/stopper/stopper.go:31-48 | the two nested loops with their set of seen ids compute that list |
| Stopper.StopAllFacts | internal/stopper/stopper.go:52-73 | for every failure schedule: exactly the recorded containers have exited, each after one successful stop; without error nothing given is in use any more; at most one stop fails, and it is the one reported |
| Stopper.StopAllTrace | internal/stopper/stopper.go:52-73 | the requests of Stop, exactly: for each recorded container the question for its start time and the stop, in the order given; the first failure is the last request |
| Stopper.StopsOnlyListed | internal/stopper/stopper.go:52-73 | only listed containers that are in use are asked to stop |
| Stopper.StaysDistinct | internal/stopper/stopper.go:52-73 | across any sequence of Stop calls the recorded ids stay distinct |
| Stopper.RestartFacts | internal/stopper/stopper.go:87-98 | one start per recorded container: a longer running one before a shorter running one, and of equals the one stopped first; whatever failed before; one error per failed start in that order; the others run |
| Stopper.RestartAnswers | internal/stopper/stopper.go:87-98 | if requests are answered, every recorded container starts |
| Stopper.StopWorkRestart | internal/stopper/stopper.go:52-98 | stop, any work that stops and starts nothing, restart: every stop is undone or has its own error, the starts in the trace follow the start times and the stops, and the errors the failed starts |
| Stopper.StoppedIsQuiet | internal/stopper/stopper.go:52-73 | after Stop without error a volume whose writers were all listed has no writer left |
| Stopper.Stopper.Stop | internal/stopper/stopper.go:52-73 | the method appends exactly what it stopped to its list, keeps ids distinct and skips what it stopped before |
| Stopper.Stopper.Restart | internal/stopper/stopper.go:87-98 | the method starts the sorted list and forgets it, so a second call does nothing |
| Archive.OpenIsSafe | internal/archive/reader.go:29-97 | for any bytes: if Open accepts them, the version is 1, names are valid and distinct, every volume has its derived path, a digest of 64 characters and an entry of its recorded size, and every entry is the manifest, its rendering or a volume; and if no header met by the scan states more data than follows it, all sections lie inside the file without overlapping |
| Archive.SafeExactlyIfHonest | internal/archive/reader.go:44-64 | the sections of every accepted file are in bounds and disjoint if and only if the tar reader never reports a header that states more data than follows it |
| Archive.OverstatedBreaks | internal/archive/reader.go:44-64 | from any such header, a file that Open accepts although a section goes beyond its end |
| CodecExists.LawsAreConsistent | internal/archive/reader.go:44-64 | a codec that obeys all laws and knows links, with an accepted file whose section goes beyond its end |
| Archive.PrintedInBlocks | internal/archive/writer.go:117-124 | an entry occupies whole blocks of 512 bytes, with less than one block of padding |
| Archive.DataStartsAtBlock | internal/archive/reader.go:44-64 | the data of every entry starts at a block boundary |
| Archive.PrefixScan | internal/archive/reader.go:37-65 | scanning any prefix of a printed archive fails or sees some complete entries with all their data; scanning the whole sees all |
| Archive.OpenPrefix | internal/archive/reader.go:29-138 | print then parse: a complete archive opens and serves exactly what was written; any prefix is refused or still serves every volume of the full manifest, verified, from sections that are in bounds and disjoint |
| Archive.StoredItems | internal/archive/reader.go:44-64 | once the manifest was seen, each volume's section holds exactly its stream |
| Archive.Scanning | internal/archive/reader.go:37-65 | the header loop with its file offset and map of sections computes the scan |
| Archive.Open | internal/archive/reader.go:29-88 | the whole of Open, with every way to be refused |
| Archive.Parse | internal/manifest/manifest.go:74-87 | a manifest is accepted exactly if it decodes, has format version 1 and validates |
| ArchiveWriter.CompressFacts | internal/archive/writer.go:93-105 | a compression that succeeds leaves the encoder's complete output in the temporary file; a source that breaks off is never a success |
| ArchiveWriter.AddEntryFacts | internal/archive/writer.go:117-124 | the unfinished file only grows, and on success by exactly one printed entry of the announced size |
| ArchiveWriter.AddVolumeFacts | internal/archive/writer.go:78-115 | no other file is touched, the temporary file is gone, and on success size, checksum and count are those of the stored bytes |
| ArchiveWriter.FinishFacts | internal/archive/writer.go:127-153 | without success only the unfinished file grew; with success it is complete and has become the final file |
| ArchiveWriter.NewWriter | internal/archive/writer.go:45-59 | refuses if the final file is seen or the unfinished one exists, otherwise creates the unfinished one |
| ArchiveWriter.Writer.AddVolume | internal/archive/writer.go:78-115 | the method with its deferred removal does what the specification says on every failure path |
| ArchiveWriter.Writer.AddCompressed | internal/archive/writer.go:86-114 | the steps from chmod to the copied entry, with size and digest taken from the counting and hashing writer |
| ArchiveWriter.Writer.Compress | internal/archive/writer.go:64-105 | the copy loop: the counted and hashed bytes are exactly those written, the data size exactly the bytes read |
| ArchiveWriter.Writer.AddEntry | internal/archive/writer.go:117-124 | header, data of the announced size, padding |
| ArchiveWriter.Writer.Finish | internal/archive/writer.go:127-153 | the sequence up to the rename; the writer is done only if it worked |
| ArchiveWriter.Writer.Abort | internal/archive/writer.go:156-166 | removes the unfinished file once, and nothing after Finish |
| Backup.PackKeepsHost | internal/backup/backup.go:131-145 | reading a volume changes nothing on the host; a success on a quiet volume emits its exact contents |
| Backup.BackupVolumeFacts | internal/backup/backup.go:122-170 | one manifest entry: it comes from one accepted helper exit, its stored bytes decode to the helper's stream, it lists exactly the containers that mount the volume, and the consistency flag is set exactly if the exit code is 0 and containers were not left running on it |
| Backup.UsersAreListed | internal/backup/backup.go:124-129 | the recorded users are exactly the non-helper containers that mount the volume, in the order of the listing, with name, image, Compose service and whether they were alive |
| Backup.BackupAllStored | internal/backup/backup.go:99-113 | without error every selected volume is recorded and stored, in order |
| Backup.SelectedIsQuiet | internal/backup/backup.go:89-93 | once the users of the selection are stopped, every selected volume is quiet |
| Backup.BackupRestarts | internal/backup/backup.go:37-120 | for every failure schedule: nothing, one failed stop, or one stop followed after all other requests by one start attempt; starts follow the original start times; every stopped container runs or has its own restart error, all others keep their state |
| Backup.BackupReadsQuietly | internal/backup/backup.go:37-120 | a backup changes no volume, and without `--no-stop` reads none that a container might be writing |
| Backup.BackupIsAtomic | internal/backup/backup.go:69-119 | no existing file changes; a failed run leaves the directory as it was, a successful one adds exactly the archive (if removals work); an existing archive is replaced only if the Stat looking for it failed (the converse is the row of BackupPromises.ReplacedExactlyIfStatFails) |
| Backup.BackupArchive | internal/backup/backup.go:94-119 | the archive of a successful run is the print of a manifest that names tool, time, host, engine and image and lists exactly the selection with its metadata; the helper runs of the backup are, in order, one accepted pack run per volume; a volume marked consistent is stored exactly as the host held it |
| Backup.RefusedExitMeansNoArchive | internal/backup/backup.go:151-163 | if any helper run of a backup broke off or exited with a code other than 0 (or 1 under `--no-stop`), there is no archive and no existing file has changed |
| Backup.UsersAndFlag | internal/backup/backup.go:124-160 | the loop computes the recorded users and whether one was in use |
| Backup.BackupVolume | internal/backup/backup.go:122-170 | one volume with its order of errors: helper, writer, exit code |
| Backup.Preflight | internal/backup/backup.go:42-72 | the questions before anything is changed, in order; a failing size query does not matter |
| Backup.BackupAll | internal/backup/backup.go:99-113 | the loop stops at the first error |
| Backup.Archiving | internal/backup/backup.go:73-119 | stop, pack, finish, and the two deferred calls in their order: restart, then removal after an error |
| Backup.Run | internal/backup/backup.go:37-120 | the whole run |
| BackupPromises.AnsweredBackup | internal/backup/backup.go:37-170 | if all requests and all file operations but perhaps the first Stat are answered, where with `--no-stop` tar may also exit with 1, a backup succeeds exactly if it was not cancelled, the unfinished file does not exist, the final file does not exist or Stat fails to see it, and the selection is not empty and has valid names only |
| BackupPromises.ReplacedExactlyIfStatFails | internal/archive/writer.go:45-59 | with everything else in order, an existing archive is replaced by the new one if and only if the Stat looking for it fails; otherwise it stays |
| BackupPromises.FailingStatReplacesArchive | internal/archive/writer.go:45-59 | a concrete backup run that replaces an archive |
| BackupPromises.ArchivingRestarts | internal/backup/backup.go:86-93 | whatever becomes of the archive, a host that answers restarts everything |
| BackupPromises.AddVolumeAnswers | internal/archive/writer.go:78-115 | on a working disk a valid volume is stored and the temporary name is free again |
| BackupDuties.BackupStops | internal/backup/backup.go:81-93 | with `--no-stop` no container is stopped or started; without it only containers that may be writing to a selected volume are stopped |
| BackupDuties.RefusedTouchesNothing | internal/backup/backup.go:37-72 | a backup that was cancelled before, selects nothing, or finds its file or unfinished file in the way, leaves host and directory alone |
| BackupDuties.BackupAsked | internal/backup/backup.go:42-68 | a successful backup was told about host, image, volumes and containers, in this order; only the question for sizes may have failed |
| BackupDuties.BackupInOrder | internal/backup/backup.go:99-113 | the helper runs of any backup are pack runs of the first selected volumes, in order, and the first refused one is the last |
| BackupDuties.AddVolumeWent | internal/archive/writer.go:78-115 | a stored volume: temporary file made, protected, written, read back and removed, and all but perhaps the removal went well |
| BackupDuties.FinishWent | internal/archive/writer.go:127-153 | a finished archive: everything went well, and the last three operations synced, closed and renamed it |
| BackupDuties.BackupWent | internal/backup/backup.go:69-119 | a successful backup: after the look at the final file every file operation but perhaps removals went well, and the archive was synced and closed before it got its name |
| Restore.ObserveFacts | internal/restore/restore.go:147-170 | observing changes nothing; what it says about existence and users is right, and about emptiness if nobody can write |
| Restore.SurveyFacts | internal/restore/restore.go:71-79 | all selected volumes are observed, each accurately at the end |
| Restore.StepFacts | internal/restore/plan.go:84-122 | blocked exactly if the volume exists, has data or possible writers, and force is off; otherwise the step fits, and an overwrite stops all possible writers |
| Restore.ToStopFacts | internal/restore/plan.go:62-74 | every container of every step, each id once |
| Restore.PlanFacts | internal/restore/plan.go:78-141 | a plan that is not blocked fits the host, step by step, for exactly the selected volumes |
| Restore.PrepareFacts | internal/restore/restore.go:41-59 | what is planned was opened, selected from the manifest, distinct, and verified, each volume (what verified means is the row of RestoreDuties.VerifyMeans) |
| Restore.PlanningFacts | internal/restore/restore.go:41-90 | until the first stop a restore only looks; if it goes ahead, the plan is good for exactly the selection |
| Restore.ApplyFacts | internal/restore/restore.go:173-209 | a step that succeeds on a quiet volume leaves exactly the archived entries, whatever was there; a step that fails touches no other volume |
| Restore.ApplyAllFacts | internal/restore/restore.go:101-112 | the volumes before the failed one are restored, those after it and all others unchanged |
| Restore.PlannedIsQuiet | internal/restore/restore.go:91-99 | after Stop every step of a good plan finds its volume quiet |
| Restore.ExecuteFacts | internal/restore/restore.go:91-112 | everything after planning: the three lists, their order, and the state they stand for |
| Restore.RestoreRestarts | internal/restore/restore.go:41-113 | the promise of always restarting, for every restore |
| Restore.RestoreEffect | internal/restore/restore.go:41-131 | Restored, Failed and Untouched are the selection in order, at most one failed; restored volumes hold exactly the archived entries with the right settings, untouched and unselected ones are unchanged; volumes are written only while quiet |
| Restore.Prepare | internal/restore/restore.go:41-59 | open, select, verify, with the first error |
| Restore.Observe | internal/restore/restore.go:147-170 | one observation with its error cases |
| Restore.BuildPlan | internal/restore/plan.go:78-141 | the loops compute the step of every volume |
| Restore.ToStop | internal/restore/plan.go:62-74 | the nested loops with their set of seen ids |
| Restore.Apply | internal/restore/restore.go:173-209 | create or clear as planned, then unpack, with the first error |
| Restore.Plan | internal/restore/restore.go:54-90 | verification, questions, observation, plan, and the reasons to stop there |
| Restore.ApplyAll | internal/restore/restore.go:101-112 | the loop stops at the first error and counts the successes |
| Restore.Run | internal/restore/restore.go:41-113 | the whole run |
| RestorePromises.UnforcedIsHarmless | internal/restore/restore.go:54-99 | without force no container is stopped and no volume that held data and no settings change; a blocked plan means only inspection and empty checks; a bad archive, selection or checksum means no request at all, even with force |
| RestorePromises.SelectSuffix | internal/restore/restore.go:119-131 | filtering by the names of the rest of a selection selects exactly that rest |
| RestorePromises.ForcedPlanningGoes | internal/restore/plan.go:102-122 | with force and answered requests planning always goes ahead |
| RestorePromises.AnsweredRun | internal/restore/restore.go:91-113 | a forced run in which requests are answered restores everything, restarts everything and changes nothing else |
| RestorePromises.RetryCompletes | internal/restore/restore.go:95-131 | a restore that stopped early, repeated with force for exactly Failed and Untouched, leaves every originally selected volume equal to the archive |
| RestoreDuties.SelectionMeans | internal/restore/restore.go:46-53 | a restore selects exactly the manifest volumes asked for by name or Compose project, in their order |
| RestoreDuties.VerifyMeans | internal/archive/reader.go:112-125 | verification of a volume succeeds exactly if the stored bytes have the recorded digest |
| RestoreDuties.PreparedExactly | internal/restore/restore.go:41-59 | the checks before Docker is asked succeed exactly if the file opens, the selection is possible, and every selected volume can be read and has its digest |
| RestoreDuties.VerifyOnlyExactly | internal/restore/restore.go:60-63 | with `--verify-only` nothing is asked and nothing changes on any host, and the run succeeds exactly if the archive is good |
| RestoreDuties.DamagedIsRefused | internal/restore/restore.go:54-59 | a selected volume with another digest, or that cannot be read, ends every restore with an error before any request |
| RestoreDuties.OnlyVerifiedIsApplied | internal/restore/restore.go:54-90 | a restore that made any request, or got past planning, was not `--verify-only` and had a good archive; the plan is for exactly its intact volumes |
| RestoreDuties.RestoreStops | internal/restore/restore.go:91-99 | a restore stops nobody without force, and with it only containers that may be writing to a selected volume |
| RestoreDuties.RestoreAsked | internal/restore/restore.go:65-79 | a restore that gets past planning was told about image and containers and every selected volume, and every look into a volume succeeded |
| RestoreDuties.PlanningGoesExactly | internal/restore/restore.go:54-90 | if requests are answered, planning goes ahead exactly if the archive is good, not only verification is asked for, and without force every selected volume is missing, or empty and out of use |
| RestoreDuties.AnsweredRestore | internal/restore/restore.go:41-113 | if requests are answered and the data decodes, a restore succeeds exactly under these conditions |
| EndToEnd.WholeArchiveOpens | internal/archive/reader.go:29-88 | a complete archive opens |
| EndToEnd.RoundTrip | internal/restore/restore.go:91-113 | any successful backup followed by any successful restore of any selection on any host: the archive opens with a manifest that lists the selection, each volume with its pack run and flag; each restored volume holds exactly what its pack run emitted, what the source held if it is flagged consistent, and has the recorded settings if it was created; all other volumes unchanged |
| EndToEnd.FreshPrepares | internal/restore/restore.go:41-59 | a fresh archive passes every check made before Docker is asked |
| EndToEnd.DisasterRecovery | internal/restore/restore.go:41-113 | after a backup with stopped containers, a forced restore on a host that answers cannot fail and brings back every selected volume as it was |
| EndToEnd.FullCycle | internal/backup/backup.go:37-120 | with two hosts that answer and a disk that works, backup and forced restore both succeed, all containers come back, and every selected volume arrives as it was |
| Cli.CodeOfPromise | cmd/dv-backup/main.go:219-233 | no restart error means every container is back; each restart error names a container left stopped, and every such container is named |
| Cli.BackupExitCode | cmd/dv-backup/main.go:219-233 | 0: archive and all containers back; 3: archive, containers left stopped; 1: no archive |
| Cli.RestoreExitCode | cmd/dv-backup/main.go:219-233 | 0: all restored and back; 3: all restored, containers left stopped |
| HelperProtocol.InvPreserved | internal/dockerx/helper.go:108-230 | every step of every thread keeps the protocol's invariant |
| HelperProtocol.ReturnIsSafe | internal/dockerx/helper.go:108-230 | in every interleaving RunHelper returns only after both goroutines ended; a result without error has all output read to its end, the true exit code, and for code 0 all input sent and closed |
| HelperProtocol.ErrorTextIsNotShared | internal/dockerx/helper.go:218-230 | the error text is read only after the copier that writes it has ended |
| HelperProtocol.CanStepIsEnabled | internal/dockerx/helper.go:99-216 | the conditions under which each thread can go on are exactly right |
| HelperProtocol.HelpfulIsDue | internal/dockerx/helper.go:128-216 | no deadlock after cancellation or after the container has exited, also while input is still being sent: until the return, the thread the others wait for can go on and must do so |
| HelperProtocol.StepProgress | internal/dockerx/helper.go:128-216 | no step of any thread leads away from the return, and the awaited thread's step leads nearer |
| HelperProtocol.EndingRunReturns | internal/dockerx/helper.go:128-216 | in every fair interleaving RunHelper returns once it was cancelled or the container has exited, even if writes to the container block for as long as it runs |
| HelperOutcome.FailsExactlyWithCause | internal/dockerx/helper.go:143-230 | in every interleaving RunHelper returns an error if and only if output was not read or handed over to its end, the wait request failed, or sending failed or was cancelled and the exit code is 0; in every other case it returns the exit code |
| HelperOutcome.UndisturbedRunSucceeds | internal/dockerx/helper.go:155-230 | a run that is not cancelled, keeps its connection and outlives no grace period returns the exit code and all output, even if the exit is reported before the output has arrived, and even if not all input was read, unless the exit code is 0 |
| PipeProtocol.NoDeadlock | internal/backup/backup.go:131-156 | neither the helper's goroutine nor AddVolume is ever left waiting for the other |
| PipeProtocol.RunsEnd | internal/backup/backup.go:131-156 | every interleaving, with either side failing anywhere, ends, with both sides finished |
| PipeProtocol.Finished | internal/backup/backup.go:146-169 | the helper's error is reported exactly if the helper broke off; otherwise AddVolume read exactly the bytes it wrote |
| PipeProtocol.StoredMeansAll | internal/backup/backup.go:131-169 | an entry is accepted only if the helper exited with an accepted code and every byte it wrote was read |
| PipeProtocol.StoredBytes | internal/archive/writer.go:64-115 | the entry's size and checksum are those of the stored bytes, which decode to exactly the helper's stream |
| PipeProtocol.FaultFreeRunStores | internal/backup/backup.go:131-169 | if nothing fails of its own accord, the stream is stored or the exit code is reported |
| Refinement.HelperRunRefines | internal/dockerx/helper.go:46-230 | every interleaving of RunHelper ends with a result and an output that the sequential model of a helper allows for some fault, which is a failure exactly if the run had cause for an error; a pack run with exit code 0 on a quiet volume hands over all of it |
| Refinement.BackupVolumeRefines | internal/backup/backup.go:122-170 | every finished interleaving of backupVolume, whatever failed and wherever, gives the verdict, the entry and the directory that the sequential model gives for some fault and some way of reading the stream; a disk error that breaks the pipe is an ordinary helper error |
| ShellWords.QuotedWordsReadBack | internal/restore/restore.go:119-144 | for all strings: splitting and quote removal of the quoted words, joined by spaces, gives back exactly the words (sections 2.2 and 2.3 of the Shell Command Language, IEEE Std 1003.1-2017) |
| ShellWords.UnquotedMeansSame | internal/restore/restore.go:135-144 | a word left unquoted is read literally |
| ShellWords.RetryCommand | internal/restore/restore.go:119-131 | the printed line, read by a shell, is exactly the retry's argument list |
| RetryLine.RetryReads | internal/restore/restore.go:119-131 | the printed arguments, read as the command line reads them, are force, the image, the archive and the failed and untouched names if and only if the archive does not look like a flag and the image is not left to the environment |
| RetryLine.RetryLineMeansRetry | cmd/dv-backup/main.go:109-217 | for every restore that stopped early, the printed retry is the one that completes the job, under exactly these conditions |

## Left out

- `stat`, the text of the archive's README, `PrintPlan`, progress lines, the free-space warning, and a step's reason, state and warning texts: rendering.
- The moby client, image pulls, signals, and command-line parsing: foreign calls. A signal is a cancellation, that is, a fault.
- The insides of tar, zstd, SHA-256 and YAML, and file metadata inside volumes (owners, extended attributes, sparse files): decided by those programs. Nothing is claimed about corruption beyond equality of digests.
- File names made from the host name and the clock, temporary names, helper names: inputs of the model.
- Other Docker clients and other processes in the output directory: the snapshot of containers is exact while a run goes on.
- A stop request that fails after the container was stopped: as in the fake engine, an error means it was not stopped. A failed start likewise leaves the container exited.
- Backup.BackupIsAtomic: does not cover failing removals beyond what it says about existing files, since then a temporary or unfinished file may stay.
- Backup.BackupVolume: is sequential, so a disk error is not reported as the helper's error by itself; `Refinement.BackupVolumeRefines` shows that the pipe's outcomes are those of this method for some fault of the helper.
- PipeProtocol.StoredBytes: takes the success of AddVolume as given; what the disk decides is joined to the protocol in `Refinement.BackupVolumeRefines`.
- Refinement.HelperRunRefines: assumes of the container itself that tar, when it exits with 0, has written its volume or read its input; the effect on the volume is that of `Docker.HelperSpec`.
- Selection.Filter: gives the missing names and projects as sets; their order and rendering in the message are not modelled.
- Selection.Named: `sort.Slice` is modelled by a stable sort; with distinct names there is only one ascending order.
- Docker.Daemon.Ask: the answers themselves are read from the engine's fields; a listing is the engine's own order.
- Docker.Daemon.RunHelper: unpacking overlays the entries, as tar does, where the repository's fake engine replaces the data; what a failed run leaves behind is arbitrary.
- Restore.Observe: "empty" is "the find helper reported no entry"; trimming of its output is not modelled, nor are the settings of an existing volume, which only a warning uses.
- Restore.BuildPlan: leaves out the reason, state and warning texts of a step.
- Archive.Open: a read error while the file is opened is that of a file that cannot be opened (`ArchiveFile.bytes`); one of a single volume is in `ArchiveFile.unreadable`.
- Archive.Scanning: the type of an entry appears only as the difference between the size stated and the data that follows, and in what reading the manifest gives.
- ArchiveWriter.NewWriter: does not tell its reasons to refuse apart; the file name is an input.
- HelperProtocol.EndingRunReturns: that a write to a container that has exited ends is an assumption (`HelperProtocol.Due`), as is that a Read of the input returns and that the wait request is answered.
- HelperProtocol.ReturnIsSafe: a connection that the daemon closes cleanly before all output was delivered is not modelled; the end of the stream means the end of the output. Requests made before the container starts fail as a whole and are covered by `Docker.Daemon.RunHelper`.
- ArchiveWriter.Writer.AddEntry: padding is written with the data, where the tar writer waits for the next entry: the same bytes in the same file. Data of another length than announced is refused at once; it cannot occur, since the announced length is that of the temporary file (`ArchiveWriter.CompressFacts`).
- RetryLine.RetryReads: forms of flags that the retry never uses (`--image=x`, short flags run together) are not read.
- Helper containers that an earlier, killed run of the program left behind: the program does not count them among the users of a volume, and neither does the model.
- EndToEnd.RoundTrip: covers volumes whose pack run was accepted with exit code 1 under `--no-stop` only if their stream is a tar archive, which a successful restore implies.
