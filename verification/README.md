# The newspaper curation application in Dafny

This project models the parts of the newspaper curation application where a mistake loses newspapers or runs work
twice, and proves what those parts promise.  All files verify together: `dafny verify dfyconfig.toml`.

## What is modelled

**The job queue** (`JobModel`, `JobProtocol`, `JobTimes`, `JobGuarantees`, `JobPurges`, `JobOrigins`).  Work is a row
in the jobs table; several rows form a chain, linked by the id of the next job.  `JobModel` has the table and the
runner as classes whose methods make the same writes in the same order as the program.  `JobProtocol` cuts these into
single steps: a pop (one transaction, or a separate read and write), the return of a job, the save of a success, the
read of the next job, its save as pending, the clone of a failed try, the final failure, a runner that stops at any
point; and for operators, who remember what they read, the read and the write of a requeue, of the closing of failed
jobs before an upload, and of the purge of an issue.  Runs are arbitrary interleavings of these steps by any number of
runners and operators.  Every record belongs to a chain and a position; the program does not store this, the proofs
do. `JobTimes` says when a retried or requeued job may be taken.  An operator who writes a stale copy can break the
queue; `JobProtocol` says exactly when, `JobGuarantees` has what holds when none does, `JobPurges` exactly when a
purge is final, and `JobOrigins` what a purge leaves of a job whose runner stopped.

**Files** (`FileTree`, `DiskModel`, `DiskJobs`, `FileMoves`, `PageRenumbering`, `PageCollisions`, `RenumberTries`,
`PageNumbers`, `PageSplitting`, `Outcomes`).  The disk is a map from paths to contents; a directory that was made and
may be empty is an entry of its own.  `DiskModel` says what each kind of job may do to the disk and the issue row, a
job that fails having done any part of its work, except that a rename happens or does not.  `DiskJobs`,
`PageSplitting` and `PageRenumbering` have the jobs as methods, file by file, and show that they do no more than that.
`PageNumbers` says what renumbering makes of the files on disk, whatever fails in between.  `Outcomes` shows when a
job can succeed.

**The four chains that move an issue's directory** (`Pipelines`, `UploadChain`, `DeriveChain`, `FinalizeChain`,
`RemovalChain`, `JobWorld`, `WorldTheorems`, `ChainRuns`, `RemovalSafety`, `RemovalRuns`).  Each chain has a statement
per position of where the files are; a try of its job keeps the statement, a success gives the next one.  `JobWorld`
runs a chain on the protocol, with everything else that may happen to the jobs table and to the rest of the disk.
`WorldTheorems` has the results over whole runs: which files are where at every point, and what each chain has done
when it has finished.  `RemovalSafety` has what each step of a removal keeps and the runs in which it loses a file,
and `RemovalRuns` says exactly when no run with the jobs table loses one.

**Batching** (`BatchQueue`): the queue of ready issues with its cached totals, the split by age under the page limit,
and the loop that drains it.

**Keys, index, duplicates** (`IssueKeys`, `Lookup`, `Duplicates`): issue keys and search keys, the index of five maps
against a plain scan, and which copy of an issue is flagged.

**The finder and its cache** (`FinderCache`, `FinderIndex`, `IssueReports`, `BatchFullnames`): objects that refer to
each other are turned into ids and back, and issues into lines of a report.

**The curation workflow** (`Workflow`, `WorkflowRuns`): the guards and the writes of the workflow row, and the life of
an issue, in which curators, reviewers, managers, the batch fixer and any number of queued job chains interleave.

**Smaller parts**: durations (`Durations`), the pairing of PDFs and TIFFs (`PairCheck`), batch names (`BatchNames`).
`Words`, `Decimal`, `Text`, `Sequences` and `Sorting` hold what the others share.

## What the proofs brought up

Where a promise does not hold of the code, a lemma shows it with an input, and where there is an exact condition, the
condition is proved.

- The comment on the retry delay says it starts at about 30 seconds; the code starts at 16
  (`src/models/job.go:322-324`). The model follows the code.
- Two runners that share a job type, with pops that are not serialised, can run one job twice
  (`JobGuarantees.SharedTypeRunsTwice`).  The runners of `watchall` share none.
- Of two requeues of one failed job that both read it first, the second makes a second live job
  (`JobGuarantees.SecondRequeueDoubles`); a requeue's write is harmless exactly when no other record of that position
  is live (`JobGuarantees.StaleRequeueExactly`).
- A purge that cancels a job left in process by a stopped runner ends its chain although the job's work may be done;
  no requeue whose write is safe takes it up again (`JobOrigins.CancelCutsOff`, `JobOrigins.CutOffStays`).
- A purge is final exactly when no operator holds a copy of one of the chain's jobs to requeue it
  (`JobPurges.PurgeIsFinal`).
- An issue whose chain died in a directory job cannot be purged (`JobPurges.PurgeableExactly`); at which positions of
  each chain that is, `WorldTheorems.ChainPurgeableExactly` says.
- A page split or a derivative move that fails once its output directory is made blocks its chain for good: the next
  try refuses the directory, empty or not (`WorldTheorems.PastTheOutputExactly`).
- A second removal of an issue in the same month, after a first one died in the middle, deletes all that is left of it
  (`RemovalSafety.SecondRemovalLosesAll`); the location must not contain, or be in, the removal's own directory
  (`RemovalRuns.RemovalSparesExactly`).
- A removal replaces an original called `actions.txt`, and one called `original.tar` when there is a backup
  (`RemovalRuns.OwnNamesExactly`).
- A renumbering that fails between the PDF and the TIFF of a page makes the next try split the pair.  The next try
  always ends where the first should have exactly when pages that share a prefix already have the prefix the job gives
  them (`PageRenumbering.RetryFinishesExactly`).  It can even replace another page, as the three files of
  `PageRenumbering.RetryCanReplaceAPage` show; `PageCollisions.RetryReplacesExactly` says exactly when, after one
  failure. Every further failure can push the numbers up again: the five files of
  `RenumberTries.TwoFailuresCanReplaceAPage` are safe after one failure and not after more.
  `RenumberTries.TriesReplaceExactly` says, of the first listing, exactly when no sequence of tries replaces a file.
- From the ten-thousandth page on, split pages do not sort by name (`PageSplitting.SortedByNameExactly`).
- An issue with more pages than a batch may have keeps the batching loop going for ever
  (`BatchQueue.Allocator.Turns`).
- Issue keys with year 0 or edition 0 are not printed back from the parsed key (`IssueKeys.KeyRoundTrip`).
- The machine-readable form of a duration turns weeks into days, which can overflow (`Durations.RFC3339RoundTrip`).
- A forced rebuild still queued when the batch fixer rejects or reports the issue can make the unreviewed issue ready
  for batching, and one queued while another is at work leaves it awaiting processing for ever; these are the only
  ways (`WorkflowRuns.RunIsSafeExactly`).
- An issue that a manager returned for review before anybody had entered its metadata stays on the reviewer's desk
  when it is rejected, for what is left of their week (`WorkflowRuns.RejectedWithoutCurator`).
- A tab in an issue's location or in a file's name breaks the issue's line of a report
  (`IssueReports.TSVReadsBackExactly`), and a comma in a file's name the list of names
  (`IssueReports.NamesReadBackExactly`).
- ALTO XML and JP2 files are named by replacing the first `.pdf` or `.tif` in the whole path, wherever it is
  (`DiskModel.DerivativesMade` says for which paths they are beside the page).
- The pairing of PDFs and TIFFs takes `a.1.pdf` and `a.2.tif` for one page (`PairCheck.StemsToldExactly`).
- The cache loses the MARC org code, the database id and the child-error flag of issues, and the child-error flag of
  titles (`FinderCache.Reload`).
- Searching a namespace twice leaves the first search's issues in the finder (`FinderIndex.SearchedAgain`).
- A batch whose MARC org code has an underscore, or whose version has three digits, is not read back from its name
  (`BatchFullnames.FullnameRoundTrip`).


## Model

| member | source | states |
|---|---|---|
| `JobModel.BackoffIsCappedDoubling` | src/models/job.go:324-332 | For every retry count a job can reach, the delay computed on a wrapping 64-bit duration is 2^(count+3) seconds capped at 24 hours: the shift never overflows |
| `JobModel.BackoffNeverShrinks` | src/models/job.go:324-332 | Later retries never wait less than earlier ones |
| `JobModel.JobTable.PopNextPendingJob` | src/models/job.go:171-199 | The oldest pending, due job of the given types is marked in process and handed out with its start time; none is handed out exactly when none qualifies; no other row changes |
| `JobModel.JobTable.FailAndRetry` | src/models/job.go:315-338 | One transaction: the job is closed, and a copy that is pending, has one more retry and is due 2^(k+4) seconds after the failure, or a day after, is added under a new id |
| `JobModel.JobTable.SaveNew` | src/models/job.go:288-299 | A job without an id is added under the next one, and no other row changes |
| `JobModel.JobTable.Save` | src/models/job.go:288-299 | Saving a job replaces its whole row, and no other |
| `JobModel.JobTable.RenewDeadJob` | src/models/job.go:344-363 | Refused, with nothing changed, unless the job failed for good; otherwise it is closed and a copy without retries is added |
| `JobModel.JobTable.QueueSerial` | src/jobs/queue.go:72-90 | The jobs, saved last to first, end up as one linked chain of new rows; other rows stay |
| `JobModel.QueueSerialLinksChain` | src/jobs/queue.go:62-90 | Row by row: each queued job keeps its work and target, points to the row of its successor (the last to none), and only the first is not on hold |
| `JobModel.Runner.HandleSuccess` | src/jobs/runner.go:146-159 | After a success the row is successful with its completion time, the next job is pending, every other row is as before |
| `JobModel.Runner.QueueNextJob` | src/jobs/runner.go:190-212 | The next job becomes pending whatever its status was; no next job, or a missing one, changes nothing |
| `JobModel.Runner.AttemptRetry` | src/jobs/runner.go:161-187 | A failed try is cloned while retries are left and otherwise marked failed |
| `JobModel.RetryThenPop` | src/models/job.go:315-338 | After a failed try with k retries behind it, no pop within 2^(k+4) seconds, or a day, hands out the new job; later, a pop for its type hands it out, or one created no later |
| `JobModel.WatchAllCoversEveryTypeOnce` | src/cmd/run-jobs/main.go:332-387 | The four runners of watchall share no job type, and every job type is watched by one of them |
| `JobProtocol.StepKeepsExactly` | src/jobs/runner.go:109-212 | Every single read and write of runners and operators keeps the protocol invariant, stale writes included, except exactly these: a requeue's write when another record of that position is live, and a purge's write over a record that meanwhile succeeded or is in a runner's hands |
| `JobProtocol.RunKeepsExactly` | src/jobs/runner.go:109-212 | The invariant holds at every point of a run exactly when every operator write in it is safe in that sense |
| `JobGuarantees.SerialExecution` | src/jobs/runner.go:109-212 | Under every interleaving of reads and writes in which operator writes are safe, each chain has a frontier: before it exactly one record per position succeeded and the others are closed, at it at most one record is not closed, after it only untouched originals on hold or cancelled |
| `JobGuarantees.WatchAllIsSerial` | src/cmd/run-jobs/main.go:332-387 | With the watchall runners this holds even when the select and the save of a pop are not one transaction |
| `JobGuarantees.NoEarlyStart` | src/jobs/queue.go:62-90 | Under every interleaving no job is begun before each of its predecessors succeeded, exactly once |
| `JobGuarantees.RunnersAreExclusive` | src/jobs/runner.go:109-144 | No two runners ever hold the same record, and the copy a runner will save over a row equals that row |
| `JobGuarantees.SharedTypeRunsTwice` | src/models/job.go:171-199 | Why the configuration matters: if pops are not transactions and two runners share any job type, there is a run in which both run one job |
| `JobGuarantees.StaleRequeueExactly` | src/cmd/run-jobs/main.go:213-231 | A requeue that writes the copy it read, however long ago, leaves one live record at the job's position, and keeps the whole invariant, exactly when no other record of that position is live |
| `JobGuarantees.SecondRequeueDoubles` | src/cmd/run-jobs/main.go:213-231 | Of two requeues that both read the failed record, the second to write makes two live records of one position |
| `JobGuarantees.UninterruptedSuccess` | src/jobs/runner.go:146-212 | The separate writes of a success, when nothing comes between them, add up to what the runner method does to the table |
| `JobGuarantees.BoundedTries` | src/jobs/runner.go:161-187 | Under every interleaving a chain of n jobs is tried at most 26 times per job and per operator requeue |
| `JobTimes.RetryWaitsExactly` | src/models/job.go:315-338 | At every point of every run after the write of a retry, while the new job is pending, an idle runner of its type can take it, or read it to take it, exactly from 2^(k+4) seconds after the failure on, or a day |
| `JobTimes.RetryTakenLate` | src/models/job.go:315-338 | So a runner that has the new job, at any point of any run, took it no earlier than that |
| `JobTimes.RequeuedWaitsExactly` | src/models/job.go:344-363 | A requeued job has all its retries again and can be taken from the moment of the requeue on |
| `JobPurges.BuriedStays` | src/cmd/purge-dead-issues/main.go:223-259 | A chain with no record waiting, running or failed, none about to be activated and none read by an operator to requeue it keeps its tries and its successes under every event, stale writes included |
| `JobPurges.PurgeIsFinalExactly` | src/cmd/purge-dead-issues/main.go:168-259 | After a purge's write no job of a chain is ever pursued again, in any run whatsoever, exactly when the purge cancelled all its waiting, running and failed records, no runner had or was about to activate one of its jobs, and no operator had read one to requeue it |
| `JobPurges.PurgeIsFinal` | src/cmd/purge-dead-issues/main.go:168-259 | A purge that cancels a chain's failed record while it is still failed is final exactly when no operator has read a record of that chain to requeue it |
| `JobPurges.PurgeableExactly` | src/cmd/purge-dead-issues/main.go:168-221 | An issue all of whose jobs still to be pursued are in one chain that died, other chains of it having finished or been cancelled, can be purged exactly when it is in no batch and the dead job is tied to it: a dead directory job is not, so the purge sees no dead job |
| `WorldTheorems.ChainPurgeableExactly` | src/cmd/purge-dead-issues/main.go:168-221 | Position by position of each of the four chains: an issue whose chain has died, its other chains being over, can be purged exactly when it is in no batch and the chain died where no directory is copied, removed, renamed or cleaned |
| `DiskJobs.Storage.SyncDir` | src/jobs/fs_jobs.go:34-56 | Every file under the source ends up at its place under the destination, or the copying stopped at a failure; only the destination changes, and a sync with nothing to do changes nothing, even if it fails |
| `DiskJobs.Storage.KillDir` | src/jobs/fs_jobs.go:70-84 | Refuses an empty path; otherwise only files under the directory go, and success means none is left |
| `DiskJobs.Storage.Rename` | src/jobs/fs_jobs.go:100-110 | All or nothing: everything under the source is at the same place under the destination, or nothing changed; a missing source fails |
| `DiskJobs.Storage.CleanFiles` | src/jobs/fs_jobs.go:129-176 | Only dot files and Thumbs.db are removed, stopping at the first failure; success means none is left directly in the directory |
| `DiskJobs.Storage.MoveDerivatives` | src/jobs/remove_errored_issue_jobs.go:83-119 | Refuses a destination that exists, empty or not; otherwise makes it, and some .xml and .jp2 entries, on success all of them, are in it and nothing else changed |
| `DiskJobs.Storage.ArchiveBackups` | src/jobs/archive_backups.go:25-108 | The tar is put in place only when it holds every file of the backup directory; a missing backup directory, or a directory in it, fails with nothing changed; without a backup nothing happens |
| `DiskJobs.Storage.WriteActionLog` | src/jobs/remove_errored_issue_jobs.go:23-52 | Only actions.txt changes, and only when the whole log could be written; it then holds every action, in order, with an empty line after each |
| `DiskJobs.MovedOneMore` | src/jobs/remove_errored_issue_jobs.go:100-116 | One more rename of a listed entry keeps the account of which entries are where |
| `PageSplitting.PageSplit.Process` | src/jobs/pagesplit.go:32-88 | With a configuration that asks for at least one page: refuses an output directory that exists, empty or not; otherwise only that directory changes, the temporary one is gone, and success means it holds exactly the pages, converted, under their four-digit names, at least the minimum number of them |
| `PageSplitting.PageSplit.FixPageNames` | src/jobs/pagesplit.go:121-159 | Succeeds exactly when there are enough files, all named as pages, and no rename fails; the directory is then that of the renames made so far |
| `PageSplitting.PageSplit.ConvertToPDFA` | src/jobs/pagesplit.go:162-189 | On success every file of the temporary directory is replaced by its PDF/A form, and none is added or gone |
| `PageSplitting.PageSplit.MoveIssue` | src/jobs/pagesplit.go:192-201 | On success the output directory is an exact copy of the temporary one; a failure may leave a part of the copy |
| `PageSplitting.FixingKeepsEveryPage` | src/jobs/pagesplit.go:133-156 | Giving pages their four-digit names replaces none and loses none, in whatever order they are listed |
| `PageSplitting.SortedByNameExactly` | src/jobs/pagesplit.go:120-122 | The names sort in page order exactly when there are fewer than ten thousand pages |
| `Pipelines.ConfiguredApart` | src/jobs/queue.go:117-122 | If the upload directory and the three configured roots are not inside each other, the six directories of the upload chain are not either |
| `UploadChain.Step` | src/jobs/queue.go:117-157 | Any try of any step of the upload chain, successful or failed, complete or partial, keeps what is known at its position; success gives what is known at the next |
| `DeriveChain.Step` | src/jobs/queue.go:161-180 | The same for the chain that moves an issue into the workflow, renumbers its pages and makes derivatives; if no sequence of failed renumberings of the cleaned directory can replace a file, every file of it is there under a name of its own, failed tries keep the scans in page order, and after the renumbering they have their numbers |
| `PageNumbers.ResumableExactly` | src/jobs/renumber_pages.go:31-72 | That condition on a directory of numbered pages holds exactly when no try in any sequence of tries on it replaces a file |
| `FinalizeChain.Step` | src/jobs/queue.go:199-215 | The same for the chain that makes METS XML and archives the backed-up originals |
| `RemovalChain.Step` | src/jobs/queue.go:250-292 | The same for the chain that removes an errored or purged issue |
| `RemovalChain.MoveSorts` | src/jobs/remove_errored_issue_jobs.go:83-119 | Moving some derivatives leaves every file in exactly one of content and derivatives; moving all leaves each in the right one |
| `RemovalRuns.RemovalSparesExactly` | src/jobs/queue.go:250-270 | Under every interleaving of the jobs table, on every disk, a removal keeps the issue's files, the names it writes itself aside, exactly when the issue's location and the removal's content directory do not contain each other |
| `RemovalSafety.SecondRemovalLosesAll` | src/cmd/purge-dead-issues/main.go:223-241 | The case that fails: after a removal died at its move of derivatives or at a later job before its final rename, a second one in the same month syncs the first one's content directory onto itself and deletes it |
| `RemovalRuns.OwnNamesExactly` | src/jobs/remove_errored_issue_jobs.go:23-52 | With separate directories and a working directory of its own, a removal keeps every file of the issue under every interleaving, whatever the log says, exactly when none is called actions.txt and, if there is a backup that can be archived, none is called original.tar |
| `RemovalRuns.RunKeeps` | src/jobs/queue.go:250-292 | The invariant of such a run: the link between records and work, and where each file is, wherever an earlier removal has left its working directory |
| `JobOrigins.BegunOriginalIsSole` | src/models/job.go:302-338 | In every run from an empty table with safe operator writes, a record that was queued with its chain and waits or runs is the only one of its position: clones exist only of records that ended |
| `JobOrigins.CancelCutsOff` | src/cmd/purge-dead-issues/main.go:223-259 | A purge's write over a record left in process by a stopped runner cuts its chain off: no record of its position is live, about to be made pending, or remembered by an operator to be requeued |
| `JobOrigins.CutOffStays` | src/jobs/runner.go:109-212 | A chain that is cut off stays cut off, where it is, under every event whose write is safe |
| `JobWorld.OtherLink` | src/jobs/runner.go:146-212 | An event that does not end a try of one of the chain's jobs leaves the chain's records and the work done at most one step apart, or the chain is cut off because a purge cancelled the record whose work was done |
| `JobWorld.WorldStepKeeps` | src/jobs/runner.go:109-212 | Every event, with whatever the job it ends did to the disk or whatever else changed elsewhere, keeps the joint invariant of jobs table, runners, issue row and disk |
| `WorldTheorems.UploadLosesNoOriginal` | src/jobs/queue.go:117-157 | At every point of every run every uploaded file other than dot files and Thumbs.db is, unchanged, in the upload, WIP, workflow or backup directory |
| `WorldTheorems.UploadLosesNoPage` | src/jobs/queue.go:133-153 | From the success of page splitting on, every page is in one of the directories on the way to page review |
| `WorldTheorems.MarkIsTheSplit` | src/jobs/pagesplit.go:32-48 | The disk the page theorem refers to is the disk right after page splitting succeeded |
| `WorldTheorems.UploadIsCleaned` | src/jobs/queue.go:131-142 | While page splitting or the backup of the originals is next, no dot file and no Thumbs.db is directly in the workflow directory |
| `WorldTheorems.UploadCompletes` | src/jobs/queue.go:117-157 | When the chain has finished, pages, at least one, are in page review, originals in the backup, the other four directories are empty, the issue row names both, and the issue awaits page review |
| `WorldTheorems.DeriveLosesNothing` | src/jobs/queue.go:161-180 | No file CleanFiles would keep is ever lost or merged with another, derivatives aside, and from the cleaning on all are in the recorded location, paired PDFs and TIFFs included, if the cleaned directory is one on which no sequence of failed renumberings can replace a file, whatever fails then, or if a run on it replaces none, however it is listed, and no failed try renamed anything |
| `WorldTheorems.DeriveCompletes` | src/jobs/queue.go:161-180 | When the chain has finished and renumbering was safe in that sense, the recorded location has every file that came; the scans of the cleaned directory, and no other PDFs and TIFFs, are there, each called by a number of exactly four digits, the numbers running from 1 without a gap in page order; files share a number exactly when they shared a prefix, if no failed try renamed anything or pairs were already named as the job names them; every page has its ALTO XML and JP2 under its number, given that no directory and no other TIFF has a confusing name; and the issue is ready for metadata entry |
| `WorldTheorems.MarkIsTheCleaned` | src/jobs/fs_jobs.go:129-176 | The cleaned directory that theorem refers to is that of the disk right after CleanFiles succeeded |
| `WorldTheorems.RemovalLosesNothing` | src/jobs/queue.go:250-292 | At every point of a removal with separate directories and a working directory of its own each file of the issue is on disk, and once content was moved it is in exactly one of content and derivatives |
| `WorldTheorems.RemovalKeepsBackups` | src/jobs/archive_backups.go:25-108 | In a removal no backup file is gone before the tar beside the content has it |
| `WorldTheorems.FinalizeKeepsBackups` | src/jobs/queue.go:199-215 | In a finalisation no backup file is gone before the tar in the recorded location has it |
| `WorldTheorems.FinalizeCompletes` | src/jobs/queue.go:199-215 | When a finalisation has finished, the METS XML is in the recorded location, the originals are in the tar beside it and no longer in the backup, and the issue is ready for batching with no backup recorded |
| `WorldTheorems.RemovalCompletes` | src/jobs/queue.go:250-292 | When a removal has finished, the issue is ignored, with no location and no backup recorded; its .xml and .jp2 entries are under derivatives and all else under content in the error directory, with the log and the archived originals beside the content, and its old directories are gone |
| `WorldTheorems.LocationIsRight` | src/jobs/metadata_jobs.go:52-62 | While a job that works in the recorded location runs, the files are in that location of the present disk, although the row is stale between a delete and the next set-location job; in the derivatives chain, when renumbering is safe |
| `WorldTheorems.TrySucceedsExactly` | src/jobs/pagesplit.go:40-48 | A try of page splitting or of moving derivatives can succeed exactly when its output directory does not exist |
| `WorldTheorems.PastTheOutputExactly` | src/jobs/remove_errored_issue_jobs.go:83-98 | While such a try is under way, the chain can ever get past that job exactly when its output directory does not exist, empty directories counted |
| `WorldTheorems.PartialOutputBlocksTheChain` | src/jobs/remove_errored_issue_jobs.go:83-98 | Once a failed page split or derivative move has left its output directory behind, no retry, requeue or other event ever gets the chain past that job, and it never finishes |
| `PageRenumbering.Directory.Process` | src/jobs/renumber_pages.go:31-72 | The directory after a run, or after a rename that failed, is exactly the prefix of the renames that were made; an empty directory fails |
| `FileMoves.NothingReplacedExactly` | src/jobs/renumber_pages.go:44-67 | No rename replaces another file exactly when no new name is used twice or belongs to a file that is renamed later |
| `PageRenumbering.OrderlyRunLosesNothing` | src/jobs/renumber_pages.go:44-67 | If page prefixes are distinct positive numbers in ascending order and no two files share prefix and normalised extension, no rename replaces a file and every file and its content is kept, at every moment of the run |
| `PageRenumbering.SameNumberSamePrefix` | src/jobs/renumber_pages.go:53-57 | Two pages get one number exactly when they share a prefix |
| `PageRenumbering.EveryNumberIsUsed` | src/jobs/renumber_pages.go:42-57 | The numbers given are 1 to the number of prefixes, without a gap |
| `PageRenumbering.SecondRunChangesNothing` | src/jobs/renumber_pages.go:31-72 | A second run on the result changes nothing, in any order a numeric sort lists it |
| `PageRenumbering.RetryFinishesExactly` | src/jobs/renumber_pages.go:44-67 | Wherever the first try fails and in whatever order the directory is listed then, the next try ends where the first should have: exactly when any two pages that share a prefix already have the prefix the job gives them |
| `PageCollisions.RetryReplacesExactly` | src/jobs/renumber_pages.go:44-67 | After one failed try, wherever it fails and in whatever order the directory is listed then, the next try replaces no file: exactly when there is no pair with the right number in another spelling before or at a page whose next number, with its extension, is the name of the page that follows in number |
| `RenumberTries.TryKeepsLossless` | src/jobs/renumber_pages.go:44-67 | If the walk over the page numbers, counting how far failures can push them up, meets no pair in the way, then neither does the walk over any listing that the next try can meet, wherever this one fails |
| `RenumberTries.TriesReplaceExactly` | src/jobs/renumber_pages.go:31-72 | Over sequences of tries of any length, each failing anywhere and met by any listing in page order: no try ever replaces a file exactly when no PDF and TIFF of one number, not both called by it with four digits, can get just that number right before a page of the next number |
| `RenumberTries.TwoFailuresCanReplaceAPage` | src/jobs/renumber_pages.go:44-67 | Five files on which neither the first try nor a try after one failure replaces a file, but some longer sequence of tries does |
| `PageNumbers.TrackedAfterTry` | src/jobs/renumber_pages.go:44-67 | Wherever a try on a directory that no failures can harm ends, the scans are those of the cleaned directory, still in page order, and where pairs are already named as the job names them, still paired |
| `PageNumbers.NumberedAfterRun` | src/jobs/renumber_pages.go:40-67 | A successful try then gives them the numbers 1 to m without a gap, in the page order of the cleaned directory |
| `PageNumbers.OrderlyIsRenumberable` | src/jobs/renumber_pages.go:44-67 | A directory of distinct positive page numbers is renumbered without a loss, in whatever order a numeric sort lists it |
| `PageNumbers.ForeignIsRenumberable` | src/jobs/renumber_pages.go:40-42 | So is any directory whose scans, such as gray0356.pdf and gray0356.tif, are not called by four-digit numbers yet and differ in prefix or extension |
| `BatchQueue.IssueQueue.Append` | src/cmd/queue-batches/batch_queue.go:28-44 | An issue already queued is not added again; the cached page total, membership and waiting flag always say what the list says |
| `BatchQueue.IssueQueue.EmptyList` | src/cmd/queue-batches/batch_queue.go:46-52 | An emptied queue holds nothing, and its cached fields say so |
| `BatchQueue.SortByApproval` | src/cmd/queue-batches/batch_queue.go:60-66 | Sorting gives the same issues, oldest approval first |
| `BatchQueue.IssueQueue.SplitQueue` | src/cmd/queue-batches/batch_queue.go:59-82 | The queue in order of approval is split greedily; both parts have correct cached totals |
| `BatchQueue.SplitConserves` | src/cmd/queue-batches/batch_queue.go:59-82 | A split loses or doubles no issue and no page |
| `BatchQueue.TakenFits` | src/cmd/queue-batches/batch_queue.go:72-79 | What is split off is within the page limit |
| `BatchQueue.LeftoversDoNotFit` | src/cmd/queue-batches/batch_queue.go:72-79 | No issue that is left would still fit into the finished batch |
| `BatchQueue.PassedOverOnlyForSmaller` | src/cmd/queue-batches/batch_queue.go:54-82 | An issue is passed over for one approved later only when that one has strictly fewer pages |
| `BatchQueue.SplitKeepsOrder` | src/cmd/queue-batches/batch_queue.go:59-82 | Both parts keep the order of approval and share no issue |
| `BatchQueue.Allocator.Add` | src/cmd/queue-batches/batch_queue.go:103-131 | An issue that is not embargoed joins the queue of its organisation only; organisations are to come in the order of their first issues |
| `BatchQueue.Allocator.NextMOCQueue` | src/cmd/queue-batches/batch_queue.go:136-148 | The first queue that is not empty, or none exactly when all are empty: every organisation passed over had nothing queued and came earlier in the list |
| `BatchQueue.Allocator.NextBatch` | src/cmd/queue-batches/batch_queue.go:159-192 | One organisation's queue is split; a batch is made exactly when it reaches the minimum or has an issue that waited for more than 30 days; organisations passed over had nothing queued; other queues are untouched |
| `BatchQueue.Allocator.Drain` | src/cmd/queue-batches/main.go:46-77 | When no issue is over the limit the loop ends, every issue is in exactly one group of its organisation, every batch is within the limit and worth making or overdue, every dropped group is neither |
| `BatchQueue.Allocator.Turns` | src/cmd/queue-batches/main.go:46-77 | While an issue is over the limit the loop does not end, however many turns it makes |
| `IssueKeys.ParsedIssueKey` | src/schema/searchkey.go:28-76 | Parsing a well-formed issue's key gives its LCCN and the numbers of its date and edition |
| `IssueKeys.KeyRoundTrip` | src/schema/searchkey.go:28-95 | A parsed key prints back to the issue's key exactly when year and edition are not 0 |
| `IssueKeys.ParsedZeroSuffix` | src/schema/searchkey.go:28-76 | A parsed key has its zero parts at the end unless it names the year 0 and a month |
| `IssueKeys.KeysAcceptedExactly` | src/schema/searchkey.go:28-76 | A key with digits after its slash is accepted exactly when they are four, six, eight or ten and their year, month and day are a real date; what comes after them does not matter |
| `IssueKeys.KeysWithoutDate` | src/schema/searchkey.go:28-36 | Without a slash and a digit right after the LCCN only the LCCN is asked for; what does not start with a word character is refused |
| `Lookup.Index.CacheIssueLookup` | src/schema/lookup.go:55-80 | Adding an issue keeps all five maps exact |
| `Lookup.Index.Populate` | src/schema/lookup.go:45-51 | Adding a list adds each of its issues once |
| `Lookup.Index.Issues` | src/schema/lookup.go:101-109 | A lookup returns the issues stored under the printed key, sorted by key and TSV, and leaves the index exact |
| `Text.StringLeExactly` | src/schema/schema.go:482-491 | Keys are compared by the first character in which they differ; a beginning comes before the whole |
| `Lookup.IndexKeyMatches` | src/schema/lookup.go:84-98 | An issue's index key equals the printed search key exactly when LCCN and all non-zero parts agree |
| `Lookup.IndexEqualsScan` | src/schema/lookup.go:45-109 | For any search key whose zero parts are a suffix, the index finds exactly what a plain scan finds, with any LCCN |
| `Duplicates.CheckDupes` | src/schema/schema.go:407-421 | An issue gets an error for exactly the later copies the index finds |
| `Duplicates.FlaggedExactly` | src/schema/schema.go:407-474 | Whatever else the scan has found, an issue with a well-formed key is flagged exactly when a copy with its key is at a strictly later step |
| `Duplicates.DuplicateBySteps` | src/schema/schema.go:431-474 | Step by step, for two copies with one well-formed key: nothing is reported against a copy behind it; a live copy is a duplicate of none, and what awaits processing only of a live one; METS and batching are level, as are uploads and scans, which come behind page review and before unfixable issues; an issue without a step is behind all |
| `Duplicates.NoMutualReports` | src/schema/schema.go:431-474 | No two issues report each other |
| `Duplicates.CanonicalCopySurvives` | src/issuewatcher/scanner.go:131-140 | After a full scan, ill-formed issues included, every group of copies with a well-formed key keeps an issue that is not flagged and not behind any of them |
| `FinderCache.CacheSearcher` | src/issuefinder/serialize.go:14-89 | The cached form numbers batches and titles from 1 in order and names each issue's title and batch by number, 0 for no batch |
| `FinderCache.Batch.AddIssue` | src/schema/schema.go:113-116 | Batch and issue refer to each other; the issue is last in the batch |
| `FinderCache.Title.AddIssue` | src/schema/schema.go:148-152 | Title and issue refer to each other; the issue is last in the title |
| `FinderCache.AddSearcher` | src/issuefinder/deserialize.go:49-109 | From any cached form with proper numbers a closed graph of new objects is rebuilt whose cached form is the one given |
| `FinderCache.ReadBackIsSame` | src/issuefinder/deserialize.go:49-109 | A searcher and what is rebuilt from its cached form are isomorphic and give every issue the same TSV |
| `FinderCache.SameTSV` | src/schema/schema.go:259-271 | Isomorphic graphs give every issue the same TSV, issue counts included |
| `FinderCache.Reload` | src/issuefinder/serialize.go:14-89 | Writing and reading back loses only the MARC org codes, database ids and child-error flags of the issues, and the child-error flags of the titles |
| `IssueReports.TSVReadsBackExactly` | src/schema/schema.go:259-271 | The six columns of an issue's line can be read back from it exactly when there is no tab in its location, its date and its files' names |
| `IssueReports.TitleReadsBack` | src/schema/schema.go:143-145 | From the title's column, its location, LCCN, name, place and number of issues, if they have neither tabs nor backslashes |
| `IssueReports.BatchReadsBack` | src/schema/schema.go:108-110 | From the batch's column, its location, full name and number of issues, likewise |
| `IssueReports.NamesReadBackExactly` | src/schema/schema.go:265-270 | From the last column, the files' names, exactly when none has a comma in it |
| `IssueReports.NilIsNoBatch` | src/schema/schema.go:260-263 | The first column is nil exactly when there is no batch |
| `FinderIndex.Finder.AddFound` | src/issuefinder/finder.go:140-155 | Everything a searcher found joins the finder's lists in order, and its issues are recorded under its namespace |
| `FinderIndex.Finder.Find` | src/issuefinder/finder.go:101-109 | The searcher replaces any other of its namespace, and what it found is added to what was there |
| `FinderIndex.Finder.Aggregate` | src/issuefinder/finder.go:160-174 | The lists are rebuilt from the stored searchers, each once |
| `FinderIndex.NamespacesAreRight` | src/issuefinder/finder.go:146-149 | If no issue was found twice, the finder knows the namespace of exactly the issues in its list, and it is that of the searcher that found it |
| `FinderIndex.OrderDoesNotMatter` | src/issuefinder/finder.go:167-173 | The order in which searchers are visited does not change what is found |
| `FinderIndex.AnyOrder` | src/issuefinder/finder.go:167-173 | So any two orders in which Go may visit the map of searchers aggregate the same |
| `FinderIndex.SearchedAgain` | src/issuefinder/finder.go:101-109 | Searching a namespace again leaves the aggregated lists right exactly when the first search had found nothing |
| `FinderIndex.NewInOrder` | src/issuefinder/finder.go:94-96 | A searcher of a new namespace joins the stored ones, each of them still stored once under its own namespace |
| `FinderIndex.CacheFinder` | src/issuefinder/serialize.go:92-98 | The cached finder has the cached form of every stored searcher, once |
| `FinderIndex.ReadFinder` | src/issuefinder/deserialize.go:38-47 | Every cached searcher is rebuilt, stored under its namespace and aggregated, and nothing else |
| `FinderIndex.Reload` | src/issuefinder/deserialize.go:38-46 | A finder written to the cache and read back has the same namespaces, each with an isomorphic searcher that gives the same TSV, and aggregates exactly those, in whatever order they are visited |
| `BatchFullnames.FullnameRoundTrip` | src/schema/schema.go:67-105 | Parsing a batch's full name gives the batch back exactly when its MARC org code has no underscore and its version is 1 to 99 |
| `BatchFullnames.ParsedNameRoundTrip` | src/schema/schema.go:67-105 | An accepted name is printed back unchanged exactly when its version is two digits: ver+5 is accepted too |
| `BatchFullnames.NamesAcceptedExactly` | src/schema/schema.go:67-99 | A name is accepted exactly when it is batch, an organisation code without an underscore, any keyword, and ver with two digits not both 0, or a plus and a digit other than 0 |
| `Workflow.Issue.Claim` | src/models/issue.go:327-341 | A person's claim puts the issue on their desk for a week; the system user and nobody claim nothing; a sane row stays sane exactly when nobody is given an issue in an automated step |
| `Workflow.Issue.Unclaim` | src/models/issue.go:345-356 | The issue is on nobody's desk, without an expiry |
| `Workflow.Issue.QueueForMetadataReview` | src/models/issue.go:360-375 | The issue awaits review under its curator, on the desk of whoever rejected it, or on nobody's; a sane row stays sane: a desk and its time go together, automated steps have no desk, and what is ready was reviewed |
| `Workflow.Issue.ApproveMetadata` | src/models/issue.go:379-385 | The issue is ready for METS, on nobody's desk, and remembers who approved it; a sane row stays sane exactly when the reviewer is not the curator, or may review their own work |
| `Workflow.Issue.RejectMetadata` | src/models/issue.go:389-394 | The issue is on the desk of its curator for a week, ready for metadata entry, and remembers who rejected it; a sane row stays sane |
| `Workflow.Issue.ReportError` | src/models/issue.go:399-403 | The issue is unfixable and on nobody's desk; a sane row stays sane |
| `Workflow.Issue.PrepForRemoval` | src/models/issue.go:437-441 | The issue awaits processing and is on nobody's desk; a sane row stays sane |
| `Workflow.CanValidation.CheckOwns` | src/cmd/server/internal/workflowhandler/can.go:54-68 | Owning means being the owner before the desk expires; otherwise there is an error and a bad-request status |
| `Workflow.Issue.ReturnFor` | src/models/issue.go:408-418 | Only an unfixable issue is returned, to the given desk or to nobody; a sane row stays sane when the step is not an automated one |
| `Workflow.CanValidation.Claim` | src/cmd/server/internal/workflowhandler/can.go:75-113 | A claim is allowed exactly when nobody owns the issue and the user may work in its step, not reviewing their own metadata without the privilege; an error and a status go with every refusal |
| `Workflow.CanValidation.EnterMetadata` | src/cmd/server/internal/workflowhandler/can.go:131-151 | Metadata entry is allowed exactly to the permitted owner of an issue in that step; forbidden exactly for want of the privilege |
| `Workflow.CanValidation.ReviewMetadata` | src/cmd/server/internal/workflowhandler/can.go:160-188 | Review is allowed exactly to the permitted owner of an issue in that step who is not its curator or may review their own work |
| `Workflow.CanValidation.ReviewUnfixable` | src/cmd/server/internal/workflowhandler/can.go:194-215 | Managing an errored issue is allowed exactly to its permitted owner |
| `WorkflowRuns.ChainsSet` | src/jobs/queue.go:117-270 | Which steps each of the five job chains sets, and in which order; a forced rebuild carries the step it found |
| `WorkflowRuns.CarefulStepKeeps` | src/jobs/metadata_jobs.go:22-29 | Every action, command and job step keeps the invariant, however many rebuilds are on their way at once |
| `WorkflowRuns.WorkflowIsSafe` | src/models/issue.go:325-441 | In every run in which an issue is fixed only while no job chain is queued for it and rebuilt only when it is ready for batching: issues in automated steps are on nobody's desk, what is ready for METS or batching was properly reviewed since it was last queued, rejected or reported, and what awaits processing has a chain that moves it on |
| `WorkflowRuns.EventIsSafeExactly` | src/cmd/batch-fixer/schema.go:130-154 | After one more event of any kind, careful continuations stay safe exactly when the event was careful: a fix while a rebuild is queued, or a rebuild queued during another, can always end badly |
| `WorkflowRuns.RunIsSafeExactly` | src/jobs/queue.go:181-194 | A run of an issue's life, with queued rebuilds and chains interleaved in any way, stays safe, now and however carefully it goes on, exactly when it is careful |
| `WorkflowRuns.LateRebuildBreaks` | src/jobs/queue.go:185-194 | A rebuild that comes in after the issue lost its review, by rejection or report, can end with the issue ready for batching |
| `WorkflowRuns.StrandingBreaks` | src/jobs/queue.go:185-194 | A rebuild queued while the issue awaits processing puts it back there at the end, with nothing left to move it on |
| `WorkflowRuns.RejectedComesBack` | src/models/issue.go:360-394 | At any point of any run, metadata that is queued goes to the desk of the reviewer who rejected the issue last, whatever happened in between; to nobody's if that was the batch fixer or nobody |
| `WorkflowRuns.RejectedLands` | src/models/issue.go:389-394 | At any point of any run, an issue that a reviewer or the batch fixer rejects goes to the desk of whoever queued its metadata last: for seven days only they, if permitted, may enter metadata and nobody may claim it; after that anybody permitted may claim it |
| `WorkflowRuns.RejectedWithoutCurator` | src/models/issue.go:389-394 | If nobody has queued its metadata, because a manager returned it for review, it stays on the desk of the reviewer who rejects it |
| `WorkflowRuns.DeskOverRuns` | src/models/issue.go:325-441 | At every point of every run the row names the desk, and for how long, that follows from what people did: claims, rejections, queueings, returns, and everything that ends work on the issue |
| `WorkflowRuns.WhoMayAct` | src/cmd/server/internal/workflowhandler/can.go:54-215 | At every point of every run, exactly who may claim an issue, let it go, queue or report it, approve or reject it, or remove it: told from that desk, the seven days, the step, the privileges and who queued the metadata last |
| `WorkflowRuns.NextToClaim` | src/models/issue.go:325-441 | Who may claim the issue after each kind of action: managers after a report, reviewers after metadata was queued or the issue returned for review, curators after it was returned for curation, nobody after it was approved or sent on |
| `WorkflowRuns.ReadyIsReviewed` | src/models/issue.go:379-385 | In every careful run, an issue ready for METS or for batching was approved, after it was last queued, rejected or reported, by somebody who had not queued its metadata or may review their own |
| `WorkflowRuns.ApproverIsRemembered` | src/models/issue.go:379-385 | At every point of every run the row remembers who approved the issue last |
| `Workflow.UnclaimUndoesClaim` | src/models/issue.go:327-356 | Letting go of a claimed issue puts it back as it was |
| `Durations.Parse` | src/duration/duration.go:57-109 | A text other than nothing and 0 is accepted exactly when it has a group of a number and letters, every group is named by one of the twelve unit names, and no unit is named again after a number above 0; each field is then that of the last group naming it |
| `Durations.GroupsAreTheMatches` | src/duration/duration.go:15-15 | The groups are the leftmost, longest runs of digits with letters right after them, one after the other, and there are no others |
| `Durations.ParsedExactly` | src/duration/duration.go:57-109 | Said of the groups of the text: exactly when it is accepted, and what each field is |
| `Durations.SpacesAndCapitals` | src/duration/duration.go:56-61 | Neither spaces nor capitals matter |
| `Durations.PrintedInOrder` | src/duration/duration.go:111-135 | Printed durations go from years to days, and one of a kind is not a plural |
| `Durations.PrintedWithGap` | src/duration/duration.go:111-135 | What there is none of is left out |
| `Durations.MachineForm` | src/duration/duration.go:139-163 | The machine-readable form: years, months, and seven days for each week with the days |
| `Durations.WeeksOnly` | src/duration/duration.go:139-163 | Weeks on their own keep their letter |
| `Durations.StringRoundTrip` | src/duration/duration.go:123-135 | Reading a printed duration gives that duration, for all durations a Go int can hold |
| `Durations.NormalFormKeepsMeaning` | src/cmd/server/internal/titlehandler/handlers.go:145-152 | Saving the normal form of what was typed and reading it again gives what was typed |
| `Durations.RFC3339RoundTrip` | src/duration/duration.go:139-163 | The machine-readable form is read back as the same period exactly when seven times the weeks plus the days fit an int, or there are only weeks |
| `PairCheck.VerifyPairs` | src/issuefinder/scans.go:119-159 | The verdict is that of the two sorted lists: no TIFF, different counts, first differing pair, or accepted |
| `PairCheck.PairCheckExact` | src/issuefinder/scans.go:147-158 | Comparing the sorted lists accepts exactly when there is a TIFF and the parts before the first dot agree as multisets |
| `PairCheck.ListingCheckExact` | src/issuefinder/scans.go:119-159 | The same, said of any directory's listing |
| `PairCheck.FirstPartIsStem` | src/issuefinder/scans.go:147-158 | What is compared is the file's stem exactly when the name has one dot; otherwise it is less |
| `PairCheck.StemsToldExactly` | src/issuefinder/scans.go:147-158 | Against whatever TIFFs with one dot, the check accepts exactly the pairs of equal stems if and only if each PDF's name has one dot |
| `BatchNames.MaxLength` | src/models/batch_name.go:113-123 | The running maximum is the length of the longest list |
| `BatchNames.RandomBatchName` | src/models/batch_name.go:110-146 | The name is that of the sequence number's place in its block, under the block's shuffle |
| `BatchNames.NamesDiffer` | src/models/batch_name.go:104-109 | If the first list is a longest one, with no word twice and none that starts another, the names of one block are pairwise different, for any shuffle; for given further lists this is one way |
| `BatchNames.NamesDifferExactly` | src/models/batch_name.go:104-109 | For the words of a longest first list it is exact: the names of one block differ whatever the other lists and shuffles are exactly when no word is there twice and none starts another |
| `BatchNames.TwentyNamesDiffer` | src/models/batch_name.go:8-90 | The lists there are meet that condition: twenty names in a block, all different |
| `BatchNames.EachWordIsUsed` | src/models/batch_name.go:104-109 | The first l names of a block use each word of a list of length l as often as the list has it |

## Left out

Statements that are weaker than one may want:

- JobGuarantees.SerialExecution: does not allow `force-rerun`, which is documented as unsafe and breaks the chain on purpose; like the other results of JobGuarantees it is for runs whose operator writes are safe, and JobProtocol.RunKeepsExactly says that these are all the runs that keep the invariant.
- JobGuarantees.WatchAllIsSerial: covers the runners of one `watchall` process; a second process watching the same job types is the case of JobGuarantees.SharedTypeRunsTwice.
- JobPurges.PurgeIsFinal: the chain queued by the purge itself is a chain like any other; that it works on the dead chain's directories at a time when nobody else does is not stated.
- WorldTheorems.UploadLosesNoOriginal: assumes, as all theorems of WorldTheorems do, that nothing but the chain's own jobs writes under the chain's own directories, and that operators' writes are safe in the sense of JobProtocol.StepKeepsExactly.
- WorldTheorems.DeriveLosesNothing: is about files directly in the directory; derivatives may be rewritten. When a failed try has renamed some files, it promises nothing of directories on which some sequence of failed tries can replace a file; RenumberTries.TriesReplaceExactly says which these are, among directories whose page prefixes are positive numbers and in which no two files share number and extension.
- WorldTheorems.DeriveCompletes: the page order is that of prefixes that are positive numbers, and of prefixes of one length that differ in a number at their end only, such as gray0356 and gray0357; how the numeric sort orders other names is up to fileutil, which is not part of this model. That ALTO XML and JP2 files are there is stated for paths without another `.pdf` or `.tif` in them; their content is not modelled, nor whether the issue comes from a scanner, where pages without a TIFF make the job fail.
- WorldTheorems.RemovalLosesNothing: is for separate directories and a removal whose own working directory does not exist yet, where each file is in exactly one place; RemovalRuns.RemovalSparesExactly has the exact condition for keeping them without that.
- WorldTheorems.FinalizeKeepsBackups: is about backups; what METS building writes beside them is one file whose content is not modelled.
- DiskJobs.Storage.SyncDir: copies file by file, and what a failed copy leaves is arbitrary; fileutil is not part of this model, and permissions and times are not represented. Source and destination may not contain each other.
- DiskJobs.Storage.WriteActionLog: the actions are given as the texts that are written; their wrapping and wording is not modelled.
- PageSplitting.PageSplit.Process: the pages pdfseparate makes and the PDF/A form of a page are parameters; a `.pdf.a` file left by a failed conversion only lives in the temporary directory.
- JobModel.JobTable.PopNextPendingJob: among jobs created at the same time any may be taken.
- BatchQueue.Allocator.Add: issues that cannot be wrapped are not added; the error path that reports them through a null reference is not modelled.
- FinderCache.AddSearcher: files have no link back to their issue, and the map of titles by location is not represented.
- FinderIndex.NamespacesAreRight: is for issues found by one searcher each; an issue found by two belongs to whichever was visited last.
- Lookup.Index.Issues: the index's lock is not modelled, nor that sorting the returned list in place reorders the index while only a read lock is held; the order of equal entries is fixed by their text.
- WorkflowRuns.RunIsSafeExactly: people have positive ids; the batch fixer acts on a row that is as it read it; preparing a removal and queueing its chain are one step; a job that sets a step does so once.

Not modelled:

- SQL and transactions: tables are maps and a transaction is one step. Rows saved whole from a stale copy are modelled for jobs, not for issues.
- The batch chain's work on disk, bagit manifests, batch and METS XML, JP2 and ALTO generation, Ghostscript and poppler: steps that succeed or fail.
- Directories that are made above a destination, or emptied by a rename: only the directories that jobs test for are entries of the disk; a directory that held files is one as long as it does.
- Clocks, `time.Parse` and `AddDate`: times are parameters, dates are checked by a predicate for years, months and days.
- Random numbers: a shuffle is any reordering, given as a parameter.
- Unicode: only ASCII letters have upper and lower case, and text is compared character by character.
- The watcher's locks and channels, web handlers and their templates, HTTP caches, web scraping, configuration, command lines, audit logs and the gob encoding.
