# Verified models of Chirp

Dafny models of the parts of the Chirp storage system that carry state: the reliable client handle,
the space allocator, the job server, the distributor of files over many servers, the distributed
matrix, the ticket and access control formats, and the negotiation of an authentication method.

| module | what it models |
|---|---|
| `FileBytes`, `Strided` | files as bytes; the strided transfers of the file system layer |
| `Reli` | the client handle: one block as read cache and write-behind buffer, over retried requests |
| `Matrix` | layout of a matrix over files, row, range and column transfers |
| `Distribute` | the transfer loop that copies a file to many servers |
| `Jobs`, `Scheduler` | the job tables, client transactions, and the scheduler that shares them |
| `Sums`, `Ledger` | accounts of nested allocations and what every operation keeps |
| `AllocCache`, `AllocRuns` | the write-back cache of allocation records and whole runs against it |
| `Recovery`, `RecoveryLedger`, `TreeAccounts` | the recovery scan, and that it establishes exact accounts |
| `AllocLocks` | several processes sharing the records through file locks |
| `Ticket`, `Acl` | text formats and their round trips |
| `Auth` | client and server of the negotiation, over channels that may be cut |
| `Finite`, `Common` | sizes of finite sets; small shared definitions |

`dafny verify dfyconfig.toml` checks everything.

## What the proofs show about the code

Some promises hold only under a condition; each has a lemma with the exact condition or the failing case.

- The root directory's allocation record is cached under two names, "/" for paths of one component and "" for
  deeper paths without an allocation of their own. A charge under one name while the other is cached is not seen
  there, and if both are charged the next flush loses one charge (`AllocCache.AccessExactly`,
  `AllocCache.LostCharge`, `AllocCache.FlushMatters`). `AllocRuns.Allowed` is the exact condition on the events
  since the last flush; `AllocRuns.Run` and `AllocRuns.FlushesDoNotMatter` hold under it.
- `mkalloc` accepts a negative size; accounts stay in order exactly for sizes that are not negative
  (`Ledger.AllocateExactly`).
- After a rename that finds no room, the call that should restore the old charge does nothing
  (`Ledger.UndoIsNoOp`, `Ledger.ReleaseShows`, `AllocRuns.RefusedRename`).
- `job_kill` lowers its count only after the mark is stored. If storing fails, the child is gone and the count
  stays one too high (`Scheduler.JobKill`, `Scheduler.VisitKill`).
- A child of a start that failed is killed and never waited for. If a live row names its process id, the next wait
  takes it for the child of that row and the count falls below the number of children
  (`Scheduler.FailedStartBreaksCount`, `Scheduler.HalfStartBreaksCount`). The count is exactly the children plus the
  slots lost less the strays taken, in every run (`Scheduler.JobServer.Run`).
- A rename of a file to itself gives up its charge (`AllocRuns.RenameToItself`).
- A write of no bytes past the end of a file is charged up to its offset, stores nothing and keeps the charge. The
  accounts stay exact exactly if the charge is nothing (`Ledger.EmptyWriteExactly`, `Ledger.EmptyWriteBreaks`,
  `AllocRuns.AllowedWrite`).
- A buffered write behind a clean, completely full buffer returns 0 (`Reli.ChirpFile.Pwrite`, `Reli.Session`).
- Buffer offsets of large columns and ranges are 32-bit products and may overflow although the file offsets cannot
  (`Matrix.ColumnOffsetsFit`, `Matrix.RangeOffsetsFit`, `Matrix.BuffersOverflow`).
- A strided write is refused if the file ends before its offset, and the bulk request still reports success, so
  setting a column other than the first in a new matrix has no effect (`Matrix.ChirpMatrix.SetCol`).
- A right whose access list cannot be read stays in the ticket with that field unset (`Ticket.ReadRights`).

## Modelling decisions

- Integers are unbounded except where the code's width matters: ticket times are 64-bit, offsets in matrix files
  are shown to stay in range and buffer offsets have the exact condition, and an access flag word is the set of its one bits.
- A transaction is one atomic step that may fail at any statement; a rollback restores the tables and not the
  processes. A start's commit and the count that follows it are one step. A client that restarts after EAGAIN
  is one more transaction.
- What the system does at each visit of `job_wait` and `job_kill` is given by sets of jobs: those whose child is
  quiet (running, stopped, or the wait was interrupted) and those whose statements are stored.
- Process ids are reused by the system; forks are numbered to tell their children apart. `Scheduler.JobServer.Run`
  passes over events that cannot occur in the current state.
- The clock, lookups outside the protocol, results of fork, wait and kill, and backend errors are arguments or
  arbitrary choices. The distributor's hints about clusters are arbitrary, its fork failures and interrupted
  waits bounded in number.
- A handle has one connection, its block size is fixed and at most the server's limit, and the server stores a
  block completely. Offsets and lengths of plain reads and writes are not negative.
- Paths are sequences of components. Text is what stands in front of its terminating zero; a list file is a
  sequence of lines that fit the reader's buffer.

## Model

| member | source | states |
|---|---|---|
| `Strided.Backend.Sread` | queue/cctools/chirp/src/chirp_filesystem.c:603-639 | negative arguments give -1; otherwise the buffer is a prefix of the chunks of the file, and without backend errors all whole chunks up to the first one the file cannot fill |
| `Strided.Backend.Swrite` | queue/cctools/chirp/src/chirp_filesystem.c:641-677 | the file changes only if the result is positive, and then by the first `result` bytes laid out in strides; complete backend writes store every whole chunk |
| `Strided.ScatterByte` | queue/cctools/chirp/src/chirp_filesystem.c:652-666 | with strides that do not overlap, every byte of a strided write ends at its slot |
| `Strided.ScatterKeeps` | queue/cctools/chirp/src/chirp_filesystem.c:652-666 | a position that is no slot keeps its byte |
| `Strided.GatherByte` | queue/cctools/chirp/src/chirp_filesystem.c:614-628 | every byte a strided read returns is the byte at its slot |
| `Strided.GatherOfScatter` | queue/cctools/chirp/src/chirp_filesystem.c:603-677 | reading back a strided write of whole chunks returns the data, for every old file |
| `Strided.ScatterTwice` | queue/cctools/chirp/src/chirp_filesystem.c:641-677 | a strided write that is applied twice, overlapping or not, leaves what one leaves |
| `Reli.PerformTwice` | queue/cctools/chirp/src/chirp_reli.c:214-248 | every request that changes the file is idempotent in effect and answer |
| `Reli.PerformIsTold` | queue/cctools/chirp/src/chirp_server.c:603-990 | every request byte by byte: a truncation keeps the bytes below the new length and fills with zeros, a write stores what the limit lets through, a strided write whole strides in their slots unless it is refused |
| `Reli.Remote.Retry` | queue/cctools/chirp/src/chirp_reli.c:214-248 | however often the loop repeats a request, a successful one took effect exactly once and a failed one once or not at all |
| `Reli.Remote.RetryPread` | queue/cctools/chirp/src/chirp_reli.c:251-254 | an answered read returns the bytes that exist, up to the server's limit |
| `Reli.ChirpFile.Flush` | queue/cctools/chirp/src/chirp_reli.c:422-437 | empties the buffer, and unless a request failed the remote file becomes what the handle stands for |
| `Reli.ChirpFile.PreadBuffered` | queue/cctools/chirp/src/chirp_reli.c:256-287 | without errors returns a prefix of what a plain read would, empty only at the end of the file |
| `Reli.ChirpFile.Pread` | queue/cctools/chirp/src/chirp_reli.c:289-310 | without errors returns exactly the bytes available up to the requested length and changes nothing |
| `Reli.ChirpFile.PwriteBuffered` | queue/cctools/chirp/src/chirp_reli.c:317-355 | without errors the accepted part of the data is overlaid on what the handle stands for; it is empty only in the case of a full clean buffer |
| `Reli.ChirpFile.Pwrite` | queue/cctools/chirp/src/chirp_reli.c:357-378 | without errors the full length is written, except behind a clean full buffer when less than a block is written: then 0, with the buffer emptied so that a repetition writes everything |
| `Reli.ChirpFile.Send` | queue/cctools/chirp/src/chirp_reli.c:386-420 | strided writes and truncations act on what the handle stands for, because the buffer is flushed first, and leave the bytes that PerformIsTold tells |
| `Reli.ChirpFile.Close` | queue/cctools/chirp/src/chirp_reli.c:198-212 | a successful close leaves the remote file equal to what the handle stood for |
| `Reli.Session` | queue/cctools/chirp/src/chirp_reli.c:198-437 | any sequence of operations on one handle observes exactly a plain byte array, and the close that follows leaves the remote file equal to it; a write answers 0 exactly if it is shorter than a block and begins where a filled buffer ends, and every operation moves the buffer as a function of its place and the length of the file |
| `Reli.StallsOnce` | queue/cctools/chirp/src/chirp_reli.c:327-338 | in every run a write that answered 0 is followed by writes that take all their bytes, the same call included |
| `Reli.RunsAgree` | queue/cctools/chirp/src/chirp_reli.c:198-437 | two runs of the same operations from the same file and the same place of the buffer observe the same |
| `Matrix.FileCount` | queue/cctools/chirp/src/chirp_matrix.c:47-59 | the loop stops at the first doubling of the host count whose files are at most a gigabyte, below twice the height, so in 32 bits for heights up to 2^30 |
| `Matrix.FileSizeFits` | queue/cctools/chirp/src/chirp_matrix.c:49-53 | as long as a row fits in a file, the product that the loop computes fits in 64 bits, for every file count |
| `Matrix.NeverEnoughFiles` | queue/cctools/chirp/src/chirp_matrix.c:47-59 | if a row is larger than a gigabyte no file count passes the test, so the loop's exit is unreachable |
| `Matrix.LayoutOneToOne` | queue/cctools/chirp/src/chirp_matrix.c:190-192 | no two bytes of the matrix share a file and an offset |
| `Matrix.LayoutFits` | queue/cctools/chirp/src/chirp_matrix.c:190-192 | every byte of every row lies in an existing file below one gigabyte |
| `Matrix.OffsetFits` | queue/cctools/chirp/src/chirp_matrix.c:242-247 | the offset of a cell and its intermediate products stay within a gigabyte, so 32-bit arithmetic does not wrap |
| `Matrix.ColumnOffsetsFit` | queue/cctools/chirp/src/chirp_matrix.c:316-355 | all buffer offsets of a column are 32-bit integers exactly when the last one is |
| `Matrix.RangeOffsetsFit` | queue/cctools/chirp/src/chirp_matrix.c:280-313 | all buffer offsets of a range are 32-bit integers exactly when the last one is; the result needs one row more |
| `Matrix.BuffersOverflow` | queue/cctools/chirp/src/chirp_matrix.c:270-355 | a layout that passes the size test, and whose column buffer and whole range do not fit |
| `Matrix.ChirpMatrix.Get` | queue/cctools/chirp/src/chirp_matrix.c:242-247 | returns the bytes of the cell as far as the file holds them |
| `Matrix.ChirpMatrix.GetRow` | queue/cctools/chirp/src/chirp_matrix.c:249-254 | returns the bytes of the row, all of them if the file holds the row and a request can carry it |
| `Matrix.ChirpMatrix.SetRow` | queue/cctools/chirp/src/chirp_matrix.c:263-268 | replaces the row, up to the request limit, and no other byte of the matrix |
| `Matrix.ChirpMatrix.SetRange` | queue/cctools/chirp/src/chirp_matrix.c:270-291 | refuses a range outside the matrix; if the result is a 32-bit integer it succeeds exactly when a row of the range fits a request, and then exactly the bytes of the range are replaced |
| `Matrix.ChirpMatrix.GetRange` | queue/cctools/chirp/src/chirp_matrix.c:293-314 | refuses a range outside the matrix; if the result is a 32-bit integer it succeeds exactly when the rows fit a request and are all present, and returns their bytes row by row |
| `Matrix.ChirpMatrix.GetCol` | queue/cctools/chirp/src/chirp_matrix.c:316-334 | if the buffer offsets fit, agrees with get on every row that one request per file reaches; elsewhere the caller's buffer keeps its bytes |
| `Matrix.ChirpMatrix.SetCol` | queue/cctools/chirp/src/chirp_matrix.c:337-355 | if the buffer offsets fit, replaces exactly the column in files that reach it; a file that ends before the column is left alone, which the answer does not tell |
| `Matrix.ChirpMatrix.SetGetCol` | queue/cctools/chirp/src/chirp_matrix.c:316-355 | set and get of a column give the data back when no file ends before the column; other columns never change |
| `Distribute.FlatMatrixInjective` | queue/cctools/chirp/src/chirp_distribute.c:97-112 | the flat index of the failure matrix is one-to-one, so rows of marks model it |
| `Distribute.LaunchKeeps` | queue/cctools/chirp/src/chirp_distribute.c:710-722 | starting a transfer keeps the joint invariant |
| `Distribute.LandKeeps` | queue/cctools/chirp/src/chirp_distribute.c:769-808 | collecting a transfer with any exit keeps the joint invariant |
| `Distribute.RetireKeeps` | queue/cctools/chirp/src/chirp_distribute.c:703-707 | giving up a source keeps the joint invariant |
| `Distribute.TreeRootedAtSource` | queue/cctools/chirp/src/chirp_distribute.c:643-816 | from every holder of the data successful transfers lead back to node 0, each from a node that held the data earlier |
| `Distribute.OneSuccessPerHolder` | queue/cctools/chirp/src/chirp_distribute.c:787-808 | every holder but node 0 has exactly one SUCCESS mark in its column |
| `Distribute.ProcsCountEndpoints` | queue/cctools/chirp/src/chirp_distribute.c:710-722 | nprocs is the number of SENDING nodes and of RECEIVING nodes |
| `Distribute.ChildIsUnique` | queue/cctools/chirp/src/chirp_distribute.c:787-803 | the process id of a transfer belongs to one sender and one receiver only |
| `Distribute.BrokenIsTriedAgain` | queue/cctools/chirp/src/chirp_distribute.c:793-796 | in every run a target whose transfers only broke can be served by exactly the holders whose own transfer to it did not break |
| `Distribute.ResetIsFinal` | queue/cctools/chirp/src/chirp_distribute.c:793-796 | in every run a target that reset a transfer has failed and can be served by nobody |
| `Distribute.LaunchLogged` | queue/cctools/chirp/src/chirp_distribute.c:710-722 | the log of a run stays orderly: no pair is started twice, and nothing is started to a target that has the data or reset a transfer |
| `Distribute.LandLogged` | queue/cctools/chirp/src/chirp_distribute.c:769-808 | states and marks go on telling how every transfer of the log ended |
| `Distribute.Distributor.PickSource` | queue/cctools/chirp/src/chirp_distribute.c:656-661 | the first IDLE node, or -1 exactly when there is none |
| `Distribute.Distributor.PickTarget` | queue/cctools/chirp/src/chirp_distribute.c:663-700 | a FRESH target on which this source has not failed: the first in an open cluster, else the first in its own cluster, else the first; none only if there is none |
| `Distribute.Distributor.Launch` | queue/cctools/chirp/src/chirp_distribute.c:716-722 | both ends change state and carry the process id; the pair was never started before in this run |
| `Distribute.Distributor.Land` | queue/cctools/chirp/src/chirp_distribute.c:769-808 | the source is IDLE again; the target is IDLE exactly after success, FAILED exactly after a reset connection and FRESH exactly after any other failure; their mark tells success or failure and no other node or mark changes |
| `Distribute.Distributor.Run` | queue/cctools/chirp/src/chirp_distribute.c:643-816 | the loop ends, by unattempted pairs, transfers in flight and IDLE nodes, and keeps the invariant: every pair is attempted at most once and nprocs never exceeds maxprocs; it stops for enough copies only if that many targets have the data |
| `Jobs.ProgressedStep` | queue/cctools/chirp/src/chirp_job.c:94-163 | one more transaction keeps a run's history: statuses only move to later stages, terminal rows are frozen, reaping times never change |
| `Jobs.UpdateAll` | queue/cctools/chirp/src/chirp_job.c:464-602 | commit and kill succeed exactly when the ids are distinct, exist, are the caller's (or the caller is the superuser) and are in the right state; then every listed job has the new status with owner and priority unchanged, a commit its time, and all else stays; otherwise nothing changes |
| `Jobs.Reap` | queue/cctools/chirp/src/chirp_job.c:917-985 | exactly the listed jobs of the caller that are FINISHED, ERRORED or KILLED and were not reaped get a row with the current time; only which ids are listed matters |
| `Jobs.ReapIdempotent` | queue/cctools/chirp/src/chirp_job.c:917-985 | reaping the same jobs again, later, changes nothing |
| `Jobs.SelectorMeaning` | queue/cctools/chirp/src/chirp_job.c:816-816 | zero selects every job, a positive selector that id, a negative one the ids from its absolute value on |
| `Jobs.WaitPoll` | queue/cctools/chirp/src/chirp_job.c:840-878 | at most 1024 distinct ids, each terminal, unreaped, the caller's and selected, and all such ids if there are fewer; ESRCH exactly when nothing is left to reap |
| `Scheduler.WaitStepSpare` | queue/cctools/chirp/src/chirp_fs_local_scheduler.c:588-631 | what a visit of job_wait does to the difference between count and children, in any state: nothing, or one less if the row names a stray |
| `Scheduler.WaitKeepsCountExactly` | queue/cctools/chirp/src/chirp_fs_local_scheduler.c:588-631 | the count stays at least the number of children exactly if the visit does not take a stray for the child of its row, or there was a slot to spare |
| `Scheduler.FailedStartBreaksCount` | queue/cctools/chirp/src/chirp_fs_local_scheduler.c:485-494 | a run in which the count falls below the number of children: a start that fails after the fork, with the process id of a row left by a predecessor, and then a wait |
| `Scheduler.HalfStartBreaksCount` | queue/cctools/chirp/src/chirp_fs_local_scheduler.c:479-491 | the same without a second row, if END and jerrored fail and the second END works |
| `Scheduler.ClashExactly` | queue/cctools/chirp/src/chirp_fs_local_scheduler.c:454-501 | after any end of job_start no live row names a stray exactly if the start does not leave one with such a process id |
| `Scheduler.WaitStepKeeps` | queue/cctools/chirp/src/chirp_fs_local_scheduler.c:588-631 | a visit of job_wait keeps rows and children in agreement, in this database and in the one it may be rolled back to |
| `Scheduler.WaitStepStatus` | queue/cctools/chirp/src/chirp_fs_local_scheduler.c:588-631 | what a visit of job_wait makes of a STARTED job: FINISHED without its row if its process was there to collect, ERRORED with its row if there was none, untouched if the child is quiet or the statements fail; nothing else changes |
| `Scheduler.JobWait` | queue/cctools/chirp/src/chirp_fs_local_scheduler.c:568-645 | rolled back, or every visited job is FINISHED exactly if its process was collected for it in this call, ERRORED exactly if none was left, and as before if its child was quiet; all other jobs and rows stay and no process goes without a FINISHED job. Rolled back or not, each process collected lowers the count by one, and rows and children stay in agreement |
| `Scheduler.KillStepRows` | queue/cctools/chirp/src/chirp_fs_local_scheduler.c:672-722 | what a visit of job_kill does: the row is marked and its process gone unless the child is quiet; the job stays as it is |
| `Scheduler.VisitKill` | queue/cctools/chirp/src/chirp_fs_local_scheduler.c:672-722 | a visit of job_kill: a slot is lost exactly if a counted child is collected and its mark not stored |
| `Scheduler.JobKill` | queue/cctools/chirp/src/chirp_fs_local_scheduler.c:647-741 | rolled back, or exactly the rows of KILLED jobs whose child was not quiet are gone, with their processes and no others, and no job changes. A child that is collected while its mark cannot be stored leaves the count one too high, with the database unchanged |
| `Scheduler.SelectFifo` | queue/cctools/chirp/src/chirp_fs_local_scheduler.c:743-765 | a committed job of least priority value and, among those, least commit time; none exactly if there is no committed job |
| `Scheduler.StartSound` | queue/cctools/chirp/src/chirp_fs_local_scheduler.c:454-501 | every way job_start can end, with any process id the system may give, keeps rows and children in agreement |
| `Scheduler.StartForward` | queue/cctools/chirp/src/chirp_fs_local_scheduler.c:402-501 | every way job_start can end moves statuses forward, and leaves a terminal job alone |
| `Scheduler.StartStatus` | queue/cctools/chirp/src/chirp_fs_local_scheduler.c:402-501 | the tables after every end of job_start, by status and row: ERRORED if the failure was stored, STARTED with a row that names the child if it runs, nothing if the failure was not stored or the job had ended |
| `Scheduler.StartProcessForks` | queue/cctools/chirp/src/chirp_fs_local_scheduler.c:402-501 | a start that got as far as the fork leaves one more process, which counts as a child exactly if the job runs |
| `Scheduler.CountExactly` | queue/cctools/chirp/src/chirp_fs_local_scheduler.c:767-790 | the account of every run read as a bound: the children number at most count exactly if no more strays were taken than slots lost. The steps that take a stray or leave one are those of WaitKeepsCountExactly and ClashExactly |
| `Scheduler.JobServer.Change` | queue/cctools/chirp/src/chirp_job.c:464-602 | on success every listed job has the new status, a commit also the new commit time, and nothing else changes; the scheduler's invariant holds in either case |
| `Scheduler.JobServer.ReapJobs` | queue/cctools/chirp/src/chirp_job.c:917-985 | on success every listed, ended job of the caller is reaped, earlier reaping times stay; the scheduler's invariant holds |
| `Scheduler.JobServer.Wait` | queue/cctools/chirp/src/chirp_fs_local_scheduler.c:568-645 | the wait phase gives statuses as JobWait does, keeps the invariant and drops no row of an uncollected child |
| `Scheduler.JobServer.Kill` | queue/cctools/chirp/src/chirp_fs_local_scheduler.c:647-741 | the kill phase clears rows as JobKill does and keeps the invariant; a slot of the count is lost only in a failed transaction |
| `Scheduler.JobServer.Select` | queue/cctools/chirp/src/chirp_fs_local_scheduler.c:743-765 | a job is selected only while there is room, and it is first by priority and commit time; none only if there is no room or no committed job |
| `Scheduler.JobServer.Start` | queue/cctools/chirp/src/chirp_fs_local_scheduler.c:454-501 | tables and processes as StartStatus and StartProcessForks say; the count rises exactly if the job runs; every end keeps the exact account |
| `Scheduler.JobServer.Run` | queue/cctools/chirp/src/chirp_fs_local_scheduler.c:767-790 | in every interleaving of client and scheduler transactions statuses only move forward, the count never exceeds the concurrency and is exactly the children plus the slots lost less the strays taken |
| `Ledger.SpaceIsRounded` | queue/cctools/chirp/src/chirp_alloc.c:70-77 | the least multiple of the block size that holds the file |
| `Ledger.NearestIsLongest` | queue/cctools/chirp/src/chirp_alloc.c:177-197 | the walk ends at the longest prefix of the path that holds a record |
| `Ledger.NoClamp` | queue/cctools/chirp/src/chirp_alloc.c:79-88 | in exact accounts no size change of a file makes the use negative, so the clamp never fires |
| `Ledger.ResizeKeeps` | queue/cctools/chirp/src/chirp_server.c:603-631 | a write or truncation that fits keeps all accounts exact and within quota |
| `Ledger.RemoveKeeps` | queue/cctools/chirp/src/chirp_server.c:1056-1068 | deleting a file always fits and keeps all accounts exact |
| `Ledger.RenameKeeps` | queue/cctools/chirp/src/chirp_server.c:1119-1143 | a successful rename between different files keeps all accounts exact, also across allocations |
| `Ledger.AllocateKeeps` | queue/cctools/chirp/src/chirp_alloc.c:506-538 | a new allocation keeps all accounts exact: its size is charged around it and it starts unused |
| `Ledger.AllocateExactly` | queue/cctools/chirp/src/chirp_alloc.c:516-524 | accounts stay in order exactly when the size is not negative, which the code does not check |
| `Ledger.SubtreeBound` | queue/cctools/chirp/src/chirp_alloc.c:392-435 | the files in an allocation's whole subtree, at any depth, never take more than its size |
| `Ledger.UseOfSubtree` | queue/cctools/chirp/src/chirp_alloc.c:392-435 | what all allocations at or below one use is the space of the files below it plus the sizes of the allocations strictly below |
| `Ledger.UndoIsNoOp` | queue/cctools/chirp/src/chirp_server.c:1129-1138 | the call that should restore a charge after a failure finds the old size and does nothing |
| `Ledger.ReleaseShows` | queue/cctools/chirp/src/chirp_server.c:1129-1138 | so after a failed rename the accounts are exact exactly when the file was empty |
| `Ledger.EmptyWriteExactly` | queue/cctools/chirp/src/chirp_server.c:603-631 | a write of no bytes keeps the accounts exact exactly if it is charged nothing: it does not fit, or its offset lies in blocks the file already pays for |
| `Ledger.EmptyWriteBreaks` | queue/cctools/chirp/src/chirp_server.c:603-631 | a write of no bytes behind the first byte of an empty file, with room for a block, makes them wrong |
| `AllocCache.RootKeyIsNearest` | queue/cctools/chirp/src/chirp_alloc.c:177-197 | however it is spelled, the walk's result is the nearest allocation |
| `AllocCache.PayerSpelling` | queue/cctools/chirp/src/chirp_alloc.c:177-197 | the root directory pays as "/" for what is right in it and as "" for everything deeper without an allocation |
| `AllocCache.AccessExactly` | queue/cctools/chirp/src/chirp_alloc.c:216-247 | a lookup and charge leaves one right record under both spellings of the root directory exactly if the record on disk was current and a charge finds the other spelling not cached |
| `AllocCache.FlushMatters` | queue/cctools/chirp/src/chirp_alloc.c:353-378 | two charges under different spellings add up with a flush between them and not without |
| `AllocCache.FlushShows` | queue/cctools/chirp/src/chirp_alloc.c:353-378 | when the spellings differ, a flush in any order changes what a lookup under one of them shows |
| `AllocCache.FlushKeeps` | queue/cctools/chirp/src/chirp_alloc.c:353-378 | when they agree, a flush in any order leaves on disk what was visible |
| `AllocCache.LostCharge` | queue/cctools/chirp/src/chirp_alloc.c:364-368 | once both spellings of the root directory are charged, a flush in either order loses one of the charges |
| `AllocCache.SaveAll` | queue/cctools/chirp/src/chirp_alloc.c:364-368 | saving in any order leaves every record, and for the root directory the spelling saved last |
| `AllocCache.ReallocIs` | queue/cctools/chirp/src/chirp_alloc.c:392-435 | a charge whose access is clear succeeds exactly when the rounded difference fits what is available, and then exactly the nearest allocation is charged |
| `AllocCache.ReallocIsTold` | queue/cctools/chirp/src/chirp_alloc.c:392-435 | in any state: the difference in whole blocks is charged to the record that the lookup shows exactly if the size is unchanged or that much is left, with the use kept from going below zero; no other record, file or directory changes |
| `AllocCache.Allocator.Load` | queue/cctools/chirp/src/chirp_alloc.c:199-247 | in any state finds the nearest allocation, through the lookup cache too, and shows the cached record or the one on disk |
| `AllocCache.Allocator.Charge` | queue/cctools/chirp/src/chirp_alloc.c:392-435 | acts and answers as ReallocIsTold tells, through the lookup cache too |
| `AllocCache.Allocator.Truncate` | queue/cctools/chirp/src/chirp_server.c:1100-1118 | the file has exactly the new size if the answer is 0 and is unchanged otherwise; the difference is charged if there is room, also where the file system refuses, because the undo call does nothing |
| `AllocCache.Allocator.Pwrite` | queue/cctools/chirp/src/chirp_server.c:603-631 | a write within the file is charged nothing, one behind its end the blocks up to its own end, and it is refused exactly if they do not fit; what was stored leaves the larger of the old size and its own end, and no other file changes |
| `AllocCache.Allocator.Unlink` | queue/cctools/chirp/src/chirp_server.c:1056-1068 | the file is gone exactly if the answer is 0, with its blocks given back; nothing else changes |
| `AllocCache.Allocator.Rename` | queue/cctools/chirp/src/chirp_server.c:1119-1143 | the old name is given back first; then the new name is charged and the file moves, or no file changes, for any two names and in any state |
| `AllocCache.InBlocksIs` | queue/cctools/chirp/src/chirp_alloc.c:444-469 | the whole blocks of the size and of what is left, zero if nothing is |
| `AllocCache.Allocator.Statfs` | queue/cctools/chirp/src/chirp_alloc.c:444-469 | the blocks and the available blocks, not less than zero, of the record that the lookup shows for the allocation around the path |
| `AllocCache.Allocator.Lsalloc` | queue/cctools/chirp/src/chirp_alloc.c:478-504 | the nearest allocation at or above the path with the record that the lookup shows |
| `AllocCache.Allocator.Mkalloc` | queue/cctools/chirp/src/chirp_alloc.c:506-538 | succeeds exactly when the directory can be made and more than the size is available; then the new record and the charge are saved with everything else, and nothing outdated is cached |
| `AllocCache.Allocator.Flush` | queue/cctools/chirp/src/chirp_alloc.c:353-378 | saves every record in some order and empties both caches |
| `AllocRuns.AfterKeeps` | queue/cctools/chirp/src/chirp_server.c:603-1143 | every operation in scope keeps the accounts exact and within quota; a write of no bytes is in scope exactly where it is charged nothing |
| `AllocRuns.AllowedWrite` | queue/cctools/chirp/src/chirp_server.c:603-631 | a completely stored write of any length changes file and accounts as the ledger says, also where that makes them wrong |
| `AllocRuns.AllowsExactly` | queue/cctools/chirp/src/chirp_alloc.c:177-247 | the condition on the events since the last flush is exactly that both spellings show the one right record after the access |
| `AllocRuns.GrantMayBeLost` | queue/cctools/chirp/src/chirp_alloc.c:516-524 | a new allocation in the root directory, whose record has an unsaved charge under the other spelling, may lose its charge |
| `AllocRuns.RefusedRename` | queue/cctools/chirp/src/chirp_server.c:1129-1138 | a rename whose new name has no room leaves the charge of the old one given back, although the file stays |
| `AllocRuns.RenameToItself` | queue/cctools/chirp/src/chirp_server.c:1129-1131 | a rename of a file to itself gives its charge back and does not take it again |
| `AllocRuns.Run` | queue/cctools/chirp/src/chirp_alloc.c:353-538 | a run whose events are in scope and do not mix the spellings of the root directory between flushes completes, leaves and answers what it would without any cache, and keeps the accounts exact and within quota; writes of no bytes that are charged something are out of scope |
| `AllocRuns.FlushesDoNotMatter` | queue/cctools/chirp/src/chirp_alloc.c:353-378 | two allocators with the same accounts that run the same events, apart from flushes, end with the same accounts and the same answers, if neither run mixes the spellings |
| `Recovery.Scan.Recover` | queue/cctools/chirp/src/chirp_alloc.c:256-296 | every allocation at or below the path gets its use, and the allocation around the path grows by what belongs to it |
| `Recovery.Init` | queue/cctools/chirp/src/chirp_alloc.c:324-340 | after the scan of any tree every allocation has its use |
| `RecoveryLedger.OwnTotal` | queue/cctools/chirp/src/chirp_alloc.c:256-296 | what the scan adds up is the sum of the costs reached without crossing another allocation |
| `RecoveryLedger.OwnIsFibre` | queue/cctools/chirp/src/chirp_alloc.c:177-197 | those are exactly the files and sub-allocations whose nearest allocation it is |
| `RecoveryLedger.RecoveryConserves` | queue/cctools/chirp/src/chirp_alloc.c:256-296 | accounts that list the tree and take their use from the scan are exact, for every tree with nested allocations |
| `TreeAccounts.PlaceOfEntry` | queue/cctools/chirp/src/chirp_alloc.c:271-277 | every entry of a directory is in the accounts, except ".", ".." and names that begin with ".__" |
| `TreeAccounts.RecoverTree` | queue/cctools/chirp/src/chirp_alloc.c:298-351 | after the scan of any tree exactly its allocations have records, with their sizes, and the accounts of its files and allocations are exact |
| `AllocLocks.NextInv` | queue/cctools/chirp/src/chirp_alloc.c:90-155 | every step of any process, under any spelling, keeps locks and caches in agreement |
| `AllocLocks.StartHolds` | queue/cctools/chirp/src/chirp_alloc.c:298-351 | processes that have just started hold no lock and show the records on disk |
| `AllocLocks.NextKeeps` | queue/cctools/chirp/src/chirp_alloc.c:90-155 | a step whose second load, if it is one, reads what the first shows, and whose charge finds the other spelling not cached, acts as if there were one copy of each record |
| `AllocLocks.NextExactly` | queue/cctools/chirp/src/chirp_alloc.c:90-155 | and only such a step does: every other one leaves two spellings in one process with different records |
| `AllocLocks.NoChargeIsLost` | queue/cctools/chirp/src/chirp_alloc.c:216-247 | after any run of any number of processes in which every step is of that kind, every record is what its charges make it, in the order they happened |
| `AllocLocks.ChargesAddUp` | queue/cctools/chirp/src/chirp_alloc.c:79-173 | a record has the size it began with and its first use plus all charges by all processes, unless the sum goes below zero; once nobody holds it, so does the one on disk |
| `AllocLocks.MixedLoses` | queue/cctools/chirp/src/chirp_alloc.c:216-247 | a run of one process that mixes them loses a charge |
| `AllocLocks.OneCacher` | queue/cctools/chirp/src/chirp_alloc.c:106-117 | at most one process caches an allocation |
| `AllocLocks.WaitingHoldsNothing` | queue/cctools/chirp/src/chirp_alloc.c:106-117 | a process that waits for a lock holds none |
| `AllocLocks.NoDeadlock` | queue/cctools/chirp/src/chirp_alloc.c:106-117 | a process that is waited for waits for nobody, and its flush lets the waiting one go on |
| `Ticket.ReadQuote` | queue/cctools/chirp/src/chirp_ticket.c:31-48 | returns the quoted text and the position behind it, never past the end |
| `Ticket.ReadRights` | queue/cctools/chirp/src/chirp_ticket.c:144-158 | both strings of a right, or a right without an access list when the second cannot be read |
| `Ticket.ReadField` | queue/cctools/chirp/src/chirp_ticket.c:116-166 | one turn of the loop either ends it or moves the position forward, with the same final result |
| `Ticket.AcceptsExactly` | queue/cctools/chirp/src/chirp_ticket.c:90-176 | the reader accepts exactly the texts made of well-written fields and white space that name subject, ticket and at least one right and have not expired; later fields overrule earlier ones and rights add up |
| `Ticket.Read` | queue/cctools/chirp/src/chirp_ticket.c:90-176 | ends on every text; succeeds exactly on the good ones, with the fields they spell and the default right if there is none |
| `Ticket.ToString` | queue/cctools/chirp/src/chirp_ticket.c:63-88 | prints subject, ticket, expiration and rights in order |
| `Ticket.RoundTrip` | queue/cctools/chirp/src/chirp_ticket.c:63-176 | reading the printed form of a well-formed ticket gives back all its fields |
| `Ticket.PrintThenRead` | queue/cctools/chirp/src/chirp_ticket.c:63-176 | and succeeds exactly when the ticket has not expired |
| `Ticket.TimeRoundTrip` | queue/cctools/chirp/src/chirp_ticket.c:134-142 | every 64-bit time survives printing as an unsigned number and parsing |
| `Ticket.StrToUlIs` | queue/cctools/chirp/src/chirp_ticket.c:134-142 | strtoul on white space, sign and digits: the decimal value, modulo two to the power of 64 if negative, cut off if too large |
| `Acl.FlagsToText` | queue/cctools/chirp/src/chirp_acl.c:712-759 | the text of a set of rights, which fits the buffer of twenty characters |
| `Acl.PlainSpelled` | queue/cctools/chirp/src/chirp_acl.c:718-731 | the order of the letters |
| `Acl.InnerSpelled` | queue/cctools/chirp/src/chirp_acl.c:735-750 | the order of the letters in the brackets |
| `Acl.TextToFlags` | queue/cctools/chirp/src/chirp_acl.c:761-809 | the rights of a text whose brackets are closed |
| `Acl.PlainMean` | queue/cctools/chirp/src/chirp_acl.c:761-809 | each right outside the brackets is set exactly if its letter is there |
| `Acl.ReservedMean` | queue/cctools/chirp/src/chirp_acl.c:761-809 | each right inside the brackets is set exactly if its letter is there |
| `Acl.FlagsRoundTrip` | queue/cctools/chirp/src/chirp_acl.c:712-809 | parsing a printed set of rights gives its normal part; the text for no rights is printed exactly when that part is empty |
| `Acl.NormalExactly` | queue/cctools/chirp/src/chirp_acl.c:732-752 | a set of rights survives exactly when bits in brackets come only with the reserve right and no unknown bit is set |
| `Acl.ParsedIsNormal` | queue/cctools/chirp/src/chirp_acl.c:761-809 | whatever is parsed survives printing and parsing |
| `Acl.FitsIsScanned` | queue/cctools/chirp/src/chirp_acl.c:689-704 | a line with a subject, a space and rights is scanned into these parts |
| `Acl.ScannedFits` | queue/cctools/chirp/src/chirp_acl.c:689-704 | and no other line is |
| `Acl.ReadEntry` | queue/cctools/chirp/src/chirp_acl.c:689-704 | the next entry of the file, passing over lines that have none |
| `Acl.Set` | queue/cctools/chirp/src/chirp_acl.c:602-624 | the lines written: old entries that keep rights, with the subject's replaced, and a new one if it was absent |
| `Acl.SetReadsBack` | queue/cctools/chirp/src/chirp_acl.c:602-704 | reading the new file gives the old entries in order without the empty ones, the subject's replaced or removed, or appended |
| `Acl.SetGrants` | queue/cctools/chirp/src/chirp_acl.c:602-704 | whatever names a lookup accepts, setting gives the subject exactly the rights set and leaves everyone else what they had |
| `Auth.ClientHears` | queue/cctools/dttools/src/auth.c:63-98 | the client's reaction to any line that can be on the way keeps both sides in step |
| `Auth.ServerHears` | queue/cctools/dttools/src/auth.c:120-147 | the server's reaction to any line that can be on the way keeps both sides in step, through a unix challenge too |
| `Auth.NextKeeps` | queue/cctools/dttools/src/auth.c:58-168 | every step of either side and every cut keeps the joint invariant |
| `Auth.ClientSuccess` | queue/cctools/dttools/src/auth.c:47-87 | if the client succeeds the server has succeeded with the same type and subject, the method is the first in the client's order that works, and the subject is the server's verdict with exactly the spaces and non-printing characters replaced by underscores |
| `Auth.SamePoint` | queue/cctools/dttools/src/auth_unix.c:42-72 | after every refused or failed method both sides are at the start of the same attempt with nothing on the way |
| `Auth.ClientGivesUp` | queue/cctools/dttools/src/auth.c:97-106 | without a failed read the client gives up only if no method works |
| `Auth.LossEnds` | queue/cctools/dttools/src/auth.c:63-106 | a client whose reads fail proposes at most one more method and gives up |
| `Auth.NoStandstill` | queue/cctools/dttools/src/auth.c:58-168 | as long as nothing is cut the two sides never wait for each other |

## Left out

- Short writes, putstream, strided writes, directory renames and removal of allocation directories in the server: the code's accounts are not exact there.
- AllocRuns.AfterKeeps: leaves out operations that the file system refuses after the charge, because the undo calls do not restore it (`Ledger.UndoIsNoOp`).
- AllocLocks.NoChargeIsLost: a flush is one step, so the moment between the saves of two records is not modelled.
- Paths with a trailing slash in the allocator, and symbolic links.
- A crash of a server process with unsaved records, and the closing of a second descriptor of a locked record.
- Reads that time out while the channel still works, in the negotiation: after one the two sides may be out of step.
- Kerberos, globus and ticket authentication: they run on foreign libraries and commands.
- Opening and stale-file detection of client handles, `sread` through a handle, and pipelined bulk requests other than their effect on each file.
- `chirp_matrix_set`: it writes as many bytes as a pointer has. The host list and the metadata file of a matrix are not modelled.
- Lines longer than the reader's buffer in tickets and access lists, and access texts whose bracket is not closed: the code then reads past the end of the text.
- Arguments, environment and files of a job, time columns other than commit and reaping, and the status query: they add no transitions.
- The clustering file of the distributor, and its bandwidth table.
- Distribute.Distributor.Run: the number of failed forks and interrupted waits is bounded by an argument, because with unboundedly many the loop need not end.
- Matrix.NeverEnoughFiles: states the mathematical value of the product; for rows above a gigabyte the 64-bit product may wrap around while there are few files.
- Matrix.ChirpMatrix.SetCol: the model stops at a refused strided write. The server does not read the data that follows the request and takes it for further requests.
- Scheduler.JobServer.Start: the process id of a new child is taken not to be that of another uncollected child, as the system guarantees.
- AllocCache.Allocator.Charge: models the path as its components, so the record is found under at most the two spellings of the root directory.
- Recovery.Init: allocation sizes in the tree are not negative.
