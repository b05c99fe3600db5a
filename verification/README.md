# Verified models of the image application's core

This project models the parts of the macOS application and its command-line worker that are hardest
to get right, and proves in Dafny what they are for. `dafny verify dfyconfig.toml` checks all of it.

- **Publishing an image** (`Crc`, `Png`, `Publication`). A generated file is checked chunk by chunk,
  its identity is recorded, the intent is saved, and an exclusive rename publishes it; a restart
  resolves whatever a crash left. Files are inodes with reusable numbers; a crash of the program may
  fall between any two steps, foreign programs may create, remove or rewrite the destination, and
  recoveries may crash themselves.
- **Supervising a worker** (`ProcessTable`, `Supervisor`, `Delivery`, `Capture`, `Admission`,
  `StoreLatch`). The
  system is a process table with reusable identifiers, groups, zombies and a boot number. The runner
  spawns, signals, reaps and drains; a journal names the worker before it is admitted; a restarted
  program decides from the journal whether the worker is gone; two flags keep the store closed
  meanwhile. Everything other processes do may fall between any two system calls.
- **Tiled upscaling** (`Tiling`, `Upscaler`, `Compositing`, `Rendering`). Tile placement, mirror padding, ramps,
  accumulation in flat arrays, division, and alpha resampling. Floating-point numbers are reals.
- **Incremental byte protocols** (`EventStream`, `EventEmitter`, `JsonKeys`, `Http`, `Messages`). Event lines from
  producer to consumer, a scanner for repeated JSON member names, and the request parser over a
  growing buffer.
- **History, cache, receipts, one-shot waits** (`TrashOutputs`, `CacheTrim`, `Receipt`,
  `PendingRead`).

Code that changes state step by step is modelled by classes and loops; each method's contract ties
its new state to a specification function, and the properties are lemmas about those functions and
about runs of steps. They come in both directions: what must not happen, and what has to, such as
the signals of a stop (`Delivery`), the bytes of a rendered image (`Rendering`) or the status of a
request from its text (`Messages`). Where a step is not enabled in a state, it changes nothing.

Properties that the code does not have, each with a concrete state or run and the exact condition
under which it does hold:

- Recovery compares inode numbers. If the verified inode was unlinked in between, its number can be
  reused, and a foreign file with the same bytes is adopted: `Publication.ForeignCopyIsAdopted` is a
  run from the beginning of a job, and `Publication.ForeignFileIsNotAdopted` shows that it takes
  such a reuse.
- `refreshWorkerCleanup` checks its flags before it waits for the runner and not again afterwards.
  When two refreshes overlap, the second can reopen the store during a generation
  (`StoreLatch.OverlapDefeatsLatch`); a resuming refresh is harmless exactly if no operation is in
  flight (`StoreLatch.ResumeKeepsLatchExactly`).
- `trashOutputs` records only moves for which the system reports the new place. A move that worked
  without a report is neither undone nor marked when a later step fails (`TrashOutputs.SilentMove`).
  Paths are visited in order, so what is moved before a failure is known before the call: the history
  stays truthful exactly if all of it is reported (`TrashOutputs.FailureIsTruthful`).
- Bytes after an HTTP message are refused only if a read returned them together with its end
  (`Http.DeliveredAtBoundary`, `Http.ExtraBytesDependOnReads`, and `Messages.BytesAfterAGet` for actual
  requests).
- The program accepts receipts with counters from 2^53 on that the worker never makes
  (`Receipt.InexactCountersAreAccepted`): an accepted receipt is the worker's exactly if all counters
  are below (`Receipt.AcceptedIsComputedExactly`).
- An event stream with a second resolution is refused, though the worker writes it
  (`EventEmitter.ARunIsRefused`): producer and consumer agree exactly if at most one is written
  (`EventEmitter.ProducerAndConsumerAgree`).
- A crash after a launch was recorded and before its journal exists leaves a job that waits for
  cleanup for good (`Admission.LaunchWithoutJournalIsNeverSettled`); with a journal the next restart
  settles it (`Admission.RestartSettles`). This is safe and intended, since a missing journal is no
  proof of exit.

Assumptions about other processes are stated where they are used, each with a lemma that shows what
goes wrong without it: workers do not leave their process group, which is the runner's own contract
(`Admission.EscapedMemberIsNotSeen`); nobody else in the program reaps the runner's children
(`Supervisor.StolenLeader`); and no foreign process enters a worker's group
(`Supervisor.IntruderIsSignalled`). The steps of the process table further let a worker process enter
only groups of its own launch and a foreign newcomer only foreign groups, and a process's start time,
modelled by a serial number, is never shared by two processes.
The consumer of events is assumed to decode the messages that the run in question writes, and every
run has such an encoding (`EventEmitter.EveryRunHasACodec`). A crash means the death of the program,
not of the machine: the job history is not flushed to the disk.

## Model

| member | source | states |
|---|---|---|
| Crc.BuildTable | apps/macos/ImageOutputTransaction.swift:21-25 | the 256 entries computed by the shift loop are the register after eight bit steps |
| Crc.TableEntry | apps/macos/ImageOutputTransaction.swift:22-24 | one entry: eight conditional shifts equal eight bit steps of the register |
| Crc.Update | apps/macos/ImageOutputTransaction.swift:45-47 | the loop over a piece leaves what feeding its bytes one by one leaves |
| Crc.Extend | apps/macos/ImageOutputTransaction.swift:64-71 | updating with one more piece continues the register of everything read so far |
| Crc.TableLookup | apps/macos/ImageOutputTransaction.swift:46 | the table step of a byte equals its step without a table |
| Crc.TableIsBitwise | apps/macos/ImageOutputTransaction.swift:45-47 | for every byte string the table-driven register equals the bit-by-bit one |
| Crc.FeedConcat | apps/macos/ImageOutputTransaction.swift:67-71 | feeding two pieces in turn equals feeding their concatenation |
| Crc.ChecksumInPieces | apps/macos/ImageOutputTransaction.swift:64-72 | for every way to cut the data into pieces the register is that of all the bits together |
| Crc.PolynomialIsGenerator | apps/macos/ImageOutputTransaction.swift:23 | the constant is the reflected generator polynomial of Annex D of the W3C PNG specification |
| Crc.RegisterDivides | apps/macos/ImageOutputTransaction.swift:21-25 | the register holds the remainder of a polynomial long division, for every start value and message |
| Crc.ChecksumIsRemainder | apps/macos/ImageOutputTransaction.swift:64-72 | the checksum is the complement of the remainder that Annex D of the PNG specification defines |
| Png.NumberRoundTrip | apps/macos/ImageOutputTransaction.swift:42-44 | every 32-bit length is read back from its four big-endian bytes |
| Png.File.ReadExactly | apps/macos/ImageOutputTransaction.swift:33-41 | however short the single reads are, exactly the next bytes are returned, or an error at the end of the file |
| Png.File.ReadPayload | apps/macos/ImageOutputTransaction.swift:64-71 | a payload read in pieces leaves the register of the whole payload |
| Png.File.ReadHeader | apps/macos/ImageOutputTransaction.swift:52-54 | length and type are those of the eight bytes at the current position |
| Png.File.ReadBody | apps/macos/ImageOutputTransaction.swift:64-72 | a chunk body is accepted exactly if its four last bytes are its checksum |
| Png.File.Validate | apps/macos/ImageOutputTransaction.swift:29-81 | the imperative parser accepts exactly the files that the decoder accepts |
| Png.File.ValidateChunks | apps/macos/ImageOutputTransaction.swift:49-80 | the chunk loop accepts exactly the chunk lists that the scan accepts from this position |
| Png.FollowsIsShape | apps/macos/ImageOutputTransaction.swift:50-79 | the three flags of the loop mean: one leading IHDR, one contiguous run of IDAT, a final empty IEND |
| Png.FormatInBytes | apps/macos/ImageOutputTransaction.swift:54-80 | the format in the letters of the chunk types: one leading IHDR of 13 bytes, one contiguous run of IDAT, one final empty IEND |
| Png.SerializeThenDecode | apps/macos/ImageOutputTransaction.swift:48-80 | every well-formed list of chunks, serialized, is accepted and decoded to itself |
| Png.DecodeThenSerialize | apps/macos/ImageOutputTransaction.swift:48-80 | accepted bytes decode to one well-formed list whose serialization is those bytes |
| Png.AcceptsExactlyTheFormat | apps/macos/ImageOutputTransaction.swift:29-81 | accepted bytes are exactly the serializations of well-formed chunk lists |
| Publication.Volume.RenameExclusive | apps/macos/ImageOutputTransaction.swift:298-300 | the rename succeeds exactly if the destination is free, and then moves the staged file |
| Publication.Transaction.Prepare | apps/macos/ImageOutputTransaction.swift:115-194 | a receipt exactly for a file that passes the checks, once per transaction; no file changes |
| Publication.Transaction.Publish | apps/macos/ImageOutputTransaction.swift:289-302 | publishes exactly the verified, unchanged file to a free destination; otherwise nothing changes |
| Publication.Transaction.Release | apps/macos/ImageOutputTransaction.swift:97-101 | the staging directory is removed unless it is kept for a recovery that is still needed |
| Publication.RecoverFinalizing | apps/macos/ImageOutputTransaction.swift:226-287 | the recovery of one record leaves the files and the verdict of the recovery steps |
| Publication.FinalizeImage | apps/macos/JobStore.swift:999-1058 | finalization with its error path leaves the files and the saved record of its schedule of steps |
| Publication.ScheduleOutcome | apps/macos/JobStore.swift:999-1058 | what each combination of cancellation and failed saves leaves on disk: the destination, no staged file, no staging directory, and the saved record |
| Publication.RunKeepsInv | apps/macos/JobStore.swift:1010-1058 | every run of store steps, foreign steps, crashes and restarts keeps the invariant |
| Publication.SuccessIsJustified | apps/macos/JobStore.swift:1010-1030 | a job is saved as succeeded only for a file at the destination with the verified inode, size and hash |
| Publication.EvidenceIsAtDestination | apps/macos/ImageOutputTransaction.swift:289-302 | that file was at the destination when the decision was taken |
| Publication.NeverReplaces | apps/macos/ImageOutputTransaction.swift:296-300 | whatever is at the destination is never replaced, changed or removed by any run |
| Publication.ForeignFileIsNotAdopted | apps/macos/ImageOutputTransaction.swift:279-283 | recovery refuses a foreign file at the destination while the verified inode stays linked |
| Publication.FreedInodeCanBeAdopted | apps/macos/ImageOutputTransaction.swift:279-283 | once the verified inode was unlinked its number can be reused, and a foreign copy is then adopted: the restriction is exact |
| Publication.FreedIsReached | apps/macos/JobStore.swift:1010-1030 | such a state is reached from the beginning of a job: published, then a crash before success is saved, then the image is deleted |
| Publication.ForeignCopyIsAdopted | apps/macos/ImageOutputTransaction.swift:279-283 | one run from the beginning of a job at whose end a foreign copy of the image is recorded as the image |
| Publication.RecoverOutcome | apps/macos/JobStore.swift:190-219 | one undisturbed restart in closed form: success exactly if an acceptable file exists, which then is at the destination |
| Publication.AttemptThenRecover | apps/macos/ImageOutputTransaction.swift:226-287 | a restart cut off after any of its steps changes nothing for the next one |
| Publication.RecoveryIsIdempotent | apps/macos/JobStore.swift:190-219 | after any number of crashed restarts the next complete one has the same outcome |
| Publication.RecoveryFinishesThePublication | apps/macos/JobStore.swift:206-213 | a crash between intent and rename is repaired if the destination is free, and refused if not |
| Publication.RenameIsNeverLost | apps/macos/JobStore.swift:1013-1058 | after the rename, through any crashes and restarts, the next undisturbed recovery saves success |
| Publication.PublishIsDone | apps/macos/ImageOutputTransaction.swift:296-301 | the rename of a generation leaves the state from which nothing is lost |
| Publication.RelinkIsDone | apps/macos/ImageOutputTransaction.swift:284 | so does the rename made by a recovery |
| ProcessTable.EnvSound | apps/macos/NativeProcessRunner.swift:3-5 | whatever other processes do, a process group stays within one launch and reused identifiers do not mix them |
| Supervisor.ChildProcess.HasExited | apps/macos/NativeProcessRunner.swift:39-46 | observing an exit does not reap; a wait that fails loses the identity |
| Supervisor.ChildProcess.SendSignal | apps/macos/NativeProcessRunner.swift:47-53 | nothing is sent after collection or loss; otherwise the group, and the leader only if it left the group |
| Supervisor.ChildProcess.Reap | apps/macos/NativeProcessRunner.swift:54-60 | collects the status only of an observed exit |
| Supervisor.ChildProcess.IsCleaned | apps/macos/NativeProcessRunner.swift:61-62 | clean means collected and an empty group |
| Supervisor.ProcessRunner.PollCleanup | apps/macos/NativeProcessRunner.swift:72-77 | idle exactly if no child is retained and no run is active |
| Supervisor.ProcessRunner.Supervise | apps/macos/NativeProcessRunner.swift:174-208 | the supervision loop computes the rounds of the specification; who must be signalled in them is stated by Delivery.RoundDelivers, who must not by the lemmas below |
| Supervisor.ProcessRunner.RunRequest | apps/macos/NativeProcessRunner.swift:149-216 | refused requests change nothing; otherwise the child ends cleaned or retained |
| Supervisor.SignalsStayInTheFamily | apps/macos/NativeProcessRunner.swift:33-78 | over every interleaving of requests, rounds, polls of retained children and other processes, under reuse of identifiers: every nonzero signal ever sent was meant for a launched worker and reached only its family |
| Supervisor.StolenLeader | apps/macos/NativeProcessRunner.swift:37-46 | without the assumption that nobody else reaps the leader a signal can reach a foreign process |
| Supervisor.IntruderIsSignalled | apps/macos/NativeProcessRunner.swift:47-53 | without the assumption that no foreign process enters a worker's group a signal can reach one that did |
| Supervisor.SilentAfterRelease | apps/macos/NativeProcessRunner.swift:47-60 | after the status is collected or the identity lost, no nonzero signal is sent in any later round |
| Supervisor.NeverBoth | apps/macos/NativeProcessRunner.swift:39-60 | a collected status and a lost identity never coexist |
| Supervisor.OneWorkerAtATime | apps/macos/NativeProcessRunner.swift:65-78 | over every interleaving of runs, polls and other processes: one launch at a time, pending implies active, and an open lock means that no worker process is left |
| Supervisor.ReopensOnlyWhenCleaned | apps/macos/NativeProcessRunner.swift:72-77 | a retained lock reopens only in a step that collected the child and saw its group empty, whatever others do |
| Supervisor.LostIsForever | apps/macos/NativeProcessRunner.swift:70-77 | a lost identity keeps admission closed forever |
| Supervisor.RoundDeadlines | apps/macos/NativeProcessRunner.swift:176-206 | in every round, the first after a failed admission included, with a clock reading of its own for each deadline: a need for a stop starts the first deadline at once, and deadlines never move |
| Supervisor.DeadlinesHold | apps/macos/NativeProcessRunner.swift:201-206 | the loop does not outlast its deadlines, however its rounds and clock readings fall |
| Supervisor.LoopEndsInTime | apps/macos/NativeProcessRunner.swift:165-206 | from the start of any supervision, each deadline being compared with a clock reading of its own: it ends within grace, reap and one polling interval after the stop that a cancellation, a failure of a pipe or a failed admission calls for, and within reap after the round that sees the exit |
| Supervisor.GraceIsGiven | apps/macos/NativeProcessRunner.swift:201-204 | nobody is stopped without a reason, and a stopped child is killed only after its grace |
| Delivery.RoundDelivers | apps/macos/NativeProcessRunner.swift:182-206 | the round of a child that can still be signalled: a deadline that it sets comes with a signal of its kind to everybody alive in the group at that moment, a stop before the kill its grace leads to, and nothing else is sent |
| Delivery.RunDelivers | apps/macos/NativeProcessRunner.swift:174-206 | over every supervision: a child reported as stopped by force was sent SIGTERM and then SIGKILL unless its identity was lost; no stop or kill is missing or without its deadline |
| Delivery.QuietRound | apps/macos/NativeProcessRunner.swift:182-206 | undisturbed, a round collects an exited leader, changes nothing else, and is the last exactly if the group is empty or the last deadline has passed |
| Delivery.QuietPoll | apps/macos/NativeProcessRunner.swift:72-77 | undisturbed, a poll reopens admission exactly if the retained leader has exited and its group is empty |
| Delivery.SupervisionHasReason | apps/macos/NativeProcessRunner.swift:180-206 | no supervision ends before its identity is lost and it is said to have failed, its child is collected and the group empty, or its last deadline has passed |
| Delivery.ExitIsRight | apps/macos/NativeProcessRunner.swift:39-46 | an exit is seen exactly if the leader is a zombie of ours; the identity is lost exactly if the leader is no child of ours |
| Delivery.ReapIsRight | apps/macos/NativeProcessRunner.swift:54-60 | collecting takes such a zombie, seen twice, from the table |
| Capture.Pipe.Drain | apps/macos/NativeProcessRunner.swift:122-144 | a drain takes the next reads up to the first that ends it and no further; it closes the pipe exactly at its end, every failure has its own cause, and what is kept is the first bytes of all that were taken |
| Capture.KeepMore | apps/macos/NativeProcessRunner.swift:134-136 | appending what is allowed of a piece keeps the first bytes of the whole stream |
| Capture.DrainFlows | apps/macos/NativeProcessRunner.swift:122-144 | a drain of such a pipe reads to the end, or its share of bytes and leaves such a pipe |
| Capture.NothingLost | apps/macos/NativeProcessRunner.swift:130-143 | without a failure everything taken from the pipe was kept |
| Capture.CauseMeans | apps/macos/NativeProcessRunner.swift:127-143 | read failures, a refusing observer and the limit each hold exactly for their cause in the last read |
| Capture.DrainToEnd | apps/macos/NativeProcessRunner.swift:188-200 | pipes that hold their whole output, within the limit and accepted by the observer, are read to the end with all their bytes; the loop ends because what is kept is capped, and without a failure only with both pipes closed and complete |
| Admission.AwaitAdmission | apps/cli/startup_gate.hpp:7-12 | the worker starts exactly if the first read that is not interrupted gives the byte 1 |
| Admission.OnlyTheByteAdmits | apps/cli/startup_gate.hpp:7-12 | end of file, errors and any other byte never admit |
| Admission.JobDirectory.WriteAll | apps/macos/WorkerProcessIdentity.swift:104-112 | the write loop appends the data in any pieces, and reports success exactly if all of it was written |
| Admission.JobDirectory.Persist | apps/macos/WorkerProcessIdentity.swift:95-120 | between any two calls the journal is absent, what it was, or complete; it is never overwritten |
| Admission.JobDirectory.Load | apps/macos/WorkerProcessIdentity.swift:65-92 | a journal is read completely or not at all |
| Admission.PersistThenLoad | apps/macos/WorkerProcessIdentity.swift:64-120 | a persisted journal is read back whole |
| Admission.ObservationIsRight | apps/macos/WorkerProcessIdentity.swift:30-49 | an exit is observed only if no process of the worker is alive, and presence only of the launched process, however identifiers are reused |
| Admission.StepKeepsInv | apps/macos/JobStore.swift:189-247 | every step of store, runner, worker and system keeps the invariant |
| Admission.AdmittedIsJournaled | apps/macos/NativeProcessRunner.swift:157-175 | over every interleaving, crash and reboot: an admitted worker is the one its journal names |
| Admission.SettledOnlyWhenGone | apps/macos/JobStore.swift:189-247 | over every interleaving, crash, reboot and reuse of identifiers: staging is discarded and the job declared over only when no worker process is alive |
| Admission.JournalIsImmutable | apps/macos/WorkerProcessIdentity.swift:93-115 | a journal is written once and never replaced |
| Admission.MissingJournalIsNeverSettled | apps/macos/WorkerProcessIdentity.swift:64-68 | a launch without a journal is never taken for an exit, through any later restarts, reboots and refreshes |
| Admission.LaunchWithoutJournalIsNeverSettled | apps/macos/JobStore.swift:189-200 | the run that gets there: the launch is recorded, the worker spawned, and the program dies before the journal; whatever follows, the job is never settled |
| Admission.RestartSettles | apps/macos/JobStore.swift:190-218 | with a journal and an empty group the next restart settles the job, as interrupted or by the recovery of its image; only a directory that was kept after a saved exit outlives it |
| Admission.RefreshSettles | apps/macos/JobStore.swift:228-246 | so does a refresh, once the runner has collected the child it held: the job is interrupted and its directory gone |
| Admission.OrdinaryLaunch | apps/macos/NativeProcessRunner.swift:157-175 | with nothing in the way a launch is recorded, journaled and admitted, and nothing else changes |
| Admission.OrdinaryEnd | apps/macos/JobStore.swift:999-1030 | then the worker exits and is collected, and its image is published and the directory gone |
| Admission.RefusedRun | apps/macos/NativeProcessRunner.swift:164-175 | a worker whose journal could not be written is not admitted, exits, and is collected |
| Admission.FailedLaunchIsOver | apps/macos/JobStore.swift:190-201 | a launch that failed is interrupted at the next restart |
| Admission.OverStaysOver | apps/macos/JobStore.swift:190 | a restart leaves jobs that are over alone |
| Admission.DeathForgets | apps/macos/JobStore.swift:189-225 | what a crash and a reboot leave: no child of ours, no held worker, a closed gate, and the saved record, journal and directory |
| Admission.FinalizingIsRecovered | apps/macos/JobStore.swift:190-216 | over every run: a saved intent to publish comes with the saved exit of the worker, which is gone, so every restart leaves the job to the recovery of its image and never to cleanup |
| Admission.EscapedMemberIsNotSeen | apps/macos/NativeProcessRunner.swift:3-5 | a worker that leaves its group is not seen: the contract that forbids it is needed |
| StoreLatch.StepKeepsLatch | apps/macos/JobStore.swift:545-563 | every step but a resuming refresh keeps: cleanup pending implies busy, and one operation at a time |
| StoreLatch.ResumeKeepsLatchExactly | apps/macos/JobStore.swift:228-246 | a resuming refresh keeps it exactly if no operation is in flight |
| StoreLatch.LatchHolds | apps/macos/JobStore.swift:228-247 | over every run without overlapping refreshes the latch holds |
| StoreLatch.CleanupImpliesBusy | apps/macos/JobStore.swift:228-247 | in such runs a job that waits for cleanup blocks every new operation |
| StoreLatch.BeginningIsLatched | apps/macos/JobStore.swift:189-225 | after every start of the program the latch holds, whatever the history says |
| StoreLatch.OverlapDefeatsLatch | apps/macos/JobStore.swift:229-241 | two overlapping refreshes reopen the store during a generation, so that a job can wait for cleanup while the store is not busy |
| StoreLatch.NativeJobStore.EndRefreshing | apps/macos/JobStore.swift:230-246 | the refresh resolves exactly the jobs whose worker is gone and then sets both flags |
| StoreLatch.NativeJobStore.EndGeneration | apps/macos/JobStore.swift:1031-1049 | the error path marks the job and leaves the flags of the specification |
| TrashOutputs.Store.TrashAll | apps/macos/JobStore.swift:304-308 | paths are visited in increasing order; the moved files are those before the first move that fails, and files, bin and list of moves agree at every point |
| TrashOutputs.Store.Trash | apps/macos/JobStore.swift:297-333 | selection, moves and first save decide in this order, and exactly, between success and the three errors; the files moved are those before the first path in order whose move fails; after success exactly the records with output at selected paths are marked; a failure restores the history except for files that could not be moved back; no file is lost |
| TrashOutputs.Store.TrashPaths | apps/macos/JobStore.swift:303-332 | the part that moves: success exactly if every file can be moved and the history saved, otherwise what was moved is undone |
| TrashOutputs.SelectableMeans | apps/macos/JobStore.swift:275-302 | a selection is deletable exactly if the program is idle and each identifier is that of a finished, managed, unread record with its output |
| TrashOutputs.Store.RestoreAll | apps/macos/JobStore.swift:317-321 | moving back in reverse order restores every file that can be restored |
| TrashOutputs.Store.MoveBack | apps/macos/JobStore.swift:315-331 | what is restored, marked and saved after a failure |
| TrashOutputs.SuccessIsTruthful | apps/macos/JobStore.swift:309-313 | after success every record with output still has its file |
| TrashOutputs.FailureIsTruthful | apps/macos/JobStore.swift:305-326 | stated before the call: after a failure the history is truthful exactly if every file that gets moved, those before the first failing move or all of them if only the save fails, is moved with a report of its new place |
| TrashOutputs.SilentMove | apps/macos/JobStore.swift:305-330 | such a run: one finished job, a move without a report, a failed save; the record still has its output and its file is gone |
| Tiling.ReflectLaws | apps/macos/ImageUpscaler.swift:101-105 | mirroring fixes the line, is even and periodic, for every index and length |
| Tiling.ReflectInRange | apps/macos/ImageUpscaler.swift:101-105 | every mirrored index is inside the line |
| Tiling.DoubleRemainder | apps/macos/ImageUpscaler.swift:103 | the truncating double remainder is the never negative one |
| Tiling.Starts | apps/macos/ImageUpscaler.swift:106-113 | the loop computes the tiling: from the edge, each start following the last, only the last tile reaching the other edge |
| Tiling.StartsOfIsTiling | apps/macos/ImageUpscaler.swift:106-113 | the list in closed form is a tiling for every length, tile and overlap |
| Tiling.TilingIsUnique | apps/macos/ImageUpscaler.swift:106-113 | there is only one such list |
| Tiling.TilingShape | apps/macos/ImageUpscaler.swift:106-113 | tiles lie inside the line and neighbours share at least the overlap |
| Tiling.TilingIncreases | apps/macos/ImageUpscaler.swift:106-113 | starts increase strictly |
| Tiling.Covered | apps/macos/ImageUpscaler.swift:106-113 | every position is in some tile |
| Upscaler.SourcePixel | apps/macos/ImageUpscaler.swift:160 | every padded source index is inside the image |
| Upscaler.CellInjective | apps/macos/ImageUpscaler.swift:162 | input positions of different colours, rows and columns do not collide |
| Upscaler.FillInput | apps/macos/ImageUpscaler.swift:156-163 | the padded, unpremultiplied input has the right value at every position |
| Upscaler.Weight | apps/macos/ImageUpscaler.swift:175-180 | the product of the ramps is positive and at most one |
| Upscaler.OutputPixel | apps/macos/ImageUpscaler.swift:181 | the output index of a tile position is in bounds and recovers row and column |
| Upscaler.AddPixel | apps/macos/ImageUpscaler.swift:182-188 | one pixel accumulates its weight and three clamped, weighted colours; values that are not finite stop it |
| Upscaler.AddRow | apps/macos/ImageUpscaler.swift:174-189 | a row of a tile changes exactly its own stretch of the buffers |
| Upscaler.AddTile | apps/macos/ImageUpscaler.swift:172-190 | a tile adds its weight and colours to exactly the pixels it covers |
| Upscaler.InputIsUnique | apps/macos/ImageUpscaler.swift:156-163 | a tile has exactly one padded input |
| Upscaler.LayLine | apps/macos/ImageUpscaler.swift:153-190 | one line of tiles adds exactly those tiles to the buffers |
| Upscaler.Blend | apps/macos/ImageUpscaler.swift:147-193 | after all tiles the buffers hold the sums over the grid of tiles; it stops exactly at a tile that is not finite |
| Compositing.EveryPixelIsCovered | apps/macos/ImageUpscaler.swift:147-153 | every output pixel is covered by a tile of the grid |
| Compositing.EveryWeightIsPositive | apps/macos/ImageUpscaler.swift:182 | every accumulated weight is positive |
| Compositing.MeanWithin | apps/macos/ImageUpscaler.swift:187 | whatever is predicted, the blended colour lies between 0 and 1 |
| Compositing.MeanOfCrops | apps/macos/ImageUpscaler.swift:172-190 | tiles that are crops of one image add up to that image times the weight |
| Compositing.NeighboursCrossfade | apps/macos/ImageUpscaler.swift:175-180 | across the overlap of neighbours the two weights have a constant sum |
| Compositing.StackedCrossfade | apps/macos/ImageUpscaler.swift:175-180 | the same for tiles one below the other |
| Compositing.AlphaReproducesPlanes | apps/macos/ImageUpscaler.swift:198-203 | alpha is interpolated linearly between pixel centres in both directions |
| Compositing.AlphaWithin | apps/macos/ImageUpscaler.swift:196-203 | resampled alpha stays within the range of the source: opaque images stay opaque |
| Compositing.ColourAtMostAlpha | apps/macos/ImageUpscaler.swift:205 | a colour byte is at most the alpha byte |
| Compositing.ComposePixel | apps/macos/ImageUpscaler.swift:204-206 | four bytes of a pixel from its sums, the weight and alpha |
| Compositing.Compose | apps/macos/ImageUpscaler.swift:194-208 | every byte of the result is the specified one |
| Compositing.BlendedIsUsable | apps/macos/ImageUpscaler.swift:186 | if rendering got through, no tile of the grid was predicted with a value that is not finite |
| Compositing.Render | apps/macos/ImageUpscaler.swift:89-208 | it succeeds exactly for allowed sizes and finite predictions of the tiles of the grid; bytes are in range with colour at most alpha; and if those tiles are predicted as crops of one image, the result is that image |
| Compositing.LocalModelPredictsCrops | apps/macos/ImageUpscaler.swift:153-163 | for a model that works pixel by pixel tiling changes nothing |
| Compositing.PixelwiseIsLocal | apps/macos/ImageUpscaler.swift:164 | there is such a model for every function of one colour |
| Rendering.RenderPixelwise | apps/macos/ImageUpscaler.swift:113-208 | for every model that is a function of one colour: each colour byte of the result is that function of the straight colour of the source pixel below, times the resampled alpha |
| Rendering.RenderIdentity | apps/macos/ImageUpscaler.swift:113-208 | with the model that changes nothing and even alpha, every output pixel has the four bytes of the source pixel below, channel by channel |
| Rendering.PositionIsCentred | apps/macos/ImageUpscaler.swift:197-201 | alpha is sampled at pixel centres: evenly spaced, symmetric, held inside the image |
| Rendering.AllowedMeans | apps/macos/ImageUpscaler.swift:96-107 | the limit that is checked is one on the pixels of the result |
| Rendering.TilesAreNeighbours | apps/macos/ImageUpscaler.swift:106-113 | the crossfade is that of the tiles that are laid: consecutive ones, but perhaps the last two, are at the regular distance |
| EventStream.WorkerEventStream.Consume | apps/macos/WorkerEventStream.swift:33-50 | one piece of the stream leaves the state of feeding its bytes in turn |
| EventStream.WorkerEventStream.CheckLine | apps/macos/WorkerEventStream.swift:51-78 | an accepted line has exactly the effect of its message; a refused one has none |
| EventStream.WorkerEventStream.Finish | apps/macos/WorkerEventStream.swift:79-87 | finishing requires no failure, no half event and the same resolution |
| EventStream.ChunksDoNotMatter | apps/macos/RuntimeImageWorker.swift:488-505 | callbacks, failure and buffer are the same for every split of the stream |
| EventStream.FailureIsSticky | apps/macos/WorkerEventStream.swift:35-49 | after a failure nothing changes any more |
| EventStream.LineMeans | apps/macos/WorkerEventStream.swift:51-78 | which lines are diagnostics, which events are accepted and with what effect, condition by condition, and that all others fail the stream |
| EventStream.FeedIsBounded | apps/macos/WorkerEventStream.swift:42-46 | the buffer never exceeds its limit by more than one byte |
| EventStream.SplitIsExact | apps/macos/WorkerEventStream.swift:38-40 | splitting at line feeds loses and adds nothing |
| EventStream.FramingIsSplitting | apps/macos/WorkerEventStream.swift:33-53 | framing means: split at line feeds, skip lines without the prefix, fail on an overlong one with it, check the rest in order |
| EventStream.CallbacksAreOrderly | apps/macos/WorkerEventStream.swift:62-77 | whatever bytes arrive, callbacks are one resolution first and progress in increasing order |
| EventStream.CallbacksAreCorrelated | apps/macos/WorkerEventStream.swift:51-60 | every callback comes from a complete line of its own, in order, that carries this request's identity |
| EventEmitter.Events.Write | apps/cli/worker_events.hpp:20-33 | an event is written whole or not at all, and only written events take a number |
| EventEmitter.Events.ReportProgress | apps/cli/worker_events.hpp:42-59 | a report passes exactly the filters of the specification, for which cadence and budget are proved |
| EventEmitter.BudgetIsKept | apps/cli/worker_events.hpp:26-28 | all event lines together stay within 512 KiB, and every byte on the stream is accounted for |
| EventEmitter.CadenceIsKept | apps/cli/worker_events.hpp:48-56 | while a phase goes on, each event after its first takes a quarter of a second, over any number of reports |
| EventEmitter.NothingElseIsDropped | apps/cli/worker_events.hpp:42-59 | a report that leaves no event although there is room is one of a block, or repeats a phase within a quarter of a second; previews and new phases always pass |
| EventEmitter.BlocksAreNotReported | apps/cli/worker_events.hpp:54 | over every run blocks of a transformer are never reported |
| EventEmitter.RunAgrees | apps/cli/worker_events.hpp:20-59 | after every operation the consumer of everything written agrees with the emitter, or has failed if a second resolution was written |
| EventEmitter.ProducerAndConsumerAgree | apps/cli/worker_events.hpp:20-60 | what a well-formed worker writes, mixed with diagnostics and split anywhere, is accepted if and only if at most one resolution was written; callbacks are then exactly the emitted payloads in order |
| EventEmitter.SecondResolutionFails | apps/macos/WorkerEventStream.swift:64 | reporting a good resolution twice fails the stream when both fit |
| EventEmitter.EveryRunHasACodec | apps/cli/worker_events.hpp:20-33 | for every run there is an encoding whose messages the consumer can read, so the agreement is about real runs |
| EventEmitter.ARunArrives | apps/cli/worker_events.hpp:20-60 | a run with a resolution, a diagnostic and a progress report arrives completely |
| EventEmitter.ARunIsRefused | apps/macos/WorkerEventStream.swift:64 | a well-formed run with two resolutions, readable to its consumer, whose stream is refused |
| JsonKeys.Scanner.SkipSpace | apps/macos/LocalHTTPGateway.swift:336 | skips exactly the white space |
| JsonKeys.Scanner.ReadString | apps/macos/LocalHTTPGateway.swift:338-348 | reads the literal up to its closing quote |
| JsonKeys.Scanner.ReadValue | apps/macos/LocalHTTPGateway.swift:349-374 | the recursive scanner over the shared index computes the scan of the text that is left |
| JsonKeys.Scanner.ReadEntries | apps/macos/LocalHTTPGateway.swift:356-369 | the loop over members or elements computes their scan |
| JsonKeys.Scanner.Check | apps/macos/LocalHTTPGateway.swift:333-376 | the whole text: the verdict of the specification |
| JsonKeys.StringEnds | apps/macos/LocalHTTPGateway.swift:338-348 | escapes never end a literal early or late |
| JsonKeys.ScanValue | apps/macos/LocalHTTPGateway.swift:349-374 | a printed value in any context is consumed exactly, or refused, by depth and names |
| JsonKeys.ScanList | apps/macos/LocalHTTPGateway.swift:356-369 | the same for the entries of an object or array, given the names already seen |
| JsonKeys.UniqueList | apps/macos/LocalHTTPGateway.swift:360-361 | the running set of names amounts to pairwise distinct decoded names |
| JsonKeys.VerdictIsExact | apps/macos/LocalHTTPGateway.swift:333-376 | the verdict on every text of a value with anything after it: trailing text and excessive depth are malformed, repeated names are told apart |
| JsonKeys.InCharacters | apps/macos/LocalHTTPGateway.swift:333-376 | the same in characters, for an object with two members and an array with two elements |
| JsonKeys.AcceptsExactlyUniqueKeys | apps/macos/LocalHTTPGateway.swift:333-376 | for every value and any white space: accepted exactly if nesting is at most 128 and every object has distinct decoded names |
| Http.ParseRequest | apps/macos/LocalHTTPGateway.swift:149-184 | the parser with its loop over header lines computes the specified outcome |
| Http.FindEndIsFirst | apps/macos/LocalHTTPGateway.swift:150 | the head ends at the first empty line |
| Http.ParsePrefix | apps/macos/LocalHTTPGateway.swift:149-184 | what every prefix of a stream comes to, given where its head ends and what it says |
| Http.AcceptedIsExact | apps/macos/LocalHTTPGateway.swift:181-182 | before an accepted message everything is incomplete, after it everything is refused |
| Http.FailureIsFinal | apps/macos/LocalHTTPGateway.swift:149-184 | a refused buffer stays refused when it grows |
| Http.Connection.Append | apps/macos/LocalHTTPGateway.swift:112-131 | one read: the buffer is parsed whole, and cleared when a request is handed on |
| Http.Connection.ReadAll | apps/macos/LocalHTTPGateway.swift:107-135 | reading piece by piece until something is decided comes to what the stream of pieces comes to |
| Http.DeliveredAtBoundary | apps/macos/LocalHTTPGateway.swift:107-135 | a request is handed on exactly if some read ends where its message ends |
| Http.NothingDelivered | apps/macos/LocalHTTPGateway.swift:107-135 | without an accepted beginning nothing is handed on |
| Http.SegmentationDoesNotMatter | apps/macos/LocalHTTPGateway.swift:107-135 | a stream that is one message gives the same request in every segmentation |
| Http.ExtraBytesDependOnReads | apps/macos/LocalHTTPGateway.swift:182 | with bytes after the message the outcome depends on whether a read returned them together |
| Messages.GetIsAccepted | apps/macos/LocalHTTPGateway.swift:149-184 | a GET with a host line is accepted for every path without spaces and line ends that fits the head, with that path and that one header |
| Messages.BytesAfterAGet | apps/macos/LocalHTTPGateway.swift:107-135 | for every such GET and every bytes after it: handed on if the reads end with it, refused if one read returns both |
| Messages.MessageOutcome | apps/macos/LocalHTTPGateway.swift:149-184 | what becomes of every request line, list of fields and body: 403 for a foreign origin or host, 400 for chunks, 405 for other methods, 400 without a number as length, 413 beyond the limit, 400 for a GET with a body or a wrong media type, and otherwise accepted with exactly its body |
| Messages.PostIsAccepted | apps/macos/LocalHTTPGateway.swift:170-183 | every body within the limit arrives with a POST that declares its length in decimal digits and the media type of its path |
| Messages.MalformedIsRefused | apps/macos/LocalHTTPGateway.swift:153-163 | a head with one line that is no field, or a request line without three words and a version: 400 |
| Messages.RepeatedIsRefused | apps/macos/LocalHTTPGateway.swift:161 | a name given twice, in any case: 400 |
| Messages.HeadIsLimited | apps/macos/LocalHTTPGateway.swift:150-152 | what is decided before any line is read: 413 without an end within 16 KiB, 400 for a longer or undecodable head |
| Messages.NumberIsValue | apps/macos/LocalHTTPGateway.swift:174 | lengths are decimal digits with their places, up to the largest 64-bit integer, and nothing else |
| Messages.HeadersHold | apps/macos/LocalHTTPGateway.swift:157-163 | the headers of an accepted request are the values of its fields under names in lower case |
| Messages.LowerIsCaseless | apps/macos/LocalHTTPGateway.swift:160 | lower-casing is comparing without case |
| CacheTrim.ProgramCache.Scan | apps/macos/RuntimeImageWorker.swift:150-187 | everything is recognised or the trim stops, and nothing changes |
| CacheTrim.ProgramCache.Evict | apps/macos/RuntimeImageWorker.swift:209-228 | an eviction removes program and lock, or fails at one of its four removals and touches nothing else |
| CacheTrim.ProgramCache.EvictWhileNeeded | apps/macos/RuntimeImageWorker.swift:209-229 | the loop evicts the shortest prefix, or stops at the first entry that is needed and cannot be evicted; the running sum never underflows |
| CacheTrim.ProgramCache.EraseLocks | apps/macos/RuntimeImageWorker.swift:230-232 | remaining locks are exactly those of the survivors, or some lock without a program is not free |
| CacheTrim.ProgramCache.Trim | apps/macos/RuntimeImageWorker.swift:133-235 | nothing is deleted unless everything was recognised. Success, on the files: what is left is usable and within the budget, all that was evicted was unusable or used before all that is left, one eviction less would not do, and the report is right. A failure is at the first needed entry that cannot be evicted or at a lock that is not free, with programs and locks stated for both |
| CacheTrim.SortSorts | apps/macos/RuntimeImageWorker.swift:193-198 | the order is strict and total, and sorting keeps entries and bytes |
| CacheTrim.BeforeIsSooner | apps/macos/RuntimeImageWorker.swift:180-198 | the order of the entries is that of the files: unusable first, then by last read, last write and key |
| CacheTrim.ProgramCache.KnownMeans | apps/macos/RuntimeImageWorker.swift:150-178 | recognised means: empty regular lock files, and directories with a lock and nothing but regular files of the worker |
| CacheTrim.Needed | apps/macos/RuntimeImageWorker.swift:209 | the condition of the loop decides whether a prefix is enough |
| CacheTrim.ShortestIsUnique | apps/macos/RuntimeImageWorker.swift:209-229 | there is one shortest prefix |
| Receipt.ComputedIsAccepted | apps/cli/runtime_worker_protocol.hpp:151-188 | every receipt that the worker computes is accepted |
| Receipt.AcceptedIsComputed | apps/macos/RuntimeImageWorker.swift:419-469 | every accepted receipt is the computed one |
| Receipt.ReceiptIsUnique | apps/macos/RuntimeImageWorker.swift:397-469 | for counters in the exact range the two sides agree in both directions |
| Receipt.AcceptedIsComputedExactly | apps/macos/RuntimeImageWorker.swift:428-431 | an accepted receipt is the one the worker makes exactly if all counters are in the exact range |
| Receipt.InexactCountersAreAccepted | apps/macos/RuntimeImageWorker.swift:428-431 | beyond that range the program does accept a receipt that the worker never makes |
| Receipt.OtherModelsDisagree | apps/macos/RuntimeImageWorker.swift:449 | for any other model the two widths differ and nothing private is accepted |
| PendingRead.Pending.InstallContinuation | apps/macos/ItemProviderDataLoader.swift:33-40 | stores the continuation, or answers it at once |
| PendingRead.Pending.AttachProgress | apps/macos/ItemProviderDataLoader.swift:41-49 | stores the progress while there is no outcome, and cancels it if cancellation was first |
| PendingRead.Pending.CompleteWith | apps/macos/ItemProviderDataLoader.swift:50-57 | the first outcome wins and resumes the waiting caller |
| PendingRead.Pending.CancelWait | apps/macos/ItemProviderDataLoader.swift:58-67 | cancellation is an outcome like any other, and cancels a stored progress |
| PendingRead.RunKeepsInv | apps/macos/ItemProviderDataLoader.swift:24-68 | every interleaving of the locked steps and the actions after them keeps the invariant |
| PendingRead.ResumedExactlyOnce | apps/macos/ItemProviderDataLoader.swift:24-68 | never twice, and exactly once with the first outcome; an attached progress is cancelled if cancellation was first |

## Left out

- Interface code, formatting, model management and sizing helpers.
- Image decoding, Core ML prediction, hashing, UTF-8 and JSON decoding are functions given as parameters; nothing is assumed of them beyond what a lemma requires.
- Field-by-field checks of requests, results, descriptors, hardware and environments, and the identity and artifact fields around a receipt.
- Floating-point rounding: weights, colours and alpha are real numbers. Strides inside a predicted tensor are left out; it is read by colour, row and column.
- Cancellation checks inside the parsing and rendering loops; they only end a loop early with an error.
- Loss of power: the history file is not flushed, so only crashes of the program, and a reboot that ends all processes, are modelled.
- Publication does not model foreign changes inside the private staging directory.
- CacheTrim: the order in which the locks without a program are visited is arbitrary in the model, as it is in a directory listing.
- Png: lengths go up to 2^32-1 as in the code, which does not enforce the cap of 2^31-1 in section 5.3 of the PNG specification.
- Http: letters are lower-cased and white space is trimmed for ASCII only; the responses, the timeout and the routing of requests are not part of the model.
- Admission: one job with its worker; the workers of other jobs are foreign processes of the table. What the recovery of an image decides is in Publication, whose restarts leave out the cleanup branch: `Admission.FinalizingIsRecovered` shows that it is not taken.
- StoreLatch: operations other than generation and refresh are one kind of step, since they set and clear the same flag.
- The other worker front ends, the controller classes, the native engine and the Python clients.
- CacheTrim: the checks of the cache directory itself (missing, foreign, a link, replaced while it is opened) come before the scan and end it.
- Publication does not model the digest and size that a worker reports for its file; like decoding they are part of the abstract check.
- Text is compared unit by unit. Swift compares strings by canonical equivalence, so JSON member names, header names and the values of the history that differ only in their normal form are distinct here and equal there.
- Receipt: counters of a native result beyond 64 bits are compared as numbers; the conversion that `NSNumber` makes of them is not modelled.
