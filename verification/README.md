# Gridora: verified models of the crash-safe parts

Gridora runs game servers on rented nodes. A control plane (`apps/api`) drives workflows over a
D1 database and Cloudflare DNS; an agent on each node (`apps/agent`) executes signed commands,
updates itself and makes and restores backups. Most of what can go wrong there goes wrong
between two awaited steps: a process stops, a response is lost, a step is retried. This project
models those parts and proves what every run of them keeps.

## How the models are built

- The source's mutable objects and tables are classes; their awaited primitives are methods that
  may fail before or after their effect, or return `Crashed`, in which case every caller returns at
  once. Each crash point is therefore a possible result of the operation, and what an operation
  ensures it ensures at every crash point. A class constant `faulty` switches the disturbances off;
  clauses guarded by `!faulty` say exactly when an operation succeeds. Reading back what a lost response may have left
  fails with an error of its own, so that a contract can say that what was written is found.
- `Run` methods call the operations any number of times in any order with any input and change the
  environment in between; the invariant they keep is called `Safe`. The methods beside the classes
  (`UpdateHistory`, `RollbackAfterRun`, `MoveHistory`, `PublishedHistory`, ...) state it from the outside.
- Ghost fields are histories: intents, link switches, restarts, health checks, enqueued envelopes, reported results, published manifests. Both
  command stores keep the log of all their calls, and an executor run is recorded with the places in that log where
  its claim was granted, its revision was read and it started.
- A database batch is one atomic step that its triggers may refuse and whose response may be lost.

## The files

| file | what it holds |
|---|---|
| `Prelude.dfy`, `Faults.dfy`, `Slashes.dfy` | options, results and outcomes; how a step can fail; paths as parts |
| `UstarFields.dfy`, `UstarHeader.dfy`, `UstarWriter.dfy`, `UstarParser.dfy`, `UstarRoundTrip.dfy` | the backup archive: octal fields, header, writer, reader, and the round trip (`UstarBytes.dfy`: what header bytes say; `UstarLayout.dfy`: which files are accepted; `UstarTree.dfy`: which nodes of a tree are archived). The format is the "ustar Interchange Format" of the `pax` utility in IEEE Std 1003.1 |
| `RestoreCutover.dfy` | the two-rename restore cutover of the agent |
| `UpdateState.dfy`, `UpdateHelper.dfy` | the root self-update helper: its state file, and its steps |
| `CommandStore.dfy`, `StoreSimulation.dfy`, `Processor.dfy` | the leased command store, its in-memory twin, and the handler that uses it |
| `EndpointCutover.dfy` | the DNS endpoint cutover of a restore, and its rollback |
| `CommandEnvelopes.dfy`, `GameMove.dfy` | durable command envelopes, and the move of a game server to another node |
| `ConfigPromotion.dfy`, `ModPromotion.dfy` | promotion of rendered configuration and of mod sets |
| `ChunkUpload.dfy` | resumable upload of an archive |
| `ObservationSequencer.dfy` | numbering of observation events |

## What the code does not promise

Where a wished-for property is false of the code, the model keeps the code, and a member shows the failing
case or the exact condition.

- The writer announces files up to 256 GiB, but the size field holds eleven octal digits: a file of 8 GiB or
  more is refused (`UstarRoundTrip.SizeFieldLimit`).
- The reader compares the magic and parses numbers after dropping the high bit of every byte, and tolerates a
  single zero block between entries; what it accepts is exactly `UstarLayout.AcceptedExactly`.
- A restore whose target already carries the expected marker is reported as committed without any staging
  (`RestoreCutover.AdoptsMarkedOriginal`), because finalizing leaves markers in place.
- A commit never reads the marker of the stage. A stage that a stopped extraction left without one is cut over with
  success, and only the repeated commit and the rollback are refused (`RestoreCutover.HalfStagedIsCommitted`): a
  repeated commit succeeds exactly if the committed tree carries the marker (`RestoreCutover.CommitTwice`). A target
  of which a stopped rollback has left only the marker is adopted as committed (`RestoreCutover.HalfRemovedIsAdopted`).
  Once a staging has reported success, the success of a commit does mean the whole payload
  (`RestoreCutover.StagedCommitAfterRun`).
- The in-memory store lets a completed command be completed again under its own token; the SQLite store refuses.
  The stores agree exactly when no token completes twice (`StoreSimulation.StoresAgree`, `RepeatedCompletion`), which
  handlers that keep the claim protocol never do (`StoreSimulation.OrderlyRunsAgree`).
- A failed endpoint cutover undoes its transfers from the last record on. If nothing hits the undo itself, it takes
  back every transfer exactly if every record was in step; otherwise it stops at the first record that has drifted, and
  the records before that one stay at the target (`EndpointCutover.EndpointSaga.Apply`, `ApplyPlanned`).
- A cutover that is repeated while its rollback is under way can report success although the last provider record is
  already back at the source: the database alone is consulted (`EndpointCutover.ReversalUnnoticed`,
  `ApplyDuringReversal`). No other record can be, and without a rollback under way success means that every record is
  at its target (`EndpointCutover.EndpointSaga.Apply`).
- A rollback recorded before any plan does not stop a later cutover of the same job (`EndpointCutover.ApplyAfterRollback`).
  A rollback planned before the cutover commits can never succeed after it (`EndpointCutover.CommitAfterPlannedRollback`);
  without faults the rollback of an effect succeeds exactly if the one on record knows whether the cutover is committed,
  and every record is in step (`EndpointCutover.EndpointSaga.RollbackCutover`).
- After a rollback the coordinator still answers the step `cutover-endpoint` with success evidence
  (`GameMove.MoveSaga.CutoverEndpoint`).
- A cut-over move one of whose compensations has failed for good: its rollback takes the DNS record back to the source
  and reports the failure, and the source can be released all the same (`GameMove.ReleaseAfterRollback`). If no rollback
  was asked for, the record of a cut-over or released move is at the target (`GameMove.MoveHistory`).
- The delivery update of a lifecycle command is not fenced on the state it finds; a second, slow writer makes
  the next attempt enqueue a settled command again (`CommandEnvelopes.SecondWriter`).
- If only the clean-up after the marker fails, a configuration promotion undoes its files but keeps the marker,
  and a retry reports the revision as adopted over the old files (`ConfigPromotion.AdoptsUndoneRevision`), exactly if
  the marker survived (`ConfigPromotion.PromoteTwice`). A retry after a crash empties the known-good directory first
  (`ConfigPromotion.RetryForgetsSetAside`, `ModPromotion.RetryForgetsSavedSet`): it keeps exactly those entries that
  stand in the active tree or are staged again (`ConfigPromotion.GameFiles.Promote`).
- The step `cutover-endpoint` asks for the stage, not for the phase: out of order, on a move that is still restoring but
  whose stage is active, it succeeds and publishes the target while the server stays on the source
  (`GameMove.CutoverWhileRestoring`).
- The dispatcher of lifecycle commands stores whatever result the coordinator returns, and looks whose it is only when it
  adopts one: a success can be repeated exactly if its result is that of the command (`CommandEnvelopes.DispatchTwice`).
  The coordinator of this repository returns no other (workers/realtime/src/coordinator-invariants.ts:12-14).
- The schema of the update helper's state bounds no fraction of a second, and the reader accepts only 32 KiB: a state fits
  exactly if its timestamps do (`UpdateState.EncodedFits`, `LongTimesDoNotFit`). Those the helper writes itself always do
  (`UpdateState.ShortTimesFit`).

## Model

| member | source | states |
|---|---|---|
| UstarFields.OctalField | apps/agent/src/backup-archive.ts:43-47 | a number fits a field exactly if it is below 8^(length-1), and then is digits and one NUL |
| UstarFields.ParseOctalField | apps/agent/src/backup-archive.ts:143-155 | reading a written numeric field returns the number |
| UstarFields.CutPadding | apps/agent/src/backup-archive.ts:189-193 | cutting a NUL-padded field returns the string that was put there |
| UstarFields.TarName | apps/agent/src/backup-archive.ts:49-57 | the loop finds the rightmost split whose two sides fit their fields |
| UstarFields.NameIsLossless | apps/agent/src/backup-archive.ts:49-57 | a path has a split exactly if some slash fits, and joining the fields returns the path |
| UstarFields.SafeMeans | packages/backup-runtime/src/index.ts:150-164 | a path is safe exactly if it is parts with slashes between them, none of them empty, one dot or two dots, and none with a backslash or a NUL |
| UstarBytes.CutMeans | apps/agent/src/backup-archive.ts:189-193 | cutting a field keeps exactly the text before the first NUL that no line break follows |
| UstarBytes.OctalMeans | apps/agent/src/backup-archive.ts:143-153 | a number is read from a field exactly if the field holds it, as octal digits between blanks up to a NUL or the end, and it is a safe integer |
| UstarHeader.TarHeader | apps/agent/src/backup-archive.ts:59-80 | filling a buffer in place gives the header of the entry, or its error |
| UstarHeader.ChecksumFits | apps/agent/src/backup-archive.ts:75-79 | a checksum of 512 bytes never overflows its field and reads back as itself |
| UstarHeader.CheckedFields | apps/agent/src/backup-archive.ts:75-79 | writing the checksum disturbs no other field and blanking it returns the summed block |
| UstarHeader.HeaderRoundTrip | apps/agent/src/backup-archive.ts:59-80 | parsing a written header returns path, kind and size, and no written header is all zero |
| UstarBytes.HeaderMeans | apps/agent/src/backup-archive.ts:182-215 | an entry is read from a block exactly if its bytes say it: the stored checksum is the sum of the other bytes and eight blanks, the magic reads ustar and a NUL, and name, prefix, size field and type byte are those of the entry |
| UstarBytes.OneByteChanges | apps/agent/src/backup-archive.ts:182-186 | with one byte outside the checksum changed, no sound header is sound any more |
| UstarBytes.WrittenNumbers | apps/agent/src/backup-archive.ts:63-67 | a written header has mode 755 or 600, no owner numbers and no time |
| UstarBytes.WrittenOwners | apps/agent/src/backup-archive.ts:59-80 | the rest of a written header is fixed too: version, owner names, and zeros wherever no field is |
| UstarWriter.TarWriter.AppendTree | apps/agent/src/backup-archive.ts:90-141 | the recursive walk writes and spends exactly what its entries, parents first, call for, or stops with the first error; which entries those are is `UstarTree.ItemsAreNodes` |
| UstarWriter.TarWriter.CopyData | apps/agent/src/backup-archive.ts:114-139 | short reads still append exactly the file's bytes |
| UstarWriter.AppendConcat | apps/agent/src/backup-archive.ts:90-141 | walking two lists in a row is walking their concatenation, budget included |
| UstarWriter.Create | apps/agent/src/backup-archive.ts:389-434 | the created file is the archive of the includes within the expanded limit, or the first error; what is in it is `UstarTree.BackUpAndRead` |
| UstarTree.ItemsAreNodes | apps/agent/src/backup-archive.ts:90-112 | an item of the archive is exactly a node that the names of its path lead to from an include, with its kind and its bytes |
| UstarTree.ItemsFollowParents | apps/agent/src/backup-archive.ts:102-108 | every item is an include itself or comes after the directory it is in |
| UstarTree.ItemsDistinct | apps/agent/src/backup-archive.ts:90-112 | if no include is inside another, no path is archived twice |
| UstarTree.ArchiveExactly | apps/agent/src/backup-archive.ts:90-141 | there is an archive exactly if every item is a file below 8 GiB or a directory with a safe path that splits, and all fit the limits on entries, bytes and length |
| UstarTree.BackUpAndRead | apps/agent/src/backup-archive.ts:90-229 | creating the archive of included trees and parsing it gives an entry for each node that the names of its path lead to, with its kind and exactly its bytes, and nothing else: parents first, each once; and there is an archive exactly if every node is allowed and all fit |
| UstarParser.ParseTar | apps/agent/src/backup-archive.ts:160-229 | the reader's loop computes the one-pass scan and its final checks |
| UstarParser.ParserSound | apps/agent/src/backup-archive.ts:160-229 | for all bytes: accepted entries are aligned, disjoint, inside the file before a two-block terminator, within the disk policy, safe and only files and empty directories; each is what its header bytes say under their own checksum, with type byte 0 or NUL for a file and 5 for a directory |
| UstarParser.ScanPlaces | apps/agent/src/backup-archive.ts:168-221 | what every point of the pass keeps leads to a placed, terminated archive |
| UstarLayout.AcceptedExactly | apps/agent/src/backup-archive.ts:160-229 | the reader accepts exactly the files that are laid out as archives: sound headers one after the other, each followed by its data and preceded by at most one blank block, two blank blocks at the end, all within the policy |
| UstarLayout.ChangedHeaderRefused | apps/agent/src/backup-archive.ts:182-186 | one changed byte in a header of an accepted archive, outside the checksum field, makes the reader refuse it for its checksum |
| UstarRoundTrip.ItemReadsBack | apps/agent/src/backup-archive.ts:90-141 | one written entry is one step of the scan, over exactly its header, data and padding |
| UstarRoundTrip.RoundTrip | apps/agent/src/backup-archive.ts:389-434 | parsing what the writer wrote under the same policy succeeds and returns the same paths, kinds and sizes in order, each data offset pointing at exactly that file's bytes |
| UstarRoundTrip.SizeFieldLimit | apps/agent/src/backup-archive.ts:33-47 | a file of 8 GiB or more is refused although the entry limit allows it |
| RestoreCutover.RestoreFs.CommitRestore | apps/agent/src/backup-archive.ts:564-616 | success is a cutover of the stage or the adoption of an earlier one; a finished commit changes nothing when repeated; without faults success is decided by what exists; a compensation that succeeds leaves the original at the target, and where stage and target are gone it is put back |
| RestoreCutover.RestoreFs.MoveIn | apps/agent/src/backup-archive.ts:605-612 | with the original set aside, a failure that is not cut short, and whose undo meets no fault, leaves the stage in place or the original back in its own |
| RestoreCutover.RestoreFs.RollbackRestore | apps/agent/src/backup-archive.ts:617-657 | from every reachable state, success puts back exactly what was there before, with stage, rollback and marker gone |
| RestoreCutover.RestoreFs.FinalizeRestore | apps/agent/src/backup-archive.ts:658-676 | only a committed target loses its rollback material |
| RestoreCutover.RestoreFs.StageRestore | apps/agent/src/backup-archive.ts:482-563 | success leaves every file of the payload and the completion marker in the stage and touches nothing else |
| RestoreCutover.RestoreFs.Run | apps/agent/src/backup-archive.ts:482-657 | any interleaving of stage, commit and rollback, cut short anywhere, keeps the original at exactly one of target and rollback path |
| RestoreCutover.RollbackAfterRun | apps/agent/src/backup-archive.ts:564-657 | after any run a successful rollback has undone the restore, and an original is never lost or marked absent |
| RestoreCutover.CommitAfterRun | apps/agent/src/backup-archive.ts:564-616 | after any run a successful commit keeps the original at the rollback path unless it adopted a marked original; the target holds its whole payload if its staging reported success and no rollback began to remove it, without faults always |
| RestoreCutover.StagedCommitAfterRun | apps/agent/src/backup-archive.ts:482-616 | after any run, once a staging reported success, a successful commit has put exactly its payload at the target, whatever commits were cut short in between |
| RestoreCutover.CommitTwice | apps/agent/src/backup-archive.ts:564-616 | from every safe state: repeating a successful commit changes nothing, and without faults succeeds if and only if the committed tree carries the expected marker |
| RestoreCutover.HalfStagedIsCommitted | apps/agent/src/backup-archive.ts:570-615 | any stage without a marker is cut over with success, and then neither the repeated commit nor the rollback succeeds |
| RestoreCutover.HalfRemovedIsAdopted | apps/agent/src/backup-archive.ts:576-582 | a target reduced to its marker is adopted as committed |
| RestoreCutover.AdoptsMarkedOriginal | apps/agent/src/backup-archive.ts:576-584 | an unstaged target is adopted exactly if it carries the expected marker |
| UpdateState.AppendOutcomeRecords | apps/agent/src/agent-update-helper.ts:895-901 | recording keeps one outcome per command and at most 32, answers its command, and forgets at most the oldest |
| UpdateState.ReplayMeans | apps/agent/src/agent-update-helper.ts:903-916 | a replay is answered exactly by the outcome of its command, and refused exactly if that was of another operation, version or digest |
| UpdateState.CompletedIsReadable | apps/agent/src/agent-update-helper.ts:918-943 | a completed state passes the reader's schema bounds and floor checks, never lowers a floor and answers its command |
| UpdateState.EncodedFits | apps/agent/src/agent-update-helper.ts:494-572 | what a state within the schema's bounds takes beside its timestamps is bounded, and the canonical JSON fits the 32 KiB the reader accepts if and only if the timestamps fit the rest |
| UpdateState.ShortTimesFit | apps/agent/src/agent-update-helper.ts:494-572 | with timestamps of at most 350 characters every such state fits; `toISOString` writes 24 or 27 |
| UpdateState.LongTimesDoNotFit | apps/agent/src/agent-update-helper.ts:145-147 | a state that passes the schema, with a long enough fraction of a second, does not fit |
| UpdateHelper.StableIsContinuous | apps/agent/src/agent-update-helper.ts:800-832 | probation is met exactly if the log ends in a maximal run of ready observations that spans it |
| UpdateHelper.RootHelper.PersistState | apps/agent/src/agent-update-helper.ts:521-572 | the state file is the old one or the new one, and success means the new one |
| UpdateHelper.RootHelper.AssertRelease | apps/agent/src/agent-update-helper.ts:627-666 | without faults it passes exactly if the directory holds just this release |
| UpdateHelper.RootHelper.CurrentTarget | apps/agent/src/agent-update-helper.ts:699-731 | a release is reported only if the link points at its whole directory |
| UpdateHelper.RootHelper.Healthy | apps/agent/src/agent-update-helper.ts:775-798 | true exactly for an exact receipt written and started since the given time |
| UpdateHelper.RootHelper.Observe | apps/agent/src/agent-update-helper.ts:812-823 | an attempt probes the agent exactly if its unit is active, and ready is what the probe answered |
| UpdateHelper.RootHelper.WaitForHealth | apps/agent/src/agent-update-helper.ts:800-832 | the log is what the attempts saw, and the verdict is its stability; true only with a fresh exact receipt; false only after 40 attempts none of which was stable |
| UpdateHelper.RootHelper.EnsureRelease | apps/agent/src/agent-update-helper.ts:668-697 | success leaves just this release on disk; an existing directory must already be exactly it |
| UpdateHelper.RootHelper.ActivateCurrent | apps/agent/src/agent-update-helper.ts:739-760 | the link moves at most to the release, atomically, and every state in between is safe |
| UpdateHelper.RootHelper.GarbageCollect | apps/agent/src/agent-update-helper.ts:839-878 | success leaves exactly the directories the state names; a needed one is never touched |
| UpdateHelper.RootHelper.CompletedPlaces | apps/agent/src/agent-update-helper.ts:918-943 | a completed state needs only releases that are on disk and keeps the histories within its floors |
| UpdateHelper.RootHelper.SwitchTo | apps/agent/src/agent-update-helper.ts:1091-1097 | success means the link is on the release, the agent was restarted there, and it proved healthy; without faults it succeeds exactly if it does |
| UpdateHelper.RootHelper.Rollback | apps/agent/src/agent-update-helper.ts:945-967 | the activation stays open or ends on the old release, restarted and healthy, with the candidate recorded as rolled back; without faults exactly if the old release proves healthy |
| UpdateHelper.RootHelper.RecoverActivation | apps/agent/src/agent-update-helper.ts:969-1000 | recovery never switches to the candidate; it ends on it only with its exact receipt since the activation began, and without faults always then |
| UpdateHelper.RootHelper.TryActivate | apps/agent/src/agent-update-helper.ts:1091-1109 | at most one switch to the candidate; the state is the open activation or its adoption, without faults exactly if the candidate proves healthy; `committed` is truthful |
| UpdateHelper.RootHelper.Activate | apps/agent/src/agent-update-helper.ts:1075-1121 | one intent, at most one switch after it, and an answer that names the side the activation ended on; without faults a candidate that proves healthy stays, otherwise the old release is checked and stays if it does, and an activation that ended is answered |
| UpdateHelper.RootHelper.Confirm | apps/agent/src/agent-update-helper.ts:1062-1074 | a request for the active release is recorded without a switch or a restart |
| UpdateHelper.RootHelper.Prepare | apps/agent/src/agent-update-helper.ts:1043-1061 | only the active release, or a staged, trusted, intact one of a higher sequence and no lower epoch, is put on disk; any other is refused, and without faults the allowed one is not if its directory is absent or exact |
| UpdateHelper.RootHelper.Serve | apps/agent/src/agent-update-helper.ts:1037-1121 | a recorded command moves nothing and is answered exactly if it was the same request; a release at or below a floor is refused and moves nothing; without faults a trusted, intact release of a higher sequence and no lower epoch is switched to, once |
| UpdateHelper.RootHelper.Settle | apps/agent/src/agent-update-helper.ts:1033-1036 | reading settles an open activation on one of its two sides and otherwise changes nothing |
| UpdateHelper.RootHelper.Execute | apps/agent/src/agent-update-helper.ts:1025-1122 | each crash point is safe, floors and histories only grow, a request outside the schema moves nothing, a settled helper serves any other as `Served` says in the numbers of the release, and the request of an open activation is never tried again |
| UpdateHelper.RootHelper.Run | apps/agent/src/agent-update-helper.ts:1025-1132 | any calls, cut short anywhere, while the agent stages and reports what it likes, keep every promise |
| UpdateHelper.UpdateHistory | apps/agent/src/agent-update-helper.ts:1025-1132 | over any run: the state is readable and fits its file, floors never fall and are, once settled, exactly the highest of the installed ones and the candidates; link and needed releases are in place, candidate sequences strictly increase, no release is switched to twice, and an active release was installed or proven healthy |
| CommandStore.SqliteStore.Claim | apps/agent/src/file-command-state.ts:33-81 | a claim is granted, busy, mismatched or answered from the row, and only a grant changes the row |
| CommandStore.SqliteStore.Complete | apps/agent/src/file-command-state.ts:82-119 | result and revision are stored together under the live claim, and a refused revision undoes the result too |
| CommandStore.SqliteStore.Renew | apps/agent/src/file-command-state.ts:120-131 | only the live claim extends its lease |
| CommandStore.RevisionChain | apps/agent/src/file-command-state.ts:82-119 | over any run every commit names the revision before it as its prior and goes above it, and the table holds the last one |
| CommandStore.ChainIncreases | apps/agent/src/file-command-state.ts:92-112 | a later commit of a resource is above every earlier one, and adjacent ones chain exactly |
| CommandStore.RevisionTells | apps/agent/src/file-command-state.ts:82-131 | a resource that no call committed has revision 0 and its first commit goes on from 0; otherwise its revision is that of its last commit |
| CommandStore.ResultsAreFinal | apps/agent/src/file-command-state.ts:82-119 | no run changes the result of a completed command |
| CommandStore.SupersededIsDead | apps/agent/src/file-command-state.ts:69-91 | once a claim has moved on, the old token neither completes nor renews in any run |
| CommandStore.GrantKeepsRow | apps/agent/src/file-command-state.ts:33-131 | until the next grant of its command, a granted claim keeps the row under its token and payload |
| CommandStore.LeaseIsLast | apps/agent/src/file-command-state.ts:33-131 | the lease of a live claim is the one its grant or its last renewal gave it |
| CommandStore.GrantsExclude | apps/agent/src/file-command-state.ts:33-131 | over any run, before a later claim of a command is granted, some claim took over from the earlier one when its lease, counted from its last renewal, had run out |
| CommandStore.RowStays | apps/agent/src/file-command-state.ts:33-131 | a row keeps its payload, and a completed one everything, however a run goes on |
| StoreSimulation.MemoryStore.Claim | apps/agent/src/services.ts:125-142 | the in-memory claim is the claim step with the next numbered token |
| StoreSimulation.MemoryStore.Complete | apps/agent/src/services.ts:143-160 | the in-memory completion is its step, which does not look at an earlier result |
| StoreSimulation.MemoryStore.Renew | apps/agent/src/services.ts:161-171 | only the live claim of an uncompleted command extends its lease |
| StoreSimulation.TokensDiffer | apps/agent/src/services.ts:122-130 | the counter never hands out a token twice |
| StoreSimulation.StepAgrees | apps/agent/src/services.ts:125-172 | from matching states the stores answer alike exactly unless a completion is repeated acceptably, and then still match |
| StoreSimulation.RepeatedCompletion | apps/agent/src/services.ts:143-160 | a concrete run on which the stores differ |
| StoreSimulation.StoresAgree | apps/agent/src/services.ts:117-174 | if no token is granted twice, the stores give the same answers over a run if and only if no token completes successfully twice in it |
| StoreSimulation.MemoryStore.AgreesWithTables | apps/agent/src/services.ts:117-174 | whatever was called on a memory store, tables given its counter's tokens would have answered the same if and only if it completed no token twice |
| StoreSimulation.OrderlyRunsAgree | apps/agent/src/services.ts:117-174 | where every claim brings its own token and every token is completed in one call at most, both stores answer alike and end in matching states |
| Processor.Agent.RenewOnce | apps/agent/src/processor.ts:107-121 | in a minute of an execution the claim is renewed once more, or the refused renewal is the last call |
| Processor.Agent.ExecuteRenewing | apps/agent/src/processor.ts:106-125 | a result means one granted renewal for each minute of the run; a refused renewal is the last call and ends the run with the state error |
| Processor.Agent.HandleClaimed | apps/agent/src/processor.ts:61-159 | only after a granted claim: the executor runs at most once, under that claim, on the revision read since, which is the expected one; the answer tells what happened and is durable; the claim is left uncompleted exactly while the response of the update helper is pending, and any other executor error is answered as a failure |
| Processor.Agent.Handle | apps/agent/src/processor.ts:22-159 | among other handlers, the executor runs only under a claim of this delivery that the store granted; whatever is returned is the durable result up to its duplicate flag; a pending helper response completes nothing; completed commands and foreign payloads never run |
| Processor.ExecutionsExclude | apps/agent/src/processor.ts:45-60 | of two executions of a command, the later one was claimed after the lease of the earlier one had run out |
| Processor.EitherStore | apps/agent/src/processor.ts:22-159 | if the other handlers keep the claim protocol too, a run goes the same over either store |
| Processor.Agent.Run | apps/agent/src/processor.ts:22-159 | over any deliveries, crashes and lease losses: every command is delivered and every answer returned, and each is the one the store still holds; every execution has a granted claim of its own and the expected revision; a command runs again only after the earlier lease ran out; no token completes twice; and the in-memory store would have answered the same |
| EndpointCutover.PlanMoves | apps/api/src/backup-workflow-runtime.ts:419-446 | a plan has one transition for each source row, to a new owner and the next revision |
| EndpointCutover.DirectTypeMeans | apps/api/src/backup-workflow-runtime.ts:242-246 | a record is of type A exactly for four dotted groups of one to three digits, and of type AAAA exactly for hexadecimal digits with a colon |
| EndpointCutover.PlanMeans | apps/api/src/backup-workflow-runtime.ts:410-446 | between different servers a plan exists exactly if every source row is direct, has a provider identity and an address of the kind of the target, and then takes every row to the one address of the target server, one revision on |
| EndpointCutover.EndpointSaga.PlanEffect | apps/api/src/backup-workflow-runtime.ts:339-492 | the effect is the recorded one for the same input, or a new plan whose every transition leads from its current row to the one address of the target server |
| EndpointCutover.EndpointSaga.Transfer | packages/cloudflare-control/src/index.ts:267-332 | a record moves from the expected endpoint or is adopted where it is; anything else fails |
| EndpointCutover.EndpointSaga.PersistMark | apps/api/src/backup-workflow-runtime.ts:524-589 | however the write ended, success means that the exact receipt is there, and a receipt that is there is found unless the process stops or cannot read |
| EndpointCutover.EndpointSaga.ForwardOne | apps/api/src/backup-workflow-runtime.ts:679-696 | one record goes to its target with its receipt, without faults exactly if it is in step |
| EndpointCutover.EndpointSaga.Forward | apps/api/src/backup-workflow-runtime.ts:679-696 | success puts every record at its target with a receipt; the first record out of step stops it with those before it moved; the plan stays as much in step as it was |
| EndpointCutover.EndpointSaga.Reverse | apps/api/src/backup-workflow-runtime.ts:591-611 | from any mixture of sources and targets every record returns to its source; a record out of step leaves those before it alone |
| EndpointCutover.EndpointSaga.CutoverBatch | apps/api/src/backup-workflow-runtime.ts:697-744 | all rows, the endpoint receipt and the effect change together or not at all |
| EndpointCutover.EndpointSaga.RollbackBatch | apps/api/src/backup-workflow-runtime.ts:935-1006 | rows, receipt, effect, rollback and fence change together or not at all |
| EndpointCutover.EndpointSaga.AppliedCutoverIsExact | apps/api/src/backup-workflow-runtime.ts:613-658 | true exactly if receipt, rows and provider receipts are all those of the cutover |
| EndpointCutover.EndpointSaga.RolledBackCutoverIsExact | apps/api/src/backup-workflow-runtime.ts:771-809 | true exactly if fence, rows and provider receipts are all those of the rollback |
| EndpointCutover.EndpointSaga.ApplyPlanned | apps/api/src/backup-workflow-runtime.ts:680-769 | a planned effect is committed exactly if every record is in step, and a lost response is adopted; a failure that is not cut short, and whose undo meets no fault, is taken back whole exactly if every record was in step |
| EndpointCutover.EndpointSaga.Apply | apps/api/src/backup-workflow-runtime.ts:660-769 | success means everything is at the target, but possibly the last record while a rollback is under way; a failure that was undone left every record at its source and nothing committed; without faults a plan succeeds exactly if every record is in step, and a repetition exactly on what the database shows; a rolled back effect is never applied again |
| EndpointCutover.EndpointSaga.PlanRollback | apps/api/src/backup-workflow-runtime.ts:881-929 | the adopted rollback is this one, still planned, and knows whether a cutover was committed; without faults exactly such a one is adopted, and a new one is the plan of exactly this effect |
| EndpointCutover.EndpointSaga.RollbackBeforeCutover | apps/api/src/backup-workflow-runtime.ts:825-868 | a rollback before any plan is recorded once, for its exact input |
| EndpointCutover.EndpointSaga.ReverseCutover | apps/api/src/backup-workflow-runtime.ts:881-1018 | success is an exact return to the source, without faults exactly if the rollback is undoable and every record in step; a finished or stuck one changes nothing |
| EndpointCutover.EndpointSaga.RollbackCutover | apps/api/src/backup-workflow-runtime.ts:811-1020 | success before a plan touches nothing, after one is an exact return to the source, without faults exactly if the rollback on record knows the cutover and every record is in step; a finished one changes nothing and succeeds again exactly under its own name; a cutover committed after its rollback was planned stays |
| EndpointCutover.EndpointSaga.Run | apps/api/src/backup-workflow-runtime.ts:660-1020 | any cutovers and rollbacks, cut short anywhere, keep rows, receipts, fences and provider records consistent |
| EndpointCutover.CutoverAfterRun | apps/api/src/backup-workflow-runtime.ts:660-769 | after any run a successful cutover between different servers has every row and, but for a rollback under way, every provider record at the one address of the target |
| EndpointCutover.RollbackAfterRun | apps/api/src/backup-workflow-runtime.ts:660-1020 | after any run a successful rollback returns every row's owner and content: at exactly two more revisions if a plan with moves was committed, and otherwise at its own |
| EndpointCutover.ReversalUnnoticed | apps/api/src/backup-workflow-runtime.ts:591-677 | for every committed cutover, a rollback that stops after taking the last record back lets a repeated cutover succeed |
| EndpointCutover.ApplyDuringReversal | apps/api/src/backup-workflow-runtime.ts:673-677 | from a first cutover on: a repeated cutover succeeds while its record is already back at the source |
| EndpointCutover.ApplyAfterRollback | apps/api/src/backup-workflow-runtime.ts:660-868 | after a rollback before any plan, the cutover succeeds exactly if it would have without it |
| EndpointCutover.CommitAfterPlannedRollback | apps/api/src/backup-workflow-runtime.ts:697-929 | a cutover that commits after its rollback was planned succeeds, and then no rollback does |
| CommandEnvelopes.Deliveries.Dispatch | apps/api/src/game-lifecycle-runtime.ts:812-981 | at most one enqueue, of the stored envelope; a success is durable; after a durable result nothing is enqueued and only that result is returned; without faults what the coordinator reports is what is returned |
| CommandEnvelopes.Deliveries.Deliver | apps/api/src/game-lifecycle-runtime.ts:936-975 | a stored command is enqueued, marked delivered and settled with its terminal result, without faults the one the coordinator reports |
| CommandEnvelopes.Deliveries.Run | apps/api/src/game-lifecycle-runtime.ts:812-981 | over any retries and key rotations every enqueue carries the stored envelope, and envelopes and settled rows never change |
| CommandEnvelopes.SecondWriter | apps/api/src/game-lifecycle-runtime.ts:779-810 | a late delivered-update makes the next attempt enqueue a settled command again |
| CommandEnvelopes.DispatchTwice | apps/api/src/game-lifecycle-runtime.ts:839-981 | a success can be repeated if and only if its result is that of this command and operation, and then nothing more is enqueued |
| CommandEnvelopes.PhysicalCommands.PersistCommand | apps/api/src/game-move-native-adapter.ts:566-679 | a new command is signed and stored once, or not at all, whatever response arrives; one that was stored is found unless the process stops or cannot read |
| CommandEnvelopes.PhysicalCommands.PersistResult | apps/api/src/game-move-native-adapter.ts:681-717 | success means that this result is stored in the matching terminal state; a result that was stored is found unless the process stops or cannot read |
| CommandEnvelopes.PhysicalCommands.Execute | apps/api/src/game-move-native-adapter.ts:719-801 | success is durable and was reported for this command; at most one enqueue, of the stored envelope, and none after a terminal result; without faults an enqueued command succeeds exactly if its success is reported |
| CommandEnvelopes.PhysicalCommands.Run | apps/api/src/game-move-native-adapter.ts:719-801 | over any retries and key rotations every enqueue carries the stored envelope, and envelopes and terminal rows never change |
| GameMove.CutoverPlaces | apps/api/src/game-lifecycle-runtime.ts:2043-2147 | the cutover batch moves deployment, capacity and port leases to the target together |
| GameMove.ReleaseKeepsPlace | apps/api/src/game-lifecycle-runtime.ts:2242-2309 | the release batch leaves everything on the target |
| GameMove.AdvanceKeeps | apps/api/src/game-lifecycle-runtime.ts:1988-2041 | an earlier phase leaves everything on the source |
| GameMove.RollbackReturns | apps/api/src/game-lifecycle-runtime.ts:2149-2240 | the rollback batch leaves everything on the source |
| GameMove.RollbackUndoesCutover | apps/api/src/game-lifecycle-runtime.ts:2149-2240 | rolling back a cutover gives the deployment, every lease and every reservation back its node |
| GameMove.CutoverAdmitted | apps/api/src/game-lifecycle-runtime.ts:2043-2147 | the cutover batch passes its fences exactly for a validated move that still holds capacity |
| GameMove.RollbackAdmitted | apps/api/src/game-lifecycle-runtime.ts:2149-2240 | the rollback batch passes its fences exactly after the backup and before the release, after a cutover only while capacity is held |
| GameMove.EvidenceStays | packages/migrations/sql/0056_game_move_target_staging_evidence.sql:179-202 | what a phase rests on is never lost while commands go on |
| GameMove.StageStepEvidenced | packages/migrations/sql/0056_game_move_target_staging_evidence.sql:204-269 | a staging step that the fence admits rests on the commands it must rest on |
| GameMove.DoneWasSent | apps/api/src/game-move-native-adapter.ts:407-430 | a command that succeeded was sent to the node and with the type of its action |
| GameMove.MoveSaga.Physical | apps/api/src/game-move-native-adapter.ts:407-430 | commands that release or revive the source go to the source, all others to the target, each with the type of its action; without faults an admitted command is stored while it can be signed and has not expired |
| GameMove.MoveSaga.TransferDns | apps/api/src/game-move-native-adapter.ts:912-967 | success leaves the record of the server at the target or back at the source |
| GameMove.MoveSaga.EnsureStage | apps/api/src/game-move-native-adapter.ts:309-355 | the staging record is the existing one of this backup or a new one, made only while the source is stopped |
| GameMove.MoveSaga.AdvanceStage | apps/api/src/game-move-native-adapter.ts:357-386 | without faults a staging step succeeds exactly if its fence admits it |
| GameMove.MoveSaga.AdapterRestore | apps/api/src/game-move-native-adapter.ts:1038-1072 | success means a succeeded backup was restored into the stage of this backup; without faults the restore is asked for |
| GameMove.MoveSaga.AdapterVerify | apps/api/src/game-move-native-adapter.ts:1073-1105 | success means the staged backup was validated; without faults a staged backup is asked to be, and succeeds once it was |
| GameMove.MoveSaga.AdapterCutover | apps/api/src/game-move-native-adapter.ts:1106-1158 | success means restored, activated, staged as active and published at the target; without faults commit and activation are asked for, and once both are done and the record is in step it succeeds |
| GameMove.MoveSaga.AdapterRollback | apps/api/src/game-move-native-adapter.ts:1176-1272 | success means every compensation succeeded and DNS is at the source; a failed one does not keep the others from being tried |
| GameMove.MoveSaga.AdvanceMove | apps/api/src/game-lifecycle-runtime.ts:1988-2041 | the phase moves by one with its receipt, without faults exactly from the phase before it |
| GameMove.MoveSaga.EnsureEffect | apps/api/src/game-lifecycle-runtime.ts:1832-1841 | the immutable effect exists, created only while the move is reserved |
| GameMove.MoveSaga.BackupSource | apps/api/src/game-lifecycle-runtime.ts:2339-2360 | the phase moves with the id of the backup that was taken |
| GameMove.MoveSaga.StopSource | apps/api/src/game-lifecycle-runtime.ts:2361-2369 | without faults it succeeds exactly from the backup phase on |
| GameMove.MoveSaga.RestoreTarget | apps/api/src/game-lifecycle-runtime.ts:2370-2396 | the phase moves only after a durably successful restore of a succeeded backup |
| GameMove.MoveSaga.VerifyTarget | apps/api/src/game-lifecycle-runtime.ts:2397-2423 | the phase moves only after a durably successful validation, and without faults it does then |
| GameMove.MoveSaga.CutoverEndpoint | apps/api/src/game-lifecycle-runtime.ts:2424-2450 | a validated move is cut over, without faults once its commands are done, its record is in step and it holds capacity; success in an earlier phase means restored, activated and published with the phase left alone; from the cutover on the step succeeds without doing anything |
| GameMove.MoveSaga.CutoverMove | apps/api/src/game-lifecycle-runtime.ts:2043-2147 | without faults the cutover batch commits exactly for a validated move that holds capacity |
| GameMove.MoveSaga.ReleaseMove | apps/api/src/game-lifecycle-runtime.ts:2242-2309 | a cut-over move with its release command done is released |
| GameMove.MoveSaga.RollbackMove | apps/api/src/game-lifecycle-runtime.ts:2149-2240 | without faults the rollback batch commits exactly after the backup and before the release, after a cutover only while capacity is held |
| GameMove.MoveSaga.ReleaseSource | apps/api/src/game-lifecycle-runtime.ts:2451-2503 | success means released; without faults the removal from the source is asked for, and once it is done the move is released; a released move stays as it is |
| GameMove.MoveSaga.RollbackIfRequired | apps/api/src/game-lifecycle-runtime.ts:2504-2531 | success means released or rolled back; there is no rollback before a backup; without faults every compensation is asked for and, once all are done, the move is rolled back; a lost compensation keeps the phase but not the record |
| GameMove.MoveSaga.Run | apps/api/src/game-lifecycle-runtime.ts:2311-2538 | any steps in any order, retried and cut short anywhere, keep placement, evidence and publication |
| GameMove.MoveHistory | apps/api/src/game-lifecycle-runtime.ts:2311-2538 | in every run every command stored or sent is for the right node and of the right type; the phase decides where the server is; a released server was removed from its source and applied on its target, a rolled back one applied and started on its source again and, if it was ever activated there, removed from the target; the name is at the target from the cutover on unless a rollback asked for it since |
| GameMove.CutoverWhileRestoring | apps/api/src/game-lifecycle-runtime.ts:2424-2450 | on a restoring move with an active stage the step succeeds and publishes the target, while the server stays on the source |
| GameMove.ReleaseAfterRollback | apps/api/src/game-lifecycle-runtime.ts:2451-2531 | after a rollback that failed on a lost compensation the source is released with the name back at the source |
| ConfigPromotion.GameFiles.Prepare | apps/agent/src/game-runtime.ts:341-420 | the staged tree is exactly the rendered files, unless the revision is active or older |
| ConfigPromotion.AcceptedPaths | apps/agent/src/game-runtime.ts:119-124 | the accepted paths are plain parts with slashes between them, and without two dots in a row |
| ConfigPromotion.GameFiles.Promote | apps/agent/src/game-runtime.ts:422-554 | success overrides the active tree with the staged files, keeps what they replaced, and keeps of an earlier promotion's known-good files exactly what stands anyway; those of other revisions stay, but for the one before the last; a failure whose undo succeeds leaves the active tree of distinct paths as it was, and none of its files is lost; without faults it succeeds exactly if all is staged, without repetition, and not stale |
| ConfigPromotion.GameFiles.Stage | apps/agent/src/game-runtime.ts:593-597 | preparing and promoting the same configuration: success overrides the active tree with exactly the rendered files; no file is lost; without faults it succeeds exactly if the configuration is acceptable, safe and not stale; the marker never falls |
| ConfigPromotion.GameFiles.Run | apps/agent/src/game-runtime.ts:578-597 | over any calls of the writer only accepted configurations are promoted, and the marker stays readable and never falls |
| ConfigPromotion.MoveStep | apps/agent/src/game-runtime.ts:464-491 | setting one file aside and moving one in extends the override by one path |
| ConfigPromotion.UndoStep | apps/agent/src/game-runtime.ts:521-538 | undoing one logged move shrinks the override by one path |
| ConfigPromotion.MovedIsOverride | apps/agent/src/game-runtime.ts:464-491 | the moved trees are a map override and the overwritten entries |
| ConfigPromotion.MoveAgain | apps/agent/src/game-runtime.ts:464-491 | moving a path again loses what was set aside for it and nothing else |
| ConfigPromotion.OverrideKeeps | apps/agent/src/game-runtime.ts:454-491 | a promotion over earlier known-good files loses none of them if and only if each stands in the active tree or is staged again |
| ConfigPromotion.PromoteTwice | apps/agent/src/game-runtime.ts:422-554 | after a failed and undone promotion a successful retry is an adoption over the old files exactly if the marker survived |
| ConfigPromotion.AdoptsUndoneRevision | apps/agent/src/game-runtime.ts:508-538 | a marker that survives an undo makes a retry adopt the old files |
| ConfigPromotion.RetryForgetsSetAside | apps/agent/src/game-runtime.ts:454-463 | a retry empties the known-good directory of a cut-short promotion |
| ModPromotion.ModFiles.Promote | apps/agent/src/game-runtime.ts:747-802 | success replaces the whole set, saves the old one and keeps the sets saved for other revisions but the one before the last; at every crash point the old set is whole in place or saved; a failure that is not cut short, and whose undo meets no fault, is undone |
| ModPromotion.RetryForgetsSavedSet | apps/agent/src/game-runtime.ts:769-779 | a retry saves a half-cleared set over the good one |
| ChunkUpload.ChunksPartition | apps/agent/src/backup-upload.ts:210-217 | the chunks are at most 65,536 non-empty pieces that join to the archive |
| ChunkUpload.RemoteIsArchive | apps/agent/src/backup-upload.ts:160-172 | remote chunks that match the records make up exactly the archive |
| ChunkUpload.Uploader.ReadExactly | apps/agent/src/backup-upload.ts:274-291 | short reads fill the buffer with exactly the chunk's bytes |
| ChunkUpload.Uploader.ConfirmRemote | apps/agent/src/backup-upload.ts:306-340 | success means the remote side has exactly this chunk, and it is called corrupt only if it has another; one that is there is not sent again |
| ChunkUpload.Uploader.UploadChunk | apps/agent/src/backup-upload.ts:270-352 | the written state extends the faithful records by one and keeps the later ones |
| ChunkUpload.Uploader.Upload | apps/agent/src/backup-upload.ts:197-386 | every state written has the archive's records up to its next chunk; a manifest is published only when the remote chunks make up the archive; without faults it succeeds exactly if nothing on record contradicts the archive |
| ObservationSequencer.OrderedNext | apps/agent/src/observation.ts:298-319 | accepting the next numbers keeps the history ordered |
| ObservationSequencer.SessionCounts | apps/agent/src/observation.ts:279-319 | the accepted sequences of a session are exactly 1, 2, 3 and so on |
| ObservationSequencer.RevisionsCount | apps/agent/src/observation.ts:262-269 | the accepted revisions of all sessions count up without gaps |
| ObservationSequencer.ObservationState.Load | apps/agent/src/observation.ts:235-270 | a newer session starts at sequence zero and keeps the observed revision; an older one is refused |
| ObservationSequencer.ObservationState.Prepare | apps/agent/src/observation.ts:279-297 | a new event carries the next numbers; a pending one is not replaced |
| ObservationSequencer.ObservationState.Accept | apps/agent/src/observation.ts:298-319 | only the receipt of the pending event accepts it |
| ObservationSequencer.ObservationState.Refresh | apps/agent/src/observation.ts:320-335 | a refreshed event keeps its sequence and revision |
| ObservationSequencer.ObservationState.PublishOnce | apps/agent/src/observation.ts:344-395 | only the pending or next event is sent, and again with fresh facts only if asked for; at most the last one sent is accepted, by its own receipt; without faults it succeeds exactly if the session is current and a reply settles the event |
| ObservationSequencer.PublishedHistory | apps/agent/src/observation.ts:344-395 | after any run the record counts the accepted events, by revision overall and by sequence in its session |

## Left out

- File modes, owners, symlinks, inode checks and `fsync` as separate effects: files are named values and one awaited operation is one step.
- Hashing, signatures, zstd, JSON decoding and schema checks: a digest stands for what it is a digest of, an envelope for its bytes; only the state file's JSON is modelled, for its size and its schema's length and number bounds.
- Archive paths are UTF-8 bytes, and includes and children arrive in the sorted order the source gives them; a source tree that changes while it is archived is not modelled.
- Extraction from the archive file is a map of names to contents; that it reads the right bytes is the round trip's data offsets.
- The helper's expiring lock file and the server locks: one call at a time is assumed, because an expired lease does not exclude a second holder.
- Liveness after a half-written or half-deleted release directory, and after a compensating command has terminally failed: the code refuses, and only safety is proved.
- A D1 job or operation has one writer; `CommandEnvelopes.SecondWriter` shows what a second one can do.
- Tokens and random names are fresh by assumption.
- Rows of `game_command_deliveries` from before envelopes were stored, and the workflow engine that orders the steps.
- Access control, audit tables, telemetry, the web and command-line clients, OpenAPI and HTTP routes, Docker, systemd, egress leases and the node coordinator's internals.
- Path clashes inside one configuration, where one path is a directory of another: paths are independent names.
- ConfigPromotion.GameFiles.Promote: takes no negative revision; staging refuses those.
- UpdateHelper.RootHelper.Healthy: models the default receipt probe, not an injected one.
- CommandStore.SqliteStore.Claim: takes its random token as an argument.
