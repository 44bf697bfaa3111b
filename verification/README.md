# Verified model of the durpdeploy agent

The agent polls a server for deployments, runs their steps on the host or in containers, and reports
each outcome, across crashes of the process, lost replies, failed commands and power failures. This
project models the parts of it that keep state under such conditions and proves what they promise.

`dafny verify dfyconfig.toml` checks the whole project.

## How the pieces fit

**Claims.** `Dispatch.dfy` is the server's dispatch machine, with a server that other parties may
advance between any two steps of the agent. `ClaimWorld.dfy` is what the claim lifecycle acts on: the
marker file with a *visible* copy (what the next read finds) and a *durable* one (what a power failure
leaves), the staging directories (`HostTree.dfy`), the container runtime and the job's processes. It
also holds the *record* of everything observable (polls, starts, executions, reports,
acknowledgements, marker writes and removals) and the rules every record obeys (`Allowed`, `Safe`).
`ClaimRecovery.dfy`, `ClaimStorage.dfy`, `ClaimStaging.dfy`, `ClaimExecution.dfy` and `AgentLoop.dfy`
are the agent itself, method by method. The main theorem is `AgentLoop.Run`: over any number of
sessions, with any pairing and configuration, any failures, crashes and restarts, the record stays
safe. `ClaimSafety.dfy` reads off what that means for polls, reports and removals: short corollaries whose
proof lies in `AgentLoop.Run`. `AgentLoop.Recover` is its counterpart for recovery:
however often it is interrupted it comes closer to its end, and what it needs for that stays in place.

A crash is a flag that the environment may raise before any operation on the world; from then on, until
the next session, operations of the dead process fail without effect. Commands that fail may have had
their effect or not, so a crash between two container commands is the same as all later ones failing.

**Execution.** `ContainerRuntime.dfy` is the part of Docker or Podman that carries this agent's label;
every command may fail, before or after its effect. `ContainerExecutor.dfy` is the executor's resource
ledger, `HostSupervisor.dfy` the process forest below the child subreaper, `JobExecution.dfy` attempts,
retries and steps over both. Error values are the sets of sentinels `errors.Is` finds (`Errors.dfy`), so
that every join on the way of a cleanup error to the claim is checked.

**Archives.** `ArchiveTree.dfy` says when a list of entries stands for a directory tree, whatever its
order, and which tree. `StagingArchive.dfy` (TAR) and `ArtifactArchive.dfy` (ZIP) are the two incremental
validators with extraction, and packing. `ResourcePolicy.dfy` is the capacity arithmetic in 64 bits, and
shows that accepted archives fit the volumes sized by it.

**Logs.** `RedactingWriter.dfy` assembles lines from chunks, `Utf8.dfy` and `LogSender.dfy` cut them into
numbered, bounded, batched events, `LogPipeline.dfy` composes the two.

**Trust.** `Pairing.dfy` is the pairing session with the state file its listener commits to, `Pins.dfy`
pin rotation with persistence and restarts, `Curve.dfy` the conversion of Ed25519 keys to X25519.

## Where the code does not keep what one would expect

Each is shown by a lemma with a concrete input, next to the exact condition under which the property does
hold.

- Recorded roots are not always in an order that can be purged: after a launch a script may nest them
  (`HostTree.MovedRootsMayBlockRecovery`; recovery goes through exactly for child-first lists,
  `HostTree.PurgeAllNeedsChildFirst`).
- Recovery from the durable copy of the marker may find a root missing: a root is struck off, the rename of
  the shorter list succeeds and its directory sync fails, and the next session purges the directory above that
  root before a power failure brings the longer list back (`HostTree.UnsyncedRecordBlocksRecovery`; a completed
  purge leaves the durable list purgeable exactly if none of its roots lies below the purged directory,
  `HostTree.PurgeSparesExactly` and `ClaimRecovery.Client.PurgeRecoveredRoot`. A session that starts with equal
  copies never goes wrong, `AgentLoop.Recover`.) The reset of the staging directory at startup is such a purge
  too.
- A cancellation may be sent before it is durable: the marker is rewritten, its directory sync fails, and the
  next session sends what it finds, after which a power failure replays the result
  (`ClaimSafety.UnsettledCancellationMayBeSent`; every outcome sent is durable, except one found on a visible
  copy that differs from the durable one, `ClaimRecovery.Client.ReportCompletedClaim`).
- The supervisor may report a descendant's status as the root's, when the descendant was born under the
  root's reused pid (`HostSupervision.PidReuseHidesStatus`; whatever the job does, the status reported at
  the end is the root's own exactly if nobody else was collected under its pid,
  `HostSupervision.StatusIsTheRootsOwn`, and always when no process is born under it,
  `HostSupervision.RootStatusIsReported`).
- The agent may poll while the durable copy of the marker still carries an acknowledged report, when the
  directory sync of its removal failed (`ClaimSafety.UnsettledMarkerMayReturn`;
  `ClaimSafety.PollingIsCalm` holds once the removal is settled).
- A staging TAR is accepted but cannot be extracted if it has a regular entry named "." or a name with a
  component of more than 255 bytes (`StagingArchive.DotFileIsAcceptedButNotExtractable`,
  `StagingArchive.LongElementIsAcceptedButNotExtractable`; an accepted archive is extracted exactly if every
  entry is `Extractable`, `StagingArchive.Unpack`).
- The order of ZIP entries matters when a directory declares a size
  (`ArtifactArchive.LyingDirectoryMakesOrderMatter`). Acceptance in every order and in some order have exact
  conditions (`ArtifactArchive.AcceptedInEveryOrder`, `ArtifactArchive.AcceptedInSomeOrder`), and the order
  matters exactly between the two (`ArtifactArchive.AcceptanceIsUnordered`).
- A log batch may exceed the server's event limit when lines are written after a failed write
  (`LogDelivery.WriteAfterFailureOverflows`; what a write sends can be decoded exactly if fewer than a hundred
  events were pending, or just a hundred that are sent before the new one joins them,
  `LogDelivery.LogSender.Write`). Behind the redacting writers of a claim this never happens
  (`LogPipeline.ReplayClaim`).
- A pairing request that is refused with 401 may leave the agent paired after a restart: the commit renamed the
  state file and failed to sync it (`PairingProtocol.RefusedRequestMayStillPair`;
  `PairingProtocol.Listener.ServerInit` says exactly when the file is left alone).

## Model

| member | source | states |
|---|---|---|
| AgentLoop.Run | cmd/agent/main.go:125-166 | over any number of sessions, crashes, power failures and restarts the record is safe, and between sessions both copies of the marker remember every container and host root that may be left |
| AgentLoop.Recover | cmd/agent/claim_storage.go:110-202 | over any number of recovery sessions with any configuration, crashes and power failures: no more synced writes than the fuller copy of the marker had work left, no poll, start or execution; if every session starts with equal copies of the marker every outcome sent is durable, and unless a session's first purge takes something from the durable list both copies stay purgeable; when it ends nothing is left |
| AgentLoop.RunPaired | cmd/agent/main.go:180-211 | the loop goes on exactly after a round without work, a finished claim or a conflict; any other error ends it, and the claim is suspended safely |
| AgentLoop.PollOnce | cmd/agent/main.go:192-209 | polling needs a marker without a report, nothing in the runtime, no job process, and every recorded root purged |
| AgentLoop.NothingLeft | cmd/agent/main.go:180-211 | a marker without a report implies that nothing of any earlier claim is left |
| ClaimSafety.DurableOutcomeIsDeliveredBeforePolling | cmd/agent/claim_storage.go:110-167 | in every safe record an outcome that was made durable is acknowledged before the next poll |
| ClaimSafety.PollingIsCalm | cmd/agent/main.go:180-211 | a poll finds no report in the visible marker, nor in the durable one once it is settled, and nothing left over |
| ClaimSafety.OrdinaryReportsLeaveNothingBehind | cmd/agent/claim_execution.go:209-282 | succeeded, failed and cancelled are sent only with no container, volume, process or unpurged root, and after execution only as the visible marker says, the durable one too once the marker is settled |
| ClaimSafety.ReportsLeaveTheDiskAcknowledged | cmd/agent/claim_storage.go:153-201 | a report leaves the disk only after its acknowledgement; a cleanup report of an executed claim moreover only with an empty runtime |
| ClaimSafety.UnsettledMarkerMayReturn | cmd/agent/claim_storage.go:204-212 | counterexample, as a record the rules allow of a whole run from poll to poll: a removal whose directory sync failed lets the agent poll while the durable marker carries a report |
| ClaimSafety.UnsettledCancellationMayBeSent | cmd/agent/terminal_recovery.go:34-42 | counterexample, as a record the rules allow of a whole run: a cancellation is sent while the durable marker still carries the result, which is sent again after a power failure |
| ClaimWorld.ExecutedAtMostOnce | cmd/agent/claim_execution.go:51-181 | in every safe record a deployment is executed at most once, after an accepted start |
| ClaimWorld.World.Start | internal/agentclient/lifecycle.go:110-126 | an acknowledged start, through retries and lost replies, means the claim was accepted and never executed before |
| ClaimWorld.World.WriteMarker | cmd/agent/claim_storage.go:214-254 | atomic replacement: the visible marker is the old or the new one, success makes the new one durable and settled |
| ClaimWorld.World.RemoveMarker | cmd/agent/claim_storage.go:204-212 | removal is allowed only for acknowledged reports, and success means neither copy is left |
| ClaimWorld.World.Report | internal/agentclient/lifecycle.go:137-181 | an ordinary report is sent only in a calm world and as the marker carries it; success means it was acknowledged |
| ClaimRecovery.Client.ResumeCleanupResult | cmd/agent/claim_storage.go:110-202 | recovery never polls, starts or executes, sends only the marker's report or its cancellation, durable unless found otherwise, pays for every marker write with work done, and keeps both copies purgeable if its first purge spares the durable list; success means a report found was acknowledged and removed for good |
| ClaimRecovery.Client.PurgeRecordedRoots | cmd/agent/claim_storage.go:133-153 | roots are purged and struck off in order; however it is interrupted a purgeable visible list stays so, and the durable one too if the first purge spares it; success leaves only the report to deliver, in both copies |
| ClaimRecovery.Client.PurgeNextRoot | cmd/agent/claim_storage.go:134-144 | a failure between purge and record loses nothing: the same list and the rest of it are still purgeable, and the durable list too if the purge spares it |
| ClaimRecovery.Client.PurgeRecoveredRoot | cmd/agent/staging_root_linux.go:50-80 | only a directory with the recorded identity is purged, the directory itself stays, and a completed purge leaves the list of the durable marker purgeable exactly if it spares it |
| ClaimRecovery.Client.ReportCompletedClaim | cmd/agent/terminal_recovery.go:13-42 | success means the marker's report was acknowledged; a conflict may turn a result into a cancellation of the same protocol and claim; whatever is sent is durable, except the report the call found on a marker that was not |
| ClaimRecovery.Client.FinishTerminal | cmd/agent/claim_storage.go:127-168 | success means neither copy of the marker is left and the server acknowledged a report of the claim; purges keep both lists purgeable if the first spares the durable one |
| ClaimRecovery.Client.FinishCleanup | cmd/agent/claim_storage.go:169-201 | success means neither copy of the marker is left, the server acknowledged a report of the claim, and readiness proved the runtime empty |
| ClaimRecovery.Client.ClearClaim | cmd/agent/claim_storage.go:204-212 | removing the marker keeps everything left over remembered |
| ClaimReports.SealedReportComesBack | internal/agentclient/terminal_report.go:20-166 | a sealed report comes back exactly for its own pairing and deployment, through exactly one of the two decoders |
| ClaimStorage.Persist | cmd/agent/claim_storage.go:101-108 | replacing the marker of the claim being worked on never forgets a container or a recorded root |
| ClaimStorage.PersistCleanup | cmd/agent/claim_storage.go:36-61 | success means both copies of the marker stand for the containers that may exist |
| ClaimStorage.PersistHostStagingCleanup | cmd/agent/staging_recovery.go:20-42 | success means both copies of the marker carry the roots together with an interrupted failure |
| ClaimStorage.PrepareContainerClaim | cmd/agent/claim_storage.go:64-99 | no container step runs before its recovery marker is durable; otherwise the claim is reported without having begun |
| ClaimStorage.Settle | cmd/agent/claim_storage.go:17-34 | only the actual outcome, or the cancellation it lost against, is reported, only in a calm world, and durable before it is sent |
| ClaimStorage.Abandon | cmd/agent/claim_execution.go:24-31 | giving up before the start leaves nothing behind and reports nothing |
| ClaimStaging.JobStaging.NewJobStaging | cmd/agent/staging.go:32-65 | the staging directories exist under the identities of their handles, or an error says not |
| ClaimStaging.JobStaging.Configure | cmd/agent/staging.go:67-86 | container steps get a volume, host steps a directory; every open stage belongs to the claim |
| ClaimStaging.JobStaging.ConfigureArtifact | cmd/agent/artifact.go:21-58 | success means the package is in a directory of its own below the staging base beside the workspace, and for container steps sealed in a new read-only stage that holds it |
| ClaimStaging.JobStaging.RecordRoots | cmd/agent/staging_recovery.go:46-87 | success yields the recovery list for the current places of the handles |
| ClaimStaging.JobStaging.Announce | cmd/agent/claim_execution.go:166-178 | before a host job is launched both copies of its marker carry a recoverable list of roots and an interrupted failure |
| ClaimStaging.JobStaging.PurgeHandles | cmd/agent/staging.go:149-157 | success means everything recorded is purged, wherever the job moved it |
| ClaimStaging.JobStaging.CloseStages | cmd/agent/staging.go:127-138 | success means no container or volume of the claim is left |
| ClaimStaging.JobStaging.Close | cmd/agent/staging.go:127-164 | without the cleanup error nothing is left in the runtime and every recorded root is purged |
| ClaimExecution.ConfigureStage | cmd/agent/claim_execution.go:151-179 | a host claim is not run before its recovery is on both copies of the marker and possible |
| ClaimExecution.RunSteps | cmd/agent/claim_execution.go:180-182 | executes once, keeps the marker, and a process cleanup error always carries the container cleanup error |
| ClaimExecution.RunWorkload | cmd/agent/claim_execution.go:103-199 | without the cleanup error the world is calm, whatever was staged, executed, published and closed |
| ClaimExecution.LeaveToRecovery | cmd/agent/claim_execution.go:209-237 | with the cleanup error only an unconfirmed cleanup is ever reported, and everything left is remembered |
| ClaimExecution.Admit | cmd/agent/claim_execution.go:21-72 | an admitted claim was accepted, not executed, and is recoverable; any other leaves the client at rest, with whatever could not be removed remembered |
| ClaimExecution.ExecuteClaim | cmd/agent/claim_execution.go:16-283 | reports are faithful to the workload: success only after an error-free one, failure only after a failed one, unconfirmed cleanup only with the cleanup error; the outcome of a workload is durable before it is sent; the claim ends settled or remembered |
| Dispatching.StartedWorkIsNeverReplayed | protocol/state.go:29-88 | no run of the dispatch machine leads from a started deployment back to a claimable one |
| Dispatching.ResultIsAcceptedOnce | protocol/state.go:49-79 | an accepted result is final and the only one |
| Dispatching.RunKeepsBegun | protocol/state.go:18-46 | whatever others make the server do, a begun deployment stays begun and its start is never accepted again |
| HostTree.PurgeAllNeedsChildFirst | cmd/agent/claim_storage.go:134-144 | purging a list of present roots in order succeeds exactly if no root lies below an earlier one |
| HostTree.InterruptedPurgeStaysRecoverable | cmd/agent/staging_root_linux.go:50-80 | a purge interrupted anywhere leaves the same list, and the rest of it, purgeable |
| HostTree.PurgeSparesExactly | cmd/agent/claim_storage.go:134-144 | any purge keeps another recoverable list recoverable if it spares its roots, and a completed one only then: otherwise purging that list fails |
| HostTree.UnsyncedRecordBlocksRecovery | cmd/agent/claim_storage.go:140-142 | counterexample: with the record of the first purge visible but not durable, the next purge blocks the durable list |
| HostTree.PrelaunchRootsAreRecoverable | cmd/agent/staging_recovery.go:46-87 | for the layout before a launch the recorded list is present and child-first |
| HostTree.MovedRootsMayBlockRecovery | cmd/agent/staging_recovery.go:46-87 | counterexample: after a launch the recorded order may nest, and recovery stops |
| HostTree.RecordsDenoteHandles | cmd/agent/staging_recovery.go:46-87 | every record denotes one of the three open directories at its current place |
| HostTree.PurgeLeavesOrEmpties | internal/staging/purge.go:37-67 | purging one directory leaves any other recorded one in place or empties it as well |
| ContainerExecution.ContainerExecutor.NewStage | executor/container_staging.go:54-148 | success registers a stage that holds exactly the archive, a read-only one unwritable and mounted ever since the import; failure leaves nothing or reports the cleanup |
| ContainerExecution.ContainerExecutor.HandOver | executor/container_staging.go:125-136 | the volume holds the archive in every state of the handover from the writable to the read-only helper |
| ContainerExecution.ContainerExecutor.Close | executor/container_staging.go:212-253 | success removes exactly the stage's helpers and volume; failure closes the executor |
| ContainerExecution.ContainerExecutor.RunAttempt | executor/container_attempt.go:17-182 | uncertain cleanup lets nothing run; attempts only mount admitted stages; without the cleanup error the containers are as before; the pinned image is run |
| ContainerExecution.ContainerExecutor.Ready | executor/container_runtime.go:169-216 | success means no container, no staging volume, no stage and no cleanup error |
| ContainerExecution.ContainerExecutor.RemoveAndConfirm | executor/container_runtime.go:229-255 | success by name means the name is gone |
| ContainerExecution.ContainerExecutor.CleanStagingVolumes | executor/container_staging.go:255-275 | success means no staging volume is left |
| ContainerExecution.Serve | executor/container_staging.go:125-146 | over any sequence of operations with any failures, failed cleanups included, a handed-over package stays mounted, unwritable and unchanged in every state of the runtime until it is closed or all orphans are reclaimed |
| ContainerExecution.GrowthReleased | executor/container_staging.go:73-82 | releasing a stage that was being built restores the runtime |
| ContainerExecution.BuiltReadOnly | executor/container_staging.go:125-136 | after the importer is gone nothing mounts the package writable |
| ContainerExecution.AttemptGone | executor/container_attempt.go:60-71 | removing an attempt restores the containers and volume names it found |
| ContainerExecution.RemovalKeeps | executor/container_runtime.go:229-255 | removing by name never detaches another stage |
| HostSupervision.NoChildrenNoJob | executor/host_supervisor_cleanup_linux.go:36-38 | a supervisor without children has no descendants at all |
| HostSupervision.RunKeeps | executor/host_supervisor_cleanup_linux.go:16-59 | over any schedule of forks, exits and re-parenting the job's processes stay rooted in the supervisor |
| HostSupervision.Forest.WaitHostChildren | executor/host_supervisor_cleanup_linux.go:16-59 | does what `Watch` says of the polls, with the same children collected when it stops, and returning without an error means the whole process forest is gone, the root was collected, and the status is that of the last child collected under its pid |
| HostSupervision.StopsWithEmptyForest | executor/host_supervisor_cleanup_linux.go:16-59 | whatever the polls find, stopping means an empty forest, a collected root and the status of the last child collected under the pid |
| HostSupervision.RootStatusIsReported | executor/host_supervisor_cleanup_linux.go:45-54 | unless some process is born under the root's pid, the status reported is the one the root exited with |
| HostSupervision.StatusIsTheRootsOwn | executor/host_supervisor_cleanup_linux.go:16-59 | over every run of the wait loop that stops, the status reported is that of the last child collected under the root's pid, and that child is the root exactly if nobody else was collected under its pid |
| HostSupervision.PidReuseHidesStatus | executor/host_supervisor_cleanup_linux.go:45-54 | counterexample, as one run of the supervisor from start to stop: the root exits with 0, a descendant born under its pid is killed, and 137 is reported |
| JobExecution.Executor.Supervise | executor/host_supervisor_linux.go:19-61 | "stopped" is reported only when no process of the job is left |
| JobExecution.Executor.RunHostAttempt | executor/executor.go:93-188 | a staged attempt starts only with no staged process alive, and leaves none unless it returns both cleanup errors |
| JobExecution.Executor.ExecuteAttempt | executor/job_execution.go:106-128 | without the cleanup error everything is as it was found |
| JobExecution.Executor.ExecuteAttempts | executor/job_execution.go:65-103 | only errors that permit it are retried, up to the limit; a cleanup error is never retried or lost, retries never overlap, and every attempt runs the image the first one resolved |
| JobExecution.Executor.ExecuteSteps | executor/execution.go:129-168 | success means every step succeeded; the cleanup errors of any step reach the caller; host steps leave the runtime alone |
| JobExecution.RetryError | executor/job_execution.go:130-144 | a step is retried exactly after a retryable error without a cancellation; an unconfirmed cleanup ends it, whatever else happened |
| ArchiveTree.IncrementalCheck | internal/staging/archive.go:192-231 | checking entries one at a time accepts exactly the trees: distinct names, no file above another entry, nodes within the limit |
| ArchiveTree.TreesAreUnordered | artifact/zip_entry.go:22-55 | being a tree does not depend on the order of the entries |
| ArchiveTree.WalkingUp | artifact/zip_entry.go:41-53 | the loop over parents visits exactly the ancestors of a name |
| ArchiveTree.AncestorIsValid | internal/staging/archive.go:187-190 | every ancestor of a valid name is valid and never "." |
| ArchiveTree.AncestorIsLinkable | artifact/zip_entry.go:10-12 | a name without a component of more than 255 bytes has only such ancestors |
| ArchiveTree.TreeGrows | internal/staging/archive.go:233-257 | extracting one more entry of a tree never conflicts with what is there and yields the larger tree |
| ArchiveTree.Destination.Restore | internal/staging/archive.go:233-257 | restoring an entry that fits succeeds exactly unless it is a file named "." or has a component of more than 255 bytes, and adds the entry and its directories |
| StagingArchive.ValidateEntry | internal/staging/archive.go:192-231 | accepts a header exactly if the archive so far stays acceptable with it |
| StagingArchive.Unpack | internal/staging/archive.go:128-185 | accepts exactly the acceptable archives, and extracts one exactly if no entry is a file named "." or has a component of more than 255 bytes, to exactly its tree |
| StagingArchive.DotFileIsAcceptedButNotExtractable | internal/staging/archive.go:187-190 | counterexample for "accepted archives can be extracted" |
| StagingArchive.LongElementIsAcceptedButNotExtractable | internal/staging/archive.go:187-190 | counterexample: every file name of one component between 256 and 4096 bytes is accepted and cannot be extracted |
| StagingArchive.AcceptanceIsUnordered | internal/staging/archive.go:128-185 | acceptance does not depend on the order of the headers |
| StagingArchive.Pack | internal/staging/archive.go:33-98 | packs exactly the trees of regular files and directories with valid names within the limits, one header per node |
| StagingArchive.PackedTreeComesBack | internal/staging/archive.go:33-185 | whatever can be packed is accepted back under the same policy and unpacks to the same tree |
| ArtifactArchive.ValidateZIPEntry | artifact/zip_entry.go:22-55 | accepts an entry exactly if the tree so far stays one with it |
| ArtifactArchive.ProcessZIP | artifact/zip.go:54-90 | validation and extraction accept the same archives, extraction yields exactly their tree, and the remaining budget never goes negative |
| ArtifactArchive.ProcessEntry | artifact/zip.go:92-136 | an admitted entry is restored exactly if its stream is as long as declared and fits the budget |
| ArtifactArchive.WithinBudget | artifact/zip.go:72-87 | the bytes written never exceed the budget |
| ArtifactArchive.AcceptanceIsUnordered | artifact/zip.go:54-90 | the order of the entries matters exactly if the archive is acceptable in some order and a directory declares more than the files leave of the budget |
| ArtifactArchive.AcceptedInEveryOrder | artifact/zip.go:54-90 | an archive is accepted in every order exactly if its entries are valid, form a tree, its files are honest and fit the budget, and every directory's declared size fits besides all of them |
| ArtifactArchive.AcceptedInSomeOrder | artifact/zip.go:72-87 | an archive is accepted in some order exactly if that holds with every directory's declared size within the budget alone |
| ArtifactArchive.LyingDirectoryMakesOrderMatter | artifact/zip.go:80-82 | counterexample: a directory that declares a size makes the order matter |
| ArtifactArchive.ValidatorsAgree | artifact/zip_entry.go:22-72 | under equal limits both validators accept the same trees |
| ResourcePolicy.ValidStage | resourcepolicy/validate.go:77-90 | rejects exactly the limits whose stage size, inodes or helper memory exceed 64 bits, without overflowing itself |
| ResourcePolicy.ValidCapacity | resourcepolicy/validate.go:66-92 | rejects exactly the limits from which some derived size would exceed 64 bits |
| ResourcePolicy.StageCapacity | executor/container_staging.go:150-156 | for accepted limits the unchecked computation of stage sizes is exact |
| ResourcePolicy.AcceptedStagingFits | executor/container_staging.go:83-106 | every accepted staging archive fits its volume with files rounded up to pages, and its inode quota |
| ResourcePolicy.AcceptedPackageFits | executor/container_staging.go:83-106 | every accepted package fits its volume and inode quota |
| RedactingOutput.RedactingWriter.Write | executor/redacting_writer.go:30-61 | a chunk has the effect of its bytes one by one; the count says what was taken before an error |
| RedactingOutput.RedactingWriter.Flush | executor/redacting_writer.go:63-75 | the rest of the output is a line of its own |
| RedactingOutput.RedactingWriter.WriteLines | executor/redacting_writer.go:77-97 | offers the rendered lines in order up to the first refusal |
| RedactingOutput.ChunkingDoesNotMatter | executor/redacting_writer.go:30-61 | lines, error and buffer are the same for every split of the output into chunks |
| RedactingOutput.MeetsReference | executor/redacting_writer.go:30-97 | streaming equals cutting the whole output into lines first |
| RedactingOutput.LinesMakeUpTheOutput | executor/redacting_writer.go:34-40 | the complete lines and the residue make up the output, and only the end of a line is a newline |
| RedactingOutput.ResidueIsOfferedLast | executor/redacting_writer.go:63-75 | finishing offers the rendered residue after everything else, up to the first refusal |
| RedactingOutput.AttemptsAreHonest | executor/job_execution.go:65-103 | over the outputs of all attempts of a step the sink took every line but the last, and that one exactly unless delivery failed |
| RedactingOutput.OnlyShortLinesAreOffered | executor/redacting_writer.go:41-49 | what is offered is exactly the rendered complete lines before the first one over the limit, up to the first refusal: no part of a line over the limit, or of what follows it, is ever offered |
| RedactingOutput.ErrorIsFinal | executor/redacting_writer.go:31-33 | nothing happens after the first error |
| RedactingOutput.RefusedLineIsTheLast | executor/redacting_writer.go:84-95 | a refused line is the last one offered |
| RedactingOutput.OnlyTheLastIsRefused | executor/redacting_writer.go:30-97 | of everything offered over a whole output only the last line can have been refused |
| Utf8.CleanIsValid | cmd/agent/log_sender.go:35-35 | cleaning yields valid UTF-8 and leaves valid text alone |
| Utf8.CutAtRuneStart | cmd/agent/log_sender.go:37-42 | a cut before a code point damages neither part |
| Utf8.StartNearby | cmd/agent/log_sender.go:37-42 | the search for a cut ends within three bytes |
| Utf8.SixBytesSuffice | cmd/agent/log_sender.go:44-56 | JSON escaping takes at most six bytes per byte |
| LogDelivery.LogSender.PieceLength | cmd/agent/log_sender.go:37-42 | the piece is the one `CutLength` names, within the limit, nearly fills it, and splits no code point |
| LogDelivery.CutIsSafe | cmd/agent/log_sender.go:37-42 | cutting a valid line damages no code point and leaves at most three bytes of the limit unused |
| LogDelivery.PiecesSpell | cmd/agent/log_sender.go:32-82 | the events of a line spell it, are numbered in order, and each is valid and within the limit |
| LogDelivery.LogSender.Write | cmd/agent/log_sender.go:32-82 | the cleaned line becomes its pieces, or on failure a beginning of them; numbers have no gap and nothing is lost; every batch it sends is decodable exactly if the pending events were `Sendable`; a batch is too large only for an oversized envelope |
| LogDelivery.LogSender.FlushLocked | cmd/agent/log_sender.go:90-108 | events leave the sender only when acknowledged |
| LogDelivery.WriteAfterFailureOverflows | cmd/agent/log_sender.go:66-74 | counterexample: writing 101 empty lines to a server that never replies sends a batch it could not decode |
| LogPipeline.ReplayStep | executor/redacting_writer.go:77-97 | over all attempts of a step every batch sent is decodable by the server, and the events spell the cleaned offered lines after whatever earlier steps left pending, on failure a beginning of them |
| LogPipeline.ReplayClaim | executor/execution.go:129-168 | over all steps of a claim, up to the first whose log fails, and the final flush every batch sent is decodable, and the events spell the cleaned offered lines of all these steps in order, of a step whose delivery failed a beginning |
| PairingProtocol.PairingSession.Pair | protocol/pairing.go:191-278 | pairs exactly an acceptable confirmation that commits; a failed commit changes nothing; a repeated confirmation of the same trust succeeds at any time |
| PairingProtocol.PairingSession.Prepare | protocol/pairing.go:129-179 | answers exactly whether pairing would be accepted |
| PairingProtocol.PairingSession.Expire | protocol/pairing.go:82-93 | expires exactly a pending offer whose time has come |
| PairingProtocol.Replay | protocol/pairing.go:191-278 | over any calls, clocks and commit failures at most one commit succeeds, its trust is stored in the session, and paired or expired sessions never change |
| PairingProtocol.Listener.ServerInit | bootstrap/commit.go:13-71 | success is answered exactly for an acceptable confirmation that was saved and synced, or a repeated one, and then both copies of the state file hold its trust; the file is left alone exactly unless an accepted request's save renamed it |
| PairingProtocol.Serve | bootstrap/commit.go:36-54 | over any requests, clocks and failing saves the state file holds only trust that was asked for with the offered code and agent, and once the session is paired both copies stay as they are |
| PairingProtocol.RefusedRequestMayStillPair | state/state.go:76-105 | counterexample: a request answered with 401 leaves its trust in the state file |
| PinRotation.PromotePendingPin | transport/verify.go:164-179 | promotes exactly the pending pin, and drops the old one |
| PinRotation.PinnedClient.PromotePin | internal/agentclient/pins.go:31-52 | the trusted pin changes only to the pending pin the peer presented, once that is saved |
| PinRotation.PinnedClient.StagePins | internal/agentclient/pins.go:54-91 | the trusted pin never changes; what is staged is saved first; a second rotation is refused |
| PinRotation.PinnedClient.PersistPins | internal/agentclient/pins.go:93-100 | a failed save may or may not have replaced the file; success is durable |
| PinRotation.PinnedClient.Restart | state/state.go:109-152 | a restart loads pins that are trusted as well |
| PinRotation.PinnedClient.Run | internal/agentclient/pins.go:31-99 | over any rotation, failed saves and restarts every trusted pin is the paired one or was promoted |
| PinRotation.TrustPath | transport/verify.go:164-179 | every trusted pin traces back to the paired one, promotion by promotion |
| CurveConversion.PublicToX25519 | payload/envelope.go:192-216 | converts exactly the keys whose coordinate is below the prime and has an image, which is every one but 1 if the modulus is prime, to the 32-byte encoding of that image |
| CurveConversion.ImageIsUnique | payload/envelope.go:203-212 | modulo an odd number, as the prime is, a key has at most one image |
| CurveConversion.ImageIsInjective | payload/envelope.go:192-216 | different coordinates below the modulus have different images |
| CurveConversion.OnlyTheSignIsIgnored | payload/envelope.go:196-198 | two keys are converted alike exactly if they differ at most in the sign bit |
| CurveConversion.OnlyOneHasNoImage | payload/envelope.go:203-208 | for a prime modulus every coordinate but 1 has an image |
| CurveConversion.Reverse | payload/envelope.go:278-282 | reverses in place |
| CurveConversion.ModInverse | payload/envelope.go:205-208 | finds an inverse exactly if there is one |

## Left out

- AgentLoop.Run: a crash is observed at operations on the marker, the directories, the server and the start of the workload; a crash between container commands is covered by all later commands failing.
- ClaimWorld.World.WriteMarker: a rename is durable or not as a whole, and purges of directories are durable in the order they were made.
- ClaimWorld.World.Restart: the service manager's control-group kill ends every job process; a host step without staging is not supervised, so nothing is claimed about its processes, and its marker carries no report while it runs.
- ClaimStorage.PersistCleanup: without a container executor the source dereferences a missing executor; the model lets the process die there.
- ClaimRecovery.Client.ReportCompletedClaim: the HTTP status is modelled as acknowledged, conflict, or anything else; the heartbeat that confirms a cancellation is a nondeterministic answer.
- ClaimReports.DecodeReport: sealing is an ideal box keyed by identity key and deployment, and the token hash is injective; a marker with conflicting reports, which the agent never writes, is excluded by its well-formedness.
- ContainerExecution.ContainerExecutor.RemoveAndConfirm: listings are accurate when they succeed; removal by identifier is not confirmed, as in the source, and readiness rests on its final listing.
- JobExecution.Executor.RunHostAttempt: interpreters, environment, output pipes and the exact joins of ordinary errors are reduced to whether each step succeeded.
- HostSupervision.Forest.WaitHostChildren: the scan of /proc and the timers are nondeterministic; the method is observed for any finite number of polls.
- StagingArchive.Unpack: byte-level TAR, PAX headers, the archive byte budget, the trailer check, I/O errors, cancellation and the UTF-8 validity of names.
- ArtifactArchive.ProcessZIP: byte-level ZIP, compression, the metadata budget, I/O errors and cancellation; `path.Clean` is implied by the path check.
- ResourcePolicy.ValidCapacity: the floating-point check of helper CPUs.
- RedactingOutput.RedactingWriter.Write: the scrubber is any function, the sink any function of what it was given before.
- LogDelivery.LogSender.Write: timeouts, and retries inside one upload; whether an upload is acknowledged is any function of its number.
- PairingProtocol.Listener.ServerInit: the content of a request is what its decoder yields, and the hook after a commit is left out.
- PairingProtocol.PairingSession.Pair: hashes are injective on the code bytes; the mutex makes each call one step.
- PinRotation.PinnedClient.Restart: a state file that cannot be loaded requires a new pairing, which starts a new chain.
- CurveConversion.OnlyOneHasNoImage: stated for any odd prime; that 2^255 - 19 is prime is not proved, so `PublicToX25519` states that every coordinate below it but 1 is converted under that assumption.
- The backoff of requests, poll encoding, configuration, host name discovery, TLS verification of certificates and envelope encryption are not modelled.
