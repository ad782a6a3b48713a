# Verified model of sctl's protocols

sctl is a device agent (`server/`) with an MCP front end (`mcp/`). This project models the parts of it that
keep state over time, and proves what they promise over whole runs; three arithmetic kernels come with them.
Clocks, modem replies, check results, file-system answers, worker crashes and network damage are inputs that
may take any value unless a contract says otherwise.

Each stateful component has the same shape: functions that say what one step does, a class whose methods
change the fields in place and are proved to take exactly those steps, and lemmas over every run of steps.

| file | component |
|---|---|
| `Chunks.dfy` | how a file is cut into chunks, and put together again by writes at offsets |
| `Transfers.dfy`, `TransferRuns.dfy`, `UploadRuns.dfy`, `DownloadRuns.dfy` | the gawdxfer transfer manager with whole handlers as steps: phases, done chunks, temp file, hash check, rename |
| `UploadCollisions.dfy` | an upload whose temp file another upload replaces: when it comes to harm |
| `TransferLaws.dfy` | each request of the manager branch by branch, with its conditions written out, and how damaged chunks fail an upload |
| `Uploader.dfy` | the client that uploads a file through it |
| `TransferSections.dfy`, `TransferRefinement.dfy` | the same manager with each lock-held section as a step, under every interleaving; whole handlers are shown to be runs of sections |
| `TransferContents.dfy` | the file behind one upload under interleaving: opens, writes and the rename between the sections |
| `TransferFiles.dfy` | whole handlers as runs of those moves, for the table and for one upload's file |
| `Watchdog.dfy` | the LTE watchdog: one tick, its escalation, and episodes of ticks |
| `WatchdogLadder.dfy` | the ladder of recovery actions as a table, and that every tick of every run takes the rung that is due |
| `ReloadProxy.dfy` | the MCP hot-reload supervisor and the requests it must not lose |
| `SessionBuffer.dfy`, `ExecMarkers.dfy` | the session output buffer with cursor reads; the marker scan of `exec_wait` |
| `InfraMonitor.dfy`, `CrashLoop.dfy` | target status with hysteresis and budgeted recovery; the server supervisor's crash window and backoff |
| `Calendar.dfy`, `Bands.dfy`, `Subnets.dfy` (on `Bits.dfy`) | civil-from-days, band masks in hex, CIDR arithmetic |
| `Basics.dfy` | what several components share |

`dafny verify dfyconfig.toml` checks everything.

Where a property one would expect does not hold of the code, the model keeps the code and states the exact
boundary:

- Between whole handlers a complete upload stays complete unless it is aborted (`TransferRuns.StoppedIsFinal`).
  Between interleaved sections it does exactly when no request of it is still receiving or finalizing
  (`TransferSections.CompleteIsFinal`); a run from the empty table shows one that does not (`OverlapReopens`).
- The content can change after it was hashed, before the rename and after it. From the moment no chunk is let in
  any more it stays, whatever follows, if and only if every request that has the file open would write what is
  there already and no other request that was let in can still open it (`TransferContents.HashedContentIsFinal`;
  after the rename, `RenamedContentIsFinal`). A run from a fresh upload ends complete with other content than was
  hashed (`HashedThenOverwritten`). With a client that sends one file it never happens
  (`InterleavedUploadIsExact`).
- A running transfer has a chunk left to do unless its chunk count was cut to zero by the 32-bit count
  (`TransferSections.NewFitsUnlessCutToZero`, `CutToZero`).
- Slices always assemble to the file, provided no other upload ends at its temp file; the temp name passes the
  file name check. After another upload has ended there, the client comes through every continuation unharmed if
  and only if that content mends: it is not too long, too short only with the last chunk to come, and right, with
  zeros for what is missing, in the chunks that are done (`UploadCollisions.HarmlessIfMends`, `CollisionHarm`).
  Two accepted uploads show the harm (`TempNameCollision`).
- The client sends the whole target path as the directory and its last segment as the file name, while the
  server requires the path to be a directory. So a success puts the file at that path inside the target
  directory (`Uploader.FileWriteChunked`).
- Client and server count the chunks of a file alike if and only if it is not empty (`Uploader.CountsAgree`); an
  empty file is always refused (`EmptyIsRefused`).
- The overlap test on a prefix above 32 answers by the first address only (`Subnets.OverlapOfNonBlock`).
- `exec_wait` returns the right exit code if and only if the first poll that gets past the done marker does not
  cut the code or the underscores that close it (`ExecMarkers.WaitedSession`); what a cut returns is stated too
  (`WaitedReads`).
- A target that degrades after more than 2^32 - 1 straight successes stays degraded through any further ones, since
  its `u32` counter wraps in the comparison (`InfraMonitor.WrappedRunSticks`); the status laws hold on both sides.
- `verified_set_bands` can leave the modem deregistered, exactly in the cases `Bands.VerifiedSetBands` lists.

The hash is a function parameter; where the identity of contents is concluded from equal hashes, injectivity
is a stated hypothesis.

## Model

| member | source | states |
|---|---|---|
| Chunks.ChunksTile | server/src/gawdxfer/manager.rs:434-440 | every byte position lies in exactly one chunk below the chunk count, and no such chunk is empty |
| Chunks.SlicesJoinToFile | mcp/src/client.rs:313-356 | the slices in index order concatenate to the file, for every non-empty file and nonzero chunk size |
| Chunks.WritingSliceKeepsAgreement | server/src/gawdxfer/manager.rs:622-650 | writing a slice at its offset, whole or torn off, keeps agreement on all done chunks; a whole slice adds its own |
| Chunks.AllDoneIsFile | server/src/gawdxfer/manager.rs:664-668 | a temp file that agrees on all chunks is the file |
| Chunks.WritingSliceMends | server/src/gawdxfer/manager.rs:622-650 | a slice keeps mendable what is mendable, and a whole slice of a chunk not done makes nothing mendable that was not |
| Transfers.TransferManager.InitiateUpload | server/src/gawdxfer/manager.rs:194-326 | refusals in the source's order; else a temp file of zeros and a fresh transfer; the failed allocation removes its temp file |
| Transfers.TransferManager.InitiateDownload | server/src/gawdxfer/manager.rs:54-154 | refusals in the source's order; else a fresh download of the file's size, hash and chunk count; called unless a non-empty file would be divided by a zero chunk size |
| Transfers.TransferManager.Receive | server/src/gawdxfer/manager.rs:539-694 | the new table and files and the answer for every chunk: refused, damaged, not written, stored, or last; each of these cases is stated on its own by the lemmas of `TransferLaws` |
| Transfers.TransferManager.VerifyAndFinalize | server/src/gawdxfer/manager.rs:699-766 | hash check unless none was announced, removal and failure on a mismatch, else rename and completion |
| Transfers.TransferManager.Serve | server/src/gawdxfer/manager.rs:367-478 | the chunk read from the source and the counted progress, or the error that left the table unchanged |
| Transfers.TransferManager.ResumeTransfer | server/src/gawdxfer/manager.rs:814-860 | back to transferring from paused or transferring only, answering with the done indices |
| Transfers.TransferManager.AbortTransfer | server/src/gawdxfer/manager.rs:866-886 | aborted from any phase, temp file removed if it can be |
| Transfers.TransferManager.PauseEverything | server/src/gawdxfer/manager.rs:949-957 | afterwards nothing runs and no slot is taken; what could be resumed still can, and only phases have changed |
| Transfers.TransferManager.Sweep | server/src/gawdxfer/manager.rs:964-990 | exactly the stale transfers and their removable temp files are gone |
| TransferRuns.RunEvolves | server/src/gawdxfer/types.rs:35-59 | over every run a transfer keeps its identity, paths, sizes and announced hash; done chunks stay done; a stopped one never runs again |
| TransferRuns.StoppedIsFinal | server/src/gawdxfer/manager.rs:566-576 | with whole handlers a transfer that has stopped running stays exactly as it is, but for being aborted or swept |
| TransferRuns.PauseThenResume | server/src/gawdxfer/manager.rs:825-838 | pausing everything and resuming one transfer gives that transfer back, and leaves no other one running |
| TransferRuns.FinalPathsChangeOnlyByPublication | server/src/gawdxfer/manager.rs:699-760 | over every run a path where no transfer has its temp file holds what an upload last published there, else its first content |
| TransferRuns.OrdinaryPath | server/src/gawdxfer/manager.rs:279-280 | every path not named like a temp file is one where no transfer has or gets its temp file |
| TransferRuns.CompleteUploadsArePublished | server/src/gawdxfer/manager.rs:677-766 | whatever lengths and contents were sent, an upload that is complete has published content with the hash it carries |
| TransferRuns.CompleteUploadIsExact | server/src/gawdxfer/manager.rs:715-766 | with an injective hash, an upload announced with the hash of a file and complete at the end of a run put exactly that file at its path |
| TransferRuns.AllDeliveredCompletes | server/src/gawdxfer/manager.rs:652-688 | in every run in which each chunk was done or got acknowledged, in any order, with repeats, pauses and errors between, the transfer completes |
| UploadRuns.OwnChunkAssembles | server/src/gawdxfer/manager.rs:603-688 | a slice of the file keeps the temp file in agreement, is never answered with a hash mismatch, publishes nothing but the file, and is acknowledged if the disk works |
| UploadRuns.OthersAtTemp | server/src/gawdxfer/manager.rs:279-297 | a step of another transfer leaves this one's temp file as it is or makes it what that transfer publishes there |
| UploadRuns.SlicesAssemble | server/src/gawdxfer/manager.rs:590-688 | over every run of client slices in which no other upload ends at the temp file, it agrees with the file on the done chunks while the upload runs, and no reply is a hash mismatch |
| UploadRuns.DamageIsCounted | server/src/gawdxfer/manager.rs:603-620 | the error count is at most the number of damaged chunks sent |
| UploadRuns.UploadDeliversFile | server/src/gawdxfer/manager.rs:539-766 | from an accepted start on, if no other upload ends at the temp file: never a hash mismatch; never failed below the retry limit of damaged chunks; once all chunks are acknowledged, the file is at the final path |
| UploadCollisions.HarmlessIfMends | server/src/gawdxfer/manager.rs:590-766 | for a running upload whatever its temp file holds: every continuation of the client is free of hash mismatches and publishes only its file, if and only if the temp file is not too long, short only with the last chunk to come, and right in the done chunks |
| UploadCollisions.CollisionHarm | server/src/gawdxfer/manager.rs:751-760 | after another upload has ended at the temp file: every continuation of the client is free of hash mismatches and publishes only its file, if and only if what was put there mends |
| UploadCollisions.TempNameCollision | server/src/gawdxfer/manager.rs:215-224 | from the empty state, two accepted uploads, the second named like the first one's temp file: the first then fails its hash on its right slice |
| TransferLaws.UploadFailsByDamage | server/src/gawdxfer/manager.rs:603-620 | over every run from an accepted start with three errors per chunk within 32 bits: the error count is the number of damaged chunks taken and never above 3 * total_chunks; at that number the upload is failed (or aborted since), and it is failed only then or after a hash mismatch |
| TransferLaws.RefusedChunk | server/src/gawdxfer/manager.rs:546-585 | an upload chunk is refused exactly if the transfer is unknown, no upload, not transferring, or the index is out of range, and then nothing changes |
| TransferLaws.DamagedChunkCounts | server/src/gawdxfer/manager.rs:603-620 | a damaged chunk is answered as such, raises the error count by one, and fails the upload at three errors per chunk, both counts in 32 bits |
| TransferLaws.UnwrittenChunk | server/src/gawdxfer/manager.rs:622-650 | a chunk that cannot be written whole is an I/O error: the table stays, and the temp file has at most part of it |
| TransferLaws.StoredChunk | server/src/gawdxfer/manager.rs:652-675 | a chunk that is written while others are missing is marked, counted by its length and acknowledged, and nothing else changes |
| TransferLaws.LastChunkDecides | server/src/gawdxfer/manager.rs:677-766 | the last chunk: unverified if it cannot be hashed, failed and removed on another hash than announced, unverified and removed if it cannot be renamed, else complete at the final path |
| TransferLaws.UnservedChunk | server/src/gawdxfer/manager.rs:367-463 | each refusal of a download chunk exactly when it applies: unknown, no download or out of range, source changed since the start, unreadable or too short; nothing changes then |
| TransferLaws.ServedChunk | server/src/gawdxfer/manager.rs:434-478 | a served chunk is the file's bytes at its position, marked and counted; the last one completes the transfer |
| TransferLaws.ResumeLaw | server/src/gawdxfer/manager.rs:814-860 | which transfers a resume takes, what it changes and what it answers |
| TransferLaws.AbortLaw | server/src/gawdxfer/manager.rs:866-886 | an abort of a known transfer in any phase, and of an unknown one |
| TransferLaws.PauseLaw | server/src/gawdxfer/manager.rs:949-957 | pausing everything pauses exactly the running transfers and changes nothing else |
| TransferLaws.SweepLaw | server/src/gawdxfer/manager.rs:964-990 | exactly the stopped or paused transfers idle for longer than the timeout go, with their temp files |
| TransferLaws.UploadStarts | server/src/gawdxfer/manager.rs:194-326 | when a start is refused and with which error, with the limits written out, and what an accepted one leaves |
| TransferLaws.DownloadStarts | server/src/gawdxfer/manager.rs:54-154 | the same for the start of a download |
| DownloadRuns.BytesAreAccounted | server/src/gawdxfer/manager.rs:465-475 | over every run the byte count grows by the newly done chunks plus the chunks served again |
| DownloadRuns.CountIsDoneUnlessRepeated | server/src/gawdxfer/manager.rs:434-478 | from the start on the count is at least the done chunks' length, and equal if and only if no chunk was served twice |
| DownloadRuns.DownloadsServeTheFile | server/src/gawdxfer/manager.rs:415-463 | while no upload replaces the source or has its temp file there, every served chunk is the slice of the file as it was at the start |
| DownloadRuns.ResumeListsDone | server/src/gawdxfer/manager.rs:840-851 | the list names exactly the done chunks, in increasing order |
| DownloadRuns.ServingTheRestCompletes | server/src/gawdxfer/manager.rs:814-851 | fetching the chunks a resume did not list completes the transfer |
| Uploader.FileWriteChunked | mcp/src/client.rs:305-379 | the slices are sent in order, each once, up to the first that is lost, refused or rejected, and the result says which; with any requests of others between its own and any request or answer lost: a success means the file was published at its path, and is there unless another upload was put there; a rejection means a damaged chunk; an accepted and undisturbed upload succeeds |
| Uploader.EmptyIsRefused | mcp/src/client.rs:313-326 | the start that the client sends for an empty file is never accepted |
| Uploader.CountsAgree | mcp/src/client.rs:313-326 | the announced chunk count is the one the server computes, 32-bit cut included, if and only if the file is not empty |
| Uploader.DamageIsRejected | server/src/gawdxfer/manager.rs:603-620 | a slice is answered as rejected if and only if it was damaged on its way to a transfer that takes it |
| Uploader.LastSegmentIsName | mcp/src/client.rs:316-316 | the announced name is what follows the last slash of the path, or the whole path without one |
| Uploader.RequestAnnounces | mcp/src/client.rs:319-326 | the announced size, hash and chunk size are the file's and 256 KiB |
| TransferSections.InterleavingsKeepInv | server/src/gawdxfer/manager.rs:653-675 | under every interleaving a running transfer has a chunk to go, and a verifying or complete one has none |
| TransferSections.InterleavingsGrow | server/src/gawdxfer/manager.rs:825-837 | under every interleaving done chunks stay done, and a transfer that has stopped running never runs again |
| TransferSections.LateSectionCounts | server/src/gawdxfer/manager.rs:603-675 | a request that has passed its check still counts its damaged, stored or served chunk in whatever phase others have brought the transfer to |
| TransferSections.LastSectionDecides | server/src/gawdxfer/manager.rs:715-766 | the sections that end an upload set its phase whatever it is by then; for a transfer that is gone they leave the table |
| TransferSections.LeftForGood | server/src/gawdxfer/manager.rs:984-990 | a transfer that has left the table never comes back, whatever requests are under way |
| TransferSections.NewFitsUnlessCutToZero | server/src/gawdxfer/manager.rs:1032-1040 | a new transfer has a chunk to go if and only if its chunk count was not cut to zero |
| TransferSections.CutToZero | server/src/gawdxfer/manager.rs:1032-1040 | a file of 2^32 chunks is counted as having none |
| TransferSections.CompleteIsFinal | server/src/gawdxfer/manager.rs:652-672 | under interleaving a complete transfer stays complete, through all that may follow but an abort, if and only if no request of it is receiving or finalizing |
| TransferSections.OverlapReopens | server/src/gawdxfer/manager.rs:652-672 | a run from the empty table completes an upload, and one more section takes it back to verifying |
| TransferContents.InterleavedUploadIsExact | server/src/gawdxfer/manager.rs:622-688 | under every interleaving of sections, opens, writes and renames with client slices, the file is the client's whenever the hash is taken, and for good from the rename on |
| TransferContents.RenamedContentIsFinal | server/src/gawdxfer/manager.rs:622-650 | whatever was sent, the file as renamed keeps its content if and only if every request that has it open would write what is there |
| TransferContents.HashedContentIsFinal | server/src/gawdxfer/manager.rs:699-760 | once no chunk is let in any more, as when the hash is taken: the file keeps its content through rename and all else if and only if every request that has it open would write what is there, and no other that was let in can still open it |
| TransferContents.HashedThenOverwritten | server/src/gawdxfer/manager.rs:710-760 | a run from a fresh upload in which the hashed content is overwritten before the rename and the upload completes |
| TransferFiles.HandlerIsMoves | server/src/gawdxfer/manager.rs:539-766 | a handler run alone does to the table and to one upload's file what its moves do; what it publishes is the renamed file |
| TransferFiles.RunsAreMoves | server/src/gawdxfer/manager.rs:367-990 | every run of whole handlers in which no other upload ends at the temp file is, for one upload, a run of moves |
| TransferFiles.StartMatches | server/src/gawdxfer/manager.rs:279-326 | an accepted start leaves the temp file with which the moves begin |
| TransferRefinement.HandlerIsSections | server/src/gawdxfer/manager.rs:539-694 | each handler, run alone, leaves the table that its locked sections leave |
| TransferRefinement.RunsAreInterleavings | server/src/gawdxfer/manager.rs:367-990 | every run of whole handlers with fresh ids is one of the interleavings |
| Watchdog.Task.Tick | server/src/lte_watchdog.rs:670-1454 | one tick: suppression, recovery bookkeeping, grace, reverts, diagnosis, dispatch; its effects and whether it ended the episode |
| Watchdog.Task.WhileConnected | server/src/lte_watchdog.rs:724-754 | a connected tick, with the light and heavy resets |
| Watchdog.Task.RevertAndDispatch | server/src/lte_watchdog.rs:862-937 | the pre-change revert, at most once per episode, before diagnosis |
| Watchdog.Task.SafeRevertAndDispatch | server/src/lte_watchdog.rs:939-1014 | the safe-bands revert, at most once per episode, before diagnosis |
| Watchdog.Task.DiagnoseAndAct | server/src/lte_watchdog.rs:1019-1346 | the symptom-based dispatch |
| Watchdog.Task.Carry | server/src/lte_watchdog.rs:1348-1454 | counting, logging, the nudge after a radio action, and the reset when the tunnel is back |
| Watchdog.Task.LightResetNow | server/src/lte_watchdog.rs:249-261 | all caps of the episode are whole again and no cooldown holds; attempts and dormancy stay |
| Watchdog.Task.RecordAction | server/src/lte_watchdog.rs:290-295 | from then on an action of a level waits exactly that level's cooldown |
| Watchdog.DecisionsKeepCaps | server/src/lte_watchdog.rs:1033-1346 | no decision goes over a per-episode cap, whatever is diagnosed |
| Watchdog.EpisodesKeepCaps | server/src/lte_watchdog.rs:249-260 | in every episode of every run: at most 1 re-register, 2 airplane cycles, 2 dispatched restarts, 3 nudges, 2 reverts, and 7 interface restarts in all |
| Watchdog.BackoffNeverCapped | server/src/lte_watchdog.rs:269-288 | where exhaustion implies dormancy, the cooldown of an attempt is at least 600 s and the 1800 s cap is never the one applied |
| Watchdog.CyclesPassGate | server/src/lte_watchdog.rs:572-617 | every USB cycle decided on, from whichever branch, has level, disconnect time and sysfs evidence |
| Watchdog.TickSound | server/src/lte_watchdog.rs:1406-1424 | a tick keeps exhaustion dormant, and does at most one USB cycle, as its last effect, 600 s after an earlier attempt |
| Watchdog.RunsArePaced | server/src/lte_watchdog.rs:249-288 | in every run three attempts imply dormancy, two USB cycles of an episode are at least 600 s apart, and each passed its gate |
| Watchdog.CyclesAreGated | server/src/lte_watchdog.rs:572-617 | in every run, whatever the clock does, each USB cycle had its level, recorded time down and sysfs evidence |
| Watchdog.CyclesFollowDrops | server/src/lte_watchdog.rs:826-833 | a USB cycle is done only if a tick of the same episode found the tunnel down as long ago as its evidence says, and at least the configured minimum |
| Watchdog.NoCycleBelowLevelFour | server/src/config.rs:462-464 | below escalation level 4, so at the default 3, no run power-cycles the modem, whatever the clock does |
| Watchdog.TickDoesNoHarm | server/src/lte_watchdog.rs:124-199 | with the data path up, the client rebuilding it or no modem, a tick does nothing but band reverts |
| WatchdogLadder.LadderIsClimbed | server/src/lte_watchdog.rs:1033-1346 | in every run a tick past its grace, with no revert due, does what the table of rungs says on the probe, what the episode has used up and the time since the last action: wait, one action with its bookkeeping, or dormancy |
| WatchdogLadder.DecisionIsDue | server/src/lte_watchdog.rs:1033-1346 | for every symptom, configuration and history the decision is the first rung not used up, once its pause is over |
| WatchdogLadder.LadderTick | server/src/lte_watchdog.rs:826-862 | a single tick past its grace follows the table |
| WatchdogLadder.RevertTick | server/src/lte_watchdog.rs:862-937 | a due revert to the bands before a change is tried once; it ends the tick if the tunnel is back, else the tick goes on as without it |
| WatchdogLadder.SafeTick | server/src/lte_watchdog.rs:939-1014 | so for the revert to the safe bands |
| WatchdogLadder.GraceTick | server/src/lte_watchdog.rs:755-862 | within the grace, three minutes longer for a searching modem, a tick only notes the drop |
| WatchdogLadder.HandsOffTick | server/src/lte_watchdog.rs:670-722 | during a scan of at most half an hour, a band action, or two minutes after a user acted, nothing is done or noted |
| WatchdogLadder.ConnectedTick | server/src/lte_watchdog.rs:724-754 | up for 90 s the episode is forgotten, up for 300 s the attempts and dormancy too, and never before |
| WatchdogLadder.RecoveryForgets | server/src/lte_watchdog.rs:249-261 | after a recovery the next episode starts fresh but for attempts and dormancy |
| ReloadProxy.Supervisor.Track | mcp/src/supervisor.rs:298-322 | the handshake is kept, other requests become pending in arrival order |
| ReloadProxy.Supervisor.Untrack | mcp/src/supervisor.rs:324-335 | an answer takes its request out of the pending list |
| ReloadProxy.Supervisor.ProxyLoop | mcp/src/supervisor.rs:220-268 | every worker line before the loop's end is forwarded, whole and in order; it ends by a reload exactly at a reload signal, else at a lost worker or an unwritten client line; and what stays pending |
| ReloadProxy.Supervisor.DrainWorker | mcp/src/supervisor.rs:353-384 | the lines that arrive are forwarded, whole and in order, up to the first read that gives none or the first line after which nothing is pending |
| ReloadProxy.Supervisor.Replay | mcp/src/supervisor.rs:200-212 | the pending requests are written in order up to the first failing write: those the respawn step of the system offers |
| ReloadProxy.Supervisor.StartGeneration | mcp/src/supervisor.rs:140-213 | a new generation is sent the handshake and then what is pending, as the respawn step of the system says; it ends instead exactly if the handshake or the notice fails |
| ReloadProxy.AnswerOne | mcp/src/supervisor.rs:324-335 | one more delivered answer takes exactly its request out of the unanswered ones |
| ReloadProxy.StepKeepsInv | mcp/src/supervisor.rs:115-215 | client lines, worker output, lost output, deliveries and respawns all keep the invariant |
| ReloadProxy.AnsweredOnceOrPending | mcp/src/supervisor.rs:115-215 | in every run each tracked request is exactly one of answered once or pending, and pending is what is unanswered in arrival order |
| ReloadProxy.ReplayOffersUnanswered | mcp/src/supervisor.rs:200-212 | each replay offers the unanswered requests in arrival order, all of them unless a write fails |
| ReloadProxy.ProxyLoopIsRun | mcp/src/supervisor.rs:220-268 | the select loop is a run of the system's steps, and the answers among its forwarded lines are those the run delivers |
| ReloadProxy.DrainIsRun | mcp/src/supervisor.rs:353-384 | so is the drain loop, with its forwarded answers |
| ReloadProxy.HandshakeIsLast | mcp/src/supervisor.rs:298-322 | in every run the handshake a new worker is sent is the last initialize request and notification of the client |
| ReloadProxy.InsertKnown | mcp/src/supervisor.rs:316-320 | a request with a known id takes the place of the earlier one, with its own text |
| ReloadProxy.EveryRequestCanStillBeAnswered | mcp/src/supervisor.rs:160-215 | from every reachable state a respawn and an answering worker leave every tracked request answered |
| SessionBuffer.Buffer.Push | mcp/src/websocket.rs:70-83 | the new entries, last number and dropped count |
| SessionBuffer.HoldsNewest | mcp/src/websocket.rs:70-83 | the buffer is the newest 5000 of all pushes |
| SessionBuffer.GapAccounting | mcp/src/websocket.rs:70-83 | dropped plus pushed is last number - first number + 1 |
| SessionBuffer.LastIsGreatest | mcp/src/websocket.rs:70-83 | in whatever order numbers come, the last number is the greatest so far |
| SessionBuffer.DroppedIsSkipped | mcp/src/websocket.rs:70-83 | the dropped count grows exactly by the numbers skipped after the greatest so far |
| SessionBuffer.PollIsExact | mcp/src/websocket.rs:299-366 | a poll returns exactly what was pushed since the last one, except what was evicted |
| SessionBuffer.ReadingIsExact | mcp/src/tools.rs:1250-1250 | over all polls, entries read plus entries missed are the entries pushed |
| SessionBuffer.ReaderSeesAll | mcp/src/websocket.rs:299-366 | a reader sees every entry once and in order if and only if no more than 5000 arrive between two polls |
| ExecMarkers.PrintedEndsBeforeNext | mcp/src/websocket.rs:590-608 | a printed done marker does not overlap a later one, so shrinking the search skips none |
| ExecMarkers.FindDone | mcp/src/websocket.rs:590-608 | the backward scan ends at the last digit-followed done marker, if there is one |
| ExecMarkers.LastRealOfSession | mcp/src/websocket.rs:586-608 | in a finished session's text that is the marker the command printed, whatever echo and output contain |
| ExecMarkers.LastStartOfSession | mcp/src/websocket.rs:618-634 | the start marker found is the printed one |
| ExecMarkers.CapturedSession | mcp/src/websocket.rs:586-647 | a finished session's text yields exactly its output and exit code |
| ExecMarkers.PushAll | mcp/src/websocket.rs:570-575 | the collected text is all entries in order |
| ExecMarkers.Scan | mcp/src/websocket.rs:590-647 | the result of one scan of the collected text |
| ExecMarkers.ExecWait | mcp/src/websocket.rs:495-649 | the first poll that ends it decides: the deadline with all the text, the session's exit with all the text and its code, or a printed marker with what is cut out there |
| ExecMarkers.WaitedSession | mcp/src/websocket.rs:495-649 | exec_wait returns exactly the output and exit code if and only if the first poll past the done marker does not cut the code or its closing underscores |
| ExecMarkers.WaitedReads | mcp/src/websocket.rs:586-649 | however the text comes in, that first poll decides: the output is exact, the code is what the text shows of it; without such a poll time runs out |
| ExecMarkers.WaitedEnds | mcp/src/websocket.rs:570-649 | after any number of polls without exit or printed marker: the result of a deadline, of the session's exit with its code, and of a printed marker |
| ExecMarkers.OutputBetweenLines | mcp/src/websocket.rs:618-643 | the output lies between the first line end after the last start marker and the last line end before the done marker |
| ExecMarkers.OutputWithoutStart | mcp/src/websocket.rs:618-643 | without a start marker it is all the text before that last line end |
| ExecMarkers.OutputOnOneLine | mcp/src/websocket.rs:618-643 | with no line end after the start marker it is what follows the marker, or nothing if a line end comes before it |
| ExecMarkers.CodeIsNumber | mcp/src/websocket.rs:610-616 | a decimal number after the done marker is the exit code if it fits 31 bits, and none otherwise |
| ExecMarkers.NoNumberNoCode | mcp/src/websocket.rs:610-616 | anything but digits there is no exit code |
| InfraMonitor.Monitor.TryRecovery | server/src/infra/monitor.rs:180-241 | runs exactly within budget and cooldown, and counts the run |
| InfraMonitor.Monitor.CheckTarget | server/src/infra/monitor.rs:55-114 | one check result: the target's own step, and no change to any other target |
| InfraMonitor.LogHoldsNewest | server/src/infra/mod.rs:299-304 | the recovery log is the newest entries, in order, up to its bound |
| InfraMonitor.CountersAreRuns | server/src/infra/monitor.rs:55-97 | the counters are the lengths of the closing runs of successes and failures, up to the 32-bit limit where they stay |
| InfraMonitor.DownIsEarned | server/src/infra/monitor.rs:128-177 | Down is entered if and only if the target was Degraded and at least down_after straight failures have just ended, counted in 32 bits |
| InfraMonitor.UpIsEarned | server/src/infra/monitor.rs:128-177 | from Degraded or Down, Up is re-entered if and only if at least up_after straight successes have just ended, counted in 32 bits |
| InfraMonitor.RunsDecide | server/src/infra/monitor.rs:128-177 | max(2, down_after) failures end in Down and max(1, up_after) fast successes in Up, whatever came before, if the latter are reached within 32 bits of successes |
| InfraMonitor.StatusLaw | server/src/infra/monitor.rs:128-177 | the status after every check of every history: the first check by success alone, Up by success and latency, Degraded and Down by the closing runs |
| InfraMonitor.WrappedRunSticks | server/src/infra/monitor.rs:158-176 | after more than 2^32 - 1 straight successes a degraded target stays degraded |
| InfraMonitor.NoRecoveryUnasked | server/src/infra/monitor.rs:101-108 | no recovery runs for a target that is not Down, has none, or has it switched off |
| InfraMonitor.RecoveryKeepsBudget | server/src/infra/monitor.rs:101-114 | in every Down interval recovery runs at most max_retries times, at recorded times a cooldown apart, for any clock |
| InfraMonitor.RecoveryRunsWhenDue | server/src/infra/monitor.rs:180-241 | recovery runs at a check if and only if the target is Down, runs are left and the cooldown is over |
| InfraMonitor.TargetsAreIndependent | server/src/infra/monitor.rs:55-114 | in every run what is kept about a target depends on its own checks alone |
| CrashLoop.Supervisor.RecordCrashAndPickBackoff | server/src/supervisor.rs:71-101 | the trimmed window, the safe-mode flag and the sleep |
| CrashLoop.Supervisor.HandleCrash | server/src/supervisor.rs:188-238 | one crash: stability reset, sleep, doubled backoff |
| CrashLoop.DropOldIsRecent | server/src/supervisor.rs:79-86 | popping from the front of an ordered deque is filtering to the window |
| CrashLoop.WindowIsExact | server/src/supervisor.rs:71-101 | the deque is exactly the crashes of the last 180 s and never holds more than 3 |
| CrashLoop.OneAfterTrip | server/src/supervisor.rs:71-101 | the first crash after a safe-mode trip finds only itself in the window |
| CrashLoop.TripIsThirdInWindow | server/src/supervisor.rs:87-95 | safe mode trips if and only if the crash is the third within 180 s |
| CrashLoop.EngagedOnceTripped | server/src/supervisor.rs:87-95 | safe mode is engaged if and only if some crash so far was the third within 180 s |
| CrashLoop.BackoffIsCappedPower | server/src/supervisor.rs:188-238 | the backoff is min(2^k, max_backoff) after k unstable crashes in a row |
| CrashLoop.SleepPolicy | server/src/supervisor.rs:188-238 | the sleep at every crash of every run, from the crash times alone |
| Calendar.YearOfParts | server/src/infra/mod.rs:327-340 | the three corrections of the year formula cancel exactly |
| Calendar.DaysToDateIsCalendar | server/src/infra/mod.rs:327-340 | for every day count the formula gives the date reached by that many next-day steps from 1970-01-01 under the Gregorian rules |
| Calendar.FormattersAgree | server/src/lte.rs:2290-2310 | for every timestamp both formatters give that date and the same valid time of day |
| Calendar.TimeOfDay | server/src/infra/mod.rs:311-325 | hour, minute and second recompose to the seconds of the day |
| Bands.BandsToHex | server/src/lte.rs:862-870 | the hex of the mask of the bands within 1 to 128 |
| Bands.ParseBandConfig | server/src/lte.rs:2008-2038 | the bands of the hex field, none if there is no number |
| Bands.BandsRoundTrip | server/src/lte.rs:862-870 | to hex and back gives the bands within 1 to 128, sorted and distinct |
| Bands.FieldIsLenient | server/src/lte.rs:2023-2029 | either prefix, a plus sign, letters of either case and leading zeros read alike |
| Bands.NoNumberNoBands | server/src/lte.rs:2026-2029 | what is no hexadecimal number of at most 128 bits reads as no bands |
| Bands.EqualHexIsEqualSets | server/src/lte.rs:862-870 | equal hex if and only if equal sets of such bands |
| Bands.VerifiedSetBands | server/src/lte.rs:886-946 | success if and only if a read-back showed the requested set, even from a modem that ignores writes; every command sent, in order, with the hex of the requested set; when the modem is left deregistered |
| Subnets.ContainsIsMember | server/src/infra/discovery.rs:449-468 | comparing under the mask is membership in the block |
| Subnets.OverlapIsIntersection | server/src/infra/discovery.rs:437-446 | the overlap test holds if and only if the address sets intersect |
| Subnets.NoOverlapIsDisjoint | server/src/infra/discovery.rs:437-446 | a negative answer is right for every pair, prefixes above 32 included |
| Subnets.OverlapOfNonBlock | server/src/infra/discovery.rs:437-446 | what the test answers when the first prefix is above 32 |
| Subnets.NormalizeKeepsMembers | server/src/infra/discovery.rs:305-319 | normalizing succeeds exactly up to prefix 32, keeps the address set and is idempotent |
| Subnets.NormalFormIsCanonical | server/src/infra/discovery.rs:305-319 | blocks of one prefix normalize alike if and only if they hold the same addresses |
| Subnets.MergeRoutes | server/src/infra/discovery.rs:394-412 | the address subnets and then, in order, the routes that `RouteIsNew` keeps |
| Subnets.RouteIsNew | server/src/infra/discovery.rs:394-412 | a route is added if and only if no address subnet of its interface has its gateway as a member |
| Subnets.KeptOfJoin | server/src/infra/discovery.rs:414-428 | what was kept of the sniffed subnets counts as known for those after them |
| Subnets.BlockIsKept | server/src/infra/discovery.rs:414-428 | a sniffed block is kept if and only if it shares no address with a known one |
| Subnets.MergeSniffed | server/src/infra/discovery.rs:414-428 | the known subnets and then the sniffed ones kept in order, which touch nothing; whatever was sniffed is overlapped by the result |
| Subnets.AutoDetectSubnets | server/src/infra/discovery.rs:394-428 | in the final list every sniffed subnet is disjoint from every other entry |

## Left out

- Serial, USB, sysfs, `uci`, `ifup`, `curl`, tokio timers and channels: abstract effects or inputs.
- SHA-256: a function parameter; collisions are excluded only where a lemma says so.
- HTTP routes, authentication, the WebSocket transport, configuration loading, JSON and YAML parsing, the web UI.
- File contents under interleaving: the file of one upload is modelled; collisions between uploads are modelled for whole handlers, which are shown to be runs of the moves.
- The file system beyond a map from directory and name to content: links, two spellings of one directory, permissions and `mode`, and writers other than the transfer manager.
- `max_concurrent`: checked at a start as in the source, but no bound on running transfers is claimed, since a resume does not check it and the check and the insert are separate sections.
- Progress and completion broadcasts, `status`, `list` and the activity log of the transfer manager: they only read.
- Disk space arithmetic: `statvfs` and the ten percent headroom are one input.
- `bytes_transferred` and times are unbounded; the `u32` chunk count, retry limit and error count do wrap.
- The download of a non-empty file with a zero chunk size: it divides by zero, and is a step without effect in runs.
- Bands.ParseBandConfig: starts from the LTE field; finding its line, splitting it and trimming quotes are left out, because they are a case table over the reply format.
- Watchdog snapshots, events, reports on disk, band history, and the promotion of safe bands: records that no decision reads.
- The inside of `apply_band_config` and of the actions: their answers, restarts and the tunnel's return are inputs.
- `do_safe_set_bands` and `recover_data_path_pub`: they promise nothing about registration after a rollback.
- `AtPollingHealth`: its backoff states are not reachable.
- AT response parsing, EARFCN and APN tables, signal bars, GPS: case tables.
- The disconnect grace of `exec_wait`, non-ASCII white space, and signs before an exit code.
- Entries that a reconnect makes up with a used sequence number: reading, polling and gap accounting are about increasing numbers.
- Due-interval gating of the infra monitor, the checks themselves, and discovery apart from the merge.
- Zero padding and separators of printed timestamps: the fields are modelled.
- `binary_watcher`, process spawning and logging of the two supervisors.
- `ActivityLog` paging, `ExecResultsCache` and playbook rendering.
