# Omacast: ownership protocols and bounded processors

Omacast casts a desktop to a Wi-Fi Display receiver. Two privileged shell scripts change the host's
networking and must undo it whatever dies; a user-side supervisor persists its session phase by phase; in
between, a guarded transport run watches an engine, and a handful of bounded processors read streams,
process trees and untrusted text. This project models those parts in Dafny and proves what they are for.

`dafny verify dfyconfig.toml` checks everything.

## What is modelled

- **Guard and recovery worker** (`guard_*.dfy`). The host is a record of booleans and lists: NetworkManager
  paused, firewalld port open, WFD elements, NetworkManager activation, networkd, `.network` file, P2P
  clients; next to each its root-owned marker file. Each shell line of `prepare`, `cleanup` and
  `recover_session` is one step; each external command may fail; either process may be killed between any two
  lines; the broker, the kernel and the user act in between. `guard_host` has the lines both cleaners share,
  `guard_protocol` the machine, `guard_control` and `guard_evidence` the invariants, `guard_theorems` and
  `guard_convergence` the results, `guard_serving` the session in which nothing fails, `guard_failure` and
  `guard_effort` what failing lines leave behind and what they leave alone, `guard_traces` concrete runs, and
  `guard_worker` both cleanup scripts as an imperative program proved against the same lines.
- **Session protocol** (`session_*.dfy`). The holder of the lock (one of three supervisors, or a recovery), any
  number of unlocked stop requesters and crashes, over `state.json` and `stop-request.json` as cells with
  atomic replace whose directory sync may fail after the replace. `session_supervisor` is the transport
  supervisor and the recovery as imperative programs that take the machine's steps, `session_simulated` the other
  supervisors' session in which nothing fails.
- **Guarded run** (`transport_loop.dfy`, `transport_run.dfy`, `liveness.dfy`, `lease.dfy`, `lease_timing.dfy`).
  The supervision loop over arbitrary observations, the `finally` and its cleanup confirmation composed with
  the guard protocol and the session supervisor, the disconnect detector, and the heartbeat lease as
  truncation plus partial writes against one bounded read.
- **Bounded processors** (`pipe_drain.dfy`, `output_tail.dfy`, `byte_tail.dfy`, `process_tree.dfy`).
- **Parsers and arithmetic** (`rtsp*.dfy`, `utf8.dfy`, `handshake.dfy`, `wfd_handshake.dfy`, `wfd_messages.dfy`,
  `wfd_info.dfy`, `json_budget.dfy`, `pairing.dfy`, `decimal.dfy`). RTSP messages follow RFC 2326, section 4;
  their bytes RFC 3629, section 3; WFD subelements the Wi-Fi Display Technical Specification, section 5.1.2; the
  PIN check digit the Wi-Fi Simple Configuration Technical Specification.

## Premises

Two scheduling assumptions are history bits of the guard machine, so that each theorem says where it needs them.

- `lateApply`: the guard went on applying changes after recovery had entered `recover_session`. Nothing in the
  scripts prevents it; with it, `cleaned` can be published with NetworkManager paused.
- `lateClient`: a P2P client appeared after a cleaner had listed the clients. The guard unlinks `p2p-armed`
  even when it could not stop the broker, so this can happen; recovery then gives up the token with that
  client still there.

A command that reports failure had no effect, unless the script treats it otherwise (a failed redirection may
still have made the `.network` file). Query commands answer truthfully.

## Where the code does less than one might expect

- Recovery can be stuck for good: if unlinking `p2p-armed` fails and unlinking `p2p-interfaces` then succeeds,
  no later recovery can finish (`GuardFailure.WedgesExactly` says exactly when a cleanup ends so). Convergence is
  proved with its exact condition, which a caller can check: the record is private and has room for the clients not
  yet in it.
- A signal between starting the broker's unit and noting that it was started makes cleanup skip the broker;
  the token goes and the unit runs on. `GuardFailure.BrokerLeftExactly` says exactly when, and
  `GuardFailure.BrokerLeftIsHarmless` that such a broker never saw `p2p-armed`.
- The simulated and dry-run supervisors persist `error` over `idle` when a write of `idle` was replaced but
  reported as failed. Every other persisted step is legal; the two are separated by an if-and-only-if.
- The transport supervisor releases the lock with an active phase on disk after some failing calls and no others;
  `SessionRelease.ActivePhaseLeftExactly` lists them. Recovery handles the state.
- A delayed stop requester of an older session overwrites a newer session's marker; durability holds exactly
  when there is none.
- A lease look that falls between the truncation and the last byte of a renewal ends the lease, however
  regularly it is renewed. With whole renewals it never does.
- After the last renewal the readers leave within the lease, one clock second (both sides round down) and one
  wake period.
- An LF-terminated RTSP message whose body contains a CRLF blank line is divided in its body.

## Model

| member | source | states |
|---|---|---|
| GuardTheorems.NoTokenMeansRestored | packaging/arch/omarchy-cast-guard:268-309 | in every reachable state, once there was a token its absence means NetworkManager runs, the session's firewalld port is closed, WFD elements and the NetworkManager activation are withdrawn, networkd is given back and the `.network` file is gone (under the first premise), and on the direct backend no P2P client is left (under both) |
| GuardTheorems.CleanedIsTrue | packaging/arch/omarchy-cast-guard:389 | whoever published `cleaned`, also the guard after its early return when it no longer owns the token, the token existed and is gone, and under the premises the host is restored |
| GuardTheorems.GoneForGood | packaging/arch/omarchy-cast-guard-recover:200-210 | the token never comes back, so along every later run that keeps the first premise the host stays restored |
| GuardTheorems.WriteAhead | packaging/arch/omarchy-cast-guard:345-376 | in every reachable state under the premises, also after a kill between two lines, each outstanding change of the host has its own marker and the token beside it, so a failed or interrupted cleanup keeps both |
| GuardTheorems.AcknowledgedFirst | packaging/arch/omarchy-cast-guard:377-388 | no change of the host precedes the recovery worker's acknowledgement, with no premise at all |
| GuardTheorems.InvStep | packaging/arch/omarchy-cast-guard:377-404 | every action of the guard, the recovery worker, the broker, the kernel and the user keeps the invariant behind these theorems |
| GuardControl.CtlStep | packaging/arch/omarchy-cast-guard:377-404 | every action keeps the control invariant: flags, who may still act, and that `cleaned` is on file only after the token went |
| GuardControl.OwnedStep | packaging/arch/omarchy-cast-guard:266-277 | until recovery enters, an applying guard owns the token, and a cleaner that stopped the broker stopped it for good |
| GuardEvidence.NetworkExec | packaging/arch/omarchy-cast-guard:259-265 | one cleanup line, failing or not, never leaves NetworkManager paused or the port open without its marker and the token, and a cleaner past those lines with its flag intact undid them |
| GuardEvidence.NetworkStep | packaging/arch/omarchy-cast-guard:83-84 | the same for every action of every process |
| GuardEvidence.BrokerWorkStep | packaging/arch/omarchy-cast-guard:237-258 | every action keeps the markers of the broker's WFD elements and activation with what they stand for, and the token gone means both were undone |
| GuardEvidence.NetworkdStep | packaging/arch/omarchy-cast-guard:183-204 | every action keeps the saved unit states with a touched networkd, and the token gone means networkd was given back and the `.network` file removed |
| GuardEvidence.WalkAdvances | packaging/arch/omarchy-cast-guard:142-181 | one line of either cleaner's walk over the P2P clients keeps every client either listed, recorded or removed, and disturbs no other cleaner's walk |
| GuardEvidence.ClientsStep | packaging/arch/omarchy-cast-guard:278-300 | every action keeps it that a client still there is one `p2p-armed` or the record will lead recovery to |
| GuardConvergence.RecoveryConverges | packaging/arch/omarchy-cast-guard-recover:158-199 | fault-free recovery from any evidence-keeping world restores everything and gives up the token exactly when the private record has room for the unrecorded clients; otherwise no outcome of its commands, iteration by iteration, makes it give up the token |
| GuardConvergence.ConvergesFromAnywhere | packaging/arch/omarchy-cast-guard-recover:158-199 | the same from every reachable state that still has the token, under the two premises |
| GuardConvergence.GuardConverges | packaging/arch/omarchy-cast-guard:268-309 | the guard's own fault-free cleanup, from any evidence-keeping world with its token, restores everything and gives up the token exactly when the interface walk fits; only a broker it was never told of stays; otherwise no outcome of its commands makes it give up the token |
| GuardConvergence.GuardConvergesFromAnywhere | packaging/arch/omarchy-cast-guard:268-309 | the same from every reachable state whose trap has just started, under the two premises; a broker that stays never saw the session armed |
| GuardConvergence.PublishedExactly | packaging/arch/omarchy-cast-guard:389 | a cleanup of either script that owns the token publishes at most once, and always when nothing fails: `cleaned` if it may confirm and the token is gone at its end, failure otherwise |
| GuardServing.PrepareServes | packaging/arch/omarchy-cast-guard:345-404 | a `prepare` in which nothing fails comes to serve, with everything the backend asks for done, marked and reported active, from every initial host and whatever was in place before |
| GuardServing.SessionRestoresHost | packaging/arch/omarchy-cast-guard:377-404 | a fault-free session whose broker set WFD elements and made a client, or activated a connection, ends in exactly the host it started from, and the guard publishes `cleaned` |
| GuardServing.RecoveryRestoresHost | packaging/arch/omarchy-cast-guard-recover:158-217 | the same when the guard is killed while it serves and recovery does the cleanup |
| GuardConvergence.RecoveryIsIdempotent | packaging/arch/omarchy-cast-guard-recover:158-199 | a further recovery changes nothing |
| GuardConvergence.WedgedForEver | packaging/arch/omarchy-cast-guard-recover:167-194 | with `p2p-armed` present and `p2p-interfaces` gone no recovery, whatever fails or not, ever finishes |
| GuardFailure.FailureKeepsTokenAndEvidence | packaging/arch/omarchy-cast-guard:276-306 | for either script, every start and every outcome of the commands: a line that fails in a cleanup that owns the token leaves, at the end of that cleanup, the token and its own resource, marker or record included, as they were when it failed |
| GuardEffort.BestEffort | packaging/arch/omarchy-cast-guard:268-306 | however the commands of either cleanup end, each part of the host is undone unless one of the part's own lines failed; the socket, the WFD elements and the activation depend on stopping the broker too, and nothing else that fails gets in the way |
| GuardEffort.TokenGoneExactly | packaging/arch/omarchy-cast-guard:301-306 | either cleanup that owns the token gives it up if and only if none of its lines fails |
| GuardFailure.WedgesExactly | packaging/arch/omarchy-cast-guard:297-300 | the one exception, exactly: a cleanup ends in the state that no recovery leaves if and only if `p2p-armed` stays at its unlink and the record is gone, because only the second unlink succeeded or because there was none |
| GuardFailure.BrokerLeftExactly | packaging/arch/omarchy-cast-guard:237 | a cleanup of either script that gives up the token leaves the broker running if and only if it was running and the cleaner is a guard that did not know of it |
| GuardFailure.GuardLeavesBrokerExactly | packaging/arch/omarchy-cast-guard:268-306 | the same for the guard's whole cleanup |
| GuardFailure.BrokerLeftIsHarmless | packaging/arch/omarchy-cast-guard:226-237 | in every reachable state that keeps the first premise, a broker that outlives the token never saw the session armed and owns no marker |
| GuardFailure.CleanupRestoresOrRetains | packaging/arch/omarchy-cast-guard-recover:158-217 | under the first premise, from whatever line on and whatever its commands do, a recovery or a guard's cleanup leaves a restored host or the token, and each outstanding change with its own evidence |
| GuardConvergence.GuardFinishIsARun | packaging/arch/omarchy-cast-guard:268-325 | the uninterrupted trap of the guard is a run of the interleaved machine too |
| GuardConvergence.FinishIsARun | packaging/arch/omarchy-cast-guard-recover:158-199 | the uninterrupted recovery these theorems speak of is a run of the interleaved machine |
| GuardTraces.LateApplyBreaksSafety | packaging/arch/omarchy-cast-guard:390-397 | without the first premise there is a run that publishes `cleaned` with NetworkManager paused |
| GuardTraces.LateClientBreaksSafety | packaging/arch/omarchy-cast-guard:297-300 | without the second premise there is a run in which recovery gives up the token with a P2P client left |
| GuardTraces.WedgeIsReachable | packaging/arch/omarchy-cast-guard:297-300 | both premises kept, a failing unlink of `p2p-armed` followed by a successful one of the record leads to the state no recovery can leave |
| GuardTraces.SignalForgetsBroker | packaging/arch/omarchy-cast-guard:226-237 | both premises kept, a signal between starting the broker's unit and noting it ends with the token gone and the broker running |
| GuardWorker.CleanerProcess.GuardExit | packaging/arch/omarchy-cast-guard:268-325 | the guard's trap, line by line and with any outcome of each executed command, ends in the world the specification gives; without the token only the status changes; with it, when nothing fails and the interface walk fits, everything is restored but a broker it was not told of, and when the walk does not fit the token stays whatever happens; it publishes at most once, `cleaned` exactly when it may confirm and the token is gone |
| GuardWorker.CleanerProcess.RecoverSession | packaging/arch/omarchy-cast-guard-recover:158-217 | the imperative recovery likewise; when nothing fails and the interface walk fits everything is restored, when the walk does not fit the token stays whatever happens, a wedged session stays wedged, the token gone means the broker stopped, and `cleaned` is published exactly when the token is gone |
| GuardWorker.CleanerProcess.ClearOwnedWfd | packaging/arch/omarchy-cast-guard-recover:119-130 | only the WFD state changes, its marker goes only with the elements emptied, and a marker that stays is blamed |
| GuardWorker.CleanerProcess.ResumeNetworkManager | packaging/arch/omarchy-cast-guard-recover:105 | only the NetworkManager state changes, its marker goes only after it was resumed, and a marker that stays is blamed |
| GuardWorker.CleanerProcess.CloseFirewalldPort | packaging/arch/omarchy-cast-guard-recover:140-145 | only the port changes, its marker goes only with the port closed, and a marker that stays is blamed |
| GuardWorker.CleanerProcess.RemoveArmedAndRecord | packaging/arch/omarchy-cast-guard-recover:189-194 | only the two P2P files change, and neither unless the walk succeeded |
| GuardWorker.CleanerProcess.RemoveToken | packaging/arch/omarchy-cast-guard-recover:196 | the token goes exactly when nothing failed before and its unlink succeeds |
| GuardWorker.CleanerProcess.PublishAndFinalize | packaging/arch/omarchy-cast-guard-recover:211-217 | nothing but the status changes, and `cleaned` is published only when nothing failed |
| SessionState.Transition | src/omarchy_cast/state.py:267-280 | a checked transition gives a valid state of the wanted phase along the table, and keeps the session id and start time of an active session |
| SessionSafety.PersistedStatesAreLegal | src/omarchy_cast/session.py:553-598 | whatever crashed or failed before, each next persisted state is an edge of the table or none and keeps the session, if and only if the step is not the one write over `idle` |
| SessionSafety.InvStep | src/omarchy_cast/session.py:553-598 | every action keeps memory at most one legal write ahead of the disk |
| SessionSafety.SessionConstant | src/omarchy_cast/session.py:559-588 | from `checking` to the next `idle` the session id and start time on disk are constant along every run |
| SessionSafety.RecoveryReachesIdle | src/omarchy_cast/session.py:386-412 | with the lock free, a recovery whose calls succeed takes every reachable active state to `idle` and leaves no stop marker |
| SessionSimulated.SimulatedSession | src/omarchy_cast/session.py:430-466 | a simulated session in which nothing fails persists checking, discovering, preparing, connecting, streaming, stopping and idle in order and releases the lock without a stop marker |
| SessionSimulated.SimulationRaises | src/omarchy_cast/session.py:458-466 | one that raises in any phase is left in `error`, in the same session and without a stop marker |
| SessionStop.StopIsolation | src/omarchy_cast/session.py:302-383 | a supervisor sees a stop request only if some requester read a state of that very session |
| SessionStop.StopArrives | src/omarchy_cast/session.py:302-349 | a requester that is not interrupted stops the session that runs, and no other, from every reachable active state |
| SessionStop.StopDurability | src/omarchy_cast/session.py:302-349 | an installed request survives every run without an unlink if and only if no requester that read another session is still before its replace |
| SessionStop.OnlyTheEndsClear | src/omarchy_cast/session.py:559-598 | between its first and its last unlink of a supervisor only an install changes the marker |
| SessionStop.ErrorOverIdleIsReachable | src/omarchy_cast/session.py:421-466 | the exception above is reachable: a write of `idle` that lands but reports failure is followed by a persisted `error` |
| SessionRelease.ActivePhaseLeftExactly | src/omarchy_cast/session.py:553-598 | a transport session that no crash ends releases the lock with an active phase on disk if and only if one of a listed set of calls failed in it |
| SessionRelease.LineStrands | src/omarchy_cast/session.py:559-598 | line by line: which failing calls leave the supervisor unable to persist anything but what is on disk |
| SessionStop.ActivePhaseLeftBehind | src/omarchy_cast/session.py:559-562 | with no crash at all an active phase can stay on disk with the lock released |
| SessionSupervisor.Session.Run | src/omarchy_cast/session.py:553-598 | the imperative run is a run of the interleaved machine: it persists a chain of legal writes whatever fails, `idle` again only after the adapter returned a good result, and leaves an active phase with the lock released exactly when a listed call failed; with no failing call it persists exactly checking, discovering, preparing, the accepted stages and then `error`, or stopping and idle, and leaves no stop marker |
| SessionSupervisor.OrdinaryPhases | src/omarchy_cast/session.py:569-598 | those phases for the stages of an ordinary session: both stages or the first or none, then stopping and idle after a good result, error after a bad one or the adapter's own error |
| SessionSupervisor.Session.Move | src/omarchy_cast/session.py:564-568 | memory advances before the write and stays at most one legal write ahead; success means both agree on the new phase, which is the only state written; with no failing call it fails only where the transition is refused; and it takes the machine's three steps |
| SessionSupervisor.Session.WriteState | src/omarchy_cast/state.py:315-345 | the file is replaced by the whole state or not at all, and a failure may be reported after it was replaced |
| SessionSupervisor.Session.Settle | src/omarchy_cast/session.py:578-588 | after a result: `idle` for a good one, `error` for a bad one, or a failure on the way |
| SessionSupervisor.Session.HandleError | src/omarchy_cast/session.py:589-596 | when its calls succeed every phase but `idle` and `error` is left in `error`, in the same session; `idle` and `error` are written over by nothing |
| SessionSupervisor.Session.RecoverStaleSession | src/omarchy_cast/session.py:386-412 | a run of the machine and a legal chain whatever fails; with no failing call it persists exactly recovering after an error, stopping after an active phase, then idle, and leaves no stop marker; an idle session is left alone |
| Liveness.P2PGroupLiveness.Observe | src/omarchy_cast/transport.py:45-60 | the answer is the loss predicate of the whole history of looks |
| Liveness.LostExactly | src/omarchy_cast/transport.py:45-60 | a loss is exactly a presence before a maximal run of absences, up to the last look, that is at least three seconds long |
| Liveness.RunStartIsMaximal | src/omarchy_cast/transport.py:45-60 | the start the detector goes by is that of the maximal run of absences |
| Liveness.LossPersists | src/omarchy_cast/transport.py:58-60 | with a clock that does not run back a reported loss stays until a look does not miss the group |
| Liveness.UnknownRestartsTheGrace | src/omarchy_cast/transport.py:50-54 | after an unknown look the whole grace period counts again from the next absence |
| PipeDrain.BoundedPipeDrain.Feed | src/omarchy_cast/transport.py:115-130 | for every chunk: the buffer is the last `limit` bytes of the stream, the pending bytes hold no newline and fit the limit, the new lines and rest are those of the trimmed pending bytes, the last eight lines wait, and overflow is reported exactly when the stream outgrew the limit or a ninth line came |
| PipeDrain.BoundedPipeDrain.QueueLines | src/omarchy_cast/transport.py:124-129 | every complete line of the pending bytes is queued in order, the last eight wait, and the rest stays pending |
| PipeDrain.BoundedPipeDrain.Enqueue | src/omarchy_cast/transport.py:127-129 | exactly a full queue drops its oldest line and reports the overflow |
| PipeDrain.BoundedPipeDrain.NextLine | src/omarchy_cast/transport.py:148-156 | hands out the oldest waiting line and nothing else changes |
| PipeDrain.BoundedPipeDrain.NoOverflowLosesNothing | src/omarchy_cast/transport.py:73-160 | while no overflow is reported, delivered lines, waiting lines and pending bytes rejoin to the exact stream |
| PipeDrain.BoundedPipeDrain.EveryNewlineIsALine | src/omarchy_cast/transport.py:115-130 | with chunks no longer than the limit, lines that left the queue plus lines waiting equal the newlines read |
| PipeDrain.FeedRefines | src/omarchy_cast/transport.py:115-130 | the bounded splitting refines the unbounded one: exact while the stream fits, and with small chunks each line is the end of the true line |
| PipeDrain.SplitOfAppend | src/omarchy_cast/transport.py:120-129 | splitting a stream chunk by chunk gives the lines of the whole stream, for every chunking |
| PipeDrain.SplitRejoins | src/omarchy_cast/transport.py:124-129 | lines and rest rejoin to the stream they were split from |
| PipeDrain.LongChunkLosesALine | src/omarchy_cast/transport.py:120-129 | a chunk one byte longer than the limit can lose a line, whatever the limit |
| ByteTail.LastOfAppend | src/omarchy_cast/telemetry.py:305-313 | trimming to the tail early loses nothing a later trim would keep |
| OutputTail.BoundedOutputCollector.Append | src/omarchy_cast/telemetry.py:305-313 | after any appends the collector holds the last `limit` bytes of their concatenation, byte for byte |
| OutputTail.OutputFile.ReplaceOutput | src/omarchy_cast/telemetry.py:188-209 | with arbitrary short and failing writes: on success the file is the bounded suffix of the payload, on failure the old content or a proper beginning of the new; and it succeeds when no call fails |
| OutputTail.BoundedOutputCollector.Snapshot | src/omarchy_cast/telemetry.py:289-295 | the same for a snapshot of everything appended so far |
| ProcessTree.Descendants | src/omarchy_cast/telemetry.py:647-674 | for every child relation: at most 64 distinct processes, the engine first, all reached from it; in a tree the walk stops full or finds exactly the reachable processes, so it is exact when there are at most 64 |
| ProcessTree.ReadChildren | src/omarchy_cast/telemetry.py:658-667 | the children taken are the first 256 numbers of the first 256 tasks |
| ProcessTree.ListedExactly | src/omarchy_cast/telemetry.py:658-667 | a number is listed only when some word of those tasks is that number, and always while they hold no more than 256 numbers |
| ProcessTree.NumberStands | src/omarchy_cast/telemetry.py:661-667 | a number stands after the numbers of the words before it |
| ProcessTree.TaskStands | src/omarchy_cast/telemetry.py:658-667 | the numbers of a task stand together, after those of the tasks before it |
| ProcessTree.VisitKeepsAccount | src/omarchy_cast/telemetry.py:651-673 | in a tree a visit notes no process twice |
| ProcessTree.EmptyPendingIsExact | src/omarchy_cast/telemetry.py:651-674 | a walk that stops with nothing pending and no child skipped has found exactly the reachable processes |
| Lease.AcceptedIsOneWholeRenewal | src/omarchy_cast/transport.py:253-275 | however renewals were interrupted, once one truncated the file a reader accepts it exactly when it holds one whole renewal, newline included, that is neither ahead of the clock nor older than the lease |
| Lease.SessionLease.Renew | src/omarchy_cast/transport.py:253-275 | the imperative renewal with short and failing writes is a run of the writer's steps; it succeeds when no call fails, with the whole encoding, and otherwise leaves a beginning of it or the old content |
| Lease.SessionLease.WriteWhole | src/omarchy_cast/transport.py:267-275 | the write loop likewise, from the truncation on |
| Lease.RunKeepsInv | src/omarchy_cast/transport.py:253-275 | after every run of truncations, partial writes and failures the file is a beginning of the last truncating renewal |
| Lease.LookDuringRenewalExpires | packaging/arch/omarchy-cast-guard:338-343 | a look between the truncation and the last byte of a renewal is refused, whatever was renewed before |
| Lease.LookDuringRenewalHappens | packaging/arch/omarchy-cast-guard-recover:98-103 | such a look is possible right after a fresh renewal was accepted |
| LeaseTiming.OnTimeNeverExpires | packaging/arch/omarchy-cast-guard:399-403 | with whole renewals at most the lease apart neither wait loop ever leaves for want of one |
| LeaseTiming.ExpiresSoonAfterTheLast | packaging/arch/omarchy-cast-guard-recover:202-209 | after the last renewal a wait ends within the lease, one clock second and one wake period |
| LeaseTiming.StaleExactly | packaging/arch/omarchy-cast-guard-recover:102 | a look is stale exactly from the clock second after the lease of the last renewal on |
| LeaseTiming.GuardWait | packaging/arch/omarchy-cast-guard:399-403 | the guard's loop leaves at the first stale look and looks at least at the first wake of every clock second |
| LeaseTiming.RecoveryWait | packaging/arch/omarchy-cast-guard-recover:202-209 | the recovery loop looks at every wake and leaves at the first stale one |
| TransportLoop.MediaStartedText | src/omarchy_cast/transport.py:552-567 | true exactly when the last completed record has a frame count, its last one, that is positive and in range |
| TransportLoop.RunLoop | src/omarchy_cast/transport.py:704-757 | for every sequence of looks the loop ends at the first look that ends it, with the result that look gives, and the stages reported are `connecting` and, exactly when earned, `streaming` |
| TransportLoop.Iterate | src/omarchy_cast/transport.py:708-740 | one iteration: what it establishes, the liveness detector's answer and how it ends the loop, in the order of the checks |
| TransportLoop.StreamingExactly | src/omarchy_cast/transport.py:711-717 | streaming is established exactly when a positive completed frame was seen at or after a look that saw this engine's RTSP socket |
| TransportLoop.RtspExactly | src/omarchy_cast/transport.py:711-712 | the capture clock starts at the first look that saw the RTSP socket |
| TransportLoop.ReportIsEarned | src/omarchy_cast/transport.py:714-717 | `streaming` is reported exactly when both were seen by the last look that got as far as looking |
| TransportLoop.VerdictExactly | src/omarchy_cast/transport.py:704-757 | how a look ends the loop, by what was observed: exit code zero or a loss after streaming completes, a non-zero one or a loss before is a failure, 75 seconds without RTSP or 30 seconds without a frame fail, a cancelled look cancels, and the deadline ends a stream as a timeout |
| TransportLoop.EndsOnce | src/omarchy_cast/transport.py:704-757 | for every sequence of looks there is at most one look that ends the loop, in one way |
| TransportLoop.NeverStreamingGoesOnBriefly | src/omarchy_cast/transport.py:727-740 | a run that never streams is still in the loop only before the connect bound, the capture bound and one poll interval have passed |
| TransportLoop.NeverStreamingLeavesInTime | src/omarchy_cast/transport.py:727-740 | so it leaves within both bounds and two poll intervals |
| TransportRun.WaitCleanupStatus | src/omarchy_cast/transport.py:473-488 | true exactly when the first status that is not still waiting is `cleaned` and could be acknowledged |
| TransportRun.Attempt | src/omarchy_cast/transport.py:667-757 | once the loop is reached the outcome is exactly how the looks end it, and it is still running exactly when none does |
| TransportRun.Run | src/omarchy_cast/transport.py:758-817 | once the guard was ready a result is returned only after a terminal `cleaned` was read and acknowledged, and it is the way the looks ended the loop; with that confirmation and no failing call that way is returned |
| TransportRun.CleanedLasts | src/omarchy_cast/transport.py:473-488 | from a state of the guard protocol in which `cleaned` could be read on, the host is restored at every later moment, under the premises |
| TransportRun.ProductionSession | src/omarchy_cast/session.py:577-598 | a production session whose guard became ready and that persisted `idle` again implies a host restored from the confirmed `cleaned` on, under the premises, and an ending that was no failure; with no failing session call it ends in `idle` after such an ending and in `error` after a failure or the run's own error, having persisted exactly the phases of an ordinary session |
| WfdInfo.DeviceInfo | src/omarchy_cast/receivers.py:71-86 | the walk over the bytes gives what the recursive specification gives; bytes that begin 0, 0, 6 give the three words, each 256 times its first byte plus its second |
| WfdInfo.FoundByPlace | src/omarchy_cast/receivers.py:78-85 | after any other subelements the nine bytes of the device information give its three words by the place value of their bytes |
| WfdInfo.SkippedByPlace | src/omarchy_cast/receivers.py:72-86 | another subelement takes three bytes and 256 times the first plus the second of its length bytes |
| WfdInfo.TooLongByPlace | src/omarchy_cast/receivers.py:76-77 | a subelement that says it is longer than what is left ends the walk with nothing |
| WfdInfo.EncodedByPlace | src/omarchy_cast/receivers.py:73-75 | what the encoder of the other statements writes: the id, the high and the low byte of the length, the body |
| WfdInfo.LookupExactly | src/omarchy_cast/receivers.py:71-86 | device information is found exactly where it was encoded: after subelements with other ids only, with length six, and whatever follows |
| WfdInfo.FirstZeroDecides | src/omarchy_cast/receivers.py:78-85 | after any other subelements the first id-0 subelement decides: its three big-endian words when its length is six, nothing otherwise |
| WfdInfo.OthersAreSkipped | src/omarchy_cast/receivers.py:72-86 | subelements with other ids change nothing, also when what follows is truncated or absent |
| JsonBudget.ValidateJsonBudget | src/omarchy_cast/bounds.py:134-175 | the early-exit traversal accepts exactly the values whose node count, depths, collection sizes, keys, strings and leaves are within the limits |
| JsonBudget.Validator.Visit | src/omarchy_cast/bounds.py:145-173 | with any budget left: accepts exactly when the item's nodes fit the budget and everything in it the limits, and then spends exactly its nodes |
| JsonBudget.WithinExactly | src/omarchy_cast/bounds.py:145-173 | what the traversal checks is that every value at every path fits |
| JsonBudget.PathsExactly | src/omarchy_cast/bounds.py:145-173 | the node count is the number of places in the value: its paths, each once |
| JsonBudget.AcceptanceIsMonotone | src/omarchy_cast/bounds.py:134-141 | raising any limit accepts no less |
| Pairing.Checksum | src/omarchy_cast/pairing.py:22-30 | the digit returned completes the alternating 3/1 sum, from the least significant digit, to a multiple of ten, for every number |
| Pairing.ValidatePairingPin | src/omarchy_cast/pairing.py:33-42 | accepts exactly eight digits for which three times the first, third, fifth and seventh plus the others is a multiple of ten |
| Pairing.SumOfNumber | src/omarchy_cast/pairing.py:24-29 | the sum of a number is that of its digits, leading zeros included |
| Pairing.OneCheckDigit | src/omarchy_cast/pairing.py:30 | exactly one check digit completes any leading digits |
| Pairing.SingleErrorIsRejected | src/omarchy_cast/pairing.py:40-41 | changing any one digit of a good PIN is noticed |
| Pairing.SwapIsMissedExactly | src/omarchy_cast/pairing.py:40-41 | swapping two unequal neighbours of a good PIN, the check digit included, is missed exactly when they differ by five |
| Rtsp.ParseRtspFixture | src/omarchy_cast/wfd_fixture.py:45-82 | the parser's loop gives what the recursive specification gives, errors included |
| Utf8.DecodesBack | src/omarchy_cast/wfd_fixture.py:46-80 | the bytes that are counted are UTF-8: a decoder that knows nothing of the encoder gives the characters back |
| Utf8.AsciiIsItself | src/omarchy_cast/wfd_fixture.py:46-80 | ASCII text has one byte a character, the character itself |
| Utf8.EncodeJoins | src/omarchy_cast/wfd_fixture.py:46-80 | the bytes of a text are those of its pieces in order |
| WfdMessages.DeclaredLengthDecides | src/omarchy_cast/wfd_fixture.py:72-82 | a well-formed message with `CSeq` and `Content-Length` is accepted, as it was written, exactly when the declared length is the number of bytes of its body |
| WfdMessages.AsciiLengthDecides | src/omarchy_cast/wfd_fixture.py:72-82 | an ASCII message is accepted exactly when it fits the limit and declares the number of characters of its body |
| WfdMessages.PrintedText | src/omarchy_cast/wfd_fixture.py:164-171 | the text such a message is: start line, the two header lines in decimal, the blank line and the body |
| RtspText.FindExactly | src/omarchy_cast/wfd_fixture.py:48-50 | a part is found exactly when it occurs somewhere |
| Rtsp.PrintParses | src/omarchy_cast/wfd_fixture.py:45-82 | printing and parsing give every well-formed message back, whatever blank lines its body contains |
| Rtsp.AcceptedIsWellFormed | src/omarchy_cast/wfd_fixture.py:45-82 | whatever is accepted is well formed, and printing it gives it back unless the printed form no longer fits the limits |
| Rtsp.NoBlankInside | src/omarchy_cast/wfd_fixture.py:48-50 | the blank line that ends a printed head is the first one |
| Rtsp.LfBlankLine | src/omarchy_cast/wfd_fixture.py:48-50 | a head ended by an LF blank line is divided there exactly when the message has no CRLF blank line anywhere |
| Rtsp.LfIsRead | src/omarchy_cast/wfd_fixture.py:48-51 | a message with LF line ends is read like the same one with CRLF, unless a CRLF blank line occurs in it |
| Rtsp.PaddedField | src/omarchy_cast/wfd_fixture.py:60-69 | white space around a header name and around its value does not count |
| Rtsp.MergeExactly | src/omarchy_cast/wfd_fixture.py:57-69 | the headers of a message are its fields by lower-case name, and nothing else |
| WfdHandshake.RunWfdFixture | src/omarchy_cast/wfd_fixture.py:94-157 | the handshake stops at the first message that fails the guard of its place or after the sixth, and its status, trace and flags follow from that place |
| WfdHandshake.CompletedExactly | src/omarchy_cast/wfd_fixture.py:102-147 | completed exactly when the first six messages pass the M1, M3, M4, M5, SETUP and PLAY guards in order; timed out exactly when there are fewer and all pass |
| WfdMessages.AcknowledgedExactly | src/omarchy_cast/wfd_fixture.py:104-141 | M1, M4 and M5 are passed by a 200 answer exactly when its sequence number is 1, 3 and 4 |
| WfdMessages.AnsweredExactly | src/omarchy_cast/wfd_fixture.py:109-127 | M3 is passed by a 200 answer exactly when its sequence number is 2, the last video-format line is neither empty nor `none` and the last port line offers unicast RTP over UDP |
| WfdMessages.AskedExactly | src/omarchy_cast/wfd_fixture.py:142-153 | the fifth and sixth message pass exactly when their methods are SETUP and PLAY |
| WfdMessages.ParameterExactly | src/omarchy_cast/wfd_fixture.py:85-91 | a parameter written on lines of its own is read back, the last one by that name in any case, and is empty without one |
| WfdMessages.AudioIsJudged | src/omarchy_cast/wfd_fixture.py:118-125 | audio is advertised exactly when a codec other than `none` is offered |
| WfdMessages.HandshakeOfSink | src/omarchy_cast/wfd_fixture.py:94-157 | the six messages of a sink, with any offer, any two requests and anything after them, complete the handshake when the offer is usable and are refused at the offer otherwise |
| Handshake.StatusExactly | src/omarchy_cast/wfd_fixture.py:94-157 | the three statuses by the guards of the places, whatever the guards are |
| Handshake.SettledOutcome | src/omarchy_cast/wfd_fixture.py:102-157 | appending messages changes nothing of a completed or incompatible result |
| Handshake.Drive | src/omarchy_cast/wfd_fixture.py:94-157 | the same for whatever the messages have to satisfy |
| Handshake.TraceShape | src/omarchy_cast/wfd_fixture.py:97-156 | the trace is the phases reached in order, an error only when one was refused, and the cleanup last |

## Left out

- GuardProtocol.Step: does not model the ufw rule, the removal of an empty network root, or file ownership and mode checks other than the record's; a marker is there or not.
- GuardProtocol.Step: the broker is an actor that sets WFD elements and activations only behind its markers and makes clients only after it saw `p2p-armed`; its own source is not part of this model.
- GuardEvidence.NetworkdStep: claims the attempt to restore networkd, not the states of single units, because the script ignores their failures.
- GuardWorker.CleanerProcess.RecoverSession: the removal loop sees the record as it was when opened; a line that another cleaner appends meanwhile is not read, and foreign WFD elements are not told from the session's.
- GuardWorker.CleanerProcess.RecoverSession: the byte size of `p2p-interfaces` is modelled as its number of lines, 64 of at most 16 bytes being 1,024.
- The lines of `prepare` are steps of the interleaved machine only, because what matters of them is where they can be cut off.
- SessionSupervisor.Session.Run: the content of the event log, field validation of requests and the simulated and dry-run bodies, which the interleaved machine has.
- TransportRun.Run: process creation, descriptors and telemetry lifetimes are outcomes of the setup and of the `finally`; `_read_ready` is its three outcomes; a run cut off in its loop counts as one that raises something unhandled.
- TransportLoop.RunLoop: the detail texts of results, and the code that `_failure_code` reads from the engine's log.
- PipeDrain.BoundedPipeDrain.NextLine: waiting with a timeout, and decoding bytes to text.
- Lease.AcceptedIsOneWholeRenewal: descriptor hardening and renewals with a negative clock.
- ProcessTree.Descendants: the child relation is what the bounded reads of the `children` files show; a number cut at the read limit is a number of that relation.
- WfdInfo.DeviceInfo: finding the bytes in the peer's details, and the textual `wfd_dev_info` form.
- WfdHandshake.RunWfdFixture: the detail text; lower-casing is ASCII, which decides the comparisons made.
- Rtsp.ParseRtspFixture: strings with lone surrogates, which cannot be encoded and raise another error.
- Threads appear as atomic steps under their locks.
- Descriptor hardening, log pruning, archive limits, telemetry rates, the command line, discovery, media probing, engine plans, the panel, packaging and release scripts: plumbing or easy members.
