# Remote control and video sessions: a Dafny model

This project models how an operator is given control of a vehicle and how the vehicle decides whom to
obey, and proves what the design promises about it.

- **Lease** (`ControlLease`, `ControlSystem`, `Linearizability`, `Renewal`, `RenewalRuns`): a timed
  single-holder lock per vehicle, kept in two Redis keys and changed by three Lua scripts. `ControlSystem` is
  a transition system: Redis, one clock, any number of gateway clients between their round trips with the
  stale reads they hold, and the history of sessions. Its clients are proved to linearize as one atomic
  timed lock, and the browser's renewal schedule to keep it.
- **Redis and the gateway's stores** (`Keyspace`, `RedisServer`, `LeaseStore`, `ClientRuns`, `VideoStore`): the
  flat keyspace and the Go methods as classes, with interference allowed in every gap, proved against
  the same client steps.
- **Vehicle** (`ControlText`, `ControlProtocol`, `VehicleVerifier`, `VehicleNode`, `VehicleRuntime`, `Telemetry`,
  `AuditLog`, `RuntimeRuns`) and browser (`SecureSender`): signed text, packet verification, the refresher, the
  watchdog, telemetry and audit queue, both as objects and as a transition system against an arbitrary
  gateway and network; `RuntimeRuns` ties the two over whole runs, `ReplaySafety` and `FailSafe` are its theorems.
- **Composition** (`EndToEnd`, `PromptRenewal`, `BrowserSchedule`, `SessionLosses`, `EdgeRuns`): one vehicle, with
  a clock that may be behind or ahead, and all gateways together: authority, handover, how long stale control
  can last, replay protection with timely renewals, what the loss count means; `EdgeRuns` shows that their
  conditions cannot be dropped.
- **Video** (`VideoRecords`, `VideoTimer`, `VideoRaces`, `ViewerCount`, `VideoIdentity`, `ControlVideo`,
  `VideoAfterControl`, `ControlEnds`): the video record with its lazily applied grace period, lost updates, viewer
  counts, ids and whom a release reaches, Control ACTIVE => Video ACTIVE, and what happens to the video when
  control ends.

Actions of the transition systems that are not enabled leave the state as it is, so a run is any sequence
of actions and every theorem about runs is about every interleaving.

## Assumptions

- Clocks never run backwards and count whole milliseconds. Gateways and Redis share one; the vehicle's differs
  from it by a constant, `behind`, of either sign. Calls to clocks read them.
- `VehicleNode.Start` is the instant the vehicle's periodic tasks begin. Before it run_agent refreshes once
  (apps/vehicle-edge/src/vehicle_edge/vehicle_node.py:146-158); what that loads the first periodic refresh,
  which follows without a pause, clears again. The code counts silence from the verifier's construction,
  a little earlier, so at the very start it may brake sooner than the model.
- The lease time is a positive number of milliseconds and the same for every gateway.
- Session ids from `uuid.NewString` are fresh and not empty. The function `keyOf` names the public key a
  session will be created with; the gateway proves to keep it.
- A Redis script is one step at one instant; a key can be read while now <= deadline.
- asyncio code between two awaits is one step. A refresh ends within its timeout, and the refresher wakes
  at most `slack` late.
- Ed25519 (RFC 8032, section 5.1) is ideal: a signature verifies iff the key's owner made it for that text.
- Packets have the types of api/schemas/datachannel-control.schema.json:9-33; numbers of a command are
  canonical numerals, read by `Float`.
- `int(n * 0.99)` is the floor of 99n/100.

## Where the code and its description differ

- A release whose vehicle was taken over between its reads and its script is told "not owner", although
  the session no longer exists (`Linearizability.StolenReleaseBlamesTheCaller`); apart from that case every
  answer is the atomic lock's (`Linearizability.ScriptIsAtomic`).
- Replay protection does not survive an expiry clear followed by a prompt reload of the renewed session
  (`EdgeRuns.PromptReloadReplays`). `ReplaySafety.SafeToLoadIffNoReplay` gives the exact condition on a
  load; it holds in every run whose renewals come at least one refresh gap before the record runs out
  (`PromptRenewal.TimelyRenewalNeedsNoGap`), as they do on the browser's schedule when half a lease leaves
  room for it (`BrowserSchedule.ScheduledRenewalNeedsNoGap`).
- "ControlSession ACTIVE => VideoSession ACTIVE" in the design's section 33 on video activation: the code has
  a window before SetController (`ControlVideo.VideoLagsUntilSetController`). From SetController on the
  implication holds until the video record lapses, a day after its last save
  (`ControlVideo.ControlActiveMeansVideoActive`), which the lease may outlive
  (`VideoAfterControl.ControlOutlivesVideo`). After that, until the next SetController, the record has
  forgotten the control: the video is ACTIVE exactly while a viewer or a grace period holds it
  (`VideoAfterControl.LapsedRecordForgetsControl`), and can be STANDBY with lease and record both live
  (`VideoAfterControl.ViewersDoNotRestoreControl`).
- The design's section 35 leaves STANDBY on a request only. A ClearController that lands on STANDBY switches
  the video to ACTIVE for a grace period (`VideoTimer.LateClearRevivesVideo`), and so would a leave;
  `VideoTimer.WhatLeavesStandby` says exactly which operations do. With atomic operations a viewer's release
  never lands there: if it finds its index the video is ACTIVE (`ViewerCount.ViewersAreConserved`).
- The design's sections 34 and 35 return the video to STANDBY a grace period after the last viewer and
  controller are gone. Control that ends by its lease running out is never cleared from the record, and
  the video stays ACTIVE until the record lapses (`VideoAfterControl.AbandonedControlHoldsVideo`); the
  rollback of an acquire whose token fails does the same (`VideoAfterControl.RollbackLeavesTheController`,
  `VideoAfterControl.UnclearedControlHoldsVideo`).
- All viewers of a vehicle share one session id and one index. Once one of them has left, the release of any
  other is answered "not found" and takes nobody off the count, until somebody joins again
  (`VideoIdentity.ReleaseFindsTheVehicleJoined`, `ViewerCount.ViewersAreConserved`).
- The `expires_at_ms` of a video record is meant to be filled a day ahead when it is saved. A read that finds
  nothing fills it with its own instant, so no save does, and it is never in the future
  (`VideoIdentity.StatedExpiryIsNeverAhead`).
- docs/command-security.md:34 says the watchdog clears the trusted control state. The code only brakes
  (`FailSafe.ChecksKeepTrustedState`, `EdgeRuns.EmergencyKeepsTheSession`); the cached session goes exactly
  when a refresh begins or a packet addressed to it arrives after its expiry (`FailSafe.SessionDropsIff`).
- The vehicle's loss count is not reset when another session takes over, so a handover to higher numbers
  counts as loss (`SessionLosses.HandoverJumpIsCounted`); `SessionLosses.ReportsAreJumps` says exactly when the
  count is right.
- A vehicle whose clock is behind obeys a session past the end of its lease, by that much and no more
  (`EdgeRuns.SlowClockOutlivesTheLease`, `EndToEnd.EndToEndAuthority`).

## Model

| member | source | states |
|---|---|---|
| `Keyspace.KeysNeverCollide` | apps/teleop-gateway/internal/gateway/control_lease.go:48-50 | keys of the four families are injective in the id and pairwise disjoint, for all ids, including ids with ':' or another family's prefix |
| `Keyspace.RepresentsOneStore` | apps/teleop-gateway/internal/gateway/control_session.go:201-203 | the flat keyspace determines the four maps: it represents one store only |
| `Keyspace.SetRefines` | apps/teleop-gateway/internal/gateway/video_session.go:43-44 | SET on the flat keyspace updates one entry of one map and frames the other three |
| `Keyspace.DelRefines` | apps/teleop-gateway/internal/gateway/video_session.go:105 | DEL on the flat keyspace removes one entry of one map and frames the other three |
| `RedisServer.Redis.Acquire` | apps/teleop-gateway/internal/gateway/control_session.go:38-45 | the acquire script on flat keys does what the four-map script does, result included; what that is, `LeaseStore.AcquireSetsTwoKeys` says |
| `RedisServer.Redis.Renew` | apps/teleop-gateway/internal/gateway/control_session.go:47-63 | the renew script on flat keys, with its re-checks of index, session, operator and status |
| `RedisServer.Redis.Release` | apps/teleop-gateway/internal/gateway/control_session.go:65-76 | the release script on flat keys: both keys go, or nothing changes |
| `LeaseStore.ControlLeaseStore.constructor` | apps/teleop-gateway/internal/gateway/control_lease.go:18-31 | a lease time that is not positive is replaced by 30 s |
| `LeaseStore.ControlLeaseStore.AcquireControlSession` | apps/teleop-gateway/internal/gateway/control_session.go:78-99 | one script call; the answer and the new store are those of the acquiring client; granted it touches one lease and one index, refused nothing |
| `LeaseStore.AcquireSetsTwoKeys` | apps/teleop-gateway/internal/gateway/control_session.go:38-45 | an acquire is granted if and only if the vehicle has no live lease; it then sets exactly the two keys of its session for a full lease time and leaves every other lease and index, video record and viewer index alone; refused, it changes nothing |
| `LeaseStore.ControlLeaseStore.GetControlSession` | apps/teleop-gateway/internal/gateway/control_session.go:101-115 | reads the live lease of the vehicle, or none |
| `LeaseStore.ControlLeaseStore.GetSessionByID` | apps/teleop-gateway/internal/gateway/control_session.go:179-199 | index, then lease, with others moving in between; only a lease that still names the session counts |
| `LeaseStore.ControlLeaseStore.RenewControlSession` | apps/teleop-gateway/internal/gateway/control_session.go:117-149 | read, read, clock, script, with arbitrary interference in every gap: exactly the run of the renewing client; on success it returns the record it read with the expiry its script stored, otherwise none |
| `LeaseStore.ControlLeaseStore.ReleaseControlSession` | apps/teleop-gateway/internal/gateway/control_session.go:151-177 | read, read, script, with arbitrary interference in every gap: exactly the run of the releasing client |
| `LeaseStore.SuccessNeedsTheExactSession` | apps/teleop-gateway/internal/gateway/control_session.go:117-177 | a request succeeds if and only if it reaches its script and the very store the script meets holds a live lease of exactly its session and operator (ACTIVE and indexed, to renew); it then changes that lease and its index only, as granted; otherwise its last step changes nothing |
| `ClientRuns.DriveIsARun` | apps/teleop-gateway/internal/gateway/control_session.go:117-199 | what a store method does, given what happened in its gaps, is what its client does in a run of the whole system of clients |
| `ClientRuns.AnswerIsTheLastAction` | apps/teleop-gateway/internal/gateway/control_session.go:117-199 | the store a method's deciding step is proved to meet is the state of the whole system just before the last action of that run |
| `ControlSystem.RunKeepsInv` | apps/teleop-gateway/internal/gateway/control_session.go:38-76 | every interleaving of clients and expiry keeps the store invariant: records immutable but for expiry, expiry written never past the Redis deadline, lease and index paired, leases handed out in order |
| `Linearizability.LiveKeysAreInBijection` | apps/teleop-gateway/internal/gateway/control_session.go:38-76 | in every reachable state live leases and live indexes are in bijection with equal deadlines, records name their vehicle and are ACTIVE, no session holds two vehicles |
| `Linearizability.AcquireIsAtomic` | apps/teleop-gateway/internal/gateway/control_session.go:38-45 | an acquire is one atomic acquire of the timed lock |
| `Linearizability.EarlyAnswerIsAtomic` | apps/teleop-gateway/internal/gateway/control_session.go:117-124 | a request that ends at a read answers as the atomic lock does at that instant |
| `Linearizability.ScriptIsAtomic` | apps/teleop-gateway/internal/gateway/control_session.go:126-176 | a request that reaches its script does to the lock what the atomic operation does; the answers differ exactly when another session took the vehicle over before a release script |
| `Linearizability.RunsLinearize` | apps/teleop-gateway/internal/gateway/control_session.go:78-199 | every run of multi-step clients on stale reads is a history of the atomic timed lock that gives each caller its answer |
| `Linearizability.RequestsTouchOnlyTheirSession` | apps/teleop-gateway/internal/gateway/control_session.go:47-76 | a renewal or release never extends or deletes another session's lease or index |
| `Linearizability.RenewalWritesTheRecord` | apps/teleop-gateway/internal/gateway/control_session.go:59-62 | a successful renewal rewrites only the expiry, and the Redis deadline never goes back |
| `Linearizability.RecordsChangeInExpiryOnly` | apps/teleop-gateway/internal/gateway/control_session.go:147-149 | a session's lease record read at two instants of a run, however far apart, differs in the expiry only, so the record a renewal returns is the one it stored |
| `Linearizability.GoneForGood` | apps/teleop-gateway/internal/gateway/control_session.go:47-63 | a session that expired or was released is never brought back, over any run |
| `Linearizability.StolenReleaseBlamesTheCaller` | apps/teleop-gateway/internal/gateway/control_session.go:65-76 | a reachable state where the release script answers 'not owner' for a session the lock does not know: the one answer that is not the lock's |
| `Renewal.RenewalKeepsTheLease` | apps/operator-console/src/lib/secure-control-sender.ts:74-91 | with start-up delay plus latency within half a lease, renewal scripts every half lease keep the lease at every instant until a lease after the last round, whatever others try |
| `Renewal.ScheduleCovers` | apps/teleop-gateway/internal/gateway/control_session_api.go:84-88 | the renewal slots leave no instant uncovered |
| `RenewalRuns.RenewingClientsKeepTheLease` | apps/operator-console/src/lib/secure-control-sender.ts:74-91 | the same for whole renewal requests in runs of the system: if each round's request starts when its timer fires and ends within the latency, no round is refused and the session is held in every state |
| `RenewalRuns.GrantBegins` | apps/teleop-gateway/internal/gateway/control_session.go:78-99 | every granted acquire is such a beginning |
| `Renewal.HeldIffGranted` | apps/teleop-gateway/internal/gateway/control_session.go:38-76 | a lease is live at an instant if and only if some granted acquire or renewal lies at most a lease time back with no granted release since; refused requests neither give nor prolong anything |
| `Renewal.DeadHolderFreesTheLease` | apps/teleop-gateway/internal/gateway/control_session.go:38-45 | an acquire succeeds if and only if no granted script still covers its instant; once the last granted acquire or renewal lies more than a lease time back the next acquire succeeds, however many tries were refused meanwhile |
| `ControlProtocol.BrowserAndVehicleSignTheSameText` | apps/operator-console/src/lib/secure-control-sender.ts:25-30 | the browser's signed text is the text the vehicle rebuilds |
| `ControlProtocol.SplitSignMessage` | apps/vehicle-edge/src/vehicle_edge/control_protocol.py:14-39 | the signed text splits back into its fields whatever the session id contains |
| `ControlProtocol.SignedTextIsInjective` | apps/vehicle-edge/src/vehicle_edge/control_protocol.py:14-39 | two well-formed packets with the same signed text are the same packet, in range or not, across all three command forms and all session ids |
| `ControlProtocol.ResolveCommand` | apps/vehicle-edge/src/vehicle_edge/control_protocol.py:42-83 | whatever numerals a valid command carries, its actuator values are in range; which values they are, the next two rows say |
| `ControlProtocol.ActuationIsSigned` | apps/vehicle-edge/src/vehicle_edge/control_protocol.py:14-83 | steering, throttle, brake and direction applied for a low-level or legacy packet are the numbers at those very places of the text its key owner signed, counted from its end, with direction 1 for the legacy form; a high-level intent stands there by its name |
| `ControlProtocol.ValidIffTextInRange` | apps/vehicle-edge/src/vehicle_edge/control_protocol.py:14-62 | of the packets in one of the three forms exactly those pass whose signed text says values in range at the places where they are read |
| `ControlProtocol.HighLevelIntents` | apps/vehicle-edge/src/vehicle_edge/control_protocol.py:68-77 | the six intents that pass, and the exact steering, throttle, brake and direction of each |
| `ControlText.NatRoundTrip` | apps/vehicle-edge/src/vehicle_edge/control_protocol.py:20-21 | printed numbers parse back |
| `ControlText.FloatOfInteger` | apps/vehicle-edge/src/vehicle_edge/control_protocol.py:78-83 | a printed integer of either sign reads as that number |
| `ControlText.DecimalReads` | apps/vehicle-edge/src/vehicle_edge/control_protocol.py:78-83 | a decimal reads as the number whose point, moved right past its fraction, gives the integer of all its digits |
| `ControlText.ExponentReads` | apps/vehicle-edge/src/vehicle_edge/control_protocol.py:78-83 | an exponent moves the point of the number before it, right for a plus and left for a minus |
| `VehicleVerifier.AcceptsExactly` | apps/vehicle-edge/src/vehicle_edge/control_session_receiver.py:76-99 | a packet is accepted iff it is eligible and newer than the counter; a rejected one changes nothing unless it exposes an expired session |
| `VehicleVerifier.AcceptedIff` | apps/vehicle-edge/src/vehicle_edge/control_session_receiver.py:76-99 | the same condition check by check: version, type, session, sender identity, expiry, both sides of the freshness window, counter, command and signature |
| `VehicleVerifier.RefreshLoadsExactly` | apps/vehicle-edge/src/vehicle_edge/control_session_receiver.py:46-74 | a refresh ends with exactly the ACTIVE session of this vehicle whose key decodes, and the counter of that same session or 0; after any other answer there is none |
| `VehicleVerifier.AcceptsRunningMaxima` | apps/vehicle-edge/src/vehicle_edge/control_session_receiver.py:92-99 | under loss, duplication and reordering within a loaded session, exactly the strict running maxima, above the counter, of the eligible packets are accepted |
| `VehicleVerifier.SessionCommandVerifier.constructor` | apps/vehicle-edge/src/vehicle_edge/control_session_receiver.py:30-39 | a verifier starts without a session |
| `VehicleVerifier.SessionCommandVerifier.ClearSession` | apps/vehicle-edge/src/vehicle_edge/control_session_receiver.py:41-44 | session, key and counter are wiped |
| `VehicleVerifier.SessionCommandVerifier.RefreshSession` | apps/vehicle-edge/src/vehicle_edge/control_session_receiver.py:46-74 | session wiped before the wait, whatever arrives meanwhile ignored, counter restored only for the same session, wiped on any failure |
| `VehicleVerifier.SessionCommandVerifier.Verify` | apps/vehicle-edge/src/vehicle_edge/control_session_receiver.py:76-99 | the branch order of verify_packet computes the specified verdict and state |
| `VehicleNode.RunKeepsLog` | apps/vehicle-edge/src/vehicle_edge/control_session_receiver.py:76-99 | every log entry of a run is a packet its session's key owner sent, accepted inside the freshness window |
| `VehicleNode.ActuationsAreAuthentic` | apps/vehicle-edge/src/vehicle_edge/control_session_receiver.py:120-133 | every actuation ever applied is that of a packet the key owner signed, with its sequence and timestamp, in range |
| `VehicleNode.AcceptedUnderOwnSession` | apps/vehicle-edge/src/vehicle_edge/control_session_receiver.py:66-99 | whatever a gateway answers, in every run each command was accepted under an ACTIVE, unexpired session of this vehicle, within the freshness window on both sides |
| `ReplaySafety.SafeRunsAcceptInOrder` | apps/vehicle-edge/src/vehicle_edge/control_session_receiver.py:46-99 | for any gateway and network, if every load is safe, accepted sequences of each session strictly increase over the whole run |
| `ReplaySafety.PauseMakesLoadsSafe` | apps/vehicle-edge/src/vehicle_edge/vehicle_node.py:35-41 | without an expiry clear since the last refresh, the pause between refreshes makes every load safe, also after failed and refused refreshes |
| `ReplaySafety.AtMostOnceInOrder` | apps/vehicle-edge/src/vehicle_edge/control_session_receiver.py:46-99 | for any gateway: no packet is accepted twice and each session's numbers rise, over runs whose reloads of unexpired records after an expiry clear leave the freshness window behind |
| `ReplaySafety.SafeToLoadIffNoReplay` | apps/vehicle-edge/src/vehicle_edge/control_session_receiver.py:71-74 | loading a session record is safe if and only if no packet accepted before would be accepted again right after it |
| `PromptRenewal.TimelyRenewalNeedsNoGap` | apps/vehicle-edge/src/vehicle_edge/control_session_receiver.py:46-99 | in every run of vehicle and gateways in which each granted renewal finds at least one refresh gap (timeout, pause, slack, and how far the vehicle's clock is ahead) left on the record, no packet is accepted twice and numbers rise, with no condition on reloads |
| `BrowserSchedule.ScheduledRenewalNeedsNoGap` | apps/operator-console/src/lib/secure-control-sender.ts:74-91 | if acquires are answered within the latency and renewals come every half lease, each asked for at its slot and answered within the latency, and half a lease leaves room for delay, two latencies and a refresh gap, then no packet is accepted twice and numbers rise, in every run |
| `EdgeRuns.PromptReloadReplays` | apps/vehicle-edge/src/vehicle_edge/control_session_receiver.py:87-89 | for every lease time of at least a second and the vehicle's own limits, a run of vehicle and gateways with a later renewal accepts one packet twice, after a local expiry and a reload |
| `FailSafe.EmergencyIffSilent` | apps/vehicle-edge/src/vehicle_edge/control_session_receiver.py:135-143 | in every run, silence past timeout plus check gap means emergency, and emergency means the last check saw more silence than the timeout |
| `FailSafe.BrakesAfterExpiry` | apps/vehicle-edge/src/vehicle_edge/control_session_receiver.py:86-98 | if nothing that outlives an instant is loaded any more, the vehicle is in emergency from that instant plus timeout plus gap, whatever else happens |
| `FailSafe.SessionDropsIff` | apps/vehicle-edge/src/vehicle_edge/control_session_receiver.py:41-99 | the cached session goes in one step if and only if a refresh begins or a packet addressed to it arrives after its expiry |
| `FailSafe.ChecksKeepTrustedState` | apps/vehicle-edge/src/vehicle_edge/control_session_receiver.py:135-143 | over any stretch of watchdog checks the session, its counter and the instant of the last command stay as they are |
| `EdgeRuns.EmergencyKeepsTheSession` | apps/vehicle-edge/src/vehicle_edge/control_session_receiver.py:135-143 | a run of vehicle and gateways in which the vehicle is in emergency and its session still cached |
| `VehicleRuntime.WatchdogIsExact` | apps/vehicle-edge/src/vehicle_edge/control_session_receiver.py:135-143 | after any passes of the watchdog loop the brake is on iff the last check saw too much silence and nothing was accepted since |
| `VehicleRuntime.EmergencyBrakeController.constructor` | apps/vehicle-edge/src/vehicle_edge/secure_receiver.py:134-135 | not in emergency at start |
| `VehicleRuntime.EmergencyBrakeController.ApplyControl` | apps/vehicle-edge/src/vehicle_edge/secure_receiver.py:137-141 | applying a command ends the emergency |
| `VehicleRuntime.EmergencyBrakeController.EmergencyBrake` | apps/vehicle-edge/src/vehicle_edge/secure_receiver.py:143-148 | braking enters the emergency and applies nothing else |
| `VehicleRuntime.SessionVehicleRuntime.constructor` | apps/vehicle-edge/src/vehicle_edge/control_session_receiver.py:103-111 | empty telemetry and audit queue at start |
| `VehicleRuntime.SessionVehicleRuntime.OnDatachannelMessage` | apps/vehicle-edge/src/vehicle_edge/control_session_receiver.py:120-133 | the object computes the runtime state that `RuntimeRuns.OnMessageMeans` describes packet by packet and `RuntimeRuns.RuntimeShowsVehicle` over runs |
| `VehicleRuntime.SessionVehicleRuntime.SafetyWatchdog` | apps/vehicle-edge/src/vehicle_edge/control_session_receiver.py:135-143 | the watchdog loop, with arrivals during its sleeps, computes the runtime state that `VehicleRuntime.WatchdogIsExact` and `RuntimeRuns.WatchShowsVehicle` are about |
| `VehicleRuntime.SessionVehicleRuntime.TelemetryTick` | apps/vehicle-edge/src/vehicle_edge/control_session_receiver.py:162-175 | the object sends the report, and resets what it counts, as `RuntimeRuns.OnTelemetryMeans` describes |
| `VehicleRuntime.SessionVehicleRuntime.QueueAuditEvent` | apps/vehicle-edge/src/vehicle_edge/control_session_receiver.py:113-118 | an event is queued unless one of its kind was in the last five seconds |
| `RuntimeRuns.OnMessageMeans` | apps/vehicle-edge/src/vehicle_edge/control_session_receiver.py:120-133 | a rejected message changes the verifier and offers command_rejected only; an accepted packet ends the emergency, hands exactly its resolved command to the actuators, adds max(0, now - timestamp) to the latencies, counts its number, and offers emergency_stop exactly for a full brake |
| `RuntimeRuns.OnTelemetryMeans` | apps/vehicle-edge/src/vehicle_edge/control_session_receiver.py:162-175 | a report's p50 and p99 are the least samples since the last one with more than half, and more than 99%, of the samples at most them, p50 <= p99, 0 without samples; losses are those pending; all are reset; nothing is sent exactly when there is nothing to tell |
| `RuntimeRuns.RuntimeShowsVehicle` | apps/vehicle-edge/src/vehicle_edge/control_session_receiver.py:103-175 | over every run of the vehicle, with reports at any instants: the actuators get exactly the actuations of the accepted packets, in order; reports cover consecutive stretches of the accepted packets with the percentiles of their ages; reported and pending losses are the jumps; and exactly the rejections, full brakes and watchdog brakes are offered for audit |
| `RuntimeRuns.WatchShowsVehicle` | apps/vehicle-edge/src/vehicle_edge/control_session_receiver.py:120-143 | the watchdog loop drives the vehicle through the same checks and deliveries, at the same instants and in the same order, so all of this, and every theorem about the vehicle, holds of the runtime the loop leaves |
| `AuditLog.QueuesIff` | apps/vehicle-edge/src/vehicle_edge/control_session_receiver.py:113-118 | an offered event goes behind what is queued, itself and nothing else, if and only if its kind was not remembered within five seconds, and is remembered if and only if it is queued |
| `AuditLog.QueuedEventsAreSpaced` | apps/vehicle-edge/src/vehicle_edge/control_session_receiver.py:113-118 | over any sequence of offered events two queued ones of a kind are at least five seconds apart |
| `AuditLog.DroppedForARecentOne` | apps/vehicle-edge/src/vehicle_edge/control_session_receiver.py:113-118 | an event is dropped only for one of its kind queued less than five seconds before, or in the clock's first five seconds |
| `Telemetry.NothingIsMiscounted` | apps/vehicle-edge/src/vehicle_edge/control_session_receiver.py:125-129 | for any accepted sequence and any reports: reported plus pending lost are the jumps between consecutive numbers, each once; for rising numbers accepted plus lost is last minus first plus one |
| `SessionLosses.ReportsAreJumps` | apps/vehicle-edge/src/vehicle_edge/control_session_receiver.py:125-129 | for whatever was accepted, over several sessions, the loss count is what the sessions miss plus the jumps at handovers, and exact if and only if no handover jumps |
| `SessionLosses.RunMissesExactly` | apps/vehicle-edge/src/vehicle_edge/control_session_receiver.py:125-129 | in every run that accepts in order, as with timely renewals, a session misses exactly its numbers between its first and last that were not accepted |
| `SessionLosses.HandoverJumpIsCounted` | apps/vehicle-edge/src/vehicle_edge/control_session_receiver.py:125-129 | a run in which nothing is missing and any number of losses is counted, at a handover to higher numbers |
| `Telemetry.SortSorts` | apps/vehicle-edge/src/vehicle_edge/control_session_receiver.py:167 | sorting gives an ascending permutation |
| `Telemetry.PercentilesAreRight` | apps/vehicle-edge/src/vehicle_edge/control_session_receiver.py:170-175 | p50 and p99 are samples in order; more than half and more than 99% of the samples are at most them, at least half are at least p50 |
| `Telemetry.PercentilesAreLeast` | apps/vehicle-edge/src/vehicle_edge/control_session_receiver.py:170-175 | they are the least numbers with those shares of the samples at most them, which says which numbers they are |
| `EndToEnd.RunKeepsWorld` | apps/vehicle-edge/src/vehicle_edge/control_session_receiver.py:46-99 | the invariant tying the cached record and an answer in flight to the Redis lease, over every interleaving |
| `EndToEnd.EndToEndAuthority` | apps/vehicle-edge/src/vehicle_edge/control_session_receiver.py:76-99 | a command is accepted only under the session holding the live lease now; or one released after the read that loaded it and at most timeout plus pause plus slack ago; or, on a vehicle whose clock is behind, one whose cached record ran out at most that long ago |
| `EndToEnd.LapsedNoLongerThanBehind` | apps/vehicle-edge/src/vehicle_edge/control_session_receiver.py:86-88 | a lease still in use after it lapsed in Redis did so no longer ago than the vehicle's clock is behind |
| `EdgeRuns.AuthorityBoundIsMet` | apps/vehicle-edge/src/vehicle_edge/control_session_receiver.py:46-99 | that bound is exact: a run in which a command is accepted at the bound itself, with the lease released |
| `EdgeRuns.SlowClockOutlivesTheLease` | apps/vehicle-edge/src/vehicle_edge/control_session_receiver.py:86-88 | and so is the bound for a clock that is behind: a run in which a command is accepted at it, under a lapsed lease, while another session holds the vehicle |
| `EndToEnd.HandoverIsOneWay` | apps/vehicle-edge/src/vehicle_edge/control_session_receiver.py:46-99 | accepted commands form one contiguous block per session over any run |
| `EndToEnd.WorldRunsAreVehicleRuns` | apps/vehicle-edge/src/vehicle_edge/vehicle_node.py:35-41 | the vehicle of the composed system makes a run of the vehicle model, so every vehicle theorem holds of it |
| `EndToEnd.RefreshesEnd` | apps/vehicle-edge/src/vehicle_edge/control_session_receiver.py:46-74 | every answer a gateway can give ends the refresh, so the vehicle model leaves none out |
| `SecureSender.SecureControlSender.constructor` | apps/operator-console/src/lib/secure-control-sender.ts:32-48 | no key, no session, no command sent |
| `SecureSender.SecureControlSender.CreateKeyPair` | apps/operator-console/src/lib/secure-control-sender.ts:50-55 | a new key has signed nothing, and the counter goes on |
| `SecureSender.SecureControlSender.AcquireSession` | apps/operator-console/src/lib/secure-control-sender.ts:57-68 | a granted acquire sets session and renewal period, a refused one changes nothing; the counter never goes back |
| `SecureSender.SecureControlSender.StartRenewal` | apps/operator-console/src/lib/secure-control-sender.ts:74-82 | a running timer is replaced by one with the period of the latest grant |
| `SecureSender.SecureControlSender.Release` | apps/operator-console/src/lib/secure-control-sender.ts:93-104 | renewal stops and the session is forgotten before the request |
| `SecureSender.SecureControlSender.SendCommand` | apps/operator-console/src/lib/secure-control-sender.ts:106-121 | refused exactly without a key, a session or a way to publish; otherwise each command, in range for the vehicle or not, extends the signed history with the next number and a timestamp not before the last |
| `VideoStore.VideoSessionStore.Get` | apps/teleop-gateway/internal/gateway/video_session.go:46-67 | read, clock and, when the deadline is overdue, save, with arbitrary interference before each, inside any request: the request goes on as its step-by-step run does |
| `VideoStore.VideoSessionStore.AcquireViewer` | apps/teleop-gateway/internal/gateway/video_session.go:69-88 | record, shared viewer index and answer after a join, with arbitrary interference before each of its steps |
| `VideoStore.VideoSessionStore.ReleaseViewer` | apps/teleop-gateway/internal/gateway/video_session.go:90-107 | index looked up and deleted, record after a leave, or not found, with arbitrary interference before each of its steps |
| `VideoStore.VideoSessionStore.SetController` | apps/teleop-gateway/internal/gateway/video_session.go:109-122 | record after a controller is set, with arbitrary interference before each of its steps |
| `VideoStore.VideoSessionStore.ClearController` | apps/teleop-gateway/internal/gateway/video_session.go:124-133 | record after a controller is cleared, if it was the one named, with arbitrary interference before each of its steps |
| `VideoStore.VideoSessionStore.SaveAfterViewerChange` | apps/teleop-gateway/internal/gateway/video_session.go:135-141 | the grace deadline is set by the clock when nobody is left, and saved in a later round trip |
| `VideoStore.VideoSessionStore.Save` | apps/teleop-gateway/internal/gateway/video_session.go:143-155 | the record is kept for 24 h |
| `VideoTimer.LazyRefinesEager` | apps/teleop-gateway/internal/gateway/video_session.go:46-141 | for every sequence of timed operations, what GET shows at every instant is what an eager machine shows, whose clock moves in milliseconds and fires each timer as it comes due |
| `VideoTimer.ExtraGetsAreInvisible` | apps/teleop-gateway/internal/gateway/video_session.go:59-65 | removing the GETs from a history, although they may write, changes nothing shown later |
| `VideoTimer.JoinCancelsGrace` | apps/teleop-gateway/internal/gateway/video_session.go:78-81 | a viewer joining during the grace period keeps the video ACTIVE past the old deadline |
| `VideoTimer.GraceEndsAtItsDeadline` | apps/teleop-gateway/internal/gateway/video_session.go:135-141 | after any history, once the last viewer or controller left the video is in STANDBY exactly from the end of the grace period (or of the day its record is kept) on |
| `VideoTimer.WhatLeavesStandby` | apps/teleop-gateway/internal/gateway/video_session.go:124-141 | after any history showing STANDBY, an operation makes the video show ACTIVE if and only if it is a request, or a leave or cleared controller with a grace period to begin |
| `VideoTimer.LateClearRevivesVideo` | apps/teleop-gateway/internal/gateway/video_session.go:124-133 | a history in which the delayed clearing of an older controller switches the video from STANDBY to ACTIVE with nobody there |
| `VideoRecords.EditKeepsShape` | apps/teleop-gateway/internal/gateway/video_session.go:69-141 | each operation takes a well-shaped record to a well-shaped one |
| `VideoRaces.ShapesSurviveLostUpdates` | apps/teleop-gateway/internal/gateway/video_session.go:46-155 | with the steps of many gateways' requests interleaved, every stored record is Standby, Held or Grace and no count is negative |
| `VideoRaces.WithoutGapsIsAtomic` | apps/teleop-gateway/internal/gateway/video_session.go:46-133 | a request with nothing in its gaps is one operation on record and index, as the timer and count theorems assume |
| `VideoRaces.ReleaseWithoutGapsIsAtomic` | apps/teleop-gateway/internal/gateway/video_session.go:90-107 | the same for a viewer's release, found or not |
| `VideoRaces.StepIsInterference` | apps/teleop-gateway/internal/gateway/video_session.go:46-155 | what a step of one request is to every other is nothing, one SET or one DEL |
| `ViewerCount.ViewersAreConserved` | apps/teleop-gateway/internal/gateway/video_session.go:69-107 | with atomic operations the count is joins minus leaves while the record lives, and a release that finds its index finds the video ACTIVE and takes exactly one viewer off |
| `VideoIdentity.IdentityIsKept` | apps/teleop-gateway/internal/gateway/video_session.go:46-88 | one operation keeps the id, creation and stated expiry of a live record; a record without an id gets the generated one, and its creation instant, from the join or controller change it meets; nothing else names a record; what is stored is kept for a day |
| `VideoIdentity.IdsAreDistinct` | apps/teleop-gateway/internal/gateway/video_session.go:74-76 | in every run in which no id is generated twice, no two vehicles' records share an id |
| `VideoIdentity.JoinTouchesOnly` | apps/teleop-gateway/internal/gateway/video_session.go:69-88 | a join counts one viewer on its vehicle and points the index of the answered id at it for the grace period and an hour; every lease, other record and other index is unchanged |
| `VideoIdentity.ReleaseTouchesOnly` | apps/teleop-gateway/internal/gateway/video_session.go:90-107 | a release that finds its index takes one viewer off its vehicle and drops that index; every lease, other record and other index is unchanged |
| `VideoIdentity.ReleaseFindsTheVehicleJoined` | apps/teleop-gateway/internal/gateway/video_session.go:69-107 | in every run the id answered to the last join on a vehicle finds that vehicle exactly until its first release, by whichever viewer, and until the grace period and an hour have passed |
| `VideoIdentity.RacesKeepVehiclesApart` | apps/teleop-gateway/internal/gateway/video_session.go:46-155 | with requests that interleave and lose updates as well: two vehicles' records never share an id, and the index of an id that was answered for a vehicle points at that vehicle wherever it is still there |
| `VideoIdentity.StatedExpiryIsNeverAhead` | apps/teleop-gateway/internal/gateway/video_session.go:49-50 | in every run the expiry a stored record states is not in the future, though the record is kept for a day after each save |
| `ControlVideo.RunKeepsOk` | apps/teleop-gateway/internal/gateway/control_session_api.go:64-72 | over whole runs of lease and video handlers: the lease invariant holds, a session is released exactly when its handlers are at Clearing or Closed, and every record is well shaped and names at most a session of its own vehicle |
| `ControlVideo.ControlActiveMeansVideoActive` | apps/teleop-gateway/internal/gateway/control_session_api.go:64-132 | while a vehicle's lease is live and its SetController done, its video reads ACTIVE exactly as long as its record lives, counted from any state in which the vehicle was not controlled or its record named its controller, whatever happened before and to other vehicles, also when delayed controller updates of older sessions land |
| `ControlVideo.SetControllerNames` | apps/teleop-gateway/internal/gateway/control_session_api.go:68-72 | every SetController that takes effect leaves such a state: the live record names its session, leases and indexes as they were |
| `ControlEnds.ClosedControlIsForgotten` | apps/teleop-gateway/internal/gateway/control_session_api.go:115-132 | in every run, once the handlers of a session's release are through, no stored record names it as controller, then or ever after |
| `ControlEnds.ReleaseLetsVideoRest` | apps/teleop-gateway/internal/gateway/control_session_api.go:115-132 | in every run, from the ClearController of the controller the record names, with nobody viewing and nobody joining or taking control afterwards, the video is in STANDBY exactly from the end of the grace period (or of the day its record is kept) on, however often it is read |
| `VideoAfterControl.ControlOutlivesVideo` | apps/teleop-gateway/internal/gateway/control_session_api.go:89-113 | for every lease time a run in which a lease renewed for a day outlives the video record: controlled, and STANDBY |
| `VideoAfterControl.LapsedRecordForgetsControl` | apps/teleop-gateway/internal/gateway/video_session.go:46-141 | once the record has lapsed, controlled or not, and until the next SetController, the video is ACTIVE exactly while a viewer or an unfinished grace period holds it |
| `VideoAfterControl.ViewersDoNotRestoreControl` | apps/teleop-gateway/internal/gateway/video_session.go:69-141 | a run in which lease and record are both live again and the video is STANDBY: a viewer came and went after the record lapsed under control |
| `VideoAfterControl.UnclearedControlHoldsVideo` | apps/teleop-gateway/internal/gateway/control_session_api.go:69-78 | while the controller a record names is neither cleared nor replaced, as after a rollback, the video stays ACTIVE with no grace period and returns to STANDBY exactly when its record lapses |
| `VideoAfterControl.AbandonedControlHoldsVideo` | apps/teleop-gateway/internal/gateway/control_session_api.go:115-137 | after control that ended without a release the video stays ACTIVE, with no grace period, until another SetController, and returns to STANDBY exactly when its record lapses |
| `VideoAfterControl.ExpiryAbandonsControl` | apps/teleop-gateway/internal/gateway/control_session_api.go:115-137 | acquiring control and letting the lease run out reaches such a state |
| `VideoAfterControl.RollbackLeavesTheController` | apps/teleop-gateway/internal/gateway/control_session_api.go:74-78 | and a rollback reaches one: session released, lease gone, record still held for it |
| `ControlVideo.VideoLagsUntilSetController` | apps/teleop-gateway/internal/gateway/control_session_api.go:64-72 | between the acquire script and SetController the lease is live and the video may be STANDBY |

## Left out

- HTTP parsing and status codes, CORS, metrics, JSON encoding, LiveKit rooms and tokens, webhooks, and the delivery of queued audit events: plumbing around the state modelled here.
- Cryptography, base64, JWT and TURN credentials: only the ideal-signature assumption is kept.
- The acquire, renew and release HTTP handlers are steps of the `ControlVideo` transition system, not classes: what matters is how their lease and video steps interleave. A rollback after a failed token is a release whose ClearController never comes.
- handleReleaseControl's first session lookup: it can only end the request earlier with "not found".
- Redis failing in the middle of an operation, which a SetController that fails would be.
- `ControlLeaseStore.Acquire`: an older call used by one test; it writes a lease without an index.
- The legacy `CommandVerifier`, `VehicleAgentRuntime` and `reconnect_loop`: superseded by the session verifier.
- Vehicle ACL, roles, identity map, token refresh, cameras, video publishing and the video grid.
- Statuses RELEASED, EXPIRED and REVOKED: declared in the source, never written.
- Clocks that drift: the vehicle's clock differs from the gateway's by a constant. The sender's timestamps may deviate within the freshness window.
- Text differences between JavaScript and Python numerals, and JSON values of other types than the schema's.
- Exact video state under interleaved requests: updates can be lost, so only the record's shape is proved there (`VideoRaces`); `VideoTimer`, `ViewerCount` and `ControlVideo` take a request as one operation.
- ViewerCount.ViewersAreConserved: counts joins and leaves of the one index all viewers of a vehicle share, so a second viewer's leave after the index is gone is not a successful one, as in the source.
