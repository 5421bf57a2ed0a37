# Sidecar Executor: a Dafny model

The executor runs one Docker container for Mesos and has to report its fate
truthfully while several goroutines act on shared state: the decoders of the
event stream, the driver's run loop, the container monitor and the looper it
starts, kill callbacks, and the signal handler. This project models that
concurrency as labelled transition systems, proves what every interleaving
keeps, and models the code that updates state in place as classes whose methods
are proved against those systems.

- `DriverProtocol`, `UpdateSafety`, `SessionSafety`, `RunSafety`: the driver's
  protocol with the Mesos agent. Returning from a send and recording the update
  are two steps; each session has a decoder of its own, which may outlive its
  event loop. `ExecutorDriver` is the driver object. Other threads take arbitrary
  steps between any two of `Run`'s, and the object's fields are shown to be the
  protocol's state throughout.
- `TaskLifecycle`, `LifecycleSafety`, `TaskReports`: one task, from launch to the
  report of its end. The loop goroutine writes the monitor's exit code at any time,
  also after the monitor's wait was released. `ExitCodes` says which code is
  reported, `EarlyReleases` exactly when the process can exit, or a drain be cut
  short, with nothing reported; `TaskWitnesses` has runs in which that happens.
  `MonitorPaths` says which way each goroutine goes, by the steps taken so far.
  `SidecarExecutor` is the executor object: launch, monitor, container check.
- `HealthCheck`: the counter of failed health checks, against a specification
  over the whole history of polls.
- `TaskKill`: drain, stop, quit.
- `VaultLease`, `TokenCache`: the paddings around credentials, and the token file
  that many executors share.
- `EnvDecryption`, `PortMappings`, `Text`: what the container is configured with.
- `Options`, `Arithmetic`: small common parts.

`dafny verify dfyconfig.toml` checks the project.

## Assumptions

The Docker client, Sidecar, Vault, the agent, the clock and the scheduler are
parameters: replies, times, and the steps other threads take. What is assumed of
them is written where it is used. UUIDs of status updates are fresh. There is
one LAUNCH; KILL comes only after a launch that succeeded; the driver is stopped
once, by the executor or by a SHUTDOWN event, of which the life of a task has
none. A looper has a quit flag, runs no
further iteration after an error, and lets Wait return once the loop has ended
or Done was called. Map operations are atomic steps. Where tokens are shared,
Vault honours the TTL it is asked for, a write of the file ends within ten
minutes of the renewal of what is written, and file times are by the same clock.

## What the proofs show that the program does not say

- An acknowledgement that is handled before the sender has recorded its update
  leaves the update in the map, to be replayed on every resubscription
  (`AcknowledgedUpdateStays`).
- A signal can end the process with no terminal status sent exactly if it arrives
  before the monitor has joined the WaitGroup and before a failed launch was
  reported (`SilentExitExactlyIf`). That is so during the whole launch, when the
  handler finds no looper and does not wait (`SignalInPullReportsNothing`), and
  during the Sidecar backoff, when it finds the count at zero
  (`SignalInBackoffReportsNothing`).
- For the same reason a drain can be cut short although the task is not concluded
  exactly if there is a drain at all, which takes Sidecar checks, a draining
  duration, a URL and a container ID, and the kill comes before the monitor has
  joined the WaitGroup (`SilentDrainExactlyIf`, `KillInBackoffDoesNotDrain`).
- An environment entry without "=" is a panic in the launch, which ends the process
  with only RUNNING reported (`LaunchTask`, `BadEntryReportsNothing`).
- The environment names no protocols. Its last word on a container port is what the
  port is bound to exactly if the last mapping for that port, of whatever protocol,
  has the same host port (`EnvironmentAgreesExactlyIf`); it is right about all
  bindings exactly if no container port is bound to two host ports
  (`EnvironmentRightExactlyIf`, `EnvironmentIgnoresProtocol`).
- An update that is recorded after Run has read the updates and before it sends
  SUBSCRIBE is not in that SUBSCRIBE (`UpdatesInSubscribe`).
- FINISHED is reported exactly if the last check that returned before the monitor
  read the exit code had inspected 0, and KILLED exactly if it had inspected a code
  in 129..165 (`FinishedOrKilledExactlyIf`). An earlier check does not count, so a
  container that was seen to exit with 0 can be reported FAILED
  (`InspectedZeroYetFailed`).
- When the driver's Run returns without having been stopped, because it gave up or
  checkpointing is off, the process ends whatever the task is doing
  (`RunReturnsUnstopped`).
- With a role but no TTL, the shutdown comes after the end of the private token,
  however quick the requests are, exactly if the lease that Vault gives by default
  is longer than 3600 + 600 + 360 seconds (`DefaultTtlOutlivesToken`).
- `StopContainer` reports an error after a second attempt that worked, because it
  looks at the state it read before (`StopContainer`).
- Asked for a TTL of less than an hour, the shared token file is never used
  (`CachePossible`), as the comments in the source say.

## Model

| member | source | states |
|---|---|---|
| `UpdateSafety.NoLostUpdate` | mesosdriver/executor_driver.go:191-205 | in every interleaving, an update whose send succeeded and which was never acknowledged is in `unackedUpdates` under its UUID or held by a sender about to record it; nothing unsent is in the map |
| `UpdateSafety.ResubscriptionReplays` | mesosdriver/executor_driver.go:286-296 | every SUBSCRIBE carries, once, each update that, when Run read the updates for it, was sent, never acknowledged and not in its sender's hands; it carries nothing that was not sent |
| `UpdateSafety.UpdatesInSubscribe` | mesosdriver/executor_driver.go:71-81 | the updates in a SUBSCRIBE are exactly those that, when Run read the updates for it, were recorded and not acknowledged since |
| `UpdateSafety.TasksInSubscribe` | mesosdriver/executor_driver.go:61-71 | the tasks in a SUBSCRIBE are exactly those that, when Run read the tasks for it, were the latest launch of their ID with no acknowledgement for it since |
| `UpdateSafety.MapIsRecordedSinceAck` | mesosdriver/executor_driver.go:152-157 | a UUID is in the map exactly if some step recorded it and no acknowledgement of it was handled since |
| `UpdateSafety.MapIsSentMinusAcked` | mesosdriver/executor_driver.go:152-205 | when no sender is between send and record, the map is sent minus acknowledged exactly if no acknowledgement overtook the record it answers |
| `UpdateSafety.AcknowledgedUpdateStays` | mesosdriver/executor_driver.go:192-202 | such an overtaking is a run of the protocol, and leaves the acknowledged update in the map |
| `UpdateSafety.TaskPresent` | mesosdriver/executor_driver.go:140-155 | a task is in `unackedTasks`, hence in a snapshot, exactly if it is the latest launch of its ID and no acknowledgement naming that ID was handled since |
| `SessionSafety.RendezvousBound` | mesosdriver/executor_driver.go:92-108 | in each session the decoder completes, and starts, at most one round more than the event loop received, and no fewer |
| `SessionSafety.AtMostOneMoreEvent` | mesosdriver/executor_driver.go:94-121 | after the event loop returned, its decoder, which lives on, starts on at most one more event |
| `SessionSafety.ReceivedIsOffered` | mesosdriver/executor_driver.go:94-121 | the event loop receives, in order, each failure to decode and each result of a handler, all but the one that the decoder may still be offering or took with it when it ended |
| `SessionSafety.DecodersOutlive` | mesosdriver/executor_driver.go:102-107 | a decoder ends only when the driver was stopped |
| `SessionSafety.EventLoopResult` | mesosdriver/executor_driver.go:110-125 | the event loop returns nil only if the driver was stopped, and otherwise the first error it received, which is the last thing it received |
| `RunSafety.StoppedExactlyIf` | mesosdriver/executor_driver.go:164-234 | the quit channel is closed exactly if Stop was called or a SHUTDOWN event was handled |
| `RunSafety.JudgeDecides` | mesosdriver/executor_driver.go:326-340 | past the quit test, Run returns nil exactly without checkpointing, gives up exactly when more than RecoveryTimeout passed since the last contact, and else waits for the notifier |
| `RunSafety.ErrorReturn` | mesosdriver/executor_driver.go:319-336 | an error return implies checkpointing, that the test of the quit channel just before it saw the driver not stopped, and more than RecoveryTimeout since the last session ended or Run started |
| `RunSafety.NilReturn` | mesosdriver/executor_driver.go:319-329 | Run returns without an error exactly if its test saw the driver stopped, or checkpointing is off |
| `RunSafety.SingleSubscription` | mesosdriver/executor_driver.go:326-329 | without checkpointing Run subscribes at most once, and returns without error after exactly one |
| `RunSafety.OneSubscribeAfterStop` | mesosdriver/executor_driver.go:232-234 | from any moment at which the driver is stopped, at most one more SUBSCRIBE is sent |
| `RunSafety.RunCanMove` | mesosdriver/executor_driver.go:277-342 | until it has ended, Run is held up only by the notifier's pause and, in the event loop of a driver not stopped, by the decoder |
| `RunSafety.StoppedRunEnds` | mesosdriver/executor_driver.go:110-342 | from any moment at which the driver is stopped, Run and its event loop take at most nine more steps besides receiving what a decoder offers; until Run has ended it can take one as soon as the notifier lets it |
| `RunSafety.FailuresAreBounded` | mesosdriver/executor_driver.go:302-340 | if the notifier imposes pauses of at least d > 0, at most floor(RecoveryTimeout / d) + 2 subscriptions fail in a row |
| `RunSafety.BoundIsAttained` | mesosdriver/executor_driver.go:331-340 | and some run fails exactly that often |
| `ExecutorDriver.ValuesOf` | mesosdriver/executor_driver.go:61-81 | the snapshot loops yield each value of the map as often as there are keys that hold it |
| `ExecutorDriver.ExecutorDriver.SendSubscribe` | mesosdriver/executor_driver.go:286-296 | the SUBSCRIBE carries the tasks read first and the updates read then, which are all that was to be replayed at that step; other threads move between the two, and before the sending |
| `ExecutorDriver.ExecutorDriver.SendStatusUpdate` | mesosdriver/executor_driver.go:191-205 | with other threads moving before the reply, and between it and the record: the update is in the map afterwards exactly if the send succeeded, and the object has taken the protocol's steps |
| `ExecutorDriver.ExecutorDriver.HandleEvent` | mesosdriver/executor_driver.go:94-189 | with other threads moving after the event is decoded, and, task callbacks among them, until the handler returns: the object takes the protocol's steps; only ERROR gives an error; SHUTDOWN closes the quit channel, and is a panic if it is closed |
| `ExecutorDriver.ExecutorDriver.UpdateFor` | mesosdriver/executor_driver.go:140-166 | LAUNCH puts the task in its map, ACKNOWLEDGED takes one entry from each map, SHUTDOWN closes the quit channel, and no event does anything else to these |
| `ExecutorDriver.ExecutorDriver.Stop` | mesosdriver/executor_driver.go:232-234 | stopping is the protocol's Stop step, and is possible once |
| `ExecutorDriver.ExecutorDriver.EventLoop` | mesosdriver/executor_driver.go:110-126 | under any interference of other threads: what it returns is nil after a stop, or the first error received; it takes what is offered unless the driver is stopped, and returns nil if its select sees that |
| `ExecutorDriver.ExecutorDriver.TrySubscribe` | mesosdriver/executor_driver.go:285-308 | the session is served unless the reply is an error other than io.EOF |
| `ExecutorDriver.ExecutorDriver.Run` | mesosdriver/executor_driver.go:277-342 | under any interference the loop keeps to the protocol; its error and nil returns, single subscription, last steps after a stop and bound on failures are those of RunSafety; it goes on until it ends, an event loop goes on or the notifier holds it, and does end when stopped or, without checkpointing, when the session does |
| `TaskReports.OneTerminalStatus` | executor.go:127-160 | in every interleaving what Mesos is told, with the driver's stop, is a prefix of RUNNING, one terminal status, stop |
| `TaskReports.WhoConcludes` | executor.go:324-348 | a terminal status was sent exactly if a failed launch sent FAILED, or the monitor reported an exit code that maps to it |
| `MonitorPaths.LaunchedExactlyIf` | callbacks.go:22-115 | the stages of a launch are passed in order, and the task is launched exactly if all that the configuration asks for were passed |
| `MonitorPaths.QuitExactlyIf` | main.go:212-217 | the looper's quit flag is set exactly if a check saw the container gone, a kill came to its quit, or SIGUSR1 found a looper |
| `MonitorPaths.WaitEndsExactlyIf` | executor.go:281-289 | the monitor's wait can end exactly if the loop saw the quit flag, one of its checks returned an error, or another signal found a looper |
| `MonitorPaths.MakesSureExactlyIf` | executor.go:293-309 | when the monitor goes on to clean up, it tried to stop the container exactly if no exit code was known after its wait, and checked the container again exactly if none was known after that |
| `MonitorPaths.KillOrder` | callbacks.go:127-145 | each kill ends its drain, then tries to stop the container, then quits the looper, each once |
| `ExitCodes.StatusIsOfLastCheck` | executor.go:280-348 | a launched task is reported with the status for the code that the last check to return before the monitor's reading of `exitCode` returned, whoever made it |
| `ExitCodes.FinishedOrKilledExactlyIf` | executor.go:284-346 | FINISHED is reported exactly if that check inspected 0, KILLED exactly if it inspected a code in 129..165 |
| `TaskReports.TruthfulStatus` | executor.go:280-397 | FINISHED implies that exit code 0 was inspected, KILLED one in 129..165, for a container seen gone; if none ever was, the status is FAILED; the loop body may race Wait |
| `TaskReports.NoSilentAbandonment` | executor.go:287-318 | when the monitor has reported, some check saw the container gone, or the monitor tried to stop it after its wait ended |
| `TaskReports.MonitorOrder` | executor.go:262-322 | the whole order of Add, end of Wait, stop attempt, lease revocation, token revocation, status, driver stop and Done, as one sequence of which every run shows a prefix |
| `TaskReports.CleanupPrecedesReport` | executor.go:353-364 | before a report by the monitor: exactly one revocation attempt for the lease there is, with its last ID and the original role, then one for the private token if there is one |
| `LifecycleSafety.LeaseHolds` | executor.go:501-514 | the lease is at all times what Vault granted, as last renewed, with the Vars and Role of the grant |
| `TaskReports.FailedLaunchRevokesNothing` | callbacks.go:24-102 | a launch that did not succeed has revoked neither lease nor token |
| `TaskReports.ReleasedKnows` | executor.go:272-321 | the WaitGroup count is 0 or 1; a waiter can be released knowing that the terminal status was sent and the driver stopped exactly if the monitor has done Add |
| `TaskReports.StoppedIsConcluded` | main.go:289-296 | where the driver was stopped, so that main ends the process, a terminal status was sent before |
| `EarlyReleases.ReleasedKnew` | executor.go:272-321 | the same of every release in the history, for what had been done up to it |
| `EarlyReleases.SignalExitKnows` | main.go:212-232 | a process about to exit on a signal got the signal before the launch was complete, or its handler was released; at that release a terminal status had been sent exactly if the monitor had done Add |
| `EarlyReleases.SilentExitExactlyIf` | main.go:212-232 | an arriving signal can lead to an exit with no terminal status sent exactly if neither Add was done nor a failed launch reported |
| `EarlyReleases.SilentDrainExactlyIf` | executor_utils.go:147-221 | the final wait of a kill's drain can be cut short with no terminal status sent exactly if the kill drains and Add was not done when it began |
| `TaskWitnesses.SignalInPullReportsNothing` | main.go:212-232 | a signal during the image pull ends the process with nothing but RUNNING reported |
| `TaskWitnesses.SignalInBackoffReportsNothing` | main.go:212-232 | a SIGUSR1 during the Sidecar backoff ends the process with nothing but RUNNING reported |
| `TaskWitnesses.KillInBackoffDoesNotDrain` | executor_utils.go:187-221 | where kills drain, the final wait of a drain begun during the backoff is cut short, and the container stopped, before the watch has begun |
| `TaskWitnesses.RunReturnsUnstopped` | main.go:291-300 | when the driver's Run returns without a stop, as ErrorReturn and NilReturn say it can, the process ends while the task is watched, with nothing but RUNNING reported |
| `TaskWitnesses.BadEntryReportsNothing` | vault/vault.go:169-171 | an environment entry that cannot be split ends the process with nothing but RUNNING reported |
| `TaskWitnesses.InspectedZeroYetFailed` | executor.go:303-309 | the monitor's own recheck can overwrite an inspected 0, and FAILED is reported |
| `SidecarExecutor.SidecarExecutor.LaunchTask` | callbacks.go:14-123 | under any interference of the signal handler: the monitor is started exactly if RUNNING was sent, the image pulled, the lease had and renewed where configured, the environment decrypted, and the container created and started; else FAILED is reported and the driver stopped, unless a send fails or an environment entry cannot be split, which are panics |
| `SidecarExecutor.SidecarExecutor.SetUpLease` | executor.go:483-514 | the lease has the role configured, the variables of the grant, and ID and expiry of the renewal if a TTL is set |
| `SidecarExecutor.SidecarExecutor.FailTask` | executor.go:139-148 | a failed launch shows RUNNING, FAILED, stop, and nothing else |
| `SidecarExecutor.SidecarExecutor.CheckContainerStatus` | executor.go:368-408 | under any interference of the loop, kills and signals: the code is the inspected one exactly if the container is gone and was inspected, else -1; when there is an error; the looper is told to quit if the container is gone |
| `SidecarExecutor.SidecarExecutor.HandleContainerExit` | executor.go:324-348 | FINISHED for 0, KILLED for 129..165, FAILED for all else; the report, followed by the driver's stop, completes what Mesos is told |
| `SidecarExecutor.SidecarExecutor.MonitorTask` | executor.go:262-322 | under any interference of the loop, kills and signals: it waits until the wait can end; on completion all of the sequence of MonitorOrder has been shown, the status rests on an inspected code or is FAILED, the code is that of the last check to return before it was read, and the container was stopped and checked again exactly where needed; if nobody else moves, no code that this check inspects is lost |
| `HealthCheck.CountSinceReset` | executor.go:181-183 | the number of bad polls since the last good poll or kill verdict is the streak modulo MaxFails + 1, so at most MaxFails |
| `HealthCheck.OneMorePoll` | executor.go:241-255 | a kill verdict comes exactly on the (MaxFails + 1)th bad poll since the last reset |
| `HealthCheck.InconclusivePollsDoNotMatter` | executor.go:215-236 | deleting all inconclusive polls leaves the verdicts unchanged |
| `HealthCheck.HealthMonitor.Fetch` | executor.go:202-213 | no attempt follows a reply, and all allowed attempts are made before giving up |
| `HealthCheck.HealthMonitor.SidecarStatus` | executor.go:177-258 | after every history of polls the mutable counter is the count of the specification, within 0..MaxFails, and the verdict is the one specified; a poll is bad exactly if the first reply says UNHEALTHY or TOMBSTONE, and good exactly if it has another status |
| `TaskKill.ShouldCheckSidecar` | executor_utils.go:224-235 | checking is off exactly if the label is there and spells false |
| `TaskKill.PostDrain` | executor_utils.go:194-212 | POSTs number at most max(RetryCount + 1, 0), none follows a 202 or an observed exit of the watcher, and none is omitted without such a reason |
| `TaskKill.NotifyDrain` | executor_utils.go:147-221 | a drain is the POSTs and then the final wait, in exactly that time, or nothing at all |
| `TaskKill.PostTimeIs` | executor_utils.go:196-212 | the POSTs take their own time and a pause after each, except after one that got a 202 or saw the watcher done |
| `TaskKill.DrainTimeBound` | executor_utils.go:196-220 | with POSTs of at most H, a drain takes at most (RetryCount + 1) * (H + RetryDelay) + DrainingDuration |
| `TaskKill.StopContainer` | container/container.go:66-89 | success means exactly that the container was seen exited after the first attempt; a second attempt is made exactly if it was seen running |
| `TaskKill.KillTask` | callbacks.go:127-145 | all POSTs precede the stop attempt, which precedes the quit, within the bound on a drain |
| `VaultLease.EnvVault.GetAWSRoleVaultToken` | vault/vault.go:120-151 | a private token is kept exactly if the TTL is allowed, the login works and the token is renewed, for the wanted TTL plus 600 s |
| `VaultLease.LeaseHolder.SetUpLease` | executor.go:483-514 | the recorded expiry is 360 s before now + duration of the lease in force |
| `VaultLease.LeaseHolder.MonitorAWSCredsLease` | executor.go:452-479 | it never signals while the expiry recorded then lies ahead, and not later than the timers' slack after it if no renewal shortens the lease |
| `VaultLease.PaddingsCompose` | vault/vault.go:412-460 | a shutdown at the recorded expiry outlives neither lease nor token exactly if the two delays are within the two paddings; with the full grant the expiry is now + TTL |
| `VaultLease.DefaultTtlOutlivesToken` | vault/vault.go:121-137 | with no TTL set, no shutdown at the recorded expiry is in time for the private token exactly if the default lease is longer than 3600 + 600 + 360 seconds |
| `VaultLease.HoldCredentials` | callbacks.go:40-61 | the chain from token to self-shutdown: within the paddings, the shutdown outlives neither the lease nor the private token |
| `TokenCache.CachePossible` | vault/vault_auth.go:178-183 | some age of the file is accepted exactly if the TTL is at least the grace period of an hour |
| `TokenCache.CachedTokenIsFresh` | vault/vault_auth.go:124-195 | over any interleaving of executors sharing the file, a token taken from it has at least the grace period left when the age is tested, and none is taken with a TTL under an hour |
| `TokenCache.UsedWasValidated` | vault/vault_auth.go:134-143 | no executor uses a token from the file that it did not find valid |
| `TokenCache.TokenClient.GetTokenFromFile` | vault/vault_auth.go:172-195 | a token is taken exactly if the file is there, can be read, and every end its token may have, TTL honoured, leaves the grace period of an hour |
| `TokenCache.TokenClient.GetTokenWithLogin` | vault/vault_auth.go:211-235 | success needs credentials, login and renewal; the client keeps the token of a login whose renewal failed |
| `TokenCache.TokenClient.GetToken` | vault/vault_auth.go:124-158 | the file's token is used, and the file left alone, exactly if it can be used, which takes a token that Vault accepts and that has an hour left; else a new one is got and cached, or there is an error and nothing is written |
| `EnvDecryption.DecryptAllEnv` | vault/vault.go:166-185 | success exactly if every entry is readable, and then length, order, names and plain entries are kept; otherwise no list, and the failure is that of the first unreadable entry |
| `EnvDecryption.FormatSplit` | vault/vault.go:169-182 | splitting an entry at its first "=" and formatting it again is the identity |
| `EnvDecryption.DecryptionIsUnique` | vault/vault.go:166-185 | the relation that DecryptAllEnv establishes determines its result |
| `EnvDecryption.SecondPassIsIdentity` | vault/vault.go:173-182 | unless a secret is itself a Vault path, a second pass succeeds and returns the list unchanged |
| `Text.DecimalIsNumeral` | container/container.go:267 | the numeral of a port stands for it, is made of digits and has no leading zero |
| `Text.DecimalInjective` | container/container.go:267 | different ports have different numerals |
| `PortMappings.GetPortProtocols` | container/container.go:242-255 | the filtering loop gives the pieces of the protocol list, or "tcp" if one is empty |
| `PortMappings.ProtocolsAreNames` | container/container.go:242-255 | the protocols are never none, never empty, and have no comma |
| `PortMappings.DefaultProtocol` | container/container.go:242-255 | TCP is meant where no protocol is given, or an empty one among others |
| `PortMappings.WhatIsSkipped` | container/container.go:28 | after a comma, one tab, newline, form feed, carriage return or space is skipped, and nothing else |
| `PortMappings.ProtocolsRoundTrip` | container/container.go:28 | names that are not empty, have no comma and do not start with a space, joined by commas with or without one space, are read back as they were |
| `PortMappings.KeyInjective` | container/container.go:267-268 | a port key determines container port and protocol |
| `PortMappings.PortsForTask` | container/container.go:258-275 | exposed are exactly the keys of mappings with a container port other than 0 |
| `PortMappings.PortBindingsForTask` | container/container.go:435-454 | bound are exactly the keys of mappings with a host port, each to the host port of the last such mapping |
| `PortMappings.EnvPortsForTask` | container/container.go:348-357 | the environment's entries are exactly MESOS_PORT_c=h for the mappings that have both ports, in order |
| `PortMappings.PortsOfConfig` | container/container.go:177-193 | the three views agree: a bound key is exposed exactly if its container port is not 0, and then the environment holds MESOS_PORT_c=h for the host port it is bound to; that is its last word on c, for all of them, exactly if no container port is bound to two host ports |
| `PortMappings.EnvironmentAgreesExactlyIf` | container/container.go:348-357 | for every bound and exposed key, the last MESOS_PORT_c in the environment is the host port bound exactly if the last mapping for c has the same host port |
| `PortMappings.EnvironmentRightExactlyIf` | container/container.go:348-357 | it is so for all bound and exposed keys exactly if no container port is bound to two host ports |
| `PortMappings.EnvironmentIgnoresProtocol` | container/container.go:348-357 | with TCP and then UDP of one port on different host ports, the environment is wrong about TCP and right about UDP |

## Left out

- The HTTP, Docker, Vault and Mesos wire formats, JSON, protocol buffers and URL parsing: replies are parameters.
- The insides of the looper, the retry library and the backoff notifier: not part of this model beyond the assumptions above.
- A SUBSCRIBE that ends in io.EOF enters the event loop, as in the source; that there may then be no response to decode from is not modelled.
- ExecutorDriver.ExecutorDriver.HandleEvent: the two deletions for an acknowledgement are one step.
- ExecutorDriver.ExecutorDriver.Run: watched for a given number of turns, so that it ends; what it ensures holds for every number.
- SidecarExecutor.SidecarExecutor.MonitorTask: its wait is watched for a given number of turns, likewise.
- HealthCheck.HealthMonitor.SidecarStatus: one poll at a time; the loop body and the monitor's recheck polling at once, and racing on the counter, is not modelled.
- The executor's fields are spread over one class for each concern (`SidecarExecutor`, `HealthMonitor`, `LeaseHolder`), not kept in one; the `LeaseHolder` and the lease of `TaskLifecycle` are the same field seen for its timing and for its identity.
- TaskKill.NotifyDrain: negative durations, on which the ticker panics.
- TokenCache.TokenClient.GetToken: trimming of white space in the token file; the file is empty or whole while it is being written.
- VaultLease.HoldCredentials: no renewal after the monitor has started, as in the source; `MonitorAWSCredsLease` allows them.
- Wrap-around of times and durations near the limits of 64 bits.
- Labels, CPU and memory limits, volumes, capabilities, network mode, the other environment variables and container names: copies and single branches.
- Log relay, redaction, the UDP hook, process names, Docker registry authentication, Sidecar seeding: input and output around little logic.
- Data races on Go maps: map operations are atomic steps.
- Liveness beyond the bound on failed subscriptions: that a goroutine that can move does move.
