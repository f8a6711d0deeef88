# TunnelHW verified model

TunnelHW lets a remote consumer use serial devices attached to a machine elsewhere. An *agent* owns the
hardware: it names devices, decides which ones are exposed, and gives each out to at most one session at a
time. The agent keeps one outbound *tunnel* to a *relay*; the relay's hub knows the connected agents, and its
broker hands out sessions with bounded reads. This project models the stateful parts of both programs in Dafny
and proves what they keep, step by step and over whole runs.

Check everything with `dafny verify dfyconfig.toml`.

## How the model is built

- A component that changes state under a lock is a `class` with the source's fields. Each locked section is a
  method proved against a specification function (or a step) on an immutable view of those fields.
- A protocol is a transition system: a step per locked section or atomic access, and steps of their own for what
  happens between two locked sections. A `Run` is any sequence of enabled steps, so every interleaving of any
  number of callers is covered. Theorems are about all runs.
- Go map iteration is an arbitrary order: loops over maps take keys from a set nondeterministically.
- Ids are opaque numbers; session ids, device uuids, connection and correlation ids and minted secrets are fresh.

| file | models |
|---|---|
| `Prelude.dfy` | options, bytes, suffixes, flattening |
| `Names.dfy` | word-pair handles (`internal/names/names.go`) |
| `Registry.dfy` | the locked sections of the agent core, as functions and as class `Core` |
| `AgentSystem.dfy` | the core, its monitors and its ports as a transition system, and its invariants |
| `AgentTheorems.dfy` | exclusivity, claims, the session bound, revocation, kill-all, ports, names |
| `AgentRescan.dfy` | devices that vanish; what reset counts count |
| `AgentLost.dfy` | when a vanished device gets a session back; when hiding and kill-all hold |
| `AgentMonitors.dfy` | when turning monitoring off sticks |
| `AgentHardware.dfy` | the port a device was last seen on is the one opened, monitored and announced |
| `AgentSessions.dfy` | the claim a session comes from and what it reads from |
| `AgentAnnounce.dfy` | what the relay is told about a device, in terms of the run |
| `AgentNews.dfy` | reset news from the agent's rescans to a session's reports |
| `AgentRuns.dfy` | concrete runs that attain what the exact conditions leave open |
| `AgentSettings.dfy` | what every setting of every device is after any run |
| `AgentCap.dfy` | a run that reaches the session bound, for every number of overlapping opens |
| `Monitor.dfy` | continuous recording and fan-out (`internal/agent/monitor.go`) |
| `Tunnel.dfy` | run loop, kill switch and backoff (`internal/agent/tunnel.go`) |
| `Hub.dfy` | registration, name resolution, correlated requests (`internal/relay/hub.go`) |
| `RelaySession.dfy`, `RelaySystem.dfy` | the session buffer, its readers and pump; reset news (`internal/relayapi/broker.go`) |
| `Framing.dfy` | size-capped framing and version negotiation (`internal/proto/proto.go`) |
| `Credentials.dfy` | the credential store and its shared file (`internal/auth/auth.go`) |
| `CredentialLaws.dfy` | which credentials, pairing tokens and bearer tokens work, over every history |
| `SshConfig.dfy` | globbing and ssh_config lookup (`internal/sshtun/sshconfig.go`) |
| `SshConfigLaws.dfy` | what a lookup answers on text as it is written |
| `Limiter.dfy` | the pairing rate limiter (`cmd/relay/serve.go`) |

## Where the code differs from its description, or from a first reading

The model follows the code; each of these is proved.

- The session cap is checked when a device is claimed, not when the session registers. `SessionsAreBounded` gives
  the bound that holds, `CapIsReached` a run that attains it.
- `ReleaseDevice` says it reports whether a session was closed; it reports whether a claim was held, and closes
  nothing while the open is in flight (`ReleaseClosesIffRegistered`, `ReleaseCanCloseNothing`).
- A request for low control lines is said to be always honoured. One line asked low and the other high raises both
  when the grant is there (`LinesAreHonouredIff`, `LowRequestCanBeOverridden`).
- A vanished device is said to take its session with it. Registration rechecks exposure, not presence, so an open
  still in flight when its session is to be closed can become one afterwards (`LostForGoodIff`,
  `RegistrationIgnoresPresence`, `AbsentDeviceGetsASession`).
- A rescan that cannot name or save a new device returns before it closes the sessions of the devices it did not
  find (`VanishedSessionEndsIff`, `MissedIsHandedOverIff`, `FailedRescanKeepsTheSession`).
- Kill-all is said to sever every session; an open in flight can become one afterwards (`CloseAllSevers`,
  `KillAllHoldsIff`, `OpenOutlivesKillAll`).
- Turning monitoring off is undone by a start that had passed its check, or that a rescan or another call had
  decided on and not begun; when its edit cannot be saved it stops nothing (`MonitoringEndsIff`,
  `MonitoringCanOutliveItsEnd`, `OwedStartOutlivesTheStop`, `FailedSaveKeepsMonitoring`).
- If saving fails, hiding a device keeps the edit in memory but releases nothing (`HidingEndsTheSessionIff`,
  `FailedHideKeepsTheSession`).
- A monitor whose pump died is closed without closing its port (`MonitorCloseReleasesPortIff`, `AbandonedPortsStayOpen`,
  `PortCanBeAbandoned`).
- `Disconnect` severs what it finds; a session still being dialled comes up after it (`DisconnectSeversIff`,
  `DisconnectMissesADiallingSession`).
- Line reads promise whole lines but can cut one at the byte budget, and hand out a partial one at a timeout or the
  end of the session (`WholeLinesIff`, `LineCutAtBudget`).
- An EOF can be followed by bytes the pump was still reading when the session was closed (`MoreCanComeIff`,
  `BytesMayFollowEof`).
- Resets from before a session opened are said to be none of its news. Its baseline is 0 when the lookup at open
  fails, and an outdated count when the hub has yet to receive the latest announce; older resets then become its news
  (`OldResetsAreNewsIff`, `OldResetBecomesNews`, `StaleLookupMakesOldNews`).
- The reset count is said to count the times a device vanished and came back. It also counts the first sighting of a
  USB device that was a placeholder before any scan found it (`ResetsAreComebacksIff`, `FirstSightingCountsAsReset`).
- `Send` accepts a line of exactly the cap, which `ReadFrame` refuses (`SentIsReadBackIff`, `CapSizedLineIsLost`).
- Pruning and exchanging disagree about a token at the very instant it expires (`PruneMattersOnlyAtExpiry`, `LastInstantCanBeLost`).
- The fixed-window limiter admits nearly twice its limit in one window's time (`AtMostOneLess`, `BoundIsReached`).

## Model

| member | source | states |
|---|---|---|
| Names.Generate | internal/names/names.go:55-93 | both bounded loops return the first attempt that is free, or fail as the attempt sequence says |
| Names.ValidIff | internal/names/names.go:21-33 | Valid accepts exactly the hyphen-joined pairs and triples of listed words |
| Names.GeneratedIsValidAndFree | internal/names/names.go:55-93 | a generated handle is valid and was not taken |
| Names.GenerateFailsIff | internal/names/names.go:55-93 | generation fails iff all 128 attempts are rejected or the random source fails first |
| Names.EveryPairCanBeDrawn | internal/names/names.go:55-71 | the first two draws name the pair that is used when it is free, so every listed pair can come up |
| Names.EveryTripleCanBeDrawn | internal/names/names.go:72-91 | once 64 pairs were taken the next draws name the triple that is used, so every triple with two different nouns can come up |
| Names.GeneratedTriplesDiffer | internal/names/names.go:85-87 | a generated handle is a pair, or a triple whose nouns differ |
| Registry.Core.constructor | internal/agent/core.go:56-68 | a new core has its stored records and nothing else |
| Registry.Core.ByUuidLocked | internal/agent/core.go:230-248 | finds the unique device with a uuid in any map order, adding an offline placeholder for a stored one |
| Registry.Core.UpdateRecord | internal/agent/core.go:393-409 | edits the stored record and its live copy together, kept in memory even when saving fails |
| Registry.Core.RegenerateName | internal/agent/core.go:369-391 | renames a known device to a free generated handle, or changes no record |
| Registry.Core.ClaimDevice | internal/agent/core.go:522-569 | the outcome of every check in order, and a claim exactly on success |
| Registry.HiddenDevicesAreUnknown | internal/agent/core.go:534-537 | non-interference: an open answers as if the hidden devices did not exist |
| Registry.ClaimSucceedsIff | internal/agent/core.go:522-569 | an open is granted iff an exposed device with that handle is online and unclaimed, a session is free, and no line is asked high without the grant |
| Registry.RefusalsAreExact | internal/agent/core.go:534-561 | each refusal is given iff it is true of the device and no earlier check fails |
| Registry.Core.RegisterSession | internal/agent/core.go:594-617 | registers iff the claim is ours and the device exposed, else gives up only its own claim |
| Registry.Core.OpenSession | internal/agent/core.go:519-621 | undisturbed, it succeeds iff every check passes and a port is had, registers exactly that session, and on failure leaves everything as it was |
| Registry.Core.ExposedDevices | internal/agent/core.go:411-447 | exactly the exposed devices are announced, with their state and hardware details, ordered by name |
| Registry.OrderedIsUnique | internal/agent/core.go:445-446 | the ordered list of a set of devices is unique, so the map order leaves no trace |
| Registry.BeforeIff | internal/agent/core.go:445-446 | the order is the dictionary order of handles |
| Registry.Core.Close | internal/agent/core.go:624-634 | removes the session with its claim and hands back its handle; nothing for an unknown id |
| Registry.Core.ReleaseDevice | internal/agent/core.go:268-278 | answers whether a claim was held and closes the session it names |
| Registry.Core.SetExposure | internal/agent/core.go:255-263 | a saved hide releases the device; a failed save keeps the edit and releases nothing |
| Registry.Core.CloseAll | internal/agent/core.go:644-654 | undisturbed, it leaves no session and exactly the claims of opens in flight |
| Registry.Core.ReconcileOne | internal/agent/core.go:141-170 | one port: keep or create its record, mark it online, count a USB return |
| Registry.Core.ReconcilePorts | internal/agent/core.go:139-171 | the whole first loop, stopping where name generation fails |
| Registry.Core.SweepOne | internal/agent/core.go:178-197 | one registry entry: goes offline when absent, and adds its follow-up work |
| Registry.Core.SweepAbsent | internal/agent/core.go:177-197 | in any map order, exactly absent devices go offline and exactly their claims and monitors are collected |
| Registry.Core.RescanLocked | internal/agent/core.go:137-204 | the locked part of a rescan, with its three ways to end |
| Registry.Core.CheckMonitor | internal/agent/core.go:310-325 | a start proceeds iff no monitor runs and the device is online |
| Registry.StartsIff | internal/agent/core.go:310-327 | a start goes ahead on a path iff the device has no monitor and is online on that path |
| Registry.Core.InstallMonitor | internal/agent/core.go:332-339 | the first start to get here wins |
| Registry.Core.RemoveMonitor | internal/agent/core.go:347-354 | takes the monitor out of the table and returns it |
| Registry.LinesAreHonouredIff | internal/agent/core.go:553-564 | lines go up iff asked high with the grant or left to a policy that raises them; a low request is honoured iff nothing is asked high |
| Registry.LowRequestCanBeOverridden | internal/agent/core.go:549-564 | a concrete request for DTR low that raises both lines |
| AgentSystem.StepKeepsInv | internal/agent/core.go:132-654 | every step keeps well-formed records, conserved claims, tracked monitors and tracked ports |
| AgentSystem.RunKeepsInv | internal/agent/core.go:132-654 | so does every run |
| AgentTheorems.StepEffect | internal/agent/core.go:521-642 | what each step can do to opens, sessions and claims |
| AgentTheorems.ClaimsAreOpensAndSessions | internal/agent/core.go:541-620 | the claim table is exactly the disjoint union of opens in flight and sessions |
| AgentTheorems.SessionsAreExclusive | internal/agent/core.go:519-569 | never two opens or sessions on one device |
| AgentTheorems.OthersKeepTheirClaims | internal/agent/core.go:585-591 | ending one open or session never removes another's claim |
| AgentTheorems.StillOursAlwaysHolds | internal/agent/core.go:598-609 | the stillOurs test never fails; exposure alone decides registration |
| AgentTheorems.SessionsAreBounded | internal/agent/core.go:544-546 | with at most k opens in flight, at most MAX_SESSIONS + k - 1 sessions |
| AgentCap.CapIsReached | internal/agent/core.go:544-616 | for every k that many sessions are reached by some run |
| AgentTheorems.HideRevokes | internal/agent/core.go:250-263 | update, read of the claim and close, interleaved with anything: no session on the device until it is exposed again |
| AgentLost.HidingEndsTheSessionIff | internal/agent/core.go:255-263 | with the release it owes made, hiding a device rids it of its session for good iff the record was saved; otherwise the session goes on, hidden |
| AgentRuns.FailedHideKeepsTheSession | internal/agent/core.go:255-263 | a run that ends with a session on a hidden device |
| AgentTheorems.HiddenSessionsOnlyShrink | internal/agent/core.go:595-616 | while a device is hidden no session on it appears |
| AgentTheorems.ReleaseClosesIffRegistered | internal/agent/core.go:265-278 | with anything between its two sections, a release that answers true ends that session iff it is registered by the second; else its open is still in flight or has already ended |
| AgentRuns.ReleaseCanCloseNothing | internal/agent/core.go:265-278 | a run in which it answers true, closes nothing, and the session registers afterwards |
| AgentTheorems.SessionsComeFromRegistration | internal/agent/core.go:606-616 | only registration of an exposed device adds a session |
| AgentTheorems.SessionsAreNeverReopened | internal/agent/core.go:624-634 | a session that has ended never comes back |
| AgentTheorems.NewSessionWasRegistered | internal/agent/core.go:616-616 | a session that appears was registered in between |
| AgentTheorems.CloseAllSevers | internal/agent/core.go:643-654 | after kill-all none of the listed sessions is left; any session was registered during the call |
| AgentLost.KillAllHoldsIff | internal/agent/core.go:643-654 | no session exists until a device is opened anew iff kill-all leaves none and no open is in flight |
| AgentRuns.OpenOutlivesKillAll | internal/agent/core.go:643-654 | a run in which every listed session is closed and an open in flight becomes a session |
| AgentTheorems.EveryPortHasOneHolder | internal/agent/core.go:309-361 | each opened port has exactly one holder or is closed, and is closed at most once |
| AgentTheorems.UnclosedPortIsHeldOrAbandoned | internal/agent/monitor.go:63-113 | a port nobody holds is closed, save those of monitors whose pump died |
| AgentTheorems.MonitorCloseReleasesPortIff | internal/agent/monitor.go:63-113 | closing a stopped monitor gives its port up for closing iff its pump is alive |
| AgentTheorems.HandedOverPortsClose | internal/agent/core.go:332-361 | a port handed over for closing has not been closed before, and is closed by its close |
| AgentTheorems.AbandonedPortsStayOpen | internal/agent/monitor.go:63-113 | a port abandoned that way is never closed |
| AgentRuns.PortCanBeAbandoned | internal/agent/monitor.go:63-113 | a run that abandons a port |
| AgentTheorems.MonitorsAreExclusive | internal/agent/core.go:309-361 | a monitor runs on a device iff it is the one in the table |
| AgentMonitors.MonitorReturnsIff | internal/agent/core.go:332-338 | after the last stop of its monitor a device is monitored iff some start has committed since |
| AgentMonitors.StartsWereUnderway | internal/agent/core.go:310-325 | a start underway was underway before unless one has begun since |
| AgentMonitors.MonitoredAgainIff | internal/agent/core.go:182-215 | over all continuations in which nobody turns monitoring on, a device whose record says off is monitored again iff a monitor runs, a start is underway or one is still owed |
| AgentMonitors.MonitoringEndsIff | internal/agent/core.go:292-361 | turning monitoring off ends it, until it is turned on again, iff the record was saved or nothing runs anyway, and no start is underway or still owed; the record says off in any case |
| AgentMonitors.MonitorsLastUntilStopped | internal/agent/core.go:346-361 | a monitor runs until a stop of it |
| AgentRuns.MonitoringCanOutliveItsEnd | internal/agent/core.go:292-343 | a run in which a device is monitored although its record says it is not |
| AgentRuns.OwedStartOutlivesTheStop | internal/agent/core.go:182-215 | a run that ends that way with no start underway at the stop: a rescan had yet to make the one it decided on |
| AgentRuns.FailedSaveKeepsMonitoring | internal/agent/core.go:292-306 | a run that ends that way because the edit could not be saved |
| AgentTheorems.NamesStayDistinct | internal/agent/core.go:524-529 | handles and uuids stay distinct, so lookup by handle has one answer |
| AgentTheorems.NewNamesAreValid | internal/agent/core.go:145-153 | every handle a run creates is valid |
| AgentRescan.OrphansAreClaimsOfAbsentDevices | internal/agent/core.go:172-197 | a completed rescan closes exactly the claims of the devices it did not find |
| AgentRescan.ScanCompletesIff | internal/agent/core.go:137-204 | a rescan completes iff every new port got a name and saving worked or no port was new |
| AgentRescan.MissedIsHandedOverIff | internal/agent/core.go:144-209 | the session of a device not found is handed over for closing iff the rescan completes; a failed save still marks it absent, a failed name does not |
| AgentRescan.OnlyTheHolderRemains | internal/agent/core.go:172-197 | after a rescan missed a device only the holder of its claim works on it, until it is found again |
| AgentRescan.LostDeviceLosesItsSession | internal/agent/core.go:172-209 | such a device has no session after the close that follows, if that open had registered or ended by then |
| AgentLost.OpenCanComplete | internal/agent/core.go:575-620 | an open in flight on an exposed device can run on to a session at once, present or not |
| AgentLost.GoneForGoodIff | internal/agent/core.go:172-209 | after a miss no continuation without another sighting has a session on the device iff the holder of its claim no longer works on it |
| AgentLost.LostForGoodIff | internal/agent/core.go:172-209 | at the close of that holder this is so iff its open is not in flight |
| AgentLost.SessionsLastUntilClosed | internal/agent/core.go:624-634 | a session lasts until it is closed |
| AgentLost.VanishedSessionEndsIff | internal/agent/core.go:172-209 | with the closes a rescan owes made, a registered session on a device it did not find is gone for good iff the rescan completed, and is still there otherwise |
| AgentRuns.FailedRescanKeepsTheSession | internal/agent/core.go:198-203 | a run that ends with a session on an absent device after a rescan that could not save |
| AgentRuns.AbsentDeviceGetsASession | internal/agent/core.go:594-617 | a run that ends with a session on an absent device |
| AgentRescan.MonitorsFollowPresence | internal/agent/core.go:177-215 | a completed rescan starts exactly the missing monitors of found devices and stops exactly those of devices not found |
| AgentRescan.RegistrationIgnoresPresence | internal/agent/core.go:598-616 | an open registers iff the device is exposed, online or not |
| AgentRescan.ResetsAreComebacksIff | internal/agent/core.go:28-32 | a device's count is the number of times it vanished and came back iff it was not a placeholder first found on USB; otherwise it is one more |
| AgentRuns.FirstSightingCountsAsReset | internal/agent/core.go:157-170 | a run that counts a reset of a device that never vanished |
| AgentRescan.ResetsCountReturns | internal/agent/core.go:157-170 | a device's count is the number of USB sightings after it was last missed by a scan or only a placeholder |
| AgentHardware.HardwareIsLastSeen | internal/agent/core.go:139-170 | over every run, a device's hardware is that of the last port with its key a scan reached, or none if never seen |
| AgentHardware.OpensWhereLastSeen | internal/agent/core.go:547-547 | an open goes to the port its device was last seen on |
| AgentHardware.MonitorsWhereLastSeen | internal/agent/core.go:320-327 | so does the start of a monitor |
| AgentHardware.EntryIffMet | internal/agent/core.go:139-248 | over every run, the agent has an entry for a device iff a scan has reached a port of it or a call has named it |
| AgentAnnounce.AnnouncesAreTrue | internal/agent/core.go:411-447 | in every state of every run an announce names exactly the exposed devices met, each with its record, last seen hardware, presence at the last scan, number of returns, and busy or held iff something works on it or a monitor runs |
| AgentSessions.SessionIsAsGranted | internal/agent/core.go:570-593 | a session is for the device and handle its claim was granted for, and reads from a monitor iff one ran when its open looked |
| AgentSettings.SettingsAreTheLastEdit | internal/agent/core.go:280-409 | after any run each setting, the monitor rate included, is what its last edit asked for, else its stored value, else unset; rescans and renames never touch one |
| AgentSettings.RenamedIff | internal/agent/core.go:369-391 | a device's handle changes iff a step renames it and a name can be generated, to that name, which was free |
| Monitor.AppendBounded | internal/agent/monitor.go:116-126 | whichever branch runs, the newest max bytes of the concatenation remain |
| Monitor.Subscriber.Push | internal/agent/monitor.go:147-154 | an open subscriber gets the bytes, bounded; a closed one ignores them |
| Monitor.Subscriber.Close | internal/agent/monitor.go:156-161 | closing keeps what is buffered |
| Monitor.Subscriber.Read | internal/agent/monitor.go:163-173 | buffered bytes first, EOF only when closed and drained |
| Monitor.Recorder.Record | internal/agent/monitor.go:55-62 | history and every open subscriber get the chunk, no one else changes |
| Monitor.Recorder.CloseSubscribers | internal/agent/monitor.go:107-110 | every subscriber is closed with its buffer intact |
| Monitor.Recorder.Attach | internal/agent/monitor.go:78-92 | a new subscriber starts with the history, and joins only an open monitor |
| Monitor.Recorder.Detach | internal/agent/monitor.go:94-98 | removes just that subscriber |
| Monitor.Recorder.Close | internal/agent/monitor.go:101-113 | closes the port iff the monitor was still open |
| Monitor.HistoryIsRecent | internal/agent/monitor.go:51-62 | in every run history is the last 256 KiB of all output |
| Monitor.NothingLostWithoutOverflow | internal/agent/monitor.go:78-173 | reads plus buffer are the output from the replayed history on, without gap or duplicate |
| Monitor.OnlyOldestUnreadBytesAreDropped | internal/agent/monitor.go:116-173 | after overflow deliveries are still genuine, ordered and disjoint, and every byte is accounted for |
| Monitor.EofComesAfterEverything | internal/agent/monitor.go:163-173 | EOF is read only after everything not dropped |
| Monitor.DropIff | internal/agent/monitor.go:122-124 | a push drops exactly the shortfall of room |
| Monitor.ClosedSessionsOnlyDrain | internal/agent/monitor.go:147-161 | closing fixes a session's stretch of output |
| Monitor.ReadsMakeProgress | internal/agent/monitor.go:163-173 | a read returns bytes iff any are buffered, the oldest and at most as many as asked; it waits iff there are none and the session is open |
| Monitor.SessionsEndWithTheirMonitor | internal/agent/monitor.go:63-113 | over every run, a session is closed iff its monitor is, or it was closed itself; a monitor iff it was closed or its port failed |
| Monitor.SessionsStartWithTheHistory | internal/agent/monitor.go:78-92 | a session attached with the history starts at its oldest byte, one without at the present |
| Tunnel.NoLostResume | internal/agent/tunnel.go:58-77 | parked with the latch open implies a token waits or a Resume is about to leave one |
| Tunnel.LatchedBegins | internal/agent/tunnel.go:110-124 | while latched only the attempt already committed begins |
| Tunnel.KillSwitchLatches | internal/agent/tunnel.go:90-124 | from Disconnect's store to the next Resume's store at most one attempt begins |
| Tunnel.NoneAfterTheLastAttempt | internal/agent/tunnel.go:92-121 | none begins after the attempt in flight ends, stale tokens or not |
| Tunnel.LatchIsLastStore | internal/agent/tunnel.go:71-93 | the latch is closed iff some Disconnect has stored and no Resume after it |
| Tunnel.ResumeResumes | internal/agent/tunnel.go:71-122 | after a completed Resume with no Disconnect since, a parked loop begins a session by its own next three steps |
| Tunnel.ParkedBeginsIff | internal/agent/tunnel.go:110-122 | a parked loop can get to another session without a further Resume iff the latch is open |
| Tunnel.TokenStarts | internal/agent/tunnel.go:114-141 | a token ends any wait at once, parked or backing off |
| Tunnel.TokensAreSingleUse | internal/agent/tunnel.go:73-141 | at most one token is received per send |
| Tunnel.ExitIsFinal | internal/agent/tunnel.go:115-138 | once the loop has returned no session begins |
| Tunnel.KillHitsIff | internal/agent/tunnel.go:92-100 | the kill severs the live session iff it is the one that was live when the call looked, or it was severed already |
| Tunnel.DisconnectSeversIff | internal/agent/tunnel.go:90-100 | after a completed call no continuation without a Resume has a live unsevered session iff none is on its way and the live one, if any, is severed |
| Tunnel.DisconnectMissesADiallingSession | internal/agent/tunnel.go:254-257 | a run in which that happens |
| Tunnel.BackoffDoubles | internal/agent/tunnel.go:109-145 | in every run the wait after n that ran out is min(2^n, 60) seconds |
| Tunnel.RetryLoop | internal/agent/tunnel.go:109-145 | for any outcomes of the attempts the loop waits as BackoffDoubles says for the steps they make |
| Tunnel.Tunnel.ResumeCh | internal/agent/tunnel.go:58-65 | the channel is made once and keeps its token |
| Tunnel.Tunnel.StoreResume | internal/agent/tunnel.go:72-72 | Resume's store is its step |
| Tunnel.Tunnel.SendResume | internal/agent/tunnel.go:73-76 | Resume's non-blocking send is its step |
| Tunnel.Tunnel.StoreDisconnect | internal/agent/tunnel.go:93-93 | Disconnect's store is its step |
| Tunnel.Tunnel.ReadKill | internal/agent/tunnel.go:94-96 | Disconnect's read of the kill function is its step |
| Tunnel.Tunnel.Publish | internal/agent/tunnel.go:254-257 | a connected session publishes its kill function |
| Tunnel.Tunnel.Withdraw | internal/agent/tunnel.go:258-263 | and withdraws it when it returns |
| Tunnel.Tunnel.LoadLatch | internal/agent/tunnel.go:111-113 | the loop parks iff the latch is set |
| Tunnel.Tunnel.AfterSession | internal/agent/tunnel.go:133-135 | a session longer than a minute resets the backoff |
| Tunnel.Tunnel.ReceiveToken | internal/agent/tunnel.go:117-118 | a token is consumed and resets the backoff |
| Tunnel.Tunnel.WaitElapsed | internal/agent/tunnel.go:142-144 | a wait that runs out doubles the backoff up to the cap |
| RelaySession.Clamp | internal/relayapi/broker.go:242-252 | a request keeps its delimiter, the newline for lines, and gets the budget closest to the one asked for, or the default |
| RelaySession.ClampTimeout | internal/relayapi/broker.go:253-256 | a timeout is the one closest to the one asked for between 0 and 55 seconds, or the default |
| RelaySession.IndexFrom | internal/relayapi/broker.go:302-302 | the first occurrence at or after a position, or none |
| RelaySession.Session.PumpCheck | internal/relayapi/broker.go:146-154 | sleeps iff full and open, stops iff closed |
| RelaySession.Session.PumpAppend | internal/relayapi/broker.go:156-166 | appends what was read, closes on error, broadcasts |
| RelaySession.Session.TakeLocked | internal/relayapi/broker.go:300-320 | takes a prefix of the stated length and broadcasts, or leaves all as it was |
| RelaySession.Session.TakeMoreLines | internal/relayapi/broker.go:274-280 | the follow-on takes extend the first by exactly the lines and budget left |
| RelaySession.Session.ReadPass | internal/relayapi/broker.go:269-295 | one pass: its outcome, the buffer left, and whether it broadcast |
| RelaySession.Session.Close | internal/relayapi/broker.go:402-405 | marks the session closed and wakes everyone |
| RelaySession.PlainRead | internal/relayapi/broker.go:269-319 | a plain read sleeps iff nothing is buffered, the session open and the deadline ahead; with anything buffered it returns all of it, or as much as asked, at once |
| RelaySession.TimedOutRead | internal/relayapi/broker.go:284-295 | any read times out iff its deadline has passed with nothing to take in an open session, and then returns everything buffered |
| RelaySession.DelimiterRead | internal/relayapi/broker.go:300-312 | a delimiter read that neither timed out nor reports EOF ends at the first occurrence or is full with none inside |
| RelaySession.DelimiterWaitsIff | internal/relayapi/broker.go:300-312 | it waits iff the delimiter is not buffered and the budget not filled |
| RelaySession.LinesCountIs | internal/relayapi/broker.go:270-281 | a line read takes a full budget or everything up to the last newline |
| RelaySession.LineRead | internal/relayapi/broker.go:270-288 | a line read that neither timed out nor reports EOF is non-empty, within budget, and ends in a newline or is full; if short no newline stays behind |
| RelaySession.WholeLinesIff | internal/relayapi/broker.go:192-196 | any line read gives only whole lines iff a newline sits on a filled budget, or the shorter buffer holds one or nothing |
| RelaySession.LineCutAtBudget | internal/relayapi/broker.go:274-311 | a concrete read that cuts its second line |
| RelaySession.ClosedRead | internal/relayapi/broker.go:284-288 | a closed read returns at once; EOF iff nothing was left to take, and then all is drained |
| RelaySession.EofMeansDrained | internal/relayapi/broker.go:284-288 | EOF is never reported while open or with bytes left |
| RelaySession.RemovalKeepsWaiting | internal/relayapi/broker.go:289-293 | taking bytes never gives another waiting reader something to take |
| RelaySystem.StreamIsConserved | internal/relayapi/broker.go:143-320 | all reads in lock order followed by the buffer are exactly the bytes received |
| RelaySystem.BufferIsBounded | internal/relayapi/broker.go:143-171 | the buffer stays below its cap plus one chunk |
| RelaySystem.NoLostWakeup | internal/relayapi/broker.go:143-296 | whoever sleeps has nothing to do, or a timer about to wake it |
| RelaySystem.PlainReadersWaitForBytes | internal/relayapi/broker.go:269-319 | a waiting plain reader faces an empty buffer of an open session |
| RelaySystem.ReadersKeepTheirWishes | internal/relayapi/broker.go:242-265 | a reader keeps its clamped request, and its deadline is its start plus its clamped timeout |
| RelaySystem.TimesOutAtDeadline | internal/relayapi/broker.go:284-295 | a pass that finds nothing to take sleeps before the deadline and times out from it on |
| RelaySystem.ClosedIff | internal/relayapi/broker.go:155-166 | a session is closed iff it was closed or its stream failed |
| RelaySystem.NeverBothAsleep | internal/relayapi/broker.go:143-320 | a pump asleep for room leaves every reader with something to take, so they never wait for each other |
| RelaySystem.EofIsFinal | internal/relayapi/broker.go:150-169 | once closed with the pump out of its read nothing more is received |
| RelaySystem.MoreCanComeIff | internal/relayapi/broker.go:143-171 | from a closed session more can be received iff the pump is still in a read |
| RelaySystem.BytesMayFollowEof | internal/relayapi/broker.go:155-159 | a run with a read that reports EOF and a byte received afterwards |
| RelaySystem.ResetNews.constructor | internal/relayapi/broker.go:117-121 | the baseline is the current count when it can be looked up in this epoch, else 0 |
| RelaySystem.ResetNews.Take | internal/relayapi/broker.go:217-240 | reports a rise once and only within its own epoch |
| RelaySystem.ResetNewsIsExact | internal/relayapi/broker.go:217-240 | the baseline never falls, ends at the highest count, and reports number at most the rise and none iff no rise |
| RelaySystem.NewsIff | internal/relayapi/broker.go:233-239 | a lookup is news iff it exceeds everything seen before in this epoch |
| AgentNews.AnnouncedIsReturns | internal/agent/core.go:157-170 | an announced count is the number of returns the agent has seen of that device |
| AgentNews.ReportsAreReturns | internal/relayapi/broker.go:215-240 | end to end, with announces in any order: a session reports at most the returns since the announce found at open, and reports one whenever it looks up a count from after such a return |
| AgentNews.ReportsWithoutBaseline | internal/relayapi/broker.go:117-121 | when the lookup at open fails the bound counts from the start of the agent |
| AgentNews.OldResetsAreNewsIff | internal/relayapi/broker.go:117-121 | returns from before the session are its news iff there was one since the announce its lookup at open found, or since the agent started when that lookup failed |
| AgentNews.HubHoldsTheAnnounce | internal/relay/hub.go:196-202 | the hub's map of an announce holds exactly the counts the agent announced |
| AgentNews.ReportsThroughTheHub | internal/relay/hub.go:252-267 | with every lookup answered by the hub, whichever announces it holds by then, the reports are bounded by the returns since the announce behind the baseline |
| AgentRuns.OldResetBecomesNews | internal/relayapi/broker.go:117-121 | a run with such a return: found, missed, found again, and the lookup at open fails |
| AgentRuns.StaleLookupMakesOldNews | internal/relayapi/broker.go:117-121 | the same run with a lookup at open that finds the first announce |
| Hub.Registry.RegisterConn | internal/relay/hub.go:164-169 | the new connection takes the entry and displaces the old one |
| Hub.Registry.CleanupConn | internal/relay/hub.go:172-177 | cleanup removes the entry only if it is its own |
| Hub.EntryIsNewestLiveConnection | internal/relay/hub.go:164-177 | the entry is a connection iff it registered last and has not cleaned up |
| Hub.OlderCleanupIsHarmless | internal/relay/hub.go:172-177 | in any history a connection that is not the last registered cleans up without effect |
| Hub.Resolve | internal/relay/hub.go:284-314 | the unique allowed holder, ambiguous iff two or more, not found iff none, in any map order |
| Hub.QualifiedNameResolves | internal/relay/hub.go:282-295 | a qualified name of a held device has exactly its agent as holder |
| Hub.BareNameMeansAnyAgent | internal/relay/hub.go:282-300 | a name without a slash, or with nothing before it, stands for that handle at any allowed agent |
| Hub.ScopeHidesOtherAgents | internal/relay/hub.go:296-298 | non-interference: a scoped token resolves names as if no other agent were connected |
| Hub.DeviceMap | internal/relay/hub.go:196-202 | an announce replaces the set; the last entry of a handle wins |
| Hub.ResetsFor | internal/relay/hub.go:252-267 | an announced count with its epoch, or none iff the agent or device is gone |
| Hub.PendingMap.AddCorr | internal/relay/hub.go:38-44 | adds one pending request |
| Hub.PendingMap.TakeCorr | internal/relay/hub.go:46-54 | takes it out at most once |
| Hub.PendingMap.DropCorr | internal/relay/hub.go:56-60 | drops it on failure or timeout |
| Hub.ResolveNeverBlocks | internal/relay/hub.go:46-54 | the slot a result is about to fill is always empty |
| Hub.ReturnedRequestsLeaveNothing | internal/relay/hub.go:370-390 | at most one result per request, no entry left once it returned |
| Hub.ResultsAnswerTheirRequest | internal/relay/hub.go:46-54 | a returned result was sent under that correlation id |
| Hub.PendingIff | internal/relay/hub.go:38-60 | a request is pending iff it was added and has since neither failed, timed out nor had a result |
| Hub.ResultIsDelivered | internal/relay/hub.go:46-54 | a result resolved while its request is pending is in hand and is what the request returns, unless it is given up |
| Hub.RequestsCanBeAnswered | internal/relay/hub.go:370-390 | from any state with the control loop free a new request can be answered |
| Framing.Reader.ReadSlice | internal/proto/proto.go:220-221 | the buffered reader's documented contract |
| Framing.Reader.ReadFrame | internal/proto/proto.go:217-233 | the outcome depends only on the stream, whatever the buffer room at each slice |
| Framing.Reader.Read | internal/proto/proto.go:291-293 | raw reads start exactly where the frame ended |
| Framing.FramesAreFinal | internal/proto/proto.go:217-233 | a frame once decided stays so whatever follows; a stream is undecided iff it has no newline and is within the cap |
| Framing.Writer.Send | internal/proto/proto.go:249-270 | a line within the cap goes out whole with its newline, or as far as the stream takes it with an error; a longer one not at all |
| Framing.FramesThenRawBytes | internal/proto/proto.go:307-329 | sendable frames followed by raw bytes read back as those frames, standing at the raw bytes |
| Framing.EncodeAppend | internal/proto/proto.go:265-268 | successive sends put the encoding of all lines on the wire |
| Framing.SentIsReadBackIff | internal/proto/proto.go:217-270 | everything accepted is read back iff no line has exactly the cap's length |
| Framing.CapSizedLineIsLost | internal/proto/proto.go:222-262 | the boundary line exists |
| Framing.Negotiate | internal/proto/proto.go:197-208 | the highest common version, an error iff there is none |
| Credentials.FirstMatch | internal/auth/auth.go:194-198 | the first exchangeable token, or none |
| Credentials.FirstApi | internal/auth/auth.go:266-272 | the first unrevoked token with that hash, or none |
| Credentials.PruningOnlyRemoves | internal/auth/auth.go:174-180 | exactly unused, unexpired tokens survive pruning |
| Credentials.CompactInPlace | internal/auth/auth.go:174-180 | compacting the slice over its own front yields the pruned list in order |
| Credentials.ExchangesNeverExceedMints | internal/auth/auth.go:190-209 | over any history a secret is exchanged at most as often as it was minted |
| Credentials.ExchangeMeansFreshToken | internal/auth/auth.go:190-209 | a successful exchange presents a secret minted earlier, within its lifetime |
| Credentials.PruningIsUnobservable | internal/auth/auth.go:173-198 | if every exchange is strictly later than the mints before it, no result of any operation tells whether minting prunes |
| Credentials.PruneMattersOnlyAtExpiry | internal/auth/auth.go:177-196 | a prune takes a token from an exchange iff every token it could use has expired by the prune |
| Credentials.LastInstantCanBeLost | internal/auth/auth.go:173-198 | a history whose exchange is refused although a store without pruning accepts it |
| Credentials.AgentsOnlyGainRevocation | internal/auth/auth.go:205-230 | agents are never lost, credentials never change, revocation is never undone |
| Credentials.RevocationIsFinal | internal/auth/auth.go:212-231 | after a revocation no credential verifies for that agent |
| Credentials.CredentialsWorkUntilRevoked | internal/auth/auth.go:212-218 | until then exactly its own credential verifies |
| CredentialLaws.VerifiesIff | internal/auth/auth.go:190-218 | over every history, a credential verifies iff an exchange handed it out for that agent and no revocation came since |
| CredentialLaws.PairedCredentialVerifies | internal/auth/auth.go:200-218 | the credential a pairing returns, and no other, verifies until the agent is revoked |
| CredentialLaws.RevokeSucceedsIff | internal/auth/auth.go:221-232 | an agent is on record, and can be revoked, iff an exchange has paired it |
| CredentialLaws.AgentKeepsItsName | internal/auth/auth.go:205-205 | a paired agent keeps the name it was paired under |
| CredentialLaws.FirstExchangeSucceedsIff | internal/auth/auth.go:165-209 | the first exchange of a secret minted once succeeds iff the token has not expired, nor had at any mint in between |
| CredentialLaws.ScopeIsAsMinted | internal/auth/auth.go:247-274 | over every history a bearer token has the name, read-only flag and agents it was minted with, and an unknown secret is refused |
| CredentialLaws.BearerIsAcceptedIff | internal/auth/auth.go:262-274 | a bearer secret is accepted iff a token with it is there and not revoked |
| Credentials.Store.Reload | internal/auth/auth.go:107-128 | afterwards memory is the file's contents, or untouched when the file cannot be read |
| Credentials.Store.Save | internal/auth/auth.go:130-144 | a save replaces the file and its stamp, a failed one touches neither |
| Credentials.Store.MintPairingToken | internal/auth/auth.go:165-182 | prunes and adds to the file's current contents |
| Credentials.Store.ExchangePairing | internal/auth/auth.go:190-209 | consumes the first match and creates the agent, refuses and changes nothing, or, without randomness, uses up the token in memory only |
| Credentials.Store.Verify | internal/auth/auth.go:212-218 | judges by the file's current contents |
| Credentials.Store.Revoke | internal/auth/auth.go:221-232 | revokes in the current contents, refuses an unknown agent |
| Credentials.Store.MintApiToken | internal/auth/auth.go:247-259 | appends one bearer token to the current contents |
| Credentials.Store.VerifyApiToken | internal/auth/auth.go:262-274 | the scope of the first matching token |
| Credentials.Store.Perform | internal/auth/auth.go:98-274 | any operation acts on the file as on one store |
| Credentials.TakeTurns | internal/auth/auth.go:60-144 | two stores taking turns give the results and contents of a single one |
| SshConfig.GlobMatch | internal/sshtun/sshconfig.go:151-181 | terminates and decides whether the text can be cut into parts fitting the pattern |
| SshConfig.MatchPattern | internal/sshtun/sshconfig.go:142-147 | the lone-star shortcut agrees with that meaning |
| SshConfig.DirectiveReadsBack | internal/sshtun/sshconfig.go:105-112 | key and value come back from any mix of blanks and '=' between them |
| SshConfig.FieldsReadBack | internal/sshtun/sshconfig.go:67-67 | blank-separated patterns come back as written |
| SshConfig.HostLine | internal/sshtun/sshconfig.go:65-78 | a Host line applies iff some plain and no negated pattern matches, in any order |
| SshConfig.Lookup | internal/sshtun/sshconfig.go:37-102 | the first value obtained from applying blocks wins, identity files accumulate in order, Match blocks never apply |
| SshConfig.EarlierLinesWin | internal/sshtun/sshconfig.go:27-32 | appended lines change no value already given and only add identity files |
| SshConfig.PlainHostSplits | internal/sshtun/sshconfig.go:184-194 | host:port splits into its parts |
| SshConfig.BracketedHostSplits | internal/sshtun/sshconfig.go:184-194 | [address]:port splits and loses its brackets |
| SshConfig.BareAddressIsLeftAlone | internal/sshtun/sshconfig.go:189-192 | an unbracketed address with several colons is left alone |
| SshConfigLaws.BlockIsAnswered | internal/sshtun/sshconfig.go:37-102 | a Host block written out gives a matching alias exactly its host, user, port and key file under the home directory, any other alias nothing |
| SshConfigLaws.KeywordIff | internal/sshtun/sshconfig.go:63-99 | a word is a keyword iff it is that keyword in any mix of cases |
| SshConfigLaws.SeparatorsAre | internal/sshtun/sshconfig.go:105-112 | a space, a tab or an equals sign separates key and value |
| SshConfigLaws.BlanksAndCommentsSayNothing | internal/sshtun/sshconfig.go:55-58 | blanks around a line and comment lines contribute nothing |
| SshConfigLaws.QuotesAreDropped | internal/sshtun/sshconfig.go:114-119 | a pair of quotes around a value is dropped, anything else kept |
| SshConfigLaws.HomeIsExpanded | internal/sshtun/sshconfig.go:122-140 | paths under the home directory are found there when it is known, others are left as written |
| SshConfigLaws.NegationWins | internal/sshtun/sshconfig.go:65-78 | a negated pattern that matches overrides the whole line, and negated patterns alone never apply |
| SshConfigLaws.LiteralsMatchThemselves | internal/sshtun/sshconfig.go:151-181 | a pattern without wildcards matches itself and nothing else |
| SshConfigLaws.PortIsDropped | internal/sshtun/sshconfig.go:47-50 | an alias is looked up without its port |
| SshConfigLaws.BracketedWithoutPort | internal/sshtun/sshconfig.go:184-194 | a bracketed address without a port is left alone |
| Limiter.PairLimiter.Allow | cmd/relay/serve.go:162-174 | admits and counts, or refuses, after opening a window that is due |
| Limiter.AtMostTwiceTheLimit | cmd/relay/serve.go:148-174 | at most twice the limit in any half-open interval of one window's length |
| Limiter.AtMostOneLess | cmd/relay/serve.go:148-174 | one less than that on every clock whose first reading opens a window |
| Limiter.WindowHoldsTheLimit | cmd/relay/serve.go:164-173 | at most the limit from a window's start until the next one starts |
| Limiter.RefusedIff | cmd/relay/serve.go:162-174 | a call is refused iff the window is not over and has admitted the limit, or the limit is not positive |
| Limiter.WindowStartsIff | cmd/relay/serve.go:166-168 | a new window starts iff the current one is over, and starts at that call |
| Limiter.BoundIsReached | cmd/relay/serve.go:164-173 | the sharper bound is attained |

## Left out

- WebSocket, yamux, SSH, TLS, HTTP handlers, MCP wiring and serial port I/O: library or foreign code; a stream is a source of bytes and errors.
- JSON encoding: a message is its encoded line, which contains no newline; payloads that fail to decode are not modelled.
- Hashing, randomness and uuids: hashes are injective and minted values fresh; a random source that fails before a token is minted changes nothing and has no operation.
- The buffered reader and byte buffer: their documented contracts only. `ReadResult.Data` is a slice of the buffer's own storage; the model gives its value at the moment of return.
- Announces: they are sent by unordered goroutines, so when the hub's set catches up with the agent's is not modelled; a lookup may therefore find the announce of any earlier state, in any order.
- An enumeration that fails ends a rescan before it touches any state, so it has no step.
- A failed hardware open and the removal of its claim are one step; nothing else can see the moment in between.
- Two handles on one device: a monitor start may open a port that a session already holds; refusing that is left to the operating system.
- Sorting by name is the library's; `Registry.SortByName` stands in for it. The device class is the constant "serial" and left out.
- Write, SetParams, Drain, byte counters, the activity log, the listings for users, owner checks and the reaping of dead sessions two minutes after their pump ends.
- Device classes, fingerprints, configuration files, relay URLs, service installation, the web UI and the command line: they would add only easy members.
- Overlapping writes to the credential file by two processes: the code takes no file lock. Operations here do not overlap and saves have distinguishable stamps.
- Credentials.Store.Perform: its reload finds the file readable, its draw of a credential and its save succeed; `Reload`, `ExchangePairing` and `Save` state what happens otherwise.
- Credentials.Store.Save: after a failed save the change stays in that store's memory; which later save carries it to the file is not modelled.
- Each credential operation reads the clock once; the source may read it again for each token in its loop.
- Tunnel.BackoffDoubles: the wait in seconds, not the time a timer actually takes.
- A read timer that has been stopped may still fire in the model, which only adds wakeups.
- ssh_config: the file's lines are given; the line scanner's length limit and non-ASCII blanks and letter case are not modelled, and joining a path to the home directory is left symbolic.
- Limiter.AtMostTwiceTheLimit: the clock does not go back, nor before the zero time.
