# New Horizons Gateway: verified model

The gateway relays between IMU devices on a LAN and a server. This project models the
protocols it keeps while doing so, and proves what they are for.

- **Presence and claims** (`Presence`, `PresenceLaws`, `PresenceHistory`, `PresenceMembership`,
  `PresenceAdmission`, `Claims`, `ClaimHistory`, `GatewayState`, `Lan`, `LanLaws`,
  `LanService`). Which gateway serves a device follows from heartbeats, control frames, command
  results and forwarded packets, with staleness noticed only when somebody asks. The proofs
  give `is_serving` its exact meaning over whole runs, and show that of several gateways on
  one LAN exactly the one a device stays with serves it.
- **Reliable command delivery** (`DeviceUid`, `UdpControl`, `UdpLaws`, `UdpLedger`,
  `UdpDelivery`, `UdpSessions`, `UdpDispatcher`). Every command queued has exactly one fate,
  counted once; retries, expiry, sessions, acks and wrapping sequence numbers do what they should.
- **A/B update and rollback** (`BootState`, `Bootloader`, `BootloaderLoop`). Bootloader and
  runtime share a disk and may lose power at any step, half-way through seeding a slot or
  saving the boot state included. What is launched as active was bootstrapped whole or
  passed a trial, under a guard that is proved exact.
- **Smaller cores**: chunk reassembly (`ResultChunks`), version order (`Versioning`, `Text`),
  the automatic update timer (`AutoUpdate`, `AutoUpdateStarts`), the lossy and the coalescing
  queue with the rate windows (`Queueing`, `InterleavedPut`, `Upstream`), and the time reply
  (`TimeService`).

Each stateful component has a specification on values (a state, one function per operation,
and `Run` over a sequence of calls) and a class that updates its fields in place, with the
loops of the program. The methods are proved to make exactly the specified step; the lemmas
are about the specification, so they hold of the classes. Laws of single operations (the
`Laws` modules among them) say what a call does in terms of its arguments and the fields it
finds.

`dafny verify dfyconfig.toml` checks the whole project.

What the model takes as given:

- A locked call reads the clock once, the clock does not step back between calls, and times
  are real numbers. Where the program reads the wall clock (claim expiry) the call carries a
  second, independent reading, which only `LookupIsInvisible` needs to be ordered.
- Uids reach the tables already normalised, and hosts already trimmed; `DeviceUid` says when
  the two normalisations agree. Text is ASCII.
- Claim ids are random UUIDs, so a new one is not in the table (`ClaimHistory` only).
- JSON parsing is a parameter, and so is whether a datagram could be sent.
- `snapshot` is, for presence and claims, one sweep followed by one claim lookup per nearby
  device: a sequence of calls that every run theorem already covers.
- In `Lan`, a device streams, beats and reports only to the gateway it is attached to, answers
  any gateway, and names its true gateway if its answer has an attached FindMe block. A result
  that came in chunks counts as sent when its last chunk was. Delivery takes at most `delay`.
- In the bootloader's world, nothing compares the contents of slots: each copy into a slot is
  just another copy, with the start script or without; a partly copied or emptied slot holds such
  a copy too. A soft restart of a runtime shows only as another health report. A switch is marked
  with the non-empty version of a manifest.
- `ticket` and `history` in the dispatcher, `stamp` and `puts` in the control queue, `writer` in
  the health file and `tally` in the bootloader's world are bookkeeping for the statements; no
  decision depends on them.

Findings where the code does less than its design suggests, each with the exact condition:

- A status poll between two packets can end a device's service (`PollCanChangeTheFuture`,
  `PollMattersExactly`); a device known only from results is not forgotten (`MembersExactly`).
- A snapshot that prunes a lapsed session hides it from `service`, which then retries the
  commands instead of failing them (`SnapshotChangesTheOutcome`, `LapsedSessionFailsExactly`).
- A runtime on trial that stages another update overwrites its own slot and can be committed
  with untried contents (`StagingOnTrialBreaksSafety`). A save of the boot state cut short while
  slot B is active makes slot A active, whatever an update has put there
  (`TornMarkBreaksSafety`). A start cut short while it seeds slot A, once the scripts are there,
  is never made good (`TornSeedBreaksSafety`). The guard rules out an update begun in a trial, and
  a start that finds slot A active, its script there, and written by an update or a cut start
  since it was last seeded or tried; that is sufficient and necessary (`GuardIsExact`,
  `CarelessStartExactly`).
- The gateway's own patches to "sent" and "requested" can overwrite a claim that has already
  attached (`OwnPatchUndoes`, `UndoneExactly`).
- A sensor packet can be lost without being counted, if the sender empties a full queue while the
  put is about to evict (`LostExactly`).
- A status returned by a failed send can stand behind a newer one, or evict it
  (`LateReturnExactly`, `NewestExactly`).
- A uid written with separators keys the presence table differently in discovery than on the
  control path (`KeysAgreeExactly`).

## Model

| member | source | states |
|---|---|---|
| `Presence.MakeConfig` | newhorizons_gateway/state.py:16-39 | every window is at least one second and a device is never forgotten before it is flagged disconnected |
| `PresenceLaws.WindowsAreKept` | newhorizons_gateway/state.py:16-39 | a window of a second or more is in force as asked for; no attach window means twenty seconds, and devices are kept at least as long as they can go stale |
| `GatewayStateTable.GatewayState.RecordFindmeRequest` | newhorizons_gateway/state.py:45-80 | puts the request at the head of the 120-entry log, dropping the oldest, and updates the device's own record unless the uid is empty; nothing else changes |
| `GatewayStateTable.GatewayState.JudgeControl` | newhorizons_gateway/state.py:115-161 | a frame other than a result sets the connected flag and is liveness; a result does so only by a FindMe block; a switch command's result never does |
| `GatewayStateTable.GatewayState.RecordControl` | newhorizons_gateway/state.py:82-161 | the whole new table after a control frame: flag, last-seen time and claim, as the verdict on the frame says |
| `PresenceLaws.AnswerDecides` | newhorizons_gateway/state.py:115-169 | an answer that says attached here connects and refreshes the device, one that names another gateway or state disconnects it and keeps its last-seen time, any other changes neither |
| `PresenceLaws.ReportDecides` | newhorizons_gateway/state.py:118-152 | a report of another kind sets the flag it is told and refreshes |
| `PresenceLaws.OthersUntouched` | newhorizons_gateway/state.py:82-228 | a call about one device leaves every other device and the request log alone |
| `PresenceLaws.AttachesMeans` | newhorizons_gateway/state.py:115-198 | the calls that connect a device, in terms of their payloads |
| `PresenceLaws.ReleasesMeans` | newhorizons_gateway/state.py:115-208 | the calls that disconnect it, likewise |
| `PresenceLaws.EvidenceMeans` | newhorizons_gateway/state.py:115-228 | the calls that are signs of life, likewise |
| `GatewayStateTable.GatewayState.RecordHeartbeat` | newhorizons_gateway/state.py:171-198 | a heartbeat connects, refreshes and settles the device's claim |
| `GatewayStateTable.GatewayState.RecordDisconnect` | newhorizons_gateway/state.py:200-208 | the device is flagged disconnected and nothing else changes |
| `GatewayStateTable.GatewayState.RecordUdpPacket` | newhorizons_gateway/state.py:210-228 | a forwarded packet refreshes last-seen without connecting; a dropped one only makes the device known |
| `GatewayStateTable.GatewayState.MarkStaleControl` | newhorizons_gateway/state.py:399-421 | the mark-and-delete loops leave exactly the swept table, whatever order devices are visited in |
| `GatewayStateTable.GatewayState.IsServing` | newhorizons_gateway/state.py:230-234 | sweeps first, and answers for the swept table; unknown devices are not served |
| `GatewayStateTable.GatewayState.ServingCount` | newhorizons_gateway/state.py:236-240 | the number of uids for which is_serving holds at that moment |
| `GatewayStateTable.GatewayState.FindmeAllowsStream` | newhorizons_gateway/state.py:242-262 | the device's own record or the newest matching logged request grants admission inside the window |
| `PresenceHistory.RunIsConsistent` | newhorizons_gateway/state.py:82-240 | on every run, a connected device has a last-seen time and no empty uid is stored |
| `PresenceHistory.SeenMatchesHistory` | newhorizons_gateway/state.py:151-152 | on every run, the stored last-seen time is fresh exactly when some evidence in the history is, pruning included |
| `PresenceHistory.ConnectedMatchesHistory` | newhorizons_gateway/state.py:82-240 | the connected flag is set exactly when some call attached the device, none released it since, and each sweep since then found fresh evidence |
| `PresenceHistory.ServedExactly` | newhorizons_gateway/state.py:230-234 | is_serving at t, over every run: an unreleased, never lapsed attachment and evidence at most control_stale_sec old; both directions |
| `PresenceLaws.AnswerReleases` | newhorizons_gateway/state.py:136-140 | over every run, from an answer that names another gateway or denies being attached on, the device is not served until it attaches again |
| `PresenceHistory.SteadyHeartbeatsServe` | newhorizons_gateway/state.py:18-23 | a device with heartbeats never more than control_stale_sec apart and no release is served throughout |
| `PresenceHistory.CountIsServed` | newhorizons_gateway/state.py:236-240 | the connected devices after a sweep are exactly the uids for which is_serving holds, and equally many |
| `PresenceHistory.SweepsCompose` | newhorizons_gateway/state.py:399-421 | a sweep at t1 followed by one at t2 leaves what the sweep at t2 alone leaves |
| `PresenceHistory.SweepKeepsConnected` | newhorizons_gateway/state.py:25-39 | a sweep never removes a device it leaves connected |
| `PresenceHistory.ForgottenExactly` | newhorizons_gateway/state.py:409-421 | a sweep forgets a device exactly when it has an activity time and all of them are overdue; one with neither is never forgotten |
| `PresenceMembership.RecordMatchesHistory` | newhorizons_gateway/state.py:409-421 | over every run, a device's record knows of exactly the activity since the call that made it |
| `PresenceMembership.MembersExactly` | newhorizons_gateway/state.py:399-421 | over every run, a device is in the table exactly when some call entered it and no sweep since found activity of it that was all overdue; with no activity it stays |
| `PresenceHistory.PollMattersExactly` | newhorizons_gateway/state.py:218-240 | over every run, an extra poll never adds service later and removes it exactly when evidence had lapsed at the poll and nothing attached the device since |
| `PresenceHistory.PollCanChangeTheFuture` | newhorizons_gateway/state.py:218-234 | concrete runs that differ by one status poll and end with the device served in one and not in the other |
| `PresenceHistory.LogStaysOrdered` | newhorizons_gateway/state.py:42-64 | on every run the request log is newest first and at most 120 long |
| `PresenceHistory.FirstMatchDecides` | newhorizons_gateway/state.py:254-261 | on a newest-first log, returning at the first match equals asking whether any entry grants |
| `PresenceHistory.AdmissionExactly` | newhorizons_gateway/state.py:242-262 | over every run, a stream is admitted exactly when a request still held, in the record or in the log, grants it |
| `PresenceHistory.HeldRequestsAreReal` | newhorizons_gateway/state.py:45-80 | every accepted request held was really made, by that device from that host at that time |
| `PresenceHistory.AdmissionNeedsRequest` | newhorizons_gateway/state.py:242-262 | no admission without a matching accepted request inside the window |
| `PresenceAdmission.LogIsNewest` | newhorizons_gateway/state.py:42-64 | over every run, the log is exactly the newest 120 requests ever made |
| `PresenceAdmission.RecordIsLatest` | newhorizons_gateway/state.py:65-80 | over every run, a device's record holds its latest request unless a sweep forgot the device since |
| `PresenceAdmission.AdmittedExactly` | newhorizons_gateway/state.py:242-262 | over every run, a stream is admitted exactly when some accepted request inside the window was followed by fewer than 120 others, or is the device's latest and no sweep forgot the device since |
| `GatewayStateTable.GatewayState.CreateClaim` | newhorizons_gateway/state.py:264-281 | adds a created claim with the floored time to live, at the end unless the id is known |
| `Claims.CreatedIsPending` | newhorizons_gateway/state.py:264-281 | a new claim is reported pending, after all others, until exactly its time to live has passed |
| `GatewayStateTable.GatewayState.UpdateClaim` | newhorizons_gateway/state.py:283-291 | sets the state of the claim with this id, if there is one, and says whether there is |
| `GatewayStateTable.GatewayState.FailClaimDelivery` | newhorizons_gateway/state.py:293-304 | fails the claim unless it is unknown or attached |
| `Claims.FailureFails` | newhorizons_gateway/state.py:293-304 | a delivery failure fails its claim unless it has attached, and no other |
| `GatewayStateTable.GatewayState.ActiveClaim` | newhorizons_gateway/state.py:423-437 | finds the first live claim of the device and times out exactly the overdue ones before it |
| `Claims.LookupTimesOut` | newhorizons_gateway/state.py:423-437 | a lookup times out each overdue claim of the device with no live one before it, attached and failed ones aside; with no live claim an attachment attaches none |
| `GatewayStateTable.GatewayState.AttachActiveClaim` | newhorizons_gateway/state.py:439-447 | attaches that claim and tags the device with its id |
| `Claims.EarnedClaimAttaches` | newhorizons_gateway/state.py:439-447 | an attachment attaches the device's first claim that has not expired, failed or timed out, and only that |
| `ClaimHistory.AttachmentEarns` | newhorizons_gateway/state.py:82-198 | every call that attaches a device attaches that claim and tags the device with its id |
| `GatewayStateTable.GatewayState.PendingClaims` | newhorizons_gateway/state.py:321-331 | the unexpired, unsettled claims, in order |
| `Claims.PendingExactly` | newhorizons_gateway/state.py:321-331 | the pending claims are those that neither expired nor attached, failed or timed out |
| `ClaimHistory.CallMovesClaims` | newhorizons_gateway/state.py:264-313 | one call that does not patch a claim never moves it out of attached, failed or timed out, and attaches it only on its own device's evidence |
| `ClaimHistory.SwitchReplyEarnsNothing` | newhorizons_gateway/state.py:115-117 | the result of findme_switch_gateway never attaches a claim |
| `ClaimHistory.ClaimLifecycle` | newhorizons_gateway/state.py:264-447 | over every run in which no patch names the claim, whatever is done to others: attached is final, failed and timed out never attach, and if it attaches it was earned while unexpired |
| `ClaimHistory.AttachedWasEarned` | newhorizons_gateway/state.py:439-447 | over every run, the gateway's own patches included, a claim that ends up attached was earned by its own device while unexpired, unless a patch said so |
| `ClaimHistory.UndoneExactly` | newhorizons_gateway/state.py:283-291 | over every run, a settled claim is undone if and only if a patch to a state that is not settled lands on it |
| `ClaimHistory.OwnPatchUndoes` | newhorizons_gateway/operations.py:194-197 | a run in which a heartbeat lands between the gateway's own two patches: the claim attaches, and the second patch takes it back |
| `ClaimHistory.LookupIsInvisible` | newhorizons_gateway/state.py:306-331 | an extra lookup, with the timeouts it records, never changes which claims are reported pending or active at any later time |
| `Lan.Gateway.Admit` | newhorizons_gateway/main.py:204-233 | a heartbeat, or an admitted stream packet, of an allowed device attaches it, opens its session and remembers its host; anything else changes nothing |
| `Lan.Gateway.Settle` | newhorizons_gateway/main.py:234-239 | what is forwarded upstream, and the packet's effect on presence |
| `Lan.Gateway.OnUdpPacket` | newhorizons_gateway/main.py:198-239 | a binary packet amounts to the listed presence calls, in order, and to a session call exactly when it attaches |
| `Lan.Gateway.OnControlFrame` | newhorizons_gateway/main.py:161-183 | a JSON frame of an allowed device opens its session, then is an ack, or a result for the dispatcher, and at most one presence call; unknown types are no more than the session |
| `LanLaws.DeniedDoesNothing` | newhorizons_gateway/main.py:204-239 | a datagram of a denied device is no evidence, attaches nothing, opens no session, leaves the known hosts alone and is not forwarded |
| `LanLaws.WelcomeExactly` | newhorizons_gateway/main.py:204-233 | a packet of an allowed device that is a heartbeat, or a stream packet FindMe grants or its known host sent, attaches it, opens its session and makes its host known; any other does none of the three |
| `LanLaws.ForwardedExactly` | newhorizons_gateway/main.py:234-239 | a packet goes upstream exactly if its device is allowed, it is no heartbeat, and it is a stream packet or its device is served |
| `LanLaws.PacketLeaves` | newhorizons_gateway/main.py:234-239 | what a forwarded or dropped packet leaves in the presence table |
| `LanLaws.PacketPolls` | newhorizons_gateway/main.py:234 | a packet that is no stream packet sweeps the table, after it attached and before it counts; no other packet does |
| `LanLaws.FrameExactly` | newhorizons_gateway/main.py:161-183 | which frames are presence calls, which reach the dispatcher, and that all of them open the session |
| `Lan.Gateway.HearFrame` | newhorizons_gateway/main.py:165-181 | the dispatcher's half of a frame |
| `Lan.Gateway.RecordFrame` | newhorizons_gateway/main.py:174-182 | the presence table's half of a frame |
| `Lan.Gateway.OnDeliveryTimeouts` | newhorizons_gateway/main.py:103-110 | commands given up on fail the claims of the switch commands among them, and no others |
| `LanLaws.GivenUpSwitchFails` | newhorizons_gateway/main.py:103-110 | a claim fails exactly if the switch to it was among the commands given up on and it has not attached |
| `Lan.Gateway.ServiceCommands` | newhorizons_gateway/udp_control.py:144-146 | a service pass, with its callbacks' effect on the claims |
| `Lan.DeliveryIsHonest` | newhorizons_gateway/main.py:161-239 | whatever reaches a gateway is evidence of the device only if the device was attached to it when the datagram was sent |
| `Lan.NoFlip` | newhorizons_gateway/state.py:123-140 | over every run of the LAN, once a device has been away from a gateway for the delivery delay plus control_stale_sec, nothing makes that gateway serve it |
| `Lan.AtMostOneServes` | newhorizons_gateway/state.py:123-140 | while a device stays with one gateway, from that delay on no other gateway of the LAN serves it |
| `LanService.CallOfDelivery` | newhorizons_gateway/main.py:161-239 | each presence call of a gateway comes from one delivery, at its time, and disconnects a device only if that delivery does |
| `LanService.SteadyBeatsServe` | newhorizons_gateway/main.py:206-218 | over every run, a gateway that hears a device's heartbeats at most control_stale_sec apart, and is not told of its leaving, serves it |
| `LanService.ExactlyOneServes` | newhorizons_gateway/state.py:123-140 | over every run, a device that stays with one gateway and keeps beating is served by that gateway and by no other, from the delay on |
| `LanLaws.DeniedIsNeverServed` | newhorizons_gateway/main.py:161-239 | over every run of the LAN, a device whose every datagram a gateway denies is never served there and never has a session there |
| `LanLaws.AwayUntilAttached` | newhorizons_gateway/state.py:136-140 | over every run of the LAN, from an answer on that says a device is attached elsewhere or nowhere, the gateway does not serve it until it attaches again |
| `Lan.AttachingIsHeard` | newhorizons_gateway/main.py:161-233 | whatever attaches a device in the presence table opens or refreshes its session at the same moment |
| `Lan.AttachedIsReachable` | newhorizons_gateway/main.py:161-233 | over every run, a device that attached within the session TTL can be sent commands, unless it was dropped or a transmission to it failed since |
| `DeviceUid.NormalizedIsAKey` | newhorizons_gateway/udp_control.py:13-17 | normalising is idempotent, and a normalised uid is its own key in the presence table too |
| `DeviceUid.SeparatorsDoNotMatter` | newhorizons_gateway/udp_control.py:14 | colons, dashes and spaces anywhere do not change the device meant |
| `DeviceUid.CaseDoesNotMatter` | newhorizons_gateway/udp_control.py:14 | nor does the case of any letter, for either table |
| `DeviceUid.KeysAgreeExactly` | newhorizons_gateway/state.py:46 | the dispatcher's key and the presence table's key of one raw spelling agree exactly when it has no inner separator and is not the all-zero uid |
| `UdpDispatcherTable.UDPCommandDispatcher.SetSession` | newhorizons_gateway/udp_control.py:48-54 | records address and time of the device, unless the uid is empty |
| `UdpDispatcherTable.UDPCommandDispatcher.DropSession` | newhorizons_gateway/udp_control.py:56-63 | drops the session if no address is given or the address is the session's |
| `UdpDispatcherTable.UDPCommandDispatcher.PruneStaleSessions` | newhorizons_gateway/udp_control.py:220-228 | drops exactly the sessions silent for longer than the TTL and returns exactly their uids |
| `UdpDispatcherTable.UDPCommandDispatcher.SendEntry` | newhorizons_gateway/udp_control.py:200-218 | a transmission counts as an attempt whether or not it succeeds; a failed one drops the session it went to |
| `UdpDispatcherTable.UDPCommandDispatcher.Enqueue` | newhorizons_gateway/udp_control.py:168-197 | the next non-zero 16-bit number, and a new entry at the end or in the place of one with the same key |
| `UdpDispatcherTable.UDPCommandDispatcher.QueueCommand` | newhorizons_gateway/udp_control.py:168-198 | queues and sends once; keeps the ledger invariant |
| `UdpDispatcherTable.UDPCommandDispatcher.SendCommand` | newhorizons_gateway/udp_control.py:65-75 | queues exactly when the device has a live session |
| `UdpDispatcherTable.UDPCommandDispatcher.SendCommandTo` | newhorizons_gateway/udp_control.py:77-88 | queues exactly when uid, host and port are usable, session or not |
| `UdpLaws.SendToDoes` | newhorizons_gateway/udp_control.py:77-88 | a command to a given address is queued for that address, exactly when uid, host and port are usable |
| `UdpLaws.QueueingDoes` | newhorizons_gateway/udp_control.py:168-198 | the next number, and an entry as the command was given, tried once, at the end or in the place of the one that had the key |
| `UdpLaws.KeyOfCommand` | newhorizons_gateway/udp_control.py:184 | a command is keyed by its request id if it has one and by its number if not |
| `UdpLaws.QueueingCounts` | newhorizons_gateway/udp_control.py:200-218 | a first transmission counts as sent if the socket took it and drops the session at its address if not |
| `UdpLaws.RetryDoes` | newhorizons_gateway/udp_control.py:200-218 | a retry counts as retried, not as sent, and drops the session likewise |
| `UdpLaws.LeavingDoes` | newhorizons_gateway/udp_control.py:56-63 | a device that leaves loses its session unless the address it leaves is not its own; no other device does |
| `UdpDispatcherTable.UDPCommandDispatcher.HandleAck` | newhorizons_gateway/udp_control.py:90-106 | marks the first entry of the device that matches by request id or by number |
| `UdpDispatcherTable.UDPCommandDispatcher.FindAcked` | newhorizons_gateway/udp_control.py:98-106 | the scan stops at the first matching entry |
| `UdpDispatcherTable.UDPCommandDispatcher.MarkAcked` | newhorizons_gateway/udp_control.py:162-166 | an entry is counted as acked once only |
| `UdpLaws.AckDoes` | newhorizons_gateway/udp_control.py:90-106 | an ack marks the first command it fits, counts it if it was unacked and changes no other; one that fits none does nothing |
| `UdpLaws.AckSettlesItsCommand` | newhorizons_gateway/udp_control.py:90-166 | an ack that echoes a pending command from the last 65535 acks it and no other, and over every later run that command is never sent again or reported as timed out |
| `UdpDispatcherTable.UDPCommandDispatcher.HandleResult` | newhorizons_gateway/udp_control.py:108-114 | a result removes the entry under its key, if any |
| `UdpLaws.ResultRemoves` | newhorizons_gateway/udp_control.py:108-114 | a result takes its command out of the table, and no other, and settles it as answered |
| `UdpLaws.StrayResultDoesNothing` | newhorizons_gateway/udp_control.py:108-114 | a result for no pending command does nothing |
| `UdpDispatcherTable.UDPCommandDispatcher.Service` | newhorizons_gateway/udp_control.py:116-146 | the whole pass, with the callbacks made being exactly the commands given up on, in order |
| `UdpDispatcherTable.UDPCommandDispatcher.VisitOne` | newhorizons_gateway/udp_control.py:121-143 | the loop body: keep, drop, give up or resend one entry |
| `UdpDispatcherTable.UDPCommandDispatcher.Snapshot` | newhorizons_gateway/udp_control.py:148-160 | prunes sessions as a side effect and reports the sizes |
| `UdpLedger.ApplyKeeps` | newhorizons_gateway/udp_control.py:65-228 | every operation keeps the invariant: unique keys, one fate per command, counters, attempts and times tied to the history |
| `UdpLedger.RunKeeps` | newhorizons_gateway/udp_control.py:65-228 | so does every run |
| `UdpDelivery.Ledger` | newhorizons_gateway/udp_control.py:90-198 | over every run, queued = pending + answered + dropped after ack + timed out + overwritten, with the counters equal to those sets' sizes and one callback per timeout |
| `UdpDelivery.SettledStaysSettled` | newhorizons_gateway/udp_control.py:116-166 | a command's fate is final; an acked command is never sent again and never reported as timed out |
| `UdpDelivery.ServiceDecidesEach` | newhorizons_gateway/udp_control.py:116-143 | one service call decides each command by its own entry and the sessions stale at that call, although the loop changes the table and the sessions on the way |
| `UdpDelivery.ExpiryRules` | newhorizons_gateway/udp_control.py:121-143 | an acked command without expiry stays; an expired one goes at the first service call; an explicit expiry lifts the cap on attempts |
| `UdpLaws.ExpiredExactly` | newhorizons_gateway/udp_control.py:230-237 | a command is expired from the first whole millisecond past its expiry on |
| `UdpLaws.ServiceKeepsTrying` | newhorizons_gateway/udp_control.py:116-143 | short of an ack, expiry, lapse and thirty attempts, a service call keeps a command and sends it again exactly if it was last sent half a second ago |
| `UdpLaws.ServiceGivesUp` | newhorizons_gateway/udp_control.py:123-146 | in each of the other cases it gives an unacked command up and reports it |
| `UdpLaws.PassReports` | newhorizons_gateway/udp_control.py:121-141 | the loop reports every command it gives up on |
| `UdpLaws.VisitRetries` | newhorizons_gateway/udp_control.py:142-143 | what the loop sends counts as retried, exactly when it is due and the socket takes it |
| `UdpDelivery.SnapshotHidesStaleness` | newhorizons_gateway/udp_control.py:148-150 | after an earlier pruning, a service call fails just the commands whose session lapsed in between |
| `UdpSessions.SessionMatchesHistory` | newhorizons_gateway/udp_control.py:220-228 | over every run, a session not lost otherwise is there exactly until a pruning call finds it lapsed |
| `UdpSessions.LapsedSessionFailsExactly` | newhorizons_gateway/udp_control.py:116-132 | over every run, a silent device's commands fail at a service call past the TTL if and only if no other pruning call found the lapse first |
| `UdpSessions.AcceptedExactly` | newhorizons_gateway/udp_control.py:65-75 | over every run, a command is accepted exactly when the device was heard of within the TTL and no lapse was found before |
| `UdpLaws.NewestAddressIsUsed` | newhorizons_gateway/udp_control.py:48-54 | over every run, a device's session is at the address it was last heard from |
| `UdpLaws.SendGoesToNewest` | newhorizons_gateway/udp_control.py:65-75 | over every run, a command is queued for the address the device was last heard from, if that was within the TTL and no lapse was found since, and not queued otherwise |
| `UdpSessions.SnapshotChangesTheOutcome` | newhorizons_gateway/udp_control.py:148-150 | two concrete runs that differ by one snapshot: the command fails in one and is kept in the other |
| `UdpDelivery.RetryBounds` | newhorizons_gateway/udp_control.py:133-143 | on every run, n transmissions span at least (n-1)/2 seconds, and there are at most 30 without an expiry |
| `UdpDelivery.AttemptsCountTicks` | newhorizons_gateway/udp_control.py:142-143 | with service calls half a second apart an unacked command's attempts count those calls |
| `UdpDelivery.UnackedIsGone` | newhorizons_gateway/udp_control.py:133-141 | a command without expiry is acked or gone after 31 - attempts such calls |
| `UdpDelivery.SeqNeverZero` | newhorizons_gateway/udp_control.py:171-173 | after n commands the sequence number is ((n-1) mod 65535) + 1 |
| `UdpDelivery.SeqsRepeatExactly` | newhorizons_gateway/udp_control.py:171-173 | two commands share a number exactly when a multiple of 65535 apart |
| `UdpDelivery.SeqsDiffer` | newhorizons_gateway/udp_control.py:168-198 | commands pending from the last 65535 all have different numbers |
| `UdpDelivery.AckMarksItsCommand` | newhorizons_gateway/udp_control.py:90-106 | within that window an ack marks the command it echoes and no other |
| `BootState.NormalizeIsStable` | newhorizons_gateway/boot_state.py:146-163 | any record on disk loads as a usable slot, and a saved one loads unchanged |
| `BootState.LoadRepairs` | newhorizons_gateway/boot_state.py:81-89 | loading keeps every usable field and repairs just the others: an unknown slot becomes slot A if it was to be active and none otherwise; an unreadable file is slot A active, nothing pending |
| `BootState.TransitionsAreCoherent` | newhorizons_gateway/boot_state.py:104-141 | mark, commit and rollback keep active, pending, previous and phase consistent; a mark names its target version, a rollback undoes it and gives a reason, a commit completes it |
| `BootState.GatewayBootStateStore.Save` | newhorizons_gateway/boot_state.py:95-102 | saves the normalised record; a write that does not complete leaves a file that cannot be read |
| `BootState.GatewayBootStateStore.MarkPendingSwitch` | newhorizons_gateway/boot_state.py:108-120 | the other slot becomes pending, with the active one to fall back on; torn, the file loads as slot A active |
| `BootState.GatewayBootStateStore.CommitPending` | newhorizons_gateway/boot_state.py:122-131 | the pending slot becomes active; torn, the file loads as slot A active |
| `BootState.GatewayBootStateStore.RollbackPending` | newhorizons_gateway/boot_state.py:133-141 | the previous slot becomes active again and the reason is never empty; torn, the file loads as slot A active |
| `Bootloader.StepKeepsOrder` | newhorizons_gateway/bootloader.py:140-187 | every step of bootloader, runtime and power, torn saves among them, keeps the boot state coherent and the trials accounted for |
| `Bootloader.AlwaysOrderly` | newhorizons_gateway/bootloader.py:140-187 | so does every run: each trial ends in exactly one commit or rollback, or is cut off by a power loss, in a save or not, or still going |
| `Bootloader.TrialEnds` | newhorizons_gateway/bootloader.py:140-158 | a commit rests on health its own process wrote after the trial's clear and makes the tried slot active; a torn save makes slot A active; any other end leaves the active slot alone |
| `Bootloader.LaunchStarts` | newhorizons_gateway/bootloader.py:119-138 | over every run, a launch clears the health file and starts the slot loaded as active, or the pending one on trial, told the target version if there is one and the slot's own if not |
| `Bootloader.StartSeeds` | newhorizons_gateway/bootloader.py:68-86 | a start copies the bundle to slot A exactly when its start script is missing, and otherwise leaves the disk alone |
| `Bootloader.UpdateStages` | newhorizons_gateway/update_manager.py:296-399 | an update writes just the inactive slot, and the switch it stages is to that slot and its version, with the active one to fall back on and no health report from before |
| `Bootloader.CommitNeedsReport` | newhorizons_gateway/boot_state.py:40-45 | a trial is committed only on a ready report that names the slot on trial and the version waited for; its process then goes on running, as after no other end |
| `Bootloader.ExitLeads` | newhorizons_gateway/bootloader.py:162-187 | where the bootloader goes when a process exits: to the staged trial, back to the top, or to its end |
| `Bootloader.LaunchesAreVetted` | newhorizons_gateway/bootloader.py:160-187 | over every careful run, cut starts and torn saves included, the process that a launch of the active slot starts runs in the slot that was loaded as active, and that slot holds a copy bootstrapped whole or passed in a trial; staging writes only the inactive slot |
| `Bootloader.RunningIsVetted` | newhorizons_gateway/bootloader.py:160-187 | after any careful run, whatever runs and is not on trial runs from a slot whose copy was bootstrapped whole or passed a trial |
| `Bootloader.GuardIsExact` | newhorizons_gateway/bootloader.py:68-86 | after any careful run, a step leaves every careful continuation safe if and only if it is careful |
| `Bootloader.CarelessStartExactly` | newhorizons_gateway/bootloader.py:68-86 | a start is careless exactly when slot A is active with its script there, and an update or a cut start wrote it since it was last seeded or tried |
| `Bootloader.WrittenMatchesHistory` | newhorizons_gateway/update_manager.py:296-333 | the slots recorded as written are exactly those with a write in the history that no whole seeding or passed trial followed |
| `Bootloader.TearIsHarmlessOnA` | newhorizons_gateway/boot_state.py:81-102 | while slot A is active, a torn save only loses the switch it was saving |
| `Bootloader.TornMarkBreaksSafety` | newhorizons_gateway/boot_state.py:95-102 | a run with no update begun in a trial in which a torn save makes untried contents of slot A active |
| `Bootloader.TornSeedBreaksSafety` | newhorizons_gateway/bootloader.py:70-84 | the shortest failing run: a first start cut after the scripts were copied, whose half copy the next start launches |
| `Bootloader.StagingOnTrialBreaksSafety` | newhorizons_gateway/update_manager.py:296-316 | a run in which a runtime on trial stages an update over itself and is then committed |
| `Bootloader.TrialCommitsExactly` | newhorizons_gateway/bootloader.py:133-153 | a trial can be committed exactly when its own runtime has reported ready; the version it reports is what it was told and decides nothing |
| `BootloaderLoop.GatewayBootloader.AwaitPendingHealth` | newhorizons_gateway/bootloader.py:140-158 | the first look that finds the runtime healthy and reachable commits, the first that finds it gone rolls back, and with no such look the timeout does; only a power loss in that save, or the runtime's own, ends it otherwise |
| `BootloaderLoop.GatewayBootloader.LookOn` | newhorizons_gateway/bootloader.py:145-153 | the polling loop stops at the first look that decides and does what that look found |
| `BootloaderLoop.GatewayBootloader.Look` | newhorizons_gateway/bootloader.py:146-152 | one look: a rollback if the process is gone, a commit if it is healthy and its web port answers, else nothing |
| `BootloaderLoop.DecidingIsFirst` | newhorizons_gateway/bootloader.py:145-153 | the look the loop stops at is the first that decides |
| `BootloaderLoop.LivedJoins` | newhorizons_gateway/bootloader.py:162-169 | what a running process can do it does, one thing after the other |
| `BootloaderLoop.GatewayBootloader.ServeActive` | newhorizons_gateway/bootloader.py:162-172 | launches the active slot, lets it do all it can up to its exit, and goes on to the trial exactly when a switch is staged by then |
| `BootloaderLoop.GatewayBootloader.TryPending` | newhorizons_gateway/bootloader.py:174-187 | runs the trial and then the committed runtime to its exit; the outer loop goes round after a rollback or when another switch is staged, and ends with none staged |
| `BootloaderLoop.GatewayBootloader.RunForeground` | newhorizons_gateway/bootloader.py:160-187 | one start, cut short anywhere: it makes only possible steps; in a careful history every process started for the active slot runs a vetted copy; it returns only with no switch staged, and else launches the active slot once a round |
| `BootloaderLoop.GatewayBootloader.Loop` | newhorizons_gateway/bootloader.py:162-187 | the outer loop launches the active slot once in every round until it returns with no switch staged, a slot is missing or the power goes |
| `ResultChunks.FilledIsWhole` | newhorizons_gateway/result_chunks.py:56-70 | indices stay in range and never exceed the total, so a full count is full coverage and no part is missing on joining |
| `ResultChunks.AddKeepsSound` | newhorizons_gateway/result_chunks.py:33-81 | stored buffers always hold fewer parts than they expect, all in range |
| `ResultChunks.ResultChunkReassembler.Purge` | newhorizons_gateway/result_chunks.py:28-31 | drops exactly the buffers older than the TTL |
| `ResultChunks.ResultChunkReassembler.Store` | newhorizons_gateway/result_chunks.py:56-63 | puts the part into its buffer, a new one when there is none or the total differs |
| `ResultChunks.ResultChunkReassembler.Join` | newhorizons_gateway/result_chunks.py:70 | joins the parts in index order |
| `ResultChunks.ResultChunkReassembler.Add` | newhorizons_gateway/result_chunks.py:33-81 | a result is handed over exactly when a whole text is complete and parses: that text's payload, with its request and device; the buffers are the new ones either way |
| `ResultChunks.ReassemblesExactly` | newhorizons_gateway/result_chunks.py:33-81 | for every cutting, order, repetition and interleaving, the text comes out exactly on the arrival of the last missing part, and whole |
| `ResultChunks.LateChunkStartsOver` | newhorizons_gateway/result_chunks.py:55-63 | a chunk more than the TTL after the last of its request, or with another total, starts a buffer of its own |
| `ResultChunks.OtherBuffers` | newhorizons_gateway/result_chunks.py:28-31 | a chunk leaves another request's buffer alone while it is no older than the TTL and drops it once it is |
| `ResultChunks.UnusableFrames` | newhorizons_gateway/result_chunks.py:40-52 | frames without request id, numbers or text, or with a number out of range, do nothing |
| `ResultChunks.LastNamedSender` | newhorizons_gateway/result_chunks.py:58-63 | a result is attributed to the device its last chunk names, or to the buffer's if it names none |
| `Versioning.ParseRoundTrip` | newhorizons_gateway/versioning.py:21-41 | parsing a written version returns its numbers and identifiers, for all naturals and identifiers, with or without v, blanks and build; only a single empty identifier is lost, and a build part broken over lines makes the text read as 0.0.0 |
| `Versioning.ShortVersionReads` | newhorizons_gateway/versioning.py:21-41 | missing numbers read as 0, and what follows the numbers up to a dash or plus sign is passed over |
| `Versioning.NoNumberReads` | newhorizons_gateway/versioning.py:21-41 | text that does not begin with a number reads as 0.0.0 |
| `Text.DecimalRoundTrip` | newhorizons_gateway/versioning.py:39 | reading a written number gives it back |
| `Text.JoinRoundTrip` | newhorizons_gateway/versioning.py:40-41 | splitting joined identifiers gives them back |
| `Versioning.CompareParsed` | newhorizons_gateway/versioning.py:53-65 | the zip loop computes lexicographic order on identifier lists, shorter first |
| `Versioning.CompareVersions` | newhorizons_gateway/versioning.py:53-65 | the sign of the order of the parsed texts |
| `Versioning.IsNewerVersion` | newhorizons_gateway/versioning.py:68-69 | newer means strictly greater |
| `Versioning.CompareIsTotalPreorder` | newhorizons_gateway/versioning.py:44-65 | on all texts the comparison is antisymmetric, transitive and total |
| `Versioning.CompareIsSemver` | newhorizons_gateway/versioning.py:44-65 | on canonical versions it is the precedence of section 11 of Semantic Versioning 2.0.0, and only equal versions tie |
| `AutoUpdate.RequiredUpdateAutoApplier.Service` | newhorizons_gateway/auto_update.py:52-75 | one poll of the timer and whether it starts an update |
| `AutoUpdate.RequiredUpdateAutoApplier.Status` | newhorizons_gateway/auto_update.py:47-50 | which of the three values is reported, exactly when |
| `AutoUpdate.StartsOnlyWhenIdle` | newhorizons_gateway/auto_update.py:61-75 | a start comes at least idle_sec after an idle poll, itself past the boot grace, and every poll in between with no update running saw a required update and no served device |
| `AutoUpdate.StartsAreSpaced` | newhorizons_gateway/auto_update.py:52-75 | the first start waits out boot_grace + idle_sec, and any two are at least retry_sec + idle_sec apart |
| `AutoUpdate.StartsAreRare` | newhorizons_gateway/auto_update.py:3-7 | n starts take at least boot_grace + idle + (n-1)(retry + idle) seconds |
| `AutoUpdateStarts.StartsExactly` | newhorizons_gateway/auto_update.py:52-75 | over every timely run, a poll starts an update if and only if it is ready (no update running, one required, idle, past grace and block) and a poll at least idle_sec before was, with every poll between required and idle and no start |
| `AutoUpdateStarts.BlockMatches` | newhorizons_gateway/auto_update.py:52-60 | over every run, the block is retry_sec from the first poll after the latest start that finds no update running |
| `AutoUpdateStarts.MarkMatches` | newhorizons_gateway/auto_update.py:61-75 | over every timely run, the idle mark is the time of the earliest poll since which the gateway has been ready, and is there exactly when one has been |
| `Queueing.DropOldestQueue.Put` | newhorizons_gateway/queueing.py:15-25 | with no get in between: the newest cap items remain and one is dropped exactly when the queue was full; the loop ends after at most one eviction |
| `Queueing.DropOldestQueue.Get` | newhorizons_gateway/queueing.py:27-28 | returns the oldest held item |
| `Queueing.DataQueueConserves` | newhorizons_gateway/queueing.py:10-31 | over every run of whole puts and gets, puts = gets + dropped + held; what is held is the newest items in order; an item is lost only once cap newer ones arrived |
| `InterleavedPut.InterleavedConserves` | newhorizons_gateway/queueing.py:15-28 | over every run with gets in between the steps of a put, puts = gets + dropped + held + lost + the one under way, and what is held is the newest stored items in order |
| `InterleavedPut.LostExactly` | newhorizons_gateway/queueing.py:20-25 | a put loses its item uncounted exactly when gets emptied the full queue before it could evict |
| `Upstream.ControlQueue.DropQueuedControlType` | newhorizons_gateway/upstream_wss.py:207-221 | the queue without that type, in order; the refill never finds it full |
| `Upstream.ControlQueue.Put` | newhorizons_gateway/upstream_wss.py:190-205 | the last cap of (old queue, coalesced) + the new message |
| `Upstream.PutKeepsNewest` | newhorizons_gateway/upstream_wss.py:190-205 | a put leaves the new message last and before it the newest others in order, as many as there is room for; a coalescing put drops just its own type first |
| `Upstream.WithoutJoins` | newhorizons_gateway/upstream_wss.py:207-221 | dropping a type keeps the others, in order |
| `Upstream.StatusPutLeavesNewest` | newhorizons_gateway/upstream_wss.py:103-109 | whatever was queued, a status put leaves exactly one status, the newest |
| `Upstream.FewStatuses` | newhorizons_gateway/upstream_wss.py:303-318 | over every run, failed sends included, at most two statuses are queued or in flight, and at most one if none is put during a send |
| `Upstream.LateReturnExactly` | newhorizons_gateway/upstream_wss.py:313-317 | after a failed send returns a status, one status is queued and it is the newest there was, exactly when none was queued at that moment |
| `Upstream.NewestExactly` | newhorizons_gateway/upstream_wss.py:190-205 | over every run, no status but the latest put is ever queued, if and only if no failed send returns a status that a newer put has overtaken |
| `Upstream.LateReturnExample` | newhorizons_gateway/upstream_wss.py:313-317 | a concrete run that leaves the older status behind the newer one |
| `Upstream.RateWindow.Purge` | newhorizons_gateway/upstream_wss.py:237-241 | the front-popping loop |
| `Upstream.RateWindow.Note` | newhorizons_gateway/upstream_wss.py:223-228 | an event enters the window and old ones leave it |
| `Upstream.RateWindow.Rate` | newhorizons_gateway/upstream_wss.py:137-145 | the reported rate is the purged window's length |
| `Upstream.PurgeIsRecent` | newhorizons_gateway/upstream_wss.py:237-241 | on a time-ordered window, popping old events off the front keeps exactly those of the last second |
| `Upstream.WindowIsRecent` | newhorizons_gateway/upstream_wss.py:223-241 | at every reading the window is exactly the events of the whole history that are at most a second old |
| `TimeService.Int64RoundTrip` | newhorizons_gateway/time_service.py:39-40 | signed 64-bit fields survive packing, and any eight bytes survive unpacking |
| `TimeService.LittleEndian` | newhorizons_gateway/time_service.py:39-40 | the bytes of a signed field stand in the order of their weights, the lowest first |
| `TimeService.ReplyReadsBack` | newhorizons_gateway/time_service.py:55-80 | a reply carries seq and t1 unchanged and t2, t3 exactly when the host clock is valid; packing fails only on a time outside 64 bits |
| `TimeService.WireFormat` | newhorizons_gateway/time_service.py:47-80 | the layout in bytes: which requests are answered, and magic, version, sequence, flags, length and trailer of the reply |
| `TimeService.OffsetAccuracy` | newhorizons_gateway/time_service.py:3-9 | for any clock offset and path delays, the offset computed from the reply's bytes is off by half the path asymmetry, hence at most half the round trip, and exact for equal delays |

## Left out

- UpdateClaim: patches the state only, not the error text that callers also set. What a patch to an arbitrary state does to the life of the claim it names is `UndoneExactly`; `ClaimLifecycle` is about claims that no patch names.
- A delivery-timeout callback that raises, and the result message it also sends upstream.
- GatewayBootStateStore: a load that overlaps another process's save of the same file. Outside a trial the bootloader loads only while no runtime runs, and in one it can overlap only an update that the guard excludes.
- RunForeground: a launch that fails because its slot directory is missing ends the bootloader, as a power loss does; the pid file, virtual environments and process signals are not modelled, nor is a torn health file, which reads as not ready, or a half-installed virtual environment.
- OnUdpPacket: a time request is answered before any of this and touches neither table; the reply is `TimeService`'s.
- Display fields of devices and claims (names, mode, rssi, addresses, ISO timestamps), the sorting in snapshot, and error strings: no decision depends on them.
- last_findme_addr, the denied list and the allow and deny operations: single lookups.
- Sockets, the web socket's connect and backoff, Flask routes, threads and locks: each locked method is one atomic step. A second sender thread left over from a reconnect is not modelled.
- Discovery replies and their priorities, the stream packet parsers and the remote commands: mostly single checks; `Lan` takes a datagram as parsed.
- update_manager's manifest check, download and version choice, and zip and file handling: an update appears as begin, writes, mark or abort. Nothing is claimed about never downgrading, which the code does not promise.
- A gateway id or a timeout changed by reconfiguration while running: both are constants of a run.
- User interface: web UI, console status, TUI and translations.
- Floating-point rounding of clock differences: times are real numbers.
