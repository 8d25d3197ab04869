# Verified model of the shell session control plane

This project models the state machines and parsers behind remote shell sessions
and proves what they keep in every run:

- refresh tokens that rotate, the handlers that rotate them concurrently, the
  client's recovery when a heartbeat is refused, and many processes that share
  one auth profile file (`Lineage`, `RefreshTokens`, `RefreshServer`,
  `AuthRecovery`, `RecoveryTraces`, `AgentHeartbeat`, `SharedProfile`,
  `SharedHeartbeat`, `SharedProfileOneLogin`);
- the hub that pairs agents and viewers (`SignalHub`, `SignalHubRuns`);
- the labels of agents and the streaming parser of terminal titles
  (`AgentLabels`, `LabelWords`, `OscTitles`, `OscStreams`);
- the agent registry with tombstones, the connect handler around it, and how a
  termination reaches the client (`RegistrySpec`, `RegistryRuns`,
  `AgentRegistry`, `AgentConnect`, `TerminationPath`);
- the limiter of failed logins, the replay store and the user-key store
  (`AuthRateLimiter`, `AuthFailureRuns`, `ReplayStore`, `UserKeyStore`);
- the queue of ICE candidates around WebRTC offers (`Negotiator`);
- the signed release manifest, version comparison and ICE server sanitizing
  (`ReleaseManifest`, `ReleaseVersion`, `IceServers`, `IceUrls`).

`Text`, `Results` and `Sequences` hold what several modules share.

Code that updates state in place is a class or a method with loops, proved
against functions on values; the theorems about whole runs are lemmas about
these functions.  The clock is a parameter of every call.  Where a lock is
involved the model takes one locked section as one step, and what is done after
the lock is released (notices of the hub, store calls of a handler) is a
separate step, so that everything else may come in between.

What the proofs showed that the code does not say:

- With 4097 bytes, one more than the constant, lies the longest title sequence
  that no chunking can lose (`OscTitles.LongestSafeSequence`).
- Normalizing a label twice changes it exactly when it is longer than 120
  characters and its 120th is a space (`AgentLabels.NormalizeTwice`).
- The profile always moves forward within a login, and with processes as the
  program starts them all of it stays on one rotation chain, user keys or not
  (`SharedProfileOneLogin.ProgramStaysOnOneChain`).  That a process with a user
  key is given no profile path is what this rests on: it holds exactly as long as
  every process that may write starts from the profile and has no user key
  (`SharedProfileOneLogin.OneChainIffWritersFollow`).
- The heartbeat loop forgets expiry times, so a profile that holds any is taken
  for changed even when its tokens are the ones that just failed
  (`AgentHeartbeat.ReloadSeesChange`).
- A refresh that fails after its token was consumed ends the login: nothing is
  stored in the token's place (`RefreshTokens.RefreshSpendsTheToken`).
- A terminate whose clock was read before another one's moves the stamp back,
  and the retention counts from there (`RegistrySpec.LateTerminateShortensRetention`,
  exactly: `RegistrySpec.StaysTerminatedIff`).
- A connect that fails changes nothing but its own session, up to its removal,
  exactly as long as no other session of the subject misses its last place and
  no terminate-all catches it; the removal then leaves no trace exactly when the
  session would not be live without it (`AgentConnect.FailedConnectRollsBack`).
  All three exceptions happen (`AgentConnect.RegistrationTakesLastPlace`,
  `AgentConnect.TerminateAllCatchesRegistration`,
  `AgentConnect.FailedConnectTakesAnotherDown`).
- Registering a peer of neither role would leave an empty session in the hub
  (`SignalHub.RegisterKeepsSlots`); the program never gets there, since the only
  caller refuses every other role (signaling/websocket.go:61).
- A clock that is ahead can make the failure limiter forget failures that still
  count (`AuthFailureRuns.ClockAheadForgets`): exactly those that were outside the
  window of some later call (`AuthFailureRuns.CountsHistoryIffNoneOvertaken`).
- The replay store forgets in the same way: once a call has read a clock at or past
  a stored expiry, clocks behind it accept the token again
  (`ReplayStore.ClockAheadReopens`, `ReplayStore.ReplayIffSurvives`).
- A search that goes on behind an occurrence is right for the two port markers
  because they never overlap themselves (`IceServers.SearchIsExactIffBorderless`).

Assumptions: tokens are fresh and hashes injective, so a stored token is its
number in the order of issue.  Clocks are arbitrary unless a lemma says so.
Strings are sequences of code points.

## Model

| member | source | states |
|---|---|---|
| `Lineage.OneLoginOneChain` | controlplane/refresh_tokens.go:80-101 | if no token is exchanged twice, the tokens of one login lie on one chain of rotations |
| `Lineage.ChildlessIsNewest` | controlplane/refresh_tokens.go:80-101 | a token that was never exchanged descends from every token of its login |
| `RefreshTokens.RefreshTokenStore.Issue` | controlplane/refresh_tokens.go:31-55 | exactly when subject and lifetime are given and randomness succeeds, the store gains one record under the hash; else it is unchanged |
| `RefreshTokens.RefreshTokenStore.Peek` | controlplane/refresh_tokens.go:57-78 | succeeds exactly on a stored token up to its expiry and reports its subject, without consuming |
| `RefreshTokens.RefreshTokenStore.Consume` | controlplane/refresh_tokens.go:80-101 | a presented token is gone afterwards whatever the outcome; the subject is returned exactly if it was stored and not past its expiry |
| `RefreshTokens.RefreshTokenStore.Cleanup` | controlplane/refresh_tokens.go:103-112 | the deletion loop keeps exactly the tokens that have not expired |
| `RefreshTokens.IssuedTokenLasts` | controlplane/refresh_tokens.go:31-78 | a token issued at a time for a duration is valid up to and including the end of it, as long as it is stored |
| `RefreshTokens.CleanupRemovesExpired` | controlplane/refresh_tokens.go:57-112 | a clean-up takes away exactly the tokens that a peek at its clock calls expired |
| `RefreshTokens.HandleAuthRefresh` | cmd/shellin-control-plane/auth_handlers.go:39-69 | a 200 exactly for a stored token that is not past its expiry at both checks, with a usable entitlement, and a session that can be signed and issued |
| `RefreshTokens.RefreshSucceedsIff` | cmd/shellin-control-plane/auth_handlers.go:48-69 | 401 exactly if the token cannot be spent, 200 and 500 exactly if it can and a new session can or cannot be issued; the new token expires a lifetime after its issue |
| `RefreshTokens.RefreshSpendsTheToken` | cmd/shellin-control-plane/auth_handlers.go:48-69 | a stored token survives exactly if it is refused as expired or for its entitlement; a 200 puts one of the same subject in its place, a 500 puts none, and no other token is touched |
| `RefreshServer.UninterruptedIsHandler` | cmd/shellin-control-plane/auth_handlers.go:39-69 | a handler whose store calls follow each other is that request |
| `RefreshServer.AdvanceShape` | cmd/shellin-control-plane/auth_handlers.go:39-69 | only the last store call of a handler issues a token |
| `RefreshServer.NextKeepsValid` | cmd/shellin-control-plane/auth_handlers.go:39-69 | every step of every handler keeps: stored tokens were never exchanged and no two handlers may exchange the same one |
| `RefreshServer.AtMostOneSuccessor` | cmd/shellin-control-plane/auth_handlers.go:39-69 | in every interleaving of refresh handlers at their store calls a token gets at most one successor, of the same subject |
| `RefreshServer.OneLiveTokenPerLogin` | controlplane/refresh_tokens.go:57-101 | in every interleaving a login has at most one token that is stored or being exchanged |
| `AuthRecovery.DriveIsRecover` | cmd/shellin/agent_auth_recovery.go:11-130 | the recovery taken call by call has the outcome and the calls of the recovery as written |
| `AuthRecovery.RecoveredIsTruthful` | cmd/shellin/agent_auth_recovery.go:11-130 | a recovered session's own access token just passed a heartbeat round, and the mode tells truly where the session came from |
| `AuthRecovery.RecoveryIsShort` | cmd/shellin/agent_auth_recovery.go:11-113 | one recovery makes at most three heartbeat rounds, two refreshes and one exchange |
| `AuthRecovery.TerminatedIffGone` | cmd/shellin/auth_status_errors.go:35-52 | the error is marked as a termination exactly when a heartbeat or registration was refused as gone, and is then not retried |
| `RecoveryTraces.RetryableIff` | cmd/shellin/agent_auth_recovery.go:11-113 | a failure may be retried exactly if nothing was refused as gone, no user key was tried, and the last call was a heartbeat or registration, unless that was the first round and was refused as unauthorized |
| `RecoveryTraces.GivesUpAfterTryingAll` | cmd/shellin/agent_auth_recovery.go:51-112 | without a termination a recovery gives up for good only after its refresh token, the profile and the user key, as far as there are any |
| `RecoveryTraces.RecoversIffLetThrough` | cmd/shellin/agent_auth_recovery.go:11-130 | it succeeds exactly if its last call was a heartbeat or registration that was not refused; its mode tells which call brought the session |
| `RecoveryTraces.CallsFollow` | cmd/shellin/agent_auth_recovery.go:11-130 | the calls of every recovery, exactly: what follows each call is determined by the calls and replies so far, and the recovery ends where nothing follows |
| `AgentHeartbeat.AgentRegistryHeartbeat.SetAuth` | cmd/shellin/agent_registry_heartbeat.go:151-156 | only the two tokens are remembered |
| `AgentHeartbeat.AgentRegistryHeartbeat.PersistAuth` | cmd/shellin/agent_registry_heartbeat.go:158-173 | the tokens are adopted even if the profile cannot be saved |
| `AgentHeartbeat.AgentRegistryHeartbeat.ApplyAuthUpdate` | cmd/shellin/agent_registry_heartbeat.go:87-94 | unchanged, reloaded and refreshed sessions change memory and profile as their mode says |
| `AgentHeartbeat.AgentRegistryHeartbeat.Run` | cmd/shellin/agent_registry_heartbeat.go:96-133 | the loop does one recovery per tick, adopts successes, does nothing after an error that must not be retried, and returns the number of failures since the last success |
| `AgentHeartbeat.StoppedStays` | cmd/shellin/agent_registry_heartbeat.go:96-133 | once stopped, no later tick changes anything |
| `AgentHeartbeat.RetriesCountFailures` | cmd/shellin/agent_registry_heartbeat.go:96-133 | the retry count is the number of failures since the last success, and the loop stops exactly when the last of them must not be retried |
| `AgentHeartbeat.BeatRemembersWhatPassed` | cmd/shellin/agent_registry_heartbeat.go:87-173 | after a success the loop remembers the tokens just let through, and the profile holds the session exactly if the server granted it in this beat and it could be saved |
| `AgentHeartbeat.ReloadSeesChange` | cmd/shellin/auth_profile.go:61-80 | for every profile file: when it cannot be used, when it counts as unchanged (the remembered tokens and no expiry times), and that it counts as changed otherwise |
| `SharedProfile.GrantKeepsInv` | cmd/shellin/agent_auth_recovery.go:24-58 | a process that receives a new session holds a token nobody else knows |
| `SharedProfile.AdoptKeepsInv` | cmd/shellin/agent_registry_heartbeat.go:151-156 | adopting it keeps all other holders' tokens private |
| `SharedProfile.WriteKeepsForward` | cmd/shellin/agent_registry_heartbeat.go:158-173 | writing a token that was never exchanged or written moves every login of the profile forward |
| `SharedProfile.ActKeepsInv` | cmd/shellin/agent_registry_heartbeat.go:96-173 | every step of every process and handler keeps the invariant of the whole system |
| `SharedProfile.ProfileMovesForward` | cmd/shellin/agent_registry_heartbeat.go:87-173 | in every interleaving, with lost answers and failed saves, a later token in the profile of the same login was rotated from the earlier one |
| `SharedHeartbeat.ReplayRecovers` | cmd/shellin/agent_auth_recovery.go:11-130 | a recovery that went through some replies is a run of the recovery in a world that gives them |
| `SharedHeartbeat.HeartbeatIsBeat` | cmd/shellin/agent_registry_heartbeat.go:96-133 | whatever other processes and handlers do meanwhile, a heartbeat of a process from start to settling is one beat of the loop |
| `SharedHeartbeat.ProcessesRememberTokens` | cmd/shellin/agent_registry_heartbeat.go:135-156 | in every run the processes remember tokens and no expiry times |
| `SharedProfileOneLogin.ProgramStaysOnOneChain` | cmd/shellin/auth_client.go:33-51 | in every interleaving of processes as the program starts them, with and without user keys, all tokens ever written lie forward on one chain |
| `SharedProfileOneLogin.StaysOnOneChain` | cmd/shellin/agent_registry_heartbeat.go:87-173 | the same for all processes of which those that may write start from the profile without a user key |
| `SharedProfileOneLogin.KeyLeavesTheChain` | cmd/shellin/agent_auth_recovery.go:51-112 | with a user key and a profile path, a lost refresh and an unreadable profile would lead to a token that was not rotated from the one before |
| `SharedProfileOneLogin.LoginLeavesTheChain` | cmd/shellin/auth_client.go:38-44 | so would a refresh, of a process that starts from a login and is given a profile path |
| `SharedProfileOneLogin.OneChainIffWritersFollow` | cmd/shellin/auth_client.go:33-51 | for every set of ways to start: all runs stay on one chain if and only if every start of the set that may write is from the profile and without a user key |
| `AgentLabels.AgentLabelTracker.Set` | cmd/shellin/agent_label.go:31-45 | reports a change exactly when the label changed; a blank label changes nothing |
| `LabelWords.LabelIsWords` | cmd/shellin/agent_label.go:120-143 | however words are separated by line breaks, tabs and other white space, and whatever control characters stand among them, the label is the words joined by single spaces and cut after 120 characters |
| `LabelWords.BreakBecomesSpace` | cmd/shellin/agent_label.go:121-129 | a line break or tab between two words becomes one space |
| `AgentLabels.LabelShape` | cmd/shellin/agent_label.go:120-143 | a label is words joined by single spaces of at most 120 characters, with a trailing space only at the cut |
| `AgentLabels.EndsInSpaceIffCutThere` | cmd/shellin/agent_label.go:137-142 | a label ends in a space exactly when it was longer than 120 characters and its 120th is a space |
| `AgentLabels.NormalizeTwice` | cmd/shellin/agent_label.go:120-143 | normalizing again changes a label exactly when it was longer than 120 characters and its 120th is a space, and then settles it |
| `AgentLabels.NormalizeIsNotIdempotent` | cmd/shellin/agent_label.go:137-142 | a concrete label that changes when normalized again |
| `OscTitles.OscTitleTerminator` | cmd/shellin/agent_label.go:106-118 | the loop finds the first BEL or ESC backslash and its width |
| `OscTitles.OscTerminalTitleParser.Feed` | cmd/shellin/agent_label.go:47-104 | Feed ends, reports the titles of one scan of pending bytes and chunk, and keeps the shortened rest |
| `OscTitles.OscTerminalTitleParser.TakeTitle` | cmd/shellin/agent_label.go:56-70 | one turn of the loop takes the first sequence off, or drops junk but for a trailing ESC |
| `OscTitles.OscTerminalTitleParser.TakeSequence` | cmd/shellin/agent_label.go:71-101 | the turn on bytes that begin with a start: its title, what follows it, or what is kept of it |
| `OscTitles.ScanResumes` | cmd/shellin/agent_label.go:47-104 | a scan can stop at any byte and resume with its rest |
| `OscTitles.KeepIsInvisible` | cmd/shellin/agent_label.go:58-91 | the bytes thrown away cannot be told from later titles, as long as sequences fit |
| `OscTitles.ChunksDoNotMatter` | cmd/shellin/agent_label.go:47-104 | if no sequence takes more than 4097 bytes, any split into chunks reports the titles of one scan, in order |
| `OscTitles.LongTitleIsLost` | cmd/shellin/agent_label.go:85-90 | a longer sequence that arrives without its last byte sets no title |
| `OscTitles.LongestSafeSequence` | cmd/shellin/agent_label.go:47-104 | for every stream that is one sequence and sets a title: chunking does not matter if and only if it takes at most 4097 bytes |
| `OscTitles.PendingStaysBounded` | cmd/shellin/terminal_pump.go:25-30 | with chunks of at most n bytes the pending bytes stay within 4096, or are a header of at most 4096 + n bytes |
| `OscStreams.SequenceSetsTitle` | cmd/shellin/agent_label.go:71-101 | byte by byte: a sequence sets the title of its text exactly if its parameter is 0 or 2 and the title is not blank |
| `OscStreams.StreamSetsTitles` | cmd/shellin/agent_label.go:47-104 | a stream of sequences with junk between them sets the titles of its sequences, in order |
| `OscStreams.ParserReportsTitles` | cmd/shellin/agent_label.go:47-104 | fed in any chunks, the parser reports exactly these titles, as long as no sequence takes more than 4097 bytes |
| `SignalHub.SignalHub.Register` | controlplane/signal_hub.go:48-99 | the locked section fills the peer's slot, and afterwards exactly the notices to the displaced peer and the agent are owed |
| `SignalHub.SignalHub.Unregister` | controlplane/signal_hub.go:101-148 | a peer in its slot leaves it, an agent takes the whole session with it; the notices owed are exactly those |
| `SignalHub.SignalHub.Forward` | controlplane/signal_hub.go:150-180 | a message goes to the opposite role of the same session if that peer can receive |
| `SignalHub.RegisterKeepsSlots` | controlplane/signal_hub.go:48-99 | slots stay filled and correctly occupied exactly unless a peer of neither role opens a session |
| `SignalHub.UnregisterKeepsSlots` | controlplane/signal_hub.go:101-148 | unregistering leaves no empty session and no misplaced peer |
| `SignalHub.ForwardReachesTheOtherRole` | controlplane/signal_hub.go:150-180 | a message goes to a peer exactly if that peer is in its slot of the sender's session and the two are an agent and a viewer |
| `SignalHub.DisplacedIsToldFirst` | controlplane/signal_hub.go:71-99 | a displaced viewer is told before it is closed with 4002, and the agent is told last |
| `SignalHub.AbsentLeavesSilently` | controlplane/signal_hub.go:101-148 | a peer that is not in its slot unregisters without effect or notice |
| `SignalHub.BlankKeyDoesNothing` | controlplane/signal_hub.go:48-180 | a peer without a subject or session ID has no effect on anybody |
| `SignalHubRuns.HubConservesPeers` | controlplane/signal_hub.go:48-148 | in every interleaving of calls and deliveries each registered peer is in its slot, left by itself, or was displaced by exactly one event and is closed exactly once: 4001 or 4002 if its slot was taken, 4003 if its agent left |
| `SignalHubRuns.DisplacedLeavesSilently` | controlplane/signal_hub.go:101-148 | a displaced peer's later Unregister changes nothing and notifies nobody |
| `SignalHubRuns.RegisterDetaches` | controlplane/signal_hub.go:48-99 | a registration owes an agent one detach exactly when it replaces the viewer beside it |
| `SignalHubRuns.UnregisterDetaches` | controlplane/signal_hub.go:101-148 | an unregister owes an agent one detach exactly when the viewer beside it leaves |
| `SignalHubRuns.DetachesMatchDepartures` | controlplane/signal_hub.go:48-148 | the detaches owed to an agent equal the viewers that left its session while it held the slot |
| `SignalHubRuns.ViewersAreTold` | controlplane/signal_hub.go:48-99 | in every run a viewer is told as often as another one took its slot |
| `SignalHubRuns.PairsReachEachOther` | controlplane/signal_hub.go:150-180 | in every run an agent and a viewer of one session that are both in their slots reach each other, and nobody else reaches them |
| `RegistrySpec.NeverBoth` | controlplane/agent_registry_lifecycle.go:11-120 | in every run no session is both live and tombstoned |
| `RegistrySpec.StaysTerminatedIff` | controlplane/agent_registry_lifecycle.go:39-64 | a session tombstoned at t stays so throughout if and only if every clean-up is at most ten minutes past the latest stamp before it, where only a terminate of this session stamps |
| `RegistrySpec.TerminationLasts` | controlplane/agent_registry_query.go:58-87 | as long as that holds, no upsert of the session is accepted and no touch or lookup finds it |
| `RegistrySpec.TerminationEndsExactly` | controlplane/agent_registry_query.go:76-86 | the one operation that ends a termination is a clean-up more than ten minutes past its stamp |
| `RegistrySpec.LateTerminateShortensRetention` | controlplane/agent_registry_lifecycle.go:46-50 | after two terminates a clean-up removes the tombstone exactly ten minutes past the second stamp, however recent the first is |
| `RegistrySpec.SessionsStayWithinLimits` | controlplane/agent_registry_upsert.go:57-81 | as the server uses it, live sessions of a subject never exceed its maximum |
| `RegistryRuns.UpsertIsAcceptedIff` | controlplane/agent_registry_upsert.go:27-81 | an upsert is accepted exactly if it is complete, the session is not terminated and there is room for it; it then makes the session live |
| `RegistryRuns.UpsertIsRefusedAs` | controlplane/agent_registry_upsert.go:27-81 | each error exactly: incomplete, terminated, beyond the maximum |
| `RegistryRuns.BlankIdDoesNothing` | controlplane/agent_registry_lifecycle.go:11-120 | an operation on a session without a subject or session ID changes nothing |
| `RegistryRuns.HeartbeatKeepsAlive` | controlplane/agent_registry_lifecycle.go:11-37 | after a heartbeat the session survives a clean-up, and a lookup and a listing find it, exactly while no more than staleAfter went by |
| `RegistryRuns.LastSignDates` | controlplane/agent_registry_lifecycle.go:30-36 | in every run a live session was last seen at the last accepted upsert or heartbeat of it |
| `RegistryRuns.LastLabelNames` | controlplane/agent_registry_lifecycle.go:30-36 | its label is that of the last of them that is an upsert or carries one |
| `RegistryRuns.CreationIsKept` | controlplane/agent_registry_upsert.go:97-117 | its creation time is that of the upsert that made it live |
| `RegistryRuns.LastUpsertGivesTransport` | controlplane/agent_registry_upsert.go:97-117 | its transport is that of the last accepted upsert |
| `RegistryRuns.LiveIffAcceptedAndKept` | controlplane/agent_registry_lifecycle.go:11-120 | in every run a session is live exactly if some upsert of it was accepted and no termination, removal or clean-up since took it away, judged by when it was last seen |
| `AgentRegistry.MeaningIsUnique` | controlplane/agent_registry_upsert.go:88-95 | nested maps without empty inner maps are determined by their entries |
| `AgentRegistry.DeleteWhere` | controlplane/agent_registry_query.go:63-86 | the deletion loops keep exactly the entries that do not match and drop empty inner maps |
| `AgentRegistry.SortNewestFirst` | controlplane/agent_registry_query.go:29-32 | the listing is a permutation sorted by last-seen time |
| `AgentRegistry.AgentRegistry.MarkTerminatedLocked` | controlplane/agent_registry_tombstones.go:31-38 | stamps one session |
| `AgentRegistry.AgentRegistry.EnsureSubjectItemsLocked` | controlplane/agent_registry_upsert.go:88-95 | the inner map of the subject is there, and no entry changes |
| `AgentRegistry.AgentRegistry.UpsertAgentSessionLocked` | controlplane/agent_registry_upsert.go:97-111 | keeps the creation time of a session that is there |
| `AgentRegistry.AgentRegistry.Upsert` | controlplane/agent_registry_upsert.go:40-55 | refuses bad input and tombstoned sessions without a change, else stores the refreshed status; no empty inner map remains |
| `AgentRegistry.AgentRegistry.UpsertLimited` | controlplane/agent_registry_upsert.go:57-81 | in addition refuses a new session beyond the maximum, and tells whether the session was created |
| `AgentRegistry.AgentRegistry.Touch` | controlplane/agent_registry_lifecycle.go:11-37 | finds exactly the live sessions and changes last-seen time and label of no other |
| `AgentRegistry.AgentRegistry.Terminate` | controlplane/agent_registry_lifecycle.go:39-64 | tombstones the session whether or not it is live |
| `AgentRegistry.AgentRegistry.Remove` | controlplane/agent_registry_lifecycle.go:66-88 | removes the session and leaves the tombstones alone |
| `AgentRegistry.AgentRegistry.TerminateAll` | controlplane/agent_registry_lifecycle.go:90-120 | terminates exactly the fresh sessions of a subject and lists each once, newest first |
| `AgentRegistry.AgentRegistry.ListBySubject` | controlplane/agent_registry_query.go:11-34 | lists each fresh session of the subject once, newest first |
| `AgentRegistry.AgentRegistry.Lookup` | controlplane/agent_registry_query.go:36-56 | finds exactly the live sessions that are not stale |
| `AgentRegistry.AgentRegistry.Cleanup` | controlplane/agent_registry_query.go:58-87 | keeps exactly the fresh sessions and the tombstones of the last ten minutes, without empty inner maps |
| `AgentConnect.HandleAgentConnect` | cmd/shellin-control-plane/agent_connect_handlers.go:15-68 | the status of every failure; a failed run that created its session restores the stored maps exactly |
| `AgentConnect.ConnectIsRefusedAs` | cmd/shellin-control-plane/agent_connect_handlers.go:15-68 | 400, 410 and 409 exactly for an incomplete request, a terminated session and a new session beyond the maximum |
| `AgentConnect.ConnectRegisters` | cmd/shellin-control-plane/agent_connect_handlers.go:15-68 | an accepted connect stores the trimmed texts, the transport and the times, and changes nothing else |
| `AgentConnect.FailedConnectRollsBack` | cmd/shellin-control-plane/agent_connect_handlers.go:34-59 | whatever requests come in between, the registry differs from what they alone would make of it in at most the session, if and only if no other session misses its last place and no terminate-all catches it; the removal then restores what they alone would leave if and only if the session is not among it |
| `AgentConnect.FailedConnectLeavesNoTrace` | cmd/shellin-control-plane/agent_connect_handlers.go:34-59 | after requests of other subjects, clean-ups and requests of the same session, the removal leaves what they alone would leave exactly when the session is not live in it |
| `AgentConnect.FailedConnectTakesAnotherDown` | cmd/shellin-control-plane/agent_connect_handlers.go:34-59 | in every registry a second connect of the same session that is accepted in between loses its session to the removal |
| `AgentConnect.RegistrationTakesLastPlace` | cmd/shellin-control-plane/agent_connect_handlers.go:34-59 | meanwhile a connect of another session is told that the limit is reached exactly when the registration took the last place |
| `AgentConnect.TerminateAllCatchesRegistration` | cmd/shellin-control-plane/agent_connect_handlers.go:34-59 | a terminate-all meanwhile leaves a tombstone of the session exactly when it does not find it stale |
| `TerminationPath.StaysDead` | controlplane/agent_registry_upsert.go:57-81 | no call of a recovery run brings a tombstoned session back |
| `TerminationPath.DriveFollowsUp` | cmd/shellin/agent_auth_recovery.go:115-130 | a heartbeat refused as not found is followed by a registration with the same token |
| `TerminationPath.NoRecoveryWhileDead` | cmd/shellin/agent_auth_recovery.go:11-130 | while a session is tombstoned a recovery succeeds only with a token of another subject |
| `TerminationPath.TerminationReachesTheClient` | cmd/shellin-control-plane/agent_registry_handlers.go:11-56 | the run ends in the non-retryable termination error exactly when one of its registrations is served, and each served heartbeat asks for one |
| `AuthRateLimiter.CompactInPlace` | cmd/shellin-control-plane/auth_rate_limiter.go:88-103 | the loop moves exactly the unexpired attempts, in order, to the front of their own buffer |
| `AuthRateLimiter.AuthFailureLimiter.PruneLocked` | cmd/shellin-control-plane/auth_rate_limiter.go:88-103 | every address keeps its unexpired attempts, addresses without any are forgotten, and no two share a buffer |
| `AuthRateLimiter.AuthFailureLimiter.Allow` | cmd/shellin-control-plane/auth_rate_limiter.go:31-43 | allows exactly while the unexpired attempts are fewer than the limit |
| `AuthRateLimiter.AuthFailureLimiter.RecordFailure` | cmd/shellin-control-plane/auth_rate_limiter.go:45-57 | adds one attempt to the pruned records, in spare capacity or a larger copy |
| `AuthRateLimiter.AuthFailureLimiter.Reset` | cmd/shellin-control-plane/auth_rate_limiter.go:59-68 | forgets one address |
| `AuthRateLimiter.HandleAuthExchange` | cmd/shellin-control-plane/auth_handlers.go:12-37 | 429, 401, 500 or 200, with exactly one failure recorded or the address reset once it was let in |
| `AuthRateLimiter.HandleDeviceLogin` | cmd/shellin-control-plane/auth_handlers.go:104-139 | the same for a login key that is consumed before the entitlement is looked up |
| `AuthFailureRuns.PruningIsInvisible` | cmd/shellin-control-plane/auth_rate_limiter.go:88-103 | if no earlier clock was ahead, the pruned attempts inside the window are the full history since the last reset |
| `AuthFailureRuns.CountsHistoryIffNoneOvertaken` | cmd/shellin-control-plane/auth_rate_limiter.go:31-103 | for all clocks: what counts, as a list, in number and for the decision at every limit, is the full history inside the window if and only if no failure of it was outside the window of some later call |
| `AuthFailureRuns.AllowCountsHistory` | cmd/shellin-control-plane/auth_rate_limiter.go:31-103 | if no earlier clock was ahead, Allow decides as if every failure since the last reset had been kept |
| `AuthFailureRuns.ClockAheadForgets` | cmd/shellin-control-plane/auth_rate_limiter.go:35-41 | a clock ahead makes it forget a failure that still counts |
| `AuthFailureRuns.AttemptIsRun` | cmd/shellin-control-plane/auth_handlers.go:12-37 | a handler that runs alone is one run of the concurrent model |
| `AuthFailureRuns.AttemptCounts` | cmd/shellin-control-plane/auth_handlers.go:12-37 | what an attempt leaves of the failures of its address: refused, those inside the window; let in, none; failed, one more |
| `AuthFailureRuns.AttemptLeavesOthers` | cmd/shellin-control-plane/auth_rate_limiter.go:88-103 | of other addresses no failure inside the window is forgotten |
| `AuthFailureRuns.FailuresStayBounded` | cmd/shellin-control-plane/auth_handlers.go:21-30 | with at most n requests of an address in flight, at most limit + n - 1 failures are recorded, whatever the clocks |
| `AuthFailureRuns.BoundIsReached` | cmd/shellin-control-plane/auth_handlers.go:21-30 | some run reaches that bound with failures that all count |
| `ReplayStore.MemoryReplayStore.Consume` | grantauth/replay_guard.go:68-105 | the deletion loop and the insertion leave exactly the unexpired entries and the accepted one |
| `ReplayStore.ReplayGuard.Consume` | grantauth/replay_guard.go:51-66 | the guard's own clock only raises the expiry it hands on; without a store it fails |
| `ReplayStore.ReplayIffSurvives` | grantauth/replay_guard.go:68-105 | for all clocks: a call reports a replay exactly when an earlier accepted call stored an expiry still ahead and no call in between read a clock at or past it |
| `ReplayStore.ClockAheadReopens` | grantauth/replay_guard.go:87-98 | a call for another ID lets a token be used again exactly if its clock is at or past the stored expiry |
| `ReplayStore.ReplayIffBlocked` | grantauth/replay_guard.go:68-105 | under a clock that does not run backwards, exactly when an earlier accepted call stored an expiry still ahead |
| `ReplayStore.AcceptancesAreApart` | grantauth/replay_guard.go:68-105 | of two acceptances of one ID the second, or a call before it, read a clock at or past the first one's stored expiry |
| `ReplayStore.ExpiredTokenMayBeReused` | grantauth/replay_guard.go:87-104 | at one instant a second call is accepted exactly when the token had expired by then |
| `UserKeyStore.NormalizedIsNormal` | controlplane/entitlement.go:11-33 | normalizing trims for good: doing it again changes nothing |
| `Text.TrimOfPadded` | controlplane/entitlement.go:12-12 | trimming takes away the white space at both ends and nothing else |
| `UserKeyStore.NormalizeIff` | controlplane/entitlement.go:11-33 | exactly the entitlements with a subject and a positive maximum are stored, trimmed and with the time of storing |
| `UserKeyStore.AcceptedIff` | controlplane/userkey_store.go:10-40 | a record is stored exactly if it has a key, a subject and a positive maximum, and its key, subject and transaction are free |
| `UserKeyStore.StoredTransaction` | controlplane/userkey_store.go:82-91 | the new record carries the transaction it is found by, unless it names another one |
| `UserKeyStore.IndexIsDetermined` | controlplane/userkey_store.go:111-139 | the records determine both indexes |
| `UserKeyStore.IndexedIsOnly` | controlplane/userkey_store.go:50-80 | an indexed name belongs to exactly one record, an unindexed one to none |
| `UserKeyStore.StoreKeepsIndex` | controlplane/userkey_store.go:126-137 | forgetting the old name and entering the new one keeps an exact index |
| `UserKeyStore.UserKeyStore.UpsertLocked` | controlplane/userkey_store.go:111-139 | each conflict is exactly a record under another key; a failure changes nothing, a success exactly one record, and both indexes stay exact inverses |
| `UserKeyStore.UserKeyStore.Add` | controlplane/userkey_store.go:10-24 | in addition refuses a key that is there |
| `UserKeyStore.UserKeyStore.Upsert` | controlplane/userkey_store.go:26-40 | replaces the record of a key that is there |
| `UserKeyStore.UserKeyStore.UpsertByOriginalTransactionID` | controlplane/userkey_store.go:82-102 | replaces the one record that carries the transaction, or changes nothing |
| `UserKeyStore.UserKeyStore.Lookup` | controlplane/userkey_store.go:42-48 | finds the record under the hash of the trimmed key |
| `UserKeyStore.UserKeyStore.LookupBySubject` | controlplane/userkey_store.go:50-64 | finds what a scan of all records would find |
| `UserKeyStore.UserKeyStore.LookupByOriginalTransactionID` | controlplane/userkey_store.go:66-80 | finds what a scan of all records would find |
| `Negotiator.WebrtcNegotiator.FlushPendingCandidates` | cmd/shellin/webrtc_offer.go:23-34 | the queue is emptied and applied in order |
| `Negotiator.WebrtcNegotiator.ResetPendingOffer` | cmd/shellin/webrtc_offer.go:36-46 | rolls an outstanding offer back and leaves the queue |
| `Negotiator.WebrtcNegotiator.SendOffer` | cmd/shellin/webrtc_offer.go:48-97 | what each failing step leaves behind: the queue is cleared only after a rollback that succeeded |
| `Negotiator.WebrtcNegotiator.HandleAnswer` | cmd/shellin/webrtc_signal_handlers.go:24-35 | an answer counts only to an outstanding offer, and then flushes |
| `Negotiator.WebrtcNegotiator.HandleCandidate` | cmd/shellin/webrtc_signal_handlers.go:37-52 | a candidate waits while there is no remote description or an offer is out |
| `Negotiator.WebrtcNegotiator.HandleViewerReady` | cmd/shellin/webrtc_signal_handlers.go:54-62 | a failed offer is tried once more, and a reconnect asked for only if both fail |
| `Negotiator.WebrtcNegotiator.HandleViewerDetach` | cmd/shellin/webrtc_signal_handlers.go:64-71 | rolls back and always asks for a reconnect |
| `Negotiator.CandidatesAreAppliedInTime` | cmd/shellin/webrtc_signal_handlers.go:24-71 | in every run candidates are applied only with a remote description and no offer out, and only those that arrived since the last offer |
| `Negotiator.AnsweredRoundAppliesArrivals` | cmd/shellin/webrtc_offer.go:17-97 | in an answered round the candidates applied up to the next offer or rollback are the arrivals since the offer, in order; before the answer none is |
| `Negotiator.AnswerAppliesQueue` | cmd/shellin/webrtc_signal_handlers.go:24-35 | in every run an answer to an outstanding offer ends the round and applies the arrivals since the offer in order; any other answer changes nothing |
| `Negotiator.RoundApplies` | cmd/shellin/webrtc_offer.go:17-97 | from any state: after an offer, candidates and its answer exactly these candidates are applied, and later ones as they arrive |
| `Negotiator.ReadyTriesAgain` | cmd/shellin/webrtc_signal_handlers.go:54-62 | a second attempt that can go out leaves the viewer with an offer, however the first one turned out |
| `Negotiator.QueueWaits` | cmd/shellin/webrtc_signal_handlers.go:24-71 | while no offer is out and no viewer gets ready, the queue keeps waiting and only arriving candidates are applied, each at once, or none without a remote description |
| `Negotiator.DetachLeavesQueue` | cmd/shellin/webrtc_offer.go:36-46 | in every run, what is queued at a detach that leaves no offer out waits unapplied through all messages and is dropped when a viewer gets ready, however its offers turn out |
| `ReleaseManifest.SortedKeysAreUnique` | internal/selfupdate/manifest.go:134-138 | the sorted keys are determined by the map |
| `ReleaseManifest.SigningPayload` | internal/selfupdate/manifest.go:123-152 | the payload is the lines for the sorted keys, in whatever order the map hands its keys out |
| `ReleaseManifest.PayloadBegins` | internal/selfupdate/manifest.go:123-152 | the payload begins with the name of its format |
| `ReleaseManifest.PayloadParses` | internal/selfupdate/manifest.go:123-152 | a clean manifest is read back from its payload up to trimming and the case of digests |
| `ReleaseManifest.SamePayloadIffSameManifest` | internal/selfupdate/manifest.go:123-152 | two clean manifests have one payload exactly when they are the same up to trimming and the case of digests |
| `ReleaseVersion.ParseReleaseVersion` | internal/selfupdate/version.go:81-118 | the loop over the parts fails exactly when one of them is no number |
| `ReleaseVersion.WrittenVersionParses` | internal/selfupdate/version.go:81-118 | a version written out parses back; a leading v and a build do not count |
| `ReleaseVersion.CompareReleaseVersions` | internal/selfupdate/version.go:34-79 | fails exactly on an unknown version, else -1, 0 and 1 mean below, same and above |
| `ReleaseVersion.CompareParsed` | internal/selfupdate/version.go:44-78 | the loop finds the first difference of the zero-padded numbers, and prereleases decide when there is none |
| `ReleaseVersion.OneOfThree` | internal/selfupdate/version.go:34-79 | of two versions exactly one is below the other or they are the same |
| `ReleaseVersion.BelowIsTransitive` | internal/selfupdate/version.go:34-79 | the comparison is transitive, also through versions that compare the same |
| `ReleaseVersion.NumbersLessIsPadded` | internal/selfupdate/version.go:44-63 | the numbers compare as tuples padded with zeros to any common length |
| `ReleaseVersion.PrereleasesComeFirst` | internal/selfupdate/version.go:64-78 | a release is above its prereleases, and these compare like words in a dictionary |
| `ReleaseVersion.ReleaseReplacesPrerelease` | internal/selfupdate/version.go:17-79 | as written: an update goes from a prerelease to its release and never back |
| `ReleaseVersion.LargerNumberReplaces` | internal/selfupdate/version.go:17-79 | as written: an update goes to the version whose first differing number is larger and never back |
| `ReleaseVersion.PartIsNumberIff` | internal/selfupdate/version.go:104-115 | a part is a number exactly if, trimmed, it is made of digits and fits 64 bits |
| `ReleaseVersion.ShouldInstallLatestRelease` | internal/selfupdate/version.go:17-26 | installs what is above, and an unknown version only by allowance |
| `ReleaseVersion.UpdatesNeverReturn` | internal/selfupdate/version.go:17-26 | among known versions no chain of updates comes back to a version it passed |
| `ReleaseVersion.UnknownVersionsAlternate` | internal/selfupdate/version.go:17-26 | with the allowance two versions replace each other exactly when one is unknown and they are spelt differently |
| `IceServers.HasExactURLPortMarker` | turn/cloudflare.go:197-209 | the loop finds what the search from the front finds; for a marker that never overlaps itself, whether some occurrence is followed by the end of a port |
| `IceServers.SearchIsExactIffBorderless` | turn/cloudflare.go:197-209 | for a marker without the characters that end a port, the search is right on every string if and only if the marker never overlaps itself |
| `IceServers.UsesBlockedCloudflarePort` | turn/cloudflare.go:192-195 | the same for the two markers of port 53 |
| `IceUrls.BlockedIff` | turn/cloudflare.go:192-209 | character by character: a URL is blocked exactly if ":53" or "=53" stands in it with nothing, "?", "/" or "&" behind |
| `IceServers.SanitizeICEServers` | turn/cloudflare.go:94-141 | succeeds exactly on servers whose kept URLs all have an ICE scheme and include a TURN URL; the result is those servers, with a STUN server in front if there was none |
| `IceUrls.UrlIsKeptIff` | turn/cloudflare.go:94-141 | exactly the given URLs that are not blank and not blocked are kept, trimmed |
| `IceUrls.ServerIsKeptIff` | turn/cloudflare.go:94-141 | a server is kept, trimmed, exactly if one of its URLs is |
| `IceUrls.SanitizeSucceedsIff` | turn/cloudflare.go:94-141 | succeeds exactly if all URLs that remain have the scheme of a STUN or TURN URL, in whatever case, and one is a TURN URL; a STUN server is added exactly if none remains |
| `IceUrls.OneServerIsSanitized` | turn/cloudflare.go:94-141 | a server with a TURN URL and one on port 53: the latter goes, the texts are trimmed, a STUN server comes in front |
| `IceServers.SanitizingIsIdempotent` | turn/cloudflare.go:94-141 | what was sanitized once is left as it is |

## Left out

- HTTP, WebSocket, terminal, process and file input and output: a call is its outcome, and a profile save is one atomic write.
- Startup, login, status and clean-up writes to the profile, and the WebRTC bridge that shares the heartbeat object: they do not follow the loop's discipline, and the order of profile writes is not claimed for them.
- Hashing, signatures, base64, JSON and randomness: hashes are functions, tokens are numbers in the order of issue.
- The login-key store: the same one-time shape as the refresh tokens.
- Nil stores, peers without a hub and other nil pointers, except the replay guard without a store.
- Origin checks, bearer parsing, request decoding, error wording, configuration, user interface, archive extraction.
- The attach, unregister and terminate-all handlers: each is one registry call behind the same authorization.
- RefreshServer: its handlers work on token numbers; whitespace around a presented token and the hash in front of the store are in `RefreshTokens` only.
- AuthRecovery: strings that are only compared for equality and blankness are numbers; a reply that is neither an error nor carries what the call asks for counts as a failed call.
- AgentHeartbeat.AgentRegistryHeartbeat.Run: the ticker, the label-changed signal and the stop channel are one sequence of ticks; the profile is replaced as a whole, and nobody else replaces it between ticks of this object (`SharedHeartbeat.HeartbeatIsBeat` has the other processes).
- OscTitles.OscTerminalTitleParser.Feed: the decoding of title bytes into characters is a parameter; the loop body is a method of its own.
- SignalHub.SignalHub.Register: sending and closing are notices owed after the locked section, delivered one by one in `SignalHubRuns`; that a peer is registered once is assumed there.
- SignalHub.SignalHub.Forward: whether the target's queue accepts the message is not part of this model.
- SignalHubRuns.HubConservesPeers: the creation and update times of sessions are not part of this model.
- AgentRegistry.SortNewestFirst: stands for the library sort; sessions last seen at the same time come in some order.
- AgentRegistry.AgentRegistry.TerminateAll: the inner map is written back after the loop, which no other locked section can tell.
- AgentConnect.HandleAgentConnect: authorization and request decoding come before it; the response body is not part of this model.
- TerminationPath.TerminationReachesTheClient: a transport error's text mentions no 404 and no 410; the tokens tried are of the session's own subject, `TerminationPath.NoRecoveryWhileDead` covers all others.
- AuthRateLimiter.AuthFailureLimiter.Allow: the address is a parameter, its derivation from the request is not part of this model.
- AuthFailureRuns.AllowCountsHistory: assumes that no earlier clock is ahead; `AuthFailureRuns.CountsHistoryIffNoneOvertaken` has the exact condition for all clocks.
- ReplayStore.ReplayIffBlocked: assumes a clock that does not run backwards up to the call; `ReplayStore.ReplayIffSurvives` is exact for all clocks.
- UserKeyStore.UserKeyStore.LookupByOriginalTransactionID: a blank transaction finds nothing even where records carry none.
- Negotiator: the peer connection is its signaling state, its remote description and a log; gathering, the data channel and the status display are not part of this model, and a candidate call that fails is logged like one that succeeds.
- ReleaseManifest.PayloadParses: keys that are not trimmed are outside it, since two of them may be written alike.
- ReleaseVersion.ParseReleaseVersion: numbers are limited to 64-bit integers; prereleases compare bytewise, as in the code, not by the precedence of section 11 of SemVer 2.0.0.
- IceServers.SanitizeICEServers: which of several errors is worded first is not part of this model; lower-casing covers ASCII letters, in `Text.Lower`, here and in `ReleaseManifest`.
- IceServers.HasExactURLPortMarker: the empty marker, on which the search need not end, is left out; no caller passes it.
