# ClawMux: a verified model of its concurrent core

ClawMux routes chat messages between chat platforms and per-user OpenClaw
instances. Its difficult logic sits in small state machines that run between
network calls. This project models them in Dafny and proves properties of every
run.

Each machine is written twice. A datatype of states with one function per stretch
of code between two awaits gives runs over arbitrary event sequences (an event
that is not enabled in a state changes nothing), and the whole-run theorems are
about those. A class with the source's own fields updates them in place; each of
its methods is proved equal to the corresponding function, and between any two steps
of a client or of the pool every invariant of its machine holds (`Valid`). Plain computations
(choosing the best final, scrubbing, paths, base64url) are functions with lemmas.

| file | models |
|---|---|
| `Aggregation.dfy`, `Debounce.dfy` | `ClawAggregator`: choosing the best final; the restartable debounce timers |
| `ClientEngine.dfy`, `ClientHistory.dfy`, `OpenClawClient.dfy` | request/response engine of one OpenClaw connection; what it does in terms of its events alone |
| `Scrub.dfy` | container paths collected from, and removed from, a final's text |
| `MappingStore.dfy`, `MappingHistory.dfy`, `Database.dfy` | the mapping tables, both lookups, `bind_user_instance`; both lookups over whole histories of binds |
| `MappingCache.dfy`, `MappingExpiry.dfy`, `MappingHits.dfy`, `MappingStorage.dfy` | version-checked, expiring caches of several replicas over one database |
| `Pool.dfy`, `PoolTrace.dfy`, `PoolProgress.dfy`, `WsManager.dfy` | connection pool: locks, retry, guardians, idempotency keys |
| `PosixPath.dfy`, `FilePaths.dfy`, `Attachments.dfy` | container/host paths, attachment names, the two file routes |
| `Base64Url.dfy` | unpadded base64url (RFC 4648, sections 3.2 and 5) |
| `ServiceUrls.dfy`, `PollCursor.dfy` | LRU map of Teams service URLs; Telegram long-poll cursor |
| `PyText.dfy` | the Python string operations the others need |

## Assumptions

- Fresh ids (message ids, idempotency keys, futures) are unique: they are positions
  in a list. The message id "proactive" is not a request id.
- A timeout happens only while the future is not yet done. Connecting and closing a
  client are atomic steps that succeed or fail.
- `close_connection(user)` runs only when no task holds or waits for that user's
  locks, because it drops the lock objects (`src/services/ws_manager.py:283-284`).
- The version row exists, as migration 002 leaves it
  (`alembic/versions/002_db_state.py:48-50`). For the version properties every
  writer is `bind_user_instance`; the staleness bound allows arbitrary edits.
- Every statement of a lookup sees the rows committed when it runs. All replicas
  read one clock.
- The Telegram server keeps updates in ascending order of id and offers a prefix of
  those at or above the offset.

## What the proofs found

- A rejection that arrives while its request is still being written clears the slot
  the sender reads next, so `send_message` ends with a `TypeError` instead of the
  error text (`ClientEngine.CrashesIffRejectedWhileWriting`, with a run in
  `RejectionCanBeLost`).
- The test against `_timed_out_msg_id` in `_route_aggregated_message` never decides
  anything: in every reachable state the pending id differs from it
  (`ClientEngine.WinnerGoesToItsWaiter`).
- `close_connection` drops the send lock whoever holds it: the next send of that user
  runs beside another one if and only if a send was under way when the connection
  was closed (`Pool.ClosingKeepsExclusionIff`).
- `bind_user_instance` ignores a new `external_user_id` for an existing user; the
  bind commits and cannot be read back by it
  (`MappingStore.PassedExternalIdReadsBack`, `RebindIgnoresExternalId`).
- With a workspace base path that is not in normal form, `container_path_to_host`
  rejects every path, and with no other base (`FilePaths.RejectsAllIffNotNormalised`).
  A base that ends in a slash is of that kind unless it is "/" alone
  (`TrailingSlashAcceptsIffRoot`).
- The suffixed name of a colliding attachment is not itself checked. The files of a
  message overwrite neither one another nor an older file if and only if every
  crowded one finds its suffixed path free, a condition on the names, the digits
  drawn and the disk before the call (`Attachments.OverwritesNothingIffClear`).
- The scrubber's pattern does not escape its dot. The literal prefix never survives,
  but the pattern itself can match again after its own pass: if and only if the scan
  passes "/home/node/" with a path cut right behind it, and behind the cut stand a
  character no path holds, "openclaw/" and a path character
  (`Scrub.PatternSurvivesIffJoined`, with a text in `PatternSurvivesOnePass`). A path found in the text is listed once unless
  `mediaUrls` itself repeats it (`Scrub.FoundPathListedOnce`).

## Model

| member | source | states |
|---|---|---|
| Aggregation.ValidityIgnoresPadding | src/utils/claw_aggregator.py:57-66 | space around a text makes no difference to its being a real answer, and a real answer is one when stripped |
| Aggregation.ValidTextIff | src/utils/claw_aggregator.py:42-66 | a real answer: stripped, long enough, and in lower case none of the six tokens, spelled out |
| Aggregation.PlaceholderIsNotValid | src/utils/claw_aggregator.py:42-66 | each of the six tokens, in any case and with any padding, is never a real answer |
| Aggregation.AnswerBeatsPlaceholder | src/utils/claw_aggregator.py:204-209 | of a real answer and a placeholder the answer is chosen, in either order and whatever their numbers |
| Aggregation.EarliestWinsTies | src/utils/claw_aggregator.py:204-219 | the winner outranks everything before it and nothing after it outranks it |
| Aggregation.SelectBestIsFold | src/utils/claw_aggregator.py:196-229 | filter-then-max equals one left fold over (tier, sequence number), earliest winning ties |
| Aggregation.SelectBestConcat | src/utils/claw_aggregator.py:196-229 | the best of a concatenation is the best of the two bests |
| Aggregation.SelectBestSound | src/utils/claw_aggregator.py:196-229 | the chosen final is one of the messages and no message beats it |
| Aggregation.PlaceholderNeverWins | src/utils/claw_aggregator.py:204-229 | a placeholder never displaces a valid answer; nothing is chosen exactly when every final is blank |
| Aggregation.ClawAggregator.Add | src/utils/claw_aggregator.py:106-139 | buffers a final and restarts its id's timer, keeping one live timer per buffered id |
| Aggregation.ClawAggregator.FinalizeLater | src/utils/claw_aggregator.py:141-194 | pops exactly the id's buffer and returns its best |
| Aggregation.ClawAggregator.CancelAllTimers | src/utils/claw_aggregator.py:231-237 | no buffer and no live timer is left |
| Debounce.GroupsAreSplit | src/utils/claw_aggregator.py:127-154 | per id, popped groups followed by the buffer give back the received finals in order, split at gaps of at least the window (ties either way) |
| Debounce.DebounceRefinesSplit | src/utils/claw_aggregator.py:127-154 | without ties the machine computes exactly the pure splitting function |
| Debounce.OneLiveTimer | src/utils/claw_aggregator.py:127-139 | in every run each buffered id has exactly one live timer, due a window after its last final |
| ClientEngine.SlotsAgree | src/services/openclaw_client.py:322-383 | in every reachable state the slots agree, are empty when the lock is free, and never name the timed-out id |
| ClientEngine.CompletedAtMostOnce | src/services/openclaw_client.py:425-550 | no future is completed twice, whichever of the five resolvers race |
| ClientEngine.CompletedByOwnEvent | src/services/openclaw_client.py:425-550 | the event behind a completion arrived while that request was the active one, and the future holds what that event carries |
| ClientHistory.RememberedIsStreamed | src/services/openclaw_client.py:486-492 | the text remembered for a run is the last one streamed that did not expire and was not cleared by a close or a disconnect |
| ClientHistory.FinalCarriesStreamedText | src/services/openclaw_client.py:555-636 | a final is received as one message: the event's number and time, its own request, and text and media list from the streamed text if there is one, else from the gateway's |
| ClientHistory.OnlyChatReceives | src/services/openclaw_client.py:555-636 | no other event is received as a final |
| ClientHistory.CompletedExactlyBy | src/services/openclaw_client.py:425-550 | an open future is completed by exactly these events of its own request, with exactly these outcomes, and stays open across every other |
| ClientHistory.EndSchedules | src/services/openclaw_client.py:515-552 | the end of a run schedules one fallback with the streamed text, exactly while a request is open and there is one |
| ClientHistory.LifecycleEndAnswers | src/services/openclaw_client.py:515-552 | a request still open when the fallback fires is completed with the text streamed when the run ended |
| ClientHistory.SendReturns | src/services/openclaw_client.py:333-383 | what each step that ends a send returns, and that a write goes on to wait unless the request was rejected |
| ClientHistory.CronDelivers | src/services/openclaw_client.py:651-673 | a summary is delivered unless the job was removed, and nothing else is |
| ClientEngine.DisconnectUnblocks | src/services/openclaw_client.py:425-433 | when the connection ends the pending future is completed, and a waiting sender can wake up, whatever happened before |
| ClientEngine.AnswersAreOwn | src/services/openclaw_client.py:352-383 | one result per request, and every answer or lost connection goes back to a completion of the caller's own future by an event that arrived while its request was active |
| ClientEngine.CrashesIffRejectedWhileWriting | src/services/openclaw_client.py:334-355 | the send crashes after its write exactly when a rejection arrived during the write |
| ClientEngine.RejectionCanBeLost | src/services/openclaw_client.py:470-479 | a concrete run in which that happens |
| ClientEngine.FinalsAreConserved | src/services/openclaw_client.py:679-717 | per id, groups that left plus the buffer are the received finals; with a callback, messages handed over are exactly the winners of fired groups, once each, in order |
| ClientEngine.FiredGroupHasWinner | src/services/openclaw_client.py:583-636 | a fired group yields a message exactly when it holds a non-blank final |
| ClientEngine.WinnerGoesToItsWaiter | src/services/openclaw_client.py:691-717 | a winner completes its own waiting request, and goes to the callback in every other case, late ones included |
| OpenClawClients.OpenClawClient.BeginSend | src/services/openclaw_client.py:322-331 | fills the three slots with a fresh id and future |
| OpenClawClients.OpenClawClient.WriteReturns | src/services/openclaw_client.py:352-355 | reads the slot again after the write; crashes when it is empty |
| OpenClawClients.OpenClawClient.FutureDone | src/services/openclaw_client.py:356-364 | returns what the future was completed with and clears the slots |
| OpenClawClients.OpenClawClient.WriteFails | src/services/openclaw_client.py:379-383 | any other exception clears the slots too |
| OpenClawClients.OpenClawClient.WaitTimesOut | src/services/openclaw_client.py:366-383 | records the timed-out id before the slots are cleared |
| OpenClawClients.OpenClawClient.DispatchRejection | src/services/openclaw_client.py:469-479 | completes an open future with the error and clears the slots in any case |
| OpenClawClients.OpenClawClient.DispatchAgentText | src/services/openclaw_client.py:486-492 | remembers the run's clean text |
| OpenClawClients.OpenClawClient.DispatchAgentError | src/services/openclaw_client.py:497-513 | completes with the text generated so far and the failure |
| OpenClawClients.OpenClawClient.DispatchAgentEnd | src/services/openclaw_client.py:515-552 | captures id and text for the delayed fallback |
| OpenClawClients.OpenClawClient.DelayedFallback | src/services/openclaw_client.py:530-547 | completes only the request it was scheduled for |
| OpenClawClients.OpenClawClient.BuildMessage | src/services/openclaw_client.py:555-636 | the agent's own text wins; a final loses its container paths and gains its media list |
| OpenClawClients.OpenClawClient.DispatchChat | src/services/openclaw_client.py:555-636 | a final, tagged with the active id, goes to the aggregator; other states change nothing |
| OpenClawClients.OpenClawClient.DispatchCron | src/services/openclaw_client.py:651-673 | a summary goes to the callback, except for removed jobs |
| OpenClawClients.OpenClawClient.RouteAggregatedMessage | src/services/openclaw_client.py:679-717 | waiter or callback, and the timed-out id is forgotten once handled |
| OpenClawClients.OpenClawClient.DebounceExpires | src/utils/claw_aggregator.py:141-194 | a fired timer routes its group's best |
| OpenClawClients.OpenClawClient.ListenLoopEnds | src/services/openclaw_client.py:425-433 | a lost connection completes an open future with an exception |
| OpenClawClients.OpenClawClient.CloseBegins | src/services/openclaw_client.py:746-751 | the buffered groups are discarded, their timers cancelled and the agent texts dropped |
| ClientEngine.OnlyCloseDiscards | src/services/openclaw_client.py:746-751 | groups are discarded once per close and by nothing else in any run |
| Scrub.ScanConserves | src/services/openclaw_client.py:603-604 | found paths and kept characters together are the text, in order |
| Scrub.ScanCutsFound | src/services/openclaw_client.py:592-604 | what is removed is exactly what is collected |
| Scrub.PatternSurvivesIffJoined | src/services/openclaw_client.py:603-604 | after its own pass the wide pattern matches again if and only if the text holds a join: "/home/node/" kept, a path cut right behind it, such a tail behind the cut |
| Scrub.NoTailNoSurvivor | src/services/openclaw_client.py:603-604 | without such a tail anywhere one pass leaves nothing to match |
| Scrub.FinalTextMatchesIffJoined | src/services/openclaw_client.py:599-606 | so for the delivered text, after the links are removed and the ends stripped |
| Scrub.OnlyJoinsSurvive | src/services/openclaw_client.py:603-604 | wherever the pattern still matches, the dot's place holds a character no path holds |
| Scrub.ScrubIsComplete | src/services/openclaw_client.py:599-606 | the delivered text never holds the literal prefix followed by a path character |
| Scrub.PatternSurvivesOnePass | src/services/openclaw_client.py:603-604 | a text with such a join, in which the wide pattern still matches |
| Scrub.FoundPathListedOnce | src/services/openclaw_client.py:579-597 | a found path is listed, once if and only if `mediaUrls` does not repeat it |
| Scrub.PathIsFoundAndCut | src/services/openclaw_client.py:591-604 | a path under the prefix is found and cut whole, up to the next space, quote or closing parenthesis |
| Scrub.LinkIsCut | src/services/openclaw_client.py:600-601 | a markdown link to a container path is cut whole, label and all |
| Scrub.OnlyLinksAreCut | src/services/openclaw_client.py:600-601 | whatever is cut as a link has that form |
| Scrub.MediaListed | src/services/openclaw_client.py:579-597 | the media list holds the non-blank URLs, the stripped single URL and the found paths, and nothing else |
| Scrub.UrlsComeFirst | src/services/openclaw_client.py:579-597 | the event's own URLs come first, unchanged, when none is blank |
| Scrub.CollectMediaPaths | src/services/openclaw_client.py:579-597 | the media list: explicit URLs, then new paths of the text in order |
| MappingStore.JoinsAreSingleRow | src/services/mapping.py:184-249 | the key constraints alone keep both joins to one row |
| MappingStore.ValidateProvider | src/services/mapping.py:96-101 | a name that passes becomes a supported one |
| MappingStore.ValidateProviderNormalises | src/services/mapping.py:96-101 | supported names pass as themselves, space around a name makes no difference, and passing twice is passing once |
| MappingStore.ProvidersPassInAnyCase | src/services/mapping.py:38-45 | each of the six names, spelled out, passes in any case and with any padding |
| MappingStore.OnlyProvidersPass | src/services/mapping.py:96-101 | nothing else passes, and what passes comes out stripped and in lower case |
| MappingStore.AppUserIdInjective | src/services/mapping.py:369-371 | `provider:user` keys tell their parts apart when names hold no colon |
| MappingStore.BindKeepsConstraints | src/core/models.py:144-194 | a committed bind keeps every unique column and foreign key |
| MappingStore.OthersUnaffected | src/services/mapping.py:373-447 | every identity and external id of another user resolves as before |
| MappingStore.BindReadsBack | src/services/mapping.py:369-447 | in a store built by binds, a committed bind is read back exactly by both lookups |
| MappingStore.NewUserFoundByExternalId | src/services/mapping.py:371-411 | a bind that creates its user stores the external id passed, or the user's key when none or an empty one is, and is found under it |
| MappingStore.RoleIsFilledOnce | src/services/mapping.py:404-417 | a role that is set stays, a missing one is filled in, and nobody else's changes |
| MappingHistory.IdentityResolvesToLastBind | src/services/mapping.py:168-219 | after any history of binds an identity resolves to the instance of its own last committed bind |
| MappingHistory.ExternalIdResolvesToHolder | src/services/mapping.py:221-285 | an external id leads to the identity whose first bind asked for it, under its own provider only |
| MappingStore.PassedExternalIdReadsBack | src/services/mapping.py:404-417 | it is read back by the id passed if and only if the user is new or already carries it |
| MappingStore.RebindIgnoresExternalId | src/services/mapping.py:404-417 | a rebind with another external id commits and is not found under it |
| MappingStore.BindAbortsIff | src/services/mapping.py:373-447 | a bind aborts exactly for a taken external id of a new user or an instance of somebody else |
| MappingDatabase.Database.UpsertAssignmentRow | src/services/mapping.py:433-444 | inserts or moves the user's one row, or fails on another user's instance |
| MappingDatabase.Database.Transact | src/services/mapping.py:373-447 | all rows and the version bump, or nothing |
| MappingDatabase.Database.BindUserInstance | src/services/mapping.py:355-458 | unsupported provider, integrity error, or the committed bind |
| MappingCache.LookupsAreCurrent | src/services/mapping.py:168-285 | over every interleaving of replicas, a lookup returns what the database answered at some instant between its start and its end |
| MappingCache.CurrentEntriesAgree | src/services/mapping.py:138-151 | no entry runs ahead of the version, and one tagged with it is the current rows' answer |
| MappingExpiry.StalenessIsBounded | src/services/mapping.py:138-151 | under arbitrary edits a value served at t was the answer no earlier than t less the TTL less the duration of the lookup whose write was served, by the same replica |
| MappingExpiry.CachesStaySmall | src/services/mapping.py:148-151 | every cache of every replica holds at most 1000 entries in every run |
| MappingHits.PutKeepsOthers | src/services/mapping.py:148-151 | a write adds its entry, keeps the others while there is room, and drops them all when there is none |
| MappingHits.LookKeepsOthers | src/services/mapping.py:138-146 | a look answers exactly from a current, unexpired entry, drops its own entry otherwise, and leaves the others |
| MappingHits.ReloadKeepsVersion | src/services/mapping.py:307-309 | exactly the entries of the version read stay |
| MappingHits.FreshEntryIsServed | src/services/mapping.py:178-182 | an entry of the current version that has not expired is served as it stands |
| MappingHits.RepeatIsHit | src/services/mapping.py:168-219 | the same lookup again, within the TTL and at the same version, gets the value found, without reading rows |
| MappingHits.MissReadsRows | src/services/mapping.py:184-219 | without such an entry the lookup answers with the rows |
| MappingStorages.MappingStorage.CacheGet | src/services/mapping.py:138-146 | a useless entry is popped by the look that finds it |
| MappingStorages.MappingStorage.CachePut | src/services/mapping.py:148-151 | a full cache is emptied first |
| MappingStorages.MappingStorage.FinishLookup | src/services/mapping.py:193-219 | only a row that was found is cached |
| MappingStorages.MappingStorage.ReloadCacheVersion | src/services/mapping.py:300-310 | exactly the entries tagged with the version read survive, unchanged |
| MappingStorages.MappingStorage.InvalidateCache | src/services/mapping.py:287-298 | both caches are emptied |
| MappingStorages.DropStale | src/services/mapping.py:307-309 | the loop that pops them |
| Pool.OneSocket | src/services/ws_manager.py:93-124 | at most one client of a user has a socket, and it is the pooled one |
| Pool.OneGuardian | src/services/ws_manager.py:154-163 | at most one guardian is live and uncancelled: the recorded one |
| Pool.GuardiansSpareConnected | src/services/ws_manager.py:165-219 | no guardian step closes a connected client or takes it out of the pool |
| Pool.LocksExclude | src/services/ws_manager.py:67-75 | a lock is held exactly while its send or connection attempt is under way, by one task at a time, and by none that ended |
| PoolProgress.FailsIffTriedTwice | src/services/ws_manager.py:243-262 | a send ends without an answer if and only if it was tried twice in vain or its connection attempts ran out |
| PoolProgress.FirstFailureIsRetried | src/services/ws_manager.py:253-262 | after a first attempt that was refused, lost or answered with an error the retry is enabled, lock held, until it is taken |
| PoolProgress.ConnectedIsReused | src/services/ws_manager.py:100-104 | a connected pooled client is used as it is |
| PoolProgress.OtherwiseOpensNew | src/services/ws_manager.py:106-116 | otherwise a new client for the caller's info gets all the configured attempts |
| PoolProgress.ConnectsWithinAttempts | src/services/ws_manager.py:126-152 | the first attempt that succeeds pools the client with its info and a live guardian; the send gives up exactly after its attempts |
| PoolProgress.GuardianReconnects | src/services/ws_manager.py:165-219 | a live guardian that sees its client lost reconnects with the first attempt that succeeds, and otherwise rests and looks again |
| PoolProgress.GuardianWatchesPooled | src/services/ws_manager.py:172-183 | a live guardian goes on watching the pooled client while it lives |
| PoolProgress.GuardianStopsOnlyWhen | src/services/ws_manager.py:165-221 | a live guardian stops only without a client or info, on a cancelled listener, a close, or a newly connected client |
| Pool.RetryTakesAnotherClient | src/services/ws_manager.py:252-262 | the one retry never goes to the client the first attempt failed on, which stays closed |
| Pool.ClosingKeepsExclusionIff | src/services/ws_manager.py:264-284 | after a close that drops the locks, the next send runs beside another if and only if one was under way |
| Pool.ClosingIdleKeepsInv | src/services/ws_manager.py:264-284 | while no send is under way and the pool lock is free, the close keeps every invariant |
| Pool.CachedInfoIsPooled | src/services/ws_manager.py:77-79 | the cached info is the one the pooled client was created with |
| PoolTrace.SendsProcessedAtMostOnce | src/services/ws_manager.py:223-262 | keys reach the gateway in blocks of at most two in lock order; ignoring repeats leaves exactly the sends that were written |
| PoolTrace.AnsweredWasProcessedOnce | src/services/ws_manager.py:241-262 | a send that returned an answer was processed exactly once |
| WsManagers.WSConnectionManager.SendBegins | src/services/ws_manager.py:240-241 | one fresh key per logical send |
| WsManagers.WSConnectionManager.AcquireSendLock | src/services/ws_manager.py:243 | the lock goes to one waiting send |
| WsManagers.WSConnectionManager.ClientAnswered | src/services/ws_manager.py:246-252 | the send ends and releases the lock |
| WsManagers.WSConnectionManager.GetCachedInfo | src/services/ws_manager.py:77-79 | the remembered info, if any |
| WsManagers.WSConnectionManager.GetOrCreate | src/services/ws_manager.py:93-116 | reuses a connected client, else closes it and opens a new one under the lock |
| WsManagers.WSConnectionManager.ConnectAttempt | src/services/ws_manager.py:116-152 | bounded retries; success pools the client, its info and a new guardian before the lock is released |
| WsManagers.WSConnectionManager.StartGuardian | src/services/ws_manager.py:154-163 | cancels the old guardian and records the new one |
| WsManagers.WSConnectionManager.ClientWrites | src/services/ws_manager.py:241-262 | a write, refused or failed writes leading to the one retry |
| WsManagers.WSConnectionManager.CloseAndRetry | src/services/ws_manager.py:252-262 | closes the failed client and asks for another, same key |
| WsManagers.WSConnectionManager.GuardianLooks | src/services/ws_manager.py:172-175 | watches the pooled client, or ends without one |
| WsManagers.WSConnectionManager.GuardianWakes | src/services/ws_manager.py:195-201 | reads the info before asking for the lock, or ends without one |
| WsManagers.WSConnectionManager.GuardianReopens | src/services/ws_manager.py:203-213 | closes the pooled client under the lock and opens one with the remembered info |
| WsManagers.WSConnectionManager.GuardianConnects | src/services/ws_manager.py:202-217 | bounded retries; success pools the client |
| WsManagers.WSConnectionManager.CloseConnection | src/services/ws_manager.py:264-284 | guardian, client, info and locks are gone; other users untouched |
| PosixPath.RenderParses | src/services/file_manager.py:84 | normal forms are faithful: root and components can be read back, so normalising is a projection |
| PosixPath.NormPathIdempotent | src/services/file_manager.py:84 | normpath of a normpath is itself |
| PosixPath.StartsAtBase | src/services/file_manager.py:87-89 | the string test for containment is component-wise containment in a base of normal form |
| FilePaths.AcceptedIffInside | src/services/file_manager.py:75-101 | a path is accepted if and only if folding its components over the base ends inside the base and the link filter agrees |
| FilePaths.ResultStaysInside | src/services/file_manager.py:62-66 | the result is empty or a normalised path at or beneath the base, component by component |
| FilePaths.RejectsAllIffNotNormalised | src/services/file_manager.py:83-89 | some path is accepted if and only if the base is in normal form |
| FilePaths.TrailingSlashAcceptsIffRoot | src/services/file_manager.py:83-89 | a workspace base ending in a slash accepts some path if and only if it is "/" |
| FilePaths.PlainPathTranslates | src/services/file_manager.py:83-101 | a path of plain names becomes the base with those names behind it |
| FilePaths.UpCancelsName | src/services/file_manager.py:84-86 | going into a directory and out of it again changes nothing |
| FilePaths.IdlePiecesDrop | src/services/file_manager.py:84-86 | doubled slashes and dots change nothing |
| FilePaths.SiblingIsRejected | src/services/file_manager.py:62-66 | another tenant's directory beside the base is out of reach |
| FilePaths.SanitizeIgnoresControls | src/services/file_manager.py:126-127 | a control character anywhere in a name makes no difference |
| FilePaths.SanitizeIsSafe | src/services/file_manager.py:118-132 | the result is the fallback, or has no separator, control character, leading dot or space and is not empty |
| FilePaths.SanitizeStrips | src/services/file_manager.py:124-129 | directories of either kind and leading dots and spaces come off a safe name, nothing else does |
| FilePaths.SanitizeKeepsExactlySafe | src/services/file_manager.py:118-132 | exactly the safe names are left alone |
| FilePaths.SanitizeIdempotent | src/services/file_manager.py:118-132 | sanitizing twice is sanitizing once |
| Attachments.DownloadGoesTo | src/services/file_manager.py:193-229 | both paths end in the sanitized name, or the id's, suffixed exactly when that is taken |
| Attachments.SuffixBeforeExtension | src/services/file_manager.py:209-213 | the suffix goes in front of the last extension |
| Attachments.SuffixWithoutExtension | src/services/file_manager.py:209-213 | and at the end of a name without one |
| Attachments.RoutesAgree | src/services/file_manager.py:193-229 | for every raw name, with or without suffix, the recorded container path leads back to exactly the host path written |
| Attachments.AllRoutesAgree | src/services/file_manager.py:149-180 | so for every file of a message |
| Attachments.OverwritesIff | src/services/file_manager.py:207-214 | a download overwrites a file exactly when both its names are taken |
| Attachments.OverwritesNothingIffClear | src/services/file_manager.py:149-214 | the files of a message overwrite neither one another nor an older file if and only if every crowded one finds its suffixed path free |
| Attachments.NothingOverwritten | src/services/file_manager.py:149-214 | suffixed paths that are off the disk, drawn once and no file's plain path are enough for that |
| Attachments.DownloadOne | src/services/file_manager.py:182-229 | name, collision suffix and both paths, or nothing for a file over the limit |
| Attachments.DownloadAttachments | src/services/file_manager.py:149-180 | failing and oversized files are skipped, the rest keep their order |
| Base64Url.RoundTrip | src/services/openclaw_client.py:65-73 | decoding an encoding gives the bytes back; the length is never 1 modulo 4 |
| Base64Url.ReencodesIffCanonical | src/services/openclaw_client.py:65-73 | re-encoding a decoded string gives it back if and only if the string is canonical |
| Base64Url.EncodeIsSpelling | src/services/openclaw_client.py:65-66 | the encoding is its sextets spelled out: rstrip takes off the padding and nothing else |
| Base64Url.QuadsSpellBytes | src/services/openclaw_client.py:65-66 | every whole quad spells its three bytes as one 24-bit number |
| Base64Url.TailSpellsBytes | src/services/openclaw_client.py:65-66 | the last one or two bytes are spelled as if zeros followed |
| Base64Url.AlphabetInOrder | src/services/openclaw_client.py:65-66 | the alphabet of section 5 of RFC 4648, in order |
| Base64Url.RfcVectors | src/services/openclaw_client.py:65-66 | test vectors of section 10 of RFC 4648 |
| Base64Url.StandardSpellingDecodes | src/services/openclaw_client.py:69-73 | "+" and "/" decode as "-" and "_" do |
| Base64Url.DecodeAlphabet | src/services/openclaw_client.py:69-73 | on alphabet strings the decoder fails exactly on lengths of 1 modulo 4 |
| ServiceUrls.LruRetention | src/services/teams.py:98-123 | never more than cap entries; the latest URL is returned if and only if fewer than cap others were touched since |
| ServiceUrls.RegisteredIsReturned | src/services/teams.py:98-123 | an allowed URL, without the slashes at its end, is what the next lookup returns; another changes nothing |
| ServiceUrls.TeamsAdapter.RegisterServiceUrl | src/services/teams.py:98-116 | rejected URLs change nothing; accepted ones go to the end and the oldest are evicted |
| ServiceUrls.TeamsAdapter.Evict | src/services/teams.py:115-116 | the eviction loop keeps the most recent cap entries |
| ServiceUrls.TeamsAdapter.GetServiceUrl | src/services/teams.py:118-123 | the URL, moved to the end, or the default |
| PollCursor.EachUpdateOnce | src/services/telegram.py:97-132 | updates handed over are exactly the offered ones up to the cursor, in order, once each; the cursor never decreases |
| PollCursor.GoodTurnHandsAll | src/services/telegram.py:121-124 | a turn whose handlers do not raise hands over the whole answer and leaves the cursor at its last id |
| PollCursor.RaisingTurnHandsPrefix | src/services/telegram.py:121-132 | a handler that raises is the last one called, and the loop ends only when cancelled or stopped |
| PollCursor.OtherTurnsHandNothing | src/services/telegram.py:113-132 | failed requests hand over nothing, and end the loop only when cancelled or stopped |
| PollCursor.OfferedIsHanded | src/services/telegram.py:97-132 | over a run, what was offered in a good turn is handed over for good and at most the cursor |
| PollCursor.GoodTurnCatchesUp | src/services/telegram.py:97-132 | one good turn with room for all leaves no update behind |
| PollCursor.ServerAnswers | src/services/telegram.py:102-112 | the server offers exactly its updates at or above the offset, and answers with the first of them |
| PollCursor.TelegramAdapter.HandleBatch | src/services/telegram.py:121-124 | the cursor passes an update before its handler runs, and stops where the handler raises |
| PollCursor.TelegramAdapter.PollLoop | src/services/telegram.py:97-132 | the loop over failures, batches and stops computes the run |

## Left out

- HTTP, WebSocket, SQL and file input/output: only the outcome of each step is modelled.
- Ed25519, Fernet and JWT: library cryptography behind thin wrappers.
- Symlink resolution (`src/services/file_manager.py:92-99`): an arbitrary filter of the candidate that can only reject.
- Attachments.RoutesAgree: assumes a file id that is itself a safe name, as the server's ids are, and the default container root; another container root is outside the prefix that `container_path_to_host` hard-codes.
- AppUser, UserIdentity and the other columns' length limits, cascades and timestamps: the tables are maps of unbounded strings.
- The lazily created version row (`src/services/mapping.py:133-135`) and `remember_channel`/`get_channel`.
- MappingCache.LookupsAreCurrent: keys hold provider names already validated; concurrent transactions are serialised, so a bind that loses a race is a bind that aborts.
- A reload's version read and its pops are one step with an arbitrary version, which allows more than the source does.
- Cancellation landing inside a handshake or a close, the tie between a timeout and a completion, and `close_all` at shutdown.
- WsManagers.WSConnectionManager.CloseConnection: requires that no task holds or waits for the user's locks; the source also runs it while a send is under way, and what that breaks is `Pool.ClosingKeepsExclusionIff`. A send still queued on a dropped lock object, and a guardian cancelled in mid-handshake, are not modelled.
- Pool.GuardiansSpareConnected: covers runs in which `close_connection` meets no holder or waiter of the locks; the idle sweep that calls it, and all backoff delays, are not modelled.
- The ten-second expiry of an agent's buffered text may happen at any time in the model; streaming callbacks, skipped event kinds and sub-agent sessions are filtered out before it.
- Missing update ids (`src/services/telegram.py:123` reads them as 0): the server always sends them.
- Whether a service URL is on the allow list: an arbitrary predicate of the URL.
- String lowering is exact for results in ASCII, which is all the two comparisons need.
- Router message flow, chat adapters, provisioning, health checks, metrics and logging: plumbing or easy members.
