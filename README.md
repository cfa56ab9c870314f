# drWearable gate client: queue engine, stream framing and gate states in Dafny

This project models the core of the drWearable gate-control client for a
wearable device. The client holds a live Server-Sent-Events connection to the
Waggledance access-control backend. From that stream it keeps an ordered
queue of players waiting at the gates, and it lets the operator accept or
deny the player at the head of the queue.

The model covers three source files:

- `GateViewModel.kt` (`com.drgt`). This is the view model that owns the
  queue, the last state seen per gate position, the border feedback, the
  last handled player and the session fields. It is modelled as the class
  `GateViewModels.GateViewModel`. Its methods are proved against pure
  functions in module `GateQueue` (queue filters, the fold of a gate batch,
  the decision on a player arrival, the dispatch by message tag, the access
  request) and in module `SessionRetry` (the retry loop). The lemmas in those
  modules prove the promised properties:
  - removal by position is an order-preserving filter and is idempotent;
  - a gate batch clears the queue when every gate is ReadyForUse, and
    otherwise removes exactly the resolved positions, whatever was recorded
    before;
  - replaying a gate batch has no further effect;
  - `lastGateStates` keeps the last state of each position in the batch;
  - a player id is never queued twice;
  - the retry loop converges after failures and starts the stream at most
    once.
- `SseClient.start` in `WaggleDanceService.kt` (`com.drgt`). This is the
  line loop that turns stream lines into messages, modelled as
  `EventStream.ReadMessages`. It is proved equal to `Interpret`, and
  `Interpret` is proved equal to an independent block-splitting reference,
  `Blocks`. The loop is a simplified form of the event-stream interpretation
  in section 9.2.6 of the WHATWG HTML Living Standard. It trims the whole
  value, joins data lines without a line feed, and emits on every empty
  line even when nothing was accumulated. The model follows the code.
- `gate.kt` (`com.example`). This file holds the nine gate states with their
  wire strings and the `from` lookup, modelled in module `GateStates`. The
  `GateState` that `GateViewModel.kt` imports is not part of this model. Its
  values are taken to be the strings of `gate.kt`, and `GateQueue.Resolves`
  compares against them.

Inputs from the environment are parameters:

- the decoded JSON payload of a message (`PlayerPayload`, `GateEntry`);
- whether notification permission is granted;
- whether the stream reports connected;
- the result of `getSessionId` and of `sendAccessEvent`.

A handler that throws inside the stream collector ends the collection,
because the exception is caught around `collect`. This is modelled as the
outcome `Aborted`. The source throws in these cases:

- a player payload without `passphotos`;
- a player payload with an empty `passphotos` array;
- a player payload whose chosen photo has no `data`;
- a gate message without a `list`, where the `!!` of the second loop fails.

Notes on the code's behaviour, which the model follows:

- `setStatusAccepted`/`setStatusDenied` do not remove the head entry, and
  they do not check for an empty session id.
- The per-position change detection in `handleGateData` only filters the
  first loop. The second loop removes every resolved position again, so the
  queue result does not depend on earlier gate states.
- There is no heartbeat message kind.
- A malformed payload ends the stream collection; it is not skipped.
- The arrival notification is commented out.

## Model

| member | source | states |
|---|---|---|
| `GateStates.Value` | app/src/main/java/com/example/drwearable/presentation/data/model/gate.kt:9-18 | the wire string of each constant; `ValuesDistinct` and `FromValue` specify it |
| `GateStates.From` | app/src/main/java/com/example/drwearable/presentation/data/model/gate.kt:21 | `GateState.from`; specified by `FromValue`, `FromUnknown`, `FromSound` and `FromDefinedIff` |
| `GateStates.Find` | app/src/main/java/com/example/drwearable/presentation/data/model/gate.kt:21 | `find` returns an entry whose value is `s`, and it is the first such entry; it returns none exactly when no entry has value `s` |
| `GateStates.EntryListed` | app/src/main/java/com/example/drwearable/presentation/data/model/gate.kt:9-18 | every enum constant appears in `entries` |
| `GateStates.ValuesDistinct` | app/src/main/java/com/example/drwearable/presentation/data/model/gate.kt:10-18 | the nine wire strings are pairwise distinct |
| `GateStates.FromValue` | app/src/main/java/com/example/drwearable/presentation/data/model/gate.kt:9-21 | round trip: `from(g.value) == g` for every constant |
| `GateStates.FromUnknown` | app/src/main/java/com/example/drwearable/presentation/data/model/gate.kt:21 | `from(s)` is null when `s` is none of the nine values |
| `GateStates.FromSound` | app/src/main/java/com/example/drwearable/presentation/data/model/gate.kt:21 | a non-null `from(s)` has value `s` |
| `GateStates.FromDefinedIff` | app/src/main/java/com/example/drwearable/presentation/data/model/gate.kt:21 | `from(s)` is non-null exactly when some constant has value `s` |
| `EventStream.Trim` | app/src/main/java/com/drgt/drwearable/presentation/network/WaggleDanceService.kt:94 | Kotlin's `trim()`; specified by `TrimSpec` and `TrimIdempotent` |
| `EventStream.Step` | app/src/main/java/com/drgt/drwearable/presentation/network/WaggleDanceService.kt:91-101 | one iteration of the read loop; specified by `StepNonBlank`, `DataLineAppends`, `EmptyLineEmits` and `OtherLineIgnored` |
| `EventStream.Interpret` | app/src/main/java/com/drgt/drwearable/presentation/network/WaggleDanceService.kt:88-102 | the read loop from its initial state; specified by `InterpretIsBlocks`, `MessageCountIsBlankCount`, `InterpretSnoc` and `TrailingDataNotEmitted` |
| `EventStream.TrimStartSpec` | app/src/main/java/com/drgt/drwearable/presentation/network/WaggleDanceService.kt:94 | the leading trim cuts off only a whitespace prefix, and what it keeps does not start with whitespace |
| `EventStream.TrimEndSpec` | app/src/main/java/com/drgt/drwearable/presentation/network/WaggleDanceService.kt:94 | the trailing trim cuts off only a whitespace suffix, and what it keeps does not end with whitespace |
| `EventStream.TrimSpec` | app/src/main/java/com/drgt/drwearable/presentation/network/WaggleDanceService.kt:94 | `trim()` keeps the infix between a whitespace prefix and a whitespace suffix, with no whitespace at either end; the result is empty exactly when the value is all whitespace |
| `EventStream.TrimIdempotent` | app/src/main/java/com/drgt/drwearable/presentation/network/WaggleDanceService.kt:94 | trimming twice is trimming once |
| `EventStream.ReadMessages` | app/src/main/java/com/drgt/drwearable/presentation/network/WaggleDanceService.kt:88-102 | the read loop with its builder emits exactly the messages of `Interpret(lines)`, in order, and leaves its pending text in the builder |
| `EventStream.StepNonBlank` | app/src/main/java/com/drgt/drwearable/presentation/network/WaggleDanceService.kt:91-101 | a non-empty line emits nothing and appends its contribution |
| `EventStream.RunWithoutBlank` | app/src/main/java/com/drgt/drwearable/presentation/network/WaggleDanceService.kt:91-101 | over lines with no empty line nothing is emitted, and the builder gains their contributions concatenated |
| `EventStream.InterpretIsBlocks` | app/src/main/java/com/drgt/drwearable/presentation/network/WaggleDanceService.kt:88-102 | the loop agrees with the block reference: each empty line closes a message made of the contributions since the previous empty line, and the last block stays pending |
| `EventStream.MessageCountIsBlankCount` | app/src/main/java/com/drgt/drwearable/presentation/network/WaggleDanceService.kt:96-100 | the number of messages equals the number of empty lines |
| `EventStream.InterpretSnoc` | app/src/main/java/com/drgt/drwearable/presentation/network/WaggleDanceService.kt:91-101 | reading one more line is one more iteration of the loop body |
| `EventStream.DataLineAppends` | app/src/main/java/com/drgt/drwearable/presentation/network/WaggleDanceService.kt:93-95 | a `data:` line adds exactly `line.substring(5).trim()` to the builder and emits nothing |
| `EventStream.DataLinesConcatenate` | app/src/main/java/com/drgt/drwearable/presentation/network/WaggleDanceService.kt:88-94 | consecutive data contributions are joined with no separator |
| `EventStream.EmptyLineEmits` | app/src/main/java/com/drgt/drwearable/presentation/network/WaggleDanceService.kt:96-100 | an empty line emits the builder's text, `""` included, and clears the builder |
| `EventStream.OtherLineIgnored` | app/src/main/java/com/drgt/drwearable/presentation/network/WaggleDanceService.kt:91-101 | a line that is neither empty nor a data line changes nothing |
| `EventStream.TrailingDataNotEmitted` | app/src/main/java/com/drgt/drwearable/presentation/network/WaggleDanceService.kt:91-102 | data after the last empty line is never emitted and only reaches the builder |
| `EventStream.ExampleFrame` | app/src/main/java/com/drgt/drwearable/presentation/network/WaggleDanceService.kt:88-102 | an `event:` line, two data lines and an empty line give the single message of the two trimmed values joined |
| `GateQueue.Contains` | app/src/main/java/com/drgt/drwearable/presentation/ui/screens/gate/GateViewModel.kt:218 | Kotlin's `String.contains`; specified by `ContainsIff` |
| `GateQueue.ContainsIff` | app/src/main/java/com/drgt/drwearable/presentation/ui/screens/gate/GateViewModel.kt:218 | `Contains(s, t)` holds exactly when `t` occurs in `s` at some offset |
| `GateQueue.RouteOf` | app/src/main/java/com/drgt/drwearable/presentation/ui/screens/gate/GateViewModel.kt:217-224 | the `when` of the collector; specified by `RouteCases` and `BothTagsGoToPlayer` |
| `GateQueue.RouteCases` | app/src/main/java/com/drgt/drwearable/presentation/ui/screens/gate/GateViewModel.kt:217-224 | a message goes to player handling iff it has the player tag and permission is granted; to gate handling iff it has the gate tag and not the player tag; otherwise it is dropped, including a player message without permission |
| `GateQueue.ContainsAt` | app/src/main/java/com/drgt/drwearable/presentation/ui/screens/gate/GateViewModel.kt:218 | `contains` holds once the tag occurs at some offset, the first half of `ContainsIff` |
| `GateQueue.BothTagsGoToPlayer` | app/src/main/java/com/drgt/drwearable/presentation/ui/screens/gate/GateViewModel.kt:217-223 | a message with both tags goes to player handling when permitted and is dropped otherwise |
| `GateQueue.WithoutAll` | app/src/main/java/com/drgt/drwearable/presentation/ui/screens/gate/GateViewModel.kt:81-83 | the filter keeps exactly the entries whose position is outside the set, and never grows the queue |
| `GateQueue.WithoutAllKeepsOrder` | app/src/main/java/com/drgt/drwearable/presentation/ui/screens/gate/GateViewModel.kt:82 | the filter's result is a subsequence of the queue |
| `GateQueue.WithoutAllCounts` | app/src/main/java/com/drgt/drwearable/presentation/ui/screens/gate/GateViewModel.kt:82 | each entry outside the removed positions keeps its multiplicity, and entries at them are gone |
| `GateQueue.WithoutAllTwice` | app/src/main/java/com/drgt/drwearable/presentation/ui/screens/gate/GateViewModel.kt:81-83 | filtering by one set and then another is filtering by their union |
| `GateQueue.WithoutAllNoMatch` | app/src/main/java/com/drgt/drwearable/presentation/ui/screens/gate/GateViewModel.kt:324-327 | a filter that matches no entry leaves the queue as it is, so the `isGatePositionInQueue` guard does not change the result |
| `GateQueue.RemoveByPositionSpec` | app/src/main/java/com/drgt/drwearable/presentation/ui/screens/gate/GateViewModel.kt:81-83 | `removeByPosition(p)` leaves no entry at `p`, keeps every other entry with its multiplicity and relative order, and applying it twice equals applying it once |
| `GateQueue.WithoutAllKeepsUniqueIds` | app/src/main/java/com/drgt/drwearable/presentation/ui/screens/gate/GateViewModel.kt:81-83 | removal keeps player ids unique |
| `GateQueue.PhotoIndex` | app/src/main/java/com/drgt/drwearable/presentation/ui/screens/gate/GateViewModel.kt:268-273 | the photo index is in range and is 1 exactly when there are two or more photos |
| `GateQueue.QueueAfterArrival` | app/src/main/java/com/drgt/drwearable/presentation/ui/screens/gate/GateViewModel.kt:259-300 | the queue after `handlePlayerData`; specified by `ArrivalSpec`, `ArrivalKeepsUniqueIds` and `DuplicateArrivalDropped` |
| `GateQueue.Arrive` | app/src/main/java/com/drgt/drwearable/presentation/ui/screens/gate/GateViewModel.kt:259-300 | an admitted entry's id is not yet in the queue |
| `GateQueue.ArrivalSpec` | app/src/main/java/com/drgt/drwearable/presentation/ui/screens/gate/GateViewModel.kt:261-295 | a player payload either appends one entry at the end or leaves the queue unchanged, and it appends iff `hasData` is true, `type` is "Gate", the id is not queued, `passphotos` is present and non-empty, and the photo at index 1 (two or more photos) or 0 has `data` |
| `GateQueue.AdmittedEntry` | app/src/main/java/com/drgt/drwearable/presentation/ui/screens/gate/GateViewModel.kt:263-288 | an admitted entry has id -1 when `playerId` is missing or null, position "" when `position` is missing or null, the photo at index 1 when there are two or more photos and index 0 otherwise, and is blacklisted only when the payload says true |
| `GateQueue.ArrivalKeepsUniqueIds` | app/src/main/java/com/drgt/drwearable/presentation/ui/screens/gate/GateViewModel.kt:263-266 | arrivals keep player ids unique |
| `GateQueue.DuplicateArrivalDropped` | app/src/main/java/com/drgt/drwearable/presentation/ui/screens/gate/GateViewModel.kt:263-266 | the same payload arriving a second time is a duplicate and leaves the queue as it is |
| `GateQueue.RecordStates` | app/src/main/java/com/drgt/drwearable/presentation/ui/screens/gate/GateViewModel.kt:313-320 | the gate map after the first loop; specified by `RecordStatesLastWins`, `RecordStatesElsewhere`, `RecordStatesKeys` and `RecordStatesIdempotent` |
| `GateQueue.QueueAfterBatch` | app/src/main/java/com/drgt/drwearable/presentation/ui/screens/gate/GateViewModel.kt:312-366 | the queue after `handleGateData`; specified by `AllReadyClears`, `BatchRemovesResolved`, `BatchIdempotent` and `BatchKeepsUniqueIds` |
| `GateQueue.ResolvedPositionsSpec` | app/src/main/java/com/drgt/drwearable/presentation/ui/screens/gate/GateViewModel.kt:322-334 | a position is resolved iff some gate of the batch at that position is AccessGranted, AccessDenied or ReadyForUse |
| `GateQueue.RecordStatesLastWins` | app/src/main/java/com/drgt/drwearable/presentation/ui/screens/gate/GateViewModel.kt:313-320 | after a batch, each position in the batch maps to the state of its last occurrence |
| `GateQueue.RecordStatesElsewhere` | app/src/main/java/com/drgt/drwearable/presentation/ui/screens/gate/GateViewModel.kt:313-320 | positions outside the batch keep their previous state, or stay unrecorded |
| `GateQueue.RecordStatesKeys` | app/src/main/java/com/drgt/drwearable/presentation/ui/screens/gate/GateViewModel.kt:313-320 | the recorded positions are the previous ones plus those of the batch |
| `GateQueue.RecordStatesIdempotent` | app/src/main/java/com/drgt/drwearable/presentation/ui/screens/gate/GateViewModel.kt:316-320 | recording the same batch again changes nothing |
| `GateQueue.AllReadyClears` | app/src/main/java/com/drgt/drwearable/presentation/ui/screens/gate/GateViewModel.kt:338-366 | when every gate of the batch is ReadyForUse, the empty batch included, the queue becomes empty |
| `GateQueue.BatchRemovesResolved` | app/src/main/java/com/drgt/drwearable/presentation/ui/screens/gate/GateViewModel.kt:342-363 | otherwise the queue keeps exactly the old entries whose position is not resolved by the batch, in their order |
| `GateQueue.BatchIdempotent` | app/src/main/java/com/drgt/drwearable/presentation/ui/screens/gate/GateViewModel.kt:312-366 | replaying a batch has no further effect on the queue |
| `GateQueue.BatchKeepsUniqueIds` | app/src/main/java/com/drgt/drwearable/presentation/ui/screens/gate/GateViewModel.kt:312-366 | gate batches keep player ids unique |
| `GateQueue.HeadRequest` | app/src/main/java/com/drgt/drwearable/presentation/ui/screens/gate/GateViewModel.kt:143-148 | no access event on an empty queue; otherwise one for the head's position under the current session id, granted or not as decided |
| `GateQueue.DecisionBorder` | app/src/main/java/com/drgt/drwearable/presentation/ui/screens/gate/GateViewModel.kt:156 | a confirmed decision shows Green exactly when access was granted and Red exactly when it was denied |
| `GateQueue.GrantedScenario` | app/src/main/java/com/drgt/drwearable/presentation/ui/screens/gate/GateViewModel.kt:259-366 | player 7 at A1 is queued; AccessGranted at A1 empties the queue; the same batch again keeps it empty; a "Query" payload is ignored |
| `SessionRetry.RetryRun` | app/src/main/java/com/drgt/drwearable/presentation/ui/screens/gate/GateViewModel.kt:119-133 | the retry loop over a sequence of polls; specified by `RetryKeepsTrying`, `RetryConverges`, `RetryStartsOnce` and `RetryStopsConnected` |
| `SessionRetry.RetryKeepsTrying` | app/src/main/java/com/drgt/drwearable/presentation/ui/screens/gate/GateViewModel.kt:120-132 | failed attempts while disconnected change nothing and keep the loop retrying |
| `SessionRetry.RetryConverges` | app/src/main/java/com/drgt/drwearable/presentation/ui/screens/gate/GateViewModel.kt:116-133 | after any number of failures, the first success stores its id, clears the flag and starts the stream exactly once |
| `SessionRetry.RetryStartsOnce` | app/src/main/java/com/drgt/drwearable/presentation/ui/screens/gate/GateViewModel.kt:120-126 | the loop starts the stream at most once, exactly when it clears the flag, and changes the session id only then |
| `SessionRetry.RetryStopsConnected` | app/src/main/java/com/drgt/drwearable/presentation/ui/screens/gate/GateViewModel.kt:120 | a loop that stops because the stream is connected leaves the flag set |
| `GateViewModels.GateViewModel.constructor` | app/src/main/java/com/drgt/drwearable/presentation/ui/screens/gate/GateViewModel.kt:47-69 | empty queue and gate map, no last player, Neutral border, then `initSession` with the first session result: a failure leaves exactly one retry loop launched |
| `GateViewModels.GateViewModel.EnQueue` | app/src/main/java/com/drgt/drwearable/presentation/ui/screens/gate/GateViewModel.kt:74-76 | the player is appended at the end |
| `GateViewModels.GateViewModel.RemoveByPosition` | app/src/main/java/com/drgt/drwearable/presentation/ui/screens/gate/GateViewModel.kt:81-83 | the queue becomes the old queue without the entries at the position |
| `GateViewModels.GateViewModel.ClearQueue` | app/src/main/java/com/drgt/drwearable/presentation/ui/screens/gate/GateViewModel.kt:88-90 | the queue becomes empty |
| `GateViewModels.GateViewModel.StartSseStream` | app/src/main/java/com/drgt/drwearable/presentation/ui/screens/gate/GateViewModel.kt:211-231 | one more stream collection is started |
| `GateViewModels.GateViewModel.InitSession` | app/src/main/java/com/drgt/drwearable/presentation/ui/screens/gate/GateViewModel.kt:96-110 | the flag is reset first; success stores the id and starts the stream with the flag clear and launches no loop; failure launches exactly one retry loop and leaves the flag set |
| `GateViewModels.GateViewModel.ScheduleRetrySession` | app/src/main/java/com/drgt/drwearable/presentation/ui/screens/gate/GateViewModel.kt:116-119 | a loop is launched, and the count of launched loops goes up by one, exactly when none was in progress; afterwards the flag is set |
| `GateViewModels.GateViewModel.RetryLoop` | app/src/main/java/com/drgt/drwearable/presentation/ui/screens/gate/GateViewModel.kt:119-133 | the session fields end as `RetryRun` of the old ones over the polls |
| `GateViewModels.GateViewModel.MonitorTick` | app/src/main/java/com/drgt/drwearable/presentation/ui/screens/gate/GateViewModel.kt:243-246 | a retry loop is launched exactly when disconnected and not already retrying |
| `GateViewModels.GateViewModel.SetStatus` | app/src/main/java/com/drgt/drwearable/presentation/ui/screens/gate/GateViewModel.kt:140-204 | sends the head request (none on an empty queue) and never changes the queue; on a successful response it records `LastPlayer("first last", isBlacklisted, granted)`, shows Green or Red and asks for a revert after 3000 or 5000 ms; otherwise nothing changes |
| `GateViewModels.GateViewModel.SetStatusAccepted` | app/src/main/java/com/drgt/drwearable/presentation/ui/screens/gate/GateViewModel.kt:140-168 | as `SetStatus` with granted: Green, revert after 3000 ms |
| `GateViewModels.GateViewModel.SetStatusDenied` | app/src/main/java/com/drgt/drwearable/presentation/ui/screens/gate/GateViewModel.kt:173-204 | as `SetStatus` with denied: Red, revert after 5000 ms |
| `GateViewModels.GateViewModel.RevertFeedback` | app/src/main/java/com/drgt/drwearable/presentation/ui/screens/gate/GateViewModel.kt:157-159 | after the dwell the last player is cleared and the border is Neutral |
| `GateViewModels.GateViewModel.HandlePlayerData` | app/src/main/java/com/drgt/drwearable/presentation/ui/screens/gate/GateViewModel.kt:259-300 | the queue becomes `QueueAfterArrival`, a blacklisted arrival turns the border Red, and an unreadable photo aborts with nothing changed |
| `GateViewModels.GateViewModel.RemoveIfQueued` | app/src/main/java/com/drgt/drwearable/presentation/ui/screens/gate/GateViewModel.kt:324-327 | the guarded removal adds the position to the positions filtered out |
| `GateViewModels.GateViewModel.RecordGates` | app/src/main/java/com/drgt/drwearable/presentation/ui/screens/gate/GateViewModel.kt:312-336 | the first loop records the batch's states and removes only positions the batch resolves |
| `GateViewModels.GateViewModel.RemoveResolved` | app/src/main/java/com/drgt/drwearable/presentation/ui/screens/gate/GateViewModel.kt:343-363 | the second loop removes the entries at every resolved position |
| `GateViewModels.GateViewModel.HandleGateData` | app/src/main/java/com/drgt/drwearable/presentation/ui/screens/gate/GateViewModel.kt:307-367 | the queue becomes `QueueAfterBatch` and `lastGateStates` becomes `RecordStates` of the batch; a missing list aborts with nothing changed |
| `GateViewModels.Handle` | app/src/main/java/com/drgt/drwearable/presentation/ui/screens/gate/GateViewModel.kt:216-224 | one message routed by `RouteOf` to its handler's effect, a dropped message changing nothing; specified by `HandleKeepsUniqueIds` and the collection lemmas |
| `GateViewModels.CollectRun` | app/src/main/java/com/drgt/drwearable/presentation/ui/screens/gate/GateViewModel.kt:213-228 | the collection of a stream; specified by `CollectCount`, `CollectAppend`, `CollectStopsAtFirstAbort` and `CollectKeepsUniqueIds` |
| `GateViewModels.CollectCount` | app/src/main/java/com/drgt/drwearable/presentation/ui/screens/gate/GateViewModel.kt:213-228 | a collection that does not abort handles every message; one that aborts handles at least one and no more than the stream holds |
| `GateViewModels.CollectAppend` | app/src/main/java/com/drgt/drwearable/presentation/ui/screens/gate/GateViewModel.kt:213-228 | messages after an abort are never handled; after a collection that completed, the next messages are collected from the fields it left |
| `GateViewModels.CollectStopsAtFirstAbort` | app/src/main/java/com/drgt/drwearable/presentation/ui/screens/gate/GateViewModel.kt:213-228 | an aborted collection of `n` messages completed the first `n - 1`, and handling message `n` aborted and produced the final fields |
| `GateViewModels.HandleKeepsUniqueIds` | app/src/main/java/com/drgt/drwearable/presentation/ui/screens/gate/GateViewModel.kt:216-224 | handling one message keeps player ids unique |
| `GateViewModels.CollectKeepsUniqueIds` | app/src/main/java/com/drgt/drwearable/presentation/ui/screens/gate/GateViewModel.kt:213-228 | a whole collection keeps player ids unique |
| `GateViewModels.GateViewModel.OnMessage` | app/src/main/java/com/drgt/drwearable/presentation/ui/screens/gate/GateViewModel.kt:216-224 | the fields and outcome after one message are exactly those `Handle` gives for the old fields |
| `GateViewModels.GateViewModel.Collect` | app/src/main/java/com/drgt/drwearable/presentation/ui/screens/gate/GateViewModel.kt:213-228 | the fields, the number of messages handled and whether collection aborted are exactly those of `CollectRun` over the stream, and unique player ids stay unique |

## Left out

- Coroutines and time. The model leaves out `viewModelScope.launch`, the `delay` waits, the cancellation of `monitorJob` and the `isActive` loop of `startConnectionMonitor`. The 3 s and 5 s feedback dwell is a returned duration plus the explicit `RevertFeedback` step. The retry loop's 10 s wait is gone.
- Interleavings between coroutines are not modelled. For example, a retry loop can succeed (lines 122-125) and then wait in `delay(10_000)` (line 131). Meanwhile the monitor that `startSseStream` starts (lines 230, 243-245) can see the stream disconnected and launch a second loop, which sets the flag again. The first loop then passes its check at line 120 once more, and the two loops run side by side.
- `repository.isSseConnected` is written by repository code that is not part of this model, so it is an input boolean.
- Network access is not modelled: Retrofit/OkHttp, `sendMessageWithSession` and the request and response handling in `SseClient.start` (lines 70-87, 103-112). Results are parameters.
- `BufferedReader.readLine`, which splits the byte stream into lines, is not modelled; the loop takes the lines as given.
- JSON decoding (`getPayload`, `getList`) is not modelled, because the drgt repository file that holds it is not part of this model. Handlers take decoded records. A record cannot express a field of the wrong JSON type, a list element that is not an object, or a JSON null. In the source each of these throws. That covers a null `hasData`, `type` or `isBlacklisted` (`asBoolean`/`asString`, lines 261-262, 275), a null `player` or player name field (`getAsJsonObject`/`asString`, lines 267, 283-286), and a null gate `position` or `state`.
- `Base64.decode` and `BitmapFactory.decodeByteArray` are foreign. An image is represented by its Base64 text, and a decoding failure is not modelled.
- `playerId` is a Kotlin `Int` read with `asInt`. The model uses an unbounded integer, so it does not model 32-bit truncation of out-of-range numbers.
- Notification posting is not modelled; it is commented out in the source. The permission check is a boolean on each message.
- Logging (`Log.d`, `Log.e`) is not modelled.
- The earlier draft `GateViewModel.kt` under `com.example` is not part of this model. Its queue delegates to a `PlayerQueueManager` that is not shown.
- The Compose UI, gestures, theming, `NetworkUtils.kt` and the view-model factories are presentation and wiring, outside the modelled core.
- Dafny strings are sequences of Unicode scalar values, while Kotlin strings are UTF-16. `substring(5)`, `trim()` and `contains` agree on well-formed text, but an unpaired surrogate (such as a `\uD800` escape in a JSON string) cannot be represented.
