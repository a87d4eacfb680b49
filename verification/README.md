# NexusChat: a verified model

NexusChat is a chat server that runs as any number of identical instances behind a load balancer. Each instance keeps
its WebSocket connections in memory; all of them share one Redis (pub/sub channels, sorted sets, a list) and one message
table. This project models the parts of it that hold state and interleave, and proves what they guarantee over whole
runs.

`dafny verify dfyconfig.toml` checks everything.

| file | what it models |
|---|---|
| `Events.dfy` | events, payloads, channel names |
| `ConnectionState.dfy` | the connection manager as a state machine over values: every stretch of code without a suspension point is one step |
| `ConnectionEffects.dfy` | what each of its operations does, said without the operations' definitions, and what follows over runs |
| `ConnectionManager.dfy` | the same manager as shared objects updated in place; every method is proved to be one or more steps of `ConnectionState`, or a named part of one |
| `MessageStore.dfy` | `save_message` and its commit as steps of concurrent transactions |
| `Publishing.dfy` | the life of concurrent `publish` calls: attempts, dead letters, and which log entry copies which call |
| `RoomProtocol.dfy` | N instances, Redis and the table: join, publish, dispatch, lost links, crashes |
| `RoomInvariants.dfy` | the invariant of that system and its preservation by every step |
| `RoomTheorems.dfy` | the theorems over whole runs |
| `RoomEffects.dfy` | what the remaining steps do, the dead-letter list over runs, and which entries never arrive |
| `RedisBroker.dfy`, `RoomBroker.dfy` | the broker object, one call at a time, and the proof that its calls are steps of the room protocol |
| `DeadLetters.dfy`, `Backoff.dfy` | the dead-letter list, reconnection on both sides |
| `Pagination.dfy` | cursor pagination and the client's walk through a room's history |
| `RateLimiter.dfy` | the sliding-window limiter |
| `Presence.dfy` | presence with lazy purging |

How the environment appears: Redis channels are append-only logs, a sorted set is a map from member to score, the table
is a map of committed rows with a primary key and a unique constraint on non-null keys. Database answers, send failures,
command outcomes, set iteration orders and the interleaving of steps are parameters or choices of the run, and the
theorems hold for all of them. Clock readings are parameters too; what a limiter or presence theorem asks of them is in
its `requires`, and where the clocks decide whether a property holds, the exact condition on them is proved. In `Conn`,
`accepted` and `written` are history; in `Node`, `next` is; in `Bus`, `sources` is; in `System`, `granted` is: no step's
choice depends on them.

Main results, in the system's own terms:

* **Delivery.** What any client receives from a room is a subsequence of the room's publish log; any two clients on any
  instances agree on the order of what they both receive; no log entry is enqueued twice on a connection; and over any
  stretch without a lost link or an overflow a connection gets every entry its instance reads, in order, without gaps:
  every chat and presence event, and every typing indicator but its own. What is published while an instance is not
  subscribed, and what its link had received but nobody had read when it was lost, never reaches a connection there.
* **Publishing.** With any number of calls interleaved, a call leaves one copy in its channel per attempt Redis applied,
  at most three and at least one once acknowledged; no connection is handed more copies than that. A call gives up if and
  only if its three attempts failed, and has a dead letter if and only if Redis then applied its push. The dead-letter
  list is the newest 10000 right after every trim that Redis applied, and at any moment exceeds 10000 by at most the
  letters whose own trim is still due or was lost.
* **Persistence.** A chat event in a log, a queue or a client's hands always carries the id of a committed row.
* **Idempotency.** Under every interleaving one row per key, and every handler with that key publishes that row's id.
  Published and stored fields agree for all handlers if and only if reused keys come with repeated messages. The
  constraint refuses a handler with a usable key only if another commit came between its lookup and its insert.
* **Index.** No registered connection is ever missing from the index. The index equals a naive scan throughout a run if
  and only if every delayed forced cleanup found nobody registered for its user, or a connection (its own or a newer
  one) with no room outside the ones being erased. A concrete run shows the equality failing, and the user's next
  connection being sent the events of a room it never joined. Whoever leaves a room or disconnects is sent nothing of
  that room until joining it again, and a stopped connection is never drained again.
* **Rate limiting.** For timestamps that do not decrease, the pruned, expiring set counts exactly as the full history
  would, throughout a run, if and only if the key never expires before the window of its last entry is over on the
  callers' clocks. The key's extra second guarantees that while Redis time gains at most one second between requests; for
  every larger gain a pair of requests is decided wrongly. The condition is also given exactly for clocks that run
  backwards between instances, where entries later than the request count too. The limiter object, called in any order
  for any keys, gives every call the verdict of its own key's full history.
* **Pagination.** A finished walk shows every message if and only if, on table and page sizes alone, each page but the
  last ends between two timestamps; how the database orders ties makes no difference to that.
* **Presence.** Whatever the clocks do, the set holds a user if and only if the user's last event in the room was online
  or heartbeat and no purge since took it; `is_online` and the list follow from that. So a reader whose clock is ahead
  can make both deny a user whose last event still counts. With clocks that never run backwards, `is_online` answers by
  the last event alone, and a list shows a user if and only if no purge of the room found the last event expired.
* **Dead letters, backoff.** Each equals a short reference definition on every run.

Where the code and its documentation disagree, the model follows the code:

* `broadcast_to_room` says a full queue drops the message; it also starts a forced disconnect, and that task's cleanup
  pops whatever connection is registered for the user by then.
* A refusal of the limiter always says `Retry-After: 1`, because the expression it is computed from is zero. A client
  that obeys it is let in after its first `limit` requests if and only if the window has at most `limit` seconds;
  otherwise it is refused forever (`ObeyingRetryAfterIff`).
* An empty idempotency key is not looked up but is stored, so the second message with it violates the constraint
  (`SecondEmptyKeyIsRefused`).
* `_handle_message` checks no membership; only joining does. `OnlyMembersReceive` is therefore about receiving.
* A retried key is published again with the retry's content under the first message's id
  (`RetryMayPublishOtherContent`).
* A dead letter does not mean that nobody was sent the event: an attempt may have been applied without an answer
  (`LetterDespiteACopy`); no channel holds a copy if and only if Redis applied none of the attempts
  (`UnsentIffNeverApplied`).
* A reader with a later clock can take a user off a list another reader is building (`OtherReaderHidesAUser`), and make
  `is_online` deny a user (`FastReaderHidesAUser`).
* Joining a room waits for the subscribe command to be sent, not for Redis to process it, so a room can be indexed a
  moment before its channel is subscribed (`IndexedBeforeSubscribed`).
* `connect` subscribes a dummy channel to keep the listener from spinning; a reconnection does not subscribe it again
  (`RedisBroker.Relinked`).
* The listener's reconnection succeeds without contacting Redis when no channel is registered, so its delay does not
  grow then (`RedisBroker.RetryOnce`).
* The presence keys have no TTL although the design notes mention one.

## Model

| member | source | states |
|---|---|---|
| `ConnectionState.StepKeepsInv` | app/messaging/connection_manager.py:78-240 | every step of every interleaving, delayed forced cleanups included, keeps: each registered connection is in the index of each of its rooms, a suspended `connect` still finds its own previous connection or none, each queue is FIFO and within its bound |
| `ConnectionState.RunKeepsInv` | app/messaging/connection_manager.py:89-102 | one-way completeness of the index and the queue invariant in every state of every run |
| `ConnectionState.CleanupAgreesIff` | app/messaging/connection_manager.py:232-240 | from an exact index, a forced cleanup leaves an exact index if and only if whatever is registered for its user has no room outside the rooms being erased |
| `ConnectionState.StepAgreesIff` | app/messaging/connection_manager.py:110-159 | agreement of index and naive scan survives a step if and only if the step is not an unsafe forced cleanup; the locked operations always keep it |
| `ConnectionState.RunAgreesIff` | app/messaging/connection_manager.py:221-240 | the index equals the naive scan in all states of a run if and only if every forced cleanup of the run was safe |
| `ConnectionState.StaleCleanupLeavesDangling` | app/messaging/connection_manager.py:186-188 | a concrete run (overflow, reconnect, join, late cleanup) after which the index lists a user without a connection |
| `ConnectionState.StaleEntryReachesNextConnection` | app/messaging/connection_manager.py:173-188 | the same run continued by a new connection: a broadcast of a room it never joined differs from the scan |
| `ConnectionState.BroadcastIsScanIff` | app/messaging/connection_manager.py:161-188 | in every state satisfying the invariant, broadcasting through the index is the same as scanning all connections if and only if the room has no dangling recipient |
| `ConnectionState.AgreementMakesBroadcastAScan` | app/messaging/connection_manager.py:170-188 | under index agreement the broadcast appends once to each registered connection in the room, except the excluded user and full queues, and changes nothing else |
| `ConnectionState.BroadcastMissesNobody` | app/messaging/connection_manager.py:173-180 | whatever stale entries exist, every registered connection in the room is offered the payload |
| `ConnectionState.SpreadOneMore` | app/messaging/connection_manager.py:173-188 | offering user by user equals offering to the whole set, so iteration order is irrelevant |
| `ConnectionState.SendQueueFifo` | app/messaging/connection_manager.py:200-219 | over whole runs: what a drain task ever wrote is a prefix of what the queue had accepted at any later point; accepted = written + at most one taken + queued; the queue respects its positive maximum |
| `ConnectionState.DrainWrites` | app/messaging/connection_manager.py:207-219 | taking and sending until the queue is empty or a send fails writes the oldest payloads in order, loses the one that failed, leaves the rest and touches no other connection |
| `ConnectionState.HistoryGrows` | app/messaging/connection_manager.py:207-219 | accepted and written payloads are only ever appended to |
| `ConnectionEffects.LeaveIsExact` | app/messaging/connection_manager.py:149-159 | a registered user who leaves a room is gone from the connection's rooms and from the index; every other pair, queue and registration is as before; an unregistered user changes nothing |
| `ConnectionEffects.LeaveDropsEmptied` | app/messaging/connection_manager.py:156-159 | the room's set goes with its last user |
| `ConnectionEffects.JoinIsExact` | app/messaging/connection_manager.py:138-147 | a registered user who joins is in the room by both structures; every other pair, queue and registration is as before |
| `ConnectionEffects.DisconnectIsExact` | app/messaging/connection_manager.py:110-134 | the user is registered no longer and unlisted in the connection's rooms, the drain task stops, no emptied set stays, nobody else is touched |
| `ConnectionEffects.ForceCleanupIsExact` | app/messaging/connection_manager.py:232-240 | whoever is registered under the connection's user is dropped, the connection's own rooms are unlisted, its drain task stops, emptied sets stay |
| `ConnectionEffects.CleanupIsExact` | app/messaging/connection_manager.py:186-188 | one forced task fewer, and that cleanup |
| `ConnectionEffects.ConnectBeginIsExact` | app/messaging/connection_manager.py:89-93 | the connection registered at that moment is captured, nothing else changes |
| `ConnectionEffects.ConnectFinishIsExact` | app/messaging/connection_manager.py:95-102 | an unused, draining connection is registered for the user; other registrations stay |
| `ConnectionEffects.ConnectFinishStopsPrevious` | app/messaging/connection_manager.py:91-93 | the captured connection is stopped and unlisted, every other connection is as before |
| `ConnectionEffects.SendIsExact` | app/messaging/connection_manager.py:190-198 | a registered user whose queue is below its maximum gets the payload last in line; otherwise nothing changes |
| `ConnectionEffects.OffersFillTheQueue` | app/messaging/connection_manager.py:178-188 | undrained, a queue takes offered payloads in order up to its maximum and each further one starts a forced disconnect; without a positive maximum it takes all |
| `ConnectionEffects.QuietAfterLeaving` | app/messaging/connection_manager.py:149-180 | in every run, no broadcast to a room changes a connection of a user who left it and has not joined again |
| `ConnectionEffects.QuietAfterDisconnecting` | app/messaging/connection_manager.py:110-180 | the same for the rooms of a connection that disconnected |
| `ConnectionEffects.StoppedForGood` | app/messaging/connection_manager.py:125-127 | in every run, nothing more is taken from the queue of a stopped connection |
| `ConnectionState.ForgetOneMore` | app/messaging/connection_manager.py:118-123 | leaving rooms one at a time is leaving them all |
| `ConnectionState.EraseOneMore` | app/messaging/connection_manager.py:235-238 | erasing rooms one at a time is erasing them all |
| `ConnectionManager.ForgetRooms` | app/messaging/connection_manager.py:118-123 | the loop removes the user from exactly the given rooms and deletes exactly the sets it empties |
| `ConnectionManager.EraseRooms` | app/messaging/connection_manager.py:235-238 | the forced cleanup's loop removes the user from the given rooms and leaves emptied sets behind |
| `ConnectionManager.WebSocketConnection.constructor` | app/messaging/connection_manager.py:42-48 | a new connection has no rooms, an empty queue and a running drain task |
| `ConnectionManager.WebSocketConnection.PutNowait` | app/messaging/connection_manager.py:180-181 | enqueues at the end, or reports a full queue and changes nothing |
| `ConnectionManager.WebSocketConnection.Offer` | app/messaging/connection_manager.py:179-188 | enqueues or starts one forced-disconnect task |
| `ConnectionManager.ConnectionManager.constructor` | app/messaging/connection_manager.py:68-71 | the initial state of the state machine |
| `ConnectionManager.ConnectionManager.BeginConnect` | app/messaging/connection_manager.py:87-93 | captures the connection registered now and takes the lock |
| `ConnectionManager.ConnectionManager.FinishConnect` | app/messaging/connection_manager.py:93-102 | cleans the captured connection up and registers a new object, as one step |
| `ConnectionManager.ConnectionManager.AbortConnect` | app/messaging/connection_manager.py:221-240 | a `connect` cancelled inside the forced disconnect still cleans up, and registers nothing: the `ConnectAbort` step |
| `ConnectionManager.ConnectionManager.Register` | app/messaging/connection_manager.py:95-102 | a fresh object under the user, every other entry untouched |
| `ConnectionManager.ConnectionManager.ForceCleanup` | app/messaging/connection_manager.py:232-240 | pops by user, erases the old object's rooms only, stops its drain task |
| `ConnectionManager.ConnectionManager.RunForcedTask` | app/messaging/connection_manager.py:186-188 | one outstanding forced task reaches its cleanup |
| `ConnectionManager.ConnectionManager.Disconnect` | app/messaging/connection_manager.py:110-136 | exactly the `Disconnect` step, a no-op for an unknown user |
| `ConnectionManager.ConnectionManager.JoinRoom` | app/messaging/connection_manager.py:138-147 | exactly the `JoinRoom` step on both structures |
| `ConnectionManager.ConnectionManager.LeaveRoom` | app/messaging/connection_manager.py:149-159 | exactly the `LeaveRoom` step on both structures |
| `ConnectionManager.ConnectionManager.OfferTo` | app/messaging/connection_manager.py:173-188 | one turn of the broadcast loop |
| `ConnectionManager.ConnectionManager.BroadcastToRoom` | app/messaging/connection_manager.py:161-188 | for every iteration order, exactly the `Broadcast` step |
| `ConnectionManager.ConnectionManager.SendToUser` | app/messaging/connection_manager.py:190-198 | enqueues for the registered connection or drops silently |
| `ConnectionManager.ConnectionManager.GetPayload` | app/messaging/connection_manager.py:209-209 | the oldest payload is in hand: the `Take` step |
| `ConnectionManager.ConnectionManager.SettleSend` | app/messaging/connection_manager.py:210-219 | the payload in hand is written, or lost with the loop ended: the `Resolve` step |
| `ConnectionManager.ConnectionManager.ProcessSendQueue` | app/messaging/connection_manager.py:200-219 | for every pattern of send failures: iterated `Take` and `Resolve` steps, writing the oldest payloads in order, stopping at the first failure, losing exactly the payload in hand |
| `MessageStore.StoreStepKeepsInv` | app/services/message_service.py:39-60 | check, flush, commit and abort of concurrent transactions keep: unique keys, flushed rows collide with nothing, every finished handler points at a committed row with its key |
| `MessageStore.SameKeySameRow` | app/services/message_service.py:39-60 | two handlers reaching publish with one non-null key, at any two moments of a run, carry the id of one row, the only row that ever has the key |
| `MessageStore.StoreRunExtends` | app/api/websocket/chat.py:357-366 | committed rows and finished handlers never change again |
| `MessageStore.EmptyKeySavesOnce` | app/services/message_service.py:40-57 | the empty key is saved by one handler only; every later one can only be refused |
| `MessageStore.SecondEmptyKeyIsRefused` | app/services/message_service.py:40-57 | a run in which the second message with the empty key is lost to the constraint |
| `MessageStore.NullKeysNeverCollide` | app/models/message.py:43-45 | handlers without a key have different rows and can be neither refused nor made to wait |
| `MessageStore.PublishedMatchesStoredIff` | app/api/websocket/chat.py:368-383 | published fields equal stored fields for all handlers if and only if a usable key always comes with the same room, sender and content |
| `MessageStore.RunPublishesWhatIsStoredIff` | app/services/message_service.py:36-47 | the same in every state of every run |
| `MessageStore.RetryMayPublishOtherContent` | app/services/message_service.py:40-47 | a run in which a retry with other content is published under the first message's row |
| `MessageStore.RefusedOnlyByALaterCommit` | app/services/message_service.py:40-57 | a handler with a usable key that the constraint refuses looked up before another handler committed the key |
| `MessageStore.LateLookupIsNeverRefused` | app/services/message_service.py:40-47 | a handler whose lookup follows the commit of its key is never refused afterwards |
| `MessageStore.RowsAreRequests` | app/services/message_service.py:49-57 | in every run, every row is, field for field, the request some handler began with |
| `MessageStore.FailedNeverPublishes` | app/api/websocket/chat.py:357-366 | a refused or rolled back handler leaves the table as it was and never gets to publish |
| `RoomInvariants.StepKeepsInv` | app/api/websocket/chat.py:239-383 | every step of the N-instance system (store steps, publish attempts, dead letters, joins, subscriptions, dispatches, lost links, crashes) keeps its invariant |
| `RoomInvariants.ReadKeepsInbox` | app/messaging/redis_broker.py:166-179 | the entry the listener reads is the first unread one of its channel, and the rest stays gapless and ordered |
| `RoomInvariants.ReceiveKeepsInbox` | app/messaging/redis_broker.py:84-101 | a publish extends every subscribed inbox without gap or reordering |
| `RoomInvariants.DeliverKeepsConns` | app/api/websocket/chat.py:265-290 | handing an entry to the room keeps every connection's payloads genuine, permitted and rising |
| `RoomInvariants.JoinIndexKeepsNodeInv` | app/api/websocket/chat.py:292-293 | indexing after subscribing keeps every room covered by its callback |
| `RoomInvariants.RelinkKeepsNodeInv` | app/messaging/redis_broker.py:202-217 | losing the link and asking for the callback table again disturbs no order |
| `RoomInvariants.AttachKeepsNodeInv` | app/messaging/redis_broker.py:119-119 | from the moment Redis processes a subscribe command the inbox misses nothing of the channel |
| `RoomTheorems.OrderedDelivery` | app/messaging/redis_broker.py:164-185 | in every state of every run, what a client received from a channel is a subsequence of the channel's log |
| `RoomTheorems.SameOrderEverywhere` | app/messaging/connection_manager.py:161-219 | two clients on any instances, at any two moments, received common entries in the same order |
| `RoomTheorems.EnqueuedAtMostOnce` | app/messaging/redis_broker.py:175-179 | no log entry is enqueued twice on one connection |
| `RoomTheorems.PersistBeforeDeliver` | app/api/websocket/chat.py:357-383 | each chat event in a log, a queue, in flight or received carries the id of a committed row, and agrees with it if keys name messages |
| `RoomTheorems.PublicationFate` | app/messaging/redis_broker.py:84-110 | at every moment of every run: one copy per applied attempt on its own channel and none elsewhere, at most three, at least one once acknowledged; given up if and only if three attempts failed; each log entry is its publication's event |
| `RoomTheorems.LetterIffPushed` | app/messaging/redis_broker.py:108-110 | a publication has a dead letter if and only if Redis applied its push, a step only three failed attempts allow |
| `RoomTheorems.UnsentIffNeverApplied` | app/messaging/redis_broker.py:97-110 | in every run, no channel holds a copy of a publication with a dead letter if and only if every one of its attempts failed before Redis applied it |
| `RoomTheorems.LetterDespiteACopy` | app/messaging/redis_broker.py:97-110 | a run that ends with a dead letter and with the event in its channel's log |
| `RoomTheorems.DeadLettersAreFailures` | app/messaging/redis_broker.py:149-152 | in every run the dead-letter list names only publications that failed three times, each once, and none of the newest 10000 letters is missing |
| `RoomTheorems.AtMostThreeCopies` | app/messaging/redis_broker.py:94-107 | no connection accepts more copies of a publication than Redis applied attempts of it |
| `RoomTheorems.EveryRoomHasItsCallback` | app/api/websocket/chat.py:263-293 | each room of each connection has a callback on `room:<id>` for that same room |
| `RoomTheorems.EveryRoomIsSubscribed` | app/messaging/redis_broker.py:112-120 | while an instance's link is up, each room of each connection is subscribed at Redis or its command is on the way, across lost links and reconnections; a registered connection attends the room if and only if Redis has processed it |
| `RoomTheorems.IndexedBeforeSubscribed` | app/api/websocket/chat.py:292-293 | a run in which a connection is indexed in a room whose channel Redis does not have yet |
| `RoomTheorems.OnlyMembersReceive` | app/api/websocket/chat.py:252-260 | whoever is sent a room's event was a member of that room at some earlier moment of the run |
| `RoomTheorems.GrantedWereMembers` | app/api/websocket/chat.py:252-260 | whoever passed the check was a member then |
| `RoomTheorems.DispatchReachesTheRoom` | app/api/websocket/chat.py:265-290 | in every reachable state a dispatch hands on the first unread entry, to every registered connection in the room, except a typing indicator to its own author |
| `RoomTheorems.NothingIsMissed` | app/messaging/redis_broker.py:164-185 | over any stretch without lost link, departure or overflow, the connection accepts exactly the entries its listener read: all, once, in publish order, minus typing indicators by its own user |
| `RoomEffects.UnsubscribedMissesForGood` | app/messaging/redis_broker.py:99-99 | in every run, an entry published while an instance is not subscribed is never accepted by a connection of that instance |
| `RoomEffects.UnreadIsLostWithTheLink` | app/messaging/redis_broker.py:202-210 | in every run, an entry received but unread when the link is lost is never accepted by a connection of that instance |
| `RoomEffects.ChatIsAnnounced` | app/api/websocket/chat.py:368-383 | a handler past its commit publishes its request's room, sender and content under its row's id on `room:<id>`, and changes nothing else |
| `RoomEffects.LetterboxStep` | app/messaging/redis_broker.py:149-152 | in every run, an applied push puts its letter in front, an applied trim leaves the newest 10000 and no more, and no other step touches the list |
| `RoomEffects.UncutIff` | app/messaging/redis_broker.py:149-152 | in every run, the letters that bound counts are those with an applied push and no applied trim of the same call |
| `RoomEffects.LetterStatus` | app/messaging/redis_broker.py:149-155 | a trim is due only after an acknowledged push, and each failure ends the call |
| `RoomEffects.LetterboxBound` | app/messaging/redis_broker.py:151-152 | in every state of every run the list exceeds 10000 by at most the letters whose writer's trim is due or was lost |
| `RoomEffects.OtherIsAnnounced` | app/messaging/redis_broker.py:84-97 | a presence or typing event is published as it is on its room's channel, and nothing else changes |
| `RoomEffects.JoinCheckIsExact` | app/api/websocket/chat.py:246-260 | only a member starts to join, and nothing but the new join changes |
| `RoomEffects.MembersChangeIsExact` | app/api/websocket/chat.py:246-260 | after a change of membership exactly the new members can start a join; connections, rooms and earlier grants stay |
| `RoomEffects.SubscribeIsExact` | app/messaging/redis_broker.py:118-119 | a sent command is on its way to `room:<id>`; one that failed ends the join |
| `RoomEffects.RedisSubscribesIsExact` | app/messaging/redis_broker.py:119-119 | the channel is subscribed from the end of its log, or as before if it was subscribed already |
| `RoomEffects.JoinIndexIsExact` | app/api/websocket/chat.py:292-293 | the joining user, if still registered, is in the room by both structures, nobody else is touched, and the join is over |
| `RoomEffects.LinkDropIsExact` | app/messaging/redis_broker.py:202-210 | a lost link takes subscriptions, commands under way and unread entries, and leaves connections, callbacks and joins |
| `RoomEffects.ReconnectIsExact` | app/messaging/redis_broker.py:212-215 | a new link asks for every channel with a callback |
| `RoomEffects.CrashIsExact` | app/messaging/redis_broker.py:64-82 | an instance that goes away takes its connections and nothing shared |
| `DeadLetters.ListIsNewestPushes` | app/messaging/redis_broker.py:149-152 | under every interleaving of pushes and trims, failed trims included, the list is exactly a computed number of the newest pushes, newest first |
| `DeadLetters.TrimBounds` | app/messaging/redis_broker.py:149-152 | the list is a newest-first prefix of the push history, never shorter than the smaller of 10000 and the pushes, and exactly that right after a trim |
| `DeadLetters.OverflowBound` | app/messaging/redis_broker.py:151-152 | between trims the list exceeds 10000 by at most the pushes not yet followed by a trim |
| `Publishing.TryKeeps` | app/messaging/redis_broker.py:97-107 | an attempt of one call, between any steps of others, keeps every call's account of copies and letters |
| `Publishing.WriteKeeps` | app/messaging/redis_broker.py:149-150 | so does pushing a dead letter |
| `Publishing.CutKeeps` | app/messaging/redis_broker.py:151-152 | so does trimming the list |
| `Publishing.CutBounded` | app/messaging/redis_broker.py:151-152 | a trim keeps the list's bound, which counts its letter no longer if the server applied it |
| `Publishing.TrimLeavesNewest` | app/messaging/redis_broker.py:152-152 | an applied trim leaves the newest 10000 letters and nothing else |
| `Publishing.InvAccounts` | app/messaging/redis_broker.py:94-110 | the account in full: copies equal applied attempts, acknowledged or given up as the outcomes say, at most one letter |
| `Publishing.InvAccountsList` | app/messaging/redis_broker.py:149-152 | the list holds only letters of failed calls, each once, and every one of the newest 10000 |
| `Publishing.NoCopyIff` | app/messaging/redis_broker.py:97-107 | the count of applied attempts is zero if and only if every attempt failed before the server applied it |
| `Publishing.AllTriedStops` | app/messaging/redis_broker.py:97-107 | a call left alone stops at its first acknowledged attempt, or at the third |
| `RoomBroker.CallIsAttempts` | app/messaging/redis_broker.py:97-107 | the attempts of a call are `Attempt` steps of the room protocol: same ending, same copies appended |
| `RoomBroker.SubscribeIsTwoSteps` | app/messaging/redis_broker.py:118-119 | `subscribe` is the protocol's `StoreCallback` step and then its `SubscribeSent` step |
| `RoomBroker.ReconnectIsOneStep` | app/messaging/redis_broker.py:212-217 | a successful reconnection is the protocol's `Reconnect` step |
| `RedisBroker.RedisBroker.TryPublish` | app/messaging/redis_broker.py:94-107 | one to three attempts, stopping at the first acknowledged one, with waits of 500 and 1000 ms; the call ends as the protocol's attempts do |
| `RedisBroker.AttemptsAppendCopies` | app/messaging/redis_broker.py:97-99 | the channel gains exactly one copy per attempt the server applied, acknowledged or not |
| `RedisBroker.RedisBroker.Publish` | app/messaging/redis_broker.py:84-110 | for every failure pattern: nothing when not connected, otherwise one acknowledged attempt or one dead letter, never both; the resulting list and waits in full; other channels unchanged |
| `RedisBroker.RedisBroker.PublishDeadLetter` | app/messaging/redis_broker.py:131-155 | the letter comes first in the list; an acknowledged push is followed by a trim to 10000, a failed one by nothing; failures are swallowed |
| `RedisBroker.Redis.Append` | app/messaging/redis_broker.py:99-99 | one channel's log grows by the message if the server applied the command |
| `RedisBroker.Redis.Lpush` | app/messaging/redis_broker.py:150-150 | if the server applied the command, the letter becomes the newest entry |
| `RedisBroker.Redis.Ltrim` | app/messaging/redis_broker.py:152-152 | if the server applied the command, the newest 10000 stay and nothing else; otherwise the list is as before |
| `RedisBroker.RedisBroker.constructor` | app/messaging/redis_broker.py:33-41 | not connected, no listener, nothing registered, delay one second |
| `RedisBroker.RedisBroker.Connect` | app/messaging/redis_broker.py:43-62 | the clients are in place either way; only a confirmed dummy subscription starts the listener and resets the delay |
| `RedisBroker.RedisBroker.Subscribe` | app/messaging/redis_broker.py:112-120 | the callback is stored before the command is sent; nothing happens before `connect` |
| `RedisBroker.RedisBroker.Unsubscribe` | app/messaging/redis_broker.py:122-129 | the callback goes first; a command that fails leaves the subscription without it |
| `RedisBroker.RedisBroker.Reconnect` | app/messaging/redis_broker.py:202-217 | succeeds if and only if Redis takes every channel of the table; then all are subscribed and the delay is reset, otherwise the delay stays |
| `RedisBroker.RedisBroker.RetryOnce` | app/messaging/redis_broker.py:192-200 | the `k`-th consecutive failure waits the `k`-th delay; an empty table never fails |
| `RedisBroker.RedisBroker.RecoverLink` | app/messaging/redis_broker.py:188-200 | the waits of a whole recovery are the delay sequence up to the first accepted try |
| `Backoff.BackoffsAgree` | client/app.js:304-311 | for every k, iterated capped doubling gives min(2^k, 30) s, equal to the client's min(1000 * 2^k, 30000) ms |
| `Backoff.BackoffMonotone` | app/messaging/redis_broker.py:193-196 | waits never shrink: 1, 2, 4, 8, 16 seconds and then 30 for ever |
| `ReconnectingClient.ReconnectState.constructor` | client/app.js:266-267 | starts with no attempt |
| `ReconnectingClient.ReconnectState.OnOpen` | client/app.js:266-267 | opening restarts the sequence at k = 0 |
| `ReconnectingClient.ReconnectState.ScheduleReconnect` | client/app.js:304-319 | a pending timer blocks; otherwise the timer is the broker's delay for the same count, and the delays since the last open are the sequence from 0 |
| `ReconnectingClient.ReconnectState.OnClose` | client/app.js:286-291 | only an abnormal closure schedules |
| `ReconnectingClient.ReconnectState.OnTimer` | client/app.js:315-318 | the timer is cleared, the count kept |
| `Pagination.GetRoomMessages` | app/services/message_service.py:96-145 | from whatever the query answered for one row more than the limit, capped at 100, the method returns a page of that limit, which `PageContents` describes and the walks are made of |
| `Pagination.Reverse` | app/services/message_service.py:134-135 | the list reversed |
| `Pagination.PageContents` | app/services/message_service.py:98-139 | a page holds the newest eligible messages oldest first, each once; "more" is true if and only if something eligible is left; the cursor is the oldest shown; whatever is left is no newer |
| `Pagination.WalkNeverRepeats` | app/services/message_service.py:104-139 | with ties, any page sizes and any table changes: no repeats, and pages put together oldest first are chronological |
| `Pagination.LaterPagesAreOlder` | app/services/message_service.py:104-107 | every message of a later page is strictly older than an earlier page's cursor |
| `Pagination.CursorMakesProgress` | client/app.js:884-889 | following the cursor leaves strictly fewer messages |
| `Pagination.WalkTerminates` | client/app.js:515-538 | the k-th request still has at most (messages - k) left, so a walk has at most messages + 1 pages |
| `Pagination.MissedIffCutOff` | app/services/message_service.py:111-139 | which messages: those that tie with a cursor and that the page that left the cursor does not show |
| `Pagination.CompleteIffUncut` | app/services/message_service.py:104-139 | on table and page sizes alone: a finished walk shows every message if and only if each page size covers what is left or is the exact number of messages at or after some message's time |
| `Pagination.WalkIsTheHistory` | app/services/message_service.py:96-145 | for distinct timestamps the pages, oldest first, are exactly the room's messages in chronological order, each once |
| `Pagination.SinglesCompleteIffUntied` | app/services/message_service.py:111-118 | a page-size-one walk is complete if and only if timestamps are distinct |
| `Pagination.TiedPairIsMissed` | app/services/message_service.py:104-139 | any two messages with one timestamp and a page size of one: a finished walk exists, and it does not show both |
| `Pagination.WalkIgnoresInsertions` | app/api/routes/messages.py:30-32 | messages inserted during the walk at or after the current cursor change no later page |
| `Pagination.AnswerExists` | app/services/message_service.py:111-114 | the query always has an answer |
| `Pagination.WalkExists` | client/app.js:884-889 | every room can be walked to its end with every page size |
| `RateLimiter.RateLimiter.constructor` | app/core/rate_limiter.py:24-25 | no key exists |
| `RateLimiter.RateLimiter.CheckRateLimit` | app/core/rate_limiter.py:44-70 | decides by the count before the request, records allowed and refused requests alike, touches one key, always says to retry after one second, and for a key used with one window decides as that key's history does |
| `RateLimiter.JudgeAll` | app/core/rate_limiter.py:27-70 | any sequence of calls for any keys: call i is allowed exactly as its own key's requests so far decide, and without early expiry exactly when fewer than `limit` distinct recent timestamps precede it |
| `RateLimiter.CountedIff` | app/core/rate_limiter.py:47-58 | for any clocks: a timestamp is counted if and only if an earlier request carried it and no request since, this one included, pruned it or found the key expired |
| `RateLimiter.CountsAsHistoryIff` | app/core/rate_limiter.py:47-58 | for nondecreasing timestamps: counting equals the full history throughout a run if and only if the key never expires less than a window after its last timestamp |
| `RateLimiter.CountsAsHistoryAnyClockIff` | app/core/rate_limiter.py:47-58 | for any non-negative timestamps: counting equals the full history throughout a run if and only if every step back meets an expired key and no expiry drops what a later window needs |
| `RateLimiter.DecidesAsHistoryIff` | app/core/rate_limiter.py:44-70 | the decisions equal the full history's for every limit if the key never expires early, and for a limit of one only then |
| `RateLimiter.CountsOnlyRecent` | app/core/rate_limiter.py:47-58 | for nondecreasing timestamps nothing is counted that the full history does not count, early expiry or not |
| `RateLimiter.SmallDriftIsOrderly` | app/core/rate_limiter.py:54-55 | a Redis clock that gains at most one second between requests never expires the key early |
| `RateLimiter.CountsFullHistory` | app/core/rate_limiter.py:47-58 | without early expiry the entries counted are exactly the distinct earlier timestamps in (now - window, now] |
| `RateLimiter.DecidesAsFullHistory` | app/core/rate_limiter.py:44-70 | without early expiry neither pruning nor expiry changes a decision |
| `RateLimiter.LargerDriftForgets` | app/core/rate_limiter.py:54-55 | for every drift above one second and every window, a pair of requests that the expired key decides wrongly |
| `RateLimiter.WindowBound` | app/core/rate_limiter.py:44-70 | allowed requests less than a window apart have at most `limit` distinct timestamps |
| `RateLimiter.SlidingWindowBound` | app/core/rate_limiter.py:44-70 | any half-open window holds at most `limit` allowed timestamps, and at most `limit` allowed requests when timestamps are distinct |
| `RateLimiter.LimitOneBoundsRequests` | app/core/rate_limiter.py:52-60 | with a limit of one the bound holds for requests even when timestamps tie |
| `RateLimiter.TiesEscapeTheLimit` | app/core/rate_limiter.py:53-53 | with any larger limit, any number of simultaneous requests is allowed |
| `RateLimiter.SustainedLoadIsRefused` | app/core/rate_limiter.py:45-61 | gaps of at most g with limit * g below the window: refused from the `limit`-th request on, forever |
| `RateLimiter.ObeyingRetryAfterIff` | app/core/rate_limiter.py:61-69 | of requests exactly one second apart the i-th is allowed if and only if i is below the limit or the window has at most `limit` seconds |
| `RateLimiter.SilenceRestoresTheLimit` | app/core/rate_limiter.py:48-60 | after a silence of a window the next `limit` requests are all allowed, early expiry or not |
| `Presence.SetTracksLastSeen` | app/services/presence_service.py:32-66 | with clocks that agree: the sorted set holds the last event's time, or has dropped it only after it timed out |
| `Presence.HeldIffSpared` | app/services/presence_service.py:32-66 | for any clocks and timeout: the set holds a user, with the last event's time, if and only if that event was online or heartbeat and no later purge of the room took it |
| `Presence.OnlineIffSpared` | app/services/presence_service.py:83-89 | for any clocks: online if and only if the last event was online or heartbeat, less than the timeout ago, and no later purge took it |
| `Presence.ListedIffSpared` | app/services/presence_service.py:60-68 | for any clocks and anything between purge and read: the same for the range read, with its inclusive comparison |
| `Presence.AnswersByLastEventIff` | app/services/presence_service.py:83-89 | `is_online` answers by the last event alone if and only if no later purge took an event that still counts |
| `Presence.FastReaderHidesAUser` | app/services/presence_service.py:64-65 | a run in which a purge by a faster clock makes `is_online` deny a user whose last event counts |
| `Presence.HeldIffNeverPurged` | app/services/presence_service.py:32-66 | with clocks that agree: held if and only if the last event was online or heartbeat and no purge of the room found it expired |
| `Presence.OnlineIffLastSeen` | app/services/presence_service.py:83-89 | with clocks that agree: online if and only if the last event was online or heartbeat, less than the timeout ago |
| `Presence.ReadsNeverMatter` | app/services/presence_service.py:64-65 | with clocks that agree: purging by reads never changes a later `is_online` answer |
| `Presence.ListedIffNeverPurged` | app/services/presence_service.py:60-68 | with clocks that agree and anything between its purge and its read, the list shows a user if and only if their last event by then counts and no purge of the room, its own or another's, found it expired |
| `Presence.OtherReaderHidesAUser` | app/services/presence_service.py:64-68 | a run in which another reader's purge keeps a user off the list who is online at the lister's own clock |
| `Presence.ListIsEveryoneOnline` | app/services/presence_service.py:60-68 | at its clock reading, a list agrees with `is_online` asked of the same set |
| `Presence.ListIsExact` | app/services/presence_service.py:53-68 | with clocks that agree, an undisturbed list is exactly the users whose last event counts |
| `Presence.PresenceService.constructor` | app/services/presence_service.py:28-30 | nobody is online |
| `Presence.PresenceService.SetOnline` | app/services/presence_service.py:32-39 | one `Seen` command, and the display name |
| `Presence.PresenceService.SetOffline` | app/services/presence_service.py:41-45 | one `Leave` command |
| `Presence.PresenceService.Heartbeat` | app/services/presence_service.py:47-51 | one `Seen` command |
| `Presence.PresenceService.GetOnlineUsers` | app/services/presence_service.py:53-81 | everyone online at that time, each once, under the stored name, or "Unknown" if none or an empty one is stored; stale entries removed |
| `Presence.PresenceService.CheckOnline` | app/services/presence_service.py:83-89 | the strict comparison with the timeout |
| `Presence.PresenceService.RemoveUserFromAllRooms` | app/services/presence_service.py:91-97 | for every scan order the user is gone from every room and nobody else is touched |
| `Presence.RemovalHolds` | app/services/presence_service.py:94-96 | with anything between the removals, a visited room shows the user again only after a later online or heartbeat there |

## Left out

- Authentication, tokens, password hashing and configuration: each request is answered from its own fields and one table row, so there is no state to interleave.
- Health checks, migrations and deployment files: they run outside the request paths modelled here.
- Room creation and listings: single queries; membership appears as a relation that may change at any step.
- The Kafka broker: a stub that refuses to connect.
- Typing indicators' expiry keys: nothing reads them; the events themselves are in the room protocol.
- Client rendering, including the screen order after "load more", which prepends a chronological page message by message.
- Heartbeat pings and forced-disconnect notices written straight to the socket: they bypass the send queue, so order and FIFO claims do not cover them.
- JSON and date codecs: a cursor is assumed to come back as the timestamp it was made from, and an unparsable one counts as no cursor.
- UUID parsing: rooms are named by the string the client sent, which is also what channels and the index use.
- Floating-point rounding: clock readings are real numbers.
- Message validation (missing room, empty or over-long content) and the direct error replies it causes: a `Direct` payload stands for any of them.
- The close of `websocket_chat` that publishes presence for each room: these publications appear as arbitrary presence events.
- Presence inside the room protocol: it is proved separately, the protocol does not depend on it.
- Reconnection while another task subscribes: a reconnection sends the subscribe commands of the whole table in one step; Redis processes them one by one.
- Resending inside the Redis client: it is built with `retry_on_timeout=True`, so after a read timeout the library itself sends a command once more; the model's attempt sends once, and the bound of three copies counts on that.
- The broker's `disconnect`: an instance that goes away is a `Crash` step.
- Order of entries in the online list: Redis lists by score, the model by any order.
- ProcessSendQueue: one stretch of the endless drain loop without enqueues in between; with them it is the `Take` and `Resolve` steps (`GetPayload`, `SettleSend`) of every run.
- TryPublish: one call with nobody appending between its attempts; interleaved calls are the `Attempt` steps of `PublicationFate`.
- Publish: one uninterrupted call; interleaved calls are the steps of `PublicationFate` and `LetterIffPushed`.
- PublishDeadLetter: push and trim of one call with nothing between; interleaved ones are in `DeadLetters` and `DeadLettersAreFailures`.
- SetOnline: the score and the display name, two commands in the source, change in one step; a list read in between would show the old name.
- GetOnlineUsers: purge, range and name lookups of one call with nothing between; the interleaved list is `ListedIffSpared`.
- RemoveUserFromAllRooms: one scan with nothing between; the interleaved one is `RemovalHolds`.
- ReadsNeverMatter: about later `is_online` answers with clocks that agree; a list under way can lose a user to another reader (`OtherReaderHidesAUser`), and a faster clock can change an answer (`FastReaderHidesAUser`).
- ListIsEveryoneOnline: compares two reads of one set; against the events the list is `ListedIffSpared`.
- `get_room_user_ids`, `get_connection`, `get_user_rooms` and `active_connections`: plain reads.
- Liveness: nothing says that a listener, a drain task or a retry is ever scheduled.
