# Verified models of the Discord client's engines

This project models the parts of the client that carry real state and proves what they promise. One file
models one component; `dafny verify dfyconfig.toml` checks everything.

| file | models |
|---|---|
| `machine.dfy` | options, machine integers with wrap-around, slices |
| `paging.dfy` | the REST service's lists and the paging loops over them |
| `deletion.dfy` | deleting messages in batches |
| `messagestore.dfy`, `messages.dfy`, `channel.dfy` | the message cache, `State.Messages`, and a channel over time |
| `gateway.dfy`, `session.dfy`, `heartbeat.dfy` | the gateway client and its event loop; the whole protocol with a server and a connection that may drop; heartbeat times |
| `limiter.dfy`, `cancellation.dfy`, `client.dfy`, `bucketkey.dfy` | rate limit buckets and interleaved requests, a lock whose users give up, the retry loop, bucket keys |
| `slab.dfy`, `registry.dfy` | the free list of event handlers and the registry on it |
| `reactions.dfy`, `permissions.dfy` | cached reactions, permission overwrites |
| `rtp.dfy`, `router.dfy` | voice packets, slash command routing |

Code that changes state is a class or a method with loops, proved equal to a specification function of the old
state; the laws are lemmas about those functions. Whole systems (`SessionProtocol`, `Limiter`, `ChannelRuns`,
and the runs in `SlabList`, `Registry` and `Reactions`) are total step functions; a step that is not possible
changes nothing, and the theorems speak about every sequence of steps.

## What the outside world is assumed to do

- The service's lists have distinct nonzero ids and do not change during one call. Messages come newest first, all
  other lists with the smallest id first; a request returns the items nearest its cursor, and a zero cursor is
  omitted. `outage` is the number of requests of a call that are answered before one fails.
- The gateway server numbers the dispatches of a session from 1 on, with READY as the first, replays from the
  sequence of a Resume, and answers Identify with a new session or refuses it. Every dispatch can be decoded. A
  connection can be lost at any time together with any part of what is unread or unsent.
- In the interleavings of `Limiter` no context is cancelled while a request holds or waits for a bucket
  (`Cancellation` says what happens otherwise); times are integers in nanoseconds.
- New messages of a channel arrive in the order of their ids, each as an event before the next call.
- `secretbox` is a pair of functions with Open undoing Seal and 16 bytes of overhead.
- Numbers, emojis and custom emojis in bucket keys are one predicate.
- Event types are names, and which type implements which interface is a given function.

## Where the code and its documentation differ

The models follow the code. Where a law that a reader would expect fails, a lemma says when it holds, in most cases
exactly, or gives the failing input.

- `State.Messages` with a zero limit does not always return the whole channel (`UnlimitedCall`), and on a channel
  marked as tiny it ignores the limit: it then returns all that is cached, which is what the limit asks for if and only
  if the cache has exactly min(limit, n) messages (`TinyCall`, `TinyCallsReturnAllThatFits`).
- The default message store puts an older message of the newest one's millisecond in front of it
  (`CacheStaysPrefix` says exactly when that happens), and an edit that empties a message's content does not reach the
  cache (`EditIsCachedIff`, `LostEditIsReached`).
- `GuildsBefore` and `ReactionsBefore` with a zero cursor start from the smallest id (`ZeroCursorBackward`).
- `DeleteMessages` sends a single left-over id to the bulk endpoint (`LoneBulk`).
- The comment on `QueueReconnect` says that a second call deadlocks the loop; it does not: at most one token is
  queued (`Gateway.Loop.QueueReconnect`, `RunNeverStuck`).
- A connection that never acknowledged a beat is never declared dead (`NeverAcknowledged`); one that did is, in time
  (`SilentDies`).
- A refusal released before a custom bucket's first grant starts its clock early (`EarlyRefusalBreaksSpacing` is a run,
  `SpacedAfterIff` the exact condition over runs, `CustomLimitSpacesTheRest` what every run keeps).
- A request whose context is cancelled while it waits for a bucket's lock frees the lock of another one
  (`SecondHolderIff`, `TwoHoldersAreReached`).
- An exhausted bucket waits for its own reset time only, not for a later global limit (`GlobalLimitKeptIff`,
  `GlobalLimitIsKept`, `GlobalLimitIsMissed`).
- One failing response handler makes a request fail even if a later attempt succeeds (`SuccessIff`).
- A slab breaks when an id is popped twice (`PopIff`); the registry does so harmlessly, because its remove function
  pops a copy whose `free` is never stored back, at the price of never using a slot again.
- Removing all reactions of a message is lost in the default store (`EventRefinesIff`).
- PermissionAll is not all permissions (`OwnerHasLessIff`, `OwnerMayHaveLess`).
- A packet that consists of a header extension only keeps it (`ExtensionIsStrippedIff`).
- Groups of groups are not searched: a command is found if and only if a path through direct groups leads to it
  (`FoundIff`, `GroupsOfGroupsAreMissed`).
- A path without a slash before its query makes `ParseBucketKey` panic (`BucketKey.FailsIff`).

## Model

| member | source | states |
|---|---|---|
| `Paging.MessagesBefore` | api/message.go:58-96 | For every history, cursor and uint limit the result is the window of the limit items (0: all) that follow the cursor, newest first; when a later request fails, exactly the full pages before it are returned; the requests made are exactly those that are due, although `limit -= 100` wraps below zero on a short last page. |
| `Paging.MessagesAfter` | api/message.go:108-153 | The same for the loop that prepends pages; a zero cursor is replaced by 1. |
| `Paging.NextMessageFetch` | api/message.go:73-74 | What the clamp in messagesRange makes of the fetch size is min(100, limit) even for limits that int() makes negative, and how the remaining limit wraps. |
| `Paging.GuildsBefore` | api/guild.go:212-245 | The limit items nearest below the cursor, in the service's order, with the exact partial result on failure and the exact number of requests; with a zero cursor the window of the first page. |
| `Paging.GuildsAfter` | api/guild.go:259-292 | The first limit items after the cursor, same detail. |
| `Paging.ReactionsBefore` | api/message_reaction.go:59-95 | As GuildsBefore, in pages of 100. |
| `Paging.ReactionsAfter` | api/message_reaction.go:105-141 | As GuildsAfter, in pages of 100. |
| `Paging.MembersAfter` | api/member.go:43-79 | As GuildsAfter, in pages of 1000. |
| `Paging.PagedBefore` | api/guild.go:213-238 | The prepending loop at any page size up to 1000: result, partial result and requests; it terminates because the items beyond the cursor get fewer. |
| `Paging.PagedAfter` | api/guild.go:260-285 | The appending loop, likewise. |
| `Paging.OlderWindowIsNewest` | api/message.go:48-57 | An item is in MessagesBefore's window if and only if it is below the cursor and the item limit places newer is not: the newest limit items below the cursor. |
| `Paging.NewerWindowIsOldest` | api/message.go:98-107 | MessagesAfter's window holds exactly the oldest limit items above the cursor. |
| `Paging.LowerWindowIsLargest` | api/guild.go:200-209 | The backward window below a real cursor holds exactly the largest limit ids below it. |
| `Paging.HigherWindowIsSmallest` | api/guild.go:247-256 | The forward window holds exactly the smallest limit ids above the cursor. |
| `Paging.AtMostCeiling` | api/message.go:53-55 | A limited call makes at most limit/page requests, rounded up. |
| `Paging.FailsIff` | api/message.go:78-80 | A call fails if and only if a request that is due is not answered. |
| `Paging.ZeroCursorBackward` | api/message_reaction.go:59-95 | With a zero cursor the backward calls return the last limit items if and only if the whole list fits the first page. |
| `Paging.ZeroCursorMisses` | api/message_reaction.go:59-95 | Of two ids and with a limit of 1 the smaller one is returned. |
| `Paging.ZeroCursorForward` | api/message.go:111-116 | Replacing a zero cursor by 1 loses a message if and only if one has the id 1. |
| `MessageStore.InsertPosition` | state/store/defaultstore/message.go:134-183 | Where a message goes: in front, at the end, or nowhere, with both duplicate scans. |
| `MessageStore.Store.MessageSet` | state/store/defaultstore/message.go:76-122 | With update the message with this id is merged into, if it is cached; else the channel afterwards is what inserting at that position under the size limit gives. Other channels are untouched. |
| `MessageStore.InsertDuplicate` | state/store/defaultstore/message.go:155-178 | Adding a message that is cached changes nothing. |
| `MessageStore.InsertOlder` | state/store/defaultstore/message.go:141-166 | Adding an older message appends it, unless it shares its millisecond with the newest one: then it goes in front. |
| `MessageStore.InsertedIs` | state/store/defaultstore/message.go:76-183 | What setting a message of any id does to an ordered cache of any size: only milliseconds, ids divided by 2^22, count; as new as the newest goes in front and the oldest falls off a full cache, as old as the oldest is appended if there is room, and a cached one, one in between or one too old for a full cache changes nothing. |
| `MessageStore.WriteBackIff` | state/state.go:763-774 | Writing fetched messages back leaves the newest messages cached, newest first, if and only if none of them shares its millisecond with the newest. |
| `StateMessages.State.SetAll` | state/state.go:770-773 | The write-back loop sets the messages one after the other and touches no other channel. |
| `StateMessages.State.NextFetchLimit` | state/state.go:711-722 | The fetch limit computed on uint is max(limit, MaxMessages) minus what is cached: it never wraps. |
| `StateMessages.State.Merge` | state/state.go:734-783 | The part after the fetch: result, messages written back and tiny-channel mark. |
| `StateMessages.State.Messages` | state/state.go:687-784 | One call: its result, the cache afterwards, the marks afterwards, and that nothing else changes. |
| `StateMessages.FetchLimitIsPositive` | state/state.go:711-722 | A limited call never asks the REST client for 0, which would mean everything. |
| `StateMessages.FetchContinues` | state/state.go:724-729 | The fetch returns exactly what follows the cached messages. |
| `StateMessages.MergedWindow` | state/state.go:734-783 | Merging cached and fetched messages gives the newest ones, and the mark is set exactly when they are fewer than MaxMessages. |
| `StateMessages.UsableIff` | state/state.go:687-702 | The cached messages are relied on, all of them, exactly when the session has the intent for the guild, or for messages without one, of the newest of them. |
| `StateMessages.CallFailsIff` | state/state.go:704-732 | A call fails if and only if it is not on the tiny path, the cache has not enough, and after the answered pages of 100 the channel may have more and neither the store nor the limit is met; it then writes and marks nothing. It never fails when the service answers as many pages as the channel has. |
| `StateMessages.LimitedCall` | state/state.go:674-687 | Off the tiny path, a limited call returns exactly the newest min(limit, n) messages unless one of its requests goes unanswered, and marks the channel as tiny exactly when it had to fetch and the whole channel is shorter than MaxMessages; else it fails. |
| `StateMessages.GuildIsFilledIn` | state/state.go:747-761 | Every fetched message carries the guild of the newest cached one, else of the looked-up channel, else none. |
| `StateMessages.WritesContinue` | state/state.go:763-774 | The messages written back are the next ones of the channel, at most as many as fit. |
| `StateMessages.MarksIff` | state/state.go:689-738 | A call marks the channel as tiny exactly when it has to fetch, is answered, and finds the channel shorter than MaxMessages. |
| `StateMessages.WritesFillUp` | state/state.go:763-774 | A call writes back what fills the store up, exactly when it is not served from the cache, its requests are answered, the store has room, the channel has more, and the guild filled in is tracked; otherwise nothing. |
| `StateMessages.CacheStaysPrefix` | state/state.go:763-774 | After any call the cache holds the newest messages, newest first, if and only if the call does not fill the store up or no message this adds, out of the newest min(MaxMessages, n), shares its millisecond with the channel's newest. |
| `StateMessages.CacheCanLoseItsOrder` | state/store/defaultstore/message.go:155-166 | A channel of two messages on which the order is lost. |
| `StateMessages.UnlimitedCall` | state/state.go:674-687 | A zero limit returns the whole channel, as documented, if and only if the store keeps no messages, or the usable cache is full, or the channel fits the store; it fails exactly when a request goes unanswered. |
| `StateMessages.UnlimitedCallMisses` | state/state.go:674-687 | With a store of one message and nothing cached, a zero limit returns one message of two. |
| `StateMessages.TinyCall` | state/state.go:689-696 | On the tiny path the cache is returned whatever the limit; the law of LimitedCall holds there if and only if the cache has exactly min(limit, n) messages. |
| `StateMessages.TinyCallMisses` | state/state.go:689-696 | Two channels on which it does not: a limit below the cache, and a channel that has outgrown the store. |
| `ChannelRuns.InsertNew` | state/state_events.go:241-249 | A message just created goes in front of the cache, and the oldest one falls off a full cache. |
| `ChannelRuns.EditIsCachedIff` | state/state_events.go:251-259 | An edit reaches the cache if and only if it does not empty the content of a cached message. |
| `ChannelRuns.EditKeepsOrderIff` | state/state_events.go:251-259 | In any state in order, an edit keeps the cache in order if and only if it is not a lost one: one that empties the content of a cached message. |
| `ChannelRuns.LostEditIsReached` | state/store/defaultstore/message.go:186-190 | A run of one message and one edit after which the cache still has the old content. |
| `ChannelRuns.RunKeepsOrder` | state/state.go:687-784 | Over every run of new messages, edits and calls without a lost edit, and with no two messages in one millisecond, the cache holds the newest messages as they are, and all that fit of a tracked channel marked as tiny. |
| `ChannelRuns.CallsReturnTheNewest` | state/state.go:674-687 | In every such run a limited call returns exactly the newest min(limit, n) messages if its requests are answered, and fails otherwise, unless the channel is tracked, cached and marked as tiny. |
| `ChannelRuns.RunKeepsIds` | state/state.go:687-784 | Over every run, lost edits included, the same holds of the messages without their contents. |
| `ChannelRuns.CallsReturnTheNewestIds` | state/state.go:674-687 | In every run, lost edits included, the cache has the newest messages in order and a limited call returns the newest min(limit, n), their contents aside, or fails, with the same conditions. |
| `ChannelRuns.TinyCallsReturnAllThatFits` | state/state.go:689-696 | In every run without a lost edit a call on a tracked channel marked as tiny returns all messages that fit the store; that is what the limit asks for exactly when it is MaxMessages, or when the channel fits both the store and the limit. |
| `ChannelRuns.TinyIff` | state/state.go:734-738 | In every run a step leaves the channel marked as tiny exactly when it was, or when it is a call that has to fetch, is answered, and finds the channel shorter than MaxMessages. |
| `Deletion.DeleteMessages` | api/message.go:434-457 | The requests sent are the planned batches, up to the first one that fails. |
| `Deletion.PlanCoversAll` | api/message.go:429-431 | Every id is deleted once, in order, in messageIDs/100 requests rounded up. |
| `Deletion.BatchIs` | api/message.go:437-457 | The i-th of several batches holds the ids from 100i up to 100i + 100, or to the end. |
| `Deletion.LoneBulk` | api/message.go:437-457 | No batch is empty or too large; one id alone goes to the bulk endpoint if and only if the count is 1 modulo 100 and not 1. |
| `Gateway.Loop.QueueReconnect` | utils/ws/gateway.go:278-285 | At most one token is queued however often it is called; the heartbeat stops. |
| `Gateway.Loop.Reconnect` | utils/ws/gateway.go:354-397 | The loop goes on exactly when a dial within the allowed attempts succeeds before the context expires; the errors reported, that of closing the previous connection included, are exactly counted, and the last error is the last of them. |
| `Gateway.AttemptsMean` | utils/ws/gateway.go:372-397 | The dials that precede the deciding one are the failed ones before the first other outcome, as far as attempts are allowed. |
| `Gateway.ReadLoop` | utils/ws/conn.go:223-258 | Everything read goes into the channel in order, and the last op before it is closed is a close event with the peer's code, or -1. |
| `Gateway.Session.Invalidate` | gateway/gateway.go:323-326 | Session and sequence are forgotten, nothing else. |
| `Gateway.Session.UseLastSentBeat` | gateway/gateway.go:438-445 | The acknowledgement times are taken over. |
| `Gateway.Session.SendHeartbeat` | gateway/gateway.go:465-481 | Declares the connection dead or sends a beat with the current sequence; a failure is reported, queues a reconnect and stops the ticker. |
| `Gateway.Session.OnOp` | gateway/gateway.go:346-436 | The whole new state, the command sent, the errors reported, the reconnect queued and the ticker reset or stopped, for every kind of op. |
| `Gateway.Session.HandleOp` | utils/ws/gateway.go:325-349 | An op is handled before it is forwarded, and clears the last error; a fatal close is forwarded unhandled, ends the loop and is its last error. |
| `Gateway.ResumesIff` | gateway/gateway.go:360-391 | A Hello is answered with a Resume of the client's session and sequence if and only if it has both and its last acknowledgement, if any, is less than 15 minutes old, and with an Identify otherwise. |
| `Gateway.SendsIff` | gateway/gateway.go:346-436 | The only ops that make the client send are a Hello, an invalid session that may be resumed, and a heartbeat request on a connection that is not dead; a beat carries the sequence. |
| `Gateway.ReconnectsIff` | gateway/gateway.go:346-481 | A reconnect is queued exactly on a close, a reconnect request, an invalid session, a wait given up, a failed send and a death, and an error is reported exactly on the last three. |
| `Gateway.SessionIsKept` | gateway/gateway.go:346-360 | The session is lost exactly on an invalid session and close code 4007, replaced on READY, and every dispatch brings the sequence. |
| `Gateway.TimesAreKept` | gateway/gateway.go:360-445 | What each op does to the beat times, the pace and the ticker: READY, RESUMED and an acknowledgement count alike, and a Hello counts as a beat. |
| `Gateway.FatalIff` | gateway/gateway.go:143-153 | The close codes after which there is no reconnect are 4004 and 4010 to 4014. |
| `SessionProtocol.ReadKeepsCore` | utils/ws/gateway.go:325-349 | Handling and forwarding one op keeps the protocol invariant: what is forwarded plus what is unread of each session is a prefix of it, and client, pending requests and server agree on where they are. |
| `SessionProtocol.RedialKeepsCore` | utils/ws/gateway.go:354-397 | So does a reconnect, with everything unread lost. |
| `SessionProtocol.DropKeepsCore` | utils/ws/conn.go:234-256 | So does losing the connection at any point; the read loop then adds a close event. |
| `SessionProtocol.StopKeepsCore` | gateway/gateway.go:484-488 | So does ending the loop, which invalidates the session. |
| `SessionProtocol.ServeKeepsCore` | gateway/gateway.go:338-344 | So does the server's answer to Identify and Resume. |
| `SessionProtocol.RunKeepsCore` | gateway/gateway.go:346-436 | The invariant holds in every reachable state. |
| `SessionProtocol.ExactlyOnce` | gateway/gateway.go:346-436 | In every run with arbitrary drops, what the consumer was given of each session is its first k dispatches, each once and in order. |
| `SessionProtocol.ResumeIsExact` | gateway/gateway.go:378-391 | Whenever a Resume is sent, exactly the dispatches up to its sequence were forwarded of its session. |
| `SessionProtocol.HelloResumes` | gateway/gateway.go:360-391 | In every run a Hello that is read makes a client with a session acknowledged in the last 15 minutes, or not at all, ask for exactly what follows everything it has forwarded of it, and any other client identify. |
| `SessionProtocol.ResumeAttaches` | gateway/gateway.go:338-344 | In every run a server that accepts a Resume continues right after what was forwarded of that session. |
| `SessionProtocol.ReconnectResumes` | utils/ws/gateway.go:354-397 | From every reachable state with a reconnect due and such a session, dialing, the Hello and the Resume attach the session exactly where it was left. |
| `SessionProtocol.NothingIsLost` | gateway/gateway.go:346-436 | From every such state there is a continuation after which all dispatches of the session have been forwarded, each once and in order. |
| `SessionProtocol.BeatsCount` | gateway/gateway.go:465-481 | In every run a beat carries the number of dispatches forwarded of the client's session. |
| `SessionProtocol.ReadQueuesIff` | gateway/gateway.go:346-436 | In every run an op leaves a reconnect queued exactly when one was, or when it is a close, a reconnect request or an invalid session, or its answer cannot be sent, or a beat is due on a dead connection. |
| `SessionProtocol.RedialOpens` | utils/ws/gateway.go:354-397 | A reconnect that works spends the token, keeps session and times, and leaves only the new connection's Hello to be read. |
| `SessionProtocol.RedialGivesUp` | utils/ws/gateway.go:331-397 | One that does not ends the loop and the session, after its error reports. |
| `SessionProtocol.StopEnds` | gateway/gateway.go:484-488 | In every run cancelling the context closes the connection, forgets the session and forwards nothing more; on a stopped loop it does nothing. |
| `SessionProtocol.StartsAfresh` | gateway/gateway.go:312-320 | In every run a loop that is started again has no session, one token, and no connection it could call dead. |
| `SessionProtocol.RunTracks` | gateway/gateway.go:323-326 | In every run session and sequence are those of the latest READY and the latest dispatch forwarded since the last invalidation. |
| `SessionProtocol.ResumeNamesLatest` | gateway/gateway.go:338-344 | A Resume carries exactly these two. |
| `SessionProtocol.ApplyNeverStuck` | utils/ws/gateway.go:317-330 | Each step keeps: at most one token, and one whenever the running loop has nothing left to read from. |
| `SessionProtocol.RunNeverStuck` | utils/ws/gateway.go:275-285 | So the loop is never stuck on a dead source in any run. |
| `SessionProtocol.RunInOrder` | utils/ws/gateway.go:361-370 | No op of an earlier connection is handled after a reconnect. |
| `Heartbeats.SilentDies` | gateway/gateway.go:447-481 | After an acknowledgement at time a, a connection without further ones is declared dead later than a + 2h and not later than a + 3h, whatever else the server sends. |
| `Heartbeats.SilentAfterAck` | gateway/gateway.go:410-481 | The same counted from the acknowledgement itself, be it a HEARTBEAT_ACK, a READY or a RESUMED. |
| `Heartbeats.ResponsiveLives` | gateway/gateway.go:447-481 | A connection whose beats are each acknowledged before the next tick is never declared dead. |
| `Heartbeats.ResponsiveFromHello` | gateway/gateway.go:360-376 | The same from the Hello on. |
| `Heartbeats.NeverAcknowledged` | gateway/gateway.go:455-458 | Without a first acknowledgement a silent connection is never declared dead. |
| `RateBucket.CtxMutex.Lock` | internal/moreatomic/mutex.go:17-24 | Takes the lock, unless the context is cancelled first. |
| `RateBucket.CtxMutex.TryUnlock` | internal/moreatomic/mutex.go:27-34 | Unlocks and says whether it was locked. |
| `RateBucket.Cell.Acquire` | api/rate/rate.go:123-170 | Refused, acquired or cancelled, when, and the turn taken; a refusal keeps the lock, a cancelled wait gives it back, and a cancelled Lock leaves it alone. |
| `RateBucket.Cell.Release` | api/rate/rate.go:173-246 | The bucket, the global limit and the error the headers lead to, and the lock is free on every path. |
| `RateBucket.HeadersMean` | api/rate/rate.go:196-246 | What the headers of a response mean without a custom limit: Retry-After before reset time, to the second and on the bucket or on everything; a quarter of a second on top of a reset time; the requests left; and an error at the first field that cannot be parsed, which leaves the rest alone. |
| `RateBucket.HeadersAreIgnored` | api/rate/rate.go:182-196 | A custom limit is not moved by headers, and without a response nothing is. |
| `RateBucket.OwnRetryWaits` | api/rate/rate.go:210-222 | A Retry-After of i seconds on an exhausted bucket keeps it shut for i seconds and leaves the global limit alone. |
| `RateBucket.ExhaustedWaits` | api/rate/rate.go:224-243 | After a response that leaves no requests until t nothing passes before t plus a quarter of a second. |
| `RateBucket.GlobalRetryWaits` | api/rate/rate.go:210-222 | A global Retry-After of i seconds holds back every bucket with requests left. |
| `RateBucket.GlobalLimitKeptIff` | api/rate/rate.go:141-147 | What Acquire decides is no earlier than the global limit if and only if the bucket is not exhausted with a reset time before that. |
| `RateBucket.SpacingIff` | api/rate/rate.go:183-192 | A custom bucket without turns holds requests back for R after a Release if and only if that Release moves the reset time or one did at the same instant. |
| `Limiter.RunExclusive` | api/rate/rate.go:123-180 | In every interleaving a bucket's lock is taken exactly when one attempt on it is under way. |
| `Limiter.MutualExclusion` | api/rate/rate.go:123-180 | At most one attempt per bucket is between Acquire and Release, and the lock is free when none is. |
| `Limiter.ReleaseGivesBack` | api/rate/rate.go:178-180 | The Release of any attempt, refused, failed by an option or answered, finds the lock taken by it and leaves it, and no other lock, free. |
| `Limiter.RunKeepsSpacing` | api/rate/rate.go:141-192 | The invariant behind the next two rows, over every run. |
| `Limiter.CustomLimitSpaces` | api/rate/rate.go:182-192 | With a custom limit R and no refusal released before the first grant, every send comes at least R after the Release of every earlier send. |
| `Limiter.CustomLimitSpacesTheRest` | api/rate/rate.go:182-192 | In every run at all the same holds after each Release but the bucket's first. |
| `Limiter.EarlyRefusalBreaksSpacing` | api/rate/rate.go:149-192 | A run with one early refusal, on which the second request goes 0.9 s after the first answer although R is 2 s. |
| `Limiter.SpacedAfterIff` | api/rate/rate.go:182-192 | After any run, once a request on a bucket with custom limit R is answered, some continuation sends there less than R later if and only if that Release does not move the reset time and none did at the same instant. |
| `Cancellation.KeepsExclusiveIff` | api/rate/rate.go:178-180 | With cancelled contexts, a step keeps the lock exclusive if and only if it is not the Release of an attempt that gave up while another one has the lock. |
| `Cancellation.RunExclusive` | internal/moreatomic/mutex.go:17-34 | In every run without such a Release at most one attempt has the lock. |
| `Cancellation.SecondHolderIff` | internal/moreatomic/mutex.go:17-34 | From any exclusive state a Release lets the next request in beside another holder if and only if it is one of these. |
| `Cancellation.LockIsPassedOn` | internal/moreatomic/mutex.go:17-34 | From any exclusive state whoever has the lock can finish and pass it on to any queued attempt. |
| `Cancellation.TwoHoldersAreReached` | api/rate/rate.go:130-132 | A run that ends with two holders. |
| `Limiter.BudgetLasts` | api/rate/rate.go:141-170 | The invariant behind the next two rows, from any state in which it holds, over every run. |
| `Limiter.BudgetIsKept` | api/rate/rate.go:224-246 | After any Release at all, at most as many requests are sent on its bucket before the bucket's reset time as it then has left, until the next Release that changes either. |
| `Limiter.ReportedBudgetIsKept` | api/rate/rate.go:224-243 | So after a response that reports u requests until t, news or not, at most u are sent before t and a quarter of a second. |
| `Limiter.OwnRetryIsKept` | api/rate/rate.go:210-243 | In every run, after an answer with a Retry-After of i seconds for its own bucket and u requests left, at most u are sent there in those i seconds, none if u is 0, until a Release changes that; the global limit stays. |
| `Limiter.GlobalLimitIsMoved` | api/rate/rate.go:210-219 | In every run the global limit is moved by answers with a global Retry-After on buckets without a custom limit, to that many seconds later, and by no other step. |
| `Limiter.RefusedIff` | api/rate/rate.go:141-164 | In every run an attempt that has the lock waits for the reset time of an exhausted bucket that is still to come, and else for the global limit, and is refused exactly when it would have to wait and does not want to, or its deadline comes first. |
| `Limiter.ContainsIff` | api/rate/rate.go:107-113 | A custom limit applies to the paths that have its text somewhere. |
| `Limiter.CustomForIff` | api/rate/rate.go:107-113 | The first of them that applies counts. |
| `Limiter.GlobalLimitIsKept` | api/rate/rate.go:141-164 | In every run an attempt is sent no earlier than the global limit at its check, unless its bucket was exhausted then and opened before that. |
| `Limiter.GlobalLimitIsMissed` | api/rate/rate.go:141-147 | In every state of that kind it can be sent before the global limit. |
| `Limiter.GlobalLimitCanBeMissed` | api/rate/rate.go:141-147 | A run that reaches such a state, and a send at 1.25 s although the global limit lasts 5 s. |
| `HttpClient.ApplyOptions` | utils/httputil/client.go:81-95 | Every option runs, in order; the error returned is the last one. |
| `HttpClient.Request` | utils/httputil/client.go:188-277 | How many attempts are made, what is returned, and every call made, for every course of the attempts. |
| `HttpClient.CallsAre` | utils/httputil/client.go:203-231 | What an attempt calls: every option in order, the request itself if none of them failed, and every handler in order in either case. |
| `HttpClient.SuccessIff` | utils/httputil/client.go:203-243 | A request succeeds if and only if some attempt within the retries is answered with a status from 200 to 299, all before it were unanswered or answered with 429 or at least 500, and no option and no response handler failed until then. |
| `HttpClient.AnswerIsFinal` | utils/httputil/client.go:237-277 | The first answer other than 429 and at least 500 ends the request there, with exactly its status: a response from 200 to 299, an HTTP error below 200, from 300 to 428 and from 430 to 499. |
| `HttpClient.RetriesRunOut` | utils/httputil/client.go:192-277 | When all attempts are unanswered, 429 or at least 500, all retries are made and the last one gives the error; without a limit on the retries there is no end. |
| `HttpClient.PreparationIsFinal` | utils/httputil/client.go:203-216 | A request that cannot be made, or one of whose options fails, ends the attempts at once with that error. |
| `HttpClient.HandlerErrorIs` | utils/httputil/client.go:225-247 | The error returned after a response handler failed is the latest one that any attempt's handlers returned. |
| `HttpClient.HandlerFailureLasts` | utils/httputil/client.go:225-247 | After one response handler error no later success counts: the retries are used up, unless a later attempt cannot be prepared. |
| `HttpClient.GoodAnswerIsLost` | utils/httputil/client.go:225-247 | Two attempts answered with success, the first of which met a handler error: the request fails. |
| `HttpClient.LockIsPaired` | utils/httputil/client.go:205-231 | On every path the option that takes a lock and the handler that gives it back alternate, and the lock is free at the end. |
| `HttpClient.LatestMeans` | utils/httputil/client.go:79-95 | The error kept is none exactly when there is none, and else the one after which none follows. |
| `SlabList.Slab.Append` | utils/handler/slab.go:22 | append in place, or into a new array that leaves the old one alone. |
| `SlabList.Slab.Put` | utils/handler/slab.go:18-33 | Slots and free pointer afterwards and the id returned, in place or with a grown array; PutRefines says what that means. |
| `SlabList.Slab.Get` | utils/handler/slab.go:35-37 | The handler in the slot. |
| `SlabList.Slab.Pop` | utils/handler/slab.go:39-44 | Slots and free pointer afterwards and the handler that was there; PopIff says when that is in order. |
| `SlabList.PutRefines` | utils/handler/slab.go:18-33 | Put returns an id not in use, stores the handler under it and nothing else, and keeps the free list: it visits every dead slot once, no live one, and ends at the end of the slab. |
| `SlabList.PopRefines` | utils/handler/slab.go:39-44 | Pop of an id in use forgets that handler and no other, and keeps the free list. |
| `SlabList.PopIff` | utils/handler/slab.go:39-44 | Pop keeps the free list in order if and only if the id is in use. |
| `SlabList.DoublePop` | utils/handler/slab.go:39-44 | After popping an id twice Put returns the same id twice. |
| `SlabList.RunHasFreeList` | utils/handler/slab.go:18-44 | Every run of Put and of Pop of ids in use has a free list in order. |
| `SlabList.RunRefinesMap` | utils/handler/slab.go:18-44 | In every such run the slab is a finite map from ids to handlers, and Put never returns an id in use. |
| `Registry.EventHandler.AddHandler` | utils/handler/handler.go:223-246 | The registration is added at the end of the history and the token stands for it. |
| `Registry.EventHandler.Remove` | utils/handler/handler.go:248-255 | Exactly the token's registration is marked as removed, once or again, although the slab popped is a thrown-away copy; the handler is returned the first time only. |
| `Registry.EventHandler.AllCallersForType` | utils/handler/handler.go:54-84 | Visits exactly the handlers that are there and want the event, those of its type first, each group in order of addition, and stops where the consumer stops. |
| `Registry.OfRemoved` | utils/handler/handler.go:248-255 | Removing a registration changes it and no other, under any key. |
| `Registry.TokenIsStable` | utils/handler/handler.go:248-255 | A token stands for the same registration whatever is added or removed later. |
| `Registry.TokensDiffer` | utils/handler/handler.go:237-246 | Different tokens stand for different registrations. |
| `Registry.HistoryIs` | utils/handler/handler.go:223-255 | Over every program of adding and removing, each registration is there if and only if its remove function was not called after it was added. |
| `Registry.CalledExactly` | utils/handler/handler.go:54-84 | An event is passed to a handler if and only if the handler was added, never removed and wants it. |
| `Registry.CalledInOrder` | utils/handler/handler.go:54-84 | In this order: handlers of the event's type before those of interfaces, each kind in the order of addition, each once for every time it was added. |
| `Registry.CancelAgain` | utils/handler/handler.go:248-255 | Calling a remove function again changes nothing. |
| `Reactions.FindReaction` | state/state_events.go:417-424 | The first entry with the emoji's id and name, or -1. |
| `Reactions.Edited` | state/state_events.go:273-336 | The list each event makes of a copy of the message, nil included, and whether it is saved; EventRefinesIff says what that means. |
| `Reactions.Cache.Update` | state/store/defaultstore/message.go:186-215 | Only fields that are set overwrite those of a message already cached. |
| `Reactions.Cache.OnReaction` | state/state_events.go:398-415 | The cached list after an event, every other field kept, and no other message touched. |
| `Reactions.AddRefines` | state/state_events.go:273-296 | Adding a reaction keeps the list in step with who reacted with what. |
| `Reactions.RemoveRefines` | state/state_events.go:298-323 | So does removing one. |
| `Reactions.RemoveEmojiRefines` | state/state_events.go:331-339 | So does removing an emoji. |
| `Reactions.EventRefinesIff` | state/state_events.go:325-329 | Every possible event keeps the list in step, if and only if it does not remove all of some reactions: that is lost, since a nil list is not saved. |
| `Reactions.RemoveAllIsLost` | state/state_events.go:325-329 | A run of one reaction and its removal with all others after which it is still listed. |
| `Reactions.RunRefines` | state/state_events.go:273-339 | Over every run without such a loss the list has one entry per emoji somebody reacted with, its count is the number of users, and Me says whether the current user is one. |
| `Reactions.RunIsWellFormed` | state/state_events.go:273-339 | Over every run at all emojis stay distinct and counts at least 1. |
| `Permissions.CalcOverrides` | discord/permission.go:175-240 | The loops with their early exits compute the mask that OverrideRule describes bit by bit. |
| `Permissions.OverrideRule` | discord/permission.go:175-240 | Every bit of the result: that of PermissionAll, 0xff_fff7_ffff, for owners and administrators, bit 0x8, and else the member's overwrite before those of kind role for the member's roles before everyone's before the roles themselves, allow before deny within a layer. |
| `Permissions.OwnerHasLessIff` | discord/permission.go:175-240 | A member has a permission that the owner would lack in the same place if and only if the layers grant it, PermissionAll misses it, and the member is not an administrator. |
| `Permissions.OwnerMayHaveLess` | discord/permission.go:143-154 | For each permission that PermissionAll misses there is a guild in which everyone has it but its owner. |
| `Permissions.OrderDoesNotMatter` | discord/permission.go:175-240 | With distinct role and overwrite ids the result is the same for every order of roles, role ids and overwrites. |
| `Permissions.BitOverwritten` | discord/permission.go:206-207 | What one overwrite does to one bit. |
| `Permissions.BitsDecide` | discord/permission.go:165-171 | Masks with the same bits are equal. |
| `Permissions.FirstRoleIff` | discord/permission.go:185-190 | The role that stands for everyone is the first one with the guild's id. |
| `Permissions.FirstOverwriteIff` | discord/permission.go:204-210 | Of the overwrites for everyone, and of those for the member, the first one counts. |
| `RTP.HeaderRoundTrip` | voice/udp/connection.go:243-256 | The accessors decode the flags, type, sequence, timestamp and SSRC that Write encodes. |
| `RTP.Connection.Write` | voice/udp/connection.go:207-238 | The n-th Write sends the n-th header with the sealed payload; the counters advance even when it fails. |
| `RTP.Connection.ResetFrequency` | voice/udp/connection.go:171-175 | Sets the ticker period and the increment and leaves the counters. |
| `RTP.Connection.ReadPacket` | voice/udp/connection.go:269-359 | Datagrams that are short or have another version are skipped; the first other one decides the result, stripped of its header extension. |
| `RTP.SameHeaderIff` | voice/udp/connection.go:208-213 | Two headers are the same if and only if both counters have gone around. |
| `RTP.HeadersRepeatIff` | voice/udp/connection.go:162-168 | For the documented increments headers repeat exactly every 2^27, 2^26, 2^25 and 2^26 packets. |
| `RTP.NearbyNoncesDiffer` | voice/udp/connection.go:215-216 | Fewer than 2^25 Writes apart, the nonces differ. |
| `RTP.WriteReadRoundTrip` | voice/udp/connection.go:207-359 | A packet of at most 1372 bytes arrives as it was written. |
| `RTP.ExtensionIsStrippedIff` | voice/udp/connection.go:322-353 | A payload that starts with a header extension of section 5.3.1 of RFC 3550, under the extension flag and without the marker, loses it, unless nothing follows. |
| `RTP.StrippedIff` | voice/udp/connection.go:322-353 | Nothing else is ever cut off a payload. |
| `RTP.ExtendedRoundTrip` | voice/udp/connection.go:269-359 | A packet that carries a header extension is received without it. |
| `RTP.FitsIff` | voice/udp/connection.go:140-145 | A datagram is 28 bytes longer than its packet and fits the receive buffer exactly when the packet has at most 1372 bytes. |
| `RTP.NonceIs` | voice/udp/connection.go:215-220 | The nonce is the header filled up with zeros to 24 bytes. |
| `RTP.AcceptableIff` | voice/udp/connection.go:281-283 | A datagram is looked at exactly when it has a whole header with version 2, no padding and no contributing sources. |
| `Routing.FindCommandHandler` | api/cmdroute/router.go:210-224 | The loop and recursion, with the fallback to the groups when a matching subrouter fails deeper, compute the lookup whose meaning FindIsFirst gives. |
| `Routing.FindCommandHandlerOnce` | api/cmdroute/router.go:228-252 | The lookup in one router without its groups, down its subrouters; it terminates on the depth of the options. |
| `Routing.FindIsFirst` | api/cmdroute/router.go:210-252 | The lookup leads where the first path leads that leads anywhere. |
| `Routing.FoundIff` | api/cmdroute/router.go:210-252 | A handler is found if and only if some path leads to one. |
| `Routing.OwnCommandIsFound` | api/cmdroute/router.go:210-252 | A command registered on the router itself is found, whatever its groups hold, exactly when it is called as a command. |
| `Routing.SubcommandIsFound` | api/cmdroute/router.go:228-252 | A subcommand called through a single option is found in its subrouter, with both routers' middlewares. |
| `Routing.FindAgrees` | api/cmdroute/router.go:210-252 | The lookup depends on a router's nodes, its direct groups and the middlewares above, and on nothing else. |
| `Routing.GroupsOfGroupsAreMissed` | api/cmdroute/router.go:216-221 | What the groups of a group hold makes no difference to the handler found, its option and its middlewares: only direct groups are searched. |
| `Routing.CallHandler` | api/cmdroute/router.go:158-172 | The handler called has the middlewares of all its routers around it, the root's outermost, each router's in order of addition. |
| `Routing.LayersOfCompose` | api/cmdroute/router.go:161-163 | The layers around such a handler, from the outermost in, are those middlewares. |
| `Routing.CmdIsGroup` | api/cmdroute/router.go:192-200 | Whether some option is a subcommand or a group of them. |
| `Routing.HandleCommand` | api/cmdroute/router.go:174-190 | A command is answered if and only if a path leads to a handler; then that of the first such path, with its middlewares, is called with its option. |
| `BucketKey.ParseBucketKey` | api/rate/majors.go:11-58 | The loops compute the key that the lemmas below describe, for every path; without a slash before the query they panic. |
| `BucketKey.SplitJoin` | api/rate/majors.go:14-56 | Splitting undoes joining. |
| `BucketKey.JoinSplit` | api/rate/majors.go:14-56 | Joining undoes splitting. |
| `BucketKey.KeyIsIdempotent` | api/rate/majors.go:11-58 | A key is its own key. |
| `BucketKey.WhatIsKept` | api/rate/majors.go:20-53 | A segment is emptied if and only if it is an id or emoji at an odd position, other than the first of a channel's or guild's path. |
| `BucketKey.SameKeyIff` | api/rate/majors.go:11-58 | Two paths share a key if and only if their segments agree after ids and emojis are removed. |
| `BucketKey.OtherParameterSameKey` | api/rate/majors.go:33-53 | Replacing an id or emoji at a parameter position by another one keeps the key. |
| `BucketKey.SameKeySameMajor` | api/rate/majors.go:22-31 | Paths of channels or guilds with equal keys have equal major ids. |
| `BucketKey.QueryIsIgnored` | api/rate/majors.go:12 | The query does not matter. |
| `BucketKey.FailsIff` | api/rate/majors.go:14-25 | It panics if and only if there is no slash before the query. |

## Left out

- CustomLimitSpaces: only for runs in which no refusal is released before the first grant, because the law is false without that; CustomLimitSpacesTheRest says what remains.
- WriteReadRoundTrip: only for packets that fit the receiver's buffer, because what a truncated box opens to is unknown.
- MessageSet: of the fields that DiffMessage merges, this cache has the content only; the reactions' cache has all of them.
- GuildsBefore, GuildsAfter, ReactionsBefore, ReactionsAfter, MembersAfter: limits below 2^63, which int() does not make negative.
- RunKeepsOrder, CallsReturnTheNewest, TinyCallsReturnAllThatFits: only while no edit empties the content of a cached message and no two messages share a millisecond, because EditKeepsOrderIff and CacheStaysPrefix show that they fail then; CallsReturnTheNewestIds has what lost edits leave.
- HTTP drivers, websocket reads and writes, zlib and JSON: they are steps with given outcomes.
- Cancelled contexts together with budgets and times: `Cancellation` has the lock only.
- The bucket map and its mutex as heap objects: `Limiter` keeps the buckets in a map value, and `RateBucket.Cell` is the object.
- Parsing of header numbers and the fraction of X-RateLimit-Reset: a field is absent, malformed or a number.
- Floating-point backoff between dials.
- Dispatches that cannot be decoded: the codec turns them into ops without a sequence, which would leave gaps.
- SetState and changes of the resume state from outside the event loop.
- Changes of a list on the server while it is being paged; the page size a service may lower on its own.
- Allocation: `make` with a huge limit panics, counts of reactions do not overflow, and the exact growth of slices is free.
- Copies of a message handed out earlier: reaction events change the array they share with the cache in place, which is a race.
- The null snowflake, which the client treats as an invalid id like 0.
- Message deletions in the cache over time, and a channel lookup that fails there: ChannelRuns has creations, edits and calls.
- The error body of a failed request, and closing response bodies.
- Everything built on reflection: decoding handlers, calling them in goroutines, closing a removed channel handler.
- Building a router: `With` hands out pointers that a later `With` may invalidate; the finished tree is modelled.
- Autocompleters and components in the router: the same lookup, and a plain map access.
- Voice connection management, IP discovery and the pacing of packets.
- Guild, member, presence and voice caches, shard management, REST wrappers without loops.
