# edge-chat-demo, modelled in Dafny

This project models the logic of a chat application that runs on Cloudflare
Durable Objects, and proves properties of that model. A **room coordinator**
(`ChatRoom`) keeps a table of connected sessions and a timestamp watermark.
It admits connections, handles one inbound text frame at a time and
broadcasts to the room. Broadcasts isolate the peers whose sends fail. The
room persists chat messages under their timestamps and replays the latest
100 to a newcomer. Beside the room the project models:

- the frame schemas it validates with;
- the per-identity **rate limiter** and the room-side **rate limiter
  client**;
- the browser's **chat store**;
- the browser's **schemas** for usernames, messages, room ids and server
  frames;
- the **relative-time formatter**.

## Layout

- `Base.dfy`: Option, Result, JSON values and max.
- `RoomFrames.dfy`: the frames the room sends.
- `RoomSchemas.dfy`: the room's validators (`schemas.ts`).
- `RoomState.dfy`: the session table as a sequence of entries with `Map` semantics, and the room as a value.
- `History.dfy`: the backlog a newcomer gets (`storage.list({reverse, limit: 100})`, reversed).
- `RoomBroadcast.dfy`: `broadcast` as a function, plus its closed form.
- `RoomSpec.dfy`: restore, admission and frame handling as functions of the room state.
- `RoomProperties.dfy`: what one frame does, case by case.
- `RoomRun.dfy`: what holds over every run of events from a restore.
- `ChatRoom.dfy`: the room as a class. Its fields are updated step by step as the source does. Each method is proved to produce the state the matching function describes.
- `RateLimiter.dfy`, `RateLimiterClient.dfy`, `ChatStore.dfy`, `ClientSchemas.dfy`, `RelativeTime.dfy`: the remaining components.

The environment is made explicit:

- Sockets are numbers.
- `Date.now()` is a parameter `now`.
- The sockets whose `send` throws during one frame's broadcasts are a set `broken`.
- A rejected `storage.put` is a parameter `fault`.
- Storage is a map from the integer timestamp to the stored frame.
- What the room does to its sockets (sends and closes) is appended to a log `out`, in source order.
- A text frame is identified with the JSON object it encodes.

Where the code behaves unexpectedly, the model follows the code:

- **The 1009 close is unreachable.** `userInfoSchema` rejects a name over 32 characters before it is assigned. The sender gets one "Validation failed" error and stays open and unnamed (`RoomProperties.LongNameRejected`). The `Name too long.` close at `ChatRoom.ts:124-128` can never run. `ChatRoom.ChatRoom.HandleMessage` marks that branch with `assert false`.
- **Removal only happens inside `broadcast`.** There is no close or error handler and no idempotent disconnect. A session is removed only when a send to it throws.
- **The 1011 "WebSocket broken." close is unreachable.** `quit` is set only on a session that is deleted at the same moment. `RoomRun.RunInv` proves that over any run, the only closes are those of failed restores.
- **The room never rate-limits.** It never creates a rate-limiter client: `handleSession` sets no `limiter`. Chat frames are never rate-limited by the room.
- **Restored sessions lose their names.** A session restored after hibernation has no name, even when its attachment carries one.
- **The watermark restarts at 0 after a restore.** So "no stored message is overwritten" rests on the clock: every stored key is below `now` (`RoomRun.NoOverwrite`).

## Model

| member | source | states |
|---|---|---|
| Base.Max | app/durable-objects/ChatRoom/ChatRoom.ts:149 | `Math.max` on integers: at least each argument and equal to one of them |
| Base.MaxReal | app/durable-objects/RateLimiter/RateLimiter.ts:14 | `Math.max` on exact numbers: at least each argument and equal to one of them |
| RoomFrames.ToJson | app/durable-objects/ChatRoom/ChatRoom.ts:150-158 | every frame the room sends is a JSON object without a `type` member |
| RoomState.IndexOf | app/durable-objects/ChatRoom/ChatRoom.ts:167 | finds a position holding the socket exactly when the socket is in the table, and no earlier position holds it |
| RoomState.Named | app/durable-objects/ChatRoom/ChatRoom.ts:114 | a session counts as named exactly when its name is present and not empty, as the truthiness test on `session.name` has it |
| RoomState.IndexOfFirst | app/durable-objects/ChatRoom/ChatRoom.ts:167 | the first position holding a socket is the one found |
| RoomState.Lookup | app/durable-objects/ChatRoom/ChatRoom.ts:167-168 | `sessions.get`: found exactly when the socket is present, and in a duplicate-free table it is that entry's session |
| RoomState.Put | app/durable-objects/ChatRoom/ChatRoom.ts:34-37 | `sessions.set`: the socket maps to the new session; an existing key keeps its place, a new key is appended; other entries are unchanged; sockets stay distinct |
| RoomState.Update | app/durable-objects/ChatRoom/ChatRoom.ts:117 | in-place change of one session: only that position changes, and sockets stay distinct |
| RoomSchemas.OptionalString | app/durable-objects/ChatRoom/schemas.ts:4-5 | `z.string().max(n).optional()` accepts exactly an absent member or a string within the limit, and yields it |
| RoomSchemas.OptionalNumber | app/durable-objects/ChatRoom/schemas.ts:6 | accepts exactly an absent member or a number, and yields it |
| RoomSchemas.OptionalBoolean | app/durable-objects/ChatRoom/schemas.ts:10 | accepts exactly an absent member or a boolean, and yields it |
| RoomSchemas.ParseChatMessage | app/durable-objects/ChatRoom/schemas.ts:3-11 | accepts exactly an object in which `name`, `joined`, `quit` and `error` are each absent or a string, `message` absent or a string of at most 256 characters, `timestamp` absent or a number, and `ready` absent or a boolean; every other value is rejected |
| RoomSchemas.ParsedMembers | app/durable-objects/ChatRoom/schemas.ts:3-11 | an accepted frame carries each of the seven listed members exactly as the object had it: present with the same value, or absent |
| RoomSchemas.DataToJson | app/durable-objects/ChatRoom/ChatRoom.ts:112-116 | the parsed frame as the next schema sees it: exactly the members present, with their values |
| RoomSchemas.EmptyFrameAccepted | app/durable-objects/ChatRoom/schemas.ts:3-11 | every member is optional, so `{}` is accepted with every member absent |
| RoomSchemas.ChatMessageRoundTrip | app/durable-objects/ChatRoom/schemas.ts:3-11 | parsing the object form of any frame data gives it back, unless its message is over 256 characters, which is rejected |
| RoomSchemas.UnlistedMembersIgnored | app/durable-objects/ChatRoom/schemas.ts:3-11 | adding or changing a member the schema does not list never changes the result |
| RoomSchemas.ParseUserInfo | app/durable-objects/ChatRoom/schemas.ts:13-15 | accepts exactly an object whose `name` is absent or a string of at most 32 characters |
| RoomSchemas.UserInfoOfFrame | app/durable-objects/ChatRoom/schemas.ts:13-15 | on a parsed frame: rejects exactly a name over 32 characters, and otherwise keeps the name |
| RoomSchemas.Strings | app/durable-objects/ChatRoom/schemas.ts:20 | `z.array(z.string())` yields the strings, position by position |
| RoomSchemas.ParseSessionData | app/durable-objects/ChatRoom/schemas.ts:17-23 | accepts exactly: a string `limiterId`; `blockedMessages` absent or an array of strings; `name` absent or at most 32 characters; `quit` absent or a boolean. An accepted object yields its own `limiterId`, its strings in order, its `name` and its `quit`, each absent exactly when the member is |
| RoomSchemas.ParseAttachment | app/durable-objects/ChatRoom/schemas.ts:25-28 | accepts exactly a string `limiterId` with `name` absent or a string, and yields the `limiterId` |
| History.MaxKey | app/durable-objects/ChatRoom/ChatRoom.ts:99-102 | the largest stored key |
| History.TopKeysDesc | app/durable-objects/ChatRoom/ChatRoom.ts:99-102 | `list({reverse: true, limit})`: `min(limit, n)` stored keys, strictly descending; every key left out is below every key listed; all keys are listed when they fit |
| History.Reverse | app/durable-objects/ChatRoom/ChatRoom.ts:105 | position `i` holds the element at position `n-1-i` |
| History.BacklogKeys | app/durable-objects/ChatRoom/ChatRoom.ts:99-105 | the backlog holds min(100, number stored) keys, each of them a stored key |
| History.BacklogKeysSound | app/durable-objects/ChatRoom/ChatRoom.ts:99-105 | the backlog keys strictly ascend, no stored key left out is newer than one kept, and all stored keys are kept when there are at most 100 |
| History.OldestFirst | app/durable-objects/ChatRoom/ChatRoom.ts:105 | reversing the newest-first list gives the same keys oldest first: same length, same members, ascending order, same newest-kept guarantee |
| History.Backlog | app/durable-objects/ChatRoom/ChatRoom.ts:104-105 | the stored frames of those keys, in the same order |
| RoomBroadcast.Pass | app/durable-objects/ChatRoom/ChatRoom.ts:188-200 | every entry is either kept or set aside |
| RoomBroadcast.Broadcast | app/durable-objects/ChatRoom/ChatRoom.ts:184-207 | the table never grows; the watermark and storage are unchanged; the log only grows |
| RoomBroadcast.QuitAll | app/durable-objects/ChatRoom/ChatRoom.ts:202-206 | the same, for the `{quit}` broadcasts after the pass |
| RoomBroadcast.EnqueueOne | app/durable-objects/ChatRoom/ChatRoom.ts:197-199 | an unnamed session's queue gains the frames at its end; a named one is unchanged |
| RoomBroadcast.Enqueue | app/durable-objects/ChatRoom/ChatRoom.ts:188-200 | `EnqueueOne` at every position |
| RoomBroadcast.Live | app/durable-objects/ChatRoom/ChatRoom.ts:188-196 | the survivors are exactly the entries, minus the named ones whose send throws |
| RoomBroadcast.Failed | app/durable-objects/ChatRoom/ChatRoom.ts:192-195 | every set-aside session is named and marked `quit`, and every failing named session is among them |
| RoomBroadcast.Deliveries | app/durable-objects/ChatRoom/ChatRoom.ts:189-191 | sends of the frame only, and one to every named session |
| RoomBroadcast.QuitFrames | app/durable-objects/ChatRoom/ChatRoom.ts:202-206 | when every quitter is named, one `{quit:name}` per quitter, in order |
| RoomBroadcast.PassClosedForm | app/durable-objects/ChatRoom/ChatRoom.ts:188-200 | the pass keeps `Live` with the frame queued for its unnamed sessions, sends to the named survivors in table order, and sets aside `Failed` |
| RoomBroadcast.DeliveriesOfEnqueue | app/durable-objects/ChatRoom/ChatRoom.ts:197-199 | queueing frames never changes who is sent a frame |
| RoomBroadcast.EnqueueTwice | app/durable-objects/ChatRoom/ChatRoom.ts:198 | queueing `a` and then `b` is queueing `a + b` |
| RoomBroadcast.NoFailureBroadcast | app/durable-objects/ChatRoom/ChatRoom.ts:184-200 | when no send throws, every named session is sent the frame, every unnamed one queues it, and nothing is removed |
| RoomBroadcast.QuitAllClosedForm | app/durable-objects/ChatRoom/ChatRoom.ts:202-206 | when no remaining session's send throws, each quit broadcast reaches every named session and is queued for every unnamed one, one per named quitter, in order |
| RoomBroadcast.BroadcastClosedForm | app/durable-objects/ChatRoom/ChatRoom.ts:184-207 | failed sessions are gone; unnamed survivors queue the frame then one `{quit}` per failed session; named survivors are sent the frame, then each quit notice, in table order |
| RoomBroadcast.LiveDistinct | app/durable-objects/ChatRoom/ChatRoom.ts:195 | deleting sessions keeps the sockets of the table distinct |
| RoomSpec.Restore | app/durable-objects/ChatRoom/ChatRoom.ts:16-43 | the restored room starts at watermark 0 with the given storage; its table and its closes are stated by `RestoreTable`, `RestoreKeepsValid` and `RestoreCloses` |
| RoomSpec.Fresh | app/durable-objects/ChatRoom/ChatRoom.ts:34-37 | a new session has the given limiter id, an empty queue, no name and is not marked `quit` |
| RoomSpec.RestoreOne | app/durable-objects/ChatRoom/ChatRoom.ts:28-41 | one restored socket never changes the watermark or storage |
| RoomSpec.RestoreTable | app/durable-objects/ChatRoom/ChatRoom.ts:34-37 | the restored table has distinct sockets; every entry belongs to a socket handed back with a valid attachment and is the empty, unnamed session built from that attachment's `limiterId` |
| RoomSpec.RestoreKeepsValid | app/durable-objects/ChatRoom/ChatRoom.ts:29-37 | every socket with a valid attachment is in the restored table; when the sockets handed back are distinct, each socket with a valid attachment maps to the fresh session of its own attachment's `limiterId` and each socket with an invalid one is absent |
| RoomSpec.LookupRestored | app/durable-objects/ChatRoom/ChatRoom.ts:29-37 | with distinct sockets, a table built only from valid attachments that holds every valid socket maps each socket exactly to its attachment's session or to nothing |
| RoomSpec.KeptByRestoreOne | app/durable-objects/ChatRoom/ChatRoom.ts:34-37 | a socket already in the table stays there through one more restored socket |
| RoomSpec.RestoreCloses | app/durable-objects/ChatRoom/ChatRoom.ts:38-41 | the restore only closes sockets, with 1011 "Failed to restore session"; it closes every socket whose attachment is invalid; every close names such a socket; when the sockets are distinct, no socket with a valid attachment is closed |
| RoomSpec.ClosesNameInvalid | app/durable-objects/ChatRoom/ChatRoom.ts:38-41 | every close of the restore names a socket whose attachment is invalid |
| RoomSpec.ValidNotClosed | app/durable-objects/ChatRoom/ChatRoom.ts:38-41 | with distinct sockets, closes that name only invalid sockets never name a valid one |
| RoomSpec.JoinedNotices | app/durable-objects/ChatRoom/ChatRoom.ts:91-96 | only `{joined}` notices, each naming a session of the table, and every named session's name among them; `JoinedNoticesAppend` and `JoinedNoticesOne` fix the count and order |
| RoomSpec.JoinedNoticesAppend | app/durable-objects/ChatRoom/ChatRoom.ts:91-96 | the notices of two tables joined are the notices of the first, then those of the second, so they follow table order |
| RoomSpec.JoinedNoticesOne | app/durable-objects/ChatRoom/ChatRoom.ts:91-96 | one entry gives exactly one notice, with its name, when its session is named, and none otherwise |
| RoomSpec.Admit | app/durable-objects/ChatRoom/ChatRoom.ts:77-108 | the new session is unnamed and not quit, with the given limiter id; a new socket's queue is the joined notices then the backlog; the queue ends with the backlog; other entries keep their place; sockets stay distinct; nothing is sent |
| RoomSpec.Decode | app/durable-objects/ChatRoom/ChatRoom.ts:112 | unparseable text throws its syntax message; valid JSON passes exactly when `chatMessageSchema` accepts it, else throws "Validation failed" |
| RoomSpec.ChosenName | app/durable-objects/ChatRoom/ChatRoom.ts:117 | `String(name \|\| "anonymous")`: the name given if non-empty, else "anonymous"; never empty |
| RoomSpec.Flush | app/durable-objects/ChatRoom/ChatRoom.ts:131-136 | one send to the socket per held frame, in order |
| RoomSpec.HandleMessage | app/durable-objects/ChatRoom/ChatRoom.ts:111-164 | the watermark never goes back; the log only grows; storage changes only by adding the new watermark's key, and that key is above the old watermark and not before `now` |
| RoomSpec.Join | app/durable-objects/ChatRoom/ChatRoom.ts:117-140 | a first frame that names the session leaves the watermark and storage alone and never grows the table; the log gains the flush of the queued frames to the sender and ends with `{ready}` to the sender |
| RoomSpec.Post | app/durable-objects/ChatRoom/ChatRoom.ts:148-163 | a chat message gets a timestamp above the old watermark and not before `now`; it is stored under that timestamp unless the write is rejected, and then storage is unchanged; the rejection message is thrown exactly when the write fails; the log only grows |
| RoomSpec.OnMessage | app/durable-objects/ChatRoom/ChatRoom.ts:166-182 | an unknown socket changes nothing; a `quit` session is closed with 1011; the watermark, log and storage obey the same bounds as `HandleMessage` |
| RoomProperties.SentToDeliveries | app/durable-objects/ChatRoom/ChatRoom.ts:189-191 | in a failure-free fan-out, a named socket in the table receives the frame exactly once; others receive nothing |
| RoomProperties.ChatAccepted | app/durable-objects/ChatRoom/ChatRoom.ts:144-163 | an accepted chat gets timestamp `max(now, last+1)`, which is above the old watermark, not before `now`, and becomes the watermark; exactly that frame is broadcast (closed form); it is stored under that key unless the put fails, in which case the sender gets the error after the broadcast |
| RoomProperties.PostClosedForm | app/durable-objects/ChatRoom/ChatRoom.ts:148-163 | the chat path in closed form, with the thrown message for a rejected put |
| RoomProperties.FirstFrame | app/durable-objects/ChatRoom/ChatRoom.ts:114-140 | the first valid frame names the session (1 to 32 characters), empties its queue, flushes the queue to it, broadcasts `{joined}` and then sends `{ready}` |
| RoomProperties.FirstFrameSenderView | app/durable-objects/ChatRoom/ChatRoom.ts:130-140 | with no failing peer, the sender receives exactly its held frames, its own `{joined}`, then `{ready}`, in that order |
| RoomProperties.LongNameRejected | app/durable-objects/ChatRoom/ChatRoom.ts:116 | a first frame with a name over 32 characters yields only one "Validation failed" error to the sender: no name, no close, no broadcast |
| RoomProperties.MessageRequired | app/durable-objects/ChatRoom/ChatRoom.ts:143-146 | a named session's frame without a non-empty message yields only one "Message is required" error |
| RoomProperties.InvalidFrameRejected | app/durable-objects/ChatRoom/ChatRoom.ts:175-181 | a frame that is not JSON or fails the schema yields only one error with the thrown message |
| RoomProperties.OverlongMessageRejected | app/durable-objects/ChatRoom/schemas.ts:5 | a message over 256 characters yields only one "Validation failed" error, whatever the session's state |
| RoomRun.RestoreInv | app/durable-objects/ChatRoom/ChatRoom.ts:26-43 | a restored room satisfies the table invariant and has only restore closes |
| RoomRun.AdmitInv | app/durable-objects/ChatRoom/ChatRoom.ts:77-108 | admission keeps the invariant and sends nothing |
| RoomRun.BroadcastInv | app/durable-objects/ChatRoom/ChatRoom.ts:184-207 | a broadcast keeps the invariant and only appends sends |
| RoomRun.FirstFrameInv | app/durable-objects/ChatRoom/ChatRoom.ts:114-140 | naming a session keeps the invariant and only appends sends |
| RoomRun.ChatInv | app/durable-objects/ChatRoom/ChatRoom.ts:148-163 | a chat keeps the invariant and only appends sends |
| RoomRun.OnMessageInv | app/durable-objects/ChatRoom/ChatRoom.ts:166-182 | any frame keeps the invariant (no `quit` in the table, names of 1 to 32 characters, distinct sockets) and under it only appends sends |
| RoomRun.RunInv | app/durable-objects/ChatRoom/ChatRoom.ts:166-182 | over any events from a restore the invariant holds, so the 1011 "WebSocket broken." and 1009 closes never happen |
| RoomRun.RunMonotone | app/durable-objects/ChatRoom/ChatRoom.ts:148-163 | over any events the log only grows, the watermark never goes back, stored keys are kept, and every new key lies above the first watermark and at most the last |
| RoomRun.NoOverwrite | app/durable-objects/ChatRoom/ChatRoom.ts:160-163 | while every stored key is at most the watermark or before `now`, no stored entry is overwritten, and this keeps holding |
| ChatRoom.ChatRoom.constructor | app/durable-objects/ChatRoom/ChatRoom.ts:16-43 | the fields are the restored room of `RoomSpec.Restore` |
| ChatRoom.ChatRoom.HandleSession | app/durable-objects/ChatRoom/ChatRoom.ts:77-109 | the new state is `RoomSpec.Admit` of the old |
| ChatRoom.ChatRoom.Broadcast | app/durable-objects/ChatRoom/ChatRoom.ts:184-207 | the new state is `RoomBroadcast.Broadcast` of the old; the table never grows (the recursion terminates) |
| ChatRoom.ChatRoom.Deliver | app/durable-objects/ChatRoom/ChatRoom.ts:188-200 | the loop over the table gives the table, sends and quitters of `RoomBroadcast.Pass` |
| ChatRoom.ChatRoom.Visit | app/durable-objects/ChatRoom/ChatRoom.ts:189-199 | one iteration: send, or mark and delete, or queue |
| ChatRoom.ChatRoom.HandleMessage | app/durable-objects/ChatRoom/ChatRoom.ts:111-164 | the new state and the thrown message are those of `RoomSpec.HandleMessage` |
| ChatRoom.ChatRoom.Join | app/durable-objects/ChatRoom/ChatRoom.ts:117-140 | naming, flushing and announcing give `RoomSpec.Join` |
| ChatRoom.ChatRoom.Post | app/durable-objects/ChatRoom/ChatRoom.ts:148-163 | stamping, broadcasting and storing give `RoomSpec.Post` |
| ChatRoom.ChatRoom.WebSocketMessage | app/durable-objects/ChatRoom/ChatRoom.ts:166-182 | the new state is `RoomSpec.OnMessage` of the old |
| ChatRoom.QueueJoined | app/durable-objects/ChatRoom/ChatRoom.ts:91-96 | the loop collects `JoinedNotices` of the table |
| ChatRoom.QueueAll | app/durable-objects/ChatRoom/ChatRoom.ts:104-108 | the loop appends the whole backlog in order |
| ChatRoom.SendAll | app/durable-objects/ChatRoom/ChatRoom.ts:131-136 | the loop sends `Flush` of the queue |
| RateLimiter.Advance | app/durable-objects/RateLimiter/RateLimiter.ts:14-18 | a non-POST clamps the counter up to `now`; a POST sets it to `max(now, prev) + 5` |
| RateLimiter.Cooldown | app/durable-objects/RateLimiter/RateLimiter.ts:20 | the answer is never negative, and is 0 or `next - now - 20` |
| RateLimiter.RateLimiter.constructor | app/durable-objects/RateLimiter/RateLimiter.ts:7-9 | the counter starts at 0 |
| RateLimiter.RateLimiter.Fetch | app/durable-objects/RateLimiter/RateLimiter.ts:11-23 | the counter becomes `Advance` of the old, at least `now` and at least its old value; the answer is `Cooldown`, never negative |
| RateLimiter.CounterMonotone | app/durable-objects/RateLimiter/RateLimiter.ts:14-20 | over any requests the counter never goes back, ends at or after the last request's time, and every answer is non-negative |
| RateLimiter.BurstFromFresh | app/durable-objects/RateLimiter/RateLimiter.ts:14-20 | from a fresh limiter, `k` POSTs at one instant leave `now + 5k`, and the `i`-th is answered `max(0, 5i - 20)`; the first POST is answered 0 |
| RateLimiter.BurstFrom | app/durable-objects/RateLimiter/RateLimiter.ts:14-20 | the same after `j` earlier POSTs at that instant |
| RateLimiter.FifthPostFirstToWait | app/durable-objects/RateLimiter/RateLimiter.ts:14-20 | five POSTs at one instant are answered 0, 0, 0, 0, 5 |
| RateLimiter.PathIgnored | app/durable-objects/RateLimiter/RateLimiter.ts:11-22 | requests that differ only in their paths get the same counter and answers |
| RateLimiterClient.Initial | app/durable-objects/RateLimiter/client.ts:10-15 | a new client holds one stub, is not in cooldown, and is valid |
| RateLimiterClient.Step | app/durable-objects/RateLimiter/client.ts:17-48 | validity is kept; `checkLimit` says no exactly in cooldown and then changes nothing, else sets the flag and starts one fetch; a new stub is taken only when the first attempt throws; a read body starts a sleep of exactly the cooldown it names; the timer firing during that sleep always clears the flag and ends the call, and nothing else clears it; an error is reported only when a call fails and the flag stays set; a failed call is final |
| RateLimiterClient.Run | app/durable-objects/RateLimiter/client.ts:17-48 | a run makes one output per event, and validity holds after any run from a valid state |
| RateLimiterClient.ReportedMessage | app/durable-objects/RateLimiter/client.ts:46 | the message of the `Error` passed to `reportError`: a thrown `Error` itself, anything else converted with `String` |
| RateLimiterClient.RunAccounting | app/durable-objects/RateLimiter/client.ts:26-47 | over any events, validity holds, each call makes at most two fetch attempts, and each reports at most one error |
| RateLimiterClient.FailureIsPermanent | app/durable-objects/RateLimiter/client.ts:45-47 | after a failure the state never changes, nothing is reported or fetched, and every check says no |
| RateLimiterClient.RateLimiterClient.constructor | app/durable-objects/RateLimiter/client.ts:10-15 | the state is `Initial` and nothing is reported |
| RateLimiterClient.RateLimiterClient.CheckLimit | app/durable-objects/RateLimiter/client.ts:17-24 | the state and answer are those of `Step` on a check |
| RateLimiterClient.RateLimiterClient.OnFetchThrew | app/durable-objects/RateLimiter/client.ts:34-47 | `Step` on a thrown fetch: retry once with a new stub, then report |
| RateLimiterClient.RateLimiterClient.OnAnswered | app/durable-objects/RateLimiter/client.ts:42-47 | `Step` on a read body: start the sleep, or report a failed read |
| RateLimiterClient.RateLimiterClient.OnTimerFired | app/durable-objects/RateLimiter/client.ts:43-44 | `Step` on the timer: the cooldown is released |
| ChatStore.SliceFrom | app/stores/chatStore.ts:69 | `slice(start)`: a negative start counts back from the end, and either kind is clamped |
| ChatStore.MessagesBy | app/stores/chatStore.ts:88 | `filter`: keeps exactly the messages of that sender |
| ChatStore.MessagesByAppend | app/stores/chatStore.ts:88 | filtering distributes over concatenation, so the order is kept |
| ChatStore.MessagesByOne | app/stores/chatStore.ts:88 | a single message is kept exactly when its sender matches |
| ChatStore.ChatStore.constructor | app/stores/chatStore.ts:36-47 | the store starts in the initial state |
| ChatStore.ChatStore.GetRecentMessages | app/stores/chatStore.ts:67-70 | for `0 < c <= len` the last `c` messages in order; everything for `c = 0` or `c >= len`; a negative count drops that many from the front |
| ChatStore.ChatStore.IsInitial | app/stores/chatStore.ts:36-42 | no messages, no users, not connected, no username and no room id |
| ChatStore.ChatStore.GetUserCount | app/stores/chatStore.ts:102-105 | `users.size`: 0 exactly when nobody is online; `AddUser` and `RemoveUser` state how the set changes |
| ChatStore.ChatStore.IsUserOnline | app/stores/chatStore.ts:123-126 | a user who is online makes the count at least 1; `AddUser` makes the user online and `RemoveUser` offline |
| ChatStore.ChatStore.GetConnectionStatus | app/stores/chatStore.ts:147-154 | the current connection flag, username and room id; in the initial state disconnected with neither |
| ChatStore.ChatStore.GetMessagesByUser | app/stores/chatStore.ts:86-89 | exactly the messages of that sender |
| ChatStore.ChatStore.SetMessages | app/stores/chatStore.ts:157 | replaces the messages and nothing else |
| ChatStore.ChatStore.AddMessage | app/stores/chatStore.ts:158-161 | appends at the end; every sender filter gains it exactly when it is that sender's; it is the most recent message; nothing else changes |
| ChatStore.ChatStore.SetUsers | app/stores/chatStore.ts:162 | replaces the users and nothing else |
| ChatStore.ChatStore.AddUser | app/stores/chatStore.ts:163-166 | users become `users ∪ {u}`; the user is online; the count grows only for a new user; adding a present user changes nothing |
| ChatStore.ChatStore.RemoveUser | app/stores/chatStore.ts:167-172 | users become `users \ {u}`; the user is offline; the count drops only for a present user; removing an absent user changes nothing |
| ChatStore.ChatStore.SetConnected | app/stores/chatStore.ts:173 | sets `connected`, which the connection status then reports, and nothing else |
| ChatStore.ChatStore.SetUsername | app/stores/chatStore.ts:174 | sets `username`, which the connection status then reports, and nothing else |
| ChatStore.ChatStore.SetRoomId | app/stores/chatStore.ts:175 | sets `roomId`, which the connection status then reports, and nothing else |
| ChatStore.ChatStore.Reset | app/stores/chatStore.ts:176 | back to the initial state: no messages, no users, disconnected, no username or room |
| ClientSchemas.ParseString | app/schemas/chat.ts:44 | `z.string()` accepts exactly a string, and yields it |
| ClientSchemas.ParseUsername | app/schemas/chat.ts:4-8 | accepts exactly 1 to 32 characters from `[A-Za-z0-9_-]`, and reports at least one issue otherwise |
| ClientSchemas.SkipBlanks | app/schemas/chat.ts:14 | the index where the leading whitespace ends: everything before it (from the start index) is whitespace and the character at it is not |
| ClientSchemas.SkipTrailingBlanks | app/schemas/chat.ts:14 | the index where the trailing whitespace starts: everything from it to the end is whitespace and the character before it is not |
| ClientSchemas.Trim | app/schemas/chat.ts:14 | `msg.trim()` yields a contiguous piece of the input; everything cut before and after it is whitespace; the result neither starts nor ends with whitespace |
| ClientSchemas.ParseMessageContent | app/schemas/chat.ts:10-14 | accepts exactly a string of 1 to 256 characters, measured before trimming, and yields it trimmed |
| ClientSchemas.BlankMessageBecomesEmpty | app/schemas/chat.ts:10-14 | a message of only whitespace is accepted and yields `""` |
| ClientSchemas.ParsePositiveInteger | app/schemas/chat.ts:26 | accepts exactly a positive integral number |
| ClientSchemas.ParseTimestamp | app/schemas/chat.ts:16-20 | an absent timestamp defaults to `now`, which is itself validated; a present one must be a positive integer |
| ClientSchemas.ParseChatMessage | app/schemas/chat.ts:23-27 | accepts exactly an object with a valid username, valid content and a positive integer timestamp; yields the name, the trimmed message and the timestamp |
| ClientSchemas.ParseServerMessage | app/schemas/chat.ts:52-59 | a non-object is rejected as such; an object whose `type` is absent, not a string or not one of the six variant names is rejected with a bad-discriminator issue; an accepted frame has one of those types, join and quit frames carry valid usernames, `ready` is literally `true` and any other `ready` value, an absent one included, is an invalid-literal issue, chats carry a valid username and a timestamp of at least 1, system frames a timestamp of at least 1 |
| ClientSchemas.PresenceFrames | app/schemas/chat.ts:35-41 | a join or quit frame is accepted exactly when its member is a valid username, and yields it |
| ClientSchemas.ChatFrames | app/schemas/chat.ts:23-53 | a `chat` frame is accepted exactly when the client `chatMessageSchema` accepts the same object, and yields that message |
| ClientSchemas.ErrorFrames | app/schemas/chat.ts:44-57 | an `error` frame is accepted exactly when `error` is a string, and yields it |
| ClientSchemas.ReadyFrames | app/schemas/chat.ts:48-58 | a `ready` frame is accepted exactly when `ready` is the literal `true`; otherwise the only issue is an invalid literal |
| ClientSchemas.SystemTimestampDefault | app/schemas/chat.ts:29-33 | a system frame without a timestamp is stamped with `now`; a supplied one is accepted exactly when it is a positive integer |
| ClientSchemas.RoomFramesRejected | app/schemas/chat.ts:52-59 | no frame the room sends carries `type`, so the browser's schema rejects every one of them |
| ClientSchemas.PublicRoomIssuesEmpty | app/schemas/chat.ts:64-67 | the public-name checks pass exactly for 1 to 32 characters from `[A-Za-z0-9_-]` |
| ClientSchemas.ParseRoomId | app/schemas/chat.ts:62-70 | accepts exactly a public room name or 64 lower-case hex digits, and yields it; a rejected string gets the public branch's issues (never empty), and anything else a union mismatch |
| ClientSchemas.UpperCaseRoomIdRejected | app/schemas/chat.ts:69 | a 64-character id with an upper-case or non-hex character is rejected |
| RelativeTime.Decimal | app/utils/format.ts:85 | the rendering of a number is non-empty decimal digits, with no leading zero |
| RelativeTime.DecimalRoundTrip | app/utils/format.ts:85 | the digits read back as the number |
| RelativeTime.NestedFloorDivision | app/utils/format.ts:79-82 | the nested floor divisions equal division by the length of a minute, hour and day |
| RelativeTime.FormatRelativeTime | app/utils/format.ts:75-90 | "just now" under 30 s, the future included; the whole seconds between 30 s and a minute; from a week on, the date formatter |
| RelativeTime.FormatRelativeTimeUnits | app/utils/format.ts:79-88 | from a minute up to a week: the whole minutes, hours or days elapsed, in the coarsest unit whose count is still at least one, with the singular word exactly for a count of 1 |
| RelativeTime.Buckets | app/utils/format.ts:79-88 | the bucket tests on the divided counts are the same as thresholds of 30 s, 1 min, 1 h, 1 day and 1 week on the elapsed time, and each unit's count is at least 1 past its threshold |

## Left out

- Transport and platform plumbing are I/O and are not modelled: `ChatRoom.fetch` routing, `acceptWebSocket`, `WebSocketPair`, and attachment writes with `serializeAttachment`. The name written into an attachment is therefore not modelled. The restore ignores it anyway.
- Sends to the frame's own sender never fail in the model: the queue flush, `{ready}` and `{error}`. Only sends inside `broadcast` are governed by `broken`. In the source a throwing direct send would escape to the platform.
- Concurrency is not modelled. `await this.storage.put` and the detached `callLimiter` are modelled one event at a time, so no interleaving is explored.
- `storage.list` and `storage.put` are a map. Keys are integer timestamps, not `new Date(ts).toISOString()` strings, whose order is assumed to match.
- RoomSpec.HandleMessage: a rejected `storage.put` is a parameter `fault`, and what the platform does with the rejection beyond the `{error}` frame is not modelled.
- The `limiter` field of `SessionData` is left out, because the room never creates a rate-limiter client.
- String lengths count characters, not UTF-16 code units.
- JSON numbers are exact rationals: IEEE behaviour, `Number(text)` parsing and `Date.now()/1000` rounding are not modelled.
- zod's issue texts are kept only where the schema spells them out; the other issues are kinds (`Required`, `WrongType`, `WrongLiteral` and so on) without zod's generated messages or paths. The room reduces every rejection to "Validation failed".
- RestoreKeepsValid and RestoreCloses: the exact lookup and the "no valid socket is closed" clauses are stated for distinct sockets. `getWebSockets` hands back each socket once; a list that repeats a socket is covered only by the other clauses.
- RoomSpec.RestoreOne: the `console.error` logging before a socket is closed with 1011 (app/durable-objects/ChatRoom/ChatRoom.ts:39) is output only and is not modelled.
- RelativeTime.FormatRelativeTime: `formatTime` and locales are an abstract function parameter, and the timestamp is an integer number of milliseconds, not an arbitrary JavaScript number.
- RateLimiterClient.Step: `getLimiterStub` and `reportError` are never assumed to throw, and the `Response` object is reduced to its read body.
- The zustand wiring (`create`, `devtools`) and the React hooks built on the store are not modelled.
- Sessions are values in a table, not shared objects. The quitters list holds copies, so aliasing between the list and the table is not modelled. The source never reads a deleted session except for its name.
