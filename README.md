# htmx-go-chat broker, modelled in Dafny

This project models the message broker of htmx-go-chat, a small Go chat
server. Browsers receive chat as server-sent events. The repository holds
three generations of the same design, and each is a module of its own:

- `AppBroker` (`app/broker.go`), the richest variant. It covers:
  - one loop that owns the client registry and a message history capped at
    1000 entries;
  - joins, leaves and broadcasts, handled one at a time;
  - the replay of the newest 50 stored messages to a client that joins;
  - the per-message choice of event type and data on each stream.
- `LegacyBroker` (`broker.go`), the earliest variant: the same registry and
  fan-out, with no history and a `chat`/`server` event choice.
- `AppChat` (`app/chat.go`) and `AppRoutes` (`app/routes.go`), the latest
  variant. The broker there is a library. The application supplies:
  - connect and disconnect hooks;
  - a message adapter;
  - a `/chat` handler that trims each message and keeps the capped store;
  - the `/login` name checks;
  - the `/users` HTML list.

Shared modules hold what the variants have in common:
- `Text`: Go's `%d` formatting, newline stripping and `strings.TrimSpace`.
- `EventStream`: the `event:`/`data:` frame and a reader for it. The frame
  follows the event-stream format of the HTML Living Standard, section 9.2
  "Server-sent events".
- `Wording`: the join, leave and "users online" texts.
- `History`: the capped FIFO store.
- `Outboxes`: delivery to every registered client.

Modelling choices:
- Channels are unbounded FIFO sequences. The `Broadcast` queue is a `seq`
  field. Each client's channel is its outbox, a `seq` stored under its
  username in a `map`.
- Each `select` case of a loop is one method on a class that holds this
  state.
- The HTML template renderer is an uninterpreted function parameter
  (`render`). The wall-clock time is a string parameter (`clock`).
- A ghost field (`stored`, or `posted` in `AppRoutes`) keeps every message
  ever stored. The class invariant `Valid` says that the store is exactly the
  newest 1000 of them.
- `app/broker.go` may replay history to a username that is not registered.
  In Go this is a send on a nil channel, which never completes, so the loop
  stops handling events. The model records this in the field `stalled`. The
  loop's join, leave and broadcast handlers all require `!stalled`.
  Registration runs in the stream handler, not in the loop, so it does not.

## Model

| member | source | states |
|---|---|---|
| Text.Decimal | app/broker.go:159 | `%d` of a natural number is a non-empty run of decimal digits with no leading zero |
| Text.ParseDecimalOfDecimal | app/broker.go:159 | reading the digits back gives the number that was formatted |
| Text.RemoveNewlines | app/broker.go:127 | `strings.Replace(s, "\n", "", -1)` leaves no line feed and never lengthens the text |
| Text.RemoveNewlinesKeepsOthers | app/broker.go:127 | every character other than a line feed is kept, with its multiplicity |
| Text.RemoveNewlinesKeeps | app/broker.go:127 | a character other than a line feed, such as a carriage return, is in the result exactly when it was in the input |
| Text.RemoveNewlinesAppend | app/broker.go:127 | removal works piece by piece, so the remaining characters keep their order |
| Text.RemoveNewlinesNoop | app/broker.go:127 | a text without line feeds is returned unchanged |
| Text.RemoveNewlinesIdempotent | app/broker.go:127 | stripping twice is the same as stripping once |
| Text.TrimLeft | app/routes.go:90 | the result is a suffix of the input, every dropped character is white space, and it does not start with white space |
| Text.TrimRight | app/routes.go:90 | the result is a prefix of the input, every dropped character is white space, and it does not end with white space |
| Text.TrimSpace | app/routes.go:90 | `strings.TrimSpace` returns a slice `s[a..b]` of its input with only white space before `a` and after `b`; a non-empty result starts and ends with a non-space |
| Text.TrimSpaceEmpty | app/routes.go:90-94 | trimming gives the empty string exactly when the whole message is white space |
| Text.TrimSpaceIdempotent | app/routes.go:90 | a trimmed message is already trimmed |
| EventStream.Write | app/broker.go:55-58 | `SSE.Write` emits `event: E`, a line feed, `data: D` and a blank line: 16 characters beyond the event and data |
| EventStream.Parse | app/broker.go:55-58 | a reader of one frame ends lines at a carriage return or a line feed, as the event-stream format does; it accepts only the shape `Write` emits, and what it accepts has fields with no line break |
| EventStream.ParseWrite | app/broker.go:55-58 | a frame whose event and data hold no line break reads back as exactly that event |
| EventStream.WriteParse | app/broker.go:55-58 | every frame the reader accepts is exactly the frame written for what it read |
| EventStream.CarriageReturnSplitsData | app/broker.go:55-58 | data holding a carriage return never reads back as the event that was written |
| Wording.UsersOnlineText | app/broker.go:159 | `There are %d users online` contains no line break |
| Wording.ReadUsersOnlineText | app/broker.go:157-161 | the count message carries exactly the count it was built from |
| Wording.JoinedText | app/broker.go:153 | `User '%s' has joined the chat 💬`: the username sits after the six-character opening, and the text ends with the speech-bubble emoji |
| Wording.LeftText | app/broker.go:181 | `User '%s' has left the chat 👋`: the username sits after the same opening, and the text ends with the waving-hand emoji |
| Wording.NoticeTextsDistinct | app/broker.go:151-155 | each notice names exactly one user, and a join notice is never a leave notice |
| Wording.NoticesHaveNoLineBreak | app/broker.go:151-155 | join and leave notices for a username with no line break contain no line break |
| History.Newest | app/broker.go:164-169 | the replay holds `min(len(msgStore), 50)` entries |
| History.NewestIsSlice | app/broker.go:164-169 | the replay is the slice `msgStore[max(len - 50, 0):]`: the newest entries, oldest first |
| History.Push | app/broker.go:194-198 | a store append keeps the length within the cap, is a plain append below the cap, and always ends with the new message |
| History.PushNewest | app/broker.go:194-198 | a store append on the newest 1000 messages gives the newest 1000 of the longer history |
| History.StoreAll | app/broker.go:194-198 | after any sequence of store appends the length is at most the cap |
| History.StoreAllIsNewest | app/broker.go:194-198 | after any number of stores the history is exactly the last 1000 stored messages, in order |
| History.NewestOfNewest | app/broker.go:164-169 | replaying 50 from a store capped at 1000 loses nothing to the cap |
| History.EvictionExample | app/broker.go:196-197 | after 1005 stores the history runs from the sixth message to the last |
| History.ReplayExample | app/broker.go:164-169 | with 80 stored messages a joiner is replayed the last 50, oldest first |
| Outboxes.Deliver | app/broker.go:203-205 | fan-out keeps the set of registered usernames and appends the message once to every outbox |
| Outboxes.DeliverAll | app/broker.go:203-205 | fanning out several messages keeps the set of registered usernames |
| Outboxes.DeliverAllInOrder | app/broker.go:203-205 | a client registered throughout receives every broadcast message once, in broadcast order |
| Outboxes.FanOut | app/broker.go:203-205 | the loop over the registry, in any visiting order, gives the same outboxes as `Deliver` |
| Outboxes.SendEach | app/broker.go:169-171 | sending the replay one message at a time appends it, in order, to the outbox |
| AppBroker.JoinNotices | app/broker.go:151-161 | a join queues a non-system notice from the server user saying that the user joined, then an unstored system message with empty username whose text is exactly `There are %d users online` for the client count |
| AppBroker.LeaveNotices | app/broker.go:179-189 | a leave queues a non-system notice from the server user saying that the user left, then an unstored system message with empty username whose text is exactly `There are %d users online` for the count |
| AppBroker.StreamEvent | app/broker.go:108-133 | a system message is event `system` with its raw text; otherwise the event is `chat`, with data `user says text` in plain mode and otherwise the rendered HTML with its line feeds removed, so it has none |
| AppBroker.StreamEventReadsBack | app/broker.go:108-136 | the frame written for a message reads back as its event: in HTML mode when the rendered HTML holds no carriage return, otherwise when the text sent holds no line break |
| AppBroker.CountEvents | app/broker.go:157-161 | both count messages, on join and on leave, are `system` events whose data reads back as the count and whose frames read back intact |
| AppBroker.NoticesAreServerChat | app/broker.go:119 | join and leave notices are both marked as server messages and both sent as `chat` events |
| AppBroker.ChatBroker.constructor | app/broker.go:61-75 | a new broker has an empty queue, registry and history |
| AppBroker.ChatBroker.UserExists | app/broker.go:211-214 | a username exists exactly when a leave of it would shrink the registry by one; `Register` makes it true, `HandleLeave` makes it false, and `GetUsers` lists exactly the names for which it holds |
| AppBroker.ChatBroker.Register | app/broker.go:86-87 | registration stores a fresh empty outbox under the username, overwriting any earlier one, leaves every other entry unchanged and adds at most one key |
| AppBroker.ChatBroker.HandleJoin | app/broker.go:148-171 | a join queues the two notices with the registry's size; a registered joiner's outbox alone receives the newest `min(len, 50)` stored messages, oldest first; the history is unchanged; an unregistered joiner with a non-empty history stalls the loop |
| AppBroker.ChatBroker.HandleLeave | app/broker.go:174-189 | only a loop that has not stalled handles a leave; it removes the username (no change when absent), then queues the leave notices with the post-delete count |
| AppBroker.ChatBroker.HandleBroadcast | app/broker.go:192-205 | a broadcast dequeues the oldest message, stores it if and only if it is marked `Store`, keeps the history at most 1000 and equal to the newest stored messages, and appends it once to every registered outbox |
| AppBroker.ChatBroker.GetUsers | app/broker.go:217-224 | every registered username is returned exactly once, and nothing else |
| LegacyBroker.JoinNotices | broker.go:121-131 | a join queues a non-server notice from the server user, then a server message with empty username whose text is exactly `There are %d users online` for the count |
| LegacyBroker.LeaveNotices | broker.go:139-149 | a leave queues the leave notice, then a server message under the username `Server` whose text is exactly `There are %d users online` for the count |
| LegacyBroker.StreamEvent | broker.go:80-106 | a server message is type `server` with its raw text; anything else is type `chat` with the rendered HTML minus its line feeds; `isSelf` compares the session's username with the sender |
| LegacyBroker.StreamEventReadsBack | broker.go:92-106 | a chat frame reads back as its event when the rendered HTML holds no carriage return, and a server frame does when its text holds no line break |
| LegacyBroker.CountEvents | broker.go:127-149 | both count messages are `server` events whose data reads back as the count and whose frames read back intact |
| LegacyBroker.ChatBroker.constructor | broker.go:38-50 | a new broker has an empty queue and registry |
| LegacyBroker.ChatBroker.UserExists | broker.go:162-165 | a username exists exactly when a leave of it would shrink the registry by one; `Register` makes it true and `HandleLeave` makes it false |
| LegacyBroker.ChatBroker.Register | broker.go:60-62 | registration overwrites the username's outbox with an empty one and adds at most one key |
| LegacyBroker.ChatBroker.HandleJoin | broker.go:118-131 | a join queues exactly the two notices with the registry's size, and replays nothing |
| LegacyBroker.ChatBroker.HandleLeave | broker.go:134-149 | a leave removes the username (no change when absent), then queues the two notices with the post-delete count |
| LegacyBroker.ChatBroker.HandleBroadcast | broker.go:152-156 | a broadcast dequeues the oldest message and appends it once to every registered outbox; nothing is stored |
| AppChat.JoinNotices | app/chat.go:32-43 | the connect hook's join notice from the server user, then a system message with empty username whose text is exactly `There are %d users online` for the count |
| AppChat.LeaveNotices | app/chat.go:53-64 | the disconnect hook's leave notice, then a system message with empty username whose text is exactly `There are %d users online` for the count |
| AppChat.SendsTo | app/chat.go:45-49 | one `SendToClient` call per fetched message, in fetch order, each addressed to the joining client only |
| AppChat.MessageAdapter | app/chat.go:68-92 | a system message is event `system` with its raw text; anything else is event `chat` whose data is the rendered HTML (with `isSelf` and `isServer` set as at lines 79-80) with every line feed removed, so it contains none |
| AppChat.MessageAdapterReadsBack | app/chat.go:68-92 | assuming the library writes the same frame as `SSE.Write`, the adapted event frames and reads back intact: a chat event when the rendered HTML holds no carriage return, a system event when its text holds no line break |
| AppChat.NoticeEvents | app/chat.go:32-64 | join and leave notices are both shown as server messages on `chat` events, and both counts arrive as `system` events whose data reads back as the count (and, assuming the library writes the same frame as `SSE.Write`, whose frames read back intact) |
| AppChat.SseBroker.constructor | app/chat.go:29 | a new broker has nothing queued and nothing sent |
| AppChat.SseBroker.ClientConnected | app/chat.go:32-50 | the connect hook queues the join notice and the count, then sends every fetched message to the joiner only, in order |
| AppChat.SseBroker.ClientDisconnected | app/chat.go:53-65 | the disconnect hook queues the leave notice and the count, and sends nothing directly |
| AppRoutes.ChatRoutes.constructor | app/server.go:36 | the shared store starts empty, with nothing queued |
| AppRoutes.ChatRoutes.PostChat | app/routes.go:85-113 | a message that is all white space gives 400 and changes nothing; otherwise the trimmed, non-empty message is queued once and appended to the store, which stays at most 1000 long and equal to the newest 1000 accepted messages |
| AppRoutes.Login | app/routes.go:37-70 | an empty name is refused first; then a name held by any active user; then a session save failure; otherwise the user is logged in under that name. The view shows "Username can not be empty." for an empty name, "That name is already taken, please pick another name." for a taken one, otherwise the save error's text, or no error at all exactly when the save succeeds |
| AppRoutes.UsersList | app/routes.go:162-165 | the list has at least nine characters of markup per user |
| AppRoutes.UsersListAppend | app/routes.go:162-165 | the list of two groups of users is the first group's list followed by the second's |
| AppRoutes.UsersListItem | app/routes.go:162-165 | each user appears as its own `<li>` item, between the items of the users before and after it |
| AppRoutes.UsersListEmpty | app/routes.go:158-167 | the list is empty exactly when there are no users |
| AppRoutes.UsersHtml | app/routes.go:158-168 | the `/users` loop builds the concatenation of `<li>user</li>` over the users, in the given order |

## Left out

- Goroutines, blocking `select` and channel capacities (100 in `app/broker.go`, 10 in `broker.go`) are not modelled. Channels are unbounded queues, and each loop iteration is one method call. A full `Broadcast` buffer, which would block the loop on its own sends, therefore does not arise.
- A send to a client that is registered but not yet joined halts the `app/broker.go` loop for good. That client's handler is itself blocked sending on `newClients` (app/broker.go:90), which only the loop receives, so the fan-out send at app/broker.go:204 never completes. The same holds for a join replay to a name whose outbox a second, not yet joined connection has overwritten. The model shows such a delivery as a successful append to the outbox; only the nil-channel case is recorded as `stalled`.
- The unsynchronised write to the registry from each stream handler is a data race in Go. It is modelled as a separate `Register` step.
- The leave signal may be sent twice, once by the deferred send and once by the context-done goroutine. Only its effect is modelled: a leave for an absent username leaves the registry as it is.
- HTTP plumbing is not modelled: headers, `Flush`, echo routing, cookie sessions, and the index, logout, about and modal routes.
- Template rendering and `time.Now().Format` are parameters. A template error (ignored in the source) is not modelled.
- `app/database.go` is not part of this model. The connect hook takes the fetched messages as an input. `fetchMessages` sorts by `timestamp ASC` with a limit, so it returns the oldest rows rather than the newest its comment promises. The model delivers whatever it is given, in order.
- The `sse.Broker` library used by `app/chat.go` is not part of this model beyond its `Broadcast` queue and the `SendToClient` calls. Its frame writer is assumed, as the next line says. `GetClientCount` is an input of the hooks.
- AppChat.MessageAdapterReadsBack, AppChat.NoticeEvents: the library that writes the adapter's events to the stream is not part of this model. These lemmas assume that it writes the same `event: E`, `data: D`, blank-line frame as `SSE.Write` in `app/broker.go` (app/broker.go:55-58), and they frame the event with `EventStream.Write`. If the library writes another shape (extra fields, or data split over several `data:` lines), their read-back claims do not carry over. The adapter's event type and data, as stated by `AppChat.MessageAdapter`, do not depend on this assumption.
- `server.go`, `app/server.go` and `routes.go` are glue outside this model. `server.go` refers to broker fields that `broker.go` does not define.
- Logging (`log.Printf`) is not modelled.
- AppRoutes.ChatRoutes.PostChat: the source pushes to `Broadcast` before it appends to the store. Each method call is atomic in the model, so this order is not observable there.
- AppBroker.ChatBroker.HandleJoin: the notices are queued before the replay in the source. They go to a different channel from the replay, so the model's single post-state cannot show that order. What it does show is that the replay lands in the joiner's outbox directly, while the notices reach it only through a later broadcast, after the replay.
- AppBroker.StreamEvent: plain mode (a debugging aid) sends `user says text` without stripping newlines. A message holding a line break therefore does not frame as one data line. `StreamEventReadsBack` requires a line with no line break for that case.
- AppChat.MessageAdapter, AppBroker.StreamEvent, LegacyBroker.StreamEvent: the source strips only line feeds (`"\n"`) from the rendered HTML. The event-stream format also ends a line at a carriage return. A carriage return in the rendered HTML (from a template saved with CRLF line ends, or from posted text inserted as trusted HTML) therefore cuts the data line short, and the browser sees a truncated message. The read-back lemmas assume that the rendered HTML holds no carriage return, and `EventStream.CarriageReturnSplitsData` states what happens otherwise.
- AppRoutes.ChatRoutes.PostChat: concurrent `/chat` requests race on the shared `*msgStore` slice (append, then reslice). The model handles requests one at a time, so lost or duplicated appends are not captured.
- Go strings are byte sequences; the model's strings are sequences of Unicode scalar values. Form values that are not valid UTF-8 cannot be represented (Go's `TrimSpace` decodes such bytes as U+FFFD and keeps them). Lengths count characters: `Wording.JoinedText` adds 29 characters to the username where Go's `len` adds 32 bytes, and `Wording.LeftText` adds 27 where Go adds 30.
- AppRoutes.ChatRoutes.broadcast and AppChat.SseBroker.broadcast both stand for the one `sse.Broker`'s `Broadcast` channel (app/routes.go:102, app/chat.go:33-63). In the model they are two separate fields, so the interleaving of posted messages with connect and disconnect notices is not captured.
- Session values that are not strings are not modelled. `LegacyBroker.StreamEvent` takes the session's username as an optional string.
