/**
 * The richest broker variant (`app/broker.go`): a single loop that owns the
 * client registry and a capped message store, handles join, leave and
 * broadcast events one at a time, and a per-connection step that turns each
 * delivered message into one server-sent event.
 *
 * Channels are unbounded FIFO sequences: the `Broadcast` ingress queue is the
 * field `broadcast`, and each client's message channel is its outbox in
 * `clients`.
 */
module AppBroker {
  import opened Wrappers
  import opened Text
  import opened Wording
  import History
  import Outboxes
  import EventStream

  const MaxStoredMessages := 1000
  const MaxMsgsReloaded := 50

  /** A chat or system message; `store` asks the loop to keep it in the history. */
  datatype ChatMessage = ChatMessage(username: string, message: string, system: bool, store: bool)

  /** The fields handed to the `message` template. */
  datatype MessageView = MessageView(username: string, message: string, time: string, isSelf: bool, isServer: bool)

  /**
   * The two messages a join queues: the join notice naming the user, then the
   * count of registered clients. Neither sets `Store`, so neither is kept.
   */
  function JoinNotices(username: string, count: nat): (r: seq<ChatMessage>)
    ensures |r| == 2
    ensures !r[0].system && r[0].username == ServerUsername && r[0].message == JoinedText(username)
    ensures r[1].system && r[1].username == "" && ReadUsersOnline(r[1].message) == Some(count)
    ensures r[1].message == UsersOnlineText(count)
    ensures !r[0].store && !r[1].store
  {
    ReadUsersOnlineText(count);
    [ChatMessage(ServerUsername, JoinedText(username), false, false),
     ChatMessage("", UsersOnlineText(count), true, false)]
  }

  /** The two messages a leave queues: the leave notice naming the user, then the count of the clients that remain. */
  function LeaveNotices(username: string, count: nat): (r: seq<ChatMessage>)
    ensures |r| == 2
    ensures !r[0].system && r[0].username == ServerUsername && r[0].message == LeftText(username)
    ensures r[1].system && r[1].username == "" && ReadUsersOnline(r[1].message) == Some(count)
    ensures r[1].message == UsersOnlineText(count)
    ensures !r[0].store && !r[1].store
  {
    ReadUsersOnlineText(count);
    [ChatMessage(ServerUsername, LeftText(username), false, false),
     ChatMessage("", UsersOnlineText(count), true, false)]
  }

  /** What the template is told about `msg` when it is shown to `viewer` at `clock`. */
  function ViewOf(msg: ChatMessage, viewer: string, clock: string): MessageView {
    MessageView(msg.username, msg.message, clock, viewer == msg.username,
                msg.system || msg.username == ServerUsername)
  }

  /**
   * The event written for one message on `viewer`'s stream: a system message
   * is always event `system` carrying its raw text; anything else is event
   * `chat`, carrying `"<user> says <text>"` in plain mode and otherwise the
   * rendered HTML without its line feeds.
   */
  function StreamEvent(msg: ChatMessage, viewer: string, plain: bool,
                       render: MessageView -> string, clock: string): (e: EventStream.Sse)
    ensures e.event == (if msg.system then "system" else "chat")
    ensures msg.system ==> e.data == msg.message
    ensures !msg.system && plain ==> e.data == msg.username + " says " + msg.message
    ensures !msg.system && !plain ==> e.data == RemoveNewlines(render(ViewOf(msg, viewer, clock)))
    ensures !msg.system && !plain ==> '\n' !in e.data
  {
    var html := render(ViewOf(msg, viewer, clock));
    var data := if plain then msg.username + " says " + msg.message else RemoveNewlines(html);
    if msg.system then EventStream.Sse("system", msg.message) else EventStream.Sse("chat", data)
  }

  /**
   * The frame written for a message reads back as that event whenever the data
   * stays on one line: in HTML mode, when the rendered HTML holds no carriage
   * return (line feeds are stripped); for a system message or a plain-mode
   * line, when its text holds no line break.
   */
  lemma StreamEventReadsBack(msg: ChatMessage, viewer: string, plain: bool,
                             render: MessageView -> string, clock: string)
    requires msg.system ==> EventStream.NoLineBreak(msg.message)
    requires !msg.system && plain ==> EventStream.NoLineBreak(msg.username + " says " + msg.message)
    requires !msg.system && !plain ==> '\r' !in render(ViewOf(msg, viewer, clock))
    ensures var e := StreamEvent(msg, viewer, plain, render, clock);
            EventStream.Parse(EventStream.Write(e)) == Some(e)
  {
    if !msg.system && !plain {
      RemoveNewlinesKeeps(render(ViewOf(msg, viewer, clock)), '\r');
    }
    EventStream.ParseWrite(StreamEvent(msg, viewer, plain, render, clock));
  }

  /** Both count messages are `system` events whose data reads back as the count. */
  lemma CountEvents(username: string, count: nat, viewer: string, plain: bool,
                    render: MessageView -> string, clock: string)
    ensures var e := StreamEvent(JoinNotices(username, count)[1], viewer, plain, render, clock);
            e.event == "system" && ReadUsersOnline(e.data) == Some(count)
            && EventStream.Parse(EventStream.Write(e)) == Some(e)
    ensures var e := StreamEvent(LeaveNotices(username, count)[1], viewer, plain, render, clock);
            e.event == "system" && ReadUsersOnline(e.data) == Some(count)
            && EventStream.Parse(EventStream.Write(e)) == Some(e)
  {
    StreamEventReadsBack(JoinNotices(username, count)[1], viewer, plain, render, clock);
    StreamEventReadsBack(LeaveNotices(username, count)[1], viewer, plain, render, clock);
  }

  /** Join and leave notices are `chat` events that the template marks as coming from the server. */
  lemma NoticesAreServerChat(username: string, count: nat, viewer: string, plain: bool,
                             render: MessageView -> string, clock: string)
    ensures ViewOf(JoinNotices(username, count)[0], viewer, clock).isServer
    ensures ViewOf(LeaveNotices(username, count)[0], viewer, clock).isServer
    ensures StreamEvent(JoinNotices(username, count)[0], viewer, plain, render, clock).event == "chat"
    ensures StreamEvent(LeaveNotices(username, count)[0], viewer, plain, render, clock).event == "chat"
  {
  }

  class ChatBroker {
    /** The `Broadcast` ingress queue, oldest first. */
    var broadcast: seq<ChatMessage>
    /** The registry: each username's pending outbox. */
    var clients: map<string, seq<ChatMessage>>
    /** The capped history. */
    var msgStore: seq<ChatMessage>
    /**
     * Set once the loop has sent a replay to a username that is not
     * registered: a send on Go's nil channel never completes, so the loop
     * handles no further event.
     */
    var stalled: bool
    /** Every message ever stored, oldest first. */
    ghost var stored: seq<ChatMessage>

    /** The history is the newest 1000 stored messages, and only messages marked `store` are stored. */
    ghost predicate Valid()
      reads this
    {
      msgStore == History.Newest(stored, MaxStoredMessages)
      && forall i :: 0 <= i < |stored| ==> stored[i].store
    }

    /** `NewChatBroker`: empty queue, registry and history. */
    constructor ()
      ensures Valid()
      ensures broadcast == [] && clients == map[] && msgStore == [] && stored == [] && !stalled
    {
      broadcast, clients, msgStore, stalled := [], map[], [], false;
      stored := [];
    }

    /**
     * `UserExists`: whether the map lookup finds `username`. Exactly then
     * would a leave of that user shrink the registry by one.
     */
    predicate UserExists(username: string)
      reads this
      ensures UserExists(username) <==> |clients - {username}| == |clients| - 1
    {
      username in clients
    }

    /**
     * `handleStream` registration: a fresh, empty channel is stored under
     * `username`, replacing any earlier one; the registry never holds a
     * username twice.
     */
    method Register(username: string)
      requires Valid()
      modifies this
      ensures Valid()
      ensures clients == old(clients)[username := []]
      ensures UserExists(username)
      ensures |clients| == |old(clients)| + (if username in old(clients) then 0 else 1)
      ensures broadcast == old(broadcast) && msgStore == old(msgStore)
      ensures stored == old(stored) && stalled == old(stalled)
    {
      clients := clients[username := []];
    }

    /**
     * The join case of `listen`: queues the join notice and the count of
     * registered clients, then sends the newest stored messages (at most 50,
     * oldest first) straight to the joiner's outbox. The history is not changed.
     */
    method HandleJoin(username: string)
      requires Valid() && !stalled
      modifies this
      ensures Valid()
      ensures stored == old(stored) && msgStore == old(msgStore)
      ensures broadcast == old(broadcast) + JoinNotices(username, |old(clients)|)
      ensures username in old(clients) ==>
        !stalled && clients == old(clients)[username := old(clients)[username] + History.Newest(msgStore, MaxMsgsReloaded)]
      ensures username !in old(clients) ==> clients == old(clients) && (stalled <==> msgStore != [])
    {
      var maxMsg := |msgStore| - MaxMsgsReloaded;
      if maxMsg < 0 {
        maxMsg := 0;
      }
      var replay := msgStore[maxMsg..];
      History.NewestIsSlice(msgStore, MaxMsgsReloaded);
      var notices := JoinNotices(username, |clients|);
      if username in clients {
        var box := Outboxes.SendEach(clients[username], replay);
        clients := clients[username := box];
      } else {
        stalled := replay != [];
      }
      broadcast := broadcast + notices;
    }

    /**
     * The leave case of `listen`: removes `username` if present (an absent
     * one leaves the registry as it is), then queues the leave notice and the
     * count of the clients that remain.
     */
    method HandleLeave(username: string)
      requires Valid() && !stalled
      modifies this
      ensures Valid() && !stalled
      ensures clients == old(clients) - {username}
      ensures username !in old(clients) ==> clients == old(clients)
      ensures !UserExists(username)
      ensures |clients| == |old(clients)| - (if username in old(clients) then 1 else 0)
      ensures broadcast == old(broadcast) + LeaveNotices(username, |clients|)
      ensures msgStore == old(msgStore) && stored == old(stored)
    {
      clients := clients - {username};
      assert username !in old(clients) ==> clients == old(clients);
      broadcast := broadcast + LeaveNotices(username, |clients|);
    }

    /**
     * The broadcast case of `listen`: takes the oldest queued message, stores
     * it when it is marked `store` (dropping the oldest entry beyond 1000),
     * then appends it once to every registered client's outbox.
     */
    method HandleBroadcast()
      requires Valid() && !stalled && broadcast != []
      modifies this
      ensures Valid() && !stalled
      ensures var m := old(broadcast)[0];
        && broadcast == old(broadcast)[1..]
        && clients == Outboxes.Deliver(old(clients), m)
        && stored == (if m.store then old(stored) + [m] else old(stored))
        && msgStore == (if m.store then History.Push(old(msgStore), m, MaxStoredMessages) else old(msgStore))
      ensures |msgStore| <= MaxStoredMessages
    {
      var message := broadcast[0];
      broadcast := broadcast[1..];
      if message.store {
        History.PushNewest(stored, message, MaxStoredMessages);
        msgStore := History.Push(msgStore, message, MaxStoredMessages);
        stored := stored + [message];
      }
      clients := Outboxes.FanOut(clients, message);
    }

    /** `GetUsers`: every registered username once, in the registry's (unspecified) order. */
    method GetUsers() returns (users: seq<string>)
      ensures |users| == |clients|
      ensures forall u :: u in users <==> UserExists(u)
      ensures forall i, j :: 0 <= i < j < |users| ==> users[i] != users[j]
    {
      users := [];
      var pending := clients.Keys;
      while pending != {}
        invariant pending <= clients.Keys
        invariant forall u :: u in users <==> u in clients && u !in pending
        invariant forall i, j :: 0 <= i < j < |users| ==> users[i] != users[j]
        invariant |users| + |pending| == |clients|
        decreases |pending|
      {
        var u :| u in pending;
        users := users + [u];
        pending := pending - {u};
      }
    }
  }
}
