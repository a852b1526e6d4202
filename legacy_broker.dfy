/**
 * The earliest broker variant (`broker.go`): the same registry, join, leave
 * and fan-out loop as the later one, with no history and a `server` flag in
 * place of `system`.
 */
module LegacyBroker {
  import opened Wrappers
  import opened Text
  import opened Wording
  import Outboxes
  import EventStream

  /** A chat message, or a server message (`server`) that is sent as plain text. */
  datatype ChatMessage = ChatMessage(username: string, message: string, server: bool)

  /** The fields handed to the `message` template. */
  datatype MessageView = MessageView(username: string, message: string, time: string, isSelf: bool)

  /** The two messages a join queues: the join notice, then the count with an empty username. */
  function JoinNotices(username: string, count: nat): (r: seq<ChatMessage>)
    ensures |r| == 2
    ensures !r[0].server && r[0].username == ServerUsername && r[0].message == JoinedText(username)
    ensures r[1].server && r[1].username == "" && ReadUsersOnline(r[1].message) == Some(count)
    ensures r[1].message == UsersOnlineText(count)
  {
    ReadUsersOnlineText(count);
    [ChatMessage(ServerUsername, JoinedText(username), false),
     ChatMessage("", UsersOnlineText(count), true)]
  }

  /** The two messages a leave queues: the leave notice, then the count under the username `Server`. */
  function LeaveNotices(username: string, count: nat): (r: seq<ChatMessage>)
    ensures |r| == 2
    ensures !r[0].server && r[0].username == ServerUsername && r[0].message == LeftText(username)
    ensures r[1].server && r[1].username == "Server" && ReadUsersOnline(r[1].message) == Some(count)
    ensures r[1].message == UsersOnlineText(count)
  {
    ReadUsersOnlineText(count);
    [ChatMessage(ServerUsername, LeftText(username), false),
     ChatMessage("Server", UsersOnlineText(count), true)]
  }

  /** What the template is told about `msg` on a stream whose session holds `sessionUser`. */
  function ViewOf(msg: ChatMessage, sessionUser: Option<string>, clock: string): MessageView {
    MessageView(msg.username, msg.message, clock, sessionUser == Some(msg.username))
  }

  /**
   * The event written for one message on a stream whose session holds
   * `sessionUser` (absent when the session has no username): type `server`
   * with the raw text for a server message, otherwise type `chat` with the
   * rendered HTML without its line feeds.
   */
  function StreamEvent(msg: ChatMessage, sessionUser: Option<string>,
                       render: MessageView -> string, clock: string): (e: EventStream.Sse)
    ensures e.event == (if msg.server then "server" else "chat")
    ensures msg.server ==> e.data == msg.message
    ensures !msg.server ==> e.data == RemoveNewlines(render(ViewOf(msg, sessionUser, clock)))
    ensures !msg.server ==> '\n' !in e.data
  {
    var msgData := RemoveNewlines(render(ViewOf(msg, sessionUser, clock)));
    if msg.server then EventStream.Sse("server", msg.message) else EventStream.Sse("chat", msgData)
  }

  /**
   * A chat frame reads back as its event when the rendered HTML holds no
   * carriage return; a server frame does when its text holds no line break.
   */
  lemma StreamEventReadsBack(msg: ChatMessage, sessionUser: Option<string>,
                             render: MessageView -> string, clock: string)
    requires msg.server ==> EventStream.NoLineBreak(msg.message)
    requires !msg.server ==> '\r' !in render(ViewOf(msg, sessionUser, clock))
    ensures var e := StreamEvent(msg, sessionUser, render, clock);
            EventStream.Parse(EventStream.Write(e)) == Some(e)
  {
    if !msg.server {
      RemoveNewlinesKeeps(render(ViewOf(msg, sessionUser, clock)), '\r');
    }
    EventStream.ParseWrite(StreamEvent(msg, sessionUser, render, clock));
  }

  /** Both count messages are `server` events whose data reads back as the count, and whose frames read back intact. */
  lemma CountEvents(username: string, count: nat, sessionUser: Option<string>,
                    render: MessageView -> string, clock: string)
    ensures var e := StreamEvent(JoinNotices(username, count)[1], sessionUser, render, clock);
            e.event == "server" && ReadUsersOnline(e.data) == Some(count)
            && EventStream.Parse(EventStream.Write(e)) == Some(e)
    ensures var e := StreamEvent(LeaveNotices(username, count)[1], sessionUser, render, clock);
            e.event == "server" && ReadUsersOnline(e.data) == Some(count)
            && EventStream.Parse(EventStream.Write(e)) == Some(e)
  {
    StreamEventReadsBack(JoinNotices(username, count)[1], sessionUser, render, clock);
    StreamEventReadsBack(LeaveNotices(username, count)[1], sessionUser, render, clock);
  }

  class ChatBroker {
    /** The `Broadcast` ingress queue, oldest first. */
    var broadcast: seq<ChatMessage>
    /** The registry: each username's pending outbox. */
    var clients: map<string, seq<ChatMessage>>

    /** `NewChatBroker`: empty queue and registry. */
    constructor ()
      ensures broadcast == [] && clients == map[]
    {
      broadcast, clients := [], map[];
    }

    /**
     * `UserExists`: whether the map lookup finds `username`. Exactly then
     * would a leave of that user shrink the registry by one.
     */
    predicate UserExists(username: string)
      reads this
      ensures UserExists(username) <==> |clients - {username}| == |clients| - 1
    {
      username in clients
    }

    /** `handleStream` registration: a fresh, empty channel replaces any earlier one under `username`. */
    method Register(username: string)
      modifies this
      ensures clients == old(clients)[username := []]
      ensures UserExists(username)
      ensures |clients| == |old(clients)| + (if username in old(clients) then 0 else 1)
      ensures broadcast == old(broadcast)
    {
      clients := clients[username := []];
    }

    /** The join case of `listen`: queues the join notice and the client count; nothing is replayed. */
    method HandleJoin(username: string)
      modifies this
      ensures broadcast == old(broadcast) + JoinNotices(username, |clients|)
      ensures clients == old(clients)
    {
      broadcast := broadcast + JoinNotices(username, |clients|);
    }

    /**
     * The leave case of `listen`: removes `username` if present, then queues
     * the leave notice and the count of the clients that remain.
     */
    method HandleLeave(username: string)
      modifies this
      ensures clients == old(clients) - {username}
      ensures username !in old(clients) ==> clients == old(clients)
      ensures !UserExists(username)
      ensures |clients| == |old(clients)| - (if username in old(clients) then 1 else 0)
      ensures broadcast == old(broadcast) + LeaveNotices(username, |clients|)
    {
      clients := clients - {username};
      assert username !in old(clients) ==> clients == old(clients);
      broadcast := broadcast + LeaveNotices(username, |clients|);
    }

    /** The broadcast case of `listen`: the oldest queued message goes once to every registered client. */
    method HandleBroadcast()
      requires broadcast != []
      modifies this
      ensures broadcast == old(broadcast)[1..]
      ensures clients == Outboxes.Deliver(old(clients), old(broadcast)[0])
    {
      var message := broadcast[0];
      broadcast := broadcast[1..];
      clients := Outboxes.FanOut(clients, message);
    }
  }
}
