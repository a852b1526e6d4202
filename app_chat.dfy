/**
 * The latest variant (`app/chat.go`): the broker itself is a library, and the
 * application supplies the hooks it calls when a client connects or
 * disconnects and the adapter that turns a message into a server-sent event.
 *
 * Of the library broker, the model keeps what the hooks use: its `Broadcast`
 * ingress queue and the sequence of `SendToClient` calls. Its frame writer is
 * taken to emit the same `event:`/`data:` frame as `EventStream.Write`. The
 * client count and the messages fetched from the database are inputs of the
 * hooks.
 */
module AppChat {
  import opened Wrappers
  import opened Text
  import opened Wording
  import EventStream

  /** A chat message, or a system message (`system`) that is sent as raw text. */
  datatype ChatMessage = ChatMessage(username: string, message: string, system: bool)

  /**
   * The fields handed to the `message` template; the message text is passed
   * as trusted HTML, which only matters to the renderer.
   */
  datatype MessageView = MessageView(username: string, message: string, time: string, isSelf: bool, isServer: bool)

  /** One `SendToClient` call: `msg` goes to `clientID` only. */
  datatype Send = Send(clientID: string, msg: ChatMessage)

  /** The two messages the connect hook broadcasts: the join notice, then the count. */
  function JoinNotices(clientID: string, count: nat): (r: seq<ChatMessage>)
    ensures |r| == 2
    ensures !r[0].system && r[0].username == ServerUsername && r[0].message == JoinedText(clientID)
    ensures r[1].system && r[1].username == "" && ReadUsersOnline(r[1].message) == Some(count)
    ensures r[1].message == UsersOnlineText(count)
  {
    ReadUsersOnlineText(count);
    [ChatMessage(ServerUsername, JoinedText(clientID), false),
     ChatMessage("", UsersOnlineText(count), true)]
  }

  /** The two messages the disconnect hook broadcasts: the leave notice, then the count. */
  function LeaveNotices(clientID: string, count: nat): (r: seq<ChatMessage>)
    ensures |r| == 2
    ensures !r[0].system && r[0].username == ServerUsername && r[0].message == LeftText(clientID)
    ensures r[1].system && r[1].username == "" && ReadUsersOnline(r[1].message) == Some(count)
    ensures r[1].message == UsersOnlineText(count)
  {
    ReadUsersOnlineText(count);
    [ChatMessage(ServerUsername, LeftText(clientID), false),
     ChatMessage("", UsersOnlineText(count), true)]
  }

  /** The `SendToClient` calls that deliver `msgs`, in order, to `clientID` alone. */
  function SendsTo(clientID: string, msgs: seq<ChatMessage>): (r: seq<Send>)
    ensures |r| == |msgs|
    ensures forall i :: 0 <= i < |r| ==> r[i] == Send(clientID, msgs[i])
  {
    if msgs == [] then [] else SendsTo(clientID, msgs[..|msgs| - 1]) + [Send(clientID, msgs[|msgs| - 1])]
  }

  /**
   * The template's fields for `msg` shown to `clientID`: `isSelf` when the
   * client sent it, `isServer` for a system message or one sent as the
   * server user.
   */
  function ViewOf(msg: ChatMessage, clientID: string, clock: string): MessageView {
    MessageView(msg.username, msg.message, clock, clientID == msg.username,
                msg.system || msg.username == ServerUsername)
  }

  /**
   * `MessageAdapter`: a system message becomes event `system` carrying its raw
   * text; any other message becomes event `chat` carrying the rendered HTML
   * with every line feed removed.
   */
  function MessageAdapter(msg: ChatMessage, clientID: string,
                          render: MessageView -> string, clock: string): (e: EventStream.Sse)
    ensures e.event == (if msg.system then "system" else "chat")
    ensures msg.system ==> e.data == msg.message
    ensures !msg.system ==> e.data == RemoveNewlines(render(ViewOf(msg, clientID, clock)))
    ensures !msg.system ==> '\n' !in e.data
  {
    var html := render(ViewOf(msg, clientID, clock));
    if msg.system then EventStream.Sse("system", msg.message)
    else EventStream.Sse("chat", RemoveNewlines(html))
  }

  /**
   * The adapted event frames and reads back intact: a chat event when the
   * rendered HTML holds no carriage return, a system event when its text
   * holds no line break. The library writes the frame; this takes its frame
   * to be the `event:`/`data:` shape of `EventStream.Write`.
   */
  lemma MessageAdapterReadsBack(msg: ChatMessage, clientID: string,
                                render: MessageView -> string, clock: string)
    requires msg.system ==> EventStream.NoLineBreak(msg.message)
    requires !msg.system ==> '\r' !in render(ViewOf(msg, clientID, clock))
    ensures var e := MessageAdapter(msg, clientID, render, clock);
            EventStream.Parse(EventStream.Write(e)) == Some(e)
  {
    if !msg.system {
      RemoveNewlinesKeeps(render(ViewOf(msg, clientID, clock)), '\r');
    }
    EventStream.ParseWrite(MessageAdapter(msg, clientID, render, clock));
  }

  /**
   * Join and leave notices are shown as server messages on `chat` events;
   * both counts arrive as `system` events that read back as the count.
   */
  lemma NoticeEvents(clientID: string, count: nat, viewer: string,
                     render: MessageView -> string, clock: string)
    ensures ViewOf(JoinNotices(clientID, count)[0], viewer, clock).isServer
    ensures ViewOf(LeaveNotices(clientID, count)[0], viewer, clock).isServer
    ensures MessageAdapter(JoinNotices(clientID, count)[0], viewer, render, clock).event == "chat"
    ensures MessageAdapter(LeaveNotices(clientID, count)[0], viewer, render, clock).event == "chat"
    ensures var e := MessageAdapter(JoinNotices(clientID, count)[1], viewer, render, clock);
            e.event == "system" && ReadUsersOnline(e.data) == Some(count)
            && EventStream.Parse(EventStream.Write(e)) == Some(e)
    ensures var e := MessageAdapter(LeaveNotices(clientID, count)[1], viewer, render, clock);
            e.event == "system" && ReadUsersOnline(e.data) == Some(count)
            && EventStream.Parse(EventStream.Write(e)) == Some(e)
  {
    MessageAdapterReadsBack(JoinNotices(clientID, count)[1], viewer, render, clock);
    MessageAdapterReadsBack(LeaveNotices(clientID, count)[1], viewer, render, clock);
  }

  /** The part of the library broker the hooks act on. */
  class SseBroker {
    /** The `Broadcast` ingress queue, oldest first. */
    var broadcast: seq<ChatMessage>
    /** Every `SendToClient` call so far, in order. */
    var sent: seq<Send>

    constructor ()
      ensures broadcast == [] && sent == []
    {
      broadcast, sent := [], [];
    }

    /**
     * `ClientConnectedHandler`: queues the join notice and the client count,
     * then sends each fetched message, in fetch order, to the joining client
     * only.
     */
    method ClientConnected(clientID: string, clientCount: nat, fetched: seq<ChatMessage>)
      modifies this
      ensures broadcast == old(broadcast) + JoinNotices(clientID, clientCount)
      ensures sent == old(sent) + SendsTo(clientID, fetched)
    {
      broadcast := broadcast + [ChatMessage(ServerUsername, JoinedText(clientID), false)];
      broadcast := broadcast + [ChatMessage("", UsersOnlineText(clientCount), true)];
      var i := 0;
      while i < |fetched|
        invariant 0 <= i <= |fetched|
        invariant sent == old(sent) + SendsTo(clientID, fetched[..i])
        invariant broadcast == old(broadcast) + JoinNotices(clientID, clientCount)
      {
        assert fetched[..i + 1][..i] == fetched[..i];
        sent := sent + [Send(clientID, fetched[i])];
        i := i + 1;
      }
      assert fetched[..i] == fetched;
    }

    /** `ClientDisconnectedHandler`: queues the leave notice and the client count. */
    method ClientDisconnected(clientID: string, clientCount: nat)
      modifies this
      ensures broadcast == old(broadcast) + LeaveNotices(clientID, clientCount)
      ensures sent == old(sent)
    {
      broadcast := broadcast + [ChatMessage(ServerUsername, LeftText(clientID), false)];
      broadcast := broadcast + [ChatMessage("", UsersOnlineText(clientCount), true)];
    }
  }
}
