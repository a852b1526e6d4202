/**
 * The HTTP handlers of the latest variant (`app/routes.go`) that hold logic
 * of their own: posting a chat message, the login checks and the plain HTML
 * list of users. Requests, responses, sessions and templates are reduced to
 * the values the handlers read and return.
 */
module AppRoutes {
  import opened Wrappers
  import opened Text
  import History
  import AppChat

  const MaxStoredMessages := 1000
  const StatusOK := 200
  const StatusBadRequest := 400

  const EmptyNameError := "Username can not be empty."
  const NameTakenError := "That name is already taken, please pick another name."

  /**
   * What `/login` renders: the login view with one of three errors, or the
   * chat view for the user.
   */
  datatype LoginResult =
    | EmptyName
    | NameTaken
    | SessionError(reason: string)
    | LoggedIn(username: string)

  /** The error text the login view shows, if any. */
  function ErrorText(r: LoginResult): Option<string> {
    match r
    case EmptyName => Some(EmptyNameError)
    case NameTaken => Some(NameTakenError)
    case SessionError(reason) => Some(reason)
    case LoggedIn(_) => None
  }

  /** The state the `/chat` handler writes: the broker's ingress queue and the message store. */
  class ChatRoutes {
    /** The broker's `Broadcast` queue, oldest first. */
    var broadcast: seq<AppChat.ChatMessage>
    /** The in-memory message store, oldest first. */
    var msgStore: seq<AppChat.ChatMessage>
    /** Every message ever accepted by `/chat`, oldest first. */
    ghost var posted: seq<AppChat.ChatMessage>

    /** The store holds exactly the newest accepted messages, at most 1000 of them. */
    ghost predicate Valid()
      reads this
    {
      msgStore == History.Newest(posted, MaxStoredMessages)
    }

    constructor ()
      ensures Valid()
      ensures broadcast == [] && msgStore == [] && posted == []
    {
      broadcast, msgStore := [], [];
      posted := [];
    }

    /**
     * `POST /chat`: the message is trimmed of surrounding white space; an
     * empty result is refused with status 400 and nothing changes; otherwise
     * the trimmed message is queued for broadcast and appended to the store,
     * whose oldest message is dropped once it holds more than 1000.
     */
    method PostChat(message: string, username: string) returns (status: int)
      requires Valid()
      modifies this
      ensures Valid()
      ensures status == StatusBadRequest <==> AllSpace(message)
      ensures status == StatusBadRequest || status == StatusOK
      ensures status == StatusBadRequest ==>
                broadcast == old(broadcast) && msgStore == old(msgStore) && posted == old(posted)
      ensures status == StatusOK ==>
                var m := AppChat.ChatMessage(username, TrimSpace(message), false);
                && m.message != [] && !IsSpace(m.message[0]) && !IsSpace(m.message[|m.message| - 1])
                && broadcast == old(broadcast) + [m]
                && posted == old(posted) + [m]
                && msgStore == History.Push(old(msgStore), m, MaxStoredMessages)
      ensures |msgStore| <= MaxStoredMessages
    {
      var text := TrimSpace(message);
      TrimSpaceEmpty(message);
      if text == "" {
        return StatusBadRequest;
      }
      var msg := AppChat.ChatMessage(username, text, false);
      broadcast := broadcast + [msg];
      History.PushNewest(posted, msg, MaxStoredMessages);
      msgStore := History.Push(msgStore, msg, MaxStoredMessages);
      posted := posted + [msg];
      return StatusOK;
    }
  }

  /**
   * `POST /login`: an empty name is refused first, then a name that is
   * already among the active users; otherwise the name is saved in the
   * session, and a failure to save (`saveError`) is shown as the error.
   * The error the view shows is none exactly when the user is logged in.
   */
  method Login(username: string, activeUsers: seq<string>, saveError: Option<string>) returns (r: LoginResult)
    ensures r.EmptyName? <==> username == ""
    ensures r.NameTaken? <==> username != "" && username in activeUsers
    ensures r.SessionError? <==> username != "" && username !in activeUsers && saveError.Some?
    ensures r.SessionError? ==> r.reason == saveError.value
    ensures r.LoggedIn? <==> username != "" && username !in activeUsers && saveError.None?
    ensures r.LoggedIn? ==> r.username == username
    ensures username == "" ==> ErrorText(r) == Some(EmptyNameError)
    ensures username != "" && username in activeUsers ==> ErrorText(r) == Some(NameTakenError)
    ensures username != "" && username !in activeUsers ==> ErrorText(r) == saveError
  {
    if username == "" {
      return EmptyName;
    }
    var i := 0;
    while i < |activeUsers|
      invariant 0 <= i <= |activeUsers|
      invariant username !in activeUsers[..i]
    {
      if activeUsers[i] == username {
        return NameTaken;
      }
      i := i + 1;
    }
    assert activeUsers[..i] == activeUsers;
    if saveError.Some? {
      return SessionError(saveError.value);
    }
    return LoggedIn(username);
  }

  /** One user as an HTML list item. */
  function Item(user: string): string {
    "<li>" + user + "</li>"
  }

  /** The users as a sequence of HTML list items, in the given order. */
  function UsersList(users: seq<string>): (html: string)
    ensures |html| >= 9 * |users|
  {
    if users == [] then "" else UsersList(users[..|users| - 1]) + Item(users[|users| - 1])
  }

  /** The list of two groups of users is the list of the first followed by that of the second. */
  lemma {:induction false} UsersListAppend(a: seq<string>, b: seq<string>)
    ensures UsersList(a + b) == UsersList(a) + UsersList(b)
    decreases |b|
  {
    if b == [] {
      assert a + b == a;
    } else {
      var b', last := b[..|b| - 1], b[|b| - 1];
      calc {
        UsersList(a + b);
      == { assert (a + b)[..|a + b| - 1] == a + b'; }
        UsersList(a + b') + Item(last);
      == { UsersListAppend(a, b'); }
        (UsersList(a) + UsersList(b')) + Item(last);
      ==
        UsersList(a) + (UsersList(b') + Item(last));
      }
    }
  }

  /** The list around one user is the list before it, its item, then the list after it. */
  lemma UsersListAround(before: seq<string>, user: string, after: seq<string>)
    ensures UsersList(before + [user] + after) == UsersList(before) + Item(user) + UsersList(after)
  {
    assert UsersList([user]) == Item(user) by {
      assert [user][..0] == [];
    }
    UsersListAppend(before, [user]);
    UsersListAppend(before + [user], after);
  }

  /** Every user appears as one list item, preceded by the items of the users before it and followed by those after it. */
  lemma UsersListItem(users: seq<string>, i: nat)
    requires i < |users|
    ensures UsersList(users) == UsersList(users[..i]) + Item(users[i]) + UsersList(users[i + 1..])
  {
    SplitAt(users, i);
    UsersListAround(users[..i], users[i], users[i + 1..]);
  }

  lemma SplitAt<T>(s: seq<T>, i: nat)
    requires i < |s|
    ensures s == s[..i] + [s[i]] + s[i + 1..]
  {
    assert s == s[..i] + s[i..];
    assert s[i..] == [s[i]] + s[i + 1..];
  }

  /** The list is empty exactly when there are no users. */
  lemma UsersListEmpty(users: seq<string>)
    ensures UsersList(users) == "" <==> users == []
  {
  }

  /** `GET /users`: one list item per user, concatenated in order. */
  method UsersHtml(users: seq<string>) returns (html: string)
    ensures html == UsersList(users)
  {
    html := "";
    var i := 0;
    while i < |users|
      invariant 0 <= i <= |users|
      invariant html == UsersList(users[..i])
    {
      assert users[..i + 1][..i] == users[..i];
      html := html + "<li>" + users[i] + "</li>";
      i := i + 1;
    }
    assert users[..i] == users;
  }
}
