/** The browser-side chat store of app/stores/chatStore.ts without its
    zustand wiring: the state is the fields of a class, the selectors are
    functions that read it, and each action is a method that replaces the
    fields it names and leaves the others alone. */
module ChatStore {
  import opened Base

  datatype Message = Message(name: string, message: string, timestamp: real)

  datatype ConnectionStatus = ConnectionStatus(connected: bool, username: Option<string>, roomId: Option<string>)

  /** `Array.prototype.slice(start)`: a negative start counts back from the
      end, and either kind is clamped into the array. */
  function SliceFrom<T>(s: seq<T>, start: int): (r: seq<T>)
    ensures start >= 0 ==> r == s[if start <= |s| then start else |s|..]
    ensures start < 0 ==> r == s[if |s| + start >= 0 then |s| + start else 0..]
  {
    var begin := if start < 0 then Max(|s| + start, 0) else if start < |s| then start else |s|;
    s[begin..]
  }

  /** The messages of `messages` sent under `name`, in their order. */
  function MessagesBy(messages: seq<Message>, name: string): (r: seq<Message>)
    ensures |r| <= |messages|
    ensures forall i :: 0 <= i < |r| ==> r[i].name == name
    ensures forall m :: m in r <==> m in messages && m.name == name
  {
    if messages == [] then []
    else (if messages[0].name == name then [messages[0]] else []) + MessagesBy(messages[1..], name)
  }

  /** Filtering distributes over concatenation, so it keeps the order of
      the messages it keeps. */
  lemma {:induction false} MessagesByAppend(a: seq<Message>, b: seq<Message>, name: string)
    decreases |a|
    ensures MessagesBy(a + b, name) == MessagesBy(a, name) + MessagesBy(b, name)
  {
    if a != [] {
      assert (a + b)[0] == a[0] && (a + b)[1..] == a[1..] + b;
      MessagesByAppend(a[1..], b, name);
      var head := if a[0].name == name then [a[0]] else [];
      assert MessagesBy(a + b, name) == head + (MessagesBy(a[1..], name) + MessagesBy(b, name));
      assert MessagesBy(a, name) == head + MessagesBy(a[1..], name);
      Assoc(head, MessagesBy(a[1..], name), MessagesBy(b, name));
    } else {
      assert a + b == b;
    }
  }

  lemma Assoc(x: seq<Message>, y: seq<Message>, z: seq<Message>)
    ensures x + (y + z) == (x + y) + z
  {
  }

  /** Together with `MessagesByAppend` this pins `MessagesBy` down: one
      message is kept exactly when its sender matches. */
  lemma MessagesByOne(m: Message, name: string)
    ensures MessagesBy([m], name) == if m.name == name then [m] else []
  {
    assert [m][1..] == [];
  }

  class ChatStore {
    var messages: seq<Message>
    var users: set<string>
    var connected: bool
    var username: Option<string>
    var roomId: Option<string>

    /** chatStore.ts:36-42 */
    predicate IsInitial()
      reads this
    {
      messages == [] && users == {} && !connected && username == None && roomId == None
    }

    constructor ()
      ensures IsInitial()
    {
      messages := [];
      users := {};
      connected := false;
      username := None;
      roomId := None;
    }

    /** `getRecentMessages` (chatStore.ts:67-70), `slice(-count)`. A count
        from 1 to the number of messages gives that many of the latest, in
        order; a larger count gives everything, and so does 0, since `-0` is
        a start of 0; a negative count drops that many from the front. */
    function GetRecentMessages(count: int): (r: seq<Message>)
      reads this
      ensures 0 < count <= |messages| ==> |r| == count && messages == messages[..|messages| - count] + r
      ensures count == 0 || count >= |messages| ==> r == messages
      ensures count < 0 ==> (-count <= |messages| ==> messages == messages[..-count] + r) && (-count >= |messages| ==> r == [])
    {
      SliceFrom(messages, -count)
    }

    /** `getMessagesByUser` (chatStore.ts:86-89). */
    function GetMessagesByUser(name: string): (r: seq<Message>)
      reads this
      ensures forall m :: m in r <==> m in messages && m.name == name
      ensures forall i :: 0 <= i < |r| ==> r[i].name == name
    {
      MessagesBy(messages, name)
    }

    /** `getUserCount` (chatStore.ts:102-105). */
    function GetUserCount(): (n: nat)
      reads this
      ensures n == 0 <==> users == {}
    {
      |users|
    }

    /** `isUserOnline` (chatStore.ts:123-126). */
    predicate IsUserOnline(name: string)
      reads this
      ensures IsUserOnline(name) ==> GetUserCount() >= 1
    {
      name in users
    }

    /** `getConnectionStatus` (chatStore.ts:147-154). */
    function GetConnectionStatus(): (st: ConnectionStatus)
      reads this
      ensures st.connected == connected && st.username == username && st.roomId == roomId
      ensures IsInitial() ==> st == ConnectionStatus(false, None, None)
    {
      ConnectionStatus(connected, username, roomId)
    }

    /** chatStore.ts:157 */
    method SetMessages(ms: seq<Message>)
      modifies this
      ensures messages == ms
      ensures users == old(users) && connected == old(connected) && username == old(username) && roomId == old(roomId)
    {
      messages := ms;
    }

    /** chatStore.ts:158-161: the message goes at the end, and a filter by
        any sender gains it exactly when it is that sender's. */
    method AddMessage(m: Message)
      modifies this
      ensures messages == old(messages) + [m]
      ensures forall name :: GetMessagesByUser(name) == old(GetMessagesByUser(name)) + (if m.name == name then [m] else [])
      ensures GetRecentMessages(1) == [m]
      ensures users == old(users) && connected == old(connected) && username == old(username) && roomId == old(roomId)
    {
      messages := messages + [m];
      forall name: string
        ensures MessagesBy(messages, name) == MessagesBy(old(messages), name) + (if m.name == name then [m] else [])
      {
        MessagesByAppend(old(messages), [m], name);
        MessagesByOne(m, name);
      }
    }

    /** chatStore.ts:162 */
    method SetUsers(us: set<string>)
      modifies this
      ensures users == us
      ensures messages == old(messages) && connected == old(connected) && username == old(username) && roomId == old(roomId)
    {
      users := us;
    }

    /** chatStore.ts:163-166: adding a user already present changes
        nothing. */
    method AddUser(name: string)
      modifies this
      ensures users == old(users) + {name}
      ensures IsUserOnline(name) && GetUserCount() == old(GetUserCount()) + (if name in old(users) then 0 else 1)
      ensures name in old(users) ==> users == old(users)
      ensures messages == old(messages) && connected == old(connected) && username == old(username) && roomId == old(roomId)
    {
      users := users + {name};
      if name in old(users) {
        assert users == old(users);
      } else {
        assert |old(users) + {name}| == |old(users)| + 1;
      }
    }

    /** chatStore.ts:167-172: removing an absent user changes nothing. */
    method RemoveUser(name: string)
      modifies this
      ensures users == old(users) - {name}
      ensures !IsUserOnline(name) && GetUserCount() == old(GetUserCount()) - (if name in old(users) then 1 else 0)
      ensures name !in old(users) ==> users == old(users)
      ensures messages == old(messages) && connected == old(connected) && username == old(username) && roomId == old(roomId)
    {
      users := users - {name};
      if name in old(users) {
        assert old(users) == users + {name};
      } else {
        assert users == old(users);
      }
    }

    /** chatStore.ts:173 */
    method SetConnected(isConnected: bool)
      modifies this
      ensures connected == isConnected
      ensures GetConnectionStatus() == ConnectionStatus(isConnected, old(username), old(roomId))
      ensures messages == old(messages) && users == old(users) && username == old(username) && roomId == old(roomId)
    {
      connected := isConnected;
    }

    /** chatStore.ts:174 */
    method SetUsername(name: Option<string>)
      modifies this
      ensures username == name
      ensures GetConnectionStatus() == ConnectionStatus(old(connected), name, old(roomId))
      ensures messages == old(messages) && users == old(users) && connected == old(connected) && roomId == old(roomId)
    {
      username := name;
    }

    /** chatStore.ts:175 */
    method SetRoomId(id: Option<string>)
      modifies this
      ensures roomId == id
      ensures GetConnectionStatus() == ConnectionStatus(old(connected), old(username), id)
      ensures messages == old(messages) && users == old(users) && connected == old(connected) && username == old(username)
    {
      roomId := id;
    }

    /** chatStore.ts:176: back to the initial state. */
    method Reset()
      modifies this
      ensures IsInitial()
      ensures GetUserCount() == 0 && GetRecentMessages(0) == []
      ensures GetConnectionStatus() == ConnectionStatus(false, None, None)
    {
      messages := [];
      users := {};
      connected := false;
      username := None;
      roomId := None;
    }
  }
}
