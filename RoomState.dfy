/** The state of a chat room (app/durable-objects/ChatRoom/ChatRoom.ts:10-14)
    as a value. The session table is a `Map` keyed by socket, and its
    iteration order is insertion order, so it is modelled as a sequence of
    entries with distinct sockets. What the room sends to or does with its
    sockets is an effect appended to a log, in the order the source does it. */
module RoomState {
  import opened Base
  import opened RoomFrames

  /** `SessionData` (app/types/chat.ts:6-12) without the `limiter` client,
      which the room never creates. An absent `quit` is `false`. */
  datatype Session = Session(limiterId: string, blocked: seq<Frame>, name: Option<string>, quit: bool)

  datatype Entry = Entry(socket: SocketId, session: Session)

  datatype Effect =
    | Send(to: SocketId, frame: Frame)
    | Close(socket: SocketId, code: int, reason: string)

  /** The room's fields: the table, the timestamp watermark, the durable
      storage (keyed by the integer timestamp) and the effects so far. */
  datatype Room = Room(table: seq<Entry>, lastTimestamp: int, storage: map<int, Frame>, out: seq<Effect>)

  /** `if (session.name)`: JavaScript truthiness, so an empty name is no
      name. */
  predicate Named(s: Session) {
    s.name.Some? && s.name.value != ""
  }

  predicate DistinctSockets(table: seq<Entry>) {
    forall i, j :: 0 <= i < j < |table| ==> table[i].socket != table[j].socket
  }

  /** The position of `ws` in the table, if present. */
  function IndexOf(table: seq<Entry>, ws: SocketId): (r: Option<nat>)
    ensures r.Some? ==> r.value < |table| && table[r.value].socket == ws
    ensures r.None? <==> forall i :: 0 <= i < |table| ==> table[i].socket != ws
    ensures r.Some? ==> forall i :: 0 <= i < r.value ==> table[i].socket != ws
  {
    if table == [] then None
    else if table[0].socket == ws then Some(0)
    else match IndexOf(table[1..], ws)
      case None => None
      case Some(i) => Some(i + 1)
  }

  /** `IndexOf` finds the first occurrence. */
  lemma {:induction false} IndexOfFirst(table: seq<Entry>, ws: SocketId, j: nat)
    requires j < |table| && table[j].socket == ws
    requires forall i :: 0 <= i < j ==> table[i].socket != ws
    ensures IndexOf(table, ws) == Some(j)
  {
    if j > 0 {
      IndexOfFirst(table[1..], ws, j - 1);
    }
  }

  /** `sessions.get(ws)` */
  function Lookup(table: seq<Entry>, ws: SocketId): (r: Option<Session>)
    ensures r.Some? <==> exists i :: 0 <= i < |table| && table[i].socket == ws
    ensures DistinctSockets(table) ==> forall i :: 0 <= i < |table| && table[i].socket == ws ==> r == Some(table[i].session)
  {
    match IndexOf(table, ws)
    case None => None
    case Some(i) => Some(table[i].session)
  }

  /** `sessions.set(ws, s)`: an existing key keeps its place and gets the
      new value, a new key goes at the end. */
  function Put(table: seq<Entry>, ws: SocketId, s: Session): (r: seq<Entry>)
    ensures DistinctSockets(table) ==> DistinctSockets(r)
    ensures Lookup(r, ws) == Some(s)
    ensures forall i :: 0 <= i < |table| && table[i].socket != ws ==> i < |r| && r[i] == table[i]
    ensures |r| == |table| + (if Lookup(table, ws).Some? then 0 else 1)
    ensures forall i :: 0 <= i < |r| ==> r[i].socket == ws || (i < |table| && r[i] == table[i])
  {
    match IndexOf(table, ws)
    case Some(i) =>
      var r := table[i := Entry(ws, s)];
      IndexOfFirst(r, ws, i);
      r
    case None =>
      var r := table + [Entry(ws, s)];
      IndexOfFirst(r, ws, |table|);
      r
  }

  /** Replaces the session of a socket that is in the table. */
  function Update(table: seq<Entry>, i: nat, s: Session): (r: seq<Entry>)
    requires i < |table|
    ensures |r| == |table| && r[i] == Entry(table[i].socket, s)
    ensures forall j :: 0 <= j < |table| && j != i ==> r[j] == table[j]
    ensures DistinctSockets(table) ==> DistinctSockets(r)
  {
    table[i := Entry(table[i].socket, s)]
  }
}
