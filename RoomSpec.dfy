/** What the room does, as functions of its state: restoring hibernated
    sockets, admitting a connection, and handling one inbound text frame
    (app/durable-objects/ChatRoom/ChatRoom.ts:26-182). `Date.now()` is the
    parameter `now`, the sockets whose sends throw during the frame's
    broadcasts are `broken`, and a rejected `storage.put` is `fault`. */
module RoomSpec {
  import opened Base
  import opened RoomFrames
  import opened RoomState
  import opened RoomBroadcast
  import opened History
  import RoomSchemas

  /** An inbound text frame: text `JSON.parse` rejects (with the message of
      its `SyntaxError`), or the value it parses to. */
  datatype RawFrame = Unparseable(syntaxError: string) | Parsed(json: Json)

  /** A rejected `storage.put`: an `Error`, or any other thrown value. */
  datatype Fault = ErrorFault(message: string) | OtherFault

  const VALIDATION_FAILED := "Validation failed"
  const MESSAGE_REQUIRED := "Message is required"
  const NAME_TOO_LONG := "Name too long."
  const ANONYMOUS := "anonymous"
  const WEBSOCKET_BROKEN := "WebSocket broken."
  const RESTORE_FAILED := "Failed to restore session"
  /** Close codes: internal error, message too big. */
  const INTERNAL_ERROR := 1011
  const MESSAGE_TOO_BIG := 1009

  /** The text of the `{error}` frame the catch of ChatRoom.ts:177-181
      sends. */
  function FaultMessage(f: Fault): string {
    match f
    case ErrorFault(m) => m
    case OtherFault => "An error occurred"
  }

  /** An empty session for a socket: no name, nothing held. */
  function Fresh(limiterId: string): (s: Session)
    ensures s.limiterId == limiterId && s.blocked == [] && !Named(s) && !s.quit
  {
    Session(limiterId, [], None, false)
  }

  // ---- initializeWebSockets (ChatRoom.ts:26-43) ----

  /** The room built from the sockets the platform hands back after
      hibernation, each with its attachment, in order. */
  function Restore(storage: map<int, Frame>, sockets: seq<(SocketId, Json)>): (r: Room)
    ensures r.lastTimestamp == 0 && r.storage == storage
    decreases |sockets|
  {
    if sockets == [] then Room([], 0, storage, [])
    else RestoreOne(Restore(storage, sockets[..|sockets| - 1]), sockets[|sockets| - 1])
  }

  /** One socket of the restore: a valid attachment gives the socket a
      fresh session; otherwise the socket is closed with 1011. */
  function RestoreOne(r: Room, socket: (SocketId, Json)): (r': Room)
    ensures r'.lastTimestamp == r.lastTimestamp && r'.storage == r.storage
  {
    match RoomSchemas.ParseAttachment(socket.1)
    case Some(meta) => r.(table := Put(r.table, socket.0, Fresh(meta.limiterId)))
    case None => r.(out := r.out + [Close(socket.0, INTERNAL_ERROR, RESTORE_FAILED)])
  }

  /** The platform hands back each hibernated socket once. */
  predicate DistinctIds(sockets: seq<(SocketId, Json)>) {
    forall i, j :: 0 <= i < j < |sockets| ==> sockets[i].0 != sockets[j].0
  }

  /** `socket`'s attachment is valid and `s` is the fresh session built
      from its `limiterId`. */
  predicate RestoredFrom(socket: (SocketId, Json), s: Session) {
    RoomSchemas.ParseAttachment(socket.1).Some? && s == Fresh(RoomSchemas.ParseAttachment(socket.1).value.limiterId)
  }

  /** The restored table has distinct sockets, and each entry is the
      fresh session built from the attachment of a socket handed back
      with a valid attachment: the name in the attachment is not
      restored. */
  lemma {:induction false} RestoreTable(storage: map<int, Frame>, sockets: seq<(SocketId, Json)>)
    decreases |sockets|
    ensures var r := Restore(storage, sockets);
      && DistinctSockets(r.table)
      && (forall i :: 0 <= i < |r.table| ==> r.table[i].session == Fresh(r.table[i].session.limiterId))
      && (forall k :: 0 <= k < |r.table| ==>
            exists i :: 0 <= i < |sockets| && sockets[i].0 == r.table[k].socket && RestoredFrom(sockets[i], r.table[k].session))
  {
    if sockets != [] {
      var n := |sockets| - 1;
      var front := sockets[..n];
      RestoreTable(storage, front);
      var r0 := Restore(storage, front);
      var r := Restore(storage, sockets);
      assert r == RestoreOne(r0, sockets[n]);
      forall k | 0 <= k < |r.table|
        ensures exists i :: 0 <= i < |sockets| && sockets[i].0 == r.table[k].socket && RestoredFrom(sockets[i], r.table[k].session)
      {
        if RoomSchemas.ParseAttachment(sockets[n].1).Some? && r.table[k].socket == sockets[n].0 {
          assert RestoredFrom(sockets[n], r.table[k].session);
        } else {
          assert k < |r0.table| && r.table[k] == r0.table[k];
          var i :| 0 <= i < |front| && front[i].0 == r0.table[k].socket && RestoredFrom(front[i], r0.table[k].session);
          assert sockets[i] == front[i];
        }
      }
    }
  }

  /** Every socket whose attachment is valid is in the restored table.
      When the sockets are distinct, the table holds exactly those, each
      with the fresh session of its own attachment's `limiterId`. */
  lemma {:induction false} RestoreKeepsValid(storage: map<int, Frame>, sockets: seq<(SocketId, Json)>)
    decreases |sockets|
    ensures var r := Restore(storage, sockets);
      forall i :: 0 <= i < |sockets| && RoomSchemas.ParseAttachment(sockets[i].1).Some? ==>
        Lookup(r.table, sockets[i].0).Some?
    ensures var r := Restore(storage, sockets);
      DistinctIds(sockets) ==> forall i :: 0 <= i < |sockets| ==>
        Lookup(r.table, sockets[i].0) ==
          if RoomSchemas.ParseAttachment(sockets[i].1).Some?
          then Some(Fresh(RoomSchemas.ParseAttachment(sockets[i].1).value.limiterId))
          else None
  {
    ValidPresent(storage, sockets);
    RestoreTable(storage, sockets);
    if DistinctIds(sockets) {
      LookupRestored(sockets, Restore(storage, sockets).table);
    }
  }

  /** The induction behind the first half of `RestoreKeepsValid`. */
  lemma {:induction false} ValidPresent(storage: map<int, Frame>, sockets: seq<(SocketId, Json)>)
    decreases |sockets|
    ensures var r := Restore(storage, sockets);
      forall i :: 0 <= i < |sockets| && RoomSchemas.ParseAttachment(sockets[i].1).Some? ==>
        Lookup(r.table, sockets[i].0).Some?
  {
    if sockets != [] {
      var n := |sockets| - 1;
      var front := sockets[..n];
      ValidPresent(storage, front);
      var r0 := Restore(storage, front);
      var r := Restore(storage, sockets);
      assert r == RestoreOne(r0, sockets[n]);
      forall i | 0 <= i < |sockets| && RoomSchemas.ParseAttachment(sockets[i].1).Some?
        ensures Lookup(r.table, sockets[i].0).Some?
      {
        if i < n {
          assert sockets[i] == front[i];
          KeptByRestoreOne(r0, sockets[n], sockets[i].0);
        } else {
          AddedByRestoreOne(r0, sockets[n]);
        }
      }
    }
  }

  /** With distinct sockets, a table whose entries all come from valid
      attachments and which holds every valid socket maps each socket to
      its attachment's session, and lacks every invalid one. */
  lemma LookupRestored(sockets: seq<(SocketId, Json)>, table: seq<Entry>)
    requires DistinctIds(sockets) && DistinctSockets(table)
    requires forall k :: 0 <= k < |table| ==>
      exists i :: 0 <= i < |sockets| && sockets[i].0 == table[k].socket && RestoredFrom(sockets[i], table[k].session)
    requires forall i :: 0 <= i < |sockets| && RoomSchemas.ParseAttachment(sockets[i].1).Some? ==>
      Lookup(table, sockets[i].0).Some?
    ensures forall i :: 0 <= i < |sockets| ==>
      Lookup(table, sockets[i].0) ==
        if RoomSchemas.ParseAttachment(sockets[i].1).Some?
        then Some(Fresh(RoomSchemas.ParseAttachment(sockets[i].1).value.limiterId))
        else None
  {
    forall i | 0 <= i < |sockets|
      ensures Lookup(table, sockets[i].0) ==
        if RoomSchemas.ParseAttachment(sockets[i].1).Some?
        then Some(Fresh(RoomSchemas.ParseAttachment(sockets[i].1).value.limiterId))
        else None
    {
      if Lookup(table, sockets[i].0).Some? {
        var k :| 0 <= k < |table| && table[k].socket == sockets[i].0;
        var j :| 0 <= j < |sockets| && sockets[j].0 == table[k].socket && RestoredFrom(sockets[j], table[k].session);
        assert j == i;
      }
    }
  }

  /** A socket in the table stays there through one more restored socket. */
  lemma KeptByRestoreOne(r: Room, socket: (SocketId, Json), ws: SocketId)
    requires Lookup(r.table, ws).Some?
    ensures Lookup(RestoreOne(r, socket).table, ws).Some?
  {
    var j := IndexOf(r.table, ws).value;
    var t := RestoreOne(r, socket).table;
    if ws != socket.0 {
      assert j < |t| && t[j] == r.table[j];
    }
  }

  /** A socket with a valid attachment is in the table once restored. */
  lemma AddedByRestoreOne(r: Room, socket: (SocketId, Json))
    requires RoomSchemas.ParseAttachment(socket.1).Some?
    ensures Lookup(RestoreOne(r, socket).table, socket.0).Some?
  {
  }

  /** The restore sends nothing and closes with 1011 every socket whose
      attachment is not valid, and only such sockets; when the sockets are
      distinct, no socket with a valid attachment is closed. */
  lemma {:induction false} RestoreCloses(storage: map<int, Frame>, sockets: seq<(SocketId, Json)>)
    decreases |sockets|
    ensures var r := Restore(storage, sockets);
      && (forall x :: x in r.out ==> x.Close? && x.code == INTERNAL_ERROR && x.reason == RESTORE_FAILED)
      && (forall i :: 0 <= i < |sockets| && RoomSchemas.ParseAttachment(sockets[i].1).None? ==>
            Close(sockets[i].0, INTERNAL_ERROR, RESTORE_FAILED) in r.out)
      && (forall x :: x in r.out ==> exists i :: 0 <= i < |sockets| && FailedClose(sockets[i], x))
    ensures var r := Restore(storage, sockets);
      DistinctIds(sockets) ==> forall i :: 0 <= i < |sockets| && RoomSchemas.ParseAttachment(sockets[i].1).Some? ==>
        Close(sockets[i].0, INTERNAL_ERROR, RESTORE_FAILED) !in r.out
  {
    ClosesOfRestore(storage, sockets);
    ClosesNameInvalid(storage, sockets);
    if DistinctIds(sockets) {
      ValidNotClosed(sockets, Restore(storage, sockets).out);
    }
  }

  /** The induction behind the first half of `RestoreCloses`. */
  lemma {:induction false} ClosesOfRestore(storage: map<int, Frame>, sockets: seq<(SocketId, Json)>)
    decreases |sockets|
    ensures var r := Restore(storage, sockets);
      && (forall x :: x in r.out ==> x.Close? && x.code == INTERNAL_ERROR && x.reason == RESTORE_FAILED)
      && (forall i :: 0 <= i < |sockets| && RoomSchemas.ParseAttachment(sockets[i].1).None? ==>
            Close(sockets[i].0, INTERNAL_ERROR, RESTORE_FAILED) in r.out)
  {
    if sockets != [] {
      var n := |sockets| - 1;
      var front := sockets[..n];
      ClosesOfRestore(storage, front);
      var r0 := Restore(storage, front);
      var r := Restore(storage, sockets);
      assert r == RestoreOne(r0, sockets[n]);
      if RoomSchemas.ParseAttachment(sockets[n].1).Some? {
        assert r.out == r0.out;
      } else {
        assert r.out == r0.out + [Close(sockets[n].0, INTERNAL_ERROR, RESTORE_FAILED)];
      }
      forall i | 0 <= i < |sockets| && RoomSchemas.ParseAttachment(sockets[i].1).None?
        ensures Close(sockets[i].0, INTERNAL_ERROR, RESTORE_FAILED) in r.out
      {
        if i < n {
          assert sockets[i] == front[i];
        }
      }
    }
  }

  /** Each close of the restore names a socket whose attachment is not
      valid. */
  lemma ClosesNameInvalid(storage: map<int, Frame>, sockets: seq<(SocketId, Json)>)
    ensures var r := Restore(storage, sockets);
      forall x :: x in r.out ==>
        exists i :: 0 <= i < |sockets| && FailedClose(sockets[i], x)
  {
    forall x | x in Restore(storage, sockets).out
      ensures exists i :: 0 <= i < |sockets| && FailedClose(sockets[i], x)
    {
      CloseNamesInvalid(storage, sockets, x);
    }
  }

  /** One close of the restore and the socket it names. */
  lemma {:induction false} CloseNamesInvalid(storage: map<int, Frame>, sockets: seq<(SocketId, Json)>, x: Effect)
    requires x in Restore(storage, sockets).out
    ensures exists i :: 0 <= i < |sockets| && FailedClose(sockets[i], x)
    decreases |sockets|
  {
    var n := |sockets| - 1;
    var front := sockets[..n];
    var r0 := Restore(storage, front);
    assert Restore(storage, sockets) == RestoreOne(r0, sockets[n]);
    if x in r0.out {
      CloseNamesInvalid(storage, front, x);
      var i :| 0 <= i < |front| && FailedClose(front[i], x);
      assert sockets[i] == front[i];
    } else {
      assert FailedClose(sockets[n], x);
    }
  }

  /** `socket`'s attachment is not valid and `x` is the close it gets. */
  predicate FailedClose(socket: (SocketId, Json), x: Effect) {
    RoomSchemas.ParseAttachment(socket.1).None? && x == Close(socket.0, INTERNAL_ERROR, RESTORE_FAILED)
  }

  /** With distinct sockets, closes that each name a socket with an
      invalid attachment never name one with a valid attachment. */
  lemma ValidNotClosed(sockets: seq<(SocketId, Json)>, out: seq<Effect>)
    requires DistinctIds(sockets)
    requires forall x :: x in out ==> exists i :: 0 <= i < |sockets| && FailedClose(sockets[i], x)
    ensures forall i :: 0 <= i < |sockets| && RoomSchemas.ParseAttachment(sockets[i].1).Some? ==>
      Close(sockets[i].0, INTERNAL_ERROR, RESTORE_FAILED) !in out
  {
  }

  // ---- handleSession (ChatRoom.ts:77-109) ----

  /** A `{joined}` notice for each named session, in table order. */
  function JoinedNotices(table: seq<Entry>): (fs: seq<Frame>)
    ensures |fs| <= |table|
    ensures forall i :: 0 <= i < |fs| ==> fs[i].Joined?
    ensures forall e :: e in table && Named(e.session) ==> Joined(e.session.name.value) in fs
    ensures forall n :: Joined(n) in fs ==> exists e :: e in table && Named(e.session) && e.session.name.value == n
    decreases |table|
  {
    if table == [] then []
    else
      var e := table[|table| - 1];
      var front := table[..|table| - 1];
      assert table == front + [e];
      JoinedNotices(front) + if Named(e.session) then [Joined(e.session.name.value)] else []
  }

  /** Admission: the socket gets a fresh session whose hold queue is a
      `{joined}` notice for every named session and then the backlog. */
  function Admit(r: Room, ws: SocketId, limiterId: string): (a: Room)
    ensures Lookup(r.table, ws).None? ==>
      Lookup(a.table, ws) == Some(Session(limiterId, JoinedNotices(r.table) + Backlog(r.storage), None, false))
    ensures var s := Lookup(a.table, ws);
      && s.Some? && s.value.limiterId == limiterId && s.value.name.None? && !s.value.quit
      && |s.value.blocked| >= |Backlog(r.storage)|
      && s.value.blocked[|s.value.blocked| - |Backlog(r.storage)|..] == Backlog(r.storage)
    ensures forall i :: 0 <= i < |r.table| && r.table[i].socket != ws ==> i < |a.table| && a.table[i] == r.table[i]
    ensures Lookup(r.table, ws).None? ==> |a.table| == |r.table| + 1
    ensures DistinctSockets(r.table) ==> DistinctSockets(a.table)
    ensures a.lastTimestamp == r.lastTimestamp && a.storage == r.storage && a.out == r.out
  {
    var t := Put(r.table, ws, Fresh(limiterId));
    JoinedOfAppend(r.table, ws, Fresh(limiterId));
    var queue := JoinedNotices(t) + Backlog(r.storage);
    assert queue[|queue| - |Backlog(r.storage)|..] == Backlog(r.storage);
    r.(table := Put(t, ws, Session(limiterId, JoinedNotices(t) + Backlog(r.storage), None, false)))
  }

  /** Notices distribute over concatenation of tables; with
      `JoinedNoticesOne` this pins down one notice per named session, in
      table order. */
  lemma {:induction false} JoinedNoticesAppend(a: seq<Entry>, b: seq<Entry>)
    ensures JoinedNotices(a + b) == JoinedNotices(a) + JoinedNotices(b)
    decreases |b|
  {
    if b == [] {
      assert a + b == a;
    } else {
      var front := b[..|b| - 1];
      var e := b[|b| - 1];
      JoinedNoticesAppend(a, front);
      SplitLast(a, b);
      JoinedNoticesSnoc(a + front, e);
      JoinedNoticesSnoc(front, e);
      ConcatAssoc(JoinedNotices(a), JoinedNotices(front), NoticeOf(e));
    }
  }

  /** `b`'s last entry split off, before and after `a` is put in front. */
  lemma SplitLast(a: seq<Entry>, b: seq<Entry>)
    requires b != []
    ensures a + b == (a + b[..|b| - 1]) + [b[|b| - 1]]
    ensures b == b[..|b| - 1] + [b[|b| - 1]]
  {
  }

  /** The notice one entry contributes. */
  function NoticeOf(e: Entry): seq<Frame> {
    if Named(e.session) then [Joined(e.session.name.value)] else []
  }

  lemma JoinedNoticesSnoc(t: seq<Entry>, e: Entry)
    ensures JoinedNotices(t + [e]) == JoinedNotices(t) + NoticeOf(e)
  {
    assert (t + [e])[..|t|] == t;
  }

  lemma ConcatAssoc(x: seq<Frame>, y: seq<Frame>, z: seq<Frame>)
    ensures (x + y) + z == x + (y + z)
  {
  }

  /** One entry gives one notice exactly when its session is named. */
  lemma JoinedNoticesOne(e: Entry)
    ensures JoinedNotices([e]) == if Named(e.session) then [Joined(e.session.name.value)] else []
  {
    assert [e][..0] == [];
  }

  /** Appending an unnamed session adds no notice. */
  lemma JoinedOfAppend(table: seq<Entry>, ws: SocketId, s: Session)
    requires !Named(s)
    ensures Lookup(table, ws).None? ==> JoinedNotices(Put(table, ws, s)) == JoinedNotices(table)
  {
    if Lookup(table, ws).None? {
      assert Put(table, ws, s) == table + [Entry(ws, s)];
      assert (table + [Entry(ws, s)])[..|table|] == table;
    }
  }

  // ---- handleMessage and webSocketMessage (ChatRoom.ts:111-182) ----

  /** `validateOrThrow(chatMessageSchema, JSON.parse(msg))`, with the
      message of what it throws. */
  function Decode(raw: RawFrame): (d: Result<RoomSchemas.FrameData, string>)
    ensures raw.Unparseable? ==> d == Err(raw.syntaxError)
    ensures raw.Parsed? ==> (d.Ok? <==> RoomSchemas.ParseChatMessage(raw.json).Some?)
    ensures raw.Parsed? && d.Ok? ==> Some(d.value) == RoomSchemas.ParseChatMessage(raw.json)
    ensures raw.Parsed? && d.Err? ==> d.error == VALIDATION_FAILED
  {
    match raw
    case Unparseable(m) => Err(m)
    case Parsed(j) =>
      match RoomSchemas.ParseChatMessage(j)
      case Some(data) => Ok(data)
      case None => Err(VALIDATION_FAILED)
  }

  /** `String(userInfo.name || "anonymous")` */
  function ChosenName(info: RoomSchemas.UserInfo): (n: string)
    ensures n != ""
    ensures info.name.Some? && info.name.value != "" ==> n == info.name.value
    ensures info.name.None? || info.name.value == "" ==> n == ANONYMOUS
  {
    if info.name.Some? && info.name.value != "" then info.name.value else ANONYMOUS
  }

  /** The hold queue, sent in order to its socket (ChatRoom.ts:131-136). */
  function Flush(ws: SocketId, queue: seq<Frame>): (fx: seq<Effect>)
    ensures |fx| == |queue| && forall i :: 0 <= i < |queue| ==> fx[i] == Send(ws, queue[i])
  {
    seq(|queue|, i requires 0 <= i < |queue| => Send(ws, queue[i]))
  }

  /** `handleMessage` for the session at position `k`: the new state, and
      the message of the error it throws, if it throws. What it did before
      throwing stays done. */
  function HandleMessage(r: Room, k: nat, raw: RawFrame, now: int, broken: set<SocketId>, fault: Option<Fault>)
    : (res: (Room, Option<string>))
    requires k < |r.table|
    ensures res.0.lastTimestamp >= r.lastTimestamp
    ensures r.out <= res.0.out
    ensures res.0.storage == r.storage || (res.0.lastTimestamp > r.lastTimestamp && res.0.lastTimestamp >= now
      && res.0.lastTimestamp in res.0.storage && res.0.storage == r.storage[res.0.lastTimestamp := res.0.storage[res.0.lastTimestamp]])
  {
    var ws := r.table[k].socket;
    var s := r.table[k].session;
    match Decode(raw)
    case Err(m) => (r, Some(m))
    case Ok(data) =>
      if !Named(s) then
        match RoomSchemas.ParseUserInfo(RoomSchemas.DataToJson(data))
        case None => (r, Some(VALIDATION_FAILED))
        case Some(info) =>
          var name := ChosenName(info);
          var r1 := r.(table := Update(r.table, k, s.(name := Some(name))));
          if |name| > RoomSchemas.MAX_NAME_LENGTH then
            (r1.(out := r1.out + [Send(ws, Error(NAME_TOO_LONG)), Close(ws, MESSAGE_TOO_BIG, NAME_TOO_LONG)]), None)
          else
            (Join(r, k, name, broken), None)
      else if data.message.None? || data.message.value == "" then (r, Some(MESSAGE_REQUIRED))
      else
        Post(r, s.name.value, data.message.value, now, broken, fault)
  }

  /** A session's first frame once its name is accepted: the queued frames
      are flushed to it, everyone is told it joined, and it is sent `ready`
      (ChatRoom.ts:130-140). */
  function Join(r: Room, k: nat, name: string, broken: set<SocketId>): (j: Room)
    requires k < |r.table|
    ensures j.lastTimestamp == r.lastTimestamp && j.storage == r.storage
    ensures |j.table| <= |r.table|
    ensures r.out + Flush(r.table[k].socket, r.table[k].session.blocked) <= j.out
    ensures |j.out| > 0 && j.out[|j.out| - 1] == Send(r.table[k].socket, Ready)
  {
    var ws := r.table[k].socket;
    var s := r.table[k].session;
    var r2 := r.(table := Update(r.table, k, s.(name := Some(name), blocked := [])), out := r.out + Flush(ws, s.blocked));
    var r3 := Broadcast(r2, Joined(name), broken);
    r3.(out := r3.out + [Send(ws, Ready)])
  }

  /** A chat message from a named session: stamped, broadcast, then stored
      under its timestamp (ChatRoom.ts:148-163). */
  function Post(r: Room, name: string, message: string, now: int, broken: set<SocketId>, fault: Option<Fault>)
    : (res: (Room, Option<string>))
    ensures var ts := res.0.lastTimestamp;
      && ts > r.lastTimestamp && ts >= now
      && res.0.storage == (if fault.None? then r.storage[ts := Chat(name, message, ts)] else r.storage)
    ensures res.1.None? <==> fault.None?
    ensures res.1.Some? ==> res.1.value == FaultMessage(fault.value)
    ensures r.out <= res.0.out
  {
    var ts := Max(now, r.lastTimestamp + 1);
    var chat := Chat(name, message, ts);
    var r1 := Broadcast(r.(lastTimestamp := ts), chat, broken);
    match fault
    case Some(f) => (r1, Some(FaultMessage(f)))
    case None => (r1.(storage := r1.storage[ts := chat]), None)
  }

  /** `webSocketMessage`: frames from unknown sockets are ignored, a socket
      whose session is marked `quit` is closed, and anything thrown is
      reported to the sender as an `{error}` frame. */
  function OnMessage(r: Room, ws: SocketId, raw: RawFrame, now: int, broken: set<SocketId>, fault: Option<Fault>)
    : (r': Room)
    ensures IndexOf(r.table, ws).None? ==> r' == r
    ensures (match IndexOf(r.table, ws)
      case Some(k) => r.table[k].session.quit ==> r' == r.(out := r.out + [Close(ws, INTERNAL_ERROR, WEBSOCKET_BROKEN)])
      case None => true)
    ensures r'.lastTimestamp >= r.lastTimestamp
    ensures r.out <= r'.out
    ensures r'.storage == r.storage || (r'.lastTimestamp > r.lastTimestamp && r'.lastTimestamp >= now
      && r'.lastTimestamp in r'.storage && r'.storage == r.storage[r'.lastTimestamp := r'.storage[r'.lastTimestamp]])
  {
    match IndexOf(r.table, ws)
    case None => r
    case Some(k) =>
      if r.table[k].session.quit then r.(out := r.out + [Close(ws, INTERNAL_ERROR, WEBSOCKET_BROKEN)])
      else
        var (r1, thrown) := HandleMessage(r, k, raw, now, broken, fault);
        match thrown
        case Some(m) => r1.(out := r1.out + [Send(ws, Error(m))])
        case None => r1
  }
}
