/** The room coordinator itself (app/durable-objects/ChatRoom/ChatRoom.ts):
    a class whose fields are the session table, the timestamp watermark,
    the storage and the log of what it did to its sockets, and whose
    methods change them step by step as the source does. Each method is
    proved to leave the state that the matching function of `RoomSpec` or
    `RoomBroadcast` describes, so everything proved about those functions
    holds of the class. */
module ChatRoom {
  import opened Base
  import opened RoomFrames
  import opened RoomState
  import opened RoomBroadcast
  import opened History
  import opened RoomSpec
  import RoomSchemas

  class ChatRoom {
    var table: seq<Entry>
    var lastTimestamp: int
    var storage: map<int, Frame>
    var out: seq<Effect>

    function State(): Room
      reads this
    {
      Room(table, lastTimestamp, storage, out)
    }

    /** The constructor with `initializeWebSockets` (ChatRoom.ts:16-43):
        the table starts empty and the watermark at 0, and then each socket
        handed back after hibernation is restored or closed, in order. */
    constructor(storage0: map<int, Frame>, sockets: seq<(SocketId, Json)>)
      ensures State() == Restore(storage0, sockets)
    {
      table := [];
      lastTimestamp := 0;
      storage := storage0;
      out := [];
      new;
      var i := 0;
      while i < |sockets|
        invariant 0 <= i <= |sockets|
        invariant State() == Restore(storage0, sockets[..i])
      {
        var (ws, attachment) := sockets[i];
        RestoreStep(storage0, sockets, i);
        ghost var before := State();
        var meta := RoomSchemas.ParseAttachment(attachment);
        if meta.Some? {
          table := Put(table, ws, Fresh(meta.value.limiterId));
        } else {
          out := out + [Close(ws, INTERNAL_ERROR, RESTORE_FAILED)];
        }
        assert State() == RestoreOne(before, sockets[i]);
        i := i + 1;
      }
      assert sockets[..|sockets|] == sockets;
    }

    /** `handleSession` (ChatRoom.ts:77-109): the session is registered, a
        `{joined}` notice is queued for each named session in table order,
        and then the backlog is queued oldest first. */
    method HandleSession(ws: SocketId, limiterId: string)
      modifies this
      ensures State() == Admit(old(State()), ws, limiterId)
    {
      table := Put(table, ws, Fresh(limiterId));
      var queue := QueueJoined(table);
      queue := QueueAll(queue, Backlog(storage));
      AdmitSteps(old(State()), ws, limiterId, table, queue);
      table := Put(table, ws, Session(limiterId, queue, None, false));
    }

    /** `broadcast` (ChatRoom.ts:184-207): one pass over the table, then
        one `{quit}` broadcast per deleted named session. It recurses on a
        strictly smaller table. */
    method Broadcast(f: Frame, broken: set<SocketId>)
      modifies this
      ensures State() == RoomBroadcast.Broadcast(old(State()), f, broken)
      ensures |table| <= old(|table|)
      decreases |table|, 1
    {
      var quitters := Deliver(f, broken);
      ghost var r1 := State();
      BroadcastUnfold(old(State()), f, broken);
      var k := 0;
      while k < |quitters|
        invariant 0 <= k <= |quitters|
        invariant |table| <= |r1.table|
        invariant QuitAll(State(), quitters[k..], broken) == QuitAll(r1, quitters, broken)
      {
        QuitStep(State(), quitters, k, broken);
        if Named(quitters[k]) {
          Broadcast(Quit(quitters[k].name.value), broken);
        }
        k := k + 1;
      }
      assert quitters[|quitters|..] == [];
    }

    /** The loop of ChatRoom.ts:188-200: a named session is sent the frame,
        and if that throws it is marked `quit`, set aside and deleted; an
        unnamed session has the frame appended to its hold queue. */
    method Deliver(f: Frame, broken: set<SocketId>) returns (quitters: seq<Session>)
      modifies this
      ensures var p := Pass(old(table), f, broken);
        State() == old(State()).(table := p.kept, out := old(out) + p.sends) && quitters == p.quitters
      ensures |table| + |quitters| == old(|table|)
      decreases |table|, 0
    {
      var snapshot := table;
      var out0 := out;
      quitters := [];
      var pos := 0;
      var i := 0;
      PassStart(snapshot, f, broken, out0);
      while i < |snapshot|
        invariant 0 <= i <= |snapshot|
        invariant (table, out, quitters, pos) == PassState(snapshot, i, f, broken, out0)
        invariant lastTimestamp == old(lastTimestamp) && storage == old(storage)
      {
        PassAdvance(snapshot, i, f, broken, out0);
        quitters, pos := Visit(snapshot[i], pos, f, broken, quitters);
        i := i + 1;
      }
      PassDone(snapshot, f, broken, out0);
    }

    /** One iteration of that loop, for the entry `e` at position `pos`. */
    method Visit(e: Entry, pos: nat, f: Frame, broken: set<SocketId>, quitters: seq<Session>)
      returns (quitters': seq<Session>, pos': nat)
      requires pos < |table| && table[pos] == e
      modifies this
      ensures (table, out, quitters', pos') == VisitState((old(table), old(out), quitters, pos), e, f, broken)
      ensures lastTimestamp == old(lastTimestamp) && storage == old(storage)
    {
      quitters', pos' := quitters, pos + 1;
      if Named(e.session) {
        if e.socket in broken {
          quitters' := quitters + [e.session.(quit := true)];
          table := table[..pos] + table[pos + 1..];
          pos' := pos;
        } else {
          out := out + [Send(e.socket, f)];
        }
      } else {
        table := table[pos := Entry(e.socket, e.session.(blocked := e.session.blocked + [f]))];
      }
    }

    /** `handleMessage` (ChatRoom.ts:111-164) for the session at position
        `k`, returning the message of what it throws, if anything. */
    method HandleMessage(k: nat, raw: RawFrame, now: int, broken: set<SocketId>, fault: Option<Fault>)
      returns (thrown: Option<string>)
      requires k < |table|
      modifies this
      ensures (State(), thrown) == RoomSpec.HandleMessage(old(State()), k, raw, now, broken, fault)
    {
      var ws := table[k].socket;
      var s := table[k].session;
      var decoded := Decode(raw);
      if decoded.Err? {
        return Some(decoded.error);
      }
      var data := decoded.value;
      if !Named(s) {
        var userInfo := RoomSchemas.ParseUserInfo(RoomSchemas.DataToJson(data));
        if userInfo.None? {
          return Some(VALIDATION_FAILED);
        }
        var name := ChosenName(userInfo.value);
        if |name| > RoomSchemas.MAX_NAME_LENGTH {
          // The "name too long" close of ChatRoom.ts:124-128: `userInfoSchema`
          // has already rejected every name over 32 characters.
          assert false;
        }
        Join(k, name, broken);
        return None;
      }
      if data.message.None? || data.message.value == "" {
        return Some(MESSAGE_REQUIRED);
      }
      thrown := Post(s.name.value, data.message.value, now, broken, fault);
    }

    /** The accepted first frame: the session is named, its queue flushed
        and emptied, and the join announced (ChatRoom.ts:117, 130-140). */
    method Join(k: nat, name: string, broken: set<SocketId>)
      requires k < |table|
      modifies this
      ensures State() == RoomSpec.Join(old(State()), k, name, broken)
    {
      var ws := table[k].socket;
      var s := table[k].session;
      table := Update(table, k, s.(name := Some(name)));
      var sends := SendAll(ws, s.blocked);
      out := out + sends;
      assert Update(table, k, s.(name := Some(name), blocked := [])) == Update(old(table), k, s.(name := Some(name), blocked := []));
      table := Update(table, k, s.(name := Some(name), blocked := []));
      Broadcast(Joined(name), broken);
      out := out + [Send(ws, Ready)];
    }

    /** A chat message from a named session (ChatRoom.ts:148-163). */
    method Post(name: string, message: string, now: int, broken: set<SocketId>, fault: Option<Fault>)
      returns (thrown: Option<string>)
      modifies this
      ensures (State(), thrown) == RoomSpec.Post(old(State()), name, message, now, broken, fault)
    {
      var timestamp := Max(now, lastTimestamp + 1);
      var chat := Chat(name, message, timestamp);
      lastTimestamp := timestamp;
      Broadcast(chat, broken);
      if fault.Some? {
        return Some(FaultMessage(fault.value));
      }
      storage := storage[timestamp := chat];
      return None;
    }

    /** `webSocketMessage` (ChatRoom.ts:166-182). */
    method WebSocketMessage(ws: SocketId, raw: RawFrame, now: int, broken: set<SocketId>, fault: Option<Fault>)
      modifies this
      ensures State() == OnMessage(old(State()), ws, raw, now, broken, fault)
    {
      var k := IndexOf(table, ws);
      if k.None? {
        return;
      }
      if table[k.value].session.quit {
        out := out + [Close(ws, INTERNAL_ERROR, WEBSOCKET_BROKEN)];
        return;
      }
      var thrown := HandleMessage(k.value, raw, now, broken, fault);
      if thrown.Some? {
        out := out + [Send(ws, Error(thrown.value))];
      }
    }
  }

  /** The loop of ChatRoom.ts:91-96: a `{joined}` notice for each named
      session, in table order. */
  method QueueJoined(table: seq<Entry>) returns (queue: seq<Frame>)
    ensures queue == JoinedNotices(table)
  {
    queue := [];
    var i := 0;
    while i < |table|
      invariant 0 <= i <= |table|
      invariant queue == JoinedNotices(table[..i])
    {
      JoinedStep(table, i);
      if Named(table[i].session) {
        queue := queue + [Joined(table[i].session.name.value)];
      }
      i := i + 1;
    }
    assert table[..|table|] == table;
  }

  /** The `forEach` of ChatRoom.ts:106-108: each backlog frame pushed onto
      the queue in order. */
  method QueueAll(queue: seq<Frame>, backlog: seq<Frame>) returns (queue': seq<Frame>)
    ensures queue' == queue + backlog
  {
    queue' := queue;
    var j := 0;
    while j < |backlog|
      invariant 0 <= j <= |backlog|
      invariant queue' == queue + backlog[..j]
    {
      PrefixSnoc(queue, backlog, j);
      queue' := queue' + [backlog[j]];
      j := j + 1;
    }
    PrefixSnoc(queue, backlog, |backlog|);
  }

  /** The `forEach` of ChatRoom.ts:132-134: each held frame sent to the
      socket in order. */
  method SendAll(ws: SocketId, held: seq<Frame>) returns (sends: seq<Effect>)
    ensures sends == Flush(ws, held)
  {
    sends := [];
    var j := 0;
    while j < |held|
      invariant 0 <= j <= |held|
      invariant sends == Flush(ws, held[..j])
    {
      assert Flush(ws, held[..j + 1]) == Flush(ws, held[..j]) + [Send(ws, held[j])];
      sends := sends + [Send(ws, held[j])];
      j := j + 1;
    }
    assert held[..|held|] == held;
  }

  lemma RestoreStep(storage: map<int, Frame>, sockets: seq<(SocketId, Json)>, i: nat)
    requires i < |sockets|
    ensures Restore(storage, sockets[..i + 1]) == RestoreOne(Restore(storage, sockets[..i]), sockets[i])
  {
    assert sockets[..i + 1][..i] == sockets[..i];
  }

  lemma BroadcastUnfold(r: Room, f: Frame, broken: set<SocketId>)
    ensures var p := Pass(r.table, f, broken);
      Broadcast(r, f, broken) == QuitAll(r.(table := p.kept, out := r.out + p.sends), p.quitters, broken)
  {
  }

  /** One step of the quit loop of ChatRoom.ts:202-206. */
  lemma QuitStep(r: Room, quitters: seq<Session>, k: nat, broken: set<SocketId>)
    requires k < |quitters|
    ensures QuitAll(r, quitters[k..], broken) == QuitAll(
      if Named(quitters[k]) then Broadcast(r, Quit(quitters[k].name.value), broken) else r,
      quitters[k + 1..], broken)
  {
    assert quitters[k..][0] == quitters[k] && quitters[k..][1..] == quitters[k + 1..];
  }

  /** Where the pass loop of `broadcast` stands after `i` entries: the
      table (the entries kept so far, then the ones still to visit), the
      log, the set-aside sessions and the position of the next entry. */
  ghost function PassState(snapshot: seq<Entry>, i: nat, f: Frame, broken: set<SocketId>, out0: seq<Effect>)
    : (seq<Entry>, seq<Effect>, seq<Session>, nat)
    requires i <= |snapshot|
  {
    var p := Pass(snapshot[..i], f, broken);
    (p.kept + snapshot[i..], out0 + p.sends, p.quitters, |p.kept|)
  }

  /** The loop state after visiting the entry `e` at position `pos`. */
  ghost function VisitState(st: (seq<Entry>, seq<Effect>, seq<Session>, nat), e: Entry, f: Frame, broken: set<SocketId>)
    : (seq<Entry>, seq<Effect>, seq<Session>, nat)
    requires st.3 < |st.0|
  {
    var (t, o, q, pos) := st;
    if Named(e.session) then
      if e.socket in broken then (t[..pos] + t[pos + 1..], o, q + [e.session.(quit := true)], pos)
      else (t, o + [Send(e.socket, f)], q, pos + 1)
    else (t[pos := Entry(e.socket, e.session.(blocked := e.session.blocked + [f]))], o, q, pos + 1)
  }

  /** One step of the pass loop. */
  lemma PassAdvance(snapshot: seq<Entry>, i: nat, f: Frame, broken: set<SocketId>, out0: seq<Effect>)
    requires i < |snapshot|
    ensures var st := PassState(snapshot, i, f, broken, out0);
      && st.3 < |st.0| && st.0[st.3] == snapshot[i]
      && PassState(snapshot, i + 1, f, broken, out0) == VisitState(st, snapshot[i], f, broken)
  {
    assert snapshot[..i + 1][..i] == snapshot[..i];
    var p := Pass(snapshot[..i], f, broken);
    var kept := p.kept;
    var t := kept + snapshot[i..];
    assert t[..|kept|] == kept;
    assert t[|kept| + 1..] == snapshot[i + 1..];
    assert t == (kept + [snapshot[i]]) + snapshot[i + 1..];
    var e := snapshot[i];
    var x := Entry(e.socket, e.session.(blocked := e.session.blocked + [f]));
    assert t[|kept| := x] == (kept + [x]) + snapshot[i + 1..];
    assert out0 + p.sends + [Send(e.socket, f)] == out0 + (p.sends + [Send(e.socket, f)]);
  }

  lemma PassStart(snapshot: seq<Entry>, f: Frame, broken: set<SocketId>, out0: seq<Effect>)
    ensures PassState(snapshot, 0, f, broken, out0) == (snapshot, out0, [], 0)
  {
    assert snapshot[..0] == [] && snapshot[0..] == snapshot;
    assert [] + snapshot == snapshot && out0 + [] == out0;
  }

  /** After the pass loop: the table and log the whole pass gives. */
  lemma PassDone(snapshot: seq<Entry>, f: Frame, broken: set<SocketId>, out0: seq<Effect>)
    ensures var p := Pass(snapshot, f, broken);
      PassState(snapshot, |snapshot|, f, broken, out0) == (p.kept, out0 + p.sends, p.quitters, |p.kept|)
  {
    assert snapshot[..|snapshot|] == snapshot && snapshot[|snapshot|..] == [];
    assert Pass(snapshot, f, broken).kept + [] == Pass(snapshot, f, broken).kept;
  }

  lemma JoinedStep(table: seq<Entry>, i: nat)
    requires i < |table|
    ensures JoinedNotices(table[..i + 1]) == JoinedNotices(table[..i])
      + if Named(table[i].session) then [Joined(table[i].session.name.value)] else []
  {
    assert table[..i + 1][..i] == table[..i];
  }

  /** `Admit` as the three steps of `handleSession`. */
  lemma AdmitSteps(r: Room, ws: SocketId, limiterId: string, t: seq<Entry>, queue: seq<Frame>)
    requires t == Put(r.table, ws, Fresh(limiterId))
    requires queue == JoinedNotices(t) + Backlog(r.storage)
    ensures Admit(r, ws, limiterId) == r.(table := Put(t, ws, Session(limiterId, queue, None, false)))
  {
  }

  lemma PrefixSnoc(a: seq<Frame>, s: seq<Frame>, j: nat)
    requires j <= |s|
    ensures j < |s| ==> a + s[..j] + [s[j]] == a + s[..j + 1]
    ensures j == |s| ==> a + s[..j] == a + s
  {
    if j < |s| {
      assert s[..j + 1] == s[..j] + [s[j]];
    } else {
      assert s[..j] == s;
    }
  }
}
