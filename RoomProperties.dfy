/** What handling one frame does, case by case
    (app/durable-objects/ChatRoom/ChatRoom.ts:111-182), stated with the
    closed form of a broadcast. */
module RoomProperties {
  import opened Base
  import opened RoomFrames
  import opened RoomState
  import opened RoomBroadcast
  import opened RoomSpec
  import RoomSchemas

  /** The frames sent to one socket, in order. */
  function SentTo(effects: seq<Effect>, ws: SocketId): (fs: seq<Frame>)
    ensures |fs| <= |effects|
    decreases |effects|
  {
    if effects == [] then []
    else
      var x := effects[|effects| - 1];
      SentTo(effects[..|effects| - 1], ws) + if x.Send? && x.to == ws then [x.frame] else []
  }

  lemma {:induction false} SentToAppend(a: seq<Effect>, b: seq<Effect>, ws: SocketId)
    decreases |b|
    ensures SentTo(a + b, ws) == SentTo(a, ws) + SentTo(b, ws)
  {
    if b == [] {
      assert a + b == a;
    } else {
      var n := |b| - 1;
      assert (a + b)[..|a + b| - 1] == a + b[..n];
      SentToAppend(a, b[..n], ws);
    }
  }

  lemma {:induction false} SentToFlush(ws: SocketId, queue: seq<Frame>)
    decreases |queue|
    ensures SentTo(Flush(ws, queue), ws) == queue
  {
    if queue != [] {
      var n := |queue| - 1;
      assert Flush(ws, queue)[..n] == Flush(ws, queue[..n]);
      SentToFlush(ws, queue[..n]);
    }
  }

  /** In a failure-free fan-out a named socket that is in the table once
      gets the frame once, and a socket not in the table gets nothing. */
  lemma {:induction false} SentToDeliveries(table: seq<Entry>, ws: SocketId, f: Frame)
    requires DistinctSockets(table)
    decreases |table|
    ensures Lookup(table, ws).None? ==> SentTo(Deliveries(table, f), ws) == []
    ensures Lookup(table, ws).Some? && Named(Lookup(table, ws).value) ==> SentTo(Deliveries(table, f), ws) == [f]
    ensures Lookup(table, ws).Some? && !Named(Lookup(table, ws).value) ==> SentTo(Deliveries(table, f), ws) == []
  {
    if table != [] {
      var front := table[..|table| - 1];
      assert DistinctSockets(front);
      SentToDeliveries(front, ws, f);
      SentToLast(table, ws, f);
      LookupLast(table, ws);
    }
  }

  /** What the last entry adds to the deliveries one socket sees. */
  lemma SentToLast(table: seq<Entry>, ws: SocketId, f: Frame)
    requires table != []
    ensures var e := table[|table| - 1];
      SentTo(Deliveries(table, f), ws) == SentTo(Deliveries(table[..|table| - 1], f), ws)
        + if Named(e.session) && e.socket == ws then [f] else []
  {
    var e := table[|table| - 1];
    var front := table[..|table| - 1];
    var tail := if Named(e.session) then [Send(e.socket, f)] else [];
    SentToAppend(Deliveries(front, f), tail, ws);
    assert tail == [] || tail[..0] == [];
  }

  /** Looking a socket up in a table with one more entry at the end. */
  lemma LookupLast(table: seq<Entry>, ws: SocketId)
    requires table != [] && DistinctSockets(table)
    ensures var e := table[|table| - 1];
      var front := table[..|table| - 1];
      && (e.socket == ws ==> Lookup(front, ws).None? && Lookup(table, ws) == Some(e.session))
      && (e.socket != ws ==> Lookup(table, ws) == Lookup(front, ws))
  {
    var n := |table| - 1;
    var e := table[n];
    var front := table[..n];
    if e.socket == ws {
      assert Lookup(front, ws).None? by {
        forall i | 0 <= i < |front| ensures front[i].socket != ws {
          assert table[i].socket != table[n].socket;
        }
      }
    } else if Lookup(table, ws).Some? {
      var i := IndexOf(table, ws).value;
      assert i < n;
      assert Lookup(front, ws) == Some(front[i].session);
    } else {
      assert forall i :: 0 <= i < |front| ==> front[i] == table[i];
    }
  }

  /** An accepted chat message (ChatRoom.ts:144-163): its timestamp is
      `max(now, lastTimestamp + 1)`, so later than every earlier one and not
      before now; it becomes the watermark; the one frame is broadcast and,
      unless the write is rejected, stored under that timestamp. A rejected
      write is reported to the sender after the broadcast, and nothing is
      undone. */
  lemma ChatAccepted(r: Room, ws: SocketId, raw: RawFrame, now: int, broken: set<SocketId>, fault: Option<Fault>)
    requires IndexOf(r.table, ws).Some?
    requires var s := r.table[IndexOf(r.table, ws).value].session; Named(s) && !s.quit
    requires Decode(raw).Ok? && Decode(raw).value.message.Some? && Decode(raw).value.message.value != ""
    ensures var s := r.table[IndexOf(r.table, ws).value].session;
      var ts := Max(now, r.lastTimestamp + 1);
      var chat := Chat(s.name.value, Decode(raw).value.message.value, ts);
      var live := Live(r.table, broken);
      var notices := QuitFrames(Failed(r.table, broken));
      var r' := OnMessage(r, ws, raw, now, broken, fault);
      && ts > r.lastTimestamp && ts >= now
      && r'.lastTimestamp == ts
      && r'.table == Enqueue(live, [chat] + notices)
      && r'.storage == (if fault.None? then r.storage[ts := chat] else r.storage)
      && r'.out == r.out + Fanout(live, [chat] + notices)
        + (if fault.None? then [] else [Send(ws, Error(FaultMessage(fault.value)))])
  {
    var s := r.table[IndexOf(r.table, ws).value].session;
    OnMessageIsPost(r, ws, raw, now, broken, fault);
    PostReported(r, ws, s.name.value, Decode(raw).value.message.value, now, broken, fault,
      OnMessage(r, ws, raw, now, broken, fault));
  }

  /** The room after a post whose thrown message, if any, is sent to `ws`. */
  lemma PostReported(r: Room, ws: SocketId, name: string, message: string, now: int, broken: set<SocketId>,
      fault: Option<Fault>, r': Room)
    requires var res := Post(r, name, message, now, broken, fault);
      r' == if res.1.Some? then res.0.(out := res.0.out + [Send(ws, Error(res.1.value))]) else res.0
    ensures var ts := Max(now, r.lastTimestamp + 1);
      var chat := Chat(name, message, ts);
      var live := Live(r.table, broken);
      var notices := QuitFrames(Failed(r.table, broken));
      && r'.lastTimestamp == ts
      && r'.table == Enqueue(live, [chat] + notices)
      && r'.storage == (if fault.None? then r.storage[ts := chat] else r.storage)
      && r'.out == r.out + Fanout(live, [chat] + notices)
        + (if fault.None? then [] else [Send(ws, Error(FaultMessage(fault.value)))])
  {
    PostClosedForm(r, name, message, now, broken, fault);
  }

  /** The frame of a named, live session carrying a message is posted, and
      what the post throws is sent back as an `{error}` frame. */
  lemma OnMessageIsPost(r: Room, ws: SocketId, raw: RawFrame, now: int, broken: set<SocketId>, fault: Option<Fault>)
    requires IndexOf(r.table, ws).Some?
    requires var s := r.table[IndexOf(r.table, ws).value].session; Named(s) && !s.quit
    requires Decode(raw).Ok? && Decode(raw).value.message.Some? && Decode(raw).value.message.value != ""
    ensures var res := Post(r, r.table[IndexOf(r.table, ws).value].session.name.value,
        Decode(raw).value.message.value, now, broken, fault);
      OnMessage(r, ws, raw, now, broken, fault)
        == if res.1.Some? then res.0.(out := res.0.out + [Send(ws, Error(res.1.value))]) else res.0
  {
    HandleIsPost(r, IndexOf(r.table, ws).value, raw, now, broken, fault);
  }

  /** A well-formed message from a named session is handled as a post. */
  lemma HandleIsPost(r: Room, k: nat, raw: RawFrame, now: int, broken: set<SocketId>, fault: Option<Fault>)
    requires k < |r.table| && Named(r.table[k].session)
    requires Decode(raw).Ok? && Decode(raw).value.message.Some? && Decode(raw).value.message.value != ""
    ensures HandleMessage(r, k, raw, now, broken, fault)
      == Post(r, r.table[k].session.name.value, Decode(raw).value.message.value, now, broken, fault)
  {
  }

  /** What posting a chat message does, in closed form. */
  lemma PostClosedForm(r: Room, name: string, message: string, now: int, broken: set<SocketId>, fault: Option<Fault>)
    ensures var ts := Max(now, r.lastTimestamp + 1);
      var chat := Chat(name, message, ts);
      var live := Live(r.table, broken);
      var notices := QuitFrames(Failed(r.table, broken));
      var res := Post(r, name, message, now, broken, fault);
      && res.0.lastTimestamp == ts
      && res.0.table == Enqueue(live, [chat] + notices)
      && res.0.storage == (if fault.None? then r.storage[ts := chat] else r.storage)
      && res.0.out == r.out + Fanout(live, [chat] + notices)
      && res.1 == (if fault.None? then None else Some(FaultMessage(fault.value)))
  {
    var ts := Max(now, r.lastTimestamp + 1);
    BroadcastClosedForm(r.(lastTimestamp := ts), Chat(name, message, ts), broken);
  }

  /** The first valid frame of an unnamed session (ChatRoom.ts:114-140):
      the session takes the name given, or "anonymous" when that is absent
      or empty; its hold queue is sent to it in order and emptied; its
      `{joined}` is broadcast, which now reaches it too; and then it is sent
      `{ready: true}`. The name is never over 32 characters, so the close
      of ChatRoom.ts:124-128 does not happen. */
  lemma FirstFrame(r: Room, ws: SocketId, raw: RawFrame, now: int, broken: set<SocketId>, fault: Option<Fault>)
    requires IndexOf(r.table, ws).Some?
    requires var s := r.table[IndexOf(r.table, ws).value].session; !Named(s) && !s.quit
    requires Decode(raw).Ok?
    requires RoomSchemas.ParseUserInfo(RoomSchemas.DataToJson(Decode(raw).value)).Some?
    ensures var k := IndexOf(r.table, ws).value;
      var s := r.table[k].session;
      var name := ChosenName(RoomSchemas.ParseUserInfo(RoomSchemas.DataToJson(Decode(raw).value)).value);
      var named := Update(r.table, k, s.(name := Some(name), blocked := []));
      var live := Live(named, broken);
      var notices := QuitFrames(Failed(named, broken));
      && 1 <= |name| <= RoomSchemas.MAX_NAME_LENGTH
      && OnMessage(r, ws, raw, now, broken, fault) == r.(
        table := Enqueue(live, [Joined(name)] + notices),
        out := r.out + Flush(ws, s.blocked) + Fanout(live, [Joined(name)] + notices) + [Send(ws, Ready)])
  {
    var k := IndexOf(r.table, ws).value;
    var s := r.table[k].session;
    var name := ChosenName(RoomSchemas.ParseUserInfo(RoomSchemas.DataToJson(Decode(raw).value)).value);
    var named := Update(r.table, k, s.(name := Some(name), blocked := []));
    BroadcastClosedForm(r.(table := named, out := r.out + Flush(ws, s.blocked)), Joined(name), broken);
  }

  /** When no send fails, what the new session is sent by its first frame
      is exactly its held frames, then its own `{joined}`, then `{ready}`. */
  lemma FirstFrameSenderView(r: Room, ws: SocketId, raw: RawFrame, now: int, fault: Option<Fault>)
    requires DistinctSockets(r.table)
    requires IndexOf(r.table, ws).Some?
    requires var s := r.table[IndexOf(r.table, ws).value].session; !Named(s) && !s.quit
    requires Decode(raw).Ok?
    requires RoomSchemas.ParseUserInfo(RoomSchemas.DataToJson(Decode(raw).value)).Some?
    ensures var k := IndexOf(r.table, ws).value;
      var name := ChosenName(RoomSchemas.ParseUserInfo(RoomSchemas.DataToJson(Decode(raw).value)).value);
      var r' := OnMessage(r, ws, raw, now, {}, fault);
      && r'.out[..|r.out|] == r.out
      && SentTo(r'.out[|r.out|..], ws) == r.table[k].session.blocked + [Joined(name), Ready]
  {
    var k := IndexOf(r.table, ws).value;
    var s := r.table[k].session;
    var name := ChosenName(RoomSchemas.ParseUserInfo(RoomSchemas.DataToJson(Decode(raw).value)).value);
    var named := Update(r.table, k, s.(name := Some(name), blocked := []));
    FirstFrame(r, ws, raw, now, {}, fault);
    FirstFrameDelta(r.out, named, k, ws, s.blocked, name);
  }

  /** The arithmetic of `FirstFrameSenderView`, apart from the decoding. */
  lemma FirstFrameDelta(out: seq<Effect>, named: seq<Entry>, k: nat, ws: SocketId, held: seq<Frame>, name: string)
    requires DistinctSockets(named) && k < |named| && named[k].socket == ws && Named(named[k].session)
    ensures var live := Live(named, {});
      var notices := QuitFrames(Failed(named, {}));
      var out' := out + Flush(ws, held) + Fanout(live, [Joined(name)] + notices) + [Send(ws, Ready)];
      && out'[..|out|] == out
      && SentTo(out'[|out|..], ws) == held + [Joined(name), Ready]
  {
    FanoutWhenNoneBroken(named, Joined(name));
    var fan := Deliveries(named, Joined(name));
    Split3(out, Flush(ws, held), fan, [Send(ws, Ready)]);
    SentToFirstFrame(named, k, ws, held, name);
  }

  lemma Split3<T>(out: seq<T>, a: seq<T>, b: seq<T>, c: seq<T>)
    ensures (out + a + b + c)[..|out|] == out
    ensures (out + a + b + c)[|out|..] == a + b + c
  {
    assert out + a + b + c == out + (a + b + c);
  }

  lemma FanoutWhenNoneBroken(named: seq<Entry>, f: Frame)
    ensures Fanout(Live(named, {}), [f] + QuitFrames(Failed(named, {}))) == Deliveries(named, f)
  {
    LiveWhenNoneBroken(named, {});
    QuitFramesEmpty();
    assert [f] + [] == [f];
    FanoutCons(named, f, []);
  }

  lemma SentToFirstFrame(named: seq<Entry>, k: nat, ws: SocketId, held: seq<Frame>, name: string)
    requires DistinctSockets(named) && k < |named| && named[k].socket == ws && Named(named[k].session)
    ensures SentTo(Flush(ws, held) + Deliveries(named, Joined(name)) + [Send(ws, Ready)], ws)
      == held + [Joined(name), Ready]
  {
    var fan := Deliveries(named, Joined(name));
    assert Lookup(named, ws) == Some(named[k].session);
    SentToDeliveries(named, ws, Joined(name));
    SentToAppend(Flush(ws, held) + fan, [Send(ws, Ready)], ws);
    SentToAppend(Flush(ws, held), fan, ws);
    SentToFlush(ws, held);
    assert SentTo([Send(ws, Ready)], ws) == [Ready] by {
      assert [Send(ws, Ready)][..0] == [];
    }
  }

  lemma QuitFramesEmpty()
    ensures QuitFrames([]) == []
  {
  }

  /** A first frame whose name is over 32 characters fails `userInfoSchema`
      (schemas.ts:14) before any name is set: the sender gets one
      "Validation failed" error, the socket stays open and unnamed, and
      nothing else happens. */
  lemma LongNameRejected(r: Room, ws: SocketId, raw: RawFrame, now: int, broken: set<SocketId>, fault: Option<Fault>)
    requires IndexOf(r.table, ws).Some?
    requires var s := r.table[IndexOf(r.table, ws).value].session; !Named(s) && !s.quit
    requires Decode(raw).Ok? && Decode(raw).value.name.Some?
    requires |Decode(raw).value.name.value| > RoomSchemas.MAX_NAME_LENGTH
    ensures OnMessage(r, ws, raw, now, broken, fault) == r.(out := r.out + [Send(ws, Error(VALIDATION_FAILED))])
  {
    RoomSchemas.UserInfoOfFrame(Decode(raw).value);
  }

  /** A later frame without a message, or with an empty one
      (ChatRoom.ts:144-146): one "Message is required" error to the sender,
      nothing broadcast, the watermark unchanged. */
  lemma MessageRequired(r: Room, ws: SocketId, raw: RawFrame, now: int, broken: set<SocketId>, fault: Option<Fault>)
    requires IndexOf(r.table, ws).Some?
    requires var s := r.table[IndexOf(r.table, ws).value].session; Named(s) && !s.quit
    requires Decode(raw).Ok? && (Decode(raw).value.message.None? || Decode(raw).value.message.value == "")
    ensures OnMessage(r, ws, raw, now, broken, fault) == r.(out := r.out + [Send(ws, Error(MESSAGE_REQUIRED))])
  {
  }

  /** A frame that is not JSON, or that fails `chatMessageSchema` (a
      message over 256 characters, say), is answered with one error frame
      carrying the thrown message, whatever state the session is in. */
  lemma InvalidFrameRejected(r: Room, ws: SocketId, raw: RawFrame, now: int, broken: set<SocketId>, fault: Option<Fault>)
    requires IndexOf(r.table, ws).Some? && !r.table[IndexOf(r.table, ws).value].session.quit
    requires Decode(raw).Err?
    ensures OnMessage(r, ws, raw, now, broken, fault) == r.(out := r.out + [Send(ws, Error(Decode(raw).error))])
    ensures raw.Parsed? ==> Decode(raw).error == VALIDATION_FAILED
  {
  }

  /** In particular, a message over 256 characters. */
  lemma OverlongMessageRejected(r: Room, ws: SocketId, fields: map<string, Json>, now: int, broken: set<SocketId>, fault: Option<Fault>)
    requires IndexOf(r.table, ws).Some? && !r.table[IndexOf(r.table, ws).value].session.quit
    requires "message" in fields && fields["message"].JStr? && |fields["message"].s| > RoomSchemas.MAX_MESSAGE_LENGTH
    ensures OnMessage(r, ws, Parsed(JObj(fields)), now, broken, fault)
      == r.(out := r.out + [Send(ws, Error(VALIDATION_FAILED))])
  {
    InvalidFrameRejected(r, ws, Parsed(JObj(fields)), now, broken, fault);
  }
}
