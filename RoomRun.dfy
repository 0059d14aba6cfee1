/** The room over a sequence of events from its restore: what stays true of
    its table, its effects and its storage
    (app/durable-objects/ChatRoom/ChatRoom.ts:26-182). */
module RoomRun {
  import opened Base
  import opened RoomFrames
  import opened RoomState
  import opened RoomBroadcast
  import opened RoomSpec
  import RoomSchemas
  import RoomProperties

  /** What the room reacts to: a new connection, or one text frame from a
      socket together with the clock, the sockets whose sends throw during
      its broadcasts, and whether its storage write is rejected. */
  datatype Event =
    | Connect(ws: SocketId, limiterId: string)
    | Receive(ws: SocketId, raw: RawFrame, now: int, broken: set<SocketId>, fault: Option<Fault>)

  function Apply(r: Room, e: Event): Room {
    match e
    case Connect(ws, id) => Admit(r, ws, id)
    case Receive(ws, raw, now, broken, fault) => OnMessage(r, ws, raw, now, broken, fault)
  }

  function Run(r: Room, events: seq<Event>): Room
    decreases |events|
  {
    if events == [] then r else Run(Apply(r, events[0]), events[1..])
  }

  /** The table has one entry per socket, no session in it is marked
      `quit`, and every name in it is non-empty and at most 32
      characters. */
  predicate TableInv(table: seq<Entry>) {
    && DistinctSockets(table)
    && (forall i :: 0 <= i < |table| ==> !table[i].session.quit)
    && (forall i :: 0 <= i < |table| && table[i].session.name.Some? ==>
          table[i].session.name.value != "" && |table[i].session.name.value| <= RoomSchemas.MAX_NAME_LENGTH)
  }

  predicate Inv(r: Room) {
    TableInv(r.table)
  }

  /** Only the failed restores of ChatRoom.ts:38-41 close a socket. */
  predicate OnlyRestoreCloses(out: seq<Effect>) {
    forall i :: 0 <= i < |out| && out[i].Close? ==>
      out[i].code == INTERNAL_ERROR && out[i].reason == RESTORE_FAILED
  }

  // ---- Preservation ----

  lemma RestoreInv(storage: map<int, Frame>, sockets: seq<(SocketId, Json)>)
    ensures Inv(Restore(storage, sockets)) && OnlyRestoreCloses(Restore(storage, sockets).out)
  {
    var r := Restore(storage, sockets);
    RestoreTable(storage, sockets);
    RestoreCloses(storage, sockets);
    assert forall i :: 0 <= i < |r.out| ==> r.out[i] in r.out;
  }

  lemma AdmitInv(r: Room, ws: SocketId, limiterId: string)
    requires Inv(r)
    ensures Inv(Admit(r, ws, limiterId)) && Admit(r, ws, limiterId).out == r.out
  {
    var a := Admit(r, ws, limiterId);
    forall i | 0 <= i < |a.table|
      ensures !a.table[i].session.quit
      ensures a.table[i].session.name.Some? ==>
        a.table[i].session.name.value != "" && |a.table[i].session.name.value| <= RoomSchemas.MAX_NAME_LENGTH
    {
      if a.table[i].socket == ws {
        assert Lookup(a.table, ws) == Some(a.table[i].session);
      } else {
        AdmitKeeps(r, ws, limiterId, i);
      }
    }
  }

  /** Every entry of the new table other than the admitted socket's was in
      the old one. */
  lemma AdmitKeeps(r: Room, ws: SocketId, limiterId: string, i: nat)
    requires DistinctSockets(r.table)
    requires i < |Admit(r, ws, limiterId).table| && Admit(r, ws, limiterId).table[i].socket != ws
    ensures i < |r.table| && Admit(r, ws, limiterId).table[i] == r.table[i]
  {
    var t := Put(r.table, ws, Fresh(limiterId));
    var s := Lookup(Admit(r, ws, limiterId).table, ws).value;
    assert Admit(r, ws, limiterId).table == Put(t, ws, s);
  }

  /** Effects that are all sends. */
  predicate Sends(fx: seq<Effect>) {
    forall i :: 0 <= i < |fx| ==> fx[i].Send?
  }

  lemma SendsAppend(a: seq<Effect>, b: seq<Effect>)
    requires Sends(a) && Sends(b)
    ensures Sends(a + b)
  {
    forall i | 0 <= i < |a + b| ensures (a + b)[i].Send? {
      if i >= |a| {
        assert (a + b)[i] == b[i - |a|];
      }
    }
  }

  lemma {:induction false} FanoutSends(entries: seq<Entry>, frames: seq<Frame>)
    decreases |frames|
    ensures Sends(Fanout(entries, frames))
  {
    if frames != [] {
      FanoutSends(entries, frames[1..]);
      var d := Deliveries(entries, frames[0]);
      assert Sends(d) by {
        forall i | 0 <= i < |d| ensures d[i].Send? {
          assert d[i] in d;
        }
      }
      SendsAppend(d, Fanout(entries, frames[1..]));
    }
  }

  /** What a broadcast leaves of a table that keeps the invariant keeps it:
      survivors, with more frames queued. */
  lemma TableAfterBroadcast(table: seq<Entry>, broken: set<SocketId>, frames: seq<Frame>)
    requires TableInv(table)
    ensures TableInv(Enqueue(Live(table, broken), frames))
  {
    var live := Live(table, broken);
    LiveDistinct(table, broken);
    var t := Enqueue(live, frames);
    forall i | 0 <= i < |t|
      ensures t[i].socket == live[i].socket
      ensures t[i].session.quit == live[i].session.quit && t[i].session.name == live[i].session.name
      ensures live[i] in table
    {
    }
  }

  /** A broadcast keeps the invariant and only sends. */
  lemma BroadcastInv(r: Room, f: Frame, broken: set<SocketId>)
    requires Inv(r)
    ensures var b := Broadcast(r, f, broken);
      Inv(b) && b.out == r.out + b.out[|r.out|..] && Sends(b.out[|r.out|..])
  {
    var live := Live(r.table, broken);
    var notices := QuitFrames(Failed(r.table, broken));
    BroadcastClosedForm(r, f, broken);
    TableAfterBroadcast(r.table, broken, [f] + notices);
    FanoutSends(live, [f] + notices);
    var b := Broadcast(r, f, broken);
    assert b.out[|r.out|..] == Fanout(live, [f] + notices);
  }

  lemma FirstFrameInv(r: Room, ws: SocketId, raw: RawFrame, now: int, broken: set<SocketId>, fault: Option<Fault>)
    requires Inv(r)
    requires IndexOf(r.table, ws).Some?
    requires var s := r.table[IndexOf(r.table, ws).value].session; !Named(s) && !s.quit
    requires Decode(raw).Ok?
    requires RoomSchemas.ParseUserInfo(RoomSchemas.DataToJson(Decode(raw).value)).Some?
    ensures var r' := OnMessage(r, ws, raw, now, broken, fault);
      Inv(r') && r'.out == r.out + r'.out[|r.out|..] && Sends(r'.out[|r.out|..])
  {
    var k := IndexOf(r.table, ws).value;
    var s := r.table[k].session;
    var name := ChosenName(RoomSchemas.ParseUserInfo(RoomSchemas.DataToJson(Decode(raw).value)).value);
    var named := Update(r.table, k, s.(name := Some(name), blocked := []));
    var live := Live(named, broken);
    var notices := QuitFrames(Failed(named, broken));
    RoomProperties.FirstFrame(r, ws, raw, now, broken, fault);
    NamedInv(r.table, k, name);
    TableAfterBroadcast(named, broken, [Joined(name)] + notices);
    FirstFrameOut(r.out, ws, s.blocked, live, name, notices);
  }

  /** Naming a session with a name the invariant allows keeps it. */
  lemma NamedInv(table: seq<Entry>, k: nat, name: string)
    requires TableInv(table) && k < |table| && 1 <= |name| <= RoomSchemas.MAX_NAME_LENGTH
    ensures TableInv(Update(table, k, table[k].session.(name := Some(name), blocked := [])))
  {
  }

  lemma FirstFrameOut(out: seq<Effect>, ws: SocketId, held: seq<Frame>, live: seq<Entry>, name: string, notices: seq<Frame>)
    ensures var x := out + Flush(ws, held) + Fanout(live, [Joined(name)] + notices) + [Send(ws, Ready)];
      x == out + x[|out|..] && Sends(x[|out|..])
  {
    var fl := Flush(ws, held);
    FanoutSends(live, [Joined(name)] + notices);
    SendsAppend(fl, Fanout(live, [Joined(name)] + notices));
    SendsAppend(fl + Fanout(live, [Joined(name)] + notices), [Send(ws, Ready)]);
    Suffix3(out, fl, Fanout(live, [Joined(name)] + notices), [Send(ws, Ready)]);
  }

  lemma ChatInv(r: Room, ws: SocketId, raw: RawFrame, now: int, broken: set<SocketId>, fault: Option<Fault>)
    requires Inv(r)
    requires IndexOf(r.table, ws).Some?
    requires var s := r.table[IndexOf(r.table, ws).value].session; Named(s) && !s.quit
    requires Decode(raw).Ok? && Decode(raw).value.message.Some? && Decode(raw).value.message.value != ""
    ensures var r' := OnMessage(r, ws, raw, now, broken, fault);
      Inv(r') && r'.out == r.out + r'.out[|r.out|..] && Sends(r'.out[|r.out|..])
  {
    var s := r.table[IndexOf(r.table, ws).value].session;
    var ts := Max(now, r.lastTimestamp + 1);
    var chat := Chat(s.name.value, Decode(raw).value.message.value, ts);
    RoomProperties.ChatAccepted(r, ws, raw, now, broken, fault);
    PostedInv(r, OnMessage(r, ws, raw, now, broken, fault), ws, chat, broken, fault);
  }

  /** A room whose table and log are those of a broadcast of `chat`
      (and an error frame to `ws` when the write failed) keeps the invariant. */
  lemma PostedInv(r: Room, r': Room, ws: SocketId, chat: Frame, broken: set<SocketId>, fault: Option<Fault>)
    requires Inv(r)
    requires var live := Live(r.table, broken);
      var notices := QuitFrames(Failed(r.table, broken));
      && r'.table == Enqueue(live, [chat] + notices)
      && r'.out == r.out + Fanout(live, [chat] + notices)
        + (if fault.None? then [] else [Send(ws, Error(FaultMessage(fault.value)))])
    ensures Inv(r') && r'.out == r.out + r'.out[|r.out|..] && Sends(r'.out[|r.out|..])
  {
    var live := Live(r.table, broken);
    var notices := QuitFrames(Failed(r.table, broken));
    TableAfterBroadcast(r.table, broken, [chat] + notices);
    FanoutSends(live, [chat] + notices);
    var tail: seq<Effect> := if fault.None? then [] else [Send(ws, Error(FaultMessage(fault.value)))];
    SendsAppend(Fanout(live, [chat] + notices), tail);
    Suffix2(r.out, Fanout(live, [chat] + notices), tail);
  }

  lemma Suffix2(a: seq<Effect>, b: seq<Effect>, c: seq<Effect>)
    ensures var x := a + b + c; x[|a|..] == b + c && x == a + x[|a|..]
  {
    assert a + b + c == a + (b + c);
  }

  lemma Suffix3(a: seq<Effect>, b: seq<Effect>, c: seq<Effect>, d: seq<Effect>)
    ensures var x := a + b + c + d; x[|a|..] == b + c + d && x == a + x[|a|..]
  {
    assert a + b + c + d == a + (b + c + d);
  }

  /** One error frame to the sender keeps the invariant too. */
  lemma ErrorInv(r: Room, ws: SocketId, m: string)
    requires Inv(r)
    ensures var r' := r.(out := r.out + [Send(ws, Error(m))]);
      Inv(r') && r'.out == r.out + r'.out[|r.out|..] && Sends(r'.out[|r.out|..])
  {
    var r' := r.(out := r.out + [Send(ws, Error(m))]);
    assert r'.out[|r.out|..] == [Send(ws, Error(m))];
  }

  /** Handling one frame keeps the invariant, and under it the room never
      closes a socket there: the close of a `quit` session
      (ChatRoom.ts:170-173) and the 1009 close of an over-long name
      (ChatRoom.ts:124-128) are unreachable, so every effect of the frame
      is a send. */
  lemma OnMessageInv(r: Room, ws: SocketId, raw: RawFrame, now: int, broken: set<SocketId>, fault: Option<Fault>)
    requires Inv(r)
    ensures var r' := OnMessage(r, ws, raw, now, broken, fault);
      Inv(r') && r'.out == r.out + r'.out[|r.out|..] && Sends(r'.out[|r.out|..])
  {
    match IndexOf(r.table, ws)
    case None =>
      assert r.out[|r.out|..] == [];
    case Some(k) =>
      var s := r.table[k].session;
      assert !s.quit;
      if Decode(raw).Err? {
        RoomProperties.InvalidFrameRejected(r, ws, raw, now, broken, fault);
        ErrorInv(r, ws, Decode(raw).error);
      } else if !Named(s) {
        var data := Decode(raw).value;
        RoomSchemas.UserInfoOfFrame(data);
        if data.name.Some? && |data.name.value| > RoomSchemas.MAX_NAME_LENGTH {
          RoomProperties.LongNameRejected(r, ws, raw, now, broken, fault);
          ErrorInv(r, ws, VALIDATION_FAILED);
        } else {
          FirstFrameInv(r, ws, raw, now, broken, fault);
        }
      } else if Decode(raw).value.message.None? || Decode(raw).value.message.value == "" {
        RoomProperties.MessageRequired(r, ws, raw, now, broken, fault);
        ErrorInv(r, ws, MESSAGE_REQUIRED);
      } else {
        ChatInv(r, ws, raw, now, broken, fault);
      }
  }

  lemma ApplyInv(r: Room, e: Event)
    requires Inv(r)
    ensures var a := Apply(r, e);
      Inv(a) && a.out == r.out + a.out[|r.out|..] && Sends(a.out[|r.out|..])
  {
    match e
    case Connect(ws, id) =>
      AdmitInv(r, ws, id);
      assert r.out[|r.out|..] == [];
    case Receive(ws, raw, now, broken, fault) =>
      OnMessageInv(r, ws, raw, now, broken, fault);
  }

  /** From a restore, over any events: the invariant holds, and every
      close in the log is a failed-restore close (1011, "Failed to restore
      session"), which `RestoreCloses` ties to the sockets whose attachment
      is invalid. */
  lemma RunInv(storage: map<int, Frame>, sockets: seq<(SocketId, Json)>, events: seq<Event>)
    ensures var r := Run(Restore(storage, sockets), events);
      Inv(r) && OnlyRestoreCloses(r.out)
  {
    RestoreInv(storage, sockets);
    RunFrom(Restore(storage, sockets), events);
  }

  lemma {:induction false} RunFrom(r: Room, events: seq<Event>)
    requires Inv(r) && OnlyRestoreCloses(r.out)
    decreases |events|
    ensures Inv(Run(r, events)) && OnlyRestoreCloses(Run(r, events).out)
  {
    if events != [] {
      var a := Apply(r, events[0]);
      ApplyInv(r, events[0]);
      ClosesKept(r.out, a.out[|r.out|..]);
      RunFrom(a, events[1..]);
    }
  }

  lemma ClosesKept(out: seq<Effect>, fx: seq<Effect>)
    requires OnlyRestoreCloses(out) && Sends(fx)
    ensures OnlyRestoreCloses(out + fx)
  {
    forall i | |out| <= i < |out + fx| ensures (out + fx)[i].Send? {
      assert (out + fx)[i] == fx[i - |out|];
    }
  }

  // ---- Storage ----

  /** One step: the log only grows, the watermark never goes back, and
      storage is unchanged or gains the one entry at the new watermark,
      which is above the old one. */
  lemma ApplyMonotone(r: Room, e: Event)
    ensures var a := Apply(r, e);
      && r.out <= a.out
      && a.lastTimestamp >= r.lastTimestamp
      && (a.storage == r.storage || (a.lastTimestamp > r.lastTimestamp && a.lastTimestamp in a.storage
           && a.storage == r.storage[a.lastTimestamp := a.storage[a.lastTimestamp]]))
  {
  }

  /** Over any events: the log only grows, the watermark never goes back,
      every key added is above the first watermark and at most the last,
      and no key above the first watermark is lost. */
  lemma {:induction false} RunMonotone(r: Room, events: seq<Event>)
    decreases |events|
    ensures var r' := Run(r, events);
      && r.out <= r'.out
      && r'.lastTimestamp >= r.lastTimestamp
      && (forall t :: t in r'.storage && t !in r.storage ==> r.lastTimestamp < t <= r'.lastTimestamp)
      && (forall t :: t in r.storage ==> t in r'.storage)
  {
    if events != [] {
      var a := Apply(r, events[0]);
      ApplyMonotone(r, events[0]);
      RunMonotone(a, events[1..]);
    }
  }

  /** No stored chat is overwritten, as long as every stored key is below
      the watermark or the clock: the new key is above both. After a
      restore the watermark restarts at 0, so this rests on the clock. */
  lemma NoOverwrite(r: Room, ws: SocketId, raw: RawFrame, now: int, broken: set<SocketId>, fault: Option<Fault>)
    requires forall t :: t in r.storage ==> t <= r.lastTimestamp || t < now
    ensures var r' := OnMessage(r, ws, raw, now, broken, fault);
      && (forall t :: t in r.storage ==> t in r'.storage && r'.storage[t] == r.storage[t])
      && (forall t :: t in r'.storage ==> t <= r'.lastTimestamp || t < now)
  {
    var r' := OnMessage(r, ws, raw, now, broken, fault);
    if r'.storage != r.storage {
      assert r'.lastTimestamp !in r.storage;
    }
  }
}
