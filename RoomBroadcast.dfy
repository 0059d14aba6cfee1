/** `broadcast` (app/durable-objects/ChatRoom/ChatRoom.ts:184-207). One pass
    over the table, in its order: a named session is sent the frame, and if
    that send throws the session is marked `quit`, set aside and deleted; an
    unnamed session has the frame appended to its hold queue. After the pass
    each set-aside session that has a name is announced by a `{quit}`
    broadcast of its own, which recurses. Which sends throw is the set
    `broken` of sockets, fixed for the whole event. */
module RoomBroadcast {
  import opened Base
  import opened RoomFrames
  import opened RoomState

  datatype PassResult = PassResult(kept: seq<Entry>, sends: seq<Effect>, quitters: seq<Session>)

  /** The loop of ChatRoom.ts:188-200 over the entries, last entry last. */
  function Pass(entries: seq<Entry>, f: Frame, broken: set<SocketId>): (p: PassResult)
    ensures |p.kept| + |p.quitters| == |entries|
    decreases |entries|
  {
    if entries == [] then PassResult([], [], [])
    else
      var p := Pass(entries[..|entries| - 1], f, broken);
      var e := entries[|entries| - 1];
      if Named(e.session) then
        if e.socket in broken then PassResult(p.kept, p.sends, p.quitters + [e.session.(quit := true)])
        else PassResult(p.kept + [e], p.sends + [Send(e.socket, f)], p.quitters)
      else PassResult(p.kept + [EnqueueOne(e, [f])], p.sends, p.quitters)
  }

  /** The whole of `broadcast`. */
  function Broadcast(r: Room, f: Frame, broken: set<SocketId>): (b: Room)
    ensures |b.table| <= |r.table|
    ensures b.lastTimestamp == r.lastTimestamp && b.storage == r.storage
    ensures r.out <= b.out
    decreases |r.table|, 1
  {
    var p := Pass(r.table, f, broken);
    QuitAll(r.(table := p.kept, out := r.out + p.sends), p.quitters, broken)
  }

  /** ChatRoom.ts:202-206 */
  function QuitAll(r: Room, quitters: seq<Session>, broken: set<SocketId>): (b: Room)
    ensures |b.table| <= |r.table|
    ensures b.lastTimestamp == r.lastTimestamp && b.storage == r.storage
    ensures r.out <= b.out
    decreases |r.table| + |quitters|, 0
  {
    if quitters == [] then r
    else
      var r' := if Named(quitters[0]) then Broadcast(r, Quit(quitters[0].name.value), broken) else r;
      QuitAll(r', quitters[1..], broken)
  }

  // ---- The reference definitions the closed form is stated with ----

  /** An unnamed session's queue gains `frames`; a named one is unchanged. */
  function EnqueueOne(e: Entry, frames: seq<Frame>): (r: Entry)
    ensures r.socket == e.socket && r.session.name == e.session.name
    ensures Named(e.session) ==> r == e
    ensures !Named(e.session) ==> r.session == e.session.(blocked := e.session.blocked + frames)
  {
    if Named(e.session) then e else Entry(e.socket, e.session.(blocked := e.session.blocked + frames))
  }

  function Enqueue(entries: seq<Entry>, frames: seq<Frame>): (r: seq<Entry>)
    ensures |r| == |entries| && forall i :: 0 <= i < |r| ==> r[i] == EnqueueOne(entries[i], frames)
  {
    seq(|entries|, i requires 0 <= i < |entries| => EnqueueOne(entries[i], frames))
  }

  /** The sessions the pass keeps: all but the named ones whose send throws. */
  function Live(entries: seq<Entry>, broken: set<SocketId>): (l: seq<Entry>)
    ensures |l| <= |entries|
    ensures forall e :: e in l <==> e in entries && !(Named(e.session) && e.socket in broken)
    decreases |entries|
  {
    if entries == [] then []
    else
      var e := entries[|entries| - 1];
      var front := entries[..|entries| - 1];
      assert entries == front + [e];
      Live(front, broken) + if Named(e.session) && e.socket in broken then [] else [e]
  }

  /** The sessions the pass sets aside, marked `quit`. */
  function Failed(entries: seq<Entry>, broken: set<SocketId>): (q: seq<Session>)
    ensures forall i :: 0 <= i < |q| ==> Named(q[i]) && q[i].quit
    ensures forall e :: e in entries && Named(e.session) && e.socket in broken ==> e.session.(quit := true) in q
    decreases |entries|
  {
    if entries == [] then []
    else
      var e := entries[|entries| - 1];
      var front := entries[..|entries| - 1];
      assert entries == front + [e];
      Failed(front, broken) + if Named(e.session) && e.socket in broken then [e.session.(quit := true)] else []
  }

  /** One send of `f` to each named session, in table order. */
  function Deliveries(entries: seq<Entry>, f: Frame): (d: seq<Effect>)
    ensures |d| <= |entries|
    ensures forall x :: x in d ==> x.Send? && x.frame == f
    ensures forall e :: e in entries && Named(e.session) ==> Send(e.socket, f) in d
    decreases |entries|
  {
    if entries == [] then []
    else
      var e := entries[|entries| - 1];
      var front := entries[..|entries| - 1];
      assert entries == front + [e];
      Deliveries(front, f) + if Named(e.session) then [Send(e.socket, f)] else []
  }

  /** A failure-free broadcast of each frame in turn. */
  function Fanout(entries: seq<Entry>, frames: seq<Frame>): seq<Effect>
    decreases |frames|
  {
    if frames == [] then [] else Deliveries(entries, frames[0]) + Fanout(entries, frames[1..])
  }

  /** The `{quit}` frames announced for a list of set-aside sessions. */
  function QuitFrames(quitters: seq<Session>): (fs: seq<Frame>)
    ensures (forall i :: 0 <= i < |quitters| ==> Named(quitters[i])) ==>
      |fs| == |quitters| && forall i :: 0 <= i < |fs| ==> fs[i] == Quit(quitters[i].name.value)
  {
    if quitters == [] then []
    else (if Named(quitters[0]) then [Quit(quitters[0].name.value)] else []) + QuitFrames(quitters[1..])
  }

  /** No named session left whose send would throw. */
  predicate NoneBroken(entries: seq<Entry>, broken: set<SocketId>) {
    forall i :: 0 <= i < |entries| ==> !(Named(entries[i].session) && entries[i].socket in broken)
  }

  // ---- Lemmas ----

  lemma EnqueueAppend(a: seq<Entry>, e: Entry, frames: seq<Frame>)
    ensures Enqueue(a + [e], frames) == Enqueue(a, frames) + [EnqueueOne(e, frames)]
  {
  }

  /** The pass keeps the live sessions, queueing the frame for the unnamed
      ones, sends it to the named ones, and sets aside the failed ones. */
  lemma {:induction false} PassClosedForm(entries: seq<Entry>, f: Frame, broken: set<SocketId>)
    decreases |entries|
    ensures Pass(entries, f, broken)
      == PassResult(Enqueue(Live(entries, broken), [f]), Deliveries(Live(entries, broken), f), Failed(entries, broken))
  {
    if entries != [] {
      var e := entries[|entries| - 1];
      var front := entries[..|entries| - 1];
      PassClosedForm(front, f, broken);
      var p := Pass(front, f, broken);
      var l := Live(front, broken);
      if Named(e.session) && e.socket in broken {
        assert Live(entries, broken) == l + [] == l;
        assert Failed(entries, broken) == Failed(front, broken) + [e.session.(quit := true)];
        assert Pass(entries, f, broken) == PassResult(p.kept, p.sends, p.quitters + [e.session.(quit := true)]);
      } else {
        assert Live(entries, broken) == l + [e];
        assert Failed(entries, broken) == Failed(front, broken) + [] == Failed(front, broken);
        EnqueueAppend(l, e, [f]);
        assert (l + [e])[..|l + [e]| - 1] == l;
        assert Deliveries(l + [e], f) == Deliveries(l, f) + if Named(e.session) then [Send(e.socket, f)] else [];
        if Named(e.session) {
          assert Pass(entries, f, broken) == PassResult(p.kept + [e], p.sends + [Send(e.socket, f)], p.quitters);
        } else {
          assert Pass(entries, f, broken) == PassResult(p.kept + [EnqueueOne(e, [f])], p.sends, p.quitters);
        }
      }
    }
  }

  lemma EnqueueNothing(entries: seq<Entry>)
    ensures Enqueue(entries, []) == entries
  {
    forall i | 0 <= i < |entries|
      ensures Enqueue(entries, [])[i] == entries[i]
    {
      assert entries[i].session.blocked + [] == entries[i].session.blocked;
    }
  }

  lemma {:induction false} LiveWhenNoneBroken(entries: seq<Entry>, broken: set<SocketId>)
    requires NoneBroken(entries, broken)
    decreases |entries|
    ensures Live(entries, broken) == entries && Failed(entries, broken) == []
  {
    if entries != [] {
      var front := entries[..|entries| - 1];
      assert NoneBroken(front, broken);
      LiveWhenNoneBroken(front, broken);
    }
  }

  /** Queueing never changes names, so it changes no delivery. */
  lemma {:induction false} DeliveriesOfEnqueue(entries: seq<Entry>, frames: seq<Frame>, f: Frame)
    decreases |entries|
    ensures Deliveries(Enqueue(entries, frames), f) == Deliveries(entries, f)
  {
    if entries != [] {
      var front := entries[..|entries| - 1];
      DeliveriesOfEnqueue(front, frames, f);
      assert Enqueue(entries, frames)[..|entries| - 1] == Enqueue(front, frames);
    }
  }

  lemma {:induction false} FanoutOfEnqueue(entries: seq<Entry>, frames: seq<Frame>, fs: seq<Frame>)
    decreases |fs|
    ensures Fanout(Enqueue(entries, frames), fs) == Fanout(entries, fs)
  {
    if fs != [] {
      DeliveriesOfEnqueue(entries, frames, fs[0]);
      FanoutOfEnqueue(entries, frames, fs[1..]);
    }
  }

  lemma EnqueueTwice(entries: seq<Entry>, a: seq<Frame>, b: seq<Frame>)
    ensures Enqueue(Enqueue(entries, a), b) == Enqueue(entries, a + b)
  {
    forall i | 0 <= i < |entries|
      ensures Enqueue(Enqueue(entries, a), b)[i] == Enqueue(entries, a + b)[i]
    {
      var s := entries[i].session;
      if !Named(s) {
        assert s.blocked + a + b == s.blocked + (a + b);
      }
    }
  }

  /** A broadcast in which no send throws: every named session is sent the
      frame, in table order, and every unnamed one queues it. */
  lemma NoFailureBroadcast(r: Room, f: Frame, broken: set<SocketId>)
    requires NoneBroken(r.table, broken)
    ensures Broadcast(r, f, broken) == r.(table := Enqueue(r.table, [f]), out := r.out + Deliveries(r.table, f))
  {
    LiveWhenNoneBroken(r.table, broken);
    PassClosedForm(r.table, f, broken);
  }

  /** The `{quit}` broadcasts after a pass that removed every failing
      session: none of them fails, so each reaches every named survivor. */
  lemma {:induction false} QuitAllClosedForm(r: Room, quitters: seq<Session>, broken: set<SocketId>)
    requires NoneBroken(r.table, broken)
    decreases |quitters|
    ensures QuitAll(r, quitters, broken)
      == r.(table := Enqueue(r.table, QuitFrames(quitters)), out := r.out + Fanout(r.table, QuitFrames(quitters)))
  {
    var t := r.table;
    if quitters == [] {
      EnqueueNothing(t);
    } else {
      var q := quitters[0];
      var rest := QuitFrames(quitters[1..]);
      if Named(q) {
        var n := Quit(q.name.value);
        var r' := Broadcast(r, n, broken);
        NoFailureBroadcast(r, n, broken);
        EnqueueNoneBroken(t, [n], broken);
        QuitAllClosedForm(r', quitters[1..], broken);
        assert QuitAll(r, quitters, broken) == QuitAll(r', quitters[1..], broken);
        QuitNoticeStep(r, n, rest);
        assert QuitFrames(quitters) == [n] + rest;
      } else {
        assert QuitFrames(quitters) == [] + rest == rest;
        assert QuitAll(r, quitters, broken) == QuitAll(r, quitters[1..], broken);
        QuitAllClosedForm(r, quitters[1..], broken);
      }
    }
  }

  /** One failure-free `{quit}` broadcast followed by the rest, in closed
      form. */
  lemma QuitNoticeStep(r: Room, n: Frame, rest: seq<Frame>)
    ensures var r' := r.(table := Enqueue(r.table, [n]), out := r.out + Deliveries(r.table, n));
      r'.(table := Enqueue(r'.table, rest), out := r'.out + Fanout(r'.table, rest))
        == r.(table := Enqueue(r.table, [n] + rest), out := r.out + Fanout(r.table, [n] + rest))
  {
    var t := r.table;
    EnqueueTwice(t, [n], rest);
    FanoutOfEnqueue(t, [n], rest);
    FanoutCons(t, n, rest);
    assert (r.out + Deliveries(t, n)) + Fanout(t, rest) == r.out + (Deliveries(t, n) + Fanout(t, rest));
  }

  lemma {:induction false} LiveNoneBroken(entries: seq<Entry>, broken: set<SocketId>)
    decreases |entries|
    ensures NoneBroken(Live(entries, broken), broken)
  {
    if entries != [] {
      LiveNoneBroken(entries[..|entries| - 1], broken);
    }
  }

  lemma EnqueueNoneBroken(entries: seq<Entry>, frames: seq<Frame>, broken: set<SocketId>)
    requires NoneBroken(entries, broken)
    ensures NoneBroken(Enqueue(entries, frames), broken)
  {
  }

  lemma {:induction false} FanoutCons(entries: seq<Entry>, f: Frame, fs: seq<Frame>)
    ensures Fanout(entries, [f] + fs) == Deliveries(entries, f) + Fanout(entries, fs)
  {
    assert ([f] + fs)[0] == f && ([f] + fs)[1..] == fs;
  }

  lemma OutAfterPass(out: seq<Effect>, live: seq<Entry>, f: Frame, notices: seq<Frame>)
    ensures (out + Deliveries(live, f)) + Fanout(Enqueue(live, [f]), notices) == out + Fanout(live, [f] + notices)
  {
    FanoutOfEnqueue(live, [f], notices);
    FanoutCons(live, f, notices);
  }

  /** After the pass, in closed form, come the quit broadcasts. */
  lemma BroadcastAfterPass(r: Room, f: Frame, broken: set<SocketId>)
    ensures var live := Live(r.table, broken);
      Broadcast(r, f, broken)
        == QuitAll(r.(table := Enqueue(live, [f]), out := r.out + Deliveries(live, f)), Failed(r.table, broken), broken)
  {
    PassClosedForm(r.table, f, broken);
  }

  /** The closed form of a broadcast. Let L be the sessions that survive the
      pass and Q one `{quit:name}` frame per set-aside session, in order.
      Then every unnamed survivor's queue gains the frame followed by Q,
      named survivors are unchanged, the failed sessions are gone, and the
      frame and then each quit notice are sent once to every named
      survivor. */
  lemma BroadcastClosedForm(r: Room, f: Frame, broken: set<SocketId>)
    ensures var live := Live(r.table, broken);
      var notices := QuitFrames(Failed(r.table, broken));
      Broadcast(r, f, broken) == r.(table := Enqueue(live, [f] + notices), out := r.out + Fanout(live, [f] + notices))
  {
    var live := Live(r.table, broken);
    var failed := Failed(r.table, broken);
    var notices := QuitFrames(failed);
    var r1 := r.(table := Enqueue(live, [f]), out := r.out + Deliveries(live, f));
    BroadcastAfterPass(r, f, broken);
    LiveNoneBroken(r.table, broken);
    EnqueueNoneBroken(live, [f], broken);
    QuitAllClosedForm(r1, failed, broken);
    var b := QuitAll(r1, failed, broken);
    assert b.table == Enqueue(Enqueue(live, [f]), notices) == Enqueue(live, [f] + notices) by {
      EnqueueTwice(live, [f], notices);
    }
    assert b.out == (r.out + Deliveries(live, f)) + Fanout(Enqueue(live, [f]), notices);
    OutAfterPass(r.out, live, f, notices);
    assert b.lastTimestamp == r.lastTimestamp && b.storage == r.storage;
  }

  /** The surviving sessions keep the table free of duplicate sockets. */
  lemma {:induction false} LiveDistinct(entries: seq<Entry>, broken: set<SocketId>)
    requires DistinctSockets(entries)
    decreases |entries|
    ensures DistinctSockets(Live(entries, broken))
  {
    if entries != [] {
      var e := entries[|entries| - 1];
      var front := entries[..|entries| - 1];
      assert DistinctSockets(front);
      LiveDistinct(front, broken);
      forall x | x in Live(front, broken) ensures x.socket != e.socket {
        assert x in front;
      }
    }
  }
}
