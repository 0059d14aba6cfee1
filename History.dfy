/** The chat history a new session is given
    (app/durable-objects/ChatRoom/ChatRoom.ts:98-108):
    `storage.list({reverse: true, limit: 100})` lists the entries with the
    largest keys, largest first, and the room reverses that list. Keys are
    the integer timestamps. */
module History {
  import opened RoomFrames

  const BACKLOG_LIMIT: nat := 100

  lemma HasMember(keys: set<int>)
    requires keys != {}
    ensures exists x :: x in keys
  {
    if forall x :: x !in keys {
      assert false;
    }
  }

  lemma {:induction false} MaxExists(keys: set<int>)
    requires keys != {}
    decreases |keys|
    ensures exists m :: m in keys && forall k :: k in keys ==> k <= m
  {
    HasMember(keys);
    var x :| x in keys;
    var rest := keys - {x};
    if rest == {} {
      forall k | k in keys ensures k <= x {
        assert k !in rest;
      }
    } else {
      assert |rest| < |keys| by {
        assert keys == rest + {x};
      }
      MaxExists(rest);
      var m :| m in rest && forall k :: k in rest ==> k <= m;
      var top := if x <= m then m else x;
      forall k | k in keys ensures k <= top {
        if k != x {
          assert k in rest;
        }
      }
      assert top in keys;
    }
  }

  function MaxKey(keys: set<int>): (m: int)
    requires keys != {}
    ensures m in keys && forall k :: k in keys ==> k <= m
  {
    MaxExists(keys);
    var m :| m in keys && forall k :: k in keys ==> k <= m;
    m
  }

  /** The `limit` largest keys, largest first. */
  function TopKeysDesc(keys: set<int>, limit: nat): (r: seq<int>)
    ensures |r| == if limit < |keys| then limit else |keys|
    ensures forall i :: 0 <= i < |r| ==> r[i] in keys
    ensures forall i, j :: 0 <= i < j < |r| ==> r[i] > r[j]
    ensures forall k :: k in keys && k !in r ==> forall i :: 0 <= i < |r| ==> k < r[i]
    ensures limit >= |keys| ==> forall k :: k in keys ==> k in r
    decreases limit, 3
  {
    if limit == 0 || keys == {} then []
    else
      TopFacts(keys, limit);
      MaxFirst(keys, limit)
  }

  /** The largest key, then the `limit - 1` largest of the others. */
  function MaxFirst(keys: set<int>, limit: nat): seq<int>
    requires limit > 0 && keys != {}
    decreases limit, 1
  {
    [MaxKey(keys)] + Others(keys, limit)
  }

  function Others(keys: set<int>, limit: nat): seq<int>
    requires limit > 0 && keys != {}
    decreases limit, 0
  {
    TopKeysDesc(keys - {MaxKey(keys)}, limit - 1)
  }

  /** One step of `TopKeysDesc`: what it promises of the smaller set
      carries over to `MaxFirst`. */
  lemma TopFacts(keys: set<int>, limit: nat)
    requires limit > 0 && keys != {}
    decreases limit, 2
    ensures var r := MaxFirst(keys, limit);
      && |r| == (if limit < |keys| then limit else |keys|)
      && (forall i :: 0 <= i < |r| ==> r[i] in keys)
      && (forall i, j :: 0 <= i < j < |r| ==> r[i] > r[j])
      && (forall k :: k in keys && k !in r ==> forall i :: 0 <= i < |r| ==> k < r[i])
      && (limit >= |keys| ==> forall k :: k in keys ==> k in r)
  {
    var m := MaxKey(keys);
    var rest := TopKeysDesc(keys - {m}, limit - 1);
    assert |keys - {m}| == |keys| - 1;
    ConsTop(keys, m, rest);
  }

  /** Putting the largest key in front of a descending list of the others
      keeps the list descending and its keys drawn from `keys`. */
  lemma ConsTop(keys: set<int>, m: int, rest: seq<int>)
    requires m in keys && forall k :: k in keys ==> k <= m
    requires forall i :: 0 <= i < |rest| ==> rest[i] in keys - {m}
    requires forall i, j :: 0 <= i < j < |rest| ==> rest[i] > rest[j]
    requires forall k :: k in keys - {m} && k !in rest ==> forall i :: 0 <= i < |rest| ==> k < rest[i]
    ensures var r := [m] + rest;
      && (forall i :: 0 <= i < |r| ==> r[i] in keys)
      && (forall i, j :: 0 <= i < j < |r| ==> r[i] > r[j])
      && (forall k :: k in keys && k !in r ==> forall i :: 0 <= i < |r| ==> k < r[i])
  {
    var r := [m] + rest;
    forall i, j | 0 <= i < j < |r| ensures r[i] > r[j] {
      if i == 0 {
        assert r[j] == rest[j - 1] && r[j] in keys - {m};
      } else {
        assert r[i] == rest[i - 1] && r[j] == rest[j - 1];
      }
    }
    forall k, i | k in keys && k !in r && 0 <= i < |r| ensures k < r[i] {
      assert k != m && k in keys - {m} && k !in rest;
      if i > 0 {
        assert r[i] == rest[i - 1];
      }
    }
  }

  function Reverse(s: seq<int>): (r: seq<int>)
    ensures |r| == |s| && forall i :: 0 <= i < |s| ==> r[i] == s[|s| - 1 - i]
  {
    seq(|s|, i requires 0 <= i < |s| => s[|s| - 1 - i])
  }

  /** The keys of the backlog: at most 100 stored keys, all of them when
      there are no more than that. `BacklogKeysSound` gives their order. */
  function BacklogKeys(storage: map<int, Frame>): (ks: seq<int>)
    ensures |ks| == if BACKLOG_LIMIT < |storage.Keys| then BACKLOG_LIMIT else |storage.Keys|
    ensures forall i :: 0 <= i < |ks| ==> ks[i] in storage.Keys
  {
    var top := TopKeysDesc(storage.Keys, BACKLOG_LIMIT);
    OldestFirst(storage.Keys, BACKLOG_LIMIT, top);
    Reverse(top)
  }

  /** The backlog is oldest first: its keys strictly ascend, no stored key
      left out is newer than one let in, and when at most 100 keys are
      stored every one of them is let in. */
  lemma BacklogKeysSound(storage: map<int, Frame>)
    ensures var ks := BacklogKeys(storage);
      && (forall i, j :: 0 <= i < j < |ks| ==> ks[i] < ks[j])
      && (forall k :: k in storage.Keys && k !in ks ==> forall i :: 0 <= i < |ks| ==> k < ks[i])
      && (BACKLOG_LIMIT >= |storage.Keys| ==> forall k :: k in storage.Keys ==> k in ks)
  {
    var top := TopKeysDesc(storage.Keys, BACKLOG_LIMIT);
    OldestFirst(storage.Keys, BACKLOG_LIMIT, top);
  }

  /** What `TopKeysDesc` promises of a list carries over to its reversal,
      with the order turned round. */
  lemma OldestFirst(keys: set<int>, limit: nat, top: seq<int>)
    requires |top| == if limit < |keys| then limit else |keys|
    requires forall i :: 0 <= i < |top| ==> top[i] in keys
    requires forall i, j :: 0 <= i < j < |top| ==> top[i] > top[j]
    requires forall k :: k in keys && k !in top ==> forall i :: 0 <= i < |top| ==> k < top[i]
    requires limit >= |keys| ==> forall k :: k in keys ==> k in top
    ensures var ks := Reverse(top);
      && |ks| == (if limit < |keys| then limit else |keys|)
      && (forall i :: 0 <= i < |ks| ==> ks[i] in keys)
      && (forall i, j :: 0 <= i < j < |ks| ==> ks[i] < ks[j])
      && (forall k :: k in keys && k !in ks ==> forall i :: 0 <= i < |ks| ==> k < ks[i])
      && (limit >= |keys| ==> forall k :: k in keys ==> k in ks)
  {
    var ks := Reverse(top);
    var n := |top|;
    forall i | 0 <= i < n ensures ks[i] in keys {
      assert ks[i] == top[n - 1 - i];
    }
    forall i, j | 0 <= i < j < n ensures ks[i] < ks[j] {
      assert ks[i] == top[n - 1 - i] && ks[j] == top[n - 1 - j];
    }
    forall k | k in top ensures k in ks {
      var i :| 0 <= i < n && top[i] == k;
      assert ks[n - 1 - i] == k;
    }
    forall k, i | k in keys && k !in ks && 0 <= i < n ensures k < ks[i] {
      assert k !in top;
      assert ks[i] == top[n - 1 - i];
    }
  }

  /** The stored frames of those keys, in the same order. */
  function Backlog(storage: map<int, Frame>): (frames: seq<Frame>)
    ensures var ks := BacklogKeys(storage);
      |frames| == |ks| && forall i :: 0 <= i < |ks| ==> frames[i] == storage[ks[i]]
  {
    var ks := BacklogKeys(storage);
    seq(|ks|, i requires 0 <= i < |ks| => storage[ks[i]])
  }
}
