/** The per-identity rate limiter of
    app/durable-objects/RateLimiter/RateLimiter.ts. It keeps one counter,
    the earliest time (in seconds) at which the identity's next message is
    free, and answers each request with the number of seconds the caller
    should wait. `Date.now()` is the request's `nowMs` and `Date.now() / 1000`
    is computed exactly. */
module RateLimiter {
  import opened Base

  /** Seconds added by each POST (the literal at RateLimiter.ts:17). */
  const COOLDOWN_PERIOD: real := 5.0
  /** Seconds of credit before a wait is asked for (RateLimiter.ts:20). */
  const GRACE_PERIOD: real := 20.0

  datatype Request = Request(verb: string, path: string, nowMs: int)

  function Seconds(ms: int): real {
    ms as real / 1000.0
  }

  /** The counter after one request at time `now`: clamped up to `now`,
      then moved on by the cooldown period if the request is a POST. */
  function Advance(next: real, now: real, isPost: bool): (r: real)
    ensures !isPost ==> r >= now && r >= next && (r == now || r == next)
    ensures isPost ==> (r - COOLDOWN_PERIOD >= now && r - COOLDOWN_PERIOD >= next
      && (r - COOLDOWN_PERIOD == now || r - COOLDOWN_PERIOD == next))
  {
    MaxReal(now, next) + if isPost then COOLDOWN_PERIOD else 0.0
  }

  /** The answer: the part of the wait beyond the grace period, never
      negative. */
  function Cooldown(next: real, now: real): (c: real)
    ensures c >= 0.0 && c >= next - now - GRACE_PERIOD
    ensures c == 0.0 || c == next - now - GRACE_PERIOD
  {
    MaxReal(0.0, next - now - GRACE_PERIOD)
  }

  class RateLimiter {
    var nextAllowedTime: real

    /** RateLimiter.ts:7-9 */
    constructor ()
      ensures nextAllowedTime == 0.0
    {
      nextAllowedTime := 0.0;
    }

    /** `fetch` (RateLimiter.ts:11-23). The path is never looked at: every
        POST, whatever its path, advances the counter. */
    method Fetch(request: Request) returns (cooldown: real)
      modifies this
      ensures nextAllowedTime == Advance(old(nextAllowedTime), Seconds(request.nowMs), request.verb == "POST")
      ensures nextAllowedTime >= Seconds(request.nowMs) && nextAllowedTime >= old(nextAllowedTime)
      ensures cooldown == Cooldown(nextAllowedTime, Seconds(request.nowMs)) && cooldown >= 0.0
    {
      var now := Seconds(request.nowMs);
      nextAllowedTime := MaxReal(now, nextAllowedTime);
      if request.verb == "POST" {
        nextAllowedTime := nextAllowedTime + COOLDOWN_PERIOD;
      }
      cooldown := MaxReal(0.0, nextAllowedTime - now - GRACE_PERIOD);
    }
  }

  /** The counter after a sequence of requests. */
  function After(next: real, requests: seq<Request>): real
    decreases |requests|
  {
    if requests == [] then next
    else After(Advance(next, Seconds(requests[0].nowMs), requests[0].verb == "POST"), requests[1..])
  }

  /** The answers to a sequence of requests, in order. */
  function Answers(next: real, requests: seq<Request>): seq<real>
    decreases |requests|
  {
    if requests == [] then []
    else
      var next' := Advance(next, Seconds(requests[0].nowMs), requests[0].verb == "POST");
      [Cooldown(next', Seconds(requests[0].nowMs))] + Answers(next', requests[1..])
  }

  /** Over any sequence of requests the counter never goes back, ends at
      or after the last request's time, and no answer is negative. */
  lemma {:induction false} CounterMonotone(next: real, requests: seq<Request>)
    decreases |requests|
    ensures After(next, requests) >= next
    ensures requests != [] ==> After(next, requests) >= Seconds(requests[|requests| - 1].nowMs)
    ensures |Answers(next, requests)| == |requests|
    ensures forall i :: 0 <= i < |requests| ==> Answers(next, requests)[i] >= 0.0
  {
    if requests != [] {
      var next' := Advance(next, Seconds(requests[0].nowMs), requests[0].verb == "POST");
      CounterMonotone(next', requests[1..]);
      if |requests| > 1 {
        assert requests[1..][|requests| - 2] == requests[|requests| - 1];
      }
      assert forall i :: 1 <= i < |requests| ==> Answers(next, requests)[i] == Answers(next', requests[1..])[i - 1];
    }
  }

  /** `k` POSTs at one instant `now`. */
  function Burst(k: nat, nowMs: int, path: string): seq<Request> {
    seq(k, _ => Request("POST", path, nowMs))
  }

  /** From a fresh limiter, `k` POSTs at the same instant leave the counter
      at `now + 5k`, and the `i`-th of them (counting from 1) is answered
      `max(0, 5i - 20)`. */
  lemma {:induction false} BurstFromFresh(k: nat, nowMs: int, path: string)
    requires nowMs >= 0
    ensures k > 0 ==> After(0.0, Burst(k, nowMs, path)) == Seconds(nowMs) + COOLDOWN_PERIOD * k as real
    ensures |Answers(0.0, Burst(k, nowMs, path))| == k
    ensures forall i :: 0 <= i < k ==>
      Answers(0.0, Burst(k, nowMs, path))[i] == MaxReal(0.0, COOLDOWN_PERIOD * (i + 1) as real - GRACE_PERIOD)
  {
    BurstFrom(k, nowMs, path, 0);
  }

  /** The same burst after `j` earlier POSTs at that instant. */
  lemma {:induction false} BurstFrom(k: nat, nowMs: int, path: string, j: nat)
    requires nowMs >= 0
    decreases k
    ensures var start := if j == 0 then 0.0 else Seconds(nowMs) + COOLDOWN_PERIOD * j as real;
      && (j + k > 0 ==> After(start, Burst(k, nowMs, path)) == Seconds(nowMs) + COOLDOWN_PERIOD * (j + k) as real)
      && |Answers(start, Burst(k, nowMs, path))| == k
      && forall i :: 0 <= i < k ==>
        Answers(start, Burst(k, nowMs, path))[i] == MaxReal(0.0, COOLDOWN_PERIOD * (j + i + 1) as real - GRACE_PERIOD)
  {
    var start := if j == 0 then 0.0 else Seconds(nowMs) + COOLDOWN_PERIOD * j as real;
    var b := Burst(k, nowMs, path);
    if k > 0 {
      var now := Seconds(nowMs);
      var next' := Advance(start, now, true);
      assert next' == now + COOLDOWN_PERIOD * (j + 1) as real;
      assert b[1..] == Burst(k - 1, nowMs, path);
      BurstFrom(k - 1, nowMs, path, j + 1);
      var rest := Answers(next', b[1..]);
      assert Answers(start, b) == [Cooldown(next', now)] + rest;
      forall i | 0 <= i < k
        ensures Answers(start, b)[i] == MaxReal(0.0, COOLDOWN_PERIOD * (j + i + 1) as real - GRACE_PERIOD)
      {
        if i > 0 {
          assert Answers(start, b)[i] == rest[i - 1];
        }
      }
    }
  }

  /** Five POSTs at one instant from a fresh limiter: the first four are
      answered 0 and the fifth is the first to be asked to wait, 5 seconds. */
  lemma FifthPostFirstToWait(nowMs: int, path: string)
    requires nowMs >= 0
    ensures Answers(0.0, Burst(5, nowMs, path)) == [0.0, 0.0, 0.0, 0.0, 5.0]
  {
    BurstFromFresh(5, nowMs, path);
  }

  /** Requests that differ only in their paths get the same answers. */
  lemma {:induction false} PathIgnored(next: real, requests: seq<Request>, paths: seq<string>)
    requires |paths| == |requests|
    decreases |requests|
    ensures var renamed := seq(|requests|, i requires 0 <= i < |requests| =>
        Request(requests[i].verb, paths[i], requests[i].nowMs));
      After(next, renamed) == After(next, requests) && Answers(next, renamed) == Answers(next, requests)
  {
    var renamed := seq(|requests|, i requires 0 <= i < |requests| =>
      Request(requests[i].verb, paths[i], requests[i].nowMs));
    if requests != [] {
      var next' := Advance(next, Seconds(requests[0].nowMs), requests[0].verb == "POST");
      PathIgnored(next', requests[1..], paths[1..]);
      assert renamed[1..] == seq(|requests[1..]|, i requires 0 <= i < |requests[1..]| =>
        Request(requests[1..][i].verb, paths[1..][i], requests[1..][i].nowMs));
    }
  }
}
