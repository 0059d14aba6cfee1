/** The room-side client of the rate limiter
    (app/durable-objects/RateLimiter/client.ts). `checkLimit` answers at once
    from an `inCooldown` flag and, when it lets a message through, starts a
    detached `callLimiter` that asks the limiter for a cooldown, sleeps that
    long and then clears the flag. The awaits of `callLimiter` are modelled
    as events delivered to the client one at a time: a fetch that throws, a
    fetch whose body has been read (or failed to be read), and the sleep's
    timer firing. Stubs are identified by how many have been obtained. */
module RateLimiterClient {
  import opened Base

  /** A thrown value: an `Error` object or anything else. */
  datatype Thrown = ErrorObject(message: string) | NonError(text: string)

  /** The message of the `Error` handed to `reportError`: the error itself,
      or `new Error(String(err))`. */
  function ReportedMessage(t: Thrown): string {
    match t
    case ErrorObject(m) => m
    case NonError(s) => s
  }

  /** Where the detached `callLimiter` is. `Fetching(n)` awaits the `n`-th
      fetch attempt, `Sleeping` the timer, and `Failed` is a call that ended
      in the outer catch. */
  datatype Phase = Idle | Fetching(attempt: nat) | Sleeping(cooldown: real) | Failed

  datatype ClientState = ClientState(inCooldown: bool, stubs: nat, phase: Phase)

  datatype Event =
    | CheckLimit
    | FetchThrew(err: Thrown)                 // the awaited `fetch` rejected
    | Answered(body: Result<real, Thrown>)    // `Number(await response.text())`, or the rejection of `text()`
    | TimerFired

  /** What one event makes visible: the answer of `checkLimit`, the number
      of fetch attempts started, and the message passed to `reportError`. */
  datatype Output = Output(allowed: Option<bool>, fetches: nat, reported: Option<string>)

  const Silent := Output(None, 0, None)

  predicate Valid(c: ClientState) {
    && (c.inCooldown <==> !c.phase.Idle?)
    && (c.phase.Fetching? ==> 1 <= c.phase.attempt <= 2)
    && c.stubs >= 1
  }

  /** client.ts:10-15: one stub obtained, not in cooldown. */
  function Initial(): (c: ClientState)
    ensures Valid(c) && !c.inCooldown && c.stubs == 1
  {
    ClientState(false, 1, Idle)
  }

  /** One event (client.ts:17-48). Events that cannot arrive in the current
      phase (a timer with no sleep pending, say) change nothing. */
  function Step(c: ClientState, e: Event): (r: (ClientState, Output))
    ensures Valid(c) ==> Valid(r.0)
    // checkLimit answers exactly when asked, and says no exactly in cooldown
    ensures r.1.allowed.Some? <==> e.CheckLimit?
    ensures e.CheckLimit? ==> r.1.allowed == Some(!c.inCooldown)
    ensures e.CheckLimit? && c.inCooldown ==> r.0 == c && r.1.fetches == 0
    ensures e.CheckLimit? && !c.inCooldown ==> r.0.inCooldown && r.1.fetches == 1
    // a fetch is started only by an admitted check or by the one retry
    ensures r.1.fetches <= 1
    ensures r.1.fetches == 1 <==> ((e.CheckLimit? && !c.inCooldown) || (e.FetchThrew? && c.phase == Fetching(1)))
    // a new stub is obtained only when the first attempt throws
    ensures r.0.stubs == c.stubs + (if e.FetchThrew? && c.phase == Fetching(1) then 1 else 0)
    // the cooldown is released only by the timer after a successful answer
    ensures c.inCooldown && !r.0.inCooldown ==> c.phase.Sleeping? && e.TimerFired?
    // and the timer always releases it, ending the call
    ensures c.phase.Sleeping? && e.TimerFired? ==> r.0 == c.(inCooldown := false, phase := Idle) && r.1 == Silent
    // a body read while fetching starts a sleep of exactly the cooldown it names
    ensures c.phase.Fetching? && e.Answered? && e.body.Ok? ==> r.0 == c.(phase := Sleeping(e.body.value)) && r.1 == Silent
    // an error is reported only when a call fails, and the flag stays set
    ensures r.1.reported.Some? ==> c.phase.Fetching? && r.0.phase.Failed? && r.0.inCooldown == c.inCooldown
    ensures c.phase.Fetching? && e.Answered? && e.body.Err? ==> r.1.reported == Some(ReportedMessage(e.body.error))
    ensures c.phase == Fetching(2) && e.FetchThrew? ==> r.1.reported == Some(ReportedMessage(e.err))
    // a failed call is final
    ensures Valid(c) && c.phase.Failed? ==> r.0 == c && r.1.reported.None? && r.1.allowed != Some(true)
  {
    match e
    case CheckLimit =>
      if c.inCooldown then (c, Output(Some(false), 0, None))
      else (c.(inCooldown := true, phase := Fetching(1)), Output(Some(true), 1, None))
    case FetchThrew(err) =>
      if c.phase == Fetching(1) then (c.(stubs := c.stubs + 1, phase := Fetching(2)), Output(None, 1, None))
      else if c.phase.Fetching? then (c.(phase := Failed), Output(None, 0, Some(ReportedMessage(err))))
      else (c, Silent)
    case Answered(body) =>
      if !c.phase.Fetching? then (c, Silent)
      else if body.Ok? then (c.(phase := Sleeping(body.value)), Silent)
      else (c.(phase := Failed), Output(None, 0, Some(ReportedMessage(body.error))))
    case TimerFired =>
      if c.phase.Sleeping? then (c.(inCooldown := false, phase := Idle), Silent) else (c, Silent)
  }

  /** A sequence of events, and what each made visible. */
  function Run(c: ClientState, events: seq<Event>): (r: (ClientState, seq<Output>))
    ensures |r.1| == |events|
    ensures Valid(c) ==> Valid(r.0)
    decreases |events|
  {
    if events == [] then (c, [])
    else
      var (c', o) := Step(c, events[0]);
      var (last, outs) := Run(c', events[1..]);
      (last, [o] + outs)
  }

  function Admitted(outs: seq<Output>): nat {
    if outs == [] then 0 else (if outs[0].allowed == Some(true) then 1 else 0) + Admitted(outs[1..])
  }

  function Fetches(outs: seq<Output>): nat {
    if outs == [] then 0 else outs[0].fetches + Fetches(outs[1..])
  }

  function Reports(outs: seq<Output>): nat {
    if outs == [] then 0 else (if outs[0].reported.Some? then 1 else 0) + Reports(outs[1..])
  }

  /** Calls still able to report, and attempts still allowed to the call
      in progress. */
  function Pending(c: ClientState): nat {
    if c.phase.Fetching? then 1 else 0
  }

  function RetriesLeft(c: ClientState): nat {
    if c.phase == Fetching(1) then 1 else 0
  }

  /** Over any run from a valid state: the state stays valid; each admitted
      check starts one call, and a call makes at most two fetch attempts and
      reports at most one error. */
  lemma {:induction false} RunAccounting(c: ClientState, events: seq<Event>)
    requires Valid(c)
    decreases |events|
    ensures var (last, outs) := Run(c, events);
      && Valid(last)
      && |outs| == |events|
      && Fetches(outs) + RetriesLeft(last) <= 2 * Admitted(outs) + RetriesLeft(c)
      && Reports(outs) + Pending(last) <= Admitted(outs) + Pending(c)
  {
    if events != [] {
      var (c', o) := Step(c, events[0]);
      RunAccounting(c', events[1..]);
      var (last, outs) := Run(c', events[1..]);
      assert Run(c, events) == (last, [o] + outs);
      assert ([o] + outs)[1..] == outs;
    }
  }

  /** Once a call has failed the client is stuck: the state never changes
      again, nothing more is reported, and every check says no. */
  lemma {:induction false} FailureIsPermanent(c: ClientState, events: seq<Event>)
    requires Valid(c) && c.phase.Failed?
    decreases |events|
    ensures var (last, outs) := Run(c, events);
      && last == c
      && |outs| == |events|
      && Admitted(outs) == 0 && Reports(outs) == 0 && Fetches(outs) == 0
      && forall i :: 0 <= i < |outs| ==> outs[i].allowed != Some(true)
  {
    if events != [] {
      var (c', o) := Step(c, events[0]);
      FailureIsPermanent(c', events[1..]);
      var (last, outs) := Run(c', events[1..]);
      assert Run(c, events) == (last, [o] + outs);
      assert ([o] + outs)[1..] == outs;
    }
  }

  /** client.ts:4-49 as a class: the private fields, with the stub and the
      progress of the detached call, and the errors reported so far. */
  class RateLimiterClient {
    var inCooldown: bool
    var stubs: nat
    var phase: Phase
    var reported: seq<string>

    function State(): ClientState
      reads this
    {
      ClientState(inCooldown, stubs, phase)
    }

    constructor ()
      ensures State() == Initial() && reported == []
    {
      inCooldown := false;
      stubs := 1;
      phase := Idle;
      reported := [];
    }

    /** client.ts:17-24. */
    method CheckLimit() returns (allowed: bool)
      modifies this
      ensures (State(), Output(Some(allowed), if old(inCooldown) then 0 else 1, None)) == Step(old(State()), Event.CheckLimit)
      ensures reported == old(reported)
    {
      if inCooldown {
        return false;
      }
      inCooldown := true;
      phase := Fetching(1);
      return true;
    }

    /** The catches of client.ts:34-40 and 45-47: the first failure obtains
        a new stub and fetches again, the second reports. */
    method OnFetchThrew(err: Thrown) returns (retried: bool)
      modifies this
      ensures var (c', o) := Step(old(State()), FetchThrew(err));
        && State() == c' && retried == (o.fetches == 1)
        && reported == old(reported) + (if o.reported.Some? then [o.reported.value] else [])
    {
      retried := false;
      if phase == Fetching(1) {
        stubs := stubs + 1;
        phase := Fetching(2);
        retried := true;
      } else if phase.Fetching? {
        phase := Failed;
        reported := reported + [ReportedMessage(err)];
      }
    }

    /** client.ts:42-43 and 45-47: a read body starts the sleep, a failed
        read reports. */
    method OnAnswered(body: Result<real, Thrown>)
      modifies this
      ensures var (c', o) := Step(old(State()), Answered(body));
        && State() == c'
        && reported == old(reported) + (if o.reported.Some? then [o.reported.value] else [])
    {
      if phase.Fetching? {
        if body.Ok? {
          phase := Sleeping(body.value);
        } else {
          phase := Failed;
          reported := reported + [ReportedMessage(body.error)];
        }
      }
    }

    /** client.ts:44. */
    method OnTimerFired()
      modifies this
      ensures State() == Step(old(State()), TimerFired).0 && reported == old(reported)
    {
      if phase.Sleeping? {
        inCooldown := false;
        phase := Idle;
      }
    }
  }
}
