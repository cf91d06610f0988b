/** The in-memory circuit breaker: its methods, its state as a function of history, and its rate bound. */
module CircuitBreaker {
  import opened Common

  datatype CircuitState = Closed | Open | HalfOpen

  /** The settings as the constructor stores them, clamped from below. */
  datatype Settings = Settings(failureThreshold: int, resetTimeout: real, halfOpenMaxCalls: int)

  function Clamped(failureThreshold: int, resetTimeout: real, halfOpenMaxCalls: int): Settings {
    Settings(Max(1, failureThreshold), if resetTimeout < 0.0 then 0.0 else resetTimeout, Max(1, halfOpenMaxCalls))
  }

  predicate Sound(c: Settings) {
    c.failureThreshold >= 1 && c.resetTimeout >= 0.0 && c.halfOpenMaxCalls >= 1
  }

  datatype Fields = Fields(state: CircuitState, failureCount: int, openedAt: Option<real>, halfOpenCalls: int)

  const FRESH := Fields(Closed, 0, None, 0)

  /** The fields after a request at time `now`, and whether it is let through. */
  function Requested(f: Fields, c: Settings, now: real): (Fields, bool) {
    var expired := f.state == Open && f.openedAt.Some? && now - f.openedAt.value >= c.resetTimeout;
    if f.state == Open && !expired then (f, false)
    else
      var g := if expired then f.(state := HalfOpen, halfOpenCalls := 0) else f;
      if g.state == Closed then (g, true)
      else if g.halfOpenCalls >= c.halfOpenMaxCalls then (g, false)
      else (g.(halfOpenCalls := g.halfOpenCalls + 1), true)
  }

  function Succeeded(f: Fields): Fields {
    if f.state == Closed then f.(failureCount := 0) else Fields(Closed, 0, None, 0)
  }

  function Failed(f: Fields, c: Settings, now: real): Fields {
    if f.state == HalfOpen then
      f.(state := Open, openedAt := Some(now), failureCount := c.failureThreshold)
    else
      var n := f.failureCount + 1;
      if n >= c.failureThreshold then f.(failureCount := n, state := Open, openedAt := Some(now))
      else f.(failureCount := n)
  }

  /** The clock is a parameter of the methods that read it. */
  class CircuitBreaker {
    const settings: Settings
    var state: CircuitState
    var failureCount: int
    var openedAt: Option<real>
    var halfOpenCalls: int

    function Model(): Fields
      reads this
    {
      Fields(state, failureCount, openedAt, halfOpenCalls)
    }

    constructor (failureThreshold: int, resetTimeout: real, halfOpenMaxCalls: int)
      ensures settings == Clamped(failureThreshold, resetTimeout, halfOpenMaxCalls)
      ensures failureThreshold >= 1 ==> settings.failureThreshold == failureThreshold
      ensures resetTimeout >= 0.0 ==> settings.resetTimeout == resetTimeout
      ensures halfOpenMaxCalls >= 1 ==> settings.halfOpenMaxCalls == halfOpenMaxCalls
      ensures failureThreshold < 1 ==> settings.failureThreshold == 1
      ensures resetTimeout < 0.0 ==> settings.resetTimeout == 0.0
      ensures halfOpenMaxCalls < 1 ==> settings.halfOpenMaxCalls == 1
      ensures Model() == FRESH
    {
      settings := Clamped(failureThreshold, resetTimeout, halfOpenMaxCalls);
      state, failureCount, openedAt, halfOpenCalls := Closed, 0, None, 0;
    }

    method AllowRequest(now: real) returns (allowed: bool)
      modifies this
      ensures (Model(), allowed) == Requested(old(Model()), settings, now)
    {
      if state == Open {
        if openedAt.Some? && now - openedAt.value >= settings.resetTimeout {
          state := HalfOpen;
          halfOpenCalls := 0;
        } else {
          return false;
        }
      }
      if state == HalfOpen {
        if halfOpenCalls >= settings.halfOpenMaxCalls {
          return false;
        }
        halfOpenCalls := halfOpenCalls + 1;
      }
      return true;
    }

    method RecordSuccess()
      modifies this
      ensures Model() == Succeeded(old(Model()))
    {
      failureCount := 0;
      if state == Open || state == HalfOpen {
        state := Closed;
        openedAt := None;
        halfOpenCalls := 0;
      }
    }

    method RecordFailure(now: real)
      modifies this
      ensures Model() == Failed(old(Model()), settings, now)
    {
      if state == HalfOpen {
        state := Open;
        openedAt := Some(now);
        failureCount := settings.failureThreshold;
        return;
      }
      failureCount := failureCount + 1;
      if failureCount >= settings.failureThreshold {
        state := Open;
        openedAt := Some(now);
      }
    }
  }

  // ---------------------------------------------------------------------------
  // The state as a function of history
  // ---------------------------------------------------------------------------

  datatype Event = Ask(time: real) | Success(time: real) | Failure(time: real)

  function Step(f: Fields, c: Settings, e: Event): (Fields, bool) {
    match e
    case Ask(t) => Requested(f, c, t)
    case Success(_) => (Succeeded(f), false)
    case Failure(t) => (Failed(f, c, t), false)
  }

  /** The fields after a history, oldest event first. */
  function Run(h: seq<Event>, c: Settings): Fields {
    if h == [] then FRESH else Step(Run(h[..|h| - 1], c), c, h[|h| - 1]).0
  }

  /** Failures recorded since the last success, or since the start. */
  function FailuresSinceSuccess(h: seq<Event>): nat {
    if h == [] || h[|h| - 1].Success? then 0
    else FailuresSinceSuccess(h[..|h| - 1]) + if h[|h| - 1].Failure? then 1 else 0
  }

  /** The time of the last recorded failure, and the requests asked after it. */
  function LastFailure(h: seq<Event>): Option<real> {
    if h == [] then None
    else if h[|h| - 1].Failure? then Some(h[|h| - 1].time)
    else LastFailure(h[..|h| - 1])
  }

  /** The requests after the last failure, counted from the first one that comes `timeout` after it. */
  function Probes(h: seq<Event>, timeout: real): nat {
    if h == [] || h[|h| - 1].Failure? then 0
    else
      var earlier, last := Probes(h[..|h| - 1], timeout), h[|h| - 1];
      if !last.Ask? then earlier
      else if earlier > 0 || (LastFailure(h).Some? && last.time - LastFailure(h).value >= timeout) then earlier + 1
      else 0
  }

  function StateFromHistory(h: seq<Event>, c: Settings): CircuitState {
    if FailuresSinceSuccess(h) < c.failureThreshold then Closed
    else if Probes(h, c.resetTimeout) == 0 then Open
    else HalfOpen
  }

  ghost predicate Matches(f: Fields, h: seq<Event>, c: Settings) {
    && f.state == StateFromHistory(h, c)
    && (f.state == Closed ==> f.failureCount == FailuresSinceSuccess(h))
    && (f.state != Closed ==> f.failureCount >= c.failureThreshold)
    && (f.state == Open ==> f.openedAt == LastFailure(h) && f.openedAt.Some?)
    && (f.state == HalfOpen ==> f.halfOpenCalls == Min(c.halfOpenMaxCalls, Probes(h, c.resetTimeout)))
  }

  lemma {:induction false} FailedSome(h: seq<Event>)
    ensures FailuresSinceSuccess(h) > 0 ==> LastFailure(h).Some?
  {
    if h != [] {
      FailedSome(h[..|h| - 1]);
    }
  }

  /** On every history the breaker is closed exactly when fewer failures than the threshold were recorded
      since the last success; otherwise it is open, since the last failure, until the first request a
      reset timeout later, and half-open from then on with at most its quota of requests admitted. */
  lemma {:induction false} StateIsHistory(h: seq<Event>, c: Settings)
    requires Sound(c)
    ensures Matches(Run(h, c), h, c)
  {
    if h != [] {
      var init, e := h[..|h| - 1], h[|h| - 1];
      StateIsHistory(init, c);
      FailedSome(init);
      FailedSome(h);
    }
  }

  /** Every answer, from the history before it. */
  lemma AnswerIsHistory(h: seq<Event>, c: Settings, now: real)
    requires Sound(c)
    ensures Requested(Run(h, c), c, now).1 <==>
            FailuresSinceSuccess(h) < c.failureThreshold ||
            1 <= Probes(h + [Ask(now)], c.resetTimeout) <= c.halfOpenMaxCalls
  {
    StateIsHistory(h, c);
    FailedSome(h);
    var all := h + [Ask(now)];
    assert all[..|all| - 1] == h;
    assert LastFailure(all) == LastFailure(h);
  }

  /** A breaker made with these arguments answers like this: it shuts with the n-th failure since the last
      success, where a threshold below one means one; a shut breaker first lets a request through once the
      reset timeout, negative ones meaning none, has passed since the last failure, and then up to its quota. */
  lemma MadeBreakerAnswers(h: seq<Event>, threshold: int, timeout: real, quota: int, now: real)
    ensures var c := Clamped(threshold, timeout, quota);
            var failures, probes := FailuresSinceSuccess(h),
                                    Probes(h + [Ask(now)], if timeout < 0.0 then 0.0 else timeout);
            && (Run(h, c).state == Closed <==> failures == 0 || failures < threshold)
            && (Requested(Run(h, c), c, now).1 <==>
                failures == 0 || failures < threshold || probes == 1 || 1 < probes <= quota)
  {
    StateIsHistory(h, Clamped(threshold, timeout, quota));
    AnswerIsHistory(h, Clamped(threshold, timeout, quota), now);
  }

  /** `n` failures in a row shut a new breaker of threshold n, and one fewer does not. */
  lemma {:induction false} OpensAtThreshold(failures: seq<Event>, threshold: nat, timeout: real, quota: int)
    requires threshold >= 1 && forall e :: e in failures ==> e.Failure?
    ensures FailuresSinceSuccess(failures) == |failures|
    ensures Run(failures, Clamped(threshold, timeout, quota)).state
         == if |failures| < threshold then Closed else Open
  {
    if failures != [] {
      var init := failures[..|failures| - 1];
      assert failures[|failures| - 1] in failures && forall e :: e in init ==> e in failures;
      OpensAtThreshold(init, threshold, timeout, quota);
    }
    StateIsHistory(failures, Clamped(threshold, timeout, quota));
  }

  /** A half-open breaker always holds between one admitted request and its quota. */
  lemma HalfOpenQuota(h: seq<Event>, c: Settings)
    requires Sound(c)
    ensures Run(h, c).state == HalfOpen ==> 1 <= Run(h, c).halfOpenCalls <= c.halfOpenMaxCalls
    ensures Run(h, c).state == Open ==> Run(h, c).openedAt.Some?
  {
    StateIsHistory(h, c);
  }

  // ---------------------------------------------------------------------------
  // The rate bound while nothing succeeds
  // ---------------------------------------------------------------------------

  function RunFrom(f: Fields, c: Settings, h: seq<Event>): Fields {
    if h == [] then f else Step(RunFrom(f, c, h[..|h| - 1]), c, h[|h| - 1]).0
  }

  /** The requests let through during `h`. */
  function AdmittedIn(f: Fields, c: Settings, h: seq<Event>): nat {
    if h == [] then 0
    else AdmittedIn(f, c, h[..|h| - 1]) + if Step(RunFrom(f, c, h[..|h| - 1]), c, h[|h| - 1]).1 then 1 else 0
  }

  ghost predicate FruitlessFrom(h: seq<Event>, start: real) {
    && (forall e :: e in h ==> !e.Success?)
    && (h != [] ==> start <= h[0].time)
    && (forall i, j :: 0 <= i < j < |h| ==> h[i].time <= h[j].time)
  }

  function End(h: seq<Event>, start: real): real {
    if h == [] then start else h[|h| - 1].time
  }

  lemma OneMoreTimeout(e: nat, r: real)
    ensures (e + 1) as real * r == e as real * r + r
  {
  }

  /** `e` half-open periods have begun, each at least a timeout after the opening before it. */
  ghost predicate Periods(f: Fields, c: Settings, admitted: int, since: real, now: real, e: nat) {
    && since + (e as real) * c.resetTimeout <= now
    && (f.state == Open ==> f.openedAt.Some?)
    && (f.state == Open ==> since + (e as real) * c.resetTimeout <= f.openedAt.value && f.openedAt.value <= now)
    && (f.state == Open ==> admitted <= c.halfOpenMaxCalls * e)
    && (f.state == HalfOpen ==>
          e >= 1 && f.halfOpenCalls <= c.halfOpenMaxCalls && admitted <= c.halfOpenMaxCalls * (e - 1) + f.halfOpenCalls)
    && f.state != Closed
  }

  lemma {:induction false} StepPeriods(f: Fields, c: Settings, admitted: int, since: real, now: real, e: nat, x: Event)
      returns (later: nat)
    requires Sound(c) && Periods(f, c, admitted, since, now, e) && now <= x.time && !x.Success?
    ensures Periods(Step(f, c, x).0, c, admitted + (if Step(f, c, x).1 then 1 else 0), since, x.time, later)
  {
    later := e;
    if x.Ask? && f.state == Open && x.time - f.openedAt.value >= c.resetTimeout {
      later := e + 1;
      OneMoreTimeout(e, c.resetTimeout);
    }
    if x.Failure? && f.state == HalfOpen {
      assert c.halfOpenMaxCalls * (e - 1) + c.halfOpenMaxCalls == c.halfOpenMaxCalls * e;
    }
  }

  lemma {:induction false} RunPeriods(f: Fields, c: Settings, h: seq<Event>, since: real) returns (e: nat)
    requires Sound(c) && f.state == Open && f.openedAt == Some(since) && FruitlessFrom(h, since)
    ensures Periods(RunFrom(f, c, h), c, AdmittedIn(f, c, h), since, End(h, since), e)
  {
    if h == [] {
      e := 0;
    } else {
      var init := h[..|h| - 1];
      assert forall x :: x in init ==> x in h;
      var before := RunPeriods(f, c, init, since);
      e := StepPeriods(RunFrom(f, c, init), c, AdmittedIn(f, c, init), since, End(init, since), before, h[|h| - 1]);
    }
  }

  lemma CancelFactor(a: real, b: real, r: real)
    requires r > 0.0 && a * r <= b * r
    ensures a <= b
  {
    assert (b - a) * r >= 0.0;
  }

  lemma FloorBound(e: nat, r: real, span: real)
    requires r > 0.0 && e as real * r <= span
    ensures e <= (span / r).Floor
  {
    assert span / r * r == span;
    CancelFactor(e as real, span / r, r);
  }

  lemma ScaleBound(m: nat, a: int, b: int)
    requires a <= b
    ensures m * a <= m * b
  {
  }

  /** Once open at time `since`, and while no success is recorded, every interleaving of requests and
      failures on a monotone clock admits at most halfOpenMaxCalls requests per elapsed reset timeout. */
  lemma {:induction false} RateBound(f: Fields, c: Settings, h: seq<Event>, since: real)
    requires Sound(c) && c.resetTimeout > 0.0
    requires f.state == Open && f.openedAt == Some(since) && FruitlessFrom(h, since)
    ensures AdmittedIn(f, c, h) <= c.halfOpenMaxCalls * ((End(h, since) - since) / c.resetTimeout).Floor
  {
    var e := RunPeriods(f, c, h, since);
    FloorBound(e, c.resetTimeout, End(h, since) - since);
    assert AdmittedIn(f, c, h) <= c.halfOpenMaxCalls * e by {
      if RunFrom(f, c, h).state == HalfOpen {
        assert c.halfOpenMaxCalls * (e - 1) + c.halfOpenMaxCalls == c.halfOpenMaxCalls * e;
      }
    }
    ScaleBound(c.halfOpenMaxCalls, e, ((End(h, since) - since) / c.resetTimeout).Floor);
  }

  /** A half-open breaker whose probes report neither success nor failure stays shut, however long. */
  lemma {:induction false} LostProbesBlockForever(f: Fields, c: Settings, h: seq<Event>)
    requires f.state == HalfOpen && f.halfOpenCalls >= c.halfOpenMaxCalls
    requires forall e :: e in h ==> e.Ask?
    ensures AdmittedIn(f, c, h) == 0 && RunFrom(f, c, h) == f
  {
    if h != [] {
      assert forall x :: x in h[..|h| - 1] ==> x in h;
      LostProbesBlockForever(f, c, h[..|h| - 1]);
      assert h[|h| - 1] in h;
    }
  }
}
