/** The circuit breaker of src/shared/circuit-breaker.ts, for calls made one after another. */
module CircuitBreaker {
  import Quotients

  datatype CircuitState = Closed | Open | HalfOpen

  datatype Options = Options(failureThreshold: int, successThreshold: int, resetTimeoutMs: int)

  // ---- The breaker, as values ----

  datatype View = View(state: CircuitState, failureCount: nat, successCount: nat, lastFailureTime: nat)

  const FRESH := View(Closed, 0, 0, 0)

  /** Reading the state is what moves an open breaker to half open. */
  function Observed(v: View, o: Options, now: int): View {
    if v.state.Open? && now - v.lastFailureTime >= o.resetTimeoutMs then v.(state := HalfOpen, successCount := 0) else v
  }

  function AfterSuccess(v: View, o: Options): View {
    var v := v.(failureCount := 0);
    if !v.state.HalfOpen? then v
    else if v.successCount + 1 >= o.successThreshold then v.(state := Closed, successCount := 0)
    else v.(successCount := v.successCount + 1)
  }

  function AfterFailure(v: View, o: Options, now: nat): View {
    var v := v.(failureCount := v.failureCount + 1, lastFailureTime := now);
    if v.failureCount >= o.failureThreshold then v.(state := Open) else v
  }

  /** A call of `execute`: when it starts, when the wrapped function would settle, and how. */
  datatype Call = Call(start: nat, end: nat, succeeds: bool)

  predicate Admits(v: View, o: Options, c: Call) {
    !Observed(v, o, c.start).state.Open?
  }

  function AfterCall(v: View, o: Options, c: Call): View {
    var v := Observed(v, o, c.start);
    if v.state.Open? then v
    else if c.succeeds then AfterSuccess(v, o)
    else AfterFailure(v, o, c.end)
  }

  // ---- The program ----

  datatype ExecuteResult = Returned | Threw | Rejected

  class Breaker {
    var state: CircuitState
    var failureCount: nat
    var successCount: nat
    var lastFailureTime: nat
    const options: Options

    ghost function Now(): View
      reads this
    {
      View(state, failureCount, successCount, lastFailureTime)
    }

    constructor (options: Options)
      ensures Now() == FRESH && this.options == options
    {
      state := Closed;
      failureCount := 0;
      successCount := 0;
      lastFailureTime := 0;
      this.options := options;
    }

    method GetState(now: nat) returns (s: CircuitState)
      modifies this
      ensures Now() == Observed(old(Now()), options, now) && s == state
    {
      if state == Open {
        if now - lastFailureTime >= options.resetTimeoutMs {
          state := HalfOpen;
          successCount := 0;
        }
      }
      return state;
    }

    /** The wrapped function is represented by how and when it settles; it is invoked exactly
        when the result is not `Rejected`. */
    method Execute(c: Call) returns (r: ExecuteResult)
      modifies this
      ensures Now() == AfterCall(old(Now()), options, c)
      ensures r == if !Admits(old(Now()), options, c) then Rejected else if c.succeeds then Returned else Threw
    {
      var currentState := GetState(c.start);
      if currentState == Open {
        return Rejected;
      }
      if c.succeeds {
        OnSuccess();
        return Returned;
      } else {
        OnFailure(c.end);
        return Threw;
      }
    }

    method OnSuccess()
      modifies this
      ensures Now() == AfterSuccess(old(Now()), options)
    {
      failureCount := 0;
      if state == HalfOpen {
        successCount := successCount + 1;
        if successCount >= options.successThreshold {
          state := Closed;
          successCount := 0;
        }
      }
    }

    method OnFailure(now: nat)
      modifies this
      ensures Now() == AfterFailure(old(Now()), options, now)
    {
      failureCount := failureCount + 1;
      lastFailureTime := now;
      if failureCount >= options.failureThreshold {
        state := Open;
      }
    }

    /** Closes the breaker; the time of the last failure is kept. */
    method Reset()
      modifies this
      ensures Now() == FRESH.(lastFailureTime := old(lastFailureTime))
    {
      state := Closed;
      failureCount := 0;
      successCount := 0;
    }
  }

  // ---- Runs of sequential calls on a fresh breaker ----

  function Run(o: Options, cs: seq<Call>): View {
    if cs == [] then FRESH else AfterCall(Run(o, cs[..|cs| - 1]), o, cs[|cs| - 1])
  }

  /** Each call starts after the one before it has settled. */
  ghost predicate Sequential(cs: seq<Call>) {
    && (forall i :: 0 <= i < |cs| ==> cs[i].start <= cs[i].end)
    && forall i, j :: 0 <= i < j < |cs| ==> cs[i].end <= cs[j].start
  }

  /** Whether call `i` of the run reaches the wrapped function. */
  predicate Invoked(o: Options, cs: seq<Call>, i: nat)
    requires i < |cs|
  {
    Admits(Run(o, cs[..i]), o, cs[i])
  }

  function Invocations(o: Options, cs: seq<Call>): nat {
    if cs == [] then 0
    else Invocations(o, cs[..|cs| - 1]) + if Invoked(o, cs, |cs| - 1) then 1 else 0
  }

  /** The invoked calls since the last success, and when the first of them started. */
  datatype Streak = Streak(length: nat, start: nat, lastEnd: nat)

  function FailureStreak(o: Options, cs: seq<Call>): Streak {
    if cs == [] then Streak(0, 0, 0)
    else
      var s, c := FailureStreak(o, cs[..|cs| - 1]), cs[|cs| - 1];
      if !Invoked(o, cs, |cs| - 1) then s
      else if c.succeeds then Streak(0, 0, 0)
      else Streak(s.length + 1, if s.length == 0 then c.start else s.start, c.end)
  }

  /** A threshold below one opens the breaker at the first failure, like a threshold of one. */
  function Opening(o: Options): nat {
    if o.failureThreshold >= 1 then o.failureThreshold else 1
  }

  ghost predicate Throttled(v: View, o: Options, s: Streak, now: nat) {
    && v.failureCount == s.length
    && (v.state.Open? <==> s.length >= Opening(o))
    && (s.length > 0 ==> s.start <= s.lastEnd == v.lastFailureTime <= now)
    && (s.length >= Opening(o) ==> (s.length - Opening(o)) * o.resetTimeoutMs <= s.lastEnd - s.start)
  }

  lemma OneMoreTimeout(n: int, timeout: int)
    ensures (n + 1) * timeout == n * timeout + timeout
  {
  }

  lemma StepKeepsThrottled(v: View, o: Options, s: Streak, now: nat, c: Call)
    requires Throttled(v, o, s, now) && now <= c.start <= c.end
    ensures var s' := if !Admits(v, o, c) then s
                      else if c.succeeds then Streak(0, 0, 0)
                      else Streak(s.length + 1, if s.length == 0 then c.start else s.start, c.end);
            Throttled(AfterCall(v, o, c), o, s', c.end)
  {
    OneMoreTimeout(s.length - Opening(o), o.resetTimeoutMs);
  }

  function End(cs: seq<Call>): nat {
    if cs == [] then 0 else cs[|cs| - 1].end
  }

  /** The failure count is the number of failed invocations since the last success; the breaker
      is open exactly when it has reached the threshold; and each failure past the threshold
      lies a full timeout after the one before. */
  lemma {:induction false} RunIsThrottled(o: Options, cs: seq<Call>)
    requires Sequential(cs)
    ensures Throttled(Run(o, cs), o, FailureStreak(o, cs), End(cs))
    decreases |cs|
  {
    if cs != [] {
      var before := cs[..|cs| - 1];
      RunIsThrottled(o, before);
      StepKeepsThrottled(Run(o, before), o, FailureStreak(o, before), End(before), cs[|cs| - 1]);
    }
  }

  /** In every sequential run, successes included, a streak of failures spanning T milliseconds
      reaches the wrapped function at most threshold + T / timeout times. */
  lemma FailureStreakBound(o: Options, cs: seq<Call>)
    requires Sequential(cs) && o.resetTimeoutMs > 0
    ensures var s := FailureStreak(o, cs);
            s.length > 0 ==> s.length <= Opening(o) + (s.lastEnd - s.start) / o.resetTimeoutMs
  {
    RunIsThrottled(o, cs);
    var s := FailureStreak(o, cs);
    if s.length >= Opening(o) {
      Quotients.AtMost(s.length - Opening(o), o.resetTimeoutMs, s.lastEnd - s.start);
    } else if s.length > 0 {
      Quotients.AtMost(0, o.resetTimeoutMs, s.lastEnd - s.start);
    }
  }

  ghost predicate AllFail(cs: seq<Call>) {
    forall i :: 0 <= i < |cs| ==> !cs[i].succeeds
  }

  lemma {:induction false} AllFailingRunIsOneStreak(o: Options, cs: seq<Call>)
    requires AllFail(cs) && Sequential(cs)
    ensures FailureStreak(o, cs).length == Invocations(o, cs)
    ensures var s := FailureStreak(o, cs); Invocations(o, cs) > 0 ==> cs[0].start <= s.start && s.lastEnd <= End(cs)
    decreases |cs|
  {
    if cs != [] {
      AllFailingRunIsOneStreak(o, cs[..|cs| - 1]);
    }
  }

  /** Against a backend that always fails, a fresh breaker makes at most
      threshold + T / timeout calls in T milliseconds. */
  lemma FailingBackendBound(o: Options, cs: seq<Call>)
    requires AllFail(cs) && Sequential(cs) && cs != [] && o.resetTimeoutMs > 0
    ensures Invocations(o, cs) <= Opening(o) + (End(cs) - cs[0].start) / o.resetTimeoutMs
  {
    AllFailingRunIsOneStreak(o, cs);
    FailureStreakBound(o, cs);
    assert cs[0].start <= End(cs);
    var s := FailureStreak(o, cs);
    if Invocations(o, cs) > 0 {
      Quotients.Grows(s.lastEnd - s.start, End(cs) - cs[0].start, o.resetTimeoutMs);
    } else {
      Quotients.AtMost(0, o.resetTimeoutMs, End(cs) - cs[0].start);
    }
  }

  /** When call `i` of the busiest failing run is made: the threshold at once, then one a timeout. */
  function BusiestTime(o: Options, i: nat): nat
    requires o.resetTimeoutMs > 0
  {
    if i < Opening(o) then 0 else (i - Opening(o) + 1) * o.resetTimeoutMs
  }

  function BusiestRun(o: Options, n: nat): seq<Call>
    requires o.resetTimeoutMs > 0
  {
    seq(n, i requires 0 <= i => Call(BusiestTime(o, i), BusiestTime(o, i), false))
  }

  lemma BusiestTimesAscend(o: Options, i: nat, j: nat)
    requires o.resetTimeoutMs > 0 && i <= j
    ensures BusiestTime(o, i) <= BusiestTime(o, j)
  {
    if i >= Opening(o) {
      Quotients.Scales(i - Opening(o) + 1, j - Opening(o) + 1, o.resetTimeoutMs);
    }
  }

  lemma {:induction false} BusiestRunIsAllInvoked(o: Options, n: nat)
    requires o.resetTimeoutMs > 0
    ensures Invocations(o, BusiestRun(o, n)) == n
    ensures var v := Run(o, BusiestRun(o, n));
            && v.failureCount == n && (v.state.Open? <==> n >= Opening(o))
            && (n > 0 ==> v.lastFailureTime == BusiestTime(o, n - 1))
  {
    if n > 0 {
      BusiestRunIsAllInvoked(o, n - 1);
      assert BusiestRun(o, n)[..n - 1] == BusiestRun(o, n - 1);
      OneMoreTimeout(n - 1 - Opening(o), o.resetTimeoutMs);
    }
  }

  /** The bound is attained, for every number of elapsed timeouts. */
  lemma FailingBackendBoundIsTight(o: Options, timeouts: nat)
    requires o.resetTimeoutMs > 0
    ensures var cs := BusiestRun(o, Opening(o) + timeouts);
            && AllFail(cs) && Sequential(cs) && cs != []
            && End(cs) - cs[0].start == timeouts * o.resetTimeoutMs
            && Invocations(o, cs) == Opening(o) + timeouts
  {
    var n := Opening(o) + timeouts;
    BusiestRunIsAllInvoked(o, n);
    var cs := BusiestRun(o, n);
    forall i, j | 0 <= i < j < n
      ensures cs[i].end <= cs[j].start
    {
      BusiestTimesAscend(o, i, j);
    }
  }

  /** The bound needs a positive timeout: with none the breaker never rejects. */
  lemma {:induction false} NoTimeoutNeverRejects(o: Options, cs: seq<Call>)
    requires Sequential(cs) && o.resetTimeoutMs <= 0
    ensures Invocations(o, cs) == |cs|
    decreases |cs|
  {
    if cs != [] {
      var before := cs[..|cs| - 1];
      NoTimeoutNeverRejects(o, before);
      RunIsThrottled(o, before);
    }
  }

  // ---- Leaving the half-open state ----

  /** A failing probe re-opens the breaker exactly when, with it, the failures since the last
      success reach the threshold. */
  lemma ProbeFailureReopensIff(o: Options, cs: seq<Call>, c: Call)
    requires Sequential(cs + [c]) && !c.succeeds
    requires Observed(Run(o, cs), o, c.start).state.HalfOpen?
    ensures AfterCall(Run(o, cs), o, c).state.Open? <==> FailureStreak(o, cs).length + 1 >= o.failureThreshold
    ensures AfterCall(Run(o, cs), o, c).state.Open? || AfterCall(Run(o, cs), o, c).state.HalfOpen?
  {
    SequentialPrefix(cs, c);
    RunIsThrottled(o, cs);
  }

  lemma SequentialPrefix(cs: seq<Call>, c: Call)
    requires Sequential(cs + [c])
    ensures Sequential(cs)
  {
    var all := cs + [c];
    forall i | 0 <= i < |cs|
      ensures cs[i].start <= cs[i].end
    {
      assert all[i] == cs[i];
    }
    forall i, j | 0 <= i < j < |cs|
      ensures cs[i].end <= cs[j].start
    {
      assert all[i].end <= all[j].start;
    }
  }

  /** The first probe after the breaker opened re-opens it when it fails. */
  lemma FirstProbeFailureReopens(o: Options, cs: seq<Call>, c: Call)
    requires Sequential(cs + [c]) && !c.succeeds && Run(o, cs).state.Open?
    ensures AfterCall(Run(o, cs), o, c).state.Open?
  {
    SequentialPrefix(cs, c);
    RunIsThrottled(o, cs);
  }

  function AfterCalls(v: View, o: Options, cs: seq<Call>): View {
    if cs == [] then v else AfterCall(AfterCalls(v, o, cs[..|cs| - 1]), o, cs[|cs| - 1])
  }

  /** Good probes in a row close an open breaker exactly when there are as many as the success threshold asks for,
      whatever was counted before it opened; until then it stays half open. */
  lemma {:induction false} ProbesCloseIff(v: View, o: Options, cs: seq<Call>)
    requires v.state.Open? && cs != [] && Admits(v, o, cs[0]) && forall i :: 0 <= i < |cs| ==> cs[i].succeeds
    ensures var v' := AfterCalls(v, o, cs);
            && v'.failureCount == 0
            && if |cs| >= o.successThreshold then v'.state.Closed? else v'.state.HalfOpen? && v'.successCount == |cs|
    decreases |cs|
  {
    if |cs| > 1 {
      ProbesCloseIff(v, o, cs[..|cs| - 1]);
    } else {
      assert AfterCalls(v, o, cs[..0]) == v;
    }
  }

  /** After one good probe a bad one does not: a breaker that had opened stays half open, and as
      many successes close it as if they had come in a row. */
  lemma MixedProbesStayHalfOpen(o: Options, cs: seq<Call>, good: Call, bad: Call, again: Call)
    requires Sequential(cs + [good]) && Run(o, cs).state.Open? && Admits(Run(o, cs), o, good)
    requires good.succeeds && !bad.succeeds && again.succeeds
    requires o.failureThreshold >= 2 && o.successThreshold == 2
    ensures var afterGood := AfterCall(Run(o, cs), o, good);
            var afterBad := AfterCall(afterGood, o, bad);
            && afterGood.state.HalfOpen? && afterBad.state.HalfOpen?
            && AfterCall(afterBad, o, again).state.Closed?
  {
    SequentialPrefix(cs, good);
    RunIsThrottled(o, cs);
  }
}
