/** The circuit breaker of src/shared/circuit-breaker.ts shared by calls that overlap, as the repositories
  share one: each call asks the state when it starts and reports when it settles. */
module BreakerOverlap {
  import C = CircuitBreaker
  import Quotients

  /** `inFlight` calls were let through and have not settled. */
  datatype State = State(view: C.View, inFlight: nat)

  const INITIAL := State(C.FRESH, 0)

  datatype Event = Starts(now: nat) | Settles(succeeds: bool, now: nat)

  predicate Admitted(s: State, o: C.Options, e: Event) {
    e.Starts? && !C.Observed(s.view, o, e.now).state.Open?
  }

  function Step(s: State, o: C.Options, e: Event): State {
    match e
    case Starts(now) => State(C.Observed(s.view, o, now), s.inFlight + if Admitted(s, o, e) then 1 else 0)
    case Settles(succeeds, now) =>
      if s.inFlight == 0 then s
      else State(if succeeds then C.AfterSuccess(s.view, o) else C.AfterFailure(s.view, o, now), s.inFlight - 1)
  }

  function Run(o: C.Options, es: seq<Event>): State {
    if es == [] then INITIAL else Step(Run(o, es[..|es| - 1]), o, es[|es| - 1])
  }

  function Invocations(o: C.Options, es: seq<Event>): nat {
    if es == [] then 0
    else
      var n := |es| - 1;
      Invocations(o, es[..n]) + if Admitted(Run(o, es[..n]), o, es[n]) then 1 else 0
  }

  /** The most calls that were ever in flight together. */
  function Overlap(o: C.Options, es: seq<Event>): nat {
    if es == [] then 0
    else
      var before, now := Overlap(o, es[..|es| - 1]), Run(o, es).inFlight;
      if now > before then now else before
  }

  ghost predicate Clocked(start: nat, es: seq<Event>) {
    && (es != [] ==> start <= es[0].now)
    && forall i, j :: 0 <= i < j < |es| ==> es[i].now <= es[j].now
  }

  function End(start: nat, es: seq<Event>): nat {
    if es == [] then start else es[|es| - 1].now
  }

  ghost predicate AllFail(es: seq<Event>) {
    forall i :: 0 <= i < |es| ==> es[i].Settles? ==> !es[i].succeeds
  }

  /** Calls let through by the time the breaker has been half open `g` times. */
  function Budget(o: C.Options, k: nat, g: nat): nat {
    C.Opening(o) + k * g + k
  }

  lemma NextBudget(o: C.Options, k: nat, g: nat)
    ensures Budget(o, k, g + 1) == Budget(o, k, g) + k
  {
    assert k * (g + 1) == k * g + k;
  }

  /** `n` calls were let through, `g` times the breaker has been half open: each time a full timeout after
      the last failure, and each time for at most the calls that can be in flight together. */
  ghost predicate Throttled(s: State, o: C.Options, n: nat, k: nat, start: nat, now: nat, g: nat) {
    var v := s.view;
    && v.failureCount + s.inFlight == n
    && start + o.resetTimeoutMs * g <= now
    && match v.state
       case Closed => v.failureCount < C.Opening(o) && g == 0
       case Open =>
         && v.failureCount >= C.Opening(o) && n < Budget(o, k, g)
         && start + o.resetTimeoutMs * g <= v.lastFailureTime <= now
       case HalfOpen => g > 0 && v.failureCount >= C.Opening(o) && v.failureCount < Budget(o, k, g - 1)
  }

  lemma StartKeepsThrottled(s: State, o: C.Options, e: Event, n: nat, k: nat, start: nat, before: nat, g: nat)
    returns (g': nat)
    requires Throttled(s, o, n, k, start, before, g) && before <= e.now && e.Starts? && o.resetTimeoutMs >= 0
    ensures Throttled(Step(s, o, e), o, n + if Admitted(s, o, e) then 1 else 0, k, start, e.now, g')
  {
    g' := if s.view.state.Open? && Admitted(s, o, e) then g + 1 else g;
    C.OneMoreTimeout(g, o.resetTimeoutMs);
  }

  lemma SettleKeepsThrottled(s: State, o: C.Options, e: Event, n: nat, k: nat, start: nat, before: nat, g: nat)
    requires Throttled(s, o, n, k, start, before, g) && before <= e.now && s.inFlight <= k
    requires e.Settles? && !e.succeeds
    ensures Throttled(Step(s, o, e), o, n, k, start, e.now, g)
  {
    if g > 0 {
      NextBudget(o, k, g - 1);
    }
  }

  lemma {:induction false} RunIsThrottled(o: C.Options, es: seq<Event>, k: nat, start: nat) returns (g: nat)
    requires Clocked(start, es) && AllFail(es) && Overlap(o, es) <= k && o.resetTimeoutMs >= 0
    ensures Throttled(Run(o, es), o, Invocations(o, es), k, start, End(start, es), g)
    ensures Run(o, es).inFlight <= k
    decreases |es|
  {
    if es == [] {
      return 0;
    }
    var before, e := es[..|es| - 1], es[|es| - 1];
    g := RunIsThrottled(o, before, k, start);
    var s, n := Run(o, before), Invocations(o, before);
    if e.Starts? {
      g := StartKeepsThrottled(s, o, e, n, k, start, End(start, before), g);
    } else {
      SettleKeepsThrottled(s, o, e, n, k, start, End(start, before), g);
    }
  }

  lemma ThrottledIsBudgeted(s: State, o: C.Options, n: nat, k: nat, start: nat, now: nat, g: nat)
    requires Throttled(s, o, n, k, start, now, g) && s.inFlight <= k
    ensures n < Budget(o, k, g)
  {
    if g > 0 {
      NextBudget(o, k, g - 1);
    }
  }

  /** With at most `k` calls in flight together, all failing, a fresh breaker lets through at most
      threshold + k - 1 calls and, for every timeout that has passed, `k` more. For calls one at a time that
      is threshold + T / timeout. */
  lemma OverlappingBackendBound(o: C.Options, es: seq<Event>, k: nat, start: nat)
    requires Clocked(start, es) && AllFail(es) && Overlap(o, es) <= k && o.resetTimeoutMs > 0
    ensures Invocations(o, es) <= C.Opening(o) + k * ((End(start, es) - start) / o.resetTimeoutMs) + k - 1
  {
    var g := RunIsThrottled(o, es, k, start);
    ThrottledIsBudgeted(Run(o, es), o, Invocations(o, es), k, start, End(start, es), g);
    var passed := End(start, es) - start;
    assert g * o.resetTimeoutMs == o.resetTimeoutMs * g;
    Quotients.AtMost(g, o.resetTimeoutMs, passed);
    Quotients.Scales(g, passed / o.resetTimeoutMs, k);
    assert k * g == g * k && k * (passed / o.resetTimeoutMs) == (passed / o.resetTimeoutMs) * k;
  }

  // ---- The busiest run ----

  lemma Extend(o: C.Options, es: seq<Event>, e: Event)
    ensures Run(o, es + [e]) == Step(Run(o, es), o, e)
    ensures Invocations(o, es + [e]) == Invocations(o, es) + if Admitted(Run(o, es), o, e) then 1 else 0
    ensures var n := Step(Run(o, es), o, e).inFlight;
            Overlap(o, es + [e]) == if n > Overlap(o, es) then n else Overlap(o, es)
  {
    assert (es + [e])[..|es|] == es;
  }

  /** A run of failing calls up to `now`, at most `most` together, that comes to `s` and let through `n`. */
  ghost predicate Comes(o: C.Options, es: seq<Event>, s: State, n: nat, now: nat, most: nat) {
    && Clocked(0, es) && AllFail(es) && End(0, es) <= now && Overlap(o, es) <= most
    && Run(o, es) == s && Invocations(o, es) == n
  }

  lemma OneMore(o: C.Options, es: seq<Event>, s: State, n: nat, now: nat, most: nat, e: Event)
    requires Comes(o, es, s, n, now, most) && e.now == now && (e.Settles? ==> !e.succeeds)
    requires Step(s, o, e).inFlight <= most
    ensures Comes(o, es + [e], Step(s, o, e), n + if Admitted(s, o, e) then 1 else 0, now, most)
    ensures End(0, es + [e]) == now
  {
    Extend(o, es, e);
  }

  lemma {:induction false} Starting(o: C.Options, es: seq<Event>, s: State, n: nat, now: nat, most: nat, k: nat)
    returns (all: seq<Event>)
    requires Comes(o, es, s, n, now, most) && !s.view.state.Open? && s.inFlight + k <= most
    ensures Comes(o, all, State(s.view, s.inFlight + k), n + k, now, most)
    decreases k
  {
    all := es;
    if k > 0 {
      var before := Starting(o, es, s, n, now, most, k - 1);
      OneMore(o, before, State(s.view, s.inFlight + (k - 1)), n + (k - 1), now, most, Starts(now));
      all := before + [Starts(now)];
    }
  }

  /** The breaker once `k` calls have failed at `now`. */
  function Failed(v: C.View, o: C.Options, k: nat, now: nat): C.View {
    if k == 0 then v else C.AfterFailure(Failed(v, o, k - 1, now), o, now)
  }

  lemma {:induction false} FailedCounts(v: C.View, o: C.Options, k: nat, now: nat)
    requires k > 0
    ensures var v' := Failed(v, o, k, now);
            && v'.failureCount == v.failureCount + k && v'.lastFailureTime == now
            && v'.state == if v'.failureCount >= C.Opening(o) then C.Open else v.state
  {
    if k > 1 {
      FailedCounts(v, o, k - 1, now);
    } else {
      assert Failed(v, o, k - 1, now) == v;
    }
  }

  lemma {:induction false} Failing(o: C.Options, es: seq<Event>, s: State, n: nat, now: nat, most: nat, k: nat)
    returns (all: seq<Event>)
    requires Comes(o, es, s, n, now, most) && k <= s.inFlight <= most
    ensures Comes(o, all, State(Failed(s.view, o, k, now), s.inFlight - k), n, now, most)
    ensures k > 0 ==> End(0, all) == now
    decreases k
  {
    all := es;
    if k > 0 {
      var before := Failing(o, es, s, n, now, most, k - 1);
      var v := Failed(s.view, o, k - 1, now);
      OneMore(o, before, State(v, s.inFlight - (k - 1)), n, now, most, Settles(false, now));
      all := before + [Settles(false, now)];
    }
  }

  /** `k` calls start together and all fail. The first of them may find that the timeout has passed. */
  lemma Round(o: C.Options, es: seq<Event>, v: C.View, n: nat, now: nat, most: nat, k: nat)
    returns (all: seq<Event>)
    requires Comes(o, es, State(v, 0), n, now, most) && 0 < k <= most && !C.Observed(v, o, now).state.Open?
    ensures Comes(o, all, State(Failed(C.Observed(v, o, now), o, k, now), 0), n + k, now, most)
    ensures End(0, all) == now
  {
    var seen := C.Observed(v, o, now);
    OneMore(o, es, State(v, 0), n, now, most, Starts(now));
    all := Starting(o, es + [Starts(now)], State(seen, 1), n + 1, now, most, k - 1);
    all := Failing(o, all, State(seen, k), n + k, now, most, k);
  }

  /** Failures one at a time, up to the last before the threshold. */
  lemma {:induction false} OneByOne(o: C.Options, n: nat, most: nat) returns (es: seq<Event>, v: C.View)
    requires n < C.Opening(o) && 0 < most
    ensures Comes(o, es, State(v, 0), n, 0, most) && v.state.Closed? && v.failureCount == n
  {
    es, v := [], C.FRESH;
    if n > 0 {
      var before, w := OneByOne(o, n - 1, most);
      FailedCounts(w, o, 1, 0);
      es := Round(o, before, w, n - 1, 0, most, 1);
      v := Failed(w, o, 1, 0);
    }
  }

  /** Then `k` calls together, and `k` more whenever the timeout has passed. */
  lemma {:induction false} Busiest(o: C.Options, k: nat, timeouts: nat) returns (es: seq<Event>, v: C.View)
    requires o.resetTimeoutMs > 0 && k > 0
    ensures Comes(o, es, State(v, 0), Budget(o, k, timeouts) - 1, timeouts * o.resetTimeoutMs, k)
    ensures v.state.Open? && v.lastFailureTime == End(0, es) == timeouts * o.resetTimeoutMs
    ensures v.failureCount >= C.Opening(o)
  {
    var before, w;
    if timeouts == 0 {
      before, w := OneByOne(o, C.Opening(o) - 1, k);
      es := Round(o, before, w, C.Opening(o) - 1, 0, k, k);
      FailedCounts(w, o, k, 0);
      v := Failed(w, o, k, 0);
    } else {
      before, w := Busiest(o, k, timeouts - 1);
      C.OneMoreTimeout(timeouts - 1, o.resetTimeoutMs);
      NextBudget(o, k, timeouts - 1);
      var now := timeouts * o.resetTimeoutMs;
      es := Round(o, before, w, Budget(o, k, timeouts - 1) - 1, now, k, k);
      FailedCounts(C.Observed(w, o, now), o, k, now);
      v := Failed(C.Observed(w, o, now), o, k, now);
    }
  }

  /** The bound is attained, for every overlap and every number of elapsed timeouts. */
  lemma OverlappingBackendBoundIsTight(o: C.Options, k: nat, timeouts: nat) returns (es: seq<Event>)
    requires o.resetTimeoutMs > 0 && k > 0
    ensures Clocked(0, es) && AllFail(es) && Overlap(o, es) <= k && End(0, es) == timeouts * o.resetTimeoutMs
    ensures Invocations(o, es) == C.Opening(o) + k * timeouts + k - 1
  {
    var v;
    es, v := Busiest(o, k, timeouts);
  }
}
