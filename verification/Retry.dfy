/** Retry with exponential backoff, src/shared/retry.ts, and the way the PostgreSQL repositories
  combine it with the circuit breaker: one breaker call around one retried query. */
module Retry {
  import opened Outcomes
  import CircuitBreaker
  import BreakerOverlap
  import Quotients

  /** `retryableErrors` holds message fragments; none given means every error is retried. */
  datatype Options = Options(
    maxAttempts: int,
    baseDelayMs: real,
    maxDelayMs: real,
    backoffMultiplier: real,
    retryableErrors: Option<seq<string>>)

  /** How one attempt settles: with a value, or with an error message. */
  type Attempt<T> = Result<T, string>

  /** What the caller sees. With no attempt made, the error thrown is undefined. */
  datatype Settled<T> = Resolved(value: T) | Thrown(error: Option<string>)

  predicate Includes(message: string, fragment: string) {
    exists i :: 0 <= i <= |message| - |fragment| && fragment <= message[i..]
  }

  predicate IsErrorRetryable(message: string, retryableErrors: Option<seq<string>>) {
    retryableErrors.None? || retryableErrors.value == []
    || exists fragment :: fragment in retryableErrors.value && Includes(message, fragment)
  }

  /** The fragment stands in the message, after `before`. */
  predicate StandsIn(message: string, fragment: string, before: string, after: string) {
    message == before + fragment + after
  }

  /** An error is listed when a fragment on the list stands in its message; with no list every error is. */
  ghost predicate Listed(message: string, retryableErrors: Option<seq<string>>) {
    || retryableErrors in {None, Some([])}
    || exists fragment, before, after :: fragment in retryableErrors.value && StandsIn(message, fragment, before, after)
  }

  lemma IncludesIff(message: string, fragment: string)
    ensures Includes(message, fragment) <==> exists before, after :: StandsIn(message, fragment, before, after)
  {
    if i: int :| 0 <= i <= |message| - |fragment| && fragment <= message[i..] {
      assert message == message[..i] + message[i..];
      assert message[i..] == fragment + message[i..][|fragment|..];
      assert StandsIn(message, fragment, message[..i], message[i..][|fragment|..]);
    }
    if before, after :| StandsIn(message, fragment, before, after) {
      assert message[|before|..] == fragment + after;
    }
  }

  lemma RetryableIff(message: string, retryableErrors: Option<seq<string>>)
    ensures IsErrorRetryable(message, retryableErrors) <==> Listed(message, retryableErrors)
  {
    if retryableErrors.Some? {
      forall fragment | fragment in retryableErrors.value
        ensures Includes(message, fragment) <==> exists before, after :: StandsIn(message, fragment, before, after)
      {
        IncludesIff(message, fragment);
      }
    }
  }

  function Power(x: real, n: nat): real {
    if n == 0 then 1.0 else x * Power(x, n - 1)
  }

  /** `jitter` is what 0.5 + Math.random() * 0.5 came to: at least one half, below one. */
  function CalculateDelay(attempt: nat, o: Options, jitter: real): real
    requires attempt >= 1
  {
    var delay := o.baseDelayMs * Power(o.backoffMultiplier, attempt - 1);
    (if delay < o.maxDelayMs then delay else o.maxDelayMs) * jitter
  }

  /** Whether the loop ends after this attempt settled this way. */
  predicate StopsAt<T>(a: Attempt<T>, attempt: int, o: Options) {
    a.Success? || attempt == o.maxAttempts || !IsErrorRetryable(a.error, o.retryableErrors)
  }

  /** The waits before attempts 2 to `k`. */
  function Waited(o: Options, jitters: nat -> real, k: nat): real
    requires k >= 1
  {
    if k == 1 then 0.0 else Waited(o, jitters, k - 1) + CalculateDelay(k - 1, o, jitters(k - 1))
  }

  /** The attempt that ends the loop. */
  function Attempts<T>(settles: nat -> Attempt<T>, o: Options, from: nat): (k: nat)
    requires 1 <= from <= o.maxAttempts
    ensures from <= k <= o.maxAttempts && StopsAt(settles(k), k, o)
    ensures forall i :: from <= i < k ==> !StopsAt(settles(i), i, o)
    decreases o.maxAttempts - from
  {
    if StopsAt(settles(from), from, o) then from else Attempts(settles, o, from + 1)
  }

  /** Calls the function until an attempt settles the matter: attempt `k` settles as
      `settles(k)`. The attempts before the last all failed retryably, and the result is that
      of the last. */
  method WithRetry<T>(settles: nat -> Attempt<T>, jitters: nat -> real, o: Options)
    returns (r: Settled<T>, calls: nat, waited: real)
    ensures o.maxAttempts < 1 ==> calls == 0 && r == Thrown(None) && waited == 0.0
    ensures o.maxAttempts >= 1 ==>
              && calls == Attempts(settles, o, 1) && 1 <= calls <= o.maxAttempts
              && (forall k :: 1 <= k < calls ==> !StopsAt(settles(k), k, o))
              && StopsAt(settles(calls), calls, o)
              && r == (match settles(calls) case Success(v) => Resolved(v) case Failure(e) => Thrown(Some(e)))
              && waited == Waited(o, jitters, calls)
    ensures o.maxAttempts >= 1 ==>
              && (forall k :: 1 <= k < calls ==> settles(k).Failure? && Listed(settles(k).error, o.retryableErrors))
              && (settles(calls).Success? || calls == o.maxAttempts
                  || !Listed(settles(calls).error, o.retryableErrors))
  {
    forall message
      ensures IsErrorRetryable(message, o.retryableErrors) <==> Listed(message, o.retryableErrors)
    {
      RetryableIff(message, o.retryableErrors);
    }
    var lastError: Option<string> := None;
    calls := 0;
    waited := 0.0;
    var attempt := 1;
    while attempt <= o.maxAttempts
      invariant attempt == calls + 1
      invariant attempt == 1 || attempt <= o.maxAttempts
      invariant attempt == 1 ==> lastError == None
      invariant forall k :: 1 <= k <= calls ==> !StopsAt(settles(k), k, o)
      invariant waited == Waited(o, jitters, attempt)
      invariant attempt <= o.maxAttempts ==> Attempts(settles, o, 1) == Attempts(settles, o, attempt)
      decreases o.maxAttempts - attempt
    {
      calls := calls + 1;
      match settles(attempt)
      case Success(v) =>
        return Resolved(v), calls, waited;
      case Failure(error) =>
        lastError := Some(error);
        if attempt == o.maxAttempts {
          break;
        }
        if !IsErrorRetryable(error, o.retryableErrors) {
          break;
        }
        waited := waited + CalculateDelay(attempt, o, jitters(attempt));
        attempt := attempt + 1;
    }
    r := Thrown(lastError);
  }

  ghost predicate Jittered(jitters: nat -> real) {
    forall k :: 0.5 <= jitters(k) < 1.0
  }

  lemma DelayBounds(attempt: nat, o: Options, jitter: real)
    requires attempt >= 1 && 0.5 <= jitter < 1.0
    requires 0.0 <= o.baseDelayMs && 0.0 <= o.maxDelayMs && 0.0 <= o.backoffMultiplier
    ensures 0.0 <= CalculateDelay(attempt, o, jitter) <= o.maxDelayMs
  {
    PowerIsNonNegative(o.backoffMultiplier, attempt - 1);
    var p := Power(o.backoffMultiplier, attempt - 1);
    assert o.baseDelayMs * p >= 0.0;
    var delay := if o.baseDelayMs * p < o.maxDelayMs then o.baseDelayMs * p else o.maxDelayMs;
    Product(delay, jitter);
  }

  /** The waits grow by the multiplier from one attempt to the next until they reach the cap, and stay there; the
      jitter takes its share of each. */
  lemma DelaysGrow(k: nat, o: Options, jitter: real)
    requires k >= 1 && 0.0 <= o.baseDelayMs && 0.0 <= o.maxDelayMs && 1.0 <= o.backoffMultiplier
    ensures CalculateDelay(1, o, 1.0) == if o.baseDelayMs < o.maxDelayMs then o.baseDelayMs else o.maxDelayMs
    ensures var grown := o.backoffMultiplier * CalculateDelay(k, o, 1.0);
            CalculateDelay(k + 1, o, 1.0) == if grown < o.maxDelayMs then grown else o.maxDelayMs
    ensures CalculateDelay(k, o, jitter) == CalculateDelay(k, o, 1.0) * jitter
  {
    var delay, m := o.baseDelayMs * Power(o.backoffMultiplier, k - 1), o.backoffMultiplier;
    NextPower(o.baseDelayMs, m, Power(m, k - 1));
    if delay >= o.maxDelayMs {
      Larger(m, delay);
      Larger(m, o.maxDelayMs);
      Larger(m, delay - o.maxDelayMs);
    }
  }

  lemma NextPower(base: real, m: real, power: real)
    ensures base * (m * power) == m * (base * power)
  {
  }

  lemma Larger(m: real, x: real)
    requires 1.0 <= m && 0.0 <= x
    ensures x <= m * x
  {
    assert 0.0 <= (m - 1.0) * x;
  }

  const DEFAULT_RETRY_OPTIONS := Options(3, 100.0, 5000.0, 2.0, None)

  /** Unless told otherwise it tries three times, and waits up to a tenth and up to a fifth of a second. */
  lemma DefaultWaits(jitters: nat -> real)
    ensures Waited(DEFAULT_RETRY_OPTIONS, jitters, 1) == 0.0
    ensures Waited(DEFAULT_RETRY_OPTIONS, jitters, 3) == 100.0 * jitters(1) + 200.0 * jitters(2)
  {
    assert Power(2.0, 0) == 1.0 && Power(2.0, 1) == 2.0;
    assert CalculateDelay(1, DEFAULT_RETRY_OPTIONS, jitters(1)) == 100.0 * jitters(1);
    assert CalculateDelay(2, DEFAULT_RETRY_OPTIONS, jitters(2)) == 200.0 * jitters(2);
  }

  lemma Product(x: real, y: real)
    requires 0.0 <= x && 0.0 <= y <= 1.0
    ensures 0.0 <= x * y <= x
  {
    assert 0.0 <= x * (1.0 - y);
  }

  lemma {:induction false} PowerIsNonNegative(x: real, n: nat)
    requires x >= 0.0
    ensures Power(x, n) >= 0.0
  {
    if n > 0 {
      PowerIsNonNegative(x, n - 1);
    }
  }

  /** All the waiting of one call together is at most one maximal delay per repeated attempt. */
  lemma {:induction false} WaitingIsBounded(o: Options, jitters: nat -> real, k: nat)
    requires k >= 1 && Jittered(jitters)
    requires 0.0 <= o.baseDelayMs && 0.0 <= o.maxDelayMs && 0.0 <= o.backoffMultiplier
    ensures 0.0 <= Waited(o, jitters, k) <= (k - 1) as real * o.maxDelayMs
  {
    if k > 1 {
      WaitingIsBounded(o, jitters, k - 1);
      DelayBounds(k - 1, o, jitters(k - 1));
    }
  }

  // ---- A retried query inside a breaker call ----

  /** One query: when its breaker call starts and settles, and how its attempts go. */
  datatype Query<!T> = Query(start: nat, end: nat, settles: nat -> Attempt<T>)

  /** As the breaker sees it: the retry loop is the wrapped function, and settles as its last attempt does. */
  function CallOf<T>(q: Query<T>, o: Options): CircuitBreaker.Call
    requires o.maxAttempts >= 1
  {
    CircuitBreaker.Call(q.start, q.end, q.settles(Attempts(q.settles, o, 1)).Success?)
  }

  function Calls<T>(qs: seq<Query<T>>, o: Options): (cs: seq<CircuitBreaker.Call>)
    requires o.maxAttempts >= 1
    ensures |cs| == |qs|
  {
    seq(|qs|, i requires 0 <= i < |qs| => CallOf(qs[i], o))
  }

  /** The backend calls of a run: the attempts of the queries the breaker lets through. */
  function BackendCalls<T>(b: CircuitBreaker.Options, o: Options, qs: seq<Query<T>>): nat
    requires o.maxAttempts >= 1
  {
    if qs == [] then 0
    else
      var n := |qs| - 1;
      BackendCalls(b, o, qs[..n])
      + if CircuitBreaker.Invoked(b, Calls(qs, o), n) then Attempts(qs[n].settles, o, 1) else 0
  }

  lemma OneMore(m: nat, k: nat)
    ensures m * (k + 1) == m * k + m
  {
  }

  lemma {:induction false} BackendCallsPerInvocation<T>(b: CircuitBreaker.Options, o: Options, qs: seq<Query<T>>)
    requires o.maxAttempts >= 1
    ensures BackendCalls(b, o, qs) <= o.maxAttempts * CircuitBreaker.Invocations(b, Calls(qs, o))
    decreases |qs|
  {
    if qs != [] {
      var n := |qs| - 1;
      BackendCallsPerInvocation(b, o, qs[..n]);
      assert Calls(qs, o)[..n] == Calls(qs[..n], o);
      OneMore(o.maxAttempts, CircuitBreaker.Invocations(b, Calls(qs[..n], o)));
    }
  }

  ghost predicate EveryAttemptFails<T(!new)>(qs: seq<Query<T>>) {
    forall i, k: nat :: 0 <= i < |qs| ==> qs[i].settles(k).Failure?
  }

  /** What the breaker alone lets through of a failing run, at most. */
  function BreakerBudget(b: CircuitBreaker.Options, cs: seq<CircuitBreaker.Call>): int
    requires cs != [] && b.resetTimeoutMs > 0
  {
    CircuitBreaker.Opening(b) + (CircuitBreaker.End(cs) - cs[0].start) / b.resetTimeoutMs
  }

  lemma WithinBudget(calls: int, invocations: int, budget: int, m: nat)
    requires calls <= m * invocations && invocations <= budget
    ensures calls <= m * budget
  {
    Quotients.Scales(invocations, budget, m);
  }

  /** A backend on which every attempt fails is called at most maxAttempts * (threshold + T / timeout)
      times in T milliseconds through the breaker and the retry loop together. */
  lemma {:induction false} FailingBackendIsShielded<T(!new)>(b: CircuitBreaker.Options, o: Options, qs: seq<Query<T>>)
    requires o.maxAttempts >= 1 && EveryAttemptFails(qs) && CircuitBreaker.Sequential(Calls(qs, o))
    requires qs != [] && b.resetTimeoutMs > 0
    ensures BackendCalls(b, o, qs) <= o.maxAttempts * BreakerBudget(b, Calls(qs, o))
  {
    var cs := Calls(qs, o);
    assert CircuitBreaker.AllFail(cs);
    assert CircuitBreaker.Invocations(b, cs) <= BreakerBudget(b, cs) by {
      CircuitBreaker.FailingBackendBound(b, cs);
    }
    BackendCallsPerInvocation(b, o, qs);
    WithinBudget(BackendCalls(b, o, qs), CircuitBreaker.Invocations(b, cs), BreakerBudget(b, cs), o.maxAttempts);
  }

  // ---- Queries that overlap ----

  /** Query `query` asks the breaker, or has come to its end. */
  datatype Event = Begins(query: nat, now: nat) | Ends(query: nat, now: nat)

  /** As the breaker sees it; `queries` is how the attempts of each query go. */
  function Seen<T>(queries: nat -> nat -> Attempt<T>, o: Options, e: Event): BreakerOverlap.Event
    requires o.maxAttempts >= 1
  {
    match e
    case Begins(_, now) => BreakerOverlap.Starts(now)
    case Ends(q, now) => BreakerOverlap.Settles(queries(q)(Attempts(queries(q), o, 1)).Success?, now)
  }

  function AllSeen<T>(queries: nat -> nat -> Attempt<T>, o: Options, es: seq<Event>): (r: seq<BreakerOverlap.Event>)
    requires o.maxAttempts >= 1
    ensures |r| == |es|
  {
    seq(|es|, i requires 0 <= i < |es| => Seen(queries, o, es[i]))
  }

  /** The attempts of the queries that the breaker lets through. */
  function OverlappingCalls<T>(b: CircuitBreaker.Options, o: Options, queries: nat -> nat -> Attempt<T>,
                               es: seq<Event>): nat
    requires o.maxAttempts >= 1
  {
    if es == [] then 0
    else
      var n := |es| - 1;
      var before := BreakerOverlap.Run(b, AllSeen(queries, o, es[..n]));
      OverlappingCalls(b, o, queries, es[..n])
      + if BreakerOverlap.Admitted(before, b, Seen(queries, o, es[n])) then Attempts(queries(es[n].query), o, 1) else 0
  }

  lemma {:induction false} OverlappingCallsPerInvocation<T>(b: CircuitBreaker.Options, o: Options,
                                                            queries: nat -> nat -> Attempt<T>, es: seq<Event>)
    requires o.maxAttempts >= 1
    ensures OverlappingCalls(b, o, queries, es)
         <= o.maxAttempts * BreakerOverlap.Invocations(b, AllSeen(queries, o, es))
    decreases |es|
  {
    if es != [] {
      var n := |es| - 1;
      OverlappingCallsPerInvocation(b, o, queries, es[..n]);
      assert AllSeen(queries, o, es)[..n] == AllSeen(queries, o, es[..n]);
      OneMore(o.maxAttempts, BreakerOverlap.Invocations(b, AllSeen(queries, o, es[..n])));
    }
  }

  /** With at most `k` queries in flight together, a backend on which every attempt fails is called at most
      maxAttempts * (threshold + k * (T / timeout) + k - 1) times in T milliseconds. */
  lemma OverlappingBackendIsShielded<T(!new)>(b: CircuitBreaker.Options, o: Options,
                                              queries: nat -> nat -> Attempt<T>, es: seq<Event>, k: nat, start: nat)
    requires o.maxAttempts >= 1 && b.resetTimeoutMs > 0 && forall q, i :: queries(q)(i).Failure?
    requires BreakerOverlap.Clocked(start, AllSeen(queries, o, es))
    requires BreakerOverlap.Overlap(b, AllSeen(queries, o, es)) <= k
    ensures var passed := (BreakerOverlap.End(start, AllSeen(queries, o, es)) - start) / b.resetTimeoutMs;
            OverlappingCalls(b, o, queries, es) <= o.maxAttempts * (CircuitBreaker.Opening(b) + k * passed + k - 1)
  {
    var seen := AllSeen(queries, o, es);
    assert BreakerOverlap.AllFail(seen);
    OverlappingCallsPerInvocation(b, o, queries, es);
    BreakerOverlap.OverlappingBackendBound(b, seen, k, start);
    var passed := (BreakerOverlap.End(start, seen) - start) / b.resetTimeoutMs;
    WithinBudget(OverlappingCalls(b, o, queries, es), BreakerOverlap.Invocations(b, seen),
                 CircuitBreaker.Opening(b) + k * passed + k - 1, o.maxAttempts);
  }
}
