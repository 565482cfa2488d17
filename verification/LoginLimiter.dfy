/** The login rate limiter of src/infrastructure/api/login-rate-limiter.ts.

  A class of mutable records is proved against a transition system on tables; the timing
  theorems are about runs of that system under a clock that never goes back. */
module LoginLimiter {
  import opened Outcomes

  const ONE_MINUTE: nat := 60_000
  const STALE_THRESHOLD_MS: nat := 30 * 60_000

  datatype Tier = Tier(threshold: nat, durationMs: nat)

  const LOCKOUT_TIERS: seq<Tier> := [Tier(5, 60_000), Tier(10, 300_000), Tier(15, 900_000)]

  // ---- The table of records, as values ----

  datatype Record = Record(count: nat, firstFailureAt: nat, lockedUntil: Option<nat>)

  type Table = map<string, Record>

  datatype Answer = Unlocked | Locked(retryAfterMs: int)

  function LockoutDuration(failureCount: nat): nat {
    if failureCount >= 15 then 900_000
    else if failureCount >= 10 then 300_000
    else if failureCount >= 5 then 60_000
    else 0
  }

  function Lookup(t: Table, email: string): Option<Record> {
    if email in t then Some(t[email]) else None
  }

  predicate HoldsAt(r: Record, now: nat) {
    r.lockedUntil.Some? && now < r.lockedUntil.value
  }

  /** isLocked on one record: an expired lockout restarts the count. */
  function Refreshed(r: Record, now: nat): Record {
    if r.lockedUntil.Some? && r.lockedUntil.value <= now then Record(0, now, None) else r
  }

  function AfterCheck(t: Table, email: string, now: nat): Table {
    if email in t then t[email := Refreshed(t[email], now)] else t
  }

  function CheckAnswer(t: Table, email: string, now: nat): Answer {
    if email in t && HoldsAt(t[email], now) then Locked(t[email].lockedUntil.value - now) else Unlocked
  }

  function Prior(prior: Option<Record>, now: nat): Record {
    if prior.Some? then prior.value else Record(0, now, None)
  }

  /** recordFailure on one record; absent means the failure opens a new one. */
  function Failed(prior: Option<Record>, now: nat): Record {
    var r := Prior(prior, now);
    var d := LockoutDuration(r.count + 1);
    Record(r.count + 1, r.firstFailureAt, if d > 0 then Some(now + d) else r.lockedUntil)
  }

  function AfterFailure(t: Table, email: string, now: nat): Table {
    t[email := Failed(Lookup(t, email), now)]
  }

  function FailureAnswer(t: Table, email: string, now: nat): Answer {
    var d := LockoutDuration(Failed(Lookup(t, email), now).count);
    if d > 0 then Locked(d) else Unlocked
  }

  predicate Stale(r: Record, now: nat) {
    var lastActivity := match r.lockedUntil
                        case Some(l) => if l >= r.firstFailureAt then l else r.firstFailureAt
                        case None => r.firstFailureAt;
    now - lastActivity > STALE_THRESHOLD_MS
  }

  function AfterCleanup(t: Table, now: nat): Table {
    map email | email in t && !Stale(t[email], now) :: t[email]
  }

  // ---- The program ----

  class AttemptRecord {
    var count: nat
    var firstFailureAt: nat
    var lockedUntil: Option<nat>

    ghost function View(): Record
      reads this
    {
      Record(count, firstFailureAt, lockedUntil)
    }

    constructor (now: nat)
      ensures View() == Record(0, now, None)
    {
      count := 0;
      firstFailureAt := now;
      lockedUntil := None;
    }

    /** One more failure on this record. */
    method Count(now: nat) returns (answer: Answer)
      modifies this
      ensures View() == Failed(Some(old(View())), now)
      ensures answer == if LockoutDuration(count) > 0 then Locked(LockoutDuration(count)) else Unlocked
    {
      count := count + 1;
      var lockoutDuration := GetLockoutDuration(count);
      if lockoutDuration > 0 {
        lockedUntil := Some(now + lockoutDuration);
        return Locked(lockoutDuration);
      }
      return Unlocked;
    }
  }

  method GetLockoutDuration(failureCount: nat) returns (duration: nat)
    ensures duration == LockoutDuration(failureCount)
  {
    duration := 0;
    for i := 0 to |LOCKOUT_TIERS|
      invariant duration == if i >= 1 && failureCount >= 5 then LOCKOUT_TIERS[
          if i >= 3 && failureCount >= 15 then 2 else if i >= 2 && failureCount >= 10 then 1 else 0].durationMs
        else 0
    {
      if failureCount >= LOCKOUT_TIERS[i].threshold {
        duration := LOCKOUT_TIERS[i].durationMs;
      }
    }
  }

  lemma SameButOne(t: Table, t': Table, email: string)
    requires t'.Keys == t.Keys + {email} && forall e :: e in t && e != email ==> t'[e] == t[e]
    ensures t' == t[email := t'[email]]
  {
  }

  class LoginRateLimiter {
    var attempts: map<string, AttemptRecord>

    /** No record is shared between two emails. */
    ghost predicate Valid()
      reads this
    {
      forall e, f :: e in attempts && f in attempts && e != f ==> attempts[e] != attempts[f]
    }

    ghost function Contents(): Table
      reads this, attempts.Values
    {
      map e | e in attempts :: attempts[e].View()
    }

    constructor ()
      ensures Valid() && Contents() == map[]
    {
      attempts := map[];
    }

    method IsLocked(email: string, now: nat) returns (answer: Answer)
      requires Valid()
      modifies attempts.Values
      ensures Valid() && attempts == old(attempts)
      ensures Contents() == AfterCheck(old(Contents()), email, now)
      ensures answer == CheckAnswer(old(Contents()), email, now)
    {
      if email !in attempts {
        return Unlocked;
      }
      var record := attempts[email];
      if record.lockedUntil.Some? && now < record.lockedUntil.value {
        return Locked(record.lockedUntil.value - now);
      }
      if record.lockedUntil.Some? && now >= record.lockedUntil.value {
        record.count := 0;
        record.lockedUntil := None;
        record.firstFailureAt := now;
      }
      return Unlocked;
    }

    /** The record of an email, a new one when it has none. */
    method OpenRecord(email: string, now: nat) returns (record: AttemptRecord)
      requires Valid()
      modifies this
      ensures Valid() && attempts == old(attempts)[email := record]
      ensures if email in old(attempts) then record == old(attempts)[email] else fresh(record)
      ensures record.View() == Prior(Lookup(old(Contents()), email), now)
    {
      if email !in attempts {
        var created := new AttemptRecord(now);
        attempts := attempts[email := created];
      }
      record := attempts[email];
    }

    method RecordFailure(email: string, now: nat) returns (answer: Answer)
      requires Valid()
      modifies this, attempts.Values
      ensures Valid() && attempts - {email} == old(attempts) - {email} && email in attempts
      ensures if email in old(attempts) then attempts == old(attempts) else fresh(attempts[email])
      ensures Contents() == AfterFailure(old(Contents()), email, now)
      ensures answer == FailureAnswer(old(Contents()), email, now)
    {
      var record := OpenRecord(email, now);
      ghost var prior := Lookup(old(Contents()), email);
      assert record.View() == Prior(prior, now);
      answer := record.Count(now);
      assert record.View() == Failed(prior, now);
      SameButOne(old(Contents()), Contents(), email);
    }

    method RecordSuccess(email: string)
      requires Valid()
      modifies this
      ensures Valid() && attempts.Values <= old(attempts.Values)
      ensures Contents() == old(Contents()) - {email}
    {
      attempts := attempts - {email};
    }

    method Cleanup(now: nat)
      requires Valid()
      modifies this
      ensures Valid() && attempts.Values <= old(attempts.Values)
      ensures Contents() == AfterCleanup(old(Contents()), now)
    {
      var emails := attempts.Keys;
      while emails != {}
        invariant emails <= attempts.Keys <= old(attempts.Keys)
        invariant forall e :: e in attempts ==> attempts[e] == old(attempts)[e]
        invariant forall e :: e in old(attempts) && e !in emails ==>
                                (e in attempts <==> !Stale(old(attempts)[e].View(), now))
        decreases emails
      {
        var email :| email in emails;
        var record := attempts[email];
        var lastActivity := match record.lockedUntil
                            case Some(l) => if l >= record.firstFailureAt then l else record.firstFailureAt
                            case None => record.firstFailureAt;
        if now - lastActivity > STALE_THRESHOLD_MS {
          attempts := attempts - {email};
        }
        emails := emails - {email};
      }
    }
  }

  // ---- Runs ----

  /** What happens to the limiter. `FailedLogin` and `GoodLogin` ask isLocked, record nothing when the
      answer is locked, and otherwise record at once, with nothing in between; `Fail` is a bare
      recordFailure. */
  datatype Event =
    | FailedLogin(email: string, now: nat)
    | GoodLogin(email: string, now: nat)
    | Check(email: string, now: nat)
    | Fail(email: string, now: nat)
    | Sweep(now: nat)

  function Step(t: Table, e: Event): Table {
    match e
    case FailedLogin(email, now) =>
      if CheckAnswer(t, email, now).Locked? then t else AfterFailure(AfterCheck(t, email, now), email, now)
    case GoodLogin(email, now) =>
      if CheckAnswer(t, email, now).Locked? then t else t - {email}
    case Check(email, now) => AfterCheck(t, email, now)
    case Fail(email, now) => AfterFailure(t, email, now)
    case Sweep(now) => AfterCleanup(t, now)
  }

  function Run(t: Table, es: seq<Event>): Table {
    if es == [] then t else Step(Run(t, es[..|es| - 1]), es[|es| - 1])
  }

  ghost predicate Clocked(start: nat, es: seq<Event>) {
    && (es != [] ==> start <= es[0].now)
    && forall i, j :: 0 <= i < j < |es| ==> es[i].now <= es[j].now
  }

  function End(start: nat, es: seq<Event>): nat {
    if es == [] then start else es[|es| - 1].now
  }

  /** Whether this event records a failure for `email`. */
  predicate Records(t: Table, e: Event, email: string) {
    match e
    case FailedLogin(who, now) => who == email && CheckAnswer(t, who, now).Unlocked?
    case Fail(who, _) => who == email
    case _ => false
  }

  /** How many failures the limiter recorded for `email`. */
  function Failures(t: Table, es: seq<Event>, email: string): nat {
    if es == [] then 0
    else
      var before := es[..|es| - 1];
      Failures(t, before, email) + if Records(Run(t, before), es[|es| - 1], email) then 1 else 0
  }

  /** Nothing in the run records for `email` without asking first, or forgives it. */
  ghost predicate GuardedFor(es: seq<Event>, email: string) {
    forall i :: 0 <= i < |es| ==> es[i] != Fail(email, es[i].now) && es[i] != GoodLogin(email, es[i].now)
  }

  /** After `n` failures since `start`, `g` full groups of five lie a minute apart behind `now`. */
  ghost predicate Paced(r: Option<Record>, n: nat, start: nat, now: nat, g: nat) {
    && start + ONE_MINUTE * g <= now
    && match r
       case None => n <= 5 * g
       case Some(Record(count, first, None)) =>
         count < 5 && n <= 5 * g + count && start + ONE_MINUTE * g <= first <= now
       case Some(Record(count, first, Some(until))) =>
         && count == 5 && n <= 5 * g + 5 && first <= now
         && start + ONE_MINUTE * (g + 1) <= until <= now + ONE_MINUTE
  }

  /** An expired lockout closes its group; a swept record closes whatever group it was in. */
  lemma StepKeepsPace(t: Table, e: Event, email: string, n: nat, start: nat, before: nat, g: nat) returns (g': nat)
    requires Paced(Lookup(t, email), n, start, before, g) && before <= e.now
    requires e != Fail(email, e.now) && e != GoodLogin(email, e.now)
    ensures Paced(Lookup(Step(t, e), email), n + if Records(t, e, email) then 1 else 0, start, e.now, g')
  {
    var r := Lookup(t, email);
    g' := g;
    match e
    case FailedLogin(who, now) =>
      if who == email && r.Some? && r.value.lockedUntil.Some? && r.value.lockedUntil.value <= now {
        g' := g + 1;
      }
    case Check(who, now) =>
      if who == email && r.Some? && r.value.lockedUntil.Some? && r.value.lockedUntil.value <= now {
        g' := g + 1;
      }
    case Sweep(now) =>
      if r.Some? && Stale(r.value, now) {
        g' := g + 1;
      }
    case _ =>
  }

  lemma {:induction false} GuardedRunIsPaced(t: Table, es: seq<Event>, email: string, start: nat) returns (g: nat)
    requires email !in t && Clocked(start, es) && GuardedFor(es, email)
    ensures Paced(Lookup(Run(t, es), email), Failures(t, es, email), start, End(start, es), g)
    decreases |es|
  {
    if es == [] {
      return 0;
    }
    var before, last := es[..|es| - 1], es[|es| - 1];
    g := GuardedRunIsPaced(t, before, email, start);
    g := StepKeepsPace(Run(t, before), last, email, Failures(t, before, email), start, End(start, before), g);
  }

  lemma GroupsInSpan(start: nat, now: nat, g: nat)
    requires start + ONE_MINUTE * g <= now
    ensures g <= (now - start) / ONE_MINUTE
  {
  }

  /** In a guarded run of T milliseconds that starts with no record, at most 5 * (T / 60000 + 1)
      failures are recorded for one email, whatever else happens and whenever the sweep runs. */
  lemma GuardedFailureBound(t: Table, es: seq<Event>, email: string, start: nat)
    requires email !in t && Clocked(start, es) && GuardedFor(es, email)
    ensures Failures(t, es, email) <= 5 * ((End(start, es) - start) / ONE_MINUTE + 1)
  {
    var g := GuardedRunIsPaced(t, es, email, start);
    GroupsInSpan(start, End(start, es), g);
  }

  /** Where each failure is recorded right after a check, every lockout lasts exactly one minute, because an
      expired one restarts the count. */
  lemma GuardedLockoutsLastOneMinute(t: Table, es: seq<Event>, email: string, now: nat)
    requires email !in t && Clocked(0, es + [FailedLogin(email, now)]) && GuardedFor(es, email)
    requires CheckAnswer(Run(t, es), email, now).Unlocked?
    ensures FailureAnswer(AfterCheck(Run(t, es), email, now), email, now) in {Unlocked, Locked(ONE_MINUTE)}
  {
    var all := es + [FailedLogin(email, now)];
    assert all[..|es|] == es;
    forall i, j | 0 <= i < j < |es|
      ensures es[i].now <= es[j].now
    {
      assert all[i].now <= all[j].now;
    }
    assert es != [] ==> all[0] == es[0];
    var g := GuardedRunIsPaced(t, es, email, 0);
  }

  /** When the failed login with this index happens, at five to the minute. */
  function BurstTime(start: nat, i: nat): nat {
    start + ONE_MINUTE * (i / 5)
  }

  function Bursts(email: string, start: nat, n: nat): seq<Event> {
    seq(n, i requires 0 <= i => FailedLogin(email, BurstTime(start, i)))
  }

  /** The record after `n` of them. */
  function BurstRecord(start: nat, n: nat): Option<Record> {
    if n == 0 then None
    else
      var at := BurstTime(start, n - 1);
      Some(Record((n - 1) % 5 + 1, at, if n % 5 == 0 then Some(at + ONE_MINUTE) else None))
  }

  lemma BurstStep(t: Table, email: string, start: nat, n: nat)
    requires Lookup(t, email) == BurstRecord(start, n)
    ensures var now := BurstTime(start, n);
            && CheckAnswer(t, email, now).Unlocked?
            && Some(Failed(Lookup(AfterCheck(t, email, now), email), now)) == BurstRecord(start, n + 1)
  {
    if n > 0 {
      if n % 5 == 0 {
        assert n / 5 == (n - 1) / 5 + 1 && (n - 1) % 5 == 4;
      } else {
        assert n / 5 == (n - 1) / 5 && (n - 1) % 5 == n % 5 - 1;
      }
    }
  }

  lemma RecordOneMore(t: Table, es: seq<Event>, e: Event, email: string)
    requires e.FailedLogin? && e.email == email && CheckAnswer(Run(t, es), email, e.now).Unlocked?
    ensures Lookup(Run(t, es + [e]), email)
            == Some(Failed(Lookup(AfterCheck(Run(t, es), email, e.now), email), e.now))
    ensures Failures(t, es + [e], email) == Failures(t, es, email) + 1
  {
    assert (es + [e])[..|es|] == es;
  }

  lemma OneMoreBurst(email: string, start: nat, n: nat)
    requires Failures(map[], Bursts(email, start, n), email) == n
    requires Lookup(Run(map[], Bursts(email, start, n)), email) == BurstRecord(start, n)
    ensures Failures(map[], Bursts(email, start, n + 1), email) == n + 1
    ensures Lookup(Run(map[], Bursts(email, start, n + 1)), email) == BurstRecord(start, n + 1)
  {
    var before, last := Bursts(email, start, n), FailedLogin(email, BurstTime(start, n));
    assert Bursts(email, start, n + 1) == before + [last];
    BurstStep(Run(map[], before), email, start, n);
    RecordOneMore(map[], before, last, email);
  }

  lemma {:induction false} BurstsAreAllRecorded(email: string, start: nat, n: nat)
    ensures Failures(map[], Bursts(email, start, n), email) == n
    ensures Lookup(Run(map[], Bursts(email, start, n)), email) == BurstRecord(start, n)
  {
    if n > 0 {
      BurstsAreAllRecorded(email, start, n - 1);
      OneMoreBurst(email, start, n - 1);
    }
  }

  lemma BurstTimesAscend(start: nat, i: nat, j: nat)
    requires i <= j
    ensures BurstTime(start, i) <= BurstTime(start, j)
  {
    assert i / 5 <= j / 5;
  }

  lemma LastBurst(start: nat, minutes: nat)
    ensures BurstTime(start, 5 * (minutes + 1) - 1) == start + ONE_MINUTE * minutes
  {
    assert (5 * minutes + 4) / 5 == minutes;
  }

  /** The bound is attained for every number of minutes. */
  lemma GuardedFailureBoundIsTight(email: string, start: nat, minutes: nat)
    ensures var es := Bursts(email, start, 5 * (minutes + 1));
            && Clocked(start, es) && GuardedFor(es, email)
            && (End(start, es) - start) / ONE_MINUTE == minutes
            && Failures(map[], es, email) == 5 * (minutes + 1)
  {
    var n := 5 * (minutes + 1);
    BurstsAreAllRecorded(email, start, n);
    var es := Bursts(email, start, n);
    forall i, j | 0 <= i < j < n
      ensures es[i].now <= es[j].now
    {
      BurstTimesAscend(start, i, j);
    }
    LastBurst(start, minutes);
  }

  // ---- What is answered, and what the sweep forgets ----

  /** A failure that locks tells how long; a check then tells exactly the time that is left, and from the end on
      that there is none. */
  lemma RetryAfterIsTimeLeft(t: Table, email: string, at: nat, now: nat, ms: int)
    requires FailureAnswer(t, email, at) == Locked(ms) && at <= now
    ensures ms in {60_000, 300_000, 900_000}
    ensures CheckAnswer(AfterFailure(t, email, at), email, now)
         == if now < at + ms then Locked(at + ms - now) else Unlocked
    ensures CheckAnswer(AfterFailure(t, email, at), email, at) == FailureAnswer(t, email, at)
  {
  }

  /** An email is only ever locked by its own failures. */
  lemma NoRecordNoLock(t: Table, email: string, now: nat)
    ensures email !in t ==> CheckAnswer(t, email, now) == Unlocked && AfterCheck(t, email, now) == t
    ensures email in t && t[email].lockedUntil.None? ==>
              CheckAnswer(t, email, now) == Unlocked && AfterCheck(t, email, now) == t
  {
    assert email in t ==> t[email := t[email]] == t;
  }

  /** The sweep keeps a record, as it is, exactly while half an hour has not passed since it was opened, or last
      restarted, or since the end of its lockout. */
  lemma SweepKeepsIff(t: Table, email: string, now: nat)
    requires email in t
    ensures email in AfterCleanup(t, now) <==>
              now <= t[email].firstFailureAt + 1_800_000
              || (t[email].lockedUntil.Some? && now <= t[email].lockedUntil.value + 1_800_000)
    ensures email in AfterCleanup(t, now) ==> AfterCleanup(t, now)[email] == t[email]
    ensures AfterCleanup(t, now).Keys <= t.Keys
  {
  }

  /** So a failure survives for half an hour when it is the first on its record or it locks the email ... */
  lemma FirstFailureSurvives(t: Table, email: string, at: nat, now: nat)
    requires at <= now <= at + 1_800_000 && (email !in t || FailureAnswer(t, email, at).Locked?)
    ensures email in AfterCleanup(AfterFailure(t, email, at), now)
    ensures email !in t ==> AfterCleanup(AfterFailure(t, email, at), now)[email] == Record(1, at, None)
  {
    SweepKeepsIff(AfterFailure(t, email, at), email, now);
  }

  /** ... but failures that come later to an open record do not: they count from when it was opened. Four failures,
      three of them a moment old, are forgotten half an hour after the first. */
  lemma SweepForgetsRecentFailures(email: string, start: nat)
    ensures var first, last := Fail(email, start), Fail(email, start + 1_800_000);
            var es := [first, last, last, last];
            && Lookup(Run(map[], es), email) == Some(Record(4, start, None))
            && email !in Run(map[], es + [Sweep(start + 1_800_001)])
  {
    var first, last := Fail(email, start), Fail(email, start + 1_800_000);
    var es := [first, last, last, last];
    OneMore([], first);
    OneMore([first], last);
    OneMore([first, last], last);
    OneMore([first, last, last], last);
    OneMore(es, Sweep(start + 1_800_001));
    assert [] + [first] == [first] && [first] + [last] == [first, last];
    assert [first, last] + [last] == [first, last, last] && [first, last, last] + [last] == es;
  }

  lemma OneMore(es: seq<Event>, e: Event)
    ensures Run(map[], es + [e]) == Step(Run(map[], es), e)
  {
    assert (es + [e])[..|es|] == es;
  }

  // ---- A lockout is never shortened ----

  /** A lockout in force was set by the record's current count, no later than `now`. */
  ghost predicate SetByCount(r: Option<Record>, now: nat) {
    r.Some? && r.value.lockedUntil.Some? ==>
      r.value.lockedUntil.value <= now + LockoutDuration(r.value.count)
  }

  lemma StepSetsByCount(t: Table, e: Event, email: string, before: nat)
    requires SetByCount(Lookup(t, email), before) && before <= e.now
    ensures SetByCount(Lookup(Step(t, e), email), e.now)
  {
  }

  lemma {:induction false} LockoutsAreSetByCount(es: seq<Event>, email: string, start: nat)
    requires Clocked(start, es)
    ensures SetByCount(Lookup(Run(map[], es), email), End(start, es))
    decreases |es|
  {
    if es != [] {
      var before := es[..|es| - 1];
      LockoutsAreSetByCount(before, email, start);
      StepSetsByCount(Run(map[], before), es[|es| - 1], email, End(start, before));
    }
  }

  /** One more event, before the lockout ends, moves its end later or leaves it. */
  lemma StepKeepsLockout(t: Table, e: Event, email: string, before: nat)
    requires SetByCount(Lookup(t, email), before) && before <= e.now
    requires email in t && HoldsAt(t[email], e.now)
    ensures email in Step(t, e) && Step(t, e)[email].lockedUntil.Some?
    ensures t[email].lockedUntil.value <= Step(t, e)[email].lockedUntil.value
  {
  }

  /** Once `email` is locked until some instant, it is reported locked at every earlier one,
      under any sequence of checks, guarded or unguarded failures, logins and sweeps. */
  lemma {:induction false} LockoutIsNeverShortened(es: seq<Event>, k: nat, email: string, now: nat)
    requires Clocked(0, es) && k <= |es| && End(0, es) <= now
    requires var r := Lookup(Run(map[], es[..k]), email); r.Some? && HoldsAt(r.value, now)
    ensures CheckAnswer(Run(map[], es), email, now).Locked?
    ensures var r := Lookup(Run(map[], es[..k]), email).value;
            var r' := Lookup(Run(map[], es), email);
            r'.Some? && r'.value.lockedUntil.Some? && r.lockedUntil.value <= r'.value.lockedUntil.value
    decreases |es|
  {
    if k == |es| {
      assert es[..k] == es;
    } else {
      var before, last := es[..|es| - 1], es[|es| - 1];
      assert before[..k] == es[..k];
      LockoutIsNeverShortened(before, k, email, last.now);
      LockoutsAreSetByCount(before, email, 0);
      var t := Run(map[], before);
      StepKeepsLockout(t, last, email, End(0, before));
    }
  }

  /** Unguarded failures in a row climb the tiers, and each moves the lockout later. */
  lemma {:induction false} UnguardedFailuresClimbTheTiers(es: seq<Event>, email: string)
    requires Clocked(0, es) && forall i :: 0 <= i < |es| ==> es[i] == Fail(email, es[i].now)
    ensures es != [] ==> var r := Lookup(Run(map[], es), email);
            && r.Some? && r.value.count == |es| && r.value.firstFailureAt == es[0].now
            && r.value.lockedUntil == (if |es| < 5 then None
                                       else if |es| < 10 then Some(End(0, es) + 60_000)
                                       else if |es| < 15 then Some(End(0, es) + 300_000)
                                       else Some(End(0, es) + 900_000))
    ensures |es| > 5 ==> Lookup(Run(map[], es[..|es| - 1]), email).value.lockedUntil.value
                         <= Lookup(Run(map[], es), email).value.lockedUntil.value
    decreases |es|
  {
    if es != [] {
      UnguardedFailuresClimbTheTiers(es[..|es| - 1], email);
    }
  }
}
