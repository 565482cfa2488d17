/** The login route of src/infrastructure/api/server.ts over the rate limiter. The route asks isLocked, then
  waits for the user to be looked up, and only then records: other logins of the same email may be checked
  and recorded in between. */
module LoginRoute {
  import opened Outcomes
  import L = LoginLimiter

  /** `waiting` are the logins that were admitted and have not been decided, with their emails. */
  datatype State = State(table: L.Table, waiting: map<nat, string>)

  const INITIAL := State(map[], map[])

  datatype Event =
    | Begins(id: nat, email: string, now: nat)
    | Fails(id: nat, now: nat)
    | Succeeds(id: nat, now: nat)
    | Sweep(now: nat)

  predicate Admits(t: L.Table, email: string, now: nat) {
    L.CheckAnswer(t, email, now).Unlocked?
  }

  function Step(s: State, e: Event): State {
    match e
    case Begins(id, email, now) =>
      if Admits(s.table, email, now) then State(L.AfterCheck(s.table, email, now), s.waiting[id := email]) else s
    case Fails(id, now) =>
      if id in s.waiting then State(L.AfterFailure(s.table, s.waiting[id], now), s.waiting - {id}) else s
    case Succeeds(id, _) =>
      if id in s.waiting then State(s.table - {s.waiting[id]}, s.waiting - {id}) else s
    case Sweep(now) => s.(table := L.AfterCleanup(s.table, now))
  }

  function Run(es: seq<Event>): State {
    if es == [] then INITIAL else Step(Run(es[..|es| - 1]), es[|es| - 1])
  }

  ghost predicate Clocked(start: nat, es: seq<Event>) {
    && (es != [] ==> start <= es[0].now)
    && forall i, j :: 0 <= i < j < |es| ==> es[i].now <= es[j].now
  }

  function End(start: nat, es: seq<Event>): nat {
    if es == [] then start else es[|es| - 1].now
  }

  /** Whether this event records a failure for `email`, or forgives it. */
  predicate Records(s: State, e: Event, email: string) {
    e.Fails? && e.id in s.waiting && s.waiting[e.id] == email
  }

  predicate Forgives(s: State, e: Event, email: string) {
    e.Succeeds? && e.id in s.waiting && s.waiting[e.id] == email
  }

  function Failures(es: seq<Event>, email: string): nat {
    if es == [] then 0
    else
      var n := |es| - 1;
      Failures(es[..n], email) + if Records(Run(es[..n]), es[n], email) then 1 else 0
  }

  ghost predicate NeverForgives(es: seq<Event>, email: string) {
    forall n :: 0 <= n < |es| ==> !Forgives(Run(es[..n]), es[n], email)
  }

  // ---- Overlapping logins ----

  function WaitingFor(s: State, email: string): set<nat> {
    set id | id in s.waiting && s.waiting[id] == email
  }

  /** The most logins of `email` that ever waited together. */
  function Overlap(es: seq<Event>, email: string): nat {
    var now := |WaitingFor(Run(es), email)|;
    if es == [] then now
    else
      var before := Overlap(es[..|es| - 1], email);
      if now > before then now else before
  }

  lemma WaitingShrinks(s: State, id: nat, email: string)
    requires id in WaitingFor(s, email)
    ensures |WaitingFor(s.(waiting := s.waiting - {id}), email)| == |WaitingFor(s, email)| - 1
  {
    assert WaitingFor(s.(waiting := s.waiting - {id}), email) == WaitingFor(s, email) - {id};
  }

  lemma OthersWait(s: State, id: nat, email: string)
    requires id !in WaitingFor(s, email)
    ensures WaitingFor(s.(waiting := s.waiting - {id}), email) == WaitingFor(s, email)
  {
  }

  /** Without an admission no login starts to wait. */
  lemma StepWaits(s: State, e: Event, email: string)
    requires e.Begins? ==> e.email != email || !Admits(s.table, email, e.now)
    ensures |WaitingFor(Step(s, e), email)| <= |WaitingFor(s, email)| - if Records(s, e, email) then 1 else 0
  {
    var s' := Step(s, e);
    if e.Fails? || e.Succeeds? {
      assert WaitingFor(s', email) == WaitingFor(s.(waiting := s.waiting - {e.id}), email);
      if e.id in WaitingFor(s, email) {
        WaitingShrinks(s, e.id, email);
      } else {
        OthersWait(s, e.id, email);
      }
    } else {
      assert WaitingFor(s', email) <= WaitingFor(s, email);
      SmallerSet(WaitingFor(s', email), WaitingFor(s, email));
    }
  }

  lemma {:induction false} SmallerSet(small: set<nat>, large: set<nat>)
    requires small <= large
    ensures |small| <= |large|
  {
    assert large == small + (large - small);
  }

  // ---- The record of one email, through one step ----

  function RecordOf(s: State, email: string): Option<L.Record> {
    L.Lookup(s.table, email)
  }

  predicate HoldsLockout(r: Option<L.Record>) {
    r.Some? && r.value.lockedUntil.Some?
  }

  /** The failures recorded on top of a lockout: while the record already held one. */
  function Late(es: seq<Event>, email: string): nat {
    if es == [] then 0
    else
      var n := |es| - 1;
      var s := Run(es[..n]);
      if !HoldsLockout(RecordOf(s, email)) || !HoldsLockout(RecordOf(Run(es), email)) then 0
      else Late(es[..n], email) + if Records(s, es[n], email) then 1 else 0
  }

  /** Below five failures there is no lockout; with one there are five and the late ones. */
  predicate Counts(r: Option<L.Record>, late: nat) {
    match r
    case None => late == 0
    case Some(Record(count, _, None)) => count < 5 && late == 0
    case Some(Record(count, _, Some(_))) => count == 5 + late
  }

  lemma StepCounts(s: State, e: Event, email: string, late: nat)
    requires Counts(RecordOf(s, email), late)
    ensures var r, r' := RecordOf(s, email), RecordOf(Step(s, e), email);
            Counts(r', if !HoldsLockout(r) || !HoldsLockout(r') then 0
                       else late + if Records(s, e, email) then 1 else 0)
  {
  }

  lemma {:induction false} LateCounts(es: seq<Event>, email: string)
    ensures Counts(RecordOf(Run(es), email), Late(es, email))
    decreases |es|
  {
    if es != [] {
      var n := |es| - 1;
      LateCounts(es[..n], email);
      StepCounts(Run(es[..n]), es[n], email, Late(es[..n], email));
    }
  }

  /** Exactly how long a lockout is: a failure answers with one minute if fewer than five were recorded on
      top of the lockout it finds or sets, itself included, with five from five on, and with fifteen from
      ten on. */
  lemma LockoutIsByLateFailures(es: seq<Event>, id: nat, now: nat)
    requires id in Run(es).waiting
    ensures var email, all := Run(es).waiting[id], es + [Fails(id, now)];
            var answer := L.FailureAnswer(Run(es).table, email, now);
            && (answer.Locked? <==> HoldsLockout(RecordOf(Run(all), email)))
            && (answer.Locked? ==>
                  answer == L.Locked(if Late(all, email) >= 10 then 900_000
                                     else if Late(all, email) >= 5 then 300_000 else 60_000))
  {
    var email, all := Run(es).waiting[id], es + [Fails(id, now)];
    assert all[..|es|] == es;
    LateCounts(es, email);
    LateCounts(all, email);
  }

  // ---- Late failures come from overlapping logins ----

  /** The event that set the lockout in force. */
  function LockIndex(es: seq<Event>, email: string): nat {
    if es == [] then 0
    else
      var n := |es| - 1;
      if HoldsLockout(RecordOf(Run(es[..n]), email)) then LockIndex(es[..n], email) else n
  }

  /** The event that admitted login `id`. */
  function BeginIndex(es: seq<Event>, id: nat): nat {
    if es == [] then 0
    else
      var n := |es| - 1;
      if es[n].Begins? && es[n].id == id && Admits(Run(es[..n]).table, es[n].email, es[n].now) then n
      else BeginIndex(es[..n], id)
  }

  lemma AdmissionUnlocks(s: State, id: nat, email: string, now: nat)
    requires Admits(s.table, email, now)
    ensures !HoldsLockout(RecordOf(Step(s, Begins(id, email, now)), email))
  {
  }

  /** Whoever waits while a lockout is in force was admitted before it was set: all late failures are of
      such logins. */
  lemma {:induction false} WaitingBeganBeforeLock(es: seq<Event>, id: nat, email: string)
    requires id in WaitingFor(Run(es), email) && HoldsLockout(RecordOf(Run(es), email))
    ensures BeginIndex(es, id) < LockIndex(es, email) < |es|
    decreases |es|
  {
    var n := |es| - 1;
    var s, e := Run(es[..n]), es[n];
    if e.Begins? && e.email == email && Admits(s.table, email, e.now) {
      AdmissionUnlocks(s, e.id, email, e.now);
    } else if HoldsLockout(RecordOf(s, email)) {
      WaitingBeganBeforeLock(es[..n], id, email);
    } else {
      BeganBefore(es[..n], id, email);
    }
  }

  lemma {:induction false} BeganBefore(es: seq<Event>, id: nat, email: string)
    requires id in WaitingFor(Run(es), email)
    ensures BeginIndex(es, id) < |es|
    decreases |es|
  {
    var n := |es| - 1;
    if !(es[n].Begins? && es[n].id == id && Admits(Run(es[..n]).table, es[n].email, es[n].now)) {
      BeganBefore(es[..n], id, email);
    }
  }

  /** On top of a lockout there are at most as many failures as logins overlapped, less the one that set it;
      those still waiting are counted in. */
  lemma {:induction false} LateIsOverlap(es: seq<Event>, email: string)
    requires HoldsLockout(RecordOf(Run(es), email))
    ensures Late(es, email) + |WaitingFor(Run(es), email)| <= Overlap(es, email) - 1
    decreases |es|
  {
    var n := |es| - 1;
    var s, e := Run(es[..n]), es[n];
    LateCounts(es[..n], email);
    if e.Begins? && e.email == email && Admits(s.table, email, e.now) {
      AdmissionUnlocks(s, e.id, email, e.now);
    } else {
      StepWaits(s, e, email);
      OverlapCovers(es[..n], email);
      if HoldsLockout(RecordOf(s, email)) {
        LateIsOverlap(es[..n], email);
      } else {
        OnlyRecordingLocks(s, e, email);
      }
    }
  }

  lemma OverlapCovers(es: seq<Event>, email: string)
    ensures |WaitingFor(Run(es), email)| <= Overlap(es, email)
  {
  }

  lemma OnlyRecordingLocks(s: State, e: Event, email: string)
    requires !HoldsLockout(RecordOf(s, email)) && HoldsLockout(RecordOf(Step(s, e), email))
    ensures Records(s, e, email)
  {
  }

  /** So with at most five logins of an email overlapping every lockout lasts one minute, and with at most
      ten never more than five. */
  lemma OverlapBoundsLockout(es: seq<Event>, id: nat, now: nat)
    requires id in Run(es).waiting
    requires L.FailureAnswer(Run(es).table, Run(es).waiting[id], now).Locked?
    ensures var email := Run(es).waiting[id];
            var overlap := Overlap(es, email);
            L.FailureAnswer(Run(es).table, email, now).retryAfterMs <= L.LockoutDuration(overlap + 4)
  {
    var email, all := Run(es).waiting[id], es + [Fails(id, now)];
    assert all[..|es|] == es;
    LockoutIsByLateFailures(es, id, now);
    LateIsOverlap(all, email);
    StepWaits(Run(es), Fails(id, now), email);
    OverlapCovers(es, email);
  }

  // ---- How many failures are recorded ----

  /** After `n` failures since `start`, with at most `k` logins overlapping and `w` of them waiting: `g`
      lockouts, or half hours of silence, lie a minute apart behind `now`. */
  ghost predicate Paced(r: Option<L.Record>, n: nat, w: nat, k: nat, start: nat, now: nat, g: nat) {
    && start + L.ONE_MINUTE * g <= now
    && match r
       case None => n <= (k + 4) * g
       case Some(Record(count, first, None)) =>
         count < 5 && n <= (k + 4) * g + count && start + L.ONE_MINUTE * g <= first <= now
       case Some(Record(count, first, Some(until))) =>
         && 5 <= count && count + w <= k + 4 && n <= (k + 4) * g + count && first <= now
         && start + L.ONE_MINUTE * (g + 1) <= until
  }

  lemma OneMore(k: nat, g: nat)
    ensures (k + 4) * (g + 1) == (k + 4) * g + k + 4
  {
  }

  lemma StepKeepsPace(s: State, e: Event, email: string, n: nat, k: nat, start: nat, before: nat, g: nat)
    returns (g': nat)
    requires Paced(RecordOf(s, email), n, |WaitingFor(s, email)|, k, start, before, g) && before <= e.now
    requires |WaitingFor(s, email)| <= k && |WaitingFor(Step(s, e), email)| <= k && !Forgives(s, e, email)
    ensures Paced(RecordOf(Step(s, e), email), n + if Records(s, e, email) then 1 else 0,
                  |WaitingFor(Step(s, e), email)|, k, start, e.now, g')
  {
    var r, r' := RecordOf(s, email), RecordOf(Step(s, e), email);
    OneMore(k, g);
    g' := if (HoldsLockout(r) && !HoldsLockout(r')) || (r.Some? && r' == None) then g + 1 else g;
    if !(e.Begins? && e.email == email && Admits(s.table, email, e.now)) {
      StepWaits(s, e, email);
    }
  }

  lemma PrefixNeverForgives(es: seq<Event>, email: string)
    requires es != [] && NeverForgives(es, email)
    ensures NeverForgives(es[..|es| - 1], email)
    ensures !Forgives(Run(es[..|es| - 1]), es[|es| - 1], email)
  {
    var before := es[..|es| - 1];
    forall m | 0 <= m < |before|
      ensures !Forgives(Run(before[..m]), before[m], email)
    {
      assert before[..m] == es[..m];
    }
  }

  lemma {:induction false} RunIsPaced(es: seq<Event>, email: string, k: nat, start: nat) returns (g: nat)
    requires Clocked(start, es) && NeverForgives(es, email) && Overlap(es, email) <= k
    ensures Paced(RecordOf(Run(es), email), Failures(es, email), |WaitingFor(Run(es), email)|, k, start,
                  End(start, es), g)
    decreases |es|
  {
    if es == [] {
      return 0;
    }
    var n := |es| - 1;
    var before := es[..n];
    PrefixNeverForgives(es, email);
    g := RunIsPaced(before, email, k, start);
    OverlapCovers(before, email);
    OverlapCovers(es, email);
    g := StepKeepsPace(Run(before), es[n], email, Failures(before, email), k, start, End(start, before), g);
  }

  lemma Groups(n: nat, k: nat, start: nat, now: nat, g: nat)
    requires start + L.ONE_MINUTE * g <= now && n <= (k + 4) * (g + 1)
    ensures n <= (k + 4) * ((now - start) / L.ONE_MINUTE + 1)
  {
    var whole := (now - start) / L.ONE_MINUTE;
    assert g <= whole;
    assert (k + 4) * (g + 1) <= (k + 4) * (whole + 1);
  }

  /** With at most `k` logins of an email overlapping, and none succeeding, a run of T milliseconds records
      at most (k + 4) * (T / 60000 + 1) failures for it, whenever the sweep runs. For logins one at a time
      that is five a minute. */
  lemma OverlapFailureBound(es: seq<Event>, email: string, k: nat, start: nat)
    requires Clocked(start, es) && NeverForgives(es, email) && Overlap(es, email) <= k && k >= 1
    ensures Failures(es, email) <= (k + 4) * ((End(start, es) - start) / L.ONE_MINUTE + 1)
  {
    var g := RunIsPaced(es, email, k, start);
    OneMore(k, g);
    Groups(Failures(es, email), k, start, End(start, es), g);
  }

  // ---- The bounds are attained ----

  lemma Extend(es: seq<Event>, e: Event, email: string)
    ensures var all, s := es + [e], Run(es);
            && Run(all) == Step(s, e)
            && Failures(all, email) == Failures(es, email) + (if Records(s, e, email) then 1 else 0)
            && Overlap(all, email) == if |WaitingFor(Step(s, e), email)| > Overlap(es, email)
                                      then |WaitingFor(Step(s, e), email)| else Overlap(es, email)
  {
    assert (es + [e])[..|es|] == es;
  }

  function Ids(from: nat, end: nat): (ids: set<nat>)
    requires from <= end
    decreases end
    ensures |ids| == end - from
    ensures forall id :: id in ids <==> from <= id < end
  {
    if from == end then {} else Ids(from, end - 1) + {end - 1}
  }

  /** Logins `from` to `end` wait, all for one email. */
  function Queue(email: string, from: nat, end: nat): map<nat, string>
    requires from <= end
  {
    map id | id in Ids(from, end) :: email
  }

  lemma QueueLength(s: State, email: string, from: nat, end: nat)
    requires from <= end && s.waiting == Queue(email, from, end)
    ensures |WaitingFor(s, email)| == end - from
  {
    assert WaitingFor(s, email) == Ids(from, end);
  }

  /** One after the other, `n` failing logins. */
  function Singles(email: string, at: nat, n: nat): seq<Event> {
    if n == 0 then [] else Singles(email, at, n - 1) + [Begins(n - 1, email, at)] + [Fails(n - 1, at)]
  }

  predicate AllAt(es: seq<Event>, at: nat) {
    forall i :: 0 <= i < |es| ==> es[i].now == at
  }

  /** Four failing logins, one after the other. */
  predicate FourFailed(first: seq<Event>, email: string, at: nat) {
    && AllAt(first, at)
    && Run(first) == State(Counted(email, at, 4), map[]) && Failures(first, email) == 4 && Overlap(first, email) <= 1
  }

  function Counted(email: string, at: nat, n: nat): L.Table {
    if n == 0 then map[]
    else map[email := L.Record(n, at, if n >= 5 then Some(at + L.LockoutDuration(n)) else None)]
  }

  lemma OneSingle(s: State, email: string, at: nat, n: nat)
    requires n <= 3 && s == State(Counted(email, at, n), map[])
    ensures var begun := Step(s, Begins(n, email, at));
            && begun == State(Counted(email, at, n), map[n := email])
            && Step(begun, Fails(n, at)) == State(Counted(email, at, n + 1), map[])
            && WaitingFor(begun, email) == {n} && WaitingFor(Step(begun, Fails(n, at)), email) == {}
            && Records(begun, Fails(n, at), email)
  {
    var begun := Step(s, Begins(n, email, at));
    assert begun.waiting - {n} == map[];
  }

  lemma {:induction false} SinglesCount(email: string, at: nat, n: nat)
    requires n <= 4
    ensures AllAt(Singles(email, at, n), at) && Run(Singles(email, at, n)) == State(Counted(email, at, n), map[])
    ensures Failures(Singles(email, at, n), email) == n && Overlap(Singles(email, at, n), email) <= 1
  {
    if n == 0 {
      assert WaitingFor(INITIAL, email) == {};
    } else {
      var before := Singles(email, at, n - 1);
      SinglesCount(email, at, n - 1);
      OneSingle(Run(before), email, at, n - 1);
      Extend(before, Begins(n - 1, email, at), email);
      Extend(before + [Begins(n - 1, email, at)], Fails(n - 1, at), email);
    }
  }

  lemma OneAdmission(email: string, at: nat, k: nat)
    requires k >= 1
    ensures Step(State(Counted(email, at, 4), Queue(email, 4, 3 + k)), Begins(3 + k, email, at))
         == State(Counted(email, at, 4), Queue(email, 4, 4 + k))
  {
    assert Queue(email, 4, 3 + k)[3 + k := email] == Queue(email, 4, 4 + k);
  }

  /** A run to `n` failures on record, with logins `from` to `end` waiting and at most `k` ever together. */
  ghost predicate Comes(es: seq<Event>, email: string, at: nat, n: nat, from: nat, end: nat, k: nat) {
    && from <= end && AllAt(es, at) && Run(es) == State(Counted(email, at, n), Queue(email, from, end))
    && Failures(es, email) == n && Overlap(es, email) <= k
  }

  lemma OneMoreBegins(es: seq<Event>, email: string, at: nat, k: nat, most: nat)
    requires 1 <= k <= most && Comes(es, email, at, 4, 4, 3 + k, most)
    ensures Comes(es + [Begins(3 + k, email, at)], email, at, 4, 4, 4 + k, most)
  {
    OneAdmission(email, at, k);
    QueueLength(Step(Run(es), Begins(3 + k, email, at)), email, 4, 4 + k);
    Extend(es, Begins(3 + k, email, at), email);
  }

  /** After the first four, `k` logins that are all admitted before the first of them fails ... */
  lemma {:induction false} Admissions(first: seq<Event>, email: string, at: nat, k: nat, most: nat)
    returns (es: seq<Event>)
    requires FourFailed(first, email, at) && 1 <= most && k <= most
    ensures Comes(es, email, at, 4, 4, 4 + k, most)
  {
    es := first;
    if k == 0 {
      assert Queue(email, 4, 4) == map[];
    } else {
      es := Admissions(first, email, at, k - 1, most);
      OneMoreBegins(es, email, at, k, most);
      es := es + [Begins(3 + k, email, at)];
    }
  }

  lemma OneFailure(email: string, at: nat, k: nat, n: nat)
    requires 1 <= n <= k
    ensures var s := State(Counted(email, at, 3 + n), Queue(email, 3 + n, 4 + k));
            && Step(s, Fails(3 + n, at)) == State(Counted(email, at, 4 + n), Queue(email, 4 + n, 4 + k))
            && Records(s, Fails(3 + n, at), email)
  {
    assert Queue(email, 3 + n, 4 + k) - {3 + n} == Queue(email, 4 + n, 4 + k);
  }

  lemma OneMoreFails(es: seq<Event>, email: string, at: nat, k: nat, n: nat)
    requires 1 <= n <= k && Comes(es, email, at, 3 + n, 3 + n, 4 + k, k)
    ensures Comes(es + [Fails(3 + n, at)], email, at, 4 + n, 4 + n, 4 + k, k)
  {
    OneFailure(email, at, k, n);
    QueueLength(Step(Run(es), Fails(3 + n, at)), email, 4 + n, 4 + k);
    Extend(es, Fails(3 + n, at), email);
  }

  /** ... and `n` of which have failed. */
  lemma {:induction false} Volley(email: string, at: nat, k: nat, n: nat) returns (es: seq<Event>)
    requires 1 <= k && n <= k
    ensures Comes(es, email, at, 4 + n, 4 + n, 4 + k, k)
  {
    if n == 0 {
      SinglesCount(email, at, 4);
      es := Admissions(Singles(email, at, 4), email, at, k, k);
    } else {
      es := Volley(email, at, k, n - 1);
      OneMoreFails(es, email, at, k, n);
      es := es + [Fails(3 + n, at)];
    }
  }

  /** Both bounds are attained, for every number of overlapping logins, within one instant: k + 4 failures
      are recorded, and the last answers with the lockout for that many. Six overlapping logins are enough
      for the five minute tier, eleven for the fifteen minute tier. */
  lemma OverlapBoundsAreTight(email: string, at: nat, k: nat) returns (es: seq<Event>)
    requires k >= 1
    ensures AllAt(es, at) && Overlap(es, email) <= k && 3 + k in Run(es).waiting && Run(es).waiting[3 + k] == email
    ensures L.FailureAnswer(Run(es).table, email, at)
         == L.Locked(if k + 4 < 10 then 60_000 else if k + 4 < 15 then 300_000 else 900_000)
    ensures Failures(es + [Fails(3 + k, at)], email) == k + 4 && Overlap(es + [Fails(3 + k, at)], email) <= k
  {
    es := Volley(email, at, k, k - 1);
    OneMoreFails(es, email, at, k, k);
  }
}
