/** The unlocked session around the step-up gate: when a release can begin at all, and what a lock ends. */
module StepUpSessions {
  import opened Outcomes
  import opened BindingKey
  import opened StepUpWorker
  import opened StepUpGate
  import opened StepUpLedgers
  import opened StepUpPromises

  // ---- Where the keys in session storage come from ----

  /** The keys of the session are removed: by a lapse that was noticed, or by a lock. */
  predicate RemovesKeys(e: Event, r: Reply) {
    r == VaultLocked(true) || (e.LockBegins? && e.keys)
  }

  predicate Arms(e: Event, r: Reply) {
    e.VekUnlocked? && r == Unlocked
  }

  /** Event `i` wrote the session key, and it is still there before event `n`. */
  predicate KeyFrom(events: seq<Event>, replies: seq<Reply>, n: nat, i: nat) {
    && i < n <= |events| == |replies| && events[i].KeyUnlocked?
    && forall j :: i < j < n ==> !events[j].KeyUnlocked? && !RemovesKeys(events[j], replies[j])
  }

  /** Event `i` wrote the vault key and the expiry of the session, and they are still there. */
  predicate VekFrom(events: seq<Event>, replies: seq<Reply>, n: nat, i: nat) {
    && i < n <= |events| == |replies| && Arms(events[i], replies[i])
    && forall j :: i < j < n ==> !Arms(events[j], replies[j]) && !RemovesKeys(events[j], replies[j])
  }

  function LastKey(events: seq<Event>, replies: seq<Reply>, n: nat): (i: Option<nat>)
    requires n <= |events| == |replies|
    ensures i.Some? ==> i.value < n && events[i.value].KeyUnlocked?
  {
    if n == 0 then None
    else if events[n - 1].KeyUnlocked? then Some(n - 1)
    else if RemovesKeys(events[n - 1], replies[n - 1]) then None
    else LastKey(events, replies, n - 1)
  }

  function LastVek(events: seq<Event>, replies: seq<Reply>, n: nat): (i: Option<nat>)
    requires n <= |events| == |replies|
    ensures i.Some? ==> i.value < n && events[i.value].VekUnlocked?
  {
    if n == 0 then None
    else if Arms(events[n - 1], replies[n - 1]) then Some(n - 1)
    else if RemovesKeys(events[n - 1], replies[n - 1]) then None
    else LastVek(events, replies, n - 1)
  }

  lemma {:induction false} LastKeyIff(events: seq<Event>, replies: seq<Reply>, n: nat, i: nat)
    requires n <= |events| == |replies|
    ensures LastKey(events, replies, n) == Some(i) <==> KeyFrom(events, replies, n, i)
  {
    if n > 0 {
      LastKeyIff(events, replies, n - 1, i);
    }
  }

  lemma {:induction false} LastVekIff(events: seq<Event>, replies: seq<Reply>, n: nat, i: nat)
    requires n <= |events| == |replies|
    ensures LastVek(events, replies, n) == Some(i) <==> VekFrom(events, replies, n, i)
  {
    if n > 0 {
      LastVekIff(events, replies, n - 1, i);
    }
  }

  /** What a step does to the keys: a key that is written is there for half an hour. */
  function Rekeyed(now: Storage, e: Event, r: Reply): Storage {
    if e.KeyUnlocked? then now.(unlockTime := Some(e.unlockTime))
    else if RemovesKeys(e, r) then EMPTY_STORAGE
    else if Arms(e, r) then now.(expiresAt := Some(e.now + 1_800_000), vek := true)
    else now
  }

  lemma StepKeys(s: State, e: Event)
    ensures e.KeyUnlocked? ==> !RemovesKeys(e, Step(s, e).1)
    ensures var (s', r) := Step(s, e);
            s'.worker.storage.(record := None) == Rekeyed(s.worker.storage.(record := None), e, r)
  {
  }

  /** The keys and times of the last unlock before event `n`. */
  function KeysLeft(events: seq<Event>, replies: seq<Reply>, n: nat): Storage
    requires n <= |events| == |replies|
  {
    var key, vek := LastKey(events, replies, n), LastVek(events, replies, n);
    Storage(None, if key.Some? then Some(events[key.value].unlockTime) else None,
            if vek.Some? then Some(events[vek.value].now + 1_800_000) else None, vek.Some?)
  }

  lemma KeysLeftNext(events: seq<Event>, replies: seq<Reply>, n: nat)
    requires n < |events| == |replies| && (events[n].KeyUnlocked? ==> !RemovesKeys(events[n], replies[n]))
    ensures KeysLeft(events, replies, n + 1) == Rekeyed(KeysLeft(events, replies, n), events[n], replies[n])
  {
  }

  lemma KeysStep(events: seq<Event>, n: nat)
    requires n < |events|
    requires After(events[..n]).worker.storage.(record := None) == KeysLeft(events, Replies(events), n)
    ensures After(events[..n + 1]).worker.storage.(record := None) == KeysLeft(events, Replies(events), n + 1)
  {
    StepAt(events, n);
    StepKeys(After(events[..n]), events[n]);
    KeysLeftNext(events, Replies(events), n);
  }

  lemma {:induction false} KeysAreOfTheLastUnlock(events: seq<Event>, n: nat)
    requires n <= |events|
    ensures After(events[..n]).worker.storage.(record := None) == KeysLeft(events, Replies(events), n)
  {
    if n > 0 {
      KeysAreOfTheLastUnlock(events, n - 1);
      KeysStep(events, n - 1);
    }
  }

  // ---- When a release begins ----

  /** Before event `n` the vault is unlocked at `now`: its keys are there, and neither the time since the key was
      written nor the time since the vault key was is half an hour. */
  predicate Usable(events: seq<Event>, n: nat, now: int, i: nat, j: nat) {
    && KeyFrom(events, Replies(events), n, i) && VekFrom(events, Replies(events), n, j)
    && events[i].unlockTime != 0
    && now < events[i].unlockTime + 1_800_000 && now < events[j].now + 1_800_000
  }

  lemma UsableIff(events: seq<Event>, n: nat, now: int)
    requires n <= |events|
    ensures var s := After(events[..n]).worker.storage;
            IsUnlocked(s, now) && s.vek <==> exists i, j :: Usable(events, n, now, i, j)
  {
    var replies := Replies(events);
    KeysAreOfTheLastUnlock(events, n);
    var key, vek := LastKey(events, replies, n), LastVek(events, replies, n);
    if key.Some? && vek.Some? {
      LastKeyIff(events, replies, n, key.value);
      LastVekIff(events, replies, n, vek.value);
      assert Usable(events, n, now, key.value, vek.value)
        <==> IsUnlocked(After(events[..n]).worker.storage, now) && After(events[..n]).worker.storage.vek;
    }
    forall i: nat, j: nat | Usable(events, n, now, i, j)
      ensures key == Some(i) && vek == Some(j)
    {
      LastKeyIff(events, replies, n, i);
      LastVekIff(events, replies, n, j);
    }
  }

  /** In every run a release begins exactly while the vault is unlocked and its binding is not both refused and
      unpaid in memory. */
  lemma ReleaseBeginsIff(events: seq<Event>, n: nat, h: nat, b: Binding, now: int)
    requires n < |events| && events[n] == ReleaseBegins(h, b, now)
    ensures var l := At(events, n).memory;
            Replies(events)[n] == Waiting
            <==> !(b in l.owed && b !in l.paid) && exists i, j :: Usable(events, n, now, i, j)
  {
    StepAt(events, n);
    UsableIff(events, n, now);
    AtPrefix(events, n);
    Looks(events[..n], b);
  }

  /** Handler `h` began at `m` to release `b`. */
  predicate ReleaseBegun(events: seq<Event>, h: nat, b: Binding, m: nat) {
    && m < |events| && events[m].ReleaseBegins? && events[m] == ReleaseBegins(h, b, events[m].now)
    && Replies(events)[m] == Waiting && Lasts(events, h, m, |events|)
  }

  predicate Releasing(stage: Stage, b: Binding) {
    stage == Asking(b) || stage == Reading(b) || (stage.Decided? && stage.binding == b)
  }

  lemma ReleasingStep(s: State, e: Event, h: nat, b: Binding)
    requires var s' := Step(s, e).0; h in s'.handlers && Releasing(s'.handlers[h], b)
    ensures if e.ReleaseBegins? && e.handler == h then e.binding == b && Step(s, e).1 == Waiting
            else !Restarts(e, h) && h in s.handlers && Releasing(s.handlers[h], b)
  {
  }

  lemma {:induction false} ReleaseWasBegun(events: seq<Event>, h: nat, b: Binding) returns (m: nat)
    requires h in After(events).handlers && Releasing(After(events).handlers[h], b)
    ensures ReleaseBegun(events, h, b, m)
    decreases |events|
  {
    var n := |events| - 1;
    var before, e := events[..n], events[n];
    LastStep(events);
    ReleasingStep(After(before), e, h, b);
    assert Replies(events)[n] == Step(After(before), e).1;
    if e.ReleaseBegins? && e.handler == h {
      m := n;
    } else {
      m := ReleaseWasBegun(before, h, b);
      assert Replies(events)[m] == Replies(before)[m];
    }
  }

  /** So in every run whatever goes out was begun in an unlocked session, and then granted by Plus and Core. */
  lemma ReleasedWasUnlocked(events: seq<Event>, e: nat, b: Binding) returns (m: nat, p: nat, q: nat)
    requires Decides(events, e, b, false)
    ensures m < p && VerdictFor(events, e, b, false, p, q) && ReleaseBegun(events[..e], events[e].handler, b, m)
    ensures exists i, j :: Usable(events, m, events[m].now, i, j)
  {
    DecidesByStage(events, e, b, false);
    m := ReleaseWasBegun(events[..e], events[e].handler, b);
    p, q := GrantedReleaseIff(events, e, b, false);
    PrefixRuns(events, e);
    ReleaseBeginsIff(events, m, events[e].handler, b, events[m].now);
  }

  // ---- Locking ----

  /** A lock succeeds exactly when it finds neither the vault key nor a gate in storage; then the worker has
      forgotten everything but the writes that wait, and otherwise nothing. */
  lemma LockSucceedsIff(s: State, h: nat)
    requires h in s.handlers && s.handlers[h] == Verifying
    ensures var (s', r) := Step(s, LockEnds(h));
            && r == (if !s.worker.storage.vek && s.worker.storage.record.None? then Locked else LockFailed)
            && s'.handlers == s.handlers - {h}
            && s'.worker == if r.Locked? then s.worker.(memory := EMPTY_GATE, ceremonies := map[]) else s.worker
  {
  }

  lemma LockedWithoutVek(s: State, e: Event)
    requires Step(s, e).1 == Locked
    ensures e.LockEnds? && !s.worker.storage.vek
  {
  }

  /** After a lock that succeeded no release begins before the vault is unlocked again. */
  lemma NothingBeginsWhileLocked(events: seq<Event>, n: nat, m: nat)
    requires n < m < |events| && Replies(events)[n] == Locked && events[m].ReleaseBegins?
    requires forall i :: n < i < m ==> !events[i].VekUnlocked?
    ensures Replies(events)[m] != Waiting
  {
    var replies := Replies(events);
    StepAt(events, n);
    LockedWithoutVek(After(events[..n]), events[n]);
    KeysAreOfTheLastUnlock(events, n);
    ReleaseBeginsIff(events, m, events[m].handler, events[m].binding, events[m].now);
    if i: nat, j: nat :| Usable(events, m, events[m].now, i, j) {
      assert VekFrom(events, replies, n, j);
      LastVekIff(events, replies, n, j);
    }
  }
}
