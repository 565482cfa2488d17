/** The challenges behind the approvals of a run: where each was started, and what a lock, a lapse or an
  eviction does to those under way. */
module StepUpCeremonies {
  import opened Outcomes
  import opened BindingKey
  import opened StepUpWorker
  import opened StepUpGate

  /** The challenge was started for this binding, a managed credential and a user logged in, and expires then. */
  predicate Starts(e: Event, s: Session) {
    && e == ChallengeStarts(s.binding, true, true, Some((s.challengeId, s.expiresAt)))
    && s.binding.credentialId != "" && s.binding.origin != ""
  }

  predicate StartedFrom(events: seq<Event>, n: nat, s: Session) {
    exists m :: n <= m < |events| && Starts(events[m], s)
  }

  function SessionOf(id: string, entry: Ceremony): Session {
    Session(id, entry.binding, entry.expiresAt, true)
  }

  /** The reply records or answers an approval. */
  predicate Approval(r: Reply) {
    (r.Recorded? && r.change.Completing?) || (r.Answered? && r.change.Completing?)
  }

  predicate ChangeFrom(events: seq<Event>, n: nat, c: Change) {
    c.Completing? ==> c.session.completed && StartedFrom(events, n, c.session)
  }

  /** When a handler that reads the clock reads it. */
  function TimeOf(e: Event): Option<int> {
    match e
    case ReleaseBegins(_, _, now) => Some(now)
    case VekNeeded(_, now) => Some(now)
    case ApprovalBegins(_, _, _, _, now) => Some(now)
    case VekUnlocked(now) => Some(now)
    case _ => None
  }

  predicate NotBefore(e: Event, now: int) {
    TimeOf(e).Some? ==> now <= TimeOf(e).value
  }

  predicate AllNotBefore(events: seq<Event>, now: int) {
    forall k :: 0 <= k < |events| ==> NotBefore(events[k], now)
  }

  /** Every challenge that can still be approved after `now`, every approval that waits for Core or Plus,
      and every approval that waits to be written was started at `n` or later. */
  predicate CeremoniesFrom(events: seq<Event>, n: nat, s: State, now: int) {
    && (forall id :: id in s.worker.ceremonies ==>
          StartedFrom(events, n, SessionOf(id, s.worker.ceremonies[id])) || s.worker.ceremonies[id].expiresAt <= now)
    && (forall h :: h in s.handlers && s.handlers[h].Approving? ==>
          StartedFrom(events, n, SessionOf(s.handlers[h].challengeId, s.handlers[h].ceremony)))
    && (forall i :: 0 <= i < |s.worker.writes| ==> ChangeFrom(events, n, s.worker.writes[i]))
  }

  lemma StartedFromExtends(events: seq<Event>, e: Event, n: nat, s: Session)
    requires StartedFrom(events, n, s)
    ensures StartedFrom(events + [e], n, s)
  {
    var m :| n <= m < |events| && Starts(events[m], s);
    assert Starts((events + [e])[m], s);
  }

  lemma CeremoniesExtend(events: seq<Event>, e: Event, n: nat, s: State, now: int)
    requires CeremoniesFrom(events, n, s, now)
    ensures CeremoniesFrom(events + [e], n, s, now)
  {
    forall started | StartedFrom(events, n, started)
      ensures StartedFrom(events + [e], n, started)
    {
      StartedFromExtends(events, e, n, started);
    }
  }

  lemma ApprovalStepKeeps(events: seq<Event>, n: nat, s: State, e: Event, now: int)
    requires CeremoniesFrom(events, n, s, now) && NotBefore(e, now) && (e.ApprovalBegins? || e.ApprovalEnds?)
    ensures CeremoniesFrom(events, n, Step(s, e).0, now)
  {
  }

  lemma OtherStepKeeps(events: seq<Event>, n: nat, s: State, e: Event, now: int)
    requires CeremoniesFrom(events, n, s, now)
    requires !e.ApprovalBegins? && !e.ApprovalEnds? && !e.ChallengeStarts?
    ensures CeremoniesFrom(events, n, Step(s, e).0, now)
  {
  }

  lemma StartStepKeeps(events: seq<Event>, n: nat, s: State, e: Event, now: int)
    requires n <= |events| && CeremoniesFrom(events + [e], n, s, now) && e.ChallengeStarts?
    ensures CeremoniesFrom(events + [e], n, Step(s, e).0, now)
  {
    if Step(s, e).1.Started? {
      assert Starts((events + [e])[|events|], SessionOf(e.triggered.value.0, Ceremony(e.binding, e.triggered.value.1)));
    }
  }

  lemma CeremoniesStep(events: seq<Event>, n: nat, s: State, e: Event, now: int)
    requires n <= |events| && CeremoniesFrom(events, n, s, now) && NotBefore(e, now)
    ensures CeremoniesFrom(events + [e], n, Step(s, e).0, now)
  {
    CeremoniesExtend(events, e, n, s, now);
    if e.ChallengeStarts? {
      StartStepKeeps(events, n, s, e, now);
    } else if e.ApprovalBegins? || e.ApprovalEnds? {
      ApprovalStepKeeps(events + [e], n, s, e, now);
    } else {
      OtherStepKeeps(events + [e], n, s, e, now);
    }
  }

  lemma ApprovalReplyFrom(events: seq<Event>, n: nat, s: State, e: Event, now: int)
    requires CeremoniesFrom(events, n, s, now) && Approval(Step(s, e).1)
    ensures ChangeFrom(events, n, Step(s, e).1.change)
  {
  }

  lemma {:induction false} CeremoniesRun(events: seq<Event>, n: nat, now: int)
    requires n <= |events| && AllNotBefore(events[n..], now)
    requires CeremoniesFrom(events[..n], n, After(events[..n]), now)
    ensures CeremoniesFrom(events, n, After(events), now)
    decreases |events|
  {
    if n == |events| {
      assert events[..n] == events;
    } else {
      var k := |events| - 1;
      assert events[..k][..n] == events[..n] && events == events[..k] + [events[k]];
      assert events[..k][n..] == events[n..][..k - n];
      assert NotBefore(events[n..][k - n], now);
      CeremoniesRun(events[..k], n, now);
      CeremoniesStep(events[..k], n, After(events[..k]), events[k], now);
      LastStep(events);
    }
  }

  lemma ApprovedWasStartedFrom(events: seq<Event>, n: nat, k: nat, now: int)
    requires n <= k < |events| && Approval(Replies(events)[k]) && AllNotBefore(events[n..], now)
    requires CeremoniesFrom(events[..n], n, After(events[..n]), now)
    ensures ChangeFrom(events[..k], n, Replies(events)[k].change)
  {
    assert events[..k][..n] == events[..n] && events[..k][n..] == events[n..][..k - n];
    CeremoniesRun(events[..k], n, now);
    StepAt(events, k);
    ApprovalReplyFrom(events[..k], n, After(events[..k]), events[k], now);
  }

  lemma {:induction false} EarlierThanAll(events: seq<Event>) returns (now: int)
    ensures AllNotBefore(events, now)
  {
    if events == [] {
      now := 0;
    } else {
      var rest := EarlierThanAll(events[1..]);
      now := if TimeOf(events[0]).Some? && TimeOf(events[0]).value < rest then TimeOf(events[0]).value else rest;
      forall k | 0 <= k < |events|
        ensures NotBefore(events[k], now)
      {
        if k > 0 {
          assert NotBefore(events[1..][k - 1], rest);
        }
      }
    }
  }

  /** Every approval, recorded or persisted, answers a challenge that was started for the same binding. */
  lemma ApprovedWasStarted(events: seq<Event>, k: nat)
    requires k < |events| && Approval(Replies(events)[k])
    ensures ChangeFrom(events[..k], 0, Replies(events)[k].change)
  {
    var now := EarlierThanAll(events);
    assert events[0..] == events;
    ApprovedWasStartedFrom(events, 0, k, now);
  }

  // ---- Approvals are accepted ----

  /** Handler `h` began at `m` to approve this challenge, with its proof, logged in, before the challenge
      expired and after it was started. */
  predicate BegunFor(events: seq<Event>, h: nat, s: Session, m: nat) {
    && m < |events| && events[m].ApprovalBegins?
    && events[m] == ApprovalBegins(h, s.challengeId, true, true, events[m].now)
    && events[m].now < s.expiresAt && StartedFrom(events[..m], 0, s)
    && Lasts(events, h, m, |events|)
  }

  lemma BegunForExtends(events: seq<Event>, e: Event, h: nat, s: Session, m: nat)
    requires BegunFor(events, h, s, m) && !Restarts(e, h)
    ensures BegunFor(events + [e], h, s, m)
  {
    assert (events + [e])[..m] == events[..m];
  }

  lemma HeldWasStarted(events: seq<Event>, id: string, now: int)
    requires id in After(events).worker.ceremonies && now < After(events).worker.ceremonies[id].expiresAt
    ensures StartedFrom(events, 0, SessionOf(id, After(events).worker.ceremonies[id]))
  {
    var earliest := EarlierThanAll(events);
    earliest := if earliest <= now then earliest else now;
    assert events[0..] == events;
    CeremoniesRun(events, 0, earliest);
  }

  lemma ApprovingStep(s: State, e: Event, h: nat)
    requires var s' := Step(s, e).0; h in s'.handlers && s'.handlers[h].Approving?
    ensures var approving := Step(s, e).0.handlers[h];
            if !Restarts(e, h) then h in s.handlers && s.handlers[h] == approving
            else
              && e.ApprovalBegins? && e == ApprovalBegins(h, approving.challengeId, true, true, e.now)
              && e.challengeId in s.worker.ceremonies && s.worker.ceremonies[e.challengeId] == approving.ceremony
              && e.now < approving.ceremony.expiresAt
  {
  }

  lemma {:induction false} WaitingWasBegun(events: seq<Event>, h: nat) returns (m: nat)
    requires h in After(events).handlers && After(events).handlers[h].Approving?
    ensures var approving := After(events).handlers[h];
            BegunFor(events, h, SessionOf(approving.challengeId, approving.ceremony), m)
    decreases |events|
  {
    var n := |events| - 1;
    var before, e := events[..n], events[n];
    LastStep(events);
    assert events == before + [e];
    ApprovingStep(After(before), e, h);
    var approving := After(events).handlers[h];
    var started := SessionOf(approving.challengeId, approving.ceremony);
    if Restarts(e, h) {
      m := n;
      HeldWasStarted(before, started.challengeId, e.now);
      BeginsNow(before, e, h, started);
    } else {
      m := WaitingWasBegun(before, h);
      BegunForExtends(before, e, h, started, m);
    }
  }

  lemma BeginsNow(events: seq<Event>, e: Event, h: nat, s: Session)
    requires StartedFrom(events, 0, s) && e.ApprovalBegins? && e == ApprovalBegins(h, s.challengeId, true, true, e.now)
    requires e.now < s.expiresAt
    ensures BegunFor(events + [e], h, s, |events|)
  {
    assert (events + [e])[..|events|] == events;
  }

  /** A challenge is held from its start on, and exactly then: when Plus starts it for a managed credential and
      a user who is logged in, with both parts of the binding named. */
  lemma StartsIff(s: State, b: Binding, managed: bool, authenticated: bool, triggered: Option<(string, int)>)
    ensures var (s', r) := Step(s, ChallengeStarts(b, managed, authenticated, triggered));
            var starts := b.credentialId != "" && b.origin != "" && managed && authenticated && triggered.Some?;
            && (r.Started? <==> starts)
            && s' == if starts then
                       s.(worker := s.worker.(ceremonies :=
                            s.worker.ceremonies[triggered.value.0 := Ceremony(b, triggered.value.1)]))
                     else s
  {
  }

  /** An approval asks Core and Plus exactly when it brings its proof, for a challenge that is held and has not
      expired, by a user who is logged in; one that comes too late ends its challenge. */
  lemma AsksIff(s: State, h: nat, id: string, proof: bool, authenticated: bool, now: int)
    ensures var (s', r) := Step(s, ApprovalBegins(h, id, proof, authenticated, now));
            var held := id in s.worker.ceremonies;
            && (r == Waiting <==> proof && held && now < s.worker.ceremonies[id].expiresAt && authenticated)
            && s'.worker.(ceremonies := map[]) == s.worker.(ceremonies := map[])
            && s'.worker.ceremonies == if proof && held && s.worker.ceremonies[id].expiresAt <= now
                                       then s.worker.ceremonies - {id} else s.worker.ceremonies
  {
  }

  /** What a step records, and exactly when: refusals when Plus asks for a challenge or a granted release turns
      out to owe one, a spending when one goes out, and a completion when an approval was accepted. */
  lemma RecordsIff(s: State, e: Event, c: Change)
    ensures var waiting := s.handlers;
            Step(s, e).1 == Recorded(c)
            <==> match c
                 case Challenging(b) =>
                   || (e.ReleaseProbes? && e.outcome.MustChallenge? && e.handler in waiting
                       && waiting[e.handler] == Asking(b))
                   || (e.ReleaseEnds? && e.handler in waiting && waiting[e.handler] == Decided(b, true))
                 case Spending(b) =>
                   e.ReleaseEnds? && e.handler in waiting && waiting[e.handler] == Decided(b, false)
                 case Completing(session) =>
                   && e.ApprovalEnds? && e.accepted && e.handler in waiting
                   && waiting[e.handler]
                      == Approving(session.challengeId, Ceremony(session.binding, session.expiresAt))
                   && session.completed
  {
  }

  /** A release that is denied, or an approval that is not accepted, changes nothing but that its handler is done. */
  lemma RefusalsChangeNothing(s: State, h: nat)
    ensures Step(s, ApprovalEnds(h, false)).0.worker == s.worker
    ensures h in s.handlers && s.handlers[h].Approving? ==>
              Step(s, ApprovalEnds(h, false)) == (State(s.worker, s.handlers - {h}), NotAccepted)
    ensures h in s.handlers && s.handlers[h].Asking? ==>
              Step(s, ReleaseProbes(h, Denied)) == (State(s.worker, s.handlers - {h}), Refused)
  {
  }

  /** In every run a completion is recorded only by an approval that Core and Plus accepted, whose handler had
      begun it with its proof, logged in, before the challenge expired, after it was started for the binding. */
  lemma ApprovedWasAccepted(events: seq<Event>, k: nat) returns (m: nat)
    requires k < |events| && Replies(events)[k].Recorded? && Replies(events)[k].change.Completing?
    ensures var s := Replies(events)[k].change.session;
            && events[k].ApprovalEnds? && events[k].accepted && s.completed
            && BegunFor(events[..k], events[k].handler, s, m)
  {
    var c := Replies(events)[k].change;
    StepAt(events, k);
    RecordsIff(After(events[..k]), events[k], c);
    m := WaitingWasBegun(events[..k], events[k].handler);
  }

  // ---- Challenges that outlive a session ----

  /** From `now` on, every approval that is recorded or persisted answers a challenge started from here on. */
  ghost predicate CutsOff(events: seq<Event>, now: int) {
    forall after: seq<Event>, k: nat ::
      AllNotBefore(after, now) && |events| <= k < |events| + |after| && Approval(Replies(events + after)[k]) ==>
        ChangeFrom((events + after)[..k], |events|, Replies(events + after)[k].change)
  }

  /** No approval waits, for Core or Plus or to be written, and no challenge is held that has not expired. */
  predicate NothingUnderWay(s: State, now: int) {
    && (forall h :: h in s.handlers ==> !s.handlers[h].Approving?)
    && (forall i :: 0 <= i < |s.worker.writes| ==> !s.worker.writes[i].Completing?)
    && forall id :: id in s.worker.ceremonies ==> s.worker.ceremonies[id].expiresAt <= now
  }

  lemma WaitingApprovalCompletes(events: seq<Event>, now: int, h: nat)
    requires h in After(events).handlers && After(events).handlers[h].Approving?
    ensures !CutsOff(events, now)
  {
    var after := [ApprovalEnds(h, true)];
    Extend(events, after[0]);
    assert AllNotBefore(after, now) && Approval(Replies(events + after)[|events|]);
  }

  lemma CeremonyAnswers(s: State, now: int, id: string)
    requires id in s.worker.ceremonies && now < s.worker.ceremonies[id].expiresAt
    ensures var waiting := Step(s, ApprovalBegins(0, id, true, true, now)).0;
            Step(waiting, ApprovalEnds(0, true)).1 == Recorded(CompletionOf(id, s.worker.ceremonies[id]))
  {
  }

  lemma OldCeremonyCompletes(events: seq<Event>, now: int, id: string)
    requires id in After(events).worker.ceremonies && now < After(events).worker.ceremonies[id].expiresAt
    ensures !CutsOff(events, now)
  {
    var begins, ends := ApprovalBegins(0, id, true, true, now), ApprovalEnds(0, true);
    CeremonyAnswers(After(events), now, id);
    Extend(events, begins);
    Extend(events + [begins], ends);
    var after := [begins, ends];
    assert events + after == events + [begins] + [ends];
    assert AllNotBefore(after, now) && Approval(Replies(events + after)[|events| + 1]);
    assert (events + after)[|events|] == begins;
  }

  /** The next `n` changes in line are written. */
  function Settling(n: nat): seq<Event> {
    if n == 0 then [] else Settling(n - 1) + [WriteReads(true)] + [WriteSettles(true)]
  }

  lemma OneWrite(s: State)
    requires s.worker.writes != []
    ensures var s' := Step(s, WriteReads(true)).0;
            && Step(s', WriteSettles(true)).1 == Answered(s.worker.writes[0], true)
            && Step(s', WriteSettles(true)).0.worker.writes == s.worker.writes[1..]
  {
  }

  lemma {:induction false} SettlingShape(n: nat)
    ensures |Settling(n)| == 2 * n
    ensures forall k :: 0 <= k < |Settling(n)| ==> Settling(n)[k].WriteReads? || Settling(n)[k].WriteSettles?
  {
    if n > 0 {
      SettlingShape(n - 1);
    }
  }

  lemma SettleOneMore(events: seq<Event>)
    requires After(events).worker.writes != []
    ensures var all := events + [WriteReads(true)] + [WriteSettles(true)];
            && After(all).worker.writes == After(events).worker.writes[1..]
            && Replies(all)[|events| + 1] == Answered(After(events).worker.writes[0], true)
  {
    OneWrite(After(events));
    Extend(events, WriteReads(true));
    Extend(events + [WriteReads(true)], WriteSettles(true));
  }

  lemma SettleAfter(events: seq<Event>, settled: seq<Event>, n: nat)
    requires n < |After(events).worker.writes| && |settled| == 2 * n
    requires After(events + settled).worker.writes == After(events).worker.writes[n..]
    ensures var all := events + (settled + [WriteReads(true)] + [WriteSettles(true)]);
            && After(all).worker.writes == After(events).worker.writes[n + 1..]
            && Replies(all)[|events| + 2 * n + 1] == Answered(After(events).worker.writes[n], true)
  {
    SettleOneMore(events + settled);
    assert events + (settled + [WriteReads(true)] + [WriteSettles(true)])
        == events + settled + [WriteReads(true)] + [WriteSettles(true)];
  }

  lemma {:induction false} WritesSettle(events: seq<Event>, n: nat)
    requires n <= |After(events).worker.writes|
    ensures After(events + Settling(n)).worker.writes == After(events).worker.writes[n..]
    ensures n > 0 ==> |Settling(n)| == 2 * n
                      && Replies(events + Settling(n))[|events| + 2 * n - 1]
                         == Answered(After(events).worker.writes[n - 1], true)
  {
    if n == 0 {
      assert events + Settling(0) == events;
    } else {
      WritesSettle(events, n - 1);
      SettlingShape(n - 1);
      SettleAfter(events, Settling(n - 1), n - 1);
    }
  }

  lemma QueuedApprovalCompletes(events: seq<Event>, now: int, i: nat)
    requires i < |After(events).worker.writes| && After(events).worker.writes[i].Completing?
    ensures !CutsOff(events, now)
  {
    var after := Settling(i + 1);
    WritesSettle(events, i + 1);
    SettlingShape(i + 1);
    var k := |events| + 2 * (i + 1) - 1;
    assert AllNotBefore(after, now) && Approval(Replies(events + after)[k]);
    var c := Replies(events + after)[k].change;
    forall m | |events| <= m < k
      ensures !Starts((events + after)[..k][m], c.session)
    {
      assert (events + after)[..k][m] == after[m - |events|];
    }
    assert !ChangeFrom((events + after)[..k], |events|, c);
  }

  /** Exactly when nothing begun before can still be approved. */
  lemma CutsOffIff(events: seq<Event>, now: int)
    ensures CutsOff(events, now) <==> NothingUnderWay(After(events), now)
  {
    var s := After(events);
    if h :| h in s.handlers && s.handlers[h].Approving? {
      WaitingApprovalCompletes(events, now, h);
    } else if i: nat :| i < |s.worker.writes| && s.worker.writes[i].Completing? {
      QueuedApprovalCompletes(events, now, i);
    } else if id :| id in s.worker.ceremonies && now < s.worker.ceremonies[id].expiresAt {
      OldCeremonyCompletes(events, now, id);
    } else {
      forall after: seq<Event>, k: nat |
        AllNotBefore(after, now) && |events| <= k < |events| + |after| && Approval(Replies(events + after)[k])
        ensures ChangeFrom((events + after)[..k], |events|, Replies(events + after)[k].change)
      {
        assert (events + after)[..|events|] == events && (events + after)[|events|..] == after;
        ApprovedWasStartedFrom(events + after, |events|, k, now);
      }
    }
  }

  /** A lock that succeeds ends the challenges under way exactly when no approval waits for Core, for Plus
      or to be written. */
  lemma LockCutsOffIff(events: seq<Event>, h: nat, now: int)
    requires Step(After(events), LockEnds(h)).1.Locked?
    ensures var s := After(events);
            CutsOff(events + [LockEnds(h)], now) <==>
              && (forall g :: g in s.handlers ==> !s.handlers[g].Approving?)
              && forall i :: 0 <= i < |s.worker.writes| ==> !s.worker.writes[i].Completing?
  {
    Extend(events, LockEnds(h));
    CutsOffIff(events + [LockEnds(h)], now);
    var s, s' := After(events), After(events + [LockEnds(h)]);
    assert forall g :: g in s.handlers && s.handlers[g].Approving? ==> g in s'.handlers;
  }

  /** A lapse by itself ends none of them. */
  lemma LapseCutsOffIff(events: seq<Event>, h: nat, now: int)
    requires !IsUnlocked(After(events).worker.storage, now) && h !in After(events).handlers
    ensures CutsOff(events + [VekNeeded(h, now)], now) <==> NothingUnderWay(After(events), now)
  {
    Extend(events, VekNeeded(h, now));
    CutsOffIff(events + [VekNeeded(h, now)], now);
    var s, s' := After(events), After(events + [VekNeeded(h, now)]);
    assert forall g :: g in s.handlers ==> g in s'.handlers && s'.handlers[g] == s.handlers[g];
  }

  lemma EvictionCutsOff(events: seq<Event>, now: int)
    ensures CutsOff(events + [Eviction], now)
  {
    Evicting(events);
    CutsOffIff(events + [Eviction], now);
  }
}
