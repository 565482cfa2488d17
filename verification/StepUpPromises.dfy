/** What the step-up gate keeps over every run: which releases go out, and on whose approval. */
module StepUpPromises {
  import opened Outcomes
  import opened BindingKey
  import opened StepUpWorker
  import opened StepUpGate
  import opened StepUpLedgers
  import opened StepUpCeremonies

  // ---- When a release was checked, and what the check found ----

  /** Memory did not know the binding when handler `h` was granted its release. */
  predicate MissedAt(events: seq<Event>, h: nat, b: Binding, p: nat) {
    p < |events| && events[p] == ReleaseProbes(h, Granted) && b !in At(events, p).memory.owed
  }

  /** The check began at `p` and had its verdict at `q`: at once from memory if memory knew the binding,
      otherwise from the record when that was read. A read that fails finds nothing owed. */
  predicate VerdictAt(events: seq<Event>, h: nat, b: Binding, owes: bool, p: nat, q: nat) {
    && p <= q < |events| && events[p] == ReleaseProbes(h, Granted)
    && if p == q then
         && b in At(events, p).memory.owed
         && (owes <==> b !in At(events, p).memory.paid)
       else
         && MissedAt(events, h, b, p)
         && events[q] in {ReleaseReads(h, true), ReleaseReads(h, false)}
         && (owes <==> events[q].readable && b in At(events, q).record.owed && b !in At(events, q).record.paid)
  }

  /** The verdict with which event `e` decides a release, found by the same handler since it began its check. */
  predicate VerdictFor(events: seq<Event>, e: nat, b: Binding, owes: bool, p: nat, q: nat) {
    && q < e < |events| && events[e].ReleaseEnds?
    && VerdictAt(events, events[e].handler, b, owes, p, q) && Lasts(events, events[e].handler, p, e)
  }

  lemma AtExtends(events: seq<Event>, e: Event, n: nat)
    requires n <= |events|
    ensures At(events + [e], n) == At(events, n)
  {
    Extend(events, e);
    assert Replies(events + [e])[..n] == Replies(events)[..n];
  }

  lemma MissedStays(events: seq<Event>, e: Event, h: nat, b: Binding, p: nat)
    requires MissedAt(events, h, b, p)
    ensures MissedAt(events + [e], h, b, p)
  {
    AtExtends(events, e, p);
  }

  lemma VerdictStays(events: seq<Event>, e: Event, h: nat, b: Binding, owes: bool, p: nat, q: nat)
    requires VerdictAt(events, h, b, owes, p, q)
    ensures VerdictAt(events + [e], h, b, owes, p, q)
  {
    AtExtends(events, e, p);
    AtExtends(events, e, q);
  }

  /** The stage of every waiting release tells of its check. */
  ghost predicate StageTells(events: seq<Event>, h: nat, stage: Stage) {
    match stage
    case Reading(b) => exists p :: MissedAt(events, h, b, p) && Lasts(events, h, p, |events|)
    case Decided(b, owes) => exists p, q :: VerdictAt(events, h, b, owes, p, q) && Lasts(events, h, p, |events|)
    case _ => true
  }

  lemma StageStillTells(events: seq<Event>, e: Event, h: nat, stage: Stage)
    requires StageTells(events, h, stage) && !Restarts(e, h)
    ensures StageTells(events + [e], h, stage)
  {
    match stage
    case Reading(b) =>
      var p :| MissedAt(events, h, b, p) && Lasts(events, h, p, |events|);
      MissedStays(events, e, h, b, p);
    case Decided(b, owes) =>
      var p, q :| VerdictAt(events, h, b, owes, p, q) && Lasts(events, h, p, |events|);
      VerdictStays(events, e, h, b, owes, p, q);
    case _ =>
  }

  lemma ProbeTells(events: seq<Event>, h: nat)
    requires h in After(events).handlers && After(events).handlers[h].Asking?
    ensures var b := After(events).handlers[h].binding;
            var r := ProbeRelease(After(events).worker, b, Granted).1;
            && (r.Checked? ==> VerdictAt(events + [ReleaseProbes(h, Granted)], h, b, r.owes, |events|, |events|))
            && (r.Waiting? ==> MissedAt(events + [ReleaseProbes(h, Granted)], h, b, |events|))
  {
    Looks(events, After(events).handlers[h].binding);
    AtExtends(events, ReleaseProbes(h, Granted), |events|);
    assert Replies(events)[..|events|] == Replies(events);
  }

  lemma ReadTells(events: seq<Event>, h: nat, b: Binding, p: nat, readable: bool)
    requires MissedAt(events, h, b, p)
    ensures var owes := RecordOwes(After(events).worker, b, readable);
            VerdictAt(events + [ReleaseReads(h, readable)], h, b, owes, p, |events|)
  {
    Looks(events, b);
    MissedStays(events, ReleaseReads(h, readable), h, b, p);
    AtExtends(events, ReleaseReads(h, readable), |events|);
    assert Replies(events)[..|events|] == Replies(events);
  }

  /** What can change the stage of a release. */
  lemma StageChanges(s: State, e: Event, h: nat)
    requires var s' := Step(s, e).0; h in s'.handlers && (s'.handlers[h].Reading? || s'.handlers[h].Decided?)
    ensures var s' := Step(s, e).0;
            && !Restarts(e, h) && h in s.handlers
            && (s'.handlers[h] == s.handlers[h]
                || (e == ReleaseProbes(h, Granted) && s.handlers[h].Asking?)
                || (e.ReleaseReads? && e.handler == h && s.handlers[h].Reading?))
  {
  }

  lemma NewStageTells(events: seq<Event>, e: Event, h: nat)
    requires forall g :: g in After(events).handlers ==> StageTells(events, g, After(events).handlers[g])
    requires h in Step(After(events), e).0.handlers
    ensures StageTells(events + [e], h, Step(After(events), e).0.handlers[h])
  {
    var s, s' := After(events), Step(After(events), e).0;
    if !s'.handlers[h].Reading? && !s'.handlers[h].Decided? {
      return;
    }
    StageChanges(s, e, h);
    if h in s.handlers && s'.handlers[h] == s.handlers[h] {
      StageStillTells(events, e, h, s.handlers[h]);
    } else if e.ReleaseProbes? {
      ProbeTells(events, h);
    } else if e.ReleaseReads? {
      var b := s.handlers[h].binding;
      var p :| MissedAt(events, h, b, p) && Lasts(events, h, p, |events|);
      ReadTells(events, h, b, p, e.readable);
    }
  }

  lemma {:induction false} StagesTell(events: seq<Event>, h: nat)
    requires h in After(events).handlers
    ensures StageTells(events, h, After(events).handlers[h])
    decreases |events|
  {
    if events != [] {
      var n := |events| - 1;
      var before := events[..n];
      LastStep(events);
      forall g | g in After(before).handlers
        ensures StageTells(before, g, After(before).handlers[g])
      {
        StagesTell(before, g);
      }
      NewStageTells(before, events[n], h);
      assert events == before + [events[n]];
    }
  }

  // ---- The releases that go out ----

  /** Event `e` decides a granted release of `b`: it goes out, or is refused after all. */
  predicate Decides(events: seq<Event>, e: nat, b: Binding, owes: bool) {
    && e < |events| && events[e].ReleaseEnds?
    && Replies(events)[e] == Recorded(if owes then Challenging(b) else Spending(b))
  }

  lemma DecidesByStage(events: seq<Event>, e: nat, b: Binding, owes: bool)
    requires Decides(events, e, b, owes)
    ensures var s := After(events[..e]);
            events[e].handler in s.handlers && s.handlers[events[e].handler] == Decided(b, owes)
  {
    StepAt(events, e);
  }

  lemma VerdictOfStage(events: seq<Event>, h: nat, b: Binding, owes: bool) returns (p: nat, q: nat)
    requires h in After(events).handlers && After(events).handlers[h] == Decided(b, owes)
    ensures VerdictAt(events, h, b, owes, p, q) && Lasts(events, h, p, |events|)
  {
    StagesTell(events, h);
    p, q :| VerdictAt(events, h, b, owes, p, q) && Lasts(events, h, p, |events|);
  }

  lemma VerdictOfPrefix(events: seq<Event>, e: nat, h: nat, b: Binding, owes: bool, p: nat, q: nat)
    requires e < |events| && events[e].ReleaseEnds? && events[e].handler == h
    requires VerdictAt(events[..e], h, b, owes, p, q) && Lasts(events[..e], h, p, e)
    ensures VerdictFor(events, e, b, owes, p, q)
  {
    assert forall i :: p < i < e ==> events[..e][i] == events[i];
    PrefixRuns(events, e);
    assert Replies(events)[..e][..p] == Replies(events)[..p] && Replies(events)[..e][..q] == Replies(events)[..q];
  }

  /** Exactly when a granted release goes out: what memory held when its check began, or, for a binding
      memory did not know, what was on record when the check read it. */
  lemma GrantedReleaseIff(events: seq<Event>, e: nat, b: Binding, owes: bool) returns (p: nat, q: nat)
    requires Decides(events, e, b, owes)
    ensures VerdictFor(events, e, b, owes, p, q)
  {
    DecidesByStage(events, e, b, owes);
    var h := events[e].handler;
    p, q := VerdictOfStage(events[..e], h, b, owes);
    VerdictOfPrefix(events, e, h, b, owes, p, q);
  }

  predicate ReadFails(e: Event) {
    e.ReleaseReads? && !e.readable
  }

  /** The entry was where the check looked: in memory when the check began, if memory knew the binding, and
      otherwise on record when it was read, if that did not fail. */
  predicate Consulted(events: seq<Event>, i: nat, p: nat, q: nat, b: Binding, what: Entry)
    requires p <= q < |events|
  {
    if p == q then InMemory(Replies(events), i, p, b, what)
    else !ReadFails(events[q]) && InRecord(Replies(events), i, q, b, what)
  }

  lemma ConsultedIff(events: seq<Event>, h: nat, b: Binding, owes: bool, p: nat, q: nat, what: Entry)
    requires VerdictAt(events, h, b, owes, p, q)
    ensures (exists i :: Consulted(events, i, p, q, b, what))
            <==> if p == q then b in Side(At(events, p).memory, what)
                 else events[q].readable && b in Side(At(events, q).record, what)
  {
    var replies := Replies(events);
    MemoryIff(events, p, b, what);
    RecordIff(events, q, b, what);
    if i :| p == q && InMemory(replies, i, p, b, what) {
      assert Consulted(events, i, p, q, b, what);
    }
    if i :| p < q && events[q].readable && InRecord(replies, i, q, b, what) {
      assert Consulted(events, i, p, q, b, what);
    }
  }

  /** The same, over the refusals and approvals themselves: a granted release is refused exactly when a
      refusal is where the check looks and no approval is. */
  lemma VerdictIff(events: seq<Event>, e: nat, b: Binding, owes: bool) returns (p: nat, q: nat)
    requires Decides(events, e, b, owes)
    ensures VerdictFor(events, e, b, owes, p, q)
    ensures owes <==> (exists i :: Consulted(events, i, p, q, b, Debt))
                      && !(exists k :: Consulted(events, k, p, q, b, Payment))
  {
    p, q := GrantedReleaseIff(events, e, b, owes);
    ConsultedIff(events, events[e].handler, b, owes, p, q, Debt);
    ConsultedIff(events, events[e].handler, b, owes, p, q, Payment);
  }

  /** In every run, with any interleaving, any answers, any failing reads and writes, and any evictions: a
      release of a binding goes out although a refusal of it is where the check looks only on an approval
      of exactly that binding that is there too. What is there is exactly what was recorded or written and has
      not left since: `InMemory`, `InRecord`. That approval was accepted at `a` by Core and Plus; it was begun
      at `m`, with its proof, logged in, before its challenge expired, after that was started for the binding. */
  lemma OwedReleaseWasApproved(events: seq<Event>, e: nat, b: Binding, i: nat)
    returns (p: nat, q: nat, k: nat, a: nat, m: nat)
    requires Decides(events, e, b, false)
    ensures VerdictFor(events, e, b, false, p, q)
    ensures Consulted(events, i, p, q, b, Debt) ==>
              && Consulted(events, k, p, q, b, Payment) && a <= k < e
              && AcceptedAt(events, a, m, Replies(events)[k].change)
  {
    p, q := VerdictIff(events, e, b, false);
    k, a, m := 0, 0, 0;
    if Consulted(events, i, p, q, b, Debt) {
      k :| Consulted(events, k, p, q, b, Payment);
      a, m := ApprovalWasAccepted(events, k);
    }
  }

  /** This completion was recorded at `a`, for an approval that was accepted then and begun at `m`. */
  predicate AcceptedAt(events: seq<Event>, a: nat, m: nat, c: Change) {
    && a < |events| && Replies(events)[a] == Recorded(c) && c.Completing? && c.session.completed
    && events[a].ApprovalEnds? && events[a].accepted && BegunFor(events[..a], events[a].handler, c.session, m)
  }

  /** Every approval, recorded or answered, was accepted. */
  lemma ApprovalWasAccepted(events: seq<Event>, k: nat) returns (a: nat, m: nat)
    requires k < |events| && Approval(Replies(events)[k])
    ensures a <= k && AcceptedAt(events, a, m, Replies(events)[k].change)
  {
    a := k;
    if Replies(events)[k].Answered? {
      a := AnswerHasRecording(events, k);
      AnswersItsOwn(events, a, k);
    }
    m := ApprovedWasAccepted(events, a);
  }

  /** Exactly when a granted release goes out with no approval where the check looks: memory does not know
      the binding, and the read of the record fails or finds no refusal there. So each refusal answered before
      has left memory or was recorded later; and was not written, was written later, has left the record, or
      meets a failing read. */
  lemma UnapprovedReleaseIff(events: seq<Event>, e: nat, b: Binding, owes: bool) returns (p: nat, q: nat)
    requires Decides(events, e, b, owes)
    ensures VerdictFor(events, e, b, owes, p, q)
    ensures var replies := Replies(events);
            var unapproved := !(exists k :: Consulted(events, k, p, q, b, Payment));
            unapproved ==>
              (!owes <==> && (forall i :: !InMemory(replies, i, p, b, Debt))
                          && (ReadFails(events[q]) || forall i :: !InRecord(replies, i, q, b, Debt)))
  {
    p, q := VerdictIff(events, e, b, owes);
    ConsultedIff(events, events[e].handler, b, owes, p, q, Payment);
    MemoryIff(events, p, b, Debt);
    RecordIff(events, q, b, Debt);
  }

  // ---- One approval, one release ----

  /** The approval recorded at `m` has been written, and what was written is on record before event `n`. */
  ghost predicate OnRecord(replies: seq<Reply>, m: nat, n: nat, b: Binding) {
    exists k :: AnswerOf(replies, m, k) && InRecord(replies, k, n, b, Payment)
  }

  lemma OnRecordIff(events: seq<Event>, n: nat, b: Binding)
    requires n <= |events|
    ensures (exists m: nat :: OnRecord(Replies(events), m, n, b)) <==> b in At(events, n).record.paid
  {
    var replies := Replies(events);
    RecordIff(events, n, b, Payment);
    if k: nat :| InRecord(replies, k, n, b, Payment) {
      var m := AnswerHasRecording(events, k);
      assert OnRecord(replies, m, n, b);
    }
  }

  /** The approval recorded at `m` is what the check found: in memory, or on record once it had been written. */
  ghost predicate RestsOn(events: seq<Event>, m: nat, p: nat, q: nat, b: Binding)
    requires p <= q < |events|
  {
    var replies := Replies(events);
    if p == q then InMemory(replies, m, p, b, Payment)
    else !ReadFails(events[q]) && OnRecord(replies, m, q, b)
  }

  /** A check rests on some approval exactly when the copy of the gate that decided had the binding paid. */
  lemma RestsOnIff(events: seq<Event>, h: nat, b: Binding, owes: bool, p: nat, q: nat)
    requires VerdictAt(events, h, b, owes, p, q)
    ensures (exists m: nat :: RestsOn(events, m, p, q, b))
            <==> if p == q then b in At(events, p).memory.paid else events[q].readable && b in At(events, q).record.paid
  {
    var replies := Replies(events);
    if p == q {
      MemoryIff(events, p, b, Payment);
      if m: nat :| InMemory(replies, m, p, b, Payment) {
        assert RestsOn(events, m, p, q, b);
      }
    } else {
      OnRecordIff(events, q, b);
      if m: nat :| events[q].readable && OnRecord(replies, m, q, b) {
        assert RestsOn(events, m, p, q, b);
      }
    }
  }

  ghost predicate RestsOnEarlier(events: seq<Event>, first: nat, p: nat, q: nat, b: Binding)
    requires p <= q < |events|
  {
    exists m: nat :: m < first && RestsOn(events, m, p, q, b)
  }

  ghost predicate EarlierOnRecord(replies: seq<Reply>, first: nat, q: nat, b: Binding) {
    exists m: nat :: m < first && OnRecord(replies, m, q, b)
  }

  lemma MemoryReusedIff(events: seq<Event>, first: nat, p: nat, b: Binding)
    requires p < |events| && first < |events| && Replies(events)[first] == Recorded(Spending(b)) && p != first
    requires b in At(events, p).memory.paid
    ensures RestsOnEarlier(events, first, p, p, b) <==> p < first
  {
    var replies := Replies(events);
    MemoryIff(events, p, b, Payment);
    var m: nat :| InMemory(replies, m, p, b, Payment);
    assert p < first ==> m < first && RestsOn(events, m, p, p, b);
    assert ForgottenBy(replies[first], b);
  }

  /** Exactly when a later release of a binding rests on an approval made before an earlier one that spent it:
      its check looked in memory before the earlier release had spent, or looked on record and the approval
      was still there. */
  lemma ApprovalReusedIff(events: seq<Event>, first: nat, e: nat, b: Binding) returns (p: nat, q: nat)
    requires Decides(events, first, b, false) && Decides(events, e, b, false) && first < e
    ensures VerdictFor(events, e, b, false, p, q)
    ensures RestsOnEarlier(events, first, p, q, b)
            <==> if p == q then p < first
                 else !ReadFails(events[q]) && EarlierOnRecord(Replies(events), first, q, b)
  {
    p, q := GrantedReleaseIff(events, e, b, false);
    if p == q {
      MemoryReusedIff(events, first, p, b);
    } else {
      RecordReusedIff(events, first, p, q, b);
    }
  }

  lemma RecordReusedIff(events: seq<Event>, first: nat, p: nat, q: nat, b: Binding)
    requires p < q < |events|
    ensures RestsOnEarlier(events, first, p, q, b)
            <==> !ReadFails(events[q]) && EarlierOnRecord(Replies(events), first, q, b)
  {
    forall m: nat
      ensures RestsOn(events, m, p, q, b) <==> !ReadFails(events[q]) && OnRecord(Replies(events), m, q, b)
    {
    }
  }

  /** It is still there only while the spending of the earlier release has not been written: that write waits,
      has failed, or was lost with its worker ... */
  lemma ReusedMeansUnwritten(events: seq<Event>, first: nat, w: nat, q: nat, b: Binding, m: nat)
    requires q <= |events| && m < first && OnRecord(Replies(events), m, q, b)
    requires AnswerOf(Replies(events), first, w) && w < q && Replies(events)[first] == Recorded(Spending(b))
    ensures !Writes(Replies(events)[w])
  {
    var replies := Replies(events);
    var k :| AnswerOf(replies, m, k) && InRecord(replies, k, q, b, Payment);
    AnswersItsOwn(events, first, w);
    EarlierIsAnsweredEarlier(replies, m, k, first, w);
    assert !WriteDrops(replies, w, b);
  }

  /** ... and, where it was on record and neither reads for writes fail nor removals come in, it is still there
      exactly if no spending of the binding has been written since. */
  lemma StillOnRecordIff(replies: seq<Reply>, k: nat, n: nat, q: nat, b: Binding)
    requires n <= q && InRecord(replies, k, n, b, Payment) && q <= |replies|
    requires forall m :: n <= m < q ==> !Removes(replies[m])
    requires forall w :: n <= w < q && Writes(replies[w]) ==> replies[ReadOf(replies, w)] == CopyTaken(true)
    ensures InRecord(replies, k, q, b, Payment)
            <==> forall w :: n <= w < q ==> replies[w] != Answered(Spending(b), true)
  {
    if forall w :: n <= w < q ==> replies[w] != Answered(Spending(b), true) {
      forall m | k < m < q && Removes(replies[m])
        ensures exists w :: m < w < q && Undoes(replies, w, m)
      {
        var w :| m < w < n && Undoes(replies, w, m);
      }
      forall w | k < w < q
        ensures !WriteDrops(replies, w, b)
      {
      }
    }
    if w :| n <= w < q && replies[w] == Answered(Spending(b), true) {
      assert WriteDrops(replies, w, b);
    }
  }

  /** So one approval pays for one release wherever the earlier release had been answered, its spending
      written, before the later one's check began. */
  lemma ApprovalIsSpentOnce(events: seq<Event>, first: nat, w: nat, e: nat, b: Binding, m: nat)
    returns (p: nat, q: nat)
    requires Decides(events, first, b, false) && Decides(events, e, b, false) && first < e && m < first
    requires AnswerOf(Replies(events), first, w) && Writes(Replies(events)[w])
    ensures VerdictFor(events, e, b, false, p, q)
    ensures w < p ==> !RestsOn(events, m, p, q, b)
  {
    p, q := ApprovalReusedIff(events, first, e, b);
    if p < q && w < q && OnRecord(Replies(events), m, q, b) {
      ReusedMeansUnwritten(events, first, w, q, b, m);
    }
  }

  // ---- Where the debt came in ----

  /** A release that goes out although its worker has recorded a debt that is still unpaid: exactly when
      that debt was recorded after the check had begun. */
  lemma PassedOverDebtIff(events: seq<Event>, e: nat, b: Binding) returns (p: nat, q: nat)
    requires Decides(events, e, b, false)
    ensures VerdictFor(events, e, b, false, p, q)
    ensures var l := At(events, e).memory;
            b in l.owed && b !in l.paid
            <==> b !in l.paid && exists i :: p < i && InMemory(Replies(events), i, e, b, Debt)
  {
    p, q := GrantedReleaseIff(events, e, b, false);
    MemoryIff(events, e, b, Debt);
    var l := At(events, e).memory;
    if b in l.owed && b !in l.paid {
      var i :| InMemory(Replies(events), i, e, b, Debt);
      StepAt(events, p);
      DebtCameLater(events, b, p, e, i);
    }
  }

  lemma DebtCameLater(events: seq<Event>, b: Binding, p: nat, e: nat, i: nat)
    requires p < e <= |events| && !Replies(events)[p].Recorded?
    requires b in At(events, p).memory.owed ==> b in At(events, p).memory.paid
    requires InMemory(Replies(events), i, e, b, Debt) && b !in At(events, e).memory.paid
    ensures p < i
  {
    var replies := Replies(events);
    MemoryIff(events, p, b, Debt);
    MemoryIff(events, p, b, Payment);
    MemoryIff(events, e, b, Payment);
    if i < p {
      assert InMemory(replies, i, p, b, Debt);
      var k :| InMemory(replies, k, p, b, Payment);
      StaysInMemory(replies, i, p, e, k, b);
    }
  }

  lemma StaysInMemory(replies: seq<Reply>, i: nat, p: nat, e: nat, k: nat, b: Binding)
    requires i < p < e && InMemory(replies, i, e, b, Debt) && InMemory(replies, k, p, b, Payment)
    ensures InMemory(replies, k, e, b, Payment)
  {
  }

  /** And for an unpaid debt on record, over a check that read the record: exactly when the debt was not there
      at that read, but was written, or brought back by a write, after it. */
  lemma PassedOverRecordIff(events: seq<Event>, e: nat, b: Binding) returns (p: nat, q: nat)
    requires Decides(events, e, b, false)
    ensures VerdictFor(events, e, b, false, p, q)
    ensures var l, replies := At(events, e).record, Replies(events);
            p < q && !ReadFails(events[q]) ==>
              (b in l.owed && b !in l.paid
               <==> b !in l.paid && exists i :: InRecord(replies, i, e, b, Debt) && !InRecord(replies, i, q, b, Debt))
  {
    p, q := GrantedReleaseIff(events, e, b, false);
    RecordIff(events, e, b, Debt);
    var l := At(events, e).record;
    if p < q && !ReadFails(events[q]) && b in l.owed && b !in l.paid {
      var i :| InRecord(Replies(events), i, e, b, Debt);
      RecordCameLater(events, b, q, e, i);
    }
  }

  lemma RecordCameLater(events: seq<Event>, b: Binding, q: nat, e: nat, i: nat)
    requires q < e <= |events|
    requires b in At(events, q).record.owed ==> b in At(events, q).record.paid
    requires InRecord(Replies(events), i, e, b, Debt) && b !in At(events, e).record.paid
    ensures !InRecord(Replies(events), i, q, b, Debt)
  {
    var replies := Replies(events);
    RecordIff(events, q, b, Debt);
    RecordIff(events, q, b, Payment);
    RecordIff(events, e, b, Payment);
    if InRecord(replies, i, q, b, Debt) {
      var k :| InRecord(replies, k, q, b, Payment);
      StaysOnRecord(replies, i, q, e, k, b);
    }
  }

  lemma StaysOnRecord(replies: seq<Reply>, i: nat, q: nat, e: nat, k: nat, b: Binding)
    requires q < e && InRecord(replies, i, q, b, Debt) && InRecord(replies, i, e, b, Debt)
    requires InRecord(replies, k, q, b, Payment)
    ensures InRecord(replies, k, e, b, Payment)
  {
    forall m | k < m < e && Removes(replies[m])
      ensures exists w :: m < w < e && Undoes(replies, w, m)
    {
      if m < q {
        var w :| m < w < q && Undoes(replies, w, m);
      }
    }
  }
}
