/** The pending list of the step-up gate, what evictions and waiting writes do to it and to the verdicts,
  and runs that show where the promises end. */
module StepUpRuns {
  import opened Outcomes
  import opened BindingKey
  import opened StepUpWorker
  import opened StepUpGate
  import opened StepUpLedgers
  import opened StepUpCeremonies

  // ---- The pending list ----

  lemma PendingAt(g: Gate, w: Worker, b: Binding)
    requires Filed(g) && Filed(w.memory)
    ensures var m, p := View(w.memory), View(g);
            b in PendingOf(g, w) <==> b in m.owed + p.owed && b !in m.paid + p.paid
  {
    ViewOfKey(g, b);
    ViewOfKey(w.memory, b);
    var m := Merged(g, w);
    forall k | k in m
      ensures Key(m[k]) == k
    {
    }
    if b in PendingOf(g, w) {
      var k :| k in PendingKeys(g, w) && m[k] == b;
    } else if Key(b) in m {
      KeyIsInjective(m[Key(b)], b);
    }
  }

  function Outstanding(memory: Ledger, record: Ledger): set<Binding> {
    (memory.owed + record.owed) - (memory.paid + record.paid)
  }

  lemma PendingIs(g: Gate, w: Worker)
    requires Filed(g) && Filed(w.memory)
    ensures PendingOf(g, w) == Outstanding(View(w.memory), View(g))
  {
    forall b
      ensures b in PendingOf(g, w) <==> b in Outstanding(View(w.memory), View(g))
    {
      PendingAt(g, w, b);
    }
  }

  function ReadAt(events: seq<Event>, j: nat): Ledger
    requires j < |events| && events[j].PendingBegins?
  {
    if events[j].readable then At(events, j).record else NOTHING
  }

  ghost predicate ListTells(events: seq<Event>, h: nat, g: Gate) {
    Filed(g) && exists j: nat :: j < |events| && events[j].PendingBegins? && events[j].handler == h
                                && View(g) == ReadAt(events, j)
  }

  lemma ReadAtExtends(events: seq<Event>, e: Event, h: nat, g: Gate)
    requires ListTells(events, h, g)
    ensures ListTells(events + [e], h, g)
  {
    var j: nat :| j < |events| && events[j].PendingBegins? && events[j].handler == h && View(g) == ReadAt(events, j);
    Extend(events, e);
    assert Replies(events + [e])[..j] == Replies(events)[..j];
    assert (events + [e])[j] == events[j];
  }

  lemma ListBegins(events: seq<Event>, h: nat, readable: bool)
    ensures var all := events + [PendingBegins(h, readable)];
            var s := After(all);
            h in s.handlers && s.handlers[h].Listing? && ListTells(all, h, s.handlers[h].gate)
  {
    var e := PendingBegins(h, readable);
    GateRecordsHistory(events);
    Extend(events, e);
    EmptyGate();
    assert Replies(events + [e])[..|events|] == Replies(events);
    assert (events + [e])[|events|] == e;
    assert View(After(events + [e]).handlers[h].gate) == ReadAt(events + [e], |events|);
  }

  lemma ListingKept(s: State, e: Event, h: nat)
    requires !(e.PendingBegins? && e.handler == h)
    ensures var s' := Step(s, e).0;
            h in s'.handlers && s'.handlers[h].Listing? ==> h in s.handlers && s.handlers[h] == s'.handlers[h]
  {
  }

  lemma {:induction false} ListsTell(events: seq<Event>, h: nat)
    requires h in After(events).handlers && After(events).handlers[h].Listing?
    ensures ListTells(events, h, After(events).handlers[h].gate)
    decreases |events|
  {
    if events != [] {
      var n := |events| - 1;
      var before, e := events[..n], events[n];
      LastStep(events);
      assert events == before + [e];
      if e.PendingBegins? && e.handler == h {
        ListBegins(before, h, e.readable);
      } else {
        ListingKept(After(before), e, h);
        ListsTell(before, h);
        ReadAtExtends(before, e, h, After(events).handlers[h].gate);
      }
    }
  }

  /** In every run the popup is shown what was refused and neither approved nor released since, by the record
      as it was when the handler read it and by what memory holds when the list is made. */
  lemma PendingIsOwedUnpaid(events: seq<Event>, n: nat) returns (j: nat)
    requires n < |events| && Replies(events)[n].Pending?
    ensures events[n].PendingEnds? && j < n && events[j].PendingBegins? && events[j].handler == events[n].handler
    ensures Replies(events)[n].bindings == Outstanding(At(events, n).memory, ReadAt(events, j))
  {
    var before := events[..n];
    StepAt(events, n);
    AtPrefix(events, n);
    var h := events[n].handler;
    j := ListIsMade(before, h);
    ReadAtPrefix(events, n, j);
  }

  lemma ReadAtPrefix(events: seq<Event>, n: nat, j: nat)
    requires j < n <= |events| && events[j].PendingBegins?
    ensures ReadAt(events[..n], j) == ReadAt(events, j)
  {
    PrefixRuns(events, n);
    assert Replies(events)[..n][..j] == Replies(events)[..j];
  }

  lemma ListIsMade(events: seq<Event>, h: nat) returns (j: nat)
    requires h in After(events).handlers && After(events).handlers[h].Listing?
    ensures j < |events| && events[j].PendingBegins? && events[j].handler == h
    ensures PendingOf(After(events).handlers[h].gate, After(events).worker)
         == Outstanding(Account(events).memory, ReadAt(events, j))
  {
    ListsTell(events, h);
    GateRecordsHistory(events);
    var g := After(events).handlers[h].gate;
    PendingIs(g, After(events).worker);
    j :| j < |events| && events[j].PendingBegins? && events[j].handler == h && View(g) == ReadAt(events, j);
  }

  /** What it would be shown if the list were made at once. */
  function PendingNow(w: Worker): set<Binding> {
    PendingOf(Stored(w.storage), w)
  }

  lemma PendingNowIs(events: seq<Event>)
    ensures PendingNow(After(events).worker) == Outstanding(Account(events).memory, Account(events).record)
  {
    GateRecordsHistory(events);
    PendingIs(Stored(After(events).worker.storage), After(events).worker);
  }

  /** An eviction leaves the list as it is exactly when what is pending in memory is on record, and so is
      every approval in memory of a debt that is. */
  lemma EvictionKeepsPendingIff(events: seq<Event>)
    ensures var m, p := Account(events).memory, Account(events).record;
            PendingNow(After(events + [Eviction]).worker) == PendingNow(After(events).worker)
            <==> m.owed - (m.paid + p.paid) <= p.owed && p.owed * m.paid <= p.paid
  {
    Evicting(events);
    PendingNowIs(events);
    PendingNowIs(events + [Eviction]);
    OutstandingWithoutIff(Account(events).memory, Account(events).record);
  }

  lemma OutstandingWithoutIff(m: Ledger, p: Ledger)
    ensures Outstanding(NOTHING, p) == Outstanding(m, p)
            <==> m.owed - (m.paid + p.paid) <= p.owed && p.owed * m.paid <= p.paid
  {
    var before, later := Outstanding(m, p), Outstanding(NOTHING, p);
    assert later == p.owed - p.paid;
    if before == later {
      forall b | b in m.owed - (m.paid + p.paid)
        ensures b in p.owed
      {
        assert b in before;
      }
      forall b | b in p.owed * m.paid
        ensures b in p.paid
      {
        assert b !in before;
      }
    }
  }

  // ---- Memory, and the writes that follow it ----

  predicate Within(small: Ledger, large: Ledger) {
    small.owed <= large.owed && small.paid <= large.paid
  }

  /** The ledger once all of these changes have been made. */
  function PostAll(l: Ledger, changes: seq<Change>): Ledger
    decreases |changes|
  {
    if changes == [] then l else PostAll(Post(l, changes[0]), changes[1..])
  }

  lemma {:induction false} PostAllSnoc(l: Ledger, changes: seq<Change>, c: Change)
    ensures PostAll(l, changes + [c]) == Post(PostAll(l, changes), c)
    decreases |changes|
  {
    if changes == [] {
      assert changes + [c] == [c];
    } else {
      PostAllSnoc(Post(l, changes[0]), changes[1..], c);
      assert (changes + [c])[1..] == changes[1..] + [c];
    }
  }

  lemma PostMonotone(small: Ledger, large: Ledger, c: Change)
    requires Within(small, large)
    ensures Within(Post(small, c), Post(large, c))
  {
  }

  /** Writes and the reads before them succeed, and nothing removes the record. */
  predicate QuietEvent(e: Event) {
    && e != WriteReads(false) && e != WriteSettles(false) && !e.SessionDrops? && (e.LockBegins? ==> !e.gate)
  }

  predicate Quiet(events: seq<Event>) {
    forall e :: e in events ==> QuietEvent(e)
  }

  predicate Forgets(r: Reply) {
    r.Evicted? || r.Lapsing? || r.Locked?
  }

  /** No step empties the worker's memory. */
  predicate Unforgetful(events: seq<Event>) {
    forall r :: r in Replies(events) ==> !Forgets(r)
  }

  /** What is on record, once the waiting writes are done. */
  function Eventually(events: seq<Event>): Ledger {
    PostAll(Account(events).record, After(events).worker.writes)
  }

  /** The waiting writes, from one step to the next. */
  predicate WritesMove(writes: seq<Change>, r: Reply, writes': seq<Change>) {
    match r
    case Recorded(c) => writes' == writes + [c]
    case Answered(c, _) => writes != [] && c == writes[0] && writes' == writes[1..]
    case Evicted => writes' == []
    case _ => writes' == writes
  }

  lemma StepMovesWrites(s: State, e: Event)
    ensures var (s', r) := Step(s, e); WritesMove(s.worker.writes, r, s'.worker.writes)
  {
    StepMoves(s, e);
  }

  predicate QuietReply(r: Reply) {
    match r
    case Answered(_, written) => written
    case CopyTaken(readable) => readable
    case VaultLocked(dropped) => !dropped
    case Removed(gate) => !gate
    case _ => true
  }

  lemma QuietReplies(s: State, e: Event)
    requires QuietEvent(e)
    ensures QuietReply(Step(s, e).1)
  {
  }

  /** A copy that is held is still the record. */
  predicate CopyIsRecord(held: Option<Gate>, k: Books) {
    held.Some? ==> k.held == k.record
  }

  lemma QuietCopy(s: State, k: Books, e: Event)
    requires QuietEvent(e) && CopyIsRecord(s.worker.held, k)
    ensures var (s', r) := Step(s, e); CopyIsRecord(s'.worker.held, Enter(k, r))
  {
    QuietReplies(s, e);
    StepMoves(s, e);
  }

  lemma QuietMoves(k: Books, writes: seq<Change>, r: Reply, writes': seq<Change>)
    requires Within(k.memory, PostAll(k.record, writes)) && QuietReply(r) && WritesMove(writes, r, writes')
    requires r.Answered? ==> k.held == k.record
    ensures var k' := Enter(k, r);
            && Within(k'.memory, PostAll(k'.record, writes'))
            && (k.memory == PostAll(k.record, writes) && !Forgets(r) ==> k'.memory == PostAll(k'.record, writes'))
  {
    match r
    case Recorded(c) =>
      PostAllSnoc(k.record, writes, c);
      PostMonotone(k.memory, PostAll(k.record, writes), c);
    case _ =>
  }

  lemma QuietStep(events: seq<Event>, e: Event)
    requires QuietEvent(e) && CopyIsRecord(After(events).worker.held, Account(events))
    requires Within(Account(events).memory, Eventually(events))
    ensures CopyIsRecord(After(events + [e]).worker.held, Account(events + [e]))
    ensures Within(Account(events + [e]).memory, Eventually(events + [e]))
    ensures Account(events).memory == Eventually(events) && !Forgets(Step(After(events), e).1)
            ==> Account(events + [e]).memory == Eventually(events + [e])
  {
    Extend(events, e);
    var s := After(events);
    var (s', r) := Step(s, e);
    StepMovesWrites(s, e);
    QuietReplies(s, e);
    QuietCopy(s, Account(events), e);
    StepMoves(s, e);
    QuietMoves(Account(events), s.worker.writes, r, s'.worker.writes);
  }

  /** While writes succeed and the record is not removed, memory holds nothing that is not on record or
      waiting to be; and all of that, unless the worker was stopped or the session ended. */
  lemma {:induction false} WritesFollowMemory(events: seq<Event>)
    requires Quiet(events)
    ensures CopyIsRecord(After(events).worker.held, Account(events))
    ensures Within(Account(events).memory, Eventually(events))
    ensures Unforgetful(events) ==> Account(events).memory == Eventually(events)
    decreases |events|
  {
    if events != [] {
      var n := |events| - 1;
      var before, e := events[..n], events[n];
      assert e in events && forall x :: x in before ==> x in events;
      WritesFollowMemory(before);
      LastStep(events);
      assert events == before + [e];
      QuietStep(before, e);
      UnforgetfulPrefix(before, e);
    }
  }

  lemma UnforgetfulPrefix(events: seq<Event>, e: Event)
    ensures Unforgetful(events + [e]) ==> Unforgetful(events) && !Forgets(Step(After(events), e).1)
  {
    Extend(events, e);
    var all, r := Replies(events + [e]), Step(After(events), e).1;
    assert all[|events|] == r && forall x :: x in Replies(events) ==> x in all;
  }

  /** So in such runs, whenever no write is waiting, an eviction leaves the pending list as it is. */
  lemma EvictionKeepsPendingAtRest(events: seq<Event>)
    requires Quiet(events) && After(events).worker.writes == []
    ensures PendingNow(After(events + [Eviction]).worker) == PendingNow(After(events).worker)
  {
    WritesFollowMemory(events);
    EvictionKeepsPendingIff(events);
  }

  // ---- Verdicts ----

  /** What a check would find now, were nothing to come between its two halves. */
  predicate WouldOwe(w: Worker, b: Binding) {
    var r := ProbeRelease(w, b, Granted).1;
    if r.Checked? then r.owes else RecordOwes(w, b, true)
  }

  lemma WouldOweIff(events: seq<Event>, b: Binding)
    ensures var m, p := Account(events).memory, Account(events).record;
            WouldOwe(After(events).worker, b)
            <==> if b in m.owed then b !in m.paid else b in p.owed && b !in p.paid
  {
    Looks(events, b);
  }

  /** With nothing forgotten, failed or waiting, a release is withheld exactly if owed and unpaid. */
  lemma VerdictAtRestIff(events: seq<Event>, b: Binding)
    requires Quiet(events) && Unforgetful(events) && After(events).worker.writes == []
    ensures var p := Account(events).record;
            WouldOwe(After(events).worker, b) <==> b in p.owed && b !in p.paid
  {
    WritesFollowMemory(events);
    WouldOweIff(events, b);
  }

  /** Exactly when a binding whose approval is on record is withheld all the same: the running worker has
      recorded a refusal of it and no approval. */
  lemma PaidButWithheldIff(events: seq<Event>, b: Binding)
    requires b in Account(events).record.paid
    ensures var m := Account(events).memory;
            WouldOwe(After(events).worker, b) <==> b in m.owed && b !in m.paid
  {
    WouldOweIff(events, b);
  }

  // ---- Pieces of runs ----

  lemma TwoSteps(events: seq<Event>, d: Event, e: Event)
    ensures var (s1, r1) := Step(After(events), d);
            var (s2, r2) := Step(s1, e);
            && After(events + [d] + [e]) == s2
            && Replies(events + [d] + [e]) == Replies(events) + [r1, r2]
            && Account(events + [d] + [e]) == Enter(Enter(Account(events), r1), r2)
  {
    var (s1, r1) := Step(After(events), d);
    Extend(events, d);
    OneStep(events + [d], e, s1, Replies(events) + [r1], Enter(Account(events), r1));
    var r2 := Step(s1, e).1;
    assert Replies(events) + [r1] + [r2] == Replies(events) + [r1, r2];
  }

  lemma OneStep(events: seq<Event>, e: Event, s: State, replies: seq<Reply>, k: Books)
    requires After(events) == s && Replies(events) == replies && Account(events) == k
    ensures var (s', r) := Step(s, e);
            && After(events + [e]) == s' && Replies(events + [e]) == replies + [r]
            && Account(events + [e]) == Enter(k, r)
  {
    Extend(events, e);
  }

  predicate Readable(s: State, now: int) {
    IsUnlocked(s.worker.storage, now) && s.worker.storage.vek
  }

  predicate NoWriteWaits(s: State) {
    s.worker.writes == [] && s.worker.held == None
  }

  /** A release is begun and refused by Plus; its refusal is written, or not. */
  function Refusal(events: seq<Event>, h: nat, b: Binding, now: int, readable: bool, succeeds: bool): seq<Event> {
    events + [ReleaseBegins(h, b, now)] + [ReleaseProbes(h, MustChallenge)] + [WriteReads(readable)]
    + [WriteSettles(succeeds)]
  }

  lemma RefusalSteps(s: State, h: nat, b: Binding, now: int)
    requires Readable(s, now) && NoWriteWaits(s) && !Withholds(s.worker.memory, b)
    ensures var (s1, r1) := Step(s, ReleaseBegins(h, b, now));
            var (s2, r2) := Step(s1, ReleaseProbes(h, MustChallenge));
            && r1 == Waiting && r2 == Recorded(Challenging(b))
            && s2.worker.writes == [Challenging(b)] && s2.worker.held == None
            && s2.handlers == s.handlers - {h} && s2.worker.storage == s.worker.storage
  {
    assert s.handlers[h := Asking(b)] - {h} == s.handlers - {h};
  }

  lemma WriteSteps(s: State, c: Change, readable: bool, succeeds: bool)
    requires s.worker.writes == [c] && s.worker.held == None
    ensures var (s1, r1) := Step(s, WriteReads(readable));
            var (s2, r2) := Step(s1, WriteSettles(succeeds));
            && r1 == CopyTaken(readable) && r2 == Answered(c, succeeds)
            && NoWriteWaits(s2) && s2.handlers == s.handlers
            && s2.worker.storage.(record := None) == s.worker.storage.(record := None)
  {
  }

  lemma Refused(events: seq<Event>, h: nat, b: Binding, now: int, readable: bool, succeeds: bool)
    requires Readable(After(events), now) && NoWriteWaits(After(events)) && !Withholds(After(events).worker.memory, b)
    ensures var all := Refusal(events, h, b, now, readable, succeeds);
            var l := if readable then Account(events).record else NOTHING;
            && Replies(all) == Replies(events) + [Waiting, Recorded(Challenging(b)), CopyTaken(readable),
                                                  Answered(Challenging(b), succeeds)]
            && Account(all).memory == Post(Account(events).memory, Challenging(b))
            && Account(all).record == (if succeeds then Post(l, Challenging(b)) else Account(events).record)
            && NoWriteWaits(After(all)) && After(all).handlers == After(events).handlers - {h}
            && After(all).worker.storage.(record := None) == After(events).worker.storage.(record := None)
  {
    var asked := events + [ReleaseBegins(h, b, now)] + [ReleaseProbes(h, MustChallenge)];
    RefusalSteps(After(events), h, b, now);
    TwoSteps(events, ReleaseBegins(h, b, now), ReleaseProbes(h, MustChallenge));
    WriteSteps(After(asked), Challenging(b), readable, succeeds);
    TwoSteps(asked, WriteReads(readable), WriteSettles(succeeds));
  }

  /** A release that memory does not know of: granted, checked against the record, and decided. */
  function Fresh(events: seq<Event>, h: nat, b: Binding, now: int): seq<Event> {
    events + [ReleaseBegins(h, b, now)] + [ReleaseProbes(h, Granted)] + [ReleaseReads(h, true)] + [ReleaseEnds(h)]
  }

  lemma FreshSteps(s: State, h: nat, b: Binding, now: int)
    requires Readable(s, now) && Key(b) !in s.worker.memory.challenged && !Withholds(Stored(s.worker.storage), b)
    ensures var (s1, r1) := Step(s, ReleaseBegins(h, b, now));
            var (s2, r2) := Step(s1, ReleaseProbes(h, Granted));
            var (s3, r3) := Step(s2, ReleaseReads(h, true));
            && r1 == Waiting && r2 == Waiting && r3 == Checked(false)
            && Step(s3, ReleaseEnds(h)).1 == Recorded(Spending(b))
  {
  }

  /** It goes out if the record does not withhold it. */
  lemma FreshReleases(events: seq<Event>, h: nat, b: Binding, now: int)
    requires Readable(After(events), now) && b !in Account(events).memory.owed
    requires b in Account(events).record.owed ==> b in Account(events).record.paid
    ensures Replies(Fresh(events, h, b, now))
         == Replies(events) + [Waiting, Waiting, Checked(false), Recorded(Spending(b))]
  {
    Looks(events, b);
    FreshRuns(events, h, b, now);
  }

  lemma FreshRuns(events: seq<Event>, h: nat, b: Binding, now: int)
    requires Readable(After(events), now) && Key(b) !in After(events).worker.memory.challenged
    requires !Withholds(Stored(After(events).worker.storage), b)
    ensures Replies(Fresh(events, h, b, now))
         == Replies(events) + [Waiting, Waiting, Checked(false), Recorded(Spending(b))]
  {
    FreshSteps(After(events), h, b, now);
    var one := events + [ReleaseBegins(h, b, now)];
    var two := one + [ReleaseProbes(h, Granted)];
    Extend(events, ReleaseBegins(h, b, now));
    Extend(one, ReleaseProbes(h, Granted));
    Extend(two, ReleaseReads(h, true));
    Extend(two + [ReleaseReads(h, true)], ReleaseEnds(h));
  }

  // ---- Refused, approved, and withheld all the same ----

  /** The vault is unlocked. */
  function Opened(events: seq<Event>, now: int): seq<Event> {
    events + [KeyUnlocked(now)] + [VekUnlocked(now)]
  }

  function OpenedSince(s: State, now: int): State {
    s.(worker := s.worker.(storage :=
      Storage(s.worker.storage.record, Some(now), Some(now + SESSION_WINDOW_MS), true)))
  }

  lemma OpeningSteps(s: State, now: int)
    ensures var (s1, r1) := Step(s, KeyUnlocked(now));
            var (s2, r2) := Step(s1, VekUnlocked(now));
            r1 == Unlocked && r2 == Unlocked && s2 == OpenedSince(s, now)
  {
  }

  lemma Opening(events: seq<Event>, now: int)
    ensures var all := Opened(events, now);
            && Replies(all) == Replies(events) + [Unlocked, Unlocked]
            && Account(all) == Account(events) && After(all) == OpenedSince(After(events), now)
  {
    OpeningSteps(After(events), now);
    TwoSteps(events, KeyUnlocked(now), VekUnlocked(now));
  }

  /** The vault was unlocked at instant 1. */
  predicate SinceOne(s: State) {
    s.worker.storage.(record := None) == Storage(None, Some(1), Some(1 + SESSION_WINDOW_MS), true)
  }

  lemma SinceOneIsReadable(s: State, now: int)
    requires SinceOne(s) && 1 <= now <= SESSION_WINDOW_MS
    ensures Readable(s, now)
  {
  }

  lemma UnlockedRun() returns (events: seq<Event>)
    ensures Replies(events) == [Unlocked, Unlocked] && Account(events) == NO_BOOKS
    ensures var s := After(events);
            && SinceOne(s) && s.handlers == map[] && NoWriteWaits(s)
            && s.worker.memory == EMPTY_GATE && s.worker.storage.record == None && s.worker.ceremonies == map[]
  {
    Opening([], 1);
    events := Opened([], 1);
  }

  /** Unlock, be refused: the binding is owed, in memory and on record. */
  lemma RefusedRun(b: Binding) returns (events: seq<Event>)
    ensures Replies(events) == [Unlocked, Unlocked, Waiting, Recorded(Challenging(b)), CopyTaken(true),
                                Answered(Challenging(b), true)]
    ensures Account(events).memory == Ledger({b}, {}) && Account(events).record == Ledger({b}, {})
    ensures SinceOne(After(events)) && NoWriteWaits(After(events))
  {
    var unlocked := UnlockedRun();
    assert !Withholds(EMPTY_GATE, b);
    SinceOneIsReadable(After(unlocked), 2);
    Refused(unlocked, 0, b, 2, true, true);
    events := Refusal(unlocked, 0, b, 2, true, true);
  }

  function Approving(events: seq<Event>, b: Binding): seq<Event> {
    events + [ChallengeStarts(b, true, true, Some(("c", 100)))] + [ApprovalBegins(0, "c", true, true, 3)]
    + [ApprovalEnds(0, true)] + [WriteReads(true)] + [WriteSettles(true)]
  }

  lemma ApprovingSteps(s: State, b: Binding)
    requires b.credentialId != "" && b.origin != "" && NoWriteWaits(s)
    ensures var c := CompletionOf("c", Ceremony(b, 100));
            var (s1, r1) := Step(s, ChallengeStarts(b, true, true, Some(("c", 100))));
            var (s2, r2) := Step(s1, ApprovalBegins(0, "c", true, true, 3));
            var (s3, r3) := Step(s2, ApprovalEnds(0, true));
            && r1 == Started("c") && r2 == Waiting && r3 == Recorded(c)
            && s3.worker.writes == [c] && s3.worker.held == None && s3.worker.storage == s.worker.storage
  {
  }

  /** Start a challenge for it and approve it: the binding is owed and paid, in memory and on record. */
  lemma ApprovedRun(b: Binding) returns (events: seq<Event>)
    requires b.credentialId != "" && b.origin != ""
    ensures Account(events).memory == Ledger({b}, {b}) && Account(events).record == Ledger({b}, {b})
    ensures NoWriteWaits(After(events)) && SinceOne(After(events))
  {
    var refused := RefusedRun(b);
    ApprovingSteps(After(refused), b);
    var one := refused + [ChallengeStarts(b, true, true, Some(("c", 100)))];
    Extend(refused, ChallengeStarts(b, true, true, Some(("c", 100))));
    TwoSteps(one, ApprovalBegins(0, "c", true, true, 3), ApprovalEnds(0, true));
    var approved := one + [ApprovalBegins(0, "c", true, true, 3)] + [ApprovalEnds(0, true)];
    WriteSteps(After(approved), CompletionOf("c", Ceremony(b, 100)), true, true);
    TwoSteps(approved, WriteReads(true), WriteSettles(true));
    events := Approving(refused, b);
  }

  /** Whenever a binding is owed and paid on record: once the worker is evicted and Plus asks for a
      challenge again, the new worker refuses the binding, though its approval is still on record and the
      popup has nothing pending to show. */
  lemma EvictedThenChallengedAgain(events: seq<Event>, b: Binding, h: nat, now: int)
    requires b in Account(events).record.owed && b in Account(events).record.paid && Readable(After(events), now)
    ensures var more := Refusal(events + [Eviction], h, b, now, true, true);
            && Account(more).record == Account(events).record
            && b !in PendingNow(After(more).worker)
            && WouldOwe(After(more).worker, b)
  {
    var evicted := events + [Eviction];
    Evicting(events);
    assert !Withholds(EMPTY_GATE, b);
    Refused(evicted, h, b, now, true, true);
    var more := Refusal(evicted, h, b, now, true, true);
    assert Account(events).record.owed + {b} == Account(events).record.owed;
    PendingNowIs(more);
    WouldOweIff(more, b);
  }

  // ---- Refusals that are lost ----

  /** A refusal answered without having been written is gone with its worker: no read fails, nothing is
      recorded after the check, and the release goes out with nothing ever approved. */
  lemma UnwrittenRefusalIsLost(b: Binding) returns (events: seq<Event>)
    ensures Replies(events) == [Unlocked, Unlocked, Waiting, Recorded(Challenging(b)), CopyTaken(true),
                                Answered(Challenging(b), false),
                                Evicted, Waiting, Waiting, Checked(false), Recorded(Spending(b))]
  {
    var unlocked := UnlockedRun();
    SinceOneIsReadable(After(unlocked), 2);
    assert !Withholds(EMPTY_GATE, b);
    var refused := Refusal(unlocked, 0, b, 2, true, false);
    Refused(unlocked, 0, b, 2, true, false);
    EvictedReleases(refused, b, 2);
    events := Fresh(refused + [Eviction], 1, b, 2);
  }

  lemma EvictedReleases(events: seq<Event>, b: Binding, now: int)
    requires Readable(After(events), now)
    requires b in Account(events).record.owed ==> b in Account(events).record.paid
    ensures Replies(Fresh(events + [Eviction], 1, b, now))
         == Replies(events) + [Evicted, Waiting, Waiting, Checked(false), Recorded(Spending(b))]
  {
    Evicting(events);
    FreshReleases(events + [Eviction], 1, b, now);
  }

  /** A refusal on record is lost to the write of another binding whose read fails. */
  lemma FailedReadLosesRefusal(b: Binding, c: Binding) returns (events: seq<Event>)
    requires b != c
    ensures Replies(events) == [Unlocked, Unlocked, Waiting, Recorded(Challenging(b)), CopyTaken(true),
                                Answered(Challenging(b), true),
                                Waiting, Recorded(Challenging(c)), CopyTaken(false), Answered(Challenging(c), true),
                                Evicted, Waiting, Waiting, Checked(false), Recorded(Spending(b))]
  {
    var refused := RefusedRun(b);
    SinceOneIsReadable(After(refused), 2);
    Looks(refused, c);
    Refused(refused, 0, c, 2, false, true);
    var other := Refusal(refused, 0, c, 2, false, true);
    SinceOneIsReadable(After(other), 2);
    EvictedReleases(other, b, 2);
    events := Fresh(other + [Eviction], 1, b, 2);
  }

  // ---- An approval that comes back ----

  /** The session lapses and is dropped while a change is being written; then it is written ... */
  function LapseInside(events: seq<Event>, h: nat, now: int): seq<Event> {
    events + [VekNeeded(h, now)] + [SessionDrops(h)] + [WriteSettles(true)]
  }

  lemma LapseInsideSteps(s: State, h: nat, now: int)
    requires !IsUnlocked(s.worker.storage, now) && s.worker.writes != [] && s.worker.held.Some?
    ensures var (s1, r1) := Step(s, VekNeeded(h, now));
            var (s2, r2) := Step(s1, SessionDrops(h));
            && r1 == Lapsing && r2 == VaultLocked(true)
            && Step(s2, WriteSettles(true)).1 == Answered(s.worker.writes[0], true)
  {
  }

  /** ... and what the lapse had cleared is on record again: the copy read before it, with the change. */
  lemma LapseInsideIsUndone(events: seq<Event>, h: nat, now: int)
    requires var s := After(events);
             !IsUnlocked(s.worker.storage, now) && s.worker.writes != [] && s.worker.held.Some?
    ensures var all, c := LapseInside(events, h, now), After(events).worker.writes[0];
            && Replies(all) == Replies(events) + [Lapsing, VaultLocked(true), Answered(c, true)]
            && Account(all).record == Post(Account(events).held, c)
  {
    LapseInsideSteps(After(events), h, now);
    var one := events + [VekNeeded(h, now)];
    Extend(events, VekNeeded(h, now));
    Extend(one, SessionDrops(h));
    Extend(one + [SessionDrops(h)], WriteSettles(true));
  }

  lemma OtherReads(s: State, c: Binding)
    requires Readable(s, 4) && NoWriteWaits(s) && !Withholds(s.worker.memory, c)
    ensures var (s1, r1) := Step(s, ReleaseBegins(0, c, 4));
            var (s2, r2) := Step(s1, ReleaseProbes(0, MustChallenge));
            var (s3, r3) := Step(s2, WriteReads(true));
            && r1 == Waiting && r2 == Recorded(Challenging(c)) && r3 == CopyTaken(true)
            && s3.worker.writes == [Challenging(c)] && s3.worker.held.Some? && s3.worker.storage == s.worker.storage
  {
  }

  lemma ApprovedThenOtherReads(b: Binding, c: Binding) returns (events: seq<Event>)
    requires b.credentialId != "" && b.origin != "" && b != c
    ensures Account(events).held == Ledger({b}, {b}) && After(events).worker.writes == [Challenging(c)]
    ensures After(events).worker.held.Some? && SinceOne(After(events))
  {
    var approved := ApprovedRun(b);
    SinceOneIsReadable(After(approved), 4);
    Looks(approved, c);
    OtherReads(After(approved), c);
    Extend(approved, ReleaseBegins(0, c, 4));
    var one := approved + [ReleaseBegins(0, c, 4)];
    Extend(one, ReleaseProbes(0, MustChallenge));
    Extend(one + [ReleaseProbes(0, MustChallenge)], WriteReads(true));
    events := one + [ReleaseProbes(0, MustChallenge)] + [WriteReads(true)];
  }

  /** So a release goes out on an approval that a lapse of its session had cleared. */
  lemma ClearedApprovalComesBack(b: Binding, c: Binding) returns (before: seq<Event>, events: seq<Event>)
    requires b.credentialId != "" && b.origin != "" && b != c
    ensures Replies(events)
         == Replies(before) + [Lapsing, VaultLocked(true), Answered(Challenging(c), true), Unlocked, Unlocked,
                               Evicted, Waiting, Waiting, Checked(false), Recorded(Spending(b))]
    ensures b in Account(before).held.paid
  {
    before := ApprovedThenOtherReads(b, c);
    var now := 4 + 2 * SESSION_WINDOW_MS;
    LapsedAndOpened(before, 1, now);
    var again := Opened(LapseInside(before, 1, now), now);
    EvictedReleases(again, b, now);
    events := Fresh(again + [Eviction], 1, b, now);
  }

  lemma LapsedAndOpened(events: seq<Event>, h: nat, now: int)
    requires var s := After(events);
             !IsUnlocked(s.worker.storage, now) && s.worker.writes != [] && s.worker.held.Some? && now != 0
    ensures var all, c := Opened(LapseInside(events, h, now), now), After(events).worker.writes[0];
            && Replies(all) == Replies(events) + [Lapsing, VaultLocked(true), Answered(c, true), Unlocked, Unlocked]
            && Account(all).record == Post(Account(events).held, c) && Readable(After(all), now)
  {
    LapseInsideIsUndone(events, h, now);
    Opening(LapseInside(events, h, now), now);
  }

  // ---- A verdict out of date ----

  /** The steps after two releases of a binding were begun: the first is granted and finds nothing owed,
      the second is refused, and then the first goes on. */
  function Overtaken(): seq<Event> {
    [ReleaseProbes(1, Granted), ReleaseReads(1, true), ReleaseProbes(2, MustChallenge), WriteReads(true),
     WriteSettles(true), ReleaseEnds(1), WriteReads(true), WriteSettles(true)]
  }

  lemma TwoReleasesBegun(b: Binding) returns (events: seq<Event>)
    ensures |events| == 4 && forall r :: r in Replies(events) ==> !Approval(r)
    ensures var s := After(events);
            && 1 in s.handlers && 2 in s.handlers && s.handlers[1] == Asking(b) && s.handlers[2] == Asking(b)
            && s.worker.memory == EMPTY_GATE && s.worker.storage.record == None && NoWriteWaits(s)
  {
    var unlocked := UnlockedRun();
    SinceOneIsReadable(After(unlocked), 2);
    assert !Withholds(EMPTY_GATE, b);
    Extend(unlocked, ReleaseBegins(1, b, 2));
    var one := unlocked + [ReleaseBegins(1, b, 2)];
    Extend(one, ReleaseBegins(2, b, 2));
    events := one + [ReleaseBegins(2, b, 2)];
  }

  lemma OvertakenSteps(s: State, b: Binding)
    requires 1 in s.handlers && 2 in s.handlers && s.handlers[1] == Asking(b) && s.handlers[2] == Asking(b)
    requires s.worker.memory == EMPTY_GATE && s.worker.storage.record == None && NoWriteWaits(s)
    ensures var (s1, r1) := Step(s, Overtaken()[0]);
            var (s2, r2) := Step(s1, Overtaken()[1]);
            var (s3, r3) := Step(s2, Overtaken()[2]);
            && r1 == Waiting && r2 == Checked(false) && r3 == Recorded(Challenging(b))
            && s3.handlers == s.handlers[1 := Decided(b, false)] - {2}
            && s3.worker.writes == [Challenging(b)] && s3.worker.held == None
  {
  }

  lemma OvertakenEnd(s: State, b: Binding)
    requires 1 in s.handlers && s.handlers[1] == Decided(b, false)
    requires s.worker.writes == [Challenging(b)] && s.worker.held == None
    ensures var (s1, r1) := Step(s, Overtaken()[3]);
            var (s2, r2) := Step(s1, Overtaken()[4]);
            var (s3, r3) := Step(s2, Overtaken()[5]);
            var (s4, r4) := Step(s3, Overtaken()[6]);
            && r1 == CopyTaken(true) && r2 == Answered(Challenging(b), true) && r3 == Recorded(Spending(b))
            && r4 == CopyTaken(true) && Step(s4, Overtaken()[7]).1 == Answered(Spending(b), true)
  {
  }

  lemma OvertakenRecords(b: Binding) returns (events: seq<Event>)
    ensures |events| == 7 && forall r :: r in Replies(events) ==> !Approval(r)
    ensures var s := After(events);
            && 1 in s.handlers && s.handlers[1] == Decided(b, false)
            && s.worker.writes == [Challenging(b)] && s.worker.held == None
  {
    var es := Overtaken();
    var begun := TwoReleasesBegun(b);
    OvertakenSteps(After(begun), b);
    Extend(begun, es[0]);
    Extend(begun + [es[0]], es[1]);
    Extend(begun + [es[0]] + [es[1]], es[2]);
    events := begun + [es[0]] + [es[1]] + [es[2]];
  }

  /** A release can go out over a refusal that was answered before it: the refusal came after its check.
      The refusal's debt is wiped with it, and nothing was ever approved. */
  lemma RefusalOvertaken(b: Binding) returns (events: seq<Event>)
    ensures |events| == 12
    ensures Replies(events)[8] == Answered(Challenging(b), true) && Replies(events)[11] == Answered(Spending(b), true)
    ensures forall r :: r in Replies(events) ==> !Approval(r)
    ensures b !in Account(events).record.owed
  {
    var es := Overtaken();
    var recorded := OvertakenRecords(b);
    OvertakenEnd(After(recorded), b);
    Extend(recorded, es[3]);
    var one := recorded + [es[3]];
    Extend(one, es[4]);
    Extend(one + [es[4]], es[5]);
    var two := one + [es[4]] + [es[5]];
    Extend(two, es[6]);
    Extend(two + [es[6]], es[7]);
    events := two + [es[6]] + [es[7]];
  }

  // ---- One approval, more than one release ----

  /** Two releases that are both checked before either spends go out on one approval. */
  lemma TwoReleasesOnOneApproval(events: seq<Event>, h: nat, g: nat, b: Binding)
    requires h != g && h in After(events).handlers && After(events).handlers[h] == Asking(b)
    requires g in After(events).handlers && After(events).handlers[g] == Asking(b)
    requires b in Account(events).memory.owed && b in Account(events).memory.paid
    ensures var more := events + [ReleaseProbes(h, Granted)] + [ReleaseProbes(g, Granted)] + [ReleaseEnds(h)]
                        + [ReleaseEnds(g)];
            Replies(more)[|events|..] == [Checked(false), Checked(false), Recorded(Spending(b)), Recorded(Spending(b))]
  {
    Looks(events, b);
    TwoEndings(After(events), h, g, b);
    TwoSteps(events, ReleaseProbes(h, Granted), ReleaseProbes(g, Granted));
    TwoSteps(events + [ReleaseProbes(h, Granted)] + [ReleaseProbes(g, Granted)], ReleaseEnds(h), ReleaseEnds(g));
  }

  lemma TwoEndings(s: State, h: nat, g: nat, b: Binding)
    requires h != g && h in s.handlers && s.handlers[h] == Asking(b) && g in s.handlers && s.handlers[g] == Asking(b)
    requires Key(b) in s.worker.memory.challenged && !Withholds(s.worker.memory, b)
    ensures var (s1, r1) := Step(s, ReleaseProbes(h, Granted));
            var (s2, r2) := Step(s1, ReleaseProbes(g, Granted));
            var (s3, r3) := Step(s2, ReleaseEnds(h));
            && r1 == Checked(false) && r2 == Checked(false) && r3 == Recorded(Spending(b))
            && Step(s3, ReleaseEnds(g)).1 == Recorded(Spending(b))
  {
  }

  /** A release of a binding that memory knows, whose spending is not written. */
  function SpentUnwritten(events: seq<Event>, h: nat, b: Binding, now: int): seq<Event> {
    events + [ReleaseBegins(h, b, now)] + [ReleaseProbes(h, Granted)] + [ReleaseEnds(h)] + [WriteReads(true)]
    + [WriteSettles(false)]
  }

  lemma SpentSteps(s: State, h: nat, b: Binding, now: int)
    requires Readable(s, now) && NoWriteWaits(s)
    requires Key(b) in s.worker.memory.challenged && !Withholds(s.worker.memory, b)
    ensures var (s1, r1) := Step(s, ReleaseBegins(h, b, now));
            var (s2, r2) := Step(s1, ReleaseProbes(h, Granted));
            var (s3, r3) := Step(s2, ReleaseEnds(h));
            && r1 == Waiting && r2 == Checked(false) && r3 == Recorded(Spending(b))
            && s3.worker.writes == [Spending(b)] && s3.worker.held == None && s3.worker.storage == s.worker.storage
  {
  }

  lemma SpentUnwrittenRun(events: seq<Event>, h: nat, b: Binding, now: int)
    requires Readable(After(events), now) && NoWriteWaits(After(events))
    requires b in Account(events).memory.owed && b in Account(events).memory.paid
    ensures var all := SpentUnwritten(events, h, b, now);
            && Replies(all) == Replies(events) + [Waiting, Checked(false), Recorded(Spending(b)), CopyTaken(true),
                                                  Answered(Spending(b), false)]
            && Account(all).memory == Post(Account(events).memory, Spending(b))
            && Account(all).record == Account(events).record && Readable(After(all), now)
  {
    Looks(events, b);
    SpentSteps(After(events), h, b, now);
    var one := events + [ReleaseBegins(h, b, now)];
    Extend(events, ReleaseBegins(h, b, now));
    TwoSteps(one, ReleaseProbes(h, Granted), ReleaseEnds(h));
    var spent := one + [ReleaseProbes(h, Granted)] + [ReleaseEnds(h)];
    WriteSteps(After(spent), Spending(b), true, false);
    TwoSteps(spent, WriteReads(true), WriteSettles(false));
  }

  /** And releases one after another do, as long as the spending is not written: memory has forgotten the
      binding, and the record still holds both halves. */
  lemma UnwrittenSpendingIsReused(b: Binding) returns (before: seq<Event>, events: seq<Event>)
    requires b.credentialId != "" && b.origin != ""
    ensures Account(before).record == Ledger({b}, {b})
    ensures Replies(events)
         == Replies(before) + [Waiting, Checked(false), Recorded(Spending(b)), CopyTaken(true),
                               Answered(Spending(b), false),
                               Waiting, Waiting, Checked(false), Recorded(Spending(b))]
  {
    before := ApprovedRun(b);
    SinceOneIsReadable(After(before), 4);
    SpentUnwrittenRun(before, 0, b, 4);
    var spent := SpentUnwritten(before, 0, b, 4);
    FreshReleases(spent, 1, b, 4);
    events := Fresh(spent, 1, b, 4);
  }
}
