/** Runs of the step-up gate: any interleaving of the steps of any number of releases, approvals,
  challenges, locks and lapses, with worker evictions anywhere, with any answers from Plus and Core, and
  with reads and writes of session storage that may fail. */
module StepUpGate {
  import opened Outcomes
  import opened BindingKey
  import opened StepUpWorker

  /** What a waiting handler carries: a release asks Plus and Core, reads the persisted gate, or has its
      verdict; a handler that met a lapsed session is dropping it; a lock is about to look; a list is being
      made with the gate that was read for it; an approval asks Core and Plus. */
  datatype Stage =
    | Asking(binding: Binding)
    | Reading(binding: Binding)
    | Decided(binding: Binding, owes: bool)
    | Dropping
    | Verifying
    | Listing(gate: Gate)
    | Approving(challengeId: string, ceremony: Ceremony)

  /** Each waiting handler is known by a number. */
  datatype State = State(worker: Worker, handlers: map<nat, Stage>)

  const INITIAL := State(Worker(EMPTY_GATE, map[], [], None, EMPTY_STORAGE), map[])

  datatype Event =
    | ReleaseBegins(handler: nat, binding: Binding, now: int)
    | ReleaseProbes(handler: nat, outcome: Outcome)
    | ReleaseReads(handler: nat, readable: bool)
    | ReleaseEnds(handler: nat)
    | WriteReads(readable: bool)
    | WriteSettles(succeeds: bool)
    | VekNeeded(handler: nat, now: int)
    | SessionDrops(handler: nat)
    | ChallengeStarts(binding: Binding, managed: bool, authenticated: bool, triggered: Option<(string, int)>)
    | ApprovalBegins(handler: nat, challengeId: string, proof: bool, authenticated: bool, now: int)
    | ApprovalEnds(handler: nat, accepted: bool)
    | PendingBegins(handler: nat, readable: bool)
    | PendingEnds(handler: nat)
    | LockBegins(handler: nat, keys: bool, gate: bool)
    | LockEnds(handler: nat)
    | KeyUnlocked(unlockTime: int)
    | VekUnlocked(now: int)
    | Eviction

  function With(s: State, w: Worker, h: nat, next: Option<Stage>): State {
    State(w, if next.Some? then s.handlers[h := next.value] else s.handlers - {h})
  }

  function ProbeStep(s: State, h: nat, b: Binding, outcome: Outcome): (State, Reply) {
    var (w, r) := ProbeRelease(s.worker, b, outcome);
    var next := match r
                case Checked(owes) => Some(Decided(b, owes))
                case Waiting => Some(Reading(b))
                case _ => None;
    (With(s, w, h, next), r)
  }

  function LapseStep(s: State, h: nat, w: Worker, r: Reply, otherwise: Option<Stage>): (State, Reply) {
    var next := if r.Lapsing? then Some(Dropping) else if r.Waiting? then otherwise else None;
    (With(s, w, h, next), r)
  }

  /** An event that is not due, for a handler that is not there or not that far, changes nothing. */
  function Step(s: State, e: Event): (State, Reply) {
    match e
    case ReleaseBegins(h, b, now) =>
      var (w, r) := BeginRelease(s.worker, true, b, now);
      LapseStep(s, h, w, r, Some(Asking(b)))
    case ReleaseProbes(h, outcome) =>
      if h in s.handlers && s.handlers[h].Asking? then ProbeStep(s, h, s.handlers[h].binding, outcome) else (s, Idle)
    case ReleaseReads(h, readable) =>
      if h in s.handlers && s.handlers[h].Reading? then
        var b := s.handlers[h].binding;
        var owes := RecordOwes(s.worker, b, readable);
        (With(s, s.worker, h, Some(Decided(b, owes))), Checked(owes))
      else (s, Idle)
    case ReleaseEnds(h) =>
      if h in s.handlers && s.handlers[h].Decided? then
        var (w, r) := EndRelease(s.worker, s.handlers[h].binding, s.handlers[h].owes);
        (With(s, w, h, None), r)
      else (s, Idle)
    case WriteReads(readable) =>
      var (w, r) := ReadForWrite(s.worker, readable);
      (s.(worker := w), r)
    case WriteSettles(succeeds) =>
      var (w, r) := SettleWrite(s.worker, succeeds);
      (s.(worker := w), r)
    case VekNeeded(h, now) =>
      var (w, r) := ReadVek(s.worker, now);
      LapseStep(s, h, w, r, None)
    case SessionDrops(h) =>
      if h in s.handlers && s.handlers[h].Dropping? then
        var (w, r) := DropSession(s.worker);
        (With(s, w, h, None), r)
      else (s, Idle)
    case ChallengeStarts(b, managed, authenticated, triggered) =>
      var (w, r) := StartStepUp(s.worker, b, managed, authenticated, triggered);
      (s.(worker := w), r)
    case ApprovalBegins(h, id, proof, authenticated, now) =>
      var (w, r) := BeginApprove(s.worker, id, proof, authenticated, now);
      (With(s, w, h, if r.Waiting? then Some(Approving(id, s.worker.ceremonies[id])) else None), r)
    case ApprovalEnds(h, accepted) =>
      if h in s.handlers && s.handlers[h].Approving? then
        var (w, r) := FinishApprove(s.worker, s.handlers[h].challengeId, s.handlers[h].ceremony, accepted);
        (With(s, w, h, None), r)
      else (s, Idle)
    case PendingBegins(h, readable) =>
      (With(s, s.worker, h, Some(Listing(if readable then Stored(s.worker.storage) else EMPTY_GATE))), Waiting)
    case PendingEnds(h) =>
      if h in s.handlers && s.handlers[h].Listing? then
        (With(s, s.worker, h, None), Pending(PendingOf(s.handlers[h].gate, s.worker)))
      else (s, Idle)
    case LockBegins(h, keys, gate) =>
      var (w, r) := RemoveForLock(s.worker, keys, gate);
      (With(s, w, h, Some(Verifying)), r)
    case LockEnds(h) =>
      if h in s.handlers && s.handlers[h].Verifying? then
        var (w, r) := VerifyLock(s.worker);
        (With(s, w, h, None), r)
      else (s, Idle)
    case KeyUnlocked(unlockTime) => (s.(worker := UnlockKey(s.worker, unlockTime)), Unlocked)
    case VekUnlocked(now) =>
      var (w, r) := UnlockVek(s.worker, now);
      (s.(worker := w), r)
    case Eviction => (State(Evict(s.worker), map[]), Evicted)
  }

  /** Handler `h` begins anew, or ends with its worker. */
  predicate Restarts(e: Event, h: nat) {
    || e.Eviction?
    || ((e.ReleaseBegins? || e.VekNeeded? || e.ApprovalBegins? || e.PendingBegins? || e.LockBegins?) && e.handler == h)
  }

  /** From event `m` up to event `n` it is the same handler. */
  predicate Lasts(events: seq<Event>, h: nat, m: nat, n: nat) {
    n <= |events| && forall i :: m < i < n ==> !Restarts(events[i], h)
  }

  function Run(events: seq<Event>): (r: (State, seq<Reply>))
    ensures |r.1| == |events|
  {
    if events == [] then (INITIAL, [])
    else
      var n := |events| - 1;
      var (s, replies) := Run(events[..n]);
      var (s', reply) := Step(s, events[n]);
      (s', replies + [reply])
  }

  function After(events: seq<Event>): State {
    Run(events).0
  }

  function Replies(events: seq<Event>): (r: seq<Reply>)
    ensures |r| == |events|
  {
    Run(events).1
  }

  // ---- What the replies say is owed and paid ----

  /** The bindings refused, and those approved, since they were last released or the gate was emptied. */
  datatype Ledger = Ledger(owed: set<Binding>, paid: set<Binding>)

  const NOTHING := Ledger({}, {})

  function Post(l: Ledger, c: Change): Ledger {
    match c
    case Challenging(b) => l.(owed := l.owed + {b})
    case Completing(s) => l.(paid := l.paid + {s.binding})
    case Spending(b) => Ledger(l.owed - {b}, l.paid - {b})
  }

  /** One ledger for what the running worker's memory holds, one for the copy that the first change in line
      has read, and one for the record in session storage. */
  datatype Books = Books(memory: Ledger, held: Ledger, record: Ledger)

  const NO_BOOKS := Books(NOTHING, NOTHING, NOTHING)

  /** What a reply says of them. Memory changes when a handler records; the record when a write succeeds, and
      then it becomes the copy that was read for it, with the change. */
  function Enter(k: Books, r: Reply): Books {
    match r
    case Recorded(c) => k.(memory := Post(k.memory, c))
    case Lapsing => k.(memory := NOTHING)
    case Locked => k.(memory := NOTHING)
    case Evicted => k.(memory := NOTHING)
    case CopyTaken(readable) => k.(held := if readable then k.record else NOTHING)
    case Answered(c, written) => if written then k.(record := Post(k.held, c)) else k
    case VaultLocked(dropped) => if dropped then k.(record := NOTHING) else k
    case Removed(gate) => if gate then k.(record := NOTHING) else k
    case _ => k
  }

  function BooksOf(replies: seq<Reply>): Books {
    if replies == [] then NO_BOOKS else Enter(BooksOf(replies[..|replies| - 1]), replies[|replies| - 1])
  }

  /** What the replies of a run say. */
  function Account(events: seq<Event>): Books {
    BooksOf(Replies(events))
  }

  lemma LastStep(events: seq<Event>)
    requires events != []
    ensures var prefix, e := events[..|events| - 1], events[|events| - 1];
            var (s, r) := Step(After(prefix), e);
            && After(events) == s
            && Replies(events) == Replies(prefix) + [r]
            && Account(events) == Enter(Account(prefix), r)
  {
    var prefix := events[..|events| - 1];
    var replies := Replies(events);
    assert replies[..|replies| - 1] == Replies(prefix);
  }

  // ---- A gate as a ledger ----

  /** Every entry stands under its own binding's key, and a completed one is completed. */
  predicate Filed(g: Gate) {
    && (forall k :: k in g.challenged ==> Key(g.challenged[k]) == k)
    && (forall k :: k in g.completed ==> Key(g.completed[k].binding) == k && g.completed[k].completed)
  }

  function View(g: Gate): Ledger {
    Ledger(set k | k in g.challenged :: g.challenged[k], set k | k in g.completed :: g.completed[k].binding)
  }

  lemma ViewOfKey(g: Gate, b: Binding)
    requires Filed(g)
    ensures Key(b) in g.challenged <==> b in View(g).owed
    ensures Key(b) in g.completed <==> b in View(g).paid
    ensures Key(b) in g.completed ==> g.completed[Key(b)].binding == b
  {
    if Key(b) in g.challenged {
      KeyIsInjective(g.challenged[Key(b)], b);
    }
    if Key(b) in g.completed {
      KeyIsInjective(g.completed[Key(b)].binding, b);
    }
  }

  lemma ViewWithholds(g: Gate, b: Binding)
    requires Filed(g)
    ensures Withholds(g, b) <==> b in View(g).owed && b !in View(g).paid
  {
    ViewOfKey(g, b);
  }

  /** In any gate, filed or not, a completion under a binding's key pays for exactly the binding it names. */
  lemma WithholdsIff(g: Gate, b: Binding, s: Session)
    requires Key(b) in g.challenged
    ensures Withholds(g.(completed := g.completed - {Key(b)}), b)
    ensures Withholds(g.(completed := g.completed[Key(b) := s]), b) <==> s.binding != b || !s.completed
  {
  }

  lemma ViewChallengeAt(g: Gate, b: Binding, c: Binding)
    requires Filed(g) && Filed(Challenge(g, b))
    ensures c in View(Challenge(g, b)).owed <==> c in View(g).owed || c == b
  {
    ViewOfKey(g, c);
    ViewOfKey(Challenge(g, b), c);
    if Key(c) == Key(b) {
      KeyIsInjective(c, b);
    }
  }

  lemma ViewChallenge(g: Gate, b: Binding)
    requires Filed(g)
    ensures Filed(Challenge(g, b))
    ensures View(Challenge(g, b)) == View(g).(owed := View(g).owed + {b})
  {
    forall c
      ensures c in View(Challenge(g, b)).owed <==> c in View(g).owed || c == b
    {
      ViewChallengeAt(g, b, c);
    }
  }

  lemma ViewCompleteAt(g: Gate, s: Session, c: Binding)
    requires Filed(g) && Filed(Complete(g, s))
    ensures c in View(Complete(g, s)).paid <==> c in View(g).paid || c == s.binding
  {
    ViewOfKey(g, c);
    ViewOfKey(Complete(g, s), c);
    if Key(c) == Key(s.binding) {
      KeyIsInjective(c, s.binding);
    }
  }

  lemma ViewComplete(g: Gate, s: Session)
    requires Filed(g) && s.completed
    ensures Filed(Complete(g, s))
    ensures View(Complete(g, s)) == View(g).(paid := View(g).paid + {s.binding})
  {
    forall c
      ensures c in View(Complete(g, s)).paid <==> c in View(g).paid || c == s.binding
    {
      ViewCompleteAt(g, s, c);
    }
  }

  lemma SpendStaysFiled(g: Gate, b: Binding)
    requires Filed(g)
    ensures Filed(Spend(g, b))
  {
  }

  lemma ViewSpendAt(g: Gate, b: Binding, c: Binding)
    requires Filed(g) && Filed(Spend(g, b))
    ensures c in View(Spend(g, b)).owed <==> c in View(g).owed && c != b
    ensures c in View(Spend(g, b)).paid <==> c in View(g).paid && c != b
  {
    ViewOfKey(g, c);
    ViewOfKey(Spend(g, b), c);
    if Key(c) == Key(b) {
      KeyIsInjective(c, b);
    }
  }

  lemma ViewSpend(g: Gate, b: Binding)
    requires Filed(g)
    ensures Filed(Spend(g, b))
    ensures View(Spend(g, b)) == Ledger(View(g).owed - {b}, View(g).paid - {b})
  {
    SpendStaysFiled(g, b);
    var v := View(Spend(g, b));
    forall c
      ensures (c in v.owed <==> c in View(g).owed && c != b) && (c in v.paid <==> c in View(g).paid && c != b)
    {
      ViewSpendAt(g, b, c);
    }
    assert v.owed == View(g).owed - {b};
    assert v.paid == View(g).paid - {b};
  }

  predicate Sealed(c: Change) {
    c.Completing? ==> c.session.completed
  }

  lemma ViewApply(g: Gate, c: Change)
    requires Filed(g) && Sealed(c)
    ensures Filed(Apply(c, g)) && View(Apply(c, g)) == Post(View(g), c)
  {
    match c
    case Challenging(b) => ViewChallenge(g, b);
    case Completing(s) => ViewComplete(g, s);
    case Spending(b) => ViewSpend(g, b);
  }

  // ---- Every step does what its reply says ----

  predicate Sound(w: Worker) {
    && Filed(w.memory) && Filed(Stored(w.storage)) && (w.held.Some? ==> Filed(w.held.value))
    && forall i :: 0 <= i < |w.writes| ==> Sealed(w.writes[i])
  }

  /** The books are right. */
  predicate Keeps(w: Worker, k: Books) {
    && Sound(w)
    && View(w.memory) == k.memory && View(Stored(w.storage)) == k.record
    && (w.held.Some? ==> View(w.held.value) == k.held)
  }

  lemma EmptyGate()
    ensures Filed(EMPTY_GATE) && View(EMPTY_GATE) == NOTHING
  {
  }

  /** What a check finds, in terms of what is owed and paid. */
  lemma SoundChecks(w: Worker, b: Binding)
    requires Sound(w)
    ensures Key(b) in w.memory.challenged <==> b in View(w.memory).owed
    ensures Withholds(w.memory, b) <==> b in View(w.memory).owed && b !in View(w.memory).paid
    ensures var l := View(Stored(w.storage));
            Withholds(Stored(w.storage), b) <==> b in l.owed && b !in l.paid
  {
    ViewWithholds(w.memory, b);
    ViewWithholds(Stored(w.storage), b);
    ViewOfKey(w.memory, b);
  }

  lemma RecordKeeps(w: Worker, k: Books, c: Change)
    requires Keeps(w, k) && Sealed(c)
    ensures Keeps(Record(w, c), Enter(k, Recorded(c)))
  {
    ViewApply(w.memory, c);
  }

  lemma ReadForWriteKeeps(w: Worker, k: Books, readable: bool)
    requires Keeps(w, k)
    ensures var (w', r) := ReadForWrite(w, readable); Keeps(w', Enter(k, r))
  {
    EmptyGate();
  }

  lemma SettleKeeps(w: Worker, k: Books, succeeds: bool)
    requires Keeps(w, k)
    ensures var (w', r) := SettleWrite(w, succeeds); Keeps(w', Enter(k, r))
  {
    if w.writes != [] && w.held.Some? {
      ViewApply(w.held.value, w.writes[0]);
    }
  }

  lemma MemoryEmptied(w: Worker, k: Books, w': Worker)
    requires Keeps(w, k) && w'.memory == EMPTY_GATE && Stored(w'.storage) == Stored(w.storage)
    requires (w'.held == w.held && w'.writes == w.writes) || (w'.held == None && w'.writes == [])
    ensures Keeps(w', k.(memory := NOTHING))
  {
    EmptyGate();
  }

  lemma RecordEmptied(w: Worker, k: Books, w': Worker)
    requires Keeps(w, k) && w'.memory == w.memory && Stored(w'.storage) == EMPTY_GATE
    requires w'.held == w.held && w'.writes == w.writes
    ensures Keeps(w', k.(record := NOTHING))
  {
    EmptyGate();
  }

  lemma SameGates(w: Worker, k: Books, w': Worker)
    requires Keeps(w, k) && w'.memory == w.memory && Stored(w'.storage) == Stored(w.storage)
    requires w'.held == w.held && w'.writes == w.writes
    ensures Keeps(w', k)
  {
  }

  lemma VekKeeps(w: Worker, k: Books, now: int)
    requires Keeps(w, k)
    ensures var (w', r) := ReadVek(w, now); Keeps(w', Enter(k, r))
  {
    var (w', r) := ReadVek(w, now);
    if r.Lapsing? {
      assert Enter(k, r) == k.(memory := NOTHING);
      MemoryEmptied(w, k, w');
    } else {
      assert w' == w && Enter(k, r) == k;
    }
  }

  lemma BeginReleaseKeeps(w: Worker, k: Books, b: Binding, now: int)
    requires Keeps(w, k)
    ensures var (w', r) := BeginRelease(w, true, b, now); Keeps(w', Enter(k, r))
  {
    if Withholds(w.memory, b) {
      assert Enter(k, ChallengeRequired(b)) == k;
    } else {
      VekKeeps(w, k, now);
      assert Enter(k, BeginRelease(w, true, b, now).1) == Enter(k, ReadVek(w, now).1);
    }
  }

  lemma ProbeKeeps(w: Worker, k: Books, b: Binding, outcome: Outcome)
    requires Keeps(w, k)
    ensures var (w', r) := ProbeRelease(w, b, outcome); Keeps(w', Enter(k, r))
  {
    if outcome.MustChallenge? {
      RecordKeeps(w, k, Challenging(b));
    }
  }

  lemma FinishApproveKeeps(w: Worker, k: Books, id: string, entry: Ceremony, accepted: bool)
    requires Keeps(w, k)
    ensures var (w', r) := FinishApprove(w, id, entry, accepted); Keeps(w', Enter(k, r))
  {
    if accepted {
      var cleared := w.(ceremonies := w.ceremonies - {id});
      SameGates(w, k, cleared);
      RecordKeeps(cleared, k, CompletionOf(id, entry));
    }
  }

  /** The steps of a release. */
  lemma ReleaseStepKeeps(s: State, k: Books, e: Event)
    requires Keeps(s.worker, k) && (e.ReleaseBegins? || e.ReleaseProbes? || e.ReleaseReads? || e.ReleaseEnds?)
    ensures var (s', r) := Step(s, e); Keeps(s'.worker, Enter(k, r))
  {
    var r := Step(s, e).1;
    match e
    case ReleaseBegins(_, b, now) => BeginReleaseKeeps(s.worker, k, b, now);
    case ReleaseProbes(h, outcome) =>
      if !r.Idle? {
        ProbeKeeps(s.worker, k, s.handlers[h].binding, outcome);
      }
    case ReleaseReads(_, _) =>
    case ReleaseEnds(h) =>
      if !r.Idle? {
        var stage := s.handlers[h];
        RecordKeeps(s.worker, k, if stage.owes then Challenging(stage.binding) else Spending(stage.binding));
      }
  }

  lemma DropKeeps(w: Worker, k: Books)
    requires Keeps(w, k)
    ensures var (w', r) := DropSession(w); Keeps(w', Enter(k, r))
  {
    RecordEmptied(w, k, DropSession(w).0);
  }

  lemma RemoveKeeps(w: Worker, k: Books, keys: bool, gate: bool)
    requires Keeps(w, k)
    ensures var (w', r) := RemoveForLock(w, keys, gate); Keeps(w', Enter(k, r))
  {
    var (w', r) := RemoveForLock(w, keys, gate);
    if gate {
      assert Enter(k, r) == k.(record := NOTHING);
      RecordEmptied(w, k, w');
    } else {
      assert Enter(k, r) == k;
      SameGates(w, k, w');
    }
  }

  lemma VerifyKeeps(w: Worker, k: Books)
    requires Keeps(w, k)
    ensures var (w', r) := VerifyLock(w); Keeps(w', Enter(k, r))
  {
    var (w', r) := VerifyLock(w);
    if r.Locked? {
      assert Enter(k, r) == k.(memory := NOTHING);
      MemoryEmptied(w, k, w');
    } else {
      assert w' == w && Enter(k, r) == k;
    }
  }

  lemma EvictKeeps(w: Worker, k: Books)
    requires Keeps(w, k)
    ensures Keeps(Evict(w), Enter(k, Evicted))
  {
    MemoryEmptied(w, k, Evict(w));
  }

  lemma VekNeededKeeps(s: State, k: Books, h: nat, now: int)
    requires Keeps(s.worker, k)
    ensures var (s', r) := Step(s, VekNeeded(h, now)); Keeps(s'.worker, Enter(k, r))
  {
    VekKeeps(s.worker, k, now);
    var (w, r) := ReadVek(s.worker, now);
    assert Step(s, VekNeeded(h, now)).0.worker == w && Step(s, VekNeeded(h, now)).1 == r;
  }

  lemma SessionDropsKeeps(s: State, k: Books, h: nat)
    requires Keeps(s.worker, k)
    ensures var (s', r) := Step(s, SessionDrops(h)); Keeps(s'.worker, Enter(k, r))
  {
    DropKeeps(s.worker, k);
    var (s', r) := Step(s, SessionDrops(h));
    assert (s'.worker, r) in {DropSession(s.worker), (s.worker, Idle)};
    assert Enter(k, Idle) == k;
  }

  lemma LockBeginsKeeps(s: State, k: Books, h: nat, keys: bool, gate: bool)
    requires Keeps(s.worker, k)
    ensures var (s', r) := Step(s, LockBegins(h, keys, gate)); Keeps(s'.worker, Enter(k, r))
  {
    RemoveKeeps(s.worker, k, keys, gate);
    var (w, r) := RemoveForLock(s.worker, keys, gate);
    assert Step(s, LockBegins(h, keys, gate)).0.worker == w && Step(s, LockBegins(h, keys, gate)).1 == r;
  }

  lemma LockEndsKeeps(s: State, k: Books, h: nat)
    requires Keeps(s.worker, k)
    ensures var (s', r) := Step(s, LockEnds(h)); Keeps(s'.worker, Enter(k, r))
  {
    VerifyKeeps(s.worker, k);
    var (s', r) := Step(s, LockEnds(h));
    assert (s'.worker, r) in {VerifyLock(s.worker), (s.worker, Idle)};
    assert Enter(k, Idle) == k;
  }

  lemma EvictionKeeps(s: State, k: Books)
    requires Keeps(s.worker, k)
    ensures var (s', r) := Step(s, Eviction); Keeps(s'.worker, Enter(k, r))
  {
    EvictKeeps(s.worker, k);
  }

  /** The steps that empty a copy of the gate, or may. */
  lemma SessionStepKeeps(s: State, k: Books, e: Event)
    requires Keeps(s.worker, k) && (e.VekNeeded? || e.SessionDrops? || e.LockBegins? || e.LockEnds? || e.Eviction?)
    ensures var (s', r) := Step(s, e); Keeps(s'.worker, Enter(k, r))
  {
    match e
    case VekNeeded(h, now) => VekNeededKeeps(s, k, h, now);
    case SessionDrops(h) => SessionDropsKeeps(s, k, h);
    case LockBegins(h, keys, gate) => LockBeginsKeeps(s, k, h, keys, gate);
    case LockEnds(h) => LockEndsKeeps(s, k, h);
    case Eviction => EvictionKeeps(s, k);
  }

  /** The steps that leave all copies of the gate alone. */
  lemma OtherStep(s: State, e: Event)
    requires e.ChallengeStarts? || e.ApprovalBegins? || e.PendingBegins? || e.PendingEnds? || e.KeyUnlocked?
             || e.VekUnlocked?
    ensures var (s', r) := Step(s, e);
            && s'.worker.memory == s.worker.memory && s'.worker.held == s.worker.held
            && s'.worker.writes == s.worker.writes && s'.worker.storage.record == s.worker.storage.record
            && forall k :: Enter(k, r) == k
  {
  }

  lemma OtherStepKeeps(s: State, k: Books, e: Event)
    requires Keeps(s.worker, k)
    requires e.ChallengeStarts? || e.ApprovalBegins? || e.PendingBegins? || e.PendingEnds? || e.KeyUnlocked?
             || e.VekUnlocked?
    ensures var (s', r) := Step(s, e); Keeps(s'.worker, Enter(k, r))
  {
    OtherStep(s, e);
    SameGates(s.worker, k, Step(s, e).0.worker);
  }

  /** One step changes the copies of the gate exactly as its reply says. */
  lemma StepKeeps(s: State, k: Books, e: Event)
    requires Keeps(s.worker, k)
    ensures var (s', r) := Step(s, e); Keeps(s'.worker, Enter(k, r))
  {
    if e.ReleaseBegins? || e.ReleaseProbes? || e.ReleaseReads? || e.ReleaseEnds? {
      ReleaseStepKeeps(s, k, e);
    } else if e.VekNeeded? || e.SessionDrops? || e.LockBegins? || e.LockEnds? || e.Eviction? {
      SessionStepKeeps(s, k, e);
    } else if e.ApprovalEnds? {
      if e.handler in s.handlers && s.handlers[e.handler].Approving? {
        var stage := s.handlers[e.handler];
        FinishApproveKeeps(s.worker, k, stage.challengeId, stage.ceremony, e.accepted);
      }
    } else if e.WriteReads? {
      ReadForWriteKeeps(s.worker, k, e.readable);
    } else if e.WriteSettles? {
      SettleKeeps(s.worker, k, e.succeeds);
    } else {
      OtherStepKeeps(s, k, e);
    }
  }

  /** In every run, whatever reads and writes fail and whatever comes between them, memory, the copy being
      written and the record are exactly what the replies say is owed and paid. */
  lemma {:induction false} GateRecordsHistory(events: seq<Event>)
    ensures Keeps(After(events).worker, Account(events))
  {
    if events == [] {
      EmptyGate();
    } else {
      var n := |events| - 1;
      GateRecordsHistory(events[..n]);
      LastStep(events);
      StepKeeps(After(events[..n]), Account(events[..n]), events[n]);
    }
  }

  /** What a check looks at in a run, in terms of what is owed and paid. */
  lemma Looks(events: seq<Event>, b: Binding)
    ensures var w, k := After(events).worker, Account(events);
            && (Key(b) in w.memory.challenged <==> b in k.memory.owed)
            && (Withholds(w.memory, b) <==> b in k.memory.owed && b !in k.memory.paid)
            && (Withholds(Stored(w.storage), b) <==> b in k.record.owed && b !in k.record.paid)
  {
    GateRecordsHistory(events);
    SoundChecks(After(events).worker, b);
  }

  // ---- The line of writes ----

  predicate Removes(r: Reply) {
    (r.VaultLocked? && r.dropped) || (r.Removed? && r.gate)
  }

  predicate SameLine(w: Worker, w': Worker) {
    w'.writes == w.writes && w'.held == w.held && Stored(w'.storage) == Stored(w.storage)
  }

  /** What a step did to the waiting changes, the copy held and the record, by its reply. */
  predicate Moves(w: Worker, r: Reply, w': Worker) {
    match r
    case Recorded(c) => SameLine(Record(w, c), w')
    case CopyTaken(readable) => w.writes != [] && w.held.None? && SameLine(ReadForWrite(w, readable).0, w')
    case Answered(c, written) =>
      w.writes != [] && c == w.writes[0] && w.held.Some? && SameLine(SettleWrite(w, written).0, w')
    case Evicted => SameLine(Evict(w), w')
    case _ =>
      if Removes(r) then w'.writes == w.writes && w'.held == w.held && Stored(w'.storage) == EMPTY_GATE
      else SameLine(w, w')
  }

  lemma ReleaseStepMoves(s: State, e: Event)
    requires e.ReleaseBegins? || e.ReleaseProbes? || e.ReleaseReads? || e.ReleaseEnds? || e.ApprovalEnds?
    ensures var (s', r) := Step(s, e); Moves(s.worker, r, s'.worker)
  {
  }

  lemma SessionStepMoves(s: State, e: Event)
    requires e.VekNeeded? || e.SessionDrops? || e.LockBegins? || e.LockEnds? || e.KeyUnlocked? || e.VekUnlocked?
    ensures var (s', r) := Step(s, e); Moves(s.worker, r, s'.worker)
  {
  }

  lemma StepMoves(s: State, e: Event)
    ensures var (s', r) := Step(s, e); Moves(s.worker, r, s'.worker)
  {
    if e.ReleaseBegins? || e.ReleaseProbes? || e.ReleaseReads? || e.ReleaseEnds? || e.ApprovalEnds? {
      ReleaseStepMoves(s, e);
    } else if e.VekNeeded? || e.SessionDrops? || e.LockBegins? || e.LockEnds? || e.KeyUnlocked? || e.VekUnlocked? {
      SessionStepMoves(s, e);
    }
  }

  // ---- Runs and their prefixes ----

  lemma {:induction false} PrefixRuns(events: seq<Event>, n: nat)
    requires n <= |events|
    ensures Replies(events)[..n] == Replies(events[..n])
    decreases |events|
  {
    if n < |events| {
      var prefix := events[..|events| - 1];
      LastStep(events);
      PrefixRuns(prefix, n);
      assert prefix[..n] == events[..n];
    } else {
      assert events[..n] == events;
    }
  }

  lemma StepAt(events: seq<Event>, n: nat)
    requires n < |events|
    ensures Replies(events)[n] == Step(After(events[..n]), events[n]).1
    ensures After(events[..n + 1]) == Step(After(events[..n]), events[n]).0
  {
    var prefix := events[..n + 1];
    PrefixRuns(events, n + 1);
    LastStep(prefix);
    assert prefix[..n] == events[..n];
    assert Replies(events)[n] == Replies(events)[..n + 1][n];
  }

  lemma Extend(events: seq<Event>, e: Event)
    ensures var (s, r) := Step(After(events), e);
            && After(events + [e]) == s
            && Replies(events + [e]) == Replies(events) + [r]
            && Account(events + [e]) == Enter(Account(events), r)
  {
    assert (events + [e])[..|events|] == events;
    LastStep(events + [e]);
  }

  lemma Evicting(events: seq<Event>)
    ensures var all := events + [Eviction];
            && Replies(all) == Replies(events) + [Evicted]
            && Account(all) == Account(events).(memory := NOTHING)
            && After(all) == State(Evict(After(events).worker), map[])
  {
    EvictionStep(After(events));
    Extend(events, Eviction);
    assert Enter(Account(events), Evicted) == Account(events).(memory := NOTHING);
  }

  lemma EvictionStep(s: State)
    ensures Step(s, Eviction) == (State(Evict(s.worker), map[]), Evicted)
  {
  }
}
