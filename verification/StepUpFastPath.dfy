/** The early refusal in handleReleaseCredential: what it changes, and what it does not. Every call runs to
  its end here before the next begins, its reads and writes succeed, and a release has the outcome the rest
  of it would have. */
module StepUpFastPath {
  import opened Outcomes
  import opened BindingKey
  import opened StepUpWorker
  import opened StepUpGate

  datatype Call =
    | Release(binding: Binding, outcome: Outcome, now: int)
    | VekNeed(now: int)
    | Challenged(binding: Binding, managed: bool, authenticated: bool, triggered: Option<(string, int)>)
    | Approve(challengeId: string, proof: bool, authenticated: bool, accepted: bool, now: int)
    | LockVault
    | UnlockVault(now: int)
    | Evicted

  /** A change with its write. */
  function Made(w: Worker, c: Change): Worker {
    SettleWrite(ReadForWrite(Record(w, c), true).0, true).0
  }

  /** `fast` is whether the early refusal is there. The second result is the binding released, if any. */
  function ReleaseCall(w: Worker, fast: bool, b: Binding, outcome: Outcome, now: int): (Worker, Option<Binding>) {
    var (begun, r) := BeginRelease(w, fast, b, now);
    if r.Lapsing? then (DropSession(begun).0, None)
    else if !r.Waiting? then (begun, None)
    else match outcome
      case Granted =>
        var probe := ProbeRelease(begun, b, outcome).1;
        var owes := if probe.Checked? then probe.owes else RecordOwes(begun, b, true);
        if owes then (Made(begun, Challenging(b)), None) else (Made(begun, Spending(b)), Some(b))
      case MustChallenge => (Made(begun, Challenging(b)), None)
      case Denied => (begun, None)
  }

  function ApproveCall(w: Worker, c: Call): Worker
    requires c.Approve?
  {
    var (begun, r) := BeginApprove(w, c.challengeId, c.proof, c.authenticated, c.now);
    if !r.Waiting? || !c.accepted then begun
    else
      Made(begun.(ceremonies := begun.ceremonies - {c.challengeId}),
           CompletionOf(c.challengeId, w.ceremonies[c.challengeId]))
  }

  function CallStep(w: Worker, fast: bool, c: Call): (Worker, Option<Binding>) {
    match c
    case Release(b, outcome, now) => ReleaseCall(w, fast, b, outcome, now)
    case VekNeed(now) =>
      var (w', r) := ReadVek(w, now);
      (if r.Lapsing? then DropSession(w').0 else w', None)
    case Challenged(b, managed, authenticated, triggered) =>
      (StartStepUp(w, b, managed, authenticated, triggered).0, None)
    case Approve(_, _, _, _, _) => (ApproveCall(w, c), None)
    case LockVault => (VerifyLock(RemoveForLock(w, true, true).0).0, None)
    case UnlockVault(now) => (UnlockVek(UnlockKey(w, now), now).0, None)
    case Evicted => (Evict(w), None)
  }

  /** The last state, and what each call released. */
  function Calls(w: Worker, fast: bool, calls: seq<Call>): (Worker, seq<Option<Binding>>)
    decreases |calls|
  {
    if calls == [] then (w, [])
    else
      var (w', released) := CallStep(w, fast, calls[0]);
      var (last, later) := Calls(w', fast, calls[1..]);
      (last, [released] + later)
  }

  /** Nothing waits, and memory holds nothing that is not persisted. */
  predicate AtRest(w: Worker) {
    && Sound(w) && w.writes == [] && w.held == None
    && View(w.memory).owed <= View(Stored(w.storage)).owed && View(w.memory).paid <= View(Stored(w.storage)).paid
  }

  /** Every call the early refusal answers comes while the session is unlocked. */
  predicate RefusesWhileUnlocked(w: Worker, calls: seq<Call>)
    decreases |calls|
  {
    calls == [] ||
    (&& (calls[0].Release? && Withholds(w.memory, calls[0].binding) ==> IsUnlocked(w.storage, calls[0].now))
     && RefusesWhileUnlocked(CallStep(w, true, calls[0]).0, calls[1..]))
  }

  lemma KeepsEntry(g: Gate, b: Binding)
    requires Filed(g) && Key(b) in g.challenged
    ensures Challenge(g, b) == g
  {
    KeyIsInjective(g.challenged[Key(b)], b);
  }

  lemma MadeIs(w: Worker, c: Change)
    requires w.writes == [] && w.held == None
    ensures Made(w, c) == Worker(Apply(c, w.memory), w.ceremonies, [], None,
                                 w.storage.(record := Some(Apply(c, Stored(w.storage)))))
  {
  }

  /** Recording again what is on record changes nothing. */
  lemma RememberedAlready(w: Worker, b: Binding)
    requires AtRest(w) && Withholds(w.memory, b)
    ensures Made(w, Challenging(b)) == w
  {
    MadeIs(w, Challenging(b));
    SoundChecks(w, b);
    ViewOfKey(Stored(w.storage), b);
    KeepsEntry(Stored(w.storage), b);
    KeepsEntry(w.memory, b);
  }

  /** Where the early refusal answers, the full path would not have released either; and it would have
      left the same state exactly when the session is unlocked. */
  lemma FullPathRefusesToo(w: Worker, b: Binding, outcome: Outcome, now: int)
    requires AtRest(w) && Withholds(w.memory, b)
    ensures ReleaseCall(w, true, b, outcome, now) == (w, None)
    ensures var (w', released) := ReleaseCall(w, false, b, outcome, now);
            released == None && (w' == w <==> IsUnlocked(w.storage, now))
  {
    RememberedAlready(w, b);
    assert Key(b) in w.memory.challenged;
  }

  // ---- States at rest ----

  lemma MadeStaysAtRest(w: Worker, c: Change)
    requires AtRest(w) && Sealed(c)
    ensures AtRest(Made(w, c))
  {
    MadeIs(w, c);
    ViewApply(w.memory, c);
    ViewApply(Stored(w.storage), c);
  }

  lemma EmptiedAtRest(w: Worker, w': Worker)
    requires AtRest(w) && w'.memory == EMPTY_GATE && w'.writes == [] && w'.held == None
    requires Stored(w'.storage) == EMPTY_GATE || Stored(w'.storage) == Stored(w.storage)
    ensures AtRest(w')
  {
    EmptyGate();
  }

  lemma SameGatesAtRest(w: Worker, w': Worker)
    requires AtRest(w) && w'.memory == w.memory && w'.writes == [] && w'.held == None
    requires Stored(w'.storage) == Stored(w.storage)
    ensures AtRest(w')
  {
  }

  lemma ReleaseStaysAtRest(w: Worker, fast: bool, b: Binding, outcome: Outcome, now: int)
    requires AtRest(w)
    ensures AtRest(ReleaseCall(w, fast, b, outcome, now).0)
  {
    var (begun, r) := BeginRelease(w, fast, b, now);
    if r.Lapsing? {
      EmptiedAtRest(w, DropSession(begun).0);
    } else {
      assert begun == w;
      MadeStaysAtRest(w, Challenging(b));
      MadeStaysAtRest(w, Spending(b));
    }
  }

  lemma ApproveStaysAtRest(w: Worker, c: Call)
    requires AtRest(w) && c.Approve?
    ensures AtRest(ApproveCall(w, c))
  {
    var (begun, r) := BeginApprove(w, c.challengeId, c.proof, c.authenticated, c.now);
    SameGatesAtRest(w, begun);
    if r.Waiting? && c.accepted {
      var cleared := begun.(ceremonies := begun.ceremonies - {c.challengeId});
      SameGatesAtRest(w, cleared);
      MadeStaysAtRest(cleared, CompletionOf(c.challengeId, w.ceremonies[c.challengeId]));
    }
  }

  lemma CallStaysAtRest(w: Worker, fast: bool, c: Call)
    requires AtRest(w)
    ensures AtRest(CallStep(w, fast, c).0)
  {
    var w' := CallStep(w, fast, c).0;
    match c
    case Release(b, outcome, now) => ReleaseStaysAtRest(w, fast, b, outcome, now);
    case Approve(_, _, _, _, _) => ApproveStaysAtRest(w, c);
    case VekNeed(now) =>
      if ReadVek(w, now).1.Lapsing? {
        EmptiedAtRest(w, w');
      }
    case LockVault => EmptiedAtRest(w, w');
    case Evicted => EmptiedAtRest(w, w');
    case _ => SameGatesAtRest(w, w');
  }

  /** Over a whole run: as long as no early refusal falls into a lapsed session, taking it out changes
      neither the releases nor the state. */
  lemma {:induction false} FastPathOnlySavesTime(w: Worker, calls: seq<Call>)
    requires AtRest(w) && RefusesWhileUnlocked(w, calls)
    ensures Calls(w, true, calls) == Calls(w, false, calls)
    decreases |calls|
  {
    if calls != [] {
      var c := calls[0];
      if c.Release? && Withholds(w.memory, c.binding) {
        FullPathRefusesToo(w, c.binding, c.outcome, c.now);
      }
      CallStaysAtRest(w, true, c);
      FastPathOnlySavesTime(CallStep(w, true, c).0, calls[1..]);
    }
  }

  // ---- In a lapsed session ----

  lemma OneCall(w: Worker, fast: bool, c: Call, calls: seq<Call>)
    ensures var (w', released) := CallStep(w, fast, c);
            Calls(w, fast, [c] + calls) == (Calls(w', fast, calls).0, [released] + Calls(w', fast, calls).1)
  {
    assert ([c] + calls)[1..] == calls;
  }

  /** A refusal, an unlock, and the same release again. */
  function LapsedCalls(b: Binding, now: int): seq<Call> {
    var t := if now > 0 then now else 1;
    [Release(b, Granted, now), UnlockVault(t), Release(b, Granted, t)]
  }

  lemma ThreeCalls(w: Worker, fast: bool, a: Call, b: Call, c: Call)
    ensures var (w1, r1) := CallStep(w, fast, a);
            var (w2, r2) := CallStep(w1, fast, b);
            Calls(w, fast, [a, b, c]).1 == [r1, r2, CallStep(w2, fast, c).1]
  {
    var w1 := CallStep(w, fast, a).0;
    var w2 := CallStep(w1, fast, b).0;
    OneCall(w, fast, a, [b, c]);
    OneCall(w1, fast, b, [c]);
    OneCall(w2, fast, c, []);
    assert [a] + [b, c] == [a, b, c] && [b] + [c] == [b, c] && [c] + [] == [c];
    assert Calls(CallStep(w2, fast, c).0, fast, []).1 == [];
  }

  lemma UnlockedAgain(w: Worker, t: int)
    requires t != 0
    ensures var (w', released) := CallStep(w, true, UnlockVault(t));
            && released == None && w'.memory == w.memory && Stored(w'.storage) == Stored(w.storage)
            && IsUnlocked(w'.storage, t) && w'.storage.vek
  {
  }

  /** Once everything is forgotten a grant goes through. */
  lemma ForgottenReleases(w: Worker, b: Binding, t: int)
    requires w.memory == EMPTY_GATE && Stored(w.storage) == EMPTY_GATE && IsUnlocked(w.storage, t) && w.storage.vek
    ensures CallStep(w, false, Release(b, Granted, t)).1 == Some(b)
  {
    assert Key(b) !in EMPTY_GATE.challenged;
  }

  /** In a lapsed session it does change them: with the early refusal the debt outlives the lapse and
      the next unlock, without it the lapse is noticed and the debt dropped. */
  lemma LapsedRefusalMatters(w: Worker, b: Binding, now: int)
    requires AtRest(w) && Withholds(w.memory, b) && !IsUnlocked(w.storage, now)
    ensures Calls(w, true, LapsedCalls(b, now)).1 == [None, None, None]
    ensures Calls(w, false, LapsedCalls(b, now)).1 == [None, None, Some(b)]
  {
    var calls := LapsedCalls(b, now);
    ThreeCalls(w, true, calls[0], calls[1], calls[2]);
    ThreeCalls(w, false, calls[0], calls[1], calls[2]);
    var dropped := CallStep(w, false, calls[0]).0;
    UnlockedAgain(w, calls[2].now);
    UnlockedAgain(dropped, calls[2].now);
    ForgottenReleases(CallStep(dropped, false, calls[1]).0, b, calls[2].now);
  }

  /** Such a state comes about: unlock, be refused, and let the window pass. */
  lemma LapsedRun(b: Binding) returns (w: Worker, now: int)
    ensures w == Calls(INITIAL.worker, true, [UnlockVault(1), Release(b, MustChallenge, 2)]).0
    ensures AtRest(w) && Withholds(w.memory, b) && !IsUnlocked(w.storage, now)
  {
    var calls := [UnlockVault(1), Release(b, MustChallenge, 2)];
    OneCall(INITIAL.worker, true, calls[0], [calls[1]]);
    OneCall(CallStep(INITIAL.worker, true, calls[0]).0, true, calls[1], []);
    assert [calls[0]] + [calls[1]] == calls && [calls[1]] + [] == [calls[1]];
    assert !Withholds(EMPTY_GATE, b);
    EmptyGate();
    var unlocked := CallStep(INITIAL.worker, true, calls[0]).0;
    w, now := CallStep(unlocked, true, calls[1]).0, 1 + SESSION_WINDOW_MS;
    CallStaysAtRest(INITIAL.worker, true, calls[0]);
    CallStaysAtRest(unlocked, true, calls[1]);
    MadeIs(unlocked, Challenging(b));
  }
}
