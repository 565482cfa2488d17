/** The step-up gate of the extension's service worker, src/background/auditor.ts: what each handler
  does to the worker's maps, to the record in session storage and to the session keys.

  A handler is cut into steps where the code waits: for the network, for a read of session storage,
  for its turn in the chain of writes, and for that write. Other handlers run between the steps, and the
  worker may be stopped between any two. What a waiting handler holds (its binding, its verdict, its
  ceremony, the gate it read) is a parameter of its next step. */
module StepUpWorker {
  import opened Outcomes
  import opened BindingKey

  const SESSION_WINDOW_MS := 30 * 60 * 1000

  datatype Session = Session(challengeId: string, binding: Binding, expiresAt: int, completed: bool)

  /** What is owed and what has been paid, by binding key. */
  datatype Gate = Gate(challenged: map<string, Binding>, completed: map<string, Session>)

  const EMPTY_GATE := Gate(map[], map[])

  datatype Ceremony = Ceremony(binding: Binding, expiresAt: int)

  /** `unlockTime` stands for the session key and its unlock time, which are written together. */
  datatype Storage = Storage(record: Option<Gate>, unlockTime: Option<int>, expiresAt: Option<int>, vek: bool)

  const EMPTY_STORAGE := Storage(None, None, None, false)

  /** The three mutations of the gate. */
  datatype Change = Challenging(binding: Binding) | Completing(session: Session) | Spending(binding: Binding)

  /** `writes` are the changes that memory has and that are still to be persisted, first in line first;
      `held` is the copy of the persisted gate that the first of them has read, once it has. */
  datatype Worker = Worker(
    memory: Gate, ceremonies: map<string, Ceremony>, writes: seq<Change>, held: Option<Gate>, storage: Storage)

  /** What the rest of a release (index, guard, Plus, Core, decryption) comes to. */
  datatype Outcome = Granted | MustChallenge | Denied

  datatype StartRefusal = BindingMissing | NotManaged | NotAuthenticated | TriggerFailed

  /** What a step tells: that its handler goes on waiting, and after what, or the handler's answer. */
  datatype Reply =
    | Idle
    | Waiting
    | Checked(owes: bool)
    | Recorded(change: Change)
    | CopyTaken(readable: bool)
    | Answered(change: Change, written: bool)
    | ChallengeRequired(binding: Binding)
    | Refused
    | Lapsing
    | VaultLocked(dropped: bool)
    | VekRead
    | Started(challengeId: string)
    | NotStarted(reason: StartRefusal)
    | NotAccepted
    | Pending(bindings: set<Binding>)
    | Removed(gate: bool)
    | Locked
    | LockFailed
    | Unlocked
    | Evicted

  function Find<K, V>(m: map<K, V>, k: K): Option<V> {
    if k in m then Some(m[k]) else None
  }

  /** step-up-flow.ts: a completed step-up is good for exactly the release it was made for. */
  predicate CanRetry(session: Option<Session>, b: Binding) {
    session.Some? && session.value.binding == b && session.value.completed
  }

  predicate Withholds(g: Gate, b: Binding) {
    Key(b) in g.challenged && !CanRetry(Find(g.completed, Key(b)), b)
  }

  function Challenge(g: Gate, b: Binding): Gate {
    g.(challenged := g.challenged[Key(b) := b])
  }

  function Complete(g: Gate, s: Session): Gate {
    g.(completed := g.completed[Key(s.binding) := s])
  }

  function Spend(g: Gate, b: Binding): Gate {
    Gate(g.challenged - {Key(b)}, g.completed - {Key(b)})
  }

  function Apply(c: Change, g: Gate): Gate {
    match c
    case Challenging(b) => Challenge(g, b)
    case Completing(s) => Complete(g, s)
    case Spending(b) => Spend(g, b)
  }

  /** A missing record reads as nothing owed. */
  function Stored(s: Storage): Gate {
    if s.record.Some? then s.record.value else EMPTY_GATE
  }

  /** Memory has the change at once; its persisted copy waits in line. */
  function Record(w: Worker, c: Change): Worker {
    w.(memory := Apply(c, w.memory), writes := w.writes + [c])
  }

  /** The first change in line reads the persisted gate; a read that fails finds nothing owed. */
  function ReadForWrite(w: Worker, readable: bool): (Worker, Reply) {
    if w.writes == [] || w.held.Some? then (w, Idle)
    else (w.(held := Some(if readable then Stored(w.storage) else EMPTY_GATE)), CopyTaken(readable))
  }

  /** It writes the copy back with its change in it, or fails and is given up; either way its handler
      answers. */
  function SettleWrite(w: Worker, succeeds: bool): (Worker, Reply) {
    if w.writes == [] || w.held.None? then (w, Idle)
    else
      var c := w.writes[0];
      var record := if succeeds then Some(Apply(c, w.held.value)) else w.storage.record;
      (w.(writes := w.writes[1..], held := None, storage := w.storage.(record := record)), Answered(c, succeeds))
  }

  predicate IsUnlocked(s: Storage, now: int) {
    && s.unlockTime.Some? && s.unlockTime.value != 0
    && (s.expiresAt.Some? ==> now < s.expiresAt.value)
    && now - s.unlockTime.value < SESSION_WINDOW_MS
  }

  /** A lapsed session is forgotten in memory first, all but the ceremonies in progress ... */
  function ReadVek(w: Worker, now: int): (Worker, Reply) {
    if !IsUnlocked(w.storage, now) then (w.(memory := EMPTY_GATE), Lapsing)
    else if !w.storage.vek then (w, VaultLocked(false))
    else (w, VekRead)
  }

  /** ... and in storage after that. */
  function DropSession(w: Worker): (Worker, Reply) {
    (w.(storage := EMPTY_STORAGE), VaultLocked(true))
  }

  /** A release up to its first network request. Without `fast` it is the handler with the early
      refusal taken out. */
  function BeginRelease(w: Worker, fast: bool, b: Binding, now: int): (Worker, Reply) {
    if fast && Withholds(w.memory, b) then (w, ChallengeRequired(b))
    else
      var (w', r) := ReadVek(w, now);
      (w', if r.VekRead? then Waiting else r)
  }

  /** Once the outcome is known: a refusal is recorded, a grant is checked. Memory decides when it
      knows the binding; otherwise the persisted record has to be read. */
  function ProbeRelease(w: Worker, b: Binding, outcome: Outcome): (Worker, Reply) {
    match outcome
    case Granted => (w, if Key(b) in w.memory.challenged then Checked(Withholds(w.memory, b)) else Waiting)
    case MustChallenge => (Record(w, Challenging(b)), Recorded(Challenging(b)))
    case Denied => (w, Refused)
  }

  predicate RecordOwes(w: Worker, b: Binding, readable: bool) {
    readable && Withholds(Stored(w.storage), b)
  }

  /** With the verdict in hand the release is refused, or spends the gate's entries and goes out. */
  function EndRelease(w: Worker, b: Binding, owes: bool): (Worker, Reply) {
    var c := if owes then Challenging(b) else Spending(b);
    (Record(w, c), Recorded(c))
  }

  /** `managed`: the worker holds a Release Share reference for the credential. `triggered` is what
      Plus answers, the challenge's id and expiry, or nothing on any refusal. */
  function StartStepUp(w: Worker, b: Binding, managed: bool, authenticated: bool, triggered: Option<(string, int)>)
    : (Worker, Reply)
  {
    if b.credentialId == "" || b.origin == "" then (w, NotStarted(BindingMissing))
    else if !managed then (w, NotStarted(NotManaged))
    else if !authenticated then (w, NotStarted(NotAuthenticated))
    else if triggered.None? then (w, NotStarted(TriggerFailed))
    else
      var (id, expiresAt) := triggered.value;
      (w.(ceremonies := w.ceremonies[id := Ceremony(b, expiresAt)]), Started(id))
  }

  /** An approval up to the request to Core. */
  function BeginApprove(w: Worker, id: string, proof: bool, authenticated: bool, now: int): (Worker, Reply) {
    if !proof || id !in w.ceremonies then (w, NotAccepted)
    else if now >= w.ceremonies[id].expiresAt then (w.(ceremonies := w.ceremonies - {id}), NotAccepted)
    else (w, if authenticated then Waiting else Refused)
  }

  function CompletionOf(id: string, entry: Ceremony): Change {
    Completing(Session(id, entry.binding, entry.expiresAt, true))
  }

  /** The rest of an approval: `accepted` when Core signed it and Plus issued a capability for it. */
  function FinishApprove(w: Worker, id: string, entry: Ceremony, accepted: bool): (Worker, Reply) {
    if !accepted then (w, NotAccepted)
    else
      var c := CompletionOf(id, entry);
      (Record(w.(ceremonies := w.ceremonies - {id}), c), Recorded(c))
  }

  function Merged(g: Gate, w: Worker): map<string, Binding> {
    g.challenged + w.memory.challenged
  }

  function PendingKeys(g: Gate, w: Worker): set<string> {
    Merged(g, w).Keys - (g.completed.Keys + w.memory.completed.Keys)
  }

  function Images(m: map<string, Binding>, keys: set<string>): set<Binding>
    requires keys <= m.Keys
  {
    set k | k in keys :: m[k]
  }

  /** What is pending by the persisted gate `g`, as it was read, and by what memory holds now. */
  function PendingOf(g: Gate, w: Worker): set<Binding> {
    Images(Merged(g, w), PendingKeys(g, w))
  }

  /** A lock removes the keys and the gate from storage; `keys` and `gate` are whether they went. */
  function RemoveForLock(w: Worker, keys: bool, gate: bool): (Worker, Reply) {
    var s := w.storage;
    var s' := if keys then Storage(s.record, None, None, false) else s;
    (w.(storage := if gate then s'.(record := None) else s'), Removed(gate))
  }

  /** Then it looks whether they are gone, and only if so forgets what memory holds. */
  function VerifyLock(w: Worker): (Worker, Reply) {
    if w.storage.vek || w.storage.record.Some? then (w, LockFailed)
    else (w.(memory := EMPTY_GATE, ceremonies := map[]), Locked)
  }

  /** The key manager writes the session key and its time first, the handler the rest. */
  function UnlockKey(w: Worker, unlockTime: int): Worker {
    w.(storage := w.storage.(unlockTime := Some(unlockTime)))
  }

  function UnlockVek(w: Worker, now: int): (Worker, Reply) {
    if w.storage.unlockTime.None? then (w, Refused)
    else (w.(storage := w.storage.(vek := true, expiresAt := Some(now + SESSION_WINDOW_MS))), Unlocked)
  }

  /** The browser stops the worker; session storage stays. */
  function Evict(w: Worker): Worker {
    Worker(EMPTY_GATE, map[], [], None, w.storage)
  }

  // ---- The handlers as a program ----

  function Elements(s: seq<Binding>): set<Binding> {
    set b | b in s
  }

  lemma ImagesGrow(m: map<string, Binding>, keys: set<string>, k: string, s: seq<Binding>)
    requires keys <= m.Keys && k in m && Elements(s) == Images(m, keys)
    ensures Elements(s + [m[k]]) == Images(m, keys + {k})
  {
    assert Elements(s + [m[k]]) == Elements(s) + {m[k]};
    assert Images(m, keys + {k}) == Images(m, keys) + {m[k]};
  }

  /** `pending` lists the keys `shown`, which with `keys` and the completed ones are all. */
  ghost predicate Listed(challenged: map<string, Binding>, completed: set<string>, keys: set<string>,
                         shown: set<string>, pending: seq<Binding>)
  {
    && keys <= challenged.Keys && shown <= challenged.Keys
    && shown !! keys && shown !! completed && challenged.Keys <= shown + keys + completed
    && Elements(pending) == Images(challenged, shown) && |pending| == |shown|
  }

  lemma ListOneMore(challenged: map<string, Binding>, completed: set<string>, keys: set<string>,
                    shown: set<string>, pending: seq<Binding>, key: string)
    requires Listed(challenged, completed, keys, shown, pending) && key in keys && key !in completed
    ensures Listed(challenged, completed, keys - {key}, shown + {key}, pending + [challenged[key]])
  {
    ImagesGrow(challenged, shown, key, pending);
  }

  lemma ListSkips(challenged: map<string, Binding>, completed: set<string>, keys: set<string>,
                  shown: set<string>, pending: seq<Binding>, key: string)
    requires Listed(challenged, completed, keys, shown, pending) && key in keys && key in completed
    ensures Listed(challenged, completed, keys - {key}, shown, pending)
  {
  }

  lemma ListedAll(challenged: map<string, Binding>, completed: set<string>, shown: set<string>, pending: seq<Binding>)
    requires Listed(challenged, completed, {}, shown, pending)
    ensures Elements(pending) == Images(challenged, challenged.Keys - completed)
    ensures |pending| == |challenged.Keys - completed|
  {
    assert shown == challenged.Keys - completed;
  }

  /** chrome.storage.session. */
  class SessionArea {
    var record: Option<Gate>
    var unlockTime: Option<int>
    var expiresAt: Option<int>
    var vek: bool

    constructor ()
      ensures Value() == EMPTY_STORAGE
    {
      record, unlockTime, expiresAt, vek := None, None, None, false;
    }

    ghost function Value(): Storage
      reads this
    {
      Storage(record, unlockTime, expiresAt, vek)
    }

    /** Never fails and never invents state: a record that is missing or cannot be read is an empty gate. */
    method ReadPersistedGate(readable: bool) returns (gate: Gate)
      ensures gate == if readable then Stored(Value()) else EMPTY_GATE
    {
      if !readable || record.None? {
        return EMPTY_GATE;
      }
      return record.value;
    }
  }

  class ServiceWorker {
    const area: SessionArea
    var challengedBindings: map<string, Binding>
    var completedStepUps: map<string, Session>
    var stepUpChallenges: map<string, Ceremony>
    /** The changes on the promise chain, first in line first. */
    var stepUpGateWrite: seq<Change>
    /** What the first of them has read. */
    var gateRead: Option<Gate>

    /** A worker started anew, after an installation or an eviction, on the area it finds. */
    constructor (area: SessionArea)
      ensures this.area == area
      ensures Value() == Worker(EMPTY_GATE, map[], [], None, area.Value())
      ensures forall w: Worker :: w.storage == area.Value() ==> Value() == Evict(w)
    {
      this.area := area;
      challengedBindings, completedStepUps, stepUpChallenges := map[], map[], map[];
      stepUpGateWrite := [];
      gateRead := None;
    }

    ghost function Value(): Worker
      reads this, area
    {
      Worker(Gate(challengedBindings, completedStepUps), stepUpChallenges, stepUpGateWrite, gateRead, area.Value())
    }

    method IsSessionUnlocked(now: int) returns (unlocked: bool)
      ensures unlocked <==> IsUnlocked(area.Value(), now)
    {
      if area.unlockTime.None? || area.unlockTime.value == 0 {
        return false;
      }
      if area.expiresAt.Some? && now >= area.expiresAt.value {
        return false;
      }
      return now - area.unlockTime.value < SESSION_WINDOW_MS;
    }

    /** Up to the removal from storage, which a lapsed session still has to wait for. */
    method ReadSessionVek(now: int) returns (r: Reply)
      modifies this
      ensures (Value(), r) == ReadVek(old(Value()), now)
    {
      var unlocked := IsSessionUnlocked(now);
      if !unlocked {
        challengedBindings := map[];
        completedStepUps := map[];
        return Lapsing;
      }
      if !area.vek {
        return VaultLocked(false);
      }
      return VekRead;
    }

    method ExpireSessionKeyMaterial() returns (r: Reply)
      modifies area
      ensures (Value(), r) == DropSession(old(Value()))
    {
      area.vek, area.unlockTime, area.expiresAt := false, None, None;
      area.record := None;
      return VaultLocked(true);
    }

    method BeginReleaseCredential(b: Binding, now: int) returns (r: Reply)
      modifies this
      ensures (Value(), r) == BeginRelease(old(Value()), true, b, now)
    {
      var key := Key(b);
      if key in challengedBindings {
        if !CanRetry(Find(completedStepUps, key), b) {
          return ChallengeRequired(b);
        }
      }
      r := ReadSessionVek(now);
      if r.VekRead? {
        r := Waiting;
      }
    }

    /** Memory first, then a place in the chain. */
    method RememberChallenged(b: Binding) returns (r: Reply)
      modifies this
      ensures Value() == Record(old(Value()), Challenging(b)) && r == Recorded(Challenging(b))
    {
      challengedBindings := challengedBindings[Key(b) := b];
      r := PersistGateChange(Challenging(b));
    }

    method RememberCompleted(s: Session) returns (r: Reply)
      modifies this
      ensures Value() == Record(old(Value()), Completing(s)) && r == Recorded(Completing(s))
    {
      completedStepUps := completedStepUps[Key(s.binding) := s];
      r := PersistGateChange(Completing(s));
    }

    method SpendStepUp(b: Binding) returns (r: Reply)
      modifies this
      ensures Value() == Record(old(Value()), Spending(b)) && r == Recorded(Spending(b))
    {
      challengedBindings := challengedBindings - {Key(b)};
      completedStepUps := completedStepUps - {Key(b)};
      r := PersistGateChange(Spending(b));
    }

    method PersistGateChange(c: Change) returns (r: Reply)
      modifies this`stepUpGateWrite
      ensures Value() == old(Value()).(writes := old(Value()).writes + [c]) && r == Recorded(c)
    {
      stepUpGateWrite := stepUpGateWrite + [c];
      return Recorded(c);
    }

    /** The change at the head of the chain, up to its write ... */
    method ReadGateForWrite(readable: bool) returns (r: Reply)
      modifies this`gateRead
      ensures (Value(), r) == ReadForWrite(old(Value()), readable)
    {
      if stepUpGateWrite == [] || gateRead.Some? {
        return Idle;
      }
      var gate := area.ReadPersistedGate(readable);
      gateRead := Some(gate);
      return CopyTaken(readable);
    }

    /** ... and its write, which may fail. */
    method WriteGate(succeeds: bool) returns (r: Reply)
      modifies this`stepUpGateWrite, this`gateRead, area`record
      ensures (Value(), r) == SettleWrite(old(Value()), succeeds)
    {
      if stepUpGateWrite == [] || gateRead.None? {
        return Idle;
      }
      var change := stepUpGateWrite[0];
      if succeeds {
        area.record := Some(Apply(change, gateRead.value));
      }
      stepUpGateWrite := stepUpGateWrite[1..];
      gateRead := None;
      return Answered(change, succeeds);
    }

    /** The first half of sessionOwesStepUp, and what the handler does when nothing was granted. */
    method ProbeReleaseCredential(b: Binding, outcome: Outcome) returns (r: Reply)
      modifies this
      ensures (Value(), r) == ProbeRelease(old(Value()), b, outcome)
    {
      if outcome.Granted? {
        var key := Key(b);
        if key in challengedBindings {
          return Checked(!CanRetry(Find(completedStepUps, key), b));
        }
        return Waiting;
      }
      if outcome.MustChallenge? {
        r := RememberChallenged(b);
        return r;
      }
      return Refused;
    }

    /** The second half, for a binding that memory does not know. */
    method PersistedGateOwes(b: Binding, readable: bool) returns (owes: bool)
      ensures owes <==> RecordOwes(Value(), b, readable)
    {
      var gate := area.ReadPersistedGate(readable);
      var key := Key(b);
      if key !in gate.challenged {
        return false;
      }
      return !CanRetry(Find(gate.completed, key), b);
    }

    method FinishReleaseCredential(b: Binding, owes: bool) returns (r: Reply)
      modifies this
      ensures (Value(), r) == EndRelease(old(Value()), b, owes)
    {
      if owes {
        r := RememberChallenged(b);
        return r;
      }
      r := SpendStepUp(b);
    }

    method HandleStartStepUp(b: Binding, managed: bool, authenticated: bool, triggered: Option<(string, int)>)
      returns (r: Reply)
      modifies this
      ensures (Value(), r) == StartStepUp(old(Value()), b, managed, authenticated, triggered)
    {
      if b.credentialId == "" || b.origin == "" {
        return NotStarted(BindingMissing);
      }
      if !managed {
        return NotStarted(NotManaged);
      }
      if !authenticated {
        return NotStarted(NotAuthenticated);
      }
      if triggered.None? {
        return NotStarted(TriggerFailed);
      }
      stepUpChallenges := stepUpChallenges[triggered.value.0 := Ceremony(b, triggered.value.1)];
      return Started(triggered.value.0);
    }

    method BeginApproveStepUp(id: string, proof: bool, authenticated: bool, now: int) returns (r: Reply)
      modifies this
      ensures (Value(), r) == BeginApprove(old(Value()), id, proof, authenticated, now)
    {
      if !proof {
        return NotAccepted;
      }
      if id !in stepUpChallenges {
        return NotAccepted;
      }
      if now >= stepUpChallenges[id].expiresAt {
        stepUpChallenges := stepUpChallenges - {id};
        return NotAccepted;
      }
      if !authenticated {
        return Refused;
      }
      return Waiting;
    }

    method FinishApproveStepUp(id: string, entry: Ceremony, accepted: bool) returns (r: Reply)
      modifies this
      ensures (Value(), r) == FinishApprove(old(Value()), id, entry, accepted)
    {
      if !accepted {
        return NotAccepted;
      }
      stepUpChallenges := stepUpChallenges - {id};
      r := RememberCompleted(Session(id, entry.binding, entry.expiresAt, true));
    }

    /** Memory's view of a binding wins over the persisted one. */
    method MergeChallenged(gate: Gate) returns (challenged: map<string, Binding>)
      ensures challenged == gate.challenged + challengedBindings
    {
      challenged := gate.challenged;
      var keys := challengedBindings.Keys;
      while keys != {}
        invariant keys <= challengedBindings.Keys
        invariant challenged.Keys == gate.challenged.Keys + (challengedBindings.Keys - keys)
        invariant forall k :: k in challenged ==>
          challenged[k] == if k in challengedBindings.Keys - keys then challengedBindings[k] else gate.challenged[k]
      {
        var key :| key in keys;
        challenged := challenged[key := challengedBindings[key]];
        keys := keys - {key};
      }
    }

    static method ListOutstanding(challenged: map<string, Binding>, completed: set<string>)
      returns (pending: seq<Binding>)
      ensures Elements(pending) == Images(challenged, challenged.Keys - completed)
      ensures |pending| == |challenged.Keys - completed|
    {
      pending := [];
      var keys := challenged.Keys;
      ghost var shown: set<string> := {};
      while keys != {}
        invariant Listed(challenged, completed, keys, shown, pending)
      {
        var key :| key in keys;
        if key !in completed {
          ListOneMore(challenged, completed, keys, shown, pending, key);
          pending := pending + [challenged[key]];
          shown := shown + {key};
        } else {
          ListSkips(challenged, completed, keys, shown, pending, key);
        }
        keys := keys - {key};
      }
      ListedAll(challenged, completed, shown, pending);
    }

    /** The list the popup is shown, each pending key once; `gate` is the persisted gate it has read. */
    method HandleGetPendingStepUp(gate: Gate) returns (pending: seq<Binding>)
      ensures Elements(pending) == PendingOf(gate, Value())
      ensures |pending| == |PendingKeys(gate, Value())|
    {
      var challenged := MergeChallenged(gate);
      pending := ListOutstanding(challenged, gate.completed.Keys + completedStepUps.Keys);
    }

    method BeginLockVault(keys: bool, gate: bool) returns (r: Reply)
      modifies area
      ensures (Value(), r) == RemoveForLock(old(Value()), keys, gate)
    {
      if keys {
        area.vek, area.unlockTime, area.expiresAt := false, None, None;
      }
      if gate {
        area.record := None;
      }
      return Removed(gate);
    }

    method FinishLockVault() returns (r: Reply)
      modifies this
      ensures (Value(), r) == VerifyLock(old(Value()))
    {
      if area.vek {
        return LockFailed;
      }
      if area.record.Some? {
        return LockFailed;
      }
      stepUpChallenges := map[];
      challengedBindings := map[];
      completedStepUps := map[];
      return Locked;
    }
  }
}
