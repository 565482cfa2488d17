/** The one-time token store of src/infrastructure/crypto/jti-store.ts, in its in-memory form. */
module ReplayStore {
  import opened Outcomes

  const MIN_JTI_LENGTH := 16

  /** Token ids and the millisecond at which each entry lapses. */
  type Entries = map<string, int>

  predicate Blocks(es: Entries, jti: string, now: int) {
    jti in es && es[jti] > now
  }

  function Consumed(es: Entries, jti: string, ttlSeconds: int, now: int): Entries {
    if Blocks(es, jti, now) then es else es[jti := now + ttlSeconds * 1000]
  }

  function Swept(es: Entries, now: int): Entries {
    map jti | jti in es && es[jti] > now :: es[jti]
  }

  datatype JtiError = InvalidJti | ReplayDetected

  function Admission(es: Entries, jti: string, now: int): Option<JtiError> {
    if |jti| < MIN_JTI_LENGTH then Some(InvalidJti)
    else if Blocks(es, jti, now) then Some(ReplayDetected)
    else None
  }

  /** The store after verifyAndConsumeJti. */
  function AfterAdmission(es: Entries, jti: string, ttlSeconds: int, now: int): Entries {
    if |jti| < MIN_JTI_LENGTH then es else Consumed(es, jti, ttlSeconds, now)
  }

  class InMemoryJtiStore {
    var consumed: map<string, int>

    constructor ()
      ensures consumed == map[]
    {
      consumed := map[];
    }

    method TryConsume(jti: string, ttlSeconds: int, now: int) returns (first: bool)
      modifies this
      ensures consumed == Consumed(old(consumed), jti, ttlSeconds, now)
      ensures first <==> !Blocks(old(consumed), jti, now)
    {
      var expiry := now + ttlSeconds * 1000;
      if jti in consumed && consumed[jti] > now {
        return false;
      }
      consumed := consumed[jti := expiry];
      return true;
    }

    /** The entry of a lapsed token is dropped on the way. */
    method IsConsumed(jti: string, now: int) returns (r: bool)
      modifies this
      ensures r <==> Blocks(old(consumed), jti, now)
      ensures consumed == if r then old(consumed) else old(consumed) - {jti}
    {
      if jti !in consumed {
        assert consumed - {jti} == consumed;
        return false;
      }
      if consumed[jti] <= now {
        consumed := consumed - {jti};
        return false;
      }
      return true;
    }

    method Cleanup(now: int)
      modifies this
      ensures consumed == Swept(old(consumed), now)
    {
      var left := consumed.Keys;
      while left != {}
        invariant left <= consumed.Keys <= old(consumed).Keys
        invariant forall j :: j in consumed ==> consumed[j] == old(consumed)[j]
        invariant forall j :: j in old(consumed) && j !in left ==> (j in consumed <==> old(consumed)[j] > now)
        decreases left
      {
        var jti :| jti in left;
        if consumed[jti] <= now {
          consumed := consumed - {jti};
        }
        left := left - {jti};
      }
    }

    method VerifyAndConsume(jti: string, ttlSeconds: int, now: int) returns (error: Option<JtiError>)
      modifies this
      ensures error == Admission(old(consumed), jti, now)
      ensures consumed == AfterAdmission(old(consumed), jti, ttlSeconds, now)
    {
      if |jti| < MIN_JTI_LENGTH {
        return Some(InvalidJti);
      }
      var first := TryConsume(jti, ttlSeconds, now);
      return if first then None else Some(ReplayDetected);
    }
  }

  // ---- What time does to an entry ----

  /** Anything that can happen to the store: an admission of some token, or the sweep. */
  datatype Event = Admit(jti: string, ttlSeconds: int, now: int) | Sweep(now: int)

  function Step(es: Entries, e: Event): Entries {
    match e
    case Admit(jti, ttl, now) => AfterAdmission(es, jti, ttl, now)
    case Sweep(now) => Swept(es, now)
  }

  function Run(es: Entries, events: seq<Event>): Entries {
    if events == [] then es else Step(Run(es, events[..|events| - 1]), events[|events| - 1])
  }

  ghost predicate Clocked(events: seq<Event>) {
    forall i, j :: 0 <= i < j < |events| ==> events[i].now <= events[j].now
  }

  /** Event `i` of the run was an admission that succeeded. */
  predicate Admitted(es: Entries, events: seq<Event>, i: nat)
    requires i < |events|
  {
    events[i].Admit? && Admission(Run(es, events[..i]), events[i].jti, events[i].now).None?
  }

  /** An entry stays until it lapses, whatever is admitted and whenever the sweep runs. */
  lemma {:induction false} EntryOutlivesItsTtl(es: Entries, events: seq<Event>, i: nat, n: nat)
    requires i < n <= |events| && Clocked(events) && Admitted(es, events, i)
    requires events[n - 1].now < events[i].now + events[i].ttlSeconds * 1000
    ensures var after := Run(es, events[..n]);
            events[i].jti in after && after[events[i].jti] == events[i].now + events[i].ttlSeconds * 1000
    decreases n
  {
    assert events[..n][..n - 1] == events[..n - 1];
    if i < n - 1 {
      EntryOutlivesItsTtl(es, events, i, n - 1);
    }
  }

  /** Two admissions of one token id are at least the first one's ttl apart. */
  lemma AdmissionsAreATtlApart(es: Entries, events: seq<Event>, i: nat, j: nat)
    requires i < j < |events| && Clocked(events)
    requires Admitted(es, events, i) && Admitted(es, events, j) && events[i].jti == events[j].jti
    ensures events[i].now + events[i].ttlSeconds * 1000 <= events[j].now
  {
    if events[j].now < events[i].now + events[i].ttlSeconds * 1000 {
      EntryOutlivesItsTtl(es, events, i, j);
    }
  }
}
