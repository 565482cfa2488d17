/** Runs of the Plus service: capability requests, challenge triggers, approvals and the cleanup job,
  each run to completion, over one challenge table and under a clock that does not go back. */
module PlusProtocol {
  import opened Outcomes
  import R = RiskEngine
  import C = Challenges
  import G = CapabilityGate

  /** A request carries the directory, policy and risk state it meets, which may change from one
      to the next; so does an approval its surroundings. `id` is the random id offered to a new
      challenge. */
  datatype Event =
    | Trigger(input: C.CreateInput, id: string, emailSent: bool, now: int)
    | Request(directory: G.Directory, policy: R.Policy, last: map<string, R.Location>, request: G.Request,
              id: string, emailSent: bool, now: int)
    | Approve(challengeId: string, approval: C.Approval, deviceId: Option<string>, surroundings: C.Surroundings,
              now: int)
    | Cleanup(now: int)

  datatype Reply =
    | Triggered(created: C.Created)
    | Decided(verdict: G.Verdict)
    | Answered(result: Result<C.Capability, C.ApprovalError>)
    | Done

  ghost predicate Next(rows: C.Rows, e: Event, r: Reply, rows': C.Rows) {
    match e
    case Trigger(input, id, emailSent, now) =>
      r.Triggered? && C.Creates(rows, input, id, emailSent, now, r.created, rows')
    case Request(d, p, last, q, id, emailSent, now) =>
      r.Decided? && G.Authorizes(rows, d, p, last, q, id, emailSent, now, r.verdict, rows')
    case Approve(id, a, deviceId, x, now) =>
      && r == Answered(C.VerifyApproval(rows, id, a, deviceId, x, now))
      && rows' == C.AfterApproval(rows, id, r.result, now)
    case Cleanup(now) => r == Done && rows' == C.AfterCleanup(rows, now)
  }

  datatype Trace = Trace(states: seq<C.Rows>, events: seq<Event>, replies: seq<Reply>)

  /** A run from the empty table. Random ids do not repeat. */
  ghost predicate IsRun(t: Trace) {
    && |t.states| == |t.events| + 1 && |t.replies| == |t.events|
    && t.states[0] == map[]
    && (forall i :: 0 <= i < |t.events| ==> Next(t.states[i], t.events[i], t.replies[i], t.states[i + 1]))
    && (forall i, j :: 0 <= i < j < |t.events| ==> t.events[i].now <= t.events[j].now)
    && (forall i, k :: 0 <= k <= i < |t.events| && (t.events[i].Trigger? || t.events[i].Request?)
          ==> t.events[i].id !in t.states[k])
  }

  // ---- One step ----

  predicate Offers(e: Event, id: string) {
    (e.Trigger? || e.Request?) && e.id == id
  }

  ghost predicate Mints(e: Event, r: Reply, id: string) {
    e.Approve? && e.challengeId == id && r.Answered? && r.result.Success?
  }

  ghost predicate Keyed(rows: C.Rows) {
    forall id :: id in rows ==> rows[id].id == id
  }

  /** What a row can turn into. */
  ghost predicate Evolves(before: C.Challenge, after: C.Challenge) {
    && after.id == before.id && after.binding == before.binding && after.expiresAt == before.expiresAt
    && (after.status == before.status
        || (C.IsOutstanding(before.status) && (after.status.Completed? || after.status.Expired?)))
  }

  /** A row is either an old one evolved, or the new one, outstanding under the offered id and the
      only outstanding one for its binding. Only a minting approval completes a row. */
  ghost predicate StepOf(rows: C.Rows, e: Event, r: Reply, rows': C.Rows, id: string)
    requires id in rows'
  {
    var c := rows'[id];
    if id in rows then
      && Evolves(rows[id], c)
      && (c.status.Completed? && !rows[id].status.Completed? ==> Mints(e, r, id) && r.result.value.binding == c.binding)
      && (Mints(e, r, id) ==> C.IsOutstanding(rows[id].status) && c.status.Completed?)
    else
      && Offers(e, id) && c.id == id && C.IsOutstanding(c.status) && c.expiresAt == e.now + C.DEFAULT_TTL_MS
      && forall other :: other in rows ==> !C.Outstanding(rows[other], c.binding, e.now)
  }

  lemma CreatesStep(rows: C.Rows, input: C.CreateInput, id: string, emailSent: bool, now: int, r: C.Created,
                    rows': C.Rows)
    requires C.Creates(rows, input, id, emailSent, now, r, rows') && id !in rows
    ensures rows' == rows
            || (rows' == rows[id := C.NewRow(input, id, emailSent, now)]
                && forall other :: other in rows ==> !C.Outstanding(rows[other], input.binding, now))
  {
    var found :| C.Finds(rows, C.OutstandingFor(input.binding, now), found)
      && match found
         case Some(c) => r == C.Created(c.id, c.expiresAt) && rows' == rows
         case None =>
           && rows' == rows[id := C.NewRow(input, id, emailSent, now)]
           && r == if emailSent then C.Created(id, now + C.DEFAULT_TTL_MS) else C.EmailFailed;
    if found.None? {
      forall other | other in rows
        ensures !C.Outstanding(rows[other], input.binding, now)
      {
        assert !C.OutstandingFor(input.binding, now)(rows[other]);
      }
    }
  }

  lemma RequestStep(rows: C.Rows, e: Event, v: G.Verdict, rows': C.Rows)
    requires e.Request? && e.id !in rows
    requires G.Authorizes(rows, e.directory, e.policy, e.last, e.request, e.id, e.emailSent, e.now, v, rows')
    ensures rows' == rows
            || exists input: C.CreateInput :: rows' == rows[e.id := C.NewRow(input, e.id, e.emailSent, e.now)]
                 && forall other :: other in rows ==> !C.Outstanding(rows[other], input.binding, e.now)
  {
    match G.Decide(e.directory, e.policy, e.last, e.request, e.now)
    case NeedFactor(kind) =>
      var q := e.request;
      var input := C.CreateInput(q.binding, q.deviceId, kind);
      if rows' != rows {
        var r :| C.Creates(rows, input, e.id, e.emailSent, e.now, r, rows');
        CreatesStep(rows, input, e.id, e.emailSent, e.now, r, rows');
      }
    case _ =>
  }

  lemma NextSteps(rows: C.Rows, e: Event, r: Reply, rows': C.Rows)
    requires Keyed(rows) && Next(rows, e, r, rows') && (e.Trigger? || e.Request? ==> e.id !in rows)
    ensures Keyed(rows')
    ensures forall id :: id in rows' ==> StepOf(rows, e, r, rows', id)
  {
    match e
    case Trigger(input, id, emailSent, now) =>
      CreatesStep(rows, input, id, emailSent, now, r.created, rows');
    case Request(_, _, _, _, _, _, _) =>
      RequestStep(rows, e, r.verdict, rows');
    case _ =>
  }

  // ---- The table along a run ----

  lemma {:induction false} RunIsKeyed(t: Trace, n: nat)
    requires IsRun(t) && n <= |t.events|
    ensures Keyed(t.states[n])
  {
    if n > 0 {
      RunIsKeyed(t, n - 1);
      NextSteps(t.states[n - 1], t.events[n - 1], t.replies[n - 1], t.states[n]);
    }
  }

  lemma RunSteps(t: Trace, n: nat, id: string)
    requires IsRun(t) && 0 < n <= |t.events| && id in t.states[n]
    ensures StepOf(t.states[n - 1], t.events[n - 1], t.replies[n - 1], t.states[n], id)
  {
    RunIsKeyed(t, n - 1);
    NextSteps(t.states[n - 1], t.events[n - 1], t.replies[n - 1], t.states[n]);
  }

  ghost predicate Clash(rows: C.Rows, id: string, other: string, now: int)
    requires id in rows && other in rows
  {
    id != other && C.Outstanding(rows[id], rows[id].binding, now) && C.Outstanding(rows[other], rows[id].binding, now)
  }

  /** In no reachable table are there two challenges for one binding that are both outstanding and
      unexpired. `now` is any instant from the last event on. */
  lemma {:induction false} OneOutstandingPerBinding(t: Trace, n: nat, id: string, other: string, now: int)
    requires IsRun(t) && n <= |t.events| && (n > 0 ==> t.events[n - 1].now <= now)
    requires id in t.states[n] && other in t.states[n]
    ensures !Clash(t.states[n], id, other, now)
    decreases n
  {
    if n > 0 && id != other {
      RunSteps(t, n, id);
      RunSteps(t, n, other);
      if id in t.states[n - 1] && other in t.states[n - 1] {
        OneOutstandingPerBinding(t, n - 1, id, other, now);
      }
    }
  }

  /** So as long as a challenge is outstanding and unexpired, asking for one for its binding gives its
      id and expiry again and writes nothing. */
  lemma CreateReturnsTheOutstandingOne(t: Trace, n: nat, id: string, input: C.CreateInput, newId: string,
                                       emailSent: bool, now: int, r: C.Created, rows': C.Rows)
    requires IsRun(t) && n <= |t.events| && (n > 0 ==> t.events[n - 1].now <= now)
    requires id in t.states[n] && C.Outstanding(t.states[n][id], input.binding, now)
    requires C.Creates(t.states[n], input, newId, emailSent, now, r, rows')
    ensures r == C.Created(id, t.states[n][id].expiresAt) && rows' == t.states[n]
  {
    var rows := t.states[n];
    var found :| C.Finds(rows, C.OutstandingFor(input.binding, now), found)
      && match found
         case Some(c) => r == C.Created(c.id, c.expiresAt) && rows' == rows
         case None =>
           && rows' == rows[newId := C.NewRow(input, newId, emailSent, now)]
           && r == if emailSent then C.Created(newId, now + C.DEFAULT_TTL_MS) else C.EmailFailed;
    assert C.OutstandingFor(input.binding, now)(rows[id]);
    var other :| other in rows && rows[other] == found.value;
    OneOutstandingPerBinding(t, n, id, other, now);
    RunIsKeyed(t, n);
  }

  // ---- Approvals ----

  /** A row that has left the outstanding states never returns to them, and keeps its binding and
      expiry, for as long as it exists. */
  lemma {:induction false} RowsOnlyEvolve(t: Trace, m: nat, n: nat, id: string)
    requires IsRun(t) && m <= n <= |t.events| && id in t.states[m] && id in t.states[n]
    ensures Evolves(t.states[m][id], t.states[n][id])
    decreases n
  {
    if m < n {
      RunSteps(t, n, id);
      assert id in t.states[n - 1];
      RowsOnlyEvolve(t, m, n - 1, id);
    }
  }

  /** Event `i` minted a capability for challenge `id`. */
  ghost predicate MintedAt(t: Trace, i: nat, id: string)
    requires IsRun(t)
  {
    i < |t.events| && Mints(t.events[i], t.replies[i], id)
  }

  lemma MintCompletes(t: Trace, i: nat, id: string)
    requires IsRun(t) && MintedAt(t, i, id)
    ensures id in t.states[i] && C.IsOutstanding(t.states[i][id].status)
    ensures id in t.states[i + 1] && t.states[i + 1][id].status.Completed?
  {
    var e := t.events[i];
    assert Next(t.states[i], e, t.replies[i], t.states[i + 1]);
    C.MintedCapability(t.states[i], id, e.approval, e.deviceId, e.surroundings, e.now);
  }

  /** Over any run each challenge mints at most one capability, whatever the token store forgets. */
  lemma OneCapabilityPerChallenge(t: Trace, i: nat, j: nat, id: string)
    requires IsRun(t) && MintedAt(t, i, id) && MintedAt(t, j, id)
    ensures i == j
  {
    if i < j {
      MintCompletes(t, i, id);
      MintCompletes(t, j, id);
      RowsOnlyEvolve(t, i + 1, j, id);
    } else if j < i {
      MintCompletes(t, i, id);
      MintCompletes(t, j, id);
      RowsOnlyEvolve(t, j + 1, i, id);
    }
  }

  /** And each signed approval at most one, because it names the one challenge it is for. */
  lemma OneCapabilityPerApproval(t: Trace, i: nat, j: nat)
    requires IsRun(t) && i < |t.events| && j < |t.events|
    requires t.events[i].Approve? && t.replies[i].Answered? && t.replies[i].result.Success?
    requires t.events[j].Approve? && t.replies[j].Answered? && t.replies[j].result.Success?
    requires t.events[i].approval.payload == t.events[j].approval.payload
    ensures i == j
  {
    var d, e := t.events[i], t.events[j];
    RunIsKeyed(t, i);
    RunIsKeyed(t, j);
    assert Next(t.states[i], d, t.replies[i], t.states[i + 1]);
    assert Next(t.states[j], e, t.replies[j], t.states[j + 1]);
    C.MintedCapability(t.states[i], d.challengeId, d.approval, d.deviceId, d.surroundings, d.now);
    C.MintedCapability(t.states[j], e.challengeId, e.approval, e.deviceId, e.surroundings, e.now);
    OneCapabilityPerChallenge(t, i, j, d.challengeId);
  }

  /** Every completed row was completed by an approval that minted a capability for its binding. */
  lemma {:induction false} CompletedWasApproved(t: Trace, n: nat, id: string) returns (i: nat)
    requires IsRun(t) && n <= |t.events| && id in t.states[n] && t.states[n][id].status.Completed?
    ensures i < n && MintedAt(t, i, id)
    ensures t.replies[i].result.value.binding == t.states[n][id].binding
    decreases n
  {
    RunSteps(t, n, id);
    if t.states[n - 1][id].status.Completed? {
      i := CompletedWasApproved(t, n - 1, id);
    } else {
      i := n - 1;
    }
  }

  // ---- The gate ----

  /** In every run, a request that needs a third factor, for its state, its risk or its assurance, is
      allowed only after an approval that minted a capability for exactly its binding, through a
      challenge that has not expired. */
  lemma AllowNeedsApproval(t: Trace, n: nat) returns (i: nat, id: string)
    requires IsRun(t) && n < |t.events| && t.events[n].Request? && t.replies[n] == Decided(G.Allow)
    requires var e := t.events[n]; G.CallsForFactor(e.directory, e.policy, e.last, e.request, e.now)
    ensures i < n && MintedAt(t, i, id)
    ensures t.replies[i].result.value.binding == t.events[n].request.binding
    ensures id in t.states[n] && t.states[n][id].expiresAt > t.events[n].now
    ensures id in t.states[i] && t.states[i][id].expiresAt == t.states[n][id].expiresAt
  {
    var e := t.events[n];
    G.AllowNeedsProof(t.states[n], e.directory, e.policy, e.last, e.request, e.id, e.emailSent, e.now, t.states[n + 1]);
    id :| id in t.states[n] && C.Proven(t.states[n][id], e.request.binding, e.now);
    i := CompletedWasApproved(t, n, id);
    MintCompletes(t, i, id);
    RowsOnlyEvolve(t, i, n, id);
  }
}
