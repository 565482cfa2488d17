/** The step-up challenges of plus/domain/services/challenge.ts, over the rows of the challenge
  table in plus/infrastructure/repositories/PostgresChallengeRepository.ts. */
module Challenges {
  import opened Outcomes

  datatype Status = Pending | EmailSent | UrlAccessed | Completed | Expired | Failed

  /** All four fields tie a challenge to the release it authorises. */
  datatype Binding = Binding(userId: string, resourceId: string, operation: string, secretRef: string)

  datatype ChallengeType = StepUp | RiskBased | Forced

  datatype Challenge = Challenge(
    id: string, binding: Binding, deviceId: Option<string>, kind: ChallengeType, status: Status,
    emailSentAt: Option<int>, completedAt: Option<int>, expiresAt: int, createdAt: int, updatedAt: int)

  type Rows = map<string, Challenge>

  const DEFAULT_TTL_MS := 10 * 60 * 1000

  const CAPABILITY_TTL_SECONDS := 300

  const MAX_APPROVAL_TTL_SECONDS := 600

  const APPROVAL_OPERATIONS: set<string> := {"AUTOFILL", "TOTP", "EXPORT_SECRET"}

  predicate IsOutstanding(s: Status) {
    s.Pending? || s.EmailSent? || s.UrlAccessed?
  }

  /** Still waiting on proof. */
  predicate Outstanding(c: Challenge, b: Binding, now: int) {
    c.binding == b && IsOutstanding(c.status) && c.expiresAt > now
  }

  /** Proven, and inside its own expiry. */
  predicate Proven(c: Challenge, b: Binding, now: int) {
    c.binding == b && c.status.Completed? && c.expiresAt > now
  }

  // ---- Finding ----

  /** `found` is a newest row that qualifies, or there is none. */
  ghost predicate Finds(rows: Rows, qualifies: Challenge -> bool, found: Option<Challenge>) {
    match found
    case None => forall id :: id in rows ==> !qualifies(rows[id])
    case Some(c) =>
      && qualifies(c) && (exists id :: id in rows && rows[id] == c)
      && forall id :: id in rows && qualifies(rows[id]) ==> rows[id].createdAt <= c.createdAt
  }

  function OutstandingFor(b: Binding, now: int): Challenge -> bool {
    c => Outstanding(c, b, now)
  }

  function ProvenFor(b: Binding, now: int): Challenge -> bool {
    c => Proven(c, b, now)
  }

  // ---- Creating ----

  datatype CreateInput = CreateInput(binding: Binding, deviceId: Option<string>, kind: ChallengeType)

  datatype Created = Created(challengeId: string, expiresAt: int) | EmailFailed

  /** The row createChallenge writes. When the email cannot be sent the row stays pending and the
      call throws. */
  function NewRow(input: CreateInput, id: string, emailSent: bool, now: int): Challenge {
    Challenge(id, input.binding, input.deviceId, input.kind, if emailSent then EmailSent else Pending,
              if emailSent then Some(now) else None, None, now + DEFAULT_TTL_MS, now, now)
  }

  /** An outstanding challenge is reused; only without one is a row written under the new id. */
  ghost predicate Creates(rows: Rows, input: CreateInput, id: string, emailSent: bool, now: int, r: Created,
                          rows': Rows)
  {
    exists found :: Finds(rows, OutstandingFor(input.binding, now), found)
      && match found
         case Some(c) => r == Created(c.id, c.expiresAt) && rows' == rows
         case None =>
           && rows' == rows[id := NewRow(input, id, emailSent, now)]
           && r == if emailSent then Created(id, now + DEFAULT_TTL_MS) else EmailFailed
  }

  // ---- Approving ----

  datatype ApprovalPayload = ApprovalPayload(
    challengeId: string, userId: string, resourceId: string, operation: string, secretRef: string,
    iat: int, exp: int, jti: string)

  datatype Approval = Approval(payload: ApprovalPayload, signature: string, protectedHeader: string)

  datatype Capability = Capability(
    binding: Binding, deviceId: Option<string>, assurance: int, iat: int, exp: int, jti: string)

  /** What verifying depends on besides the rows: the pinned Core key, as the approvals whose header,
      shape and signature it accepts; what the token store answers, which may forget; whether the
      freshly signed capability verifies; and the random id of that capability. */
  datatype Surroundings = Surroundings(
    pinnedKey: Option<Approval -> bool>, jtiAllowed: bool, selfCheck: bool, capabilityJti: string)

  datatype ApprovalError =
    | ChallengeNotFound | NotInValidState(status: Status) | ChallengeExpired | KeyNotConfigured | OperationNotApprovable
    | ApprovalRejected | ApprovalAlreadyUsed | SigningFailed

  /** The approval is Core's, for exactly this challenge, and inside a short window. */
  predicate ApprovalIsFor(a: Approval, key: Approval -> bool, c: Challenge, now: int) {
    var p, b := a.payload, c.binding;
    && key(a) && p.exp > now / 1000 && p.exp - p.iat <= MAX_APPROVAL_TTL_SECONDS
    && c.id != "" && p.challengeId == c.id
    && b.userId != "" && p.userId == b.userId
    && b.resourceId != "" && p.resourceId == b.resourceId
    && b.operation != "" && p.operation == b.operation
    && b.secretRef != "" && p.secretRef == b.secretRef
  }

  function CapabilityFor(c: Challenge, deviceId: Option<string>, jti: string, now: int): Capability {
    Capability(c.binding, if c.deviceId.Some? then c.deviceId else deviceId, 3, now / 1000,
               now / 1000 + CAPABILITY_TTL_SECONDS, jti)
  }

  function VerifyApproval(rows: Rows, id: string, a: Approval, deviceId: Option<string>, x: Surroundings, now: int)
    : Result<Capability, ApprovalError>
  {
    if id !in rows then Failure(ChallengeNotFound)
    else
      var c := rows[id];
      if !IsOutstanding(c.status) then Failure(NotInValidState(c.status))
      else if now > c.expiresAt then Failure(ChallengeExpired)
      else if x.pinnedKey.None? then Failure(KeyNotConfigured)
      else if c.binding.operation !in APPROVAL_OPERATIONS then Failure(OperationNotApprovable)
      else if !ApprovalIsFor(a, x.pinnedKey.value, c, now) then Failure(ApprovalRejected)
      else if !x.jtiAllowed then Failure(ApprovalAlreadyUsed)
      else if !x.selfCheck then Failure(SigningFailed)
      else Success(CapabilityFor(c, deviceId, x.capabilityJti, now))
  }

  /** A success completes the challenge; being too late marks it expired; nothing else is written. */
  function AfterApproval(rows: Rows, id: string, r: Result<Capability, ApprovalError>, now: int): Rows {
    if id !in rows then rows
    else match r
      case Success(_) => rows[id := rows[id].(status := Completed, completedAt := Some(now), updatedAt := now)]
      case Failure(ChallengeExpired) => rows[id := rows[id].(status := Expired, updatedAt := now)]
      case Failure(_) => rows
  }

  /** The cleanup job deletes rows past their expiry. */
  function AfterCleanup(rows: Rows, now: int): Rows {
    map id | id in rows && rows[id].expiresAt > now :: rows[id]
  }

  // ---- The program ----

  class ChallengeService {
    /** The challenge table. */
    var rows: map<string, Challenge>

    constructor ()
      ensures rows == map[]
    {
      rows := map[];
    }

    /** The first row that qualifies, newest first as the table is read. */
    method Find(qualifies: Challenge -> bool) returns (found: Option<Challenge>)
      ensures Finds(rows, qualifies, found)
    {
      found := None;
      ghost var at := "";
      var left := rows.Keys;
      while left != {}
        invariant left <= rows.Keys
        invariant found.Some? ==> at in rows && rows[at] == found.value && qualifies(found.value)
        invariant forall id :: id in rows && id !in left && qualifies(rows[id]) ==>
                                 found.Some? && rows[id].createdAt <= found.value.createdAt
        decreases left
      {
        var id :| id in left;
        if qualifies(rows[id]) && (found.None? || found.value.createdAt <= rows[id].createdAt) {
          found := Some(rows[id]);
          at := id;
        }
        left := left - {id};
      }
    }

    method FindOutstandingChallenge(b: Binding, now: int) returns (found: Option<Challenge>)
      ensures Finds(rows, OutstandingFor(b, now), found)
    {
      found := Find(OutstandingFor(b, now));
    }

    method FindCompletedChallenge(b: Binding, now: int) returns (found: Option<Challenge>)
      ensures Finds(rows, ProvenFor(b, now), found)
    {
      found := Find(ProvenFor(b, now));
    }

    /** `id` is the random id a new challenge gets; `emailSent` says whether the email goes out. */
    method CreateChallenge(input: CreateInput, id: string, emailSent: bool, now: int) returns (r: Created)
      modifies this
      ensures Creates(old(rows), input, id, emailSent, now, r, rows)
    {
      var outstanding := FindOutstandingChallenge(input.binding, now);
      if outstanding.Some? {
        return Created(outstanding.value.id, outstanding.value.expiresAt);
      }
      var challenge := Challenge(id, input.binding, input.deviceId, input.kind, Pending, None, None,
                                 now + DEFAULT_TTL_MS, now, now);
      rows := rows[id := challenge];
      if !emailSent {
        assert Finds(old(rows), OutstandingFor(input.binding, now), None);
        return EmailFailed;
      }
      challenge := challenge.(status := EmailSent, emailSentAt := Some(now), updatedAt := now);
      rows := rows[id := challenge];
      assert Finds(old(rows), OutstandingFor(input.binding, now), None);
      return Created(id, challenge.expiresAt);
    }

    method VerifyApprovalAndMint(id: string, a: Approval, deviceId: Option<string>, x: Surroundings, now: int)
      returns (r: Result<Capability, ApprovalError>)
      modifies this
      ensures r == VerifyApproval(old(rows), id, a, deviceId, x, now)
      ensures rows == AfterApproval(old(rows), id, r, now)
    {
      if id !in rows {
        return Failure(ChallengeNotFound);
      }
      var challenge := rows[id];
      if !IsOutstanding(challenge.status) {
        return Failure(NotInValidState(challenge.status));
      }
      if now > challenge.expiresAt {
        challenge := challenge.(status := Expired, updatedAt := now);
        rows := rows[id := challenge];
        return Failure(ChallengeExpired);
      }
      if x.pinnedKey.None? {
        return Failure(KeyNotConfigured);
      }
      if challenge.binding.operation !in APPROVAL_OPERATIONS {
        return Failure(OperationNotApprovable);
      }
      if !ApprovalIsFor(a, x.pinnedKey.value, challenge, now) {
        return Failure(ApprovalRejected);
      }
      if !x.jtiAllowed {
        return Failure(ApprovalAlreadyUsed);
      }
      var capability := CapabilityFor(challenge, deviceId, x.capabilityJti, now);
      if !x.selfCheck {
        return Failure(SigningFailed);
      }
      challenge := challenge.(status := Completed, completedAt := Some(now), updatedAt := now);
      rows := rows[id := challenge];
      return Success(capability);
    }

    method CleanupExpired(now: int)
      modifies this
      ensures rows == AfterCleanup(old(rows), now)
    {
      rows := map id | id in rows && rows[id].expiresAt > now :: rows[id];
    }
  }

  // ---- The cleanup ----

  /** From then on the cleanup cannot be noticed: whatever is found later, outstanding or proven, is what
      would have been found without it. */
  lemma CleanupIsInvisible(rows: Rows, b: Binding, now: int, later: int, found: Option<Challenge>)
    requires now <= later
    ensures Finds(AfterCleanup(rows, now), ProvenFor(b, later), found) <==> Finds(rows, ProvenFor(b, later), found)
    ensures Finds(AfterCleanup(rows, now), OutstandingFor(b, later), found)
            <==> Finds(rows, OutstandingFor(b, later), found)
  {
    var kept := AfterCleanup(rows, now);
    forall id | id in rows && (ProvenFor(b, later)(rows[id]) || OutstandingFor(b, later)(rows[id]))
      ensures id in kept && kept[id] == rows[id]
    {
    }
    forall id | id in kept
      ensures id in rows && kept[id] == rows[id]
    {
    }
  }

  /** Nor can an approval, but for one case: a challenge is still approved at the very instant it expires,
      and by then the cleanup may have taken it. */
  lemma CleanupSparesApprovals(rows: Rows, id: string, a: Approval, deviceId: Option<string>, x: Surroundings,
                               now: int, later: int)
    requires now <= later
    ensures VerifyApproval(AfterCleanup(rows, now), id, a, deviceId, x, later).Success?
            <==> VerifyApproval(rows, id, a, deviceId, x, later).Success? && rows[id].expiresAt > now
  {
  }

  // ---- One approval ----

  /** The approval names exactly this challenge and its binding, of which no part is empty. */
  predicate Names(a: ApprovalPayload, c: Challenge) {
    var b := c.binding;
    && a.challengeId == c.id && a.userId == b.userId && a.resourceId == b.resourceId
    && a.operation == b.operation && a.secretRef == b.secretRef
    && "" !in {c.id, b.userId, b.resourceId, b.operation, b.secretRef}
  }

  /** Exactly when an approval mints: for a stored challenge that waits, up to the instant it expires, of an
      operation that can be approved; with Core's signature over its own fields; not yet expired, in whole
      seconds, and made to last at most ten minutes; under an id that is new; and if the capability verifies. */
  lemma MintsIff(rows: Rows, id: string, a: Approval, deviceId: Option<string>, x: Surroundings, now: int)
    ensures VerifyApproval(rows, id, a, deviceId, x, now).Success? <==>
              && id in rows && rows[id].status in {Pending, EmailSent, UrlAccessed} && now <= rows[id].expiresAt
              && rows[id].binding.operation in {"AUTOFILL", "TOTP", "EXPORT_SECRET"}
              && x.pinnedKey.Some? && x.pinnedKey.value(a) && Names(a.payload, rows[id])
              && now / 1000 < a.payload.exp <= a.payload.iat + 600
              && x.jtiAllowed && x.selfCheck
  {
  }

  /** What a mint gives, and the row it leaves; nothing else in the table changes. */
  lemma MintGives(rows: Rows, id: string, a: Approval, deviceId: Option<string>, x: Surroundings, now: int)
    requires VerifyApproval(rows, id, a, deviceId, x, now).Success?
    ensures var r, c := VerifyApproval(rows, id, a, deviceId, x, now), rows[id];
            && r.value == Capability(c.binding, if c.deviceId == None then deviceId else c.deviceId, 3,
                                     now / 1000, now / 1000 + 300, x.capabilityJti)
            && AfterApproval(rows, id, r, now)
               == rows[id := Challenge(c.id, c.binding, c.deviceId, c.kind, Completed, c.emailSentAt, Some(now),
                                       c.expiresAt, c.createdAt, now)]
  {
  }

  /** The refusals in their order, and what each leaves: only one that comes after the expiry writes. */
  lemma RefusesIff(rows: Rows, id: string, a: Approval, deviceId: Option<string>, x: Surroundings, now: int)
    requires VerifyApproval(rows, id, a, deviceId, x, now).Failure?
    ensures var r := VerifyApproval(rows, id, a, deviceId, x, now);
            var rows' := AfterApproval(rows, id, r, now);
            if id !in rows then r.error == ChallengeNotFound && rows' == rows
            else
              var c := rows[id];
              if c.status in {Completed, Expired, Failed} then r.error == NotInValidState(c.status) && rows' == rows
              else if c.expiresAt < now then
                r.error == ChallengeExpired && rows' == rows[id := c.(status := Expired, updatedAt := now)]
              else
                && rows' == rows
                && r.error == if x.pinnedKey == None then KeyNotConfigured
                              else if c.binding.operation !in {"AUTOFILL", "TOTP", "EXPORT_SECRET"} then
                                OperationNotApprovable
                              else if !x.pinnedKey.value(a) || !Names(a.payload, c)
                                      || a.payload.exp <= now / 1000 || a.payload.iat + 600 < a.payload.exp then
                                ApprovalRejected
                              else if !x.jtiAllowed then ApprovalAlreadyUsed
                              else SigningFailed
  {
    if id in rows && !rows[id].status.Completed? && !rows[id].status.Expired? && !rows[id].status.Failed? {
      assert rows[id].status in {Pending, EmailSent, UrlAccessed};
    }
  }

  /** A challenge that is made lasts ten minutes, is for what was asked, and waits for its email to go out; asking
      again while it waits gives it again. */
  lemma CreatedLasts(rows: Rows, input: CreateInput, id: string, emailSent: bool, now: int, r: Created, rows': Rows)
    requires Creates(rows, input, id, emailSent, now, r, rows') && id !in rows
    ensures (exists k :: k in rows && Outstanding(rows[k], input.binding, now)) ==>
              rows' == rows && exists k :: k in rows && Outstanding(rows[k], input.binding, now)
                                           && r == Created(rows[k].id, rows[k].expiresAt)
    ensures (forall k :: k in rows ==> !Outstanding(rows[k], input.binding, now)) ==>
              && rows' - {id} == rows && id in rows'
              && rows'[id] == Challenge(id, input.binding, input.deviceId, input.kind,
                                        if emailSent then EmailSent else Pending,
                                        if emailSent then Some(now) else None, None, now + 600_000, now, now)
              && r == if emailSent then Created(id, now + 600_000) else EmailFailed
  {
    var found :| Finds(rows, OutstandingFor(input.binding, now), found)
      && match found
         case Some(c) => r == Created(c.id, c.expiresAt) && rows' == rows
         case None =>
           && rows' == rows[id := NewRow(input, id, emailSent, now)]
           && r == if emailSent then Created(id, now + DEFAULT_TTL_MS) else EmailFailed;
    forall k | k in rows && Outstanding(rows[k], input.binding, now)
      ensures found.Some?
    {
      assert OutstandingFor(input.binding, now)(rows[k]);
    }
  }

  /** A capability is minted only for a stored, outstanding, unexpired challenge and an approval Core
      signed for that very challenge; it carries the stored binding at assurance 3; and it
      leaves the challenge completed. */
  lemma MintedCapability(rows: Rows, id: string, a: Approval, deviceId: Option<string>, x: Surroundings, now: int)
    requires VerifyApproval(rows, id, a, deviceId, x, now).Success?
    ensures var cap := VerifyApproval(rows, id, a, deviceId, x, now).value;
            && id in rows && IsOutstanding(rows[id].status) && now <= rows[id].expiresAt
            && x.pinnedKey.Some? && x.pinnedKey.value(a)
            && cap.binding == rows[id].binding && cap.assurance == 3
            && cap.binding == Binding(a.payload.userId, a.payload.resourceId, a.payload.operation, a.payload.secretRef)
            && cap.binding.operation in APPROVAL_OPERATIONS
            && cap.exp == cap.iat + CAPABILITY_TTL_SECONDS
            && AfterApproval(rows, id, Success(cap), now)[id].status.Completed?
    ensures id in rows && rows[id].id == id ==> a.payload.challengeId == id
  {
  }
}
