/** The decision taken before a capability is issued, plus/api/server.ts: entitlement, risk, and a
  third factor where the state, the risk or the requested assurance calls for one. */
module CapabilityGate {
  import opened Outcomes
  import E = Entitlement
  import R = RiskEngine
  import C = Challenges

  /** The request, with what the route reads out of its untyped context. */
  datatype Request = Request(
    binding: C.Binding, deviceId: Option<string>, assurance: int, country: Option<string>, timestamp: Option<int>,
    riskScore: Option<real>, challengeId: Option<string>)

  /** The entitlement by user and resource, and the habitual countries of each known user. */
  datatype Directory = Directory(entitlements: map<(string, string), E.Entitlement>, users: map<string, seq<string>>)

  datatype Reason =
    | NoEntitlement | PestilloClosed | OperationNotAllowed | UnknownUser | RiskDenied | ChallengeNotSatisfied

  datatype Verdict = Deny(reason: Reason) | Challenge(challengeId: string, expiresAt: int) | Allow | ServerError

  function Presented(s: Option<string>): Option<string> {
    if R.Given(s) then s else None
  }

  /** The route knows no resource and no history: a medium resource is scored, without history. */
  function RiskContext(q: Request, habitual: seq<string>, state: E.PestilloState, now: int): R.Context {
    R.Context(q.binding.userId, habitual, q.binding.operation, "medium", state, Presented(q.country), q.deviceId,
              if q.timestamp.Some? then q.timestamp.value else now, None)
  }

  /** The client's score is a floor: it can turn an allow into a challenge and nothing else. */
  function WithClientScore(server: R.Decision, clientScore: real, p: R.Policy): R.Decision {
    if server.Allow? && clientScore > p.thresholds.allow then R.Challenge else server
  }

  function ClientScore(q: Request): real {
    if q.riskScore.Some? then q.riskScore.value else 0.0
  }

  datatype Gate = Refuse(reason: Reason) | Pass | NeedFactor(kind: C.ChallengeType)

  /** The decision up to the third factor. */
  function Decide(d: Directory, p: R.Policy, last: map<string, R.Location>, q: Request, now: int): Gate {
    var key := (q.binding.userId, q.binding.resourceId);
    if key !in d.entitlements then Refuse(NoEntitlement)
    else
      var e := d.entitlements[key];
      var state := E.EffectiveState(e, now);
      if state.Closed? then Refuse(PestilloClosed)
      else if !E.IsOperationAllowed(e, q.binding.operation) then Refuse(OperationNotAllowed)
      else if q.binding.userId !in d.users then Refuse(UnknownUser)
      else
        var evaluation := R.Evaluate(RiskContext(q, d.users[q.binding.userId], state, now), p, last, now);
        var decision := WithClientScore(evaluation.decision, ClientScore(q), p);
        if decision.Deny? then Refuse(RiskDenied)
        else if state.StepUp? || decision.Challenge? || q.assurance == 3 then
          NeedFactor(if state.StepUp? then C.StepUp else C.RiskBased)
        else Pass
  }

  /** A factor is satisfied by a proven challenge, which a caller that names one must name; without
      one the answer is a challenge to prove. */
  ghost predicate Resolves(rows: C.Rows, q: Request, kind: C.ChallengeType, id: string, emailSent: bool, now: int,
                           v: Verdict, rows': C.Rows)
  {
    exists proven :: C.Finds(rows, C.ProvenFor(q.binding, now), proven)
      && match proven
         case Some(c) =>
           && rows' == rows
           && v == if Presented(q.challengeId).Some? && Presented(q.challengeId).value != c.id
                   then Deny(ChallengeNotSatisfied) else Allow
         case None =>
           exists r :: C.Creates(rows, C.CreateInput(q.binding, q.deviceId, kind), id, emailSent, now, r, rows')
             && v == match r
                     case Created(challengeId, expiresAt) => Challenge(challengeId, expiresAt)
                     case EmailFailed => ServerError
  }

  ghost predicate Authorizes(rows: C.Rows, d: Directory, p: R.Policy, last: map<string, R.Location>, q: Request,
                             id: string, emailSent: bool, now: int, v: Verdict, rows': C.Rows)
  {
    match Decide(d, p, last, q, now)
    case Refuse(reason) => v == Deny(reason) && rows' == rows
    case Pass => v == Allow && rows' == rows
    case NeedFactor(kind) => Resolves(rows, q, kind, id, emailSent, now, v, rows')
  }

  // ---- The program ----

  class PlusApiServer {
    var directory: Directory
    const riskEngine: R.AdaptiveRiskEngine
    const challengeService: C.ChallengeService

    constructor (directory: Directory, riskEngine: R.AdaptiveRiskEngine, challengeService: C.ChallengeService)
      ensures this.directory == directory
      ensures this.riskEngine == riskEngine && this.challengeService == challengeService
    {
      this.directory := directory;
      this.riskEngine := riskEngine;
      this.challengeService := challengeService;
    }

    method AuthorizeCapabilityRequest(q: Request, id: string, emailSent: bool, now: int) returns (v: Verdict)
      modifies riskEngine`lastKnownLocation, challengeService
      ensures Authorizes(old(challengeService.rows), directory, riskEngine.policy, old(riskEngine.lastKnownLocation),
                         q, id, emailSent, now, v, challengeService.rows)
    {
      var key := (q.binding.userId, q.binding.resourceId);
      if key !in directory.entitlements {
        return Deny(NoEntitlement);
      }
      var entitlement := directory.entitlements[key];
      var state := E.EffectiveState(entitlement, now);
      if state == E.Closed {
        return Deny(PestilloClosed);
      }
      if !E.IsOperationAllowed(entitlement, q.binding.operation) {
        return Deny(OperationNotAllowed);
      }
      if q.binding.userId !in directory.users {
        return Deny(UnknownUser);
      }
      var evaluation := riskEngine.EvaluateRequest(
        RiskContext(q, directory.users[q.binding.userId], state, now), now);
      var clientScore := if q.riskScore.Some? then q.riskScore.value else 0.0;
      var decision := if evaluation.decision == R.Allow && clientScore > riskEngine.policy.thresholds.allow
                      then R.Challenge else evaluation.decision;
      if decision == R.Deny {
        return Deny(RiskDenied);
      }
      var thirdFactorRequired := state == E.StepUp || decision == R.Challenge || q.assurance == 3;
      if !thirdFactorRequired {
        return Allow;
      }
      v := ResolveThirdFactor(q, if state == E.StepUp then C.StepUp else C.RiskBased, id, emailSent, now);
    }

    method ResolveThirdFactor(q: Request, kind: C.ChallengeType, id: string, emailSent: bool, now: int)
      returns (v: Verdict)
      modifies challengeService
      ensures Resolves(old(challengeService.rows), q, kind, id, emailSent, now, v, challengeService.rows)
    {
      var proven := challengeService.FindCompletedChallenge(q.binding, now);
      if proven.None? {
        var created := challengeService.CreateChallenge(C.CreateInput(q.binding, q.deviceId, kind), id, emailSent, now);
        return match created
          case Created(challengeId, expiresAt) => Challenge(challengeId, expiresAt)
          case EmailFailed => ServerError;
      }
      var presented := Presented(q.challengeId);
      if presented.Some? && presented.value != proven.value.id {
        return Deny(ChallengeNotSatisfied);
      }
      return Allow;
    }
  }

  // ---- The answer to one request, read from its fields ----

  /** The entitlement is open at `now`, allows the operation, and the user is known. */
  ghost predicate Serves(d: Directory, q: Request, now: int) {
    var key := (q.binding.userId, q.binding.resourceId);
    && key in d.entitlements && q.binding.userId in d.users
    && var e := d.entitlements[key];
       && e.pestilloState in {E.Enabled, E.StepUp, E.Temporary}
       && (e.validFrom.Some? ==> e.validFrom.value <= now) && (e.validUntil.Some? ==> now < e.validUntil.value)
       && q.binding.operation in e.allowedOperations
  }

  /** The risk factors of a request that an entitlement in this state serves: a medium resource, no history, and
      the instant the client states, or else now. */
  function FactorsOf(d: Directory, p: R.Policy, last: map<string, R.Location>, q: Request, now: int): seq<R.Factor>
    requires (q.binding.userId, q.binding.resourceId) in d.entitlements && q.binding.userId in d.users
  {
    var state := d.entitlements[(q.binding.userId, q.binding.resourceId)].pestilloState;
    R.Factors(R.Context(q.binding.userId, d.users[q.binding.userId], q.binding.operation, "medium", state,
                        if q.country == Some("") then None else q.country, q.deviceId,
                        match q.timestamp case Some(t) => t case None => now, None),
              p, last, now)
  }

  /** Whether the state, the server's own score, the client's or the assurance asks for a third factor. */
  ghost predicate CallsForFactor(d: Directory, p: R.Policy, last: map<string, R.Location>, q: Request, now: int) {
    var key := (q.binding.userId, q.binding.resourceId);
    || q.assurance == 3
    || p.thresholds.allow < (match q.riskScore case Some(score) => score case None => 0.0)
    || (key in d.entitlements && d.entitlements[key].pestilloState.StepUp?)
    || (key in d.entitlements && q.binding.userId in d.users
        && !R.ScoreAtMost(FactorsOf(d, p, last, q, now), p.thresholds.allow))
  }

  /** Above both thresholds, in a state that leaves the decision to the score. */
  ghost predicate TooRisky(d: Directory, p: R.Policy, last: map<string, R.Location>, q: Request, now: int)
    requires Serves(d, q, now)
  {
    var fs := FactorsOf(d, p, last, q, now);
    && !d.entitlements[(q.binding.userId, q.binding.resourceId)].pestilloState.StepUp?
    && !R.ScoreAtMost(fs, p.thresholds.allow) && !R.ScoreAtMost(fs, p.thresholds.challenge)
  }

  lemma DecideIs(d: Directory, p: R.Policy, last: map<string, R.Location>, q: Request, now: int)
    ensures Decide(d, p, last, q, now).Refuse? <==> !Serves(d, q, now) || TooRisky(d, p, last, q, now)
    ensures Serves(d, q, now) ==> (Decide(d, p, last, q, now) == Refuse(RiskDenied) <==> TooRisky(d, p, last, q, now))
    ensures Serves(d, q, now) && !TooRisky(d, p, last, q, now) ==>
              (Decide(d, p, last, q, now).NeedFactor? <==> CallsForFactor(d, p, last, q, now))
  {
    var key := (q.binding.userId, q.binding.resourceId);
    if Serves(d, q, now) {
      var state := d.entitlements[key].pestilloState;
      assert E.EffectiveState(d.entitlements[key], now) == state;
      var c := RiskContext(q, d.users[q.binding.userId], state, now);
      assert R.Evaluate(c, p, last, now).factors == FactorsOf(d, p, last, q, now);
      R.BandsIff(c, p, last, now);
    }
  }

  /** The refusals, each with exactly its case, in this order; a request that is refused writes nothing. */
  lemma RefusalsIff(rows: C.Rows, d: Directory, p: R.Policy, last: map<string, R.Location>, q: Request,
                    id: string, emailSent: bool, now: int, v: Verdict, rows': C.Rows)
    requires Authorizes(rows, d, p, last, q, id, emailSent, now, v, rows')
    ensures var key := (q.binding.userId, q.binding.resourceId);
            if key !in d.entitlements then v == Deny(NoEntitlement) && rows' == rows
            else
              var e := d.entitlements[key];
              if e.pestilloState.Closed? || (e.validFrom.Some? && now < e.validFrom.value)
                 || (e.validUntil.Some? && e.validUntil.value <= now)
              then v == Deny(PestilloClosed) && rows' == rows
              else if q.binding.operation !in e.allowedOperations then v == Deny(OperationNotAllowed) && rows' == rows
              else if q.binding.userId !in d.users then v == Deny(UnknownUser) && rows' == rows
              else
                && Serves(d, q, now)
                && (TooRisky(d, p, last, q, now) ==> v == Deny(RiskDenied) && rows' == rows)
                && (!TooRisky(d, p, last, q, now) ==> v.Deny? ==> v == Deny(ChallengeNotSatisfied))
  {
    DecideIs(d, p, last, q, now);
  }

  /** Without a proven, unexpired challenge for its binding a request is allowed exactly when it is served, is not
      too risky, and nothing calls for a third factor; then nothing is written. */
  lemma UnprovenAllowIff(rows: C.Rows, d: Directory, p: R.Policy, last: map<string, R.Location>, q: Request,
                         id: string, emailSent: bool, now: int, v: Verdict, rows': C.Rows)
    requires Authorizes(rows, d, p, last, q, id, emailSent, now, v, rows')
    requires forall proof :: proof in rows ==> !C.Proven(rows[proof], q.binding, now)
    ensures v == Allow <==>
              Serves(d, q, now) && !TooRisky(d, p, last, q, now) && !CallsForFactor(d, p, last, q, now)
    ensures v == Allow ==> rows' == rows
  {
    DecideIs(d, p, last, q, now);
    if v == Allow && CallsForFactor(d, p, last, q, now) {
      AllowNeedsProof(rows, d, p, last, q, id, emailSent, now, rows');
    }
  }

  /** The state, the score and the assurance decide whether a factor is needed: for a request that is not refused,
      the gate asks for one exactly when one of them does. */
  lemma FactorRequiredIff(d: Directory, p: R.Policy, last: map<string, R.Location>, q: Request, now: int)
    requires !Decide(d, p, last, q, now).Refuse?
    ensures Decide(d, p, last, q, now).NeedFactor? <==> CallsForFactor(d, p, last, q, now)
  {
    DecideIs(d, p, last, q, now);
  }

  /** Allowing a factor-bound request takes a challenge that is proven and unexpired for exactly the
      requested binding, and is the one the request names, if it names one. */
  lemma AllowNeedsProof(rows: C.Rows, d: Directory, p: R.Policy, last: map<string, R.Location>, q: Request,
                        id: string, emailSent: bool, now: int, rows': C.Rows)
    requires Authorizes(rows, d, p, last, q, id, emailSent, now, Allow, rows')
    requires CallsForFactor(d, p, last, q, now)
    ensures exists proof :: proof in rows && C.Proven(rows[proof], q.binding, now)
                            && (q.challengeId in {None, Some("")} || q.challengeId == Some(rows[proof].id))
  {
    DecideIs(d, p, last, q, now);
  }

  /** For a request that names no challenge the proof is also enough, and the allow does not use it
      up: the same proof serves every such request until it expires. */
  lemma AllowIffProven(rows: C.Rows, d: Directory, p: R.Policy, last: map<string, R.Location>, q: Request,
                       id: string, emailSent: bool, now: int, v: Verdict, rows': C.Rows)
    requires Authorizes(rows, d, p, last, q, id, emailSent, now, v, rows')
    requires Serves(d, q, now) && !TooRisky(d, p, last, q, now) && CallsForFactor(d, p, last, q, now)
    requires q.challengeId in {None, Some("")}
    ensures v == Allow <==> exists proof :: proof in rows && C.Proven(rows[proof], q.binding, now)
    ensures v == Allow ==> rows' == rows
  {
    DecideIs(d, p, last, q, now);
    var proven :| C.Finds(rows, C.ProvenFor(q.binding, now), proven)
      && match proven
         case Some(c) => v == Allow && rows' == rows
         case None => v != Allow;
    NoneProven(rows, q.binding, now, proven);
  }

  /** A request that names a challenge has to name the newest one that is proven for its binding. */
  lemma NamedAllowIff(rows: C.Rows, d: Directory, p: R.Policy, last: map<string, R.Location>, q: Request, id: string,
                      emailSent: bool, now: int, v: Verdict, rows': C.Rows, newest: string, named: string)
    requires Authorizes(rows, d, p, last, q, id, emailSent, now, v, rows')
    requires Serves(d, q, now) && !TooRisky(d, p, last, q, now) && CallsForFactor(d, p, last, q, now)
    requires q.challengeId == Some(named) && named != ""
    requires newest in rows && C.Proven(rows[newest], q.binding, now)
    requires forall k :: k in rows && k != newest && C.Proven(rows[k], q.binding, now) ==>
                           rows[k].createdAt < rows[newest].createdAt
    ensures rows' == rows && v == if named == rows[newest].id then Allow else Deny(ChallengeNotSatisfied)
  {
    DecideIs(d, p, last, q, now);
    var proven :| C.Finds(rows, C.ProvenFor(q.binding, now), proven)
      && match proven
         case Some(c) =>
           && rows' == rows
           && v == if Presented(q.challengeId).Some? && Presented(q.challengeId).value != c.id
                   then Deny(ChallengeNotSatisfied) else Allow
         case None => true;
    NoneProven(rows, q.binding, now, proven);
    var k :| k in rows && rows[k] == proven.value;
    assert C.ProvenFor(q.binding, now)(rows[newest]) && C.Proven(rows[k], q.binding, now);
  }

  lemma NoneProven(rows: C.Rows, b: C.Binding, now: int, proven: Option<C.Challenge>)
    requires C.Finds(rows, C.ProvenFor(b, now), proven)
    ensures proven.None? <==> forall proof :: proof in rows ==> !C.Proven(rows[proof], b, now)
  {
    if proven.None? {
      forall proof | proof in rows
        ensures !C.Proven(rows[proof], b, now)
      {
        assert !C.ProvenFor(b, now)(rows[proof]);
      }
    }
  }

  /** A challenge that is handed out waits to be proven, for the requested binding: an unexpired one that was there,
      or a new one that lasts ten minutes and says what asked for it. */
  lemma ChallengeIsAnswerable(rows: C.Rows, d: Directory, p: R.Policy, last: map<string, R.Location>, q: Request,
                              id: string, emailSent: bool, now: int, v: Verdict, rows': C.Rows) returns (row: string)
    requires Authorizes(rows, d, p, last, q, id, emailSent, now, v, rows') && v.Challenge?
    ensures row in rows'
    ensures var c := rows'[row];
            && c.id == v.challengeId && c.expiresAt == v.expiresAt && now < c.expiresAt && c.binding == q.binding
            && c.status in {C.Pending, C.EmailSent, C.UrlAccessed}
            && if row in rows && rows[row] == c then rows' == rows
               else
                 && row == id && rows' == rows[id := c] && c.expiresAt == now + 600_000 && c.status == C.EmailSent
                 && c.kind == (if d.entitlements[(q.binding.userId, q.binding.resourceId)].pestilloState.StepUp?
                               then C.StepUp else C.RiskBased)
  {
    DecideIs(d, p, last, q, now);
    var kind := Decide(d, p, last, q, now).kind;
    var input := C.CreateInput(q.binding, q.deviceId, kind);
    var created :| C.Creates(rows, input, id, emailSent, now, created, rows')
      && v == match created
              case Created(challengeId, expiresAt) => Challenge(challengeId, expiresAt)
              case EmailFailed => ServerError;
    var found :| C.Finds(rows, C.OutstandingFor(q.binding, now), found)
      && match found
         case Some(c) => created == C.Created(c.id, c.expiresAt) && rows' == rows
         case None =>
           && rows' == rows[id := C.NewRow(input, id, emailSent, now)]
           && created == if emailSent then C.Created(id, now + C.DEFAULT_TTL_MS) else C.EmailFailed;
    if found.Some? {
      row :| row in rows && rows[row] == found.value;
    } else {
      row := id;
    }
  }

  // ---- Examples ----

  const EXPORT_REQUEST := Request(C.Binding("u", "r", "EXPORT_SECRET", "s"), Some("phone"), 1, Some("RU"),
                                  Some(259_200_000), None, None)

  const EXPORT_DIRECTORY := Directory(map[("u", "r") := E.Entitlement(E.Enabled, {"EXPORT_SECRET"}, None, None)],
                                      map["u" := ["US"]])

  lemma SundayExportScores(last: map<string, R.Location>, now: int)
    ensures R.WeightedScore(FactorsOf(EXPORT_DIRECTORY, R.DEFAULT_RISK_POLICY, last, EXPORT_REQUEST, now)) == 30.5
  {
    var p := R.DEFAULT_RISK_POLICY;
    var c := R.Context("u", ["US"], "EXPORT_SECRET", "medium", E.Enabled, Some("RU"), Some("phone"), 259_200_000, None);
    R.DefaultScore(c, last, now);
    R.DefaultMultiplierScores(c);
    R.DefaultFactorBounds(c, last);
    assert R.Upper("RU") == "RU" && R.Upper("US") == "US" && "US"[0] != "RU"[0];
    assert p.countryRisk["RU"] == 60.0;
  }

  /** Under the default policy the export of a secret from an unusual country on a Sunday, from a new device,
      scores 30.5: it is challenged, whatever the entitlement allows, as long as nothing is proven. */
  lemma SundayExportIsChallenged(rows: C.Rows, last: map<string, R.Location>, id: string, now: int, v: Verdict,
                                 rows': C.Rows)
    requires Authorizes(rows, EXPORT_DIRECTORY, R.DEFAULT_RISK_POLICY, last, EXPORT_REQUEST, id, true, now, v, rows')
    requires forall proof :: proof in rows ==> !C.Proven(rows[proof], EXPORT_REQUEST.binding, now)
    ensures v.Challenge?
  {
    var d, p, q := EXPORT_DIRECTORY, R.DEFAULT_RISK_POLICY, EXPORT_REQUEST;
    SundayExportScores(last, now);
    R.ScoreAtMostIff(FactorsOf(d, p, last, q, now), 30.0);
    R.ScoreAtMostIff(FactorsOf(d, p, last, q, now), 70.0);
    DecideIs(d, p, last, q, now);
  }

  // ---- What plays no part ----

  /** Raising the score the client declares never opens the gate: whoever is allowed at the higher
      score is allowed at the lower one, in the same circumstances. */
  lemma ClientScoreOnlyRaisesRisk(d: Directory, p: R.Policy, last: map<string, R.Location>, q: Request, now: int,
                                  lower: real, higher: real)
    requires lower <= higher
    ensures var atLower := Decide(d, p, last, q.(riskScore := Some(lower)), now);
            var atHigher := Decide(d, p, last, q.(riskScore := Some(higher)), now);
            && (atHigher.Pass? ==> atLower.Pass?)
            && (atHigher.Refuse? <==> atLower.Refuse?)
            && (atLower.NeedFactor? ==> atHigher == atLower)
  {
    var key := (q.binding.userId, q.binding.resourceId);
    if key in d.entitlements && q.binding.userId in d.users {
      var state := E.EffectiveState(d.entitlements[key], now);
      assert RiskContext(q.(riskScore := Some(lower)), d.users[q.binding.userId], state, now)
          == RiskContext(q.(riskScore := Some(higher)), d.users[q.binding.userId], state, now);
    }
  }

  /** Where the users were last seen plays no part: the route never passes a history. */
  lemma LocationIsIrrelevant(d: Directory, p: R.Policy, last: map<string, R.Location>, last': map<string, R.Location>,
                             q: Request, now: int)
    ensures Decide(d, p, last, q, now) == Decide(d, p, last', q, now)
  {
    var key := (q.binding.userId, q.binding.resourceId);
    if key in d.entitlements && q.binding.userId in d.users {
      var state := E.EffectiveState(d.entitlements[key], now);
      var c := RiskContext(q, d.users[q.binding.userId], state, now);
      assert R.Velocity(c, p, last) == R.Velocity(c, p, last');
      assert R.Factors(c, p, last, now) == R.Factors(c, p, last', now);
    }
  }

  /** Under the default policy no request is refused for its risk: the states in which a score could
      deny are the ones whose score never gets there. */
  lemma DefaultPolicyNeverDeniesForRisk(d: Directory, last: map<string, R.Location>, q: Request, now: int)
    ensures Decide(d, R.DEFAULT_RISK_POLICY, last, q, now) != Refuse(RiskDenied)
  {
    var key := (q.binding.userId, q.binding.resourceId);
    if key in d.entitlements && q.binding.userId in d.users {
      var state := E.EffectiveState(d.entitlements[key], now);
      R.DefaultDenyIffClosed(RiskContext(q, d.users[q.binding.userId], state, now), last, now);
    }
  }
}
