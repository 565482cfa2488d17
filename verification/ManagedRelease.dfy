/** Managed release in Core, src/application/use-cases/managed-release.use-case.ts, with the
  capability check of src/infrastructure/crypto/ed25519-capability.ts it starts from. */
module ManagedRelease {
  import opened Outcomes
  import ReplayStore

  const CAPABILITY_VERSION := 1

  datatype Capability = Capability(
    version: int, issuer: string, audience: string, userId: string, resourceId: string, operation: string,
    secretRef: string, deviceId: Option<string>, assurance: int, iat: int, exp: int, jti: string)

  datatype Token = Token(payload: Capability, signature: string, protectedHeader: string)

  /** What the session, the route and Core's own store say the capability must be for. */
  datatype BindingContext = BindingContext(userId: string, resourceId: string, secretRef: string, deviceId: string)

  datatype Input = Input(token: Token, expected: Option<BindingContext>, vaultId: string)

  datatype Credential = Credential(id: string, managed: bool, releaseShareRef: Option<string>, vaultId: string)

  /** What surrounds the use case: the pinned key, as the tokens that verify under it; the
      credentials by the reference they are looked up with; whether the Release Share KEK can be
      derived; and the stored shares, `None` for one that does not unwrap. */
  datatype Deployment = Deployment(
    pinnedKey: Option<Token -> bool>,
    credentials: map<string, Credential>,
    kekAvailable: bool,
    shares: Option<map<string, Option<string>>>)

  datatype Refusal =
    | KeyNotPinned | ContextMissing | VaultMissing
    | InvalidSignature | Expired | NotYetValid | InvalidIssuer | InvalidAudience | InvalidOperation
    | InvalidAssurance | UnsupportedVersion | ContextIncomplete
    | UserMismatch | ResourceMismatch | SecretMismatch | DeviceMismatch
    | OperationNotReleasable | InvalidWindow | InvalidJti | Replay
    | CredentialNotFound | NotManaged | ReferenceMismatch | WrongVault
    | NoShareReference | ShareStoreUnavailable | KekUnavailable | ShareNotFound | UnwrapFailed

  datatype Released = Released(releaseShare: string, credentialId: string)

  // ---- Verifying the capability ----

  const CAPABILITY_OPERATIONS: set<string> := {
    "AUTOFILL", "VIEW", "TOTP", "CONNECT", "READ", "ADMIN", "BACKUP", "RESTORE", "ROTATE_SECRET", "EDIT_SECRET",
    "DELETE_SECRET", "EXPORT_SECRET"}

  const RELEASABLE: set<string> := {"VIEW", "AUTOFILL", "TOTP"}

  const CLOCK_SKEW_SECONDS := 60

  function VerifyBindings(c: Capability, x: BindingContext): Option<Refusal> {
    if x.userId == "" || x.resourceId == "" || x.secretRef == "" then Some(ContextIncomplete)
    else if c.userId != x.userId then Some(UserMismatch)
    else if c.resourceId != x.resourceId then Some(ResourceMismatch)
    else if c.secretRef != x.secretRef then Some(SecretMismatch)
    else if (if c.deviceId.Some? then c.deviceId.value else "") != x.deviceId then Some(DeviceMismatch)
    else None
  }

  /** The first failing check; the token is still good in the second that equals `exp`, and
      already good a minute before `iat`. `now` is in milliseconds. */
  function VerifyCapability(token: Token, key: Token -> bool, x: BindingContext, now: nat): Option<Refusal> {
    var c, nowSeconds := token.payload, now / 1000;
    if !key(token) then Some(InvalidSignature)
    else if c.exp < nowSeconds then Some(Expired)
    else if c.iat > nowSeconds + CLOCK_SKEW_SECONDS then Some(NotYetValid)
    else if c.issuer != "cybervault-plus" then Some(InvalidIssuer)
    else if c.audience != "cybervault-core" then Some(InvalidAudience)
    else if c.operation !in CAPABILITY_OPERATIONS then Some(InvalidOperation)
    else if c.assurance < 1 || c.assurance > 3 then Some(InvalidAssurance)
    else if c.version != CAPABILITY_VERSION then Some(UnsupportedVersion)
    else VerifyBindings(c, x)
  }

  /** Everything before the token id is spent. */
  function Precheck(d: Deployment, input: Input, now: nat): Option<Refusal> {
    if d.pinnedKey.None? then Some(KeyNotPinned)
    else if input.expected.None? then Some(ContextMissing)
    else if input.vaultId == "" then Some(VaultMissing)
    else
      var verified := VerifyCapability(input.token, d.pinnedKey.value, input.expected.value, now);
      if verified.Some? then verified
      else if input.token.payload.operation !in RELEASABLE then Some(OperationNotReleasable)
      else if input.token.payload.exp - input.token.payload.iat <= 0 then Some(InvalidWindow)
      else None
  }

  /** Everything after. */
  function Resolve(d: Deployment, c: Capability, vaultId: string): Result<Released, Refusal> {
    if c.secretRef !in d.credentials then Failure(CredentialNotFound)
    else
      var credential := d.credentials[c.secretRef];
      if !credential.managed then Failure(NotManaged)
      else if credential.releaseShareRef != Some(c.secretRef) then Failure(ReferenceMismatch)
      else if credential.vaultId != vaultId then Failure(WrongVault)
      else match Unwrap(d, credential.releaseShareRef)
        case Failure(e) => Failure(e)
        case Success(share) => Success(Released(share, credential.id))
  }

  function Unwrap(d: Deployment, secretRef: Option<string>): Result<string, Refusal> {
    if secretRef.None? || secretRef.value == "" then Failure(NoShareReference)
    else if d.shares.None? then Failure(ShareStoreUnavailable)
    else if !d.kekAvailable then Failure(KekUnavailable)
    else if secretRef.value !in d.shares.value then Failure(ShareNotFound)
    else match d.shares.value[secretRef.value]
      case None => Failure(UnwrapFailed)
      case Some(share) => Success(share)
  }

  /** The clock is read twice: for the check of the token's window, and when its id is spent. */
  datatype Clock = Clock(checked: nat, spent: nat)

  function Execute(es: ReplayStore.Entries, d: Deployment, input: Input, t: Clock): Result<Released, Refusal> {
    var c := input.token.payload;
    match Precheck(d, input, t.checked)
    case Some(e) => Failure(e)
    case None =>
      match ReplayStore.Admission(es, c.jti, t.spent)
      case Some(InvalidJti) => Failure(InvalidJti)
      case Some(ReplayDetected) => Failure(Replay)
      case None => Resolve(d, c, input.vaultId)
  }

  /** What executing does to the token store. */
  function Spent(es: ReplayStore.Entries, d: Deployment, input: Input, t: Clock): ReplayStore.Entries {
    var c := input.token.payload;
    if Precheck(d, input, t.checked).Some? then es
    else ReplayStore.AfterAdmission(es, c.jti, c.exp - c.iat, t.spent)
  }

  // ---- The program ----

  class UseCase {
    const deployment: Deployment
    const jtiStore: ReplayStore.InMemoryJtiStore

    constructor (deployment: Deployment, jtiStore: ReplayStore.InMemoryJtiStore)
      ensures this.deployment == deployment && this.jtiStore == jtiStore
    {
      this.deployment := deployment;
      this.jtiStore := jtiStore;
    }

    method ConfigurationRefusal(input: Input) returns (r: Result<Token -> bool, Refusal>)
      ensures r == if deployment.pinnedKey.None? then Failure(KeyNotPinned)
                   else if input.expected.None? then Failure(ContextMissing)
                   else if input.vaultId == "" then Failure(VaultMissing)
                   else Success(deployment.pinnedKey.value)
    {
      if deployment.pinnedKey.None? {
        return Failure(KeyNotPinned);
      }
      if input.expected.None? {
        return Failure(ContextMissing);
      }
      if input.vaultId == "" {
        return Failure(VaultMissing);
      }
      return Success(deployment.pinnedKey.value);
    }

    /** The key check, the capability check and the window check come before the token id is
        spent; the credential and the share are only looked up after. */
    method Run(input: Input, t: Clock) returns (r: Result<Released, Refusal>)
      modifies jtiStore
      ensures r == Execute(old(jtiStore.consumed), deployment, input, t)
      ensures jtiStore.consumed == Spent(old(jtiStore.consumed), deployment, input, t)
    {
      var key := ConfigurationRefusal(input);
      if key.Failure? {
        return Failure(key.error);
      }
      var verified := VerifyCapability(input.token, key.value, input.expected.value, t.checked);
      if verified.Some? {
        return Failure(verified.value);
      }
      var capability := input.token.payload;
      if capability.operation != "VIEW" && capability.operation != "AUTOFILL" && capability.operation != "TOTP" {
        return Failure(OperationNotReleasable);
      }
      var ttlSeconds := capability.exp - capability.iat;
      if ttlSeconds <= 0 {
        return Failure(InvalidWindow);
      }
      var refused := jtiStore.VerifyAndConsume(capability.jti, ttlSeconds, t.spent);
      if refused.Some? {
        return Failure(if refused.value.InvalidJti? then InvalidJti else Replay);
      }
      return Resolve(deployment, capability, input.vaultId);
    }
  }

  // ---- One execution ----

  /** The capability says what the session, the route and the store say, and none of that is missing. */
  predicate Bound(c: Capability, x: BindingContext) {
    && "" !in {x.userId, x.resourceId, x.secretRef}
    && c.userId == x.userId && c.resourceId == x.resourceId && c.secretRef == x.secretRef
    && (if x.deviceId == "" then c.deviceId in {None, Some("")} else c.deviceId == Some(x.deviceId))
  }

  /** The one share that can be released under this reference, if there is one. */
  predicate ShareIs(d: Deployment, c: Capability, vaultId: string, share: string) {
    && c.secretRef in d.credentials && d.credentials[c.secretRef].managed
    && d.credentials[c.secretRef].releaseShareRef == Some(c.secretRef) && d.credentials[c.secretRef].vaultId == vaultId
    && d.kekAvailable && d.shares.Some? && c.secretRef in d.shares.value && d.shares.value[c.secretRef] == Some(share)
  }

  /** Exactly which requests are released, and what: a capability under the pinned key, inside its window with a
      minute of skew, from Plus to Core, for a releasable operation, at any assurance, of version 1, bound to the
      request, of a positive length and with a token id of 16 characters or more that is not blocked; the share
      stored under its reference, for a managed credential of the named vault. */
  lemma ReleasesIff(es: ReplayStore.Entries, d: Deployment, input: Input, t: Clock, share: string)
    ensures var c := input.token.payload;
            (Execute(es, d, input, t).Success? && Execute(es, d, input, t).value.releaseShare == share)
            <==>
              && d.pinnedKey.Some? && d.pinnedKey.value(input.token)
              && c.iat - 60 <= t.checked / 1000 <= c.exp
              && c.issuer == "cybervault-plus" && c.audience == "cybervault-core"
              && c.operation in {"VIEW", "AUTOFILL", "TOTP"} && c.assurance in {1, 2, 3} && c.version == 1
              && input.expected.Some? && Bound(c, input.expected.value) && input.vaultId != ""
              && c.iat < c.exp && 16 <= |c.jti| && (c.jti in es ==> es[c.jti] <= t.spent)
              && ShareIs(d, c, input.vaultId, share)
  {
    var c := input.token.payload;
    if c.operation in {"VIEW", "AUTOFILL", "TOTP"} {
      assert c.operation in RELEASABLE && c.operation in CAPABILITY_OPERATIONS;
    }
    BoundIff(c, input);
    ResolvesIff(d, c, input.vaultId, share);
  }

  lemma BoundIff(c: Capability, input: Input)
    ensures input.expected.Some? ==>
              (VerifyBindings(c, input.expected.value).None? <==> Bound(c, input.expected.value))
  {
  }

  lemma ResolvesIff(d: Deployment, c: Capability, vaultId: string, share: string)
    ensures c.secretRef != "" ==>
              (Resolve(d, c, vaultId).Success? && Resolve(d, c, vaultId).value.releaseShare == share
               <==> ShareIs(d, c, vaultId, share))
  {
  }

  /** Every refusal tells the truth about the request. */
  lemma RefusalsAreTrue(es: ReplayStore.Entries, d: Deployment, input: Input, t: Clock)
    requires Execute(es, d, input, t).Failure?
    ensures var c, x, seconds := input.token.payload, input.expected, t.checked / 1000;
            var credential := if c.secretRef in d.credentials then Some(d.credentials[c.secretRef]) else None;
            match Execute(es, d, input, t).error
            case KeyNotPinned => d.pinnedKey.None?
            case ContextMissing => x.None?
            case VaultMissing => input.vaultId == ""
            case InvalidSignature => d.pinnedKey.Some? && !d.pinnedKey.value(input.token)
            case Expired => c.exp < seconds
            case NotYetValid => seconds + 60 < c.iat
            case InvalidIssuer => c.issuer != "cybervault-plus"
            case InvalidAudience => c.audience != "cybervault-core"
            case InvalidOperation => c.operation !in {"VIEW", "AUTOFILL", "TOTP", "EXPORT_SECRET", "ADMIN"}
            case InvalidAssurance => c.assurance < 1 || 3 < c.assurance
            case UnsupportedVersion => c.version != 1
            case ContextIncomplete => x.Some? && "" in {x.value.userId, x.value.resourceId, x.value.secretRef}
            case UserMismatch => x.Some? && c.userId != x.value.userId
            case ResourceMismatch => x.Some? && c.resourceId != x.value.resourceId
            case SecretMismatch => x.Some? && c.secretRef != x.value.secretRef
            case DeviceMismatch => x.Some? && c.deviceId != Some(x.value.deviceId)
            case OperationNotReleasable => c.operation !in {"VIEW", "AUTOFILL", "TOTP"}
            case InvalidWindow => c.exp <= c.iat
            case InvalidJti => |c.jti| < 16
            case Replay => c.jti in es && t.spent < es[c.jti]
            case CredentialNotFound => credential.None?
            case NotManaged => credential.Some? && !credential.value.managed
            case ReferenceMismatch => credential.Some? && credential.value.releaseShareRef != Some(c.secretRef)
            case WrongVault => credential.Some? && credential.value.vaultId != input.vaultId
            case NoShareReference => false
            case ShareStoreUnavailable => d.shares.None?
            case KekUnavailable => !d.kekAvailable
            case ShareNotFound => d.shares.Some? && c.secretRef !in d.shares.value
            case UnwrapFailed => d.shares.Some? && c.secretRef in d.shares.value && d.shares.value[c.secretRef].None?
  {
    BoundIff(input.token.payload, input);
  }

  /** A release is for the verified user, resource, secret and device, from the vault in the URL,
      with a releasable operation, inside the token's window; and it spends the token id. */
  lemma ReleaseIsBound(es: ReplayStore.Entries, d: Deployment, input: Input, t: Clock)
    requires Execute(es, d, input, t).Success?
    ensures var c, x := input.token.payload, input.expected;
            && d.pinnedKey.Some? && d.pinnedKey.value(input.token)
            && x.Some? && c.userId == x.value.userId && c.resourceId == x.value.resourceId
            && c.secretRef == x.value.secretRef
            && (c.deviceId == Some(x.value.deviceId) || (c.deviceId.None? && x.value.deviceId == ""))
            && c.operation in RELEASABLE
            && c.iat - CLOCK_SKEW_SECONDS <= t.checked / 1000 <= c.exp && c.iat < c.exp
            && c.secretRef in d.credentials
            && var credential := d.credentials[c.secretRef];
               && credential.managed && credential.releaseShareRef == Some(c.secretRef)
               && credential.vaultId == input.vaultId
               && Execute(es, d, input, t).value.credentialId == credential.id
    ensures ReplayStore.Blocks(Spent(es, d, input, t), input.token.payload.jti, t.spent)
  {
  }

  /** Refusals that come before the token id is spent leave the store alone; only those that follow
      from the credential or its share have spent it. */
  lemma RefusalsThatSpend(es: ReplayStore.Entries, d: Deployment, input: Input, t: Clock)
    requires Execute(es, d, input, t).Failure?
    ensures var e := Execute(es, d, input, t).error;
            Spent(es, d, input, t) != es ==>
              e in {CredentialNotFound, NotManaged, ReferenceMismatch, WrongVault, NoShareReference,
                    ShareStoreUnavailable, KekUnavailable, ShareNotFound, UnwrapFailed}
    ensures Precheck(d, input, t.checked).Some? || Execute(es, d, input, t).error in {InvalidJti, Replay}
            ==> Spent(es, d, input, t) == es
  {
  }

  /** A server without the pinned key, or a request without its context or its vault, refuses every token
      alike, before anything is verified or spent; and these refusals mean nothing else. */
  lemma ConfigurationComesFirst(es: ReplayStore.Entries, d: Deployment, input: Input, token: Token, t: Clock)
    ensures d.pinnedKey.None? || input.expected.None? || input.vaultId == ""
            <==> Execute(es, d, input, t) in
                   {Failure(KeyNotPinned), Failure(ContextMissing), Failure(VaultMissing)}
    ensures d.pinnedKey.None? || input.expected.None? || input.vaultId == "" ==>
              && Execute(es, d, input, t) == Execute(es, d, input.(token := token), t)
              && Spent(es, d, input, t) == es
  {
  }

  // ---- At most one success ----

  /** What happens to the shared token store over time: managed releases, and any other use. */
  datatype Event = Release(input: Input, clock: Clock) | Other(event: ReplayStore.Event)

  /** When the store is used. */
  function Time(e: Event): int {
    match e
    case Release(_, t) => t.spent
    case Other(event) => event.now
  }

  function Step(es: ReplayStore.Entries, d: Deployment, e: Event): ReplayStore.Entries {
    match e
    case Other(event) => ReplayStore.Step(es, event)
    case Release(input, t) => Spent(es, d, input, t)
  }

  function Run(es: ReplayStore.Entries, d: Deployment, events: seq<Event>): ReplayStore.Entries {
    if events == [] then es else Step(Run(es, d, events[..|events| - 1]), d, events[|events| - 1])
  }

  ghost predicate Clocked(events: seq<Event>) {
    forall i, j :: 0 <= i < j < |events| ==> Time(events[i]) <= Time(events[j])
  }

  predicate Succeeds(es: ReplayStore.Entries, d: Deployment, events: seq<Event>, i: nat)
    requires i < |events|
  {
    events[i].Release? && Execute(Run(es, d, events[..i]), d, events[i].input, events[i].clock).Success?
  }

  lemma EntryStays(es: ReplayStore.Entries, d: Deployment, e: Event, jti: string)
    requires jti in es && Time(e) < es[jti]
    ensures jti in Step(es, d, e) && Step(es, d, e)[jti] == es[jti]
  {
  }

  /** When the entry made by this release lapses. */
  function Lapse(e: Event): int
    requires e.Release?
  {
    var c := e.input.token.payload;
    e.clock.spent + (c.exp - c.iat) * 1000
  }

  lemma SuccessEnters(es: ReplayStore.Entries, d: Deployment, e: Event)
    requires e.Release? && Execute(es, d, e.input, e.clock).Success?
    ensures var jti, after := e.input.token.payload.jti, Step(es, d, e);
            jti in after && after[jti] == Lapse(e)
  {
  }

  lemma {:induction false} EntryBlocksUntilItLapses(es: ReplayStore.Entries, d: Deployment, events: seq<Event>,
                                                    i: nat, n: nat)
    requires i < n <= |events| && Clocked(events) && Succeeds(es, d, events, i)
    requires Time(events[n - 1]) < Lapse(events[i])
    ensures var jti, after := events[i].input.token.payload.jti, Run(es, d, events[..n]);
            jti in after && after[jti] == Lapse(events[i])
    decreases n
  {
    assert events[..n][..n - 1] == events[..n - 1];
    assert Run(es, d, events[..n]) == Step(Run(es, d, events[..n - 1]), d, events[n - 1]);
    if i == n - 1 {
      SuccessEnters(Run(es, d, events[..i]), d, events[i]);
    } else {
      EntryBlocksUntilItLapses(es, d, events, i, n - 1);
      EntryStays(Run(es, d, events[..n - 1]), d, events[n - 1], events[i].input.token.payload.jti);
    }
  }

  /** Over any run, two releases under one token id are at least the first token's window apart. */
  lemma ReleasesAreAWindowApart(es: ReplayStore.Entries, d: Deployment, events: seq<Event>, i: nat, j: nat)
    requires i < j < |events| && Clocked(events)
    requires Succeeds(es, d, events, i) && Succeeds(es, d, events, j)
    requires events[i].input.token.payload.jti == events[j].input.token.payload.jti
    ensures Lapse(events[i]) <= events[j].clock.spent
  {
    if events[j].clock.spent < Lapse(events[i]) {
      assert Time(events[j - 1]) <= Time(events[j]);
      EntryBlocksUntilItLapses(es, d, events, i, j);
    }
  }

  /** The last instant of the second a capability is issued in. */
  function IssuedUntil(c: Capability): int {
    c.iat * 1000 + 999
  }

  /** A capability first spent after the second it was issued in is released once in the whole run: its entry
      outlives it. A repeat needs the token's id to be spent at least that much later than it is checked. */
  lemma AtMostOneRelease(es: ReplayStore.Entries, d: Deployment, events: seq<Event>, i: nat, j: nat)
    requires i < j < |events| && Clocked(events)
    requires Succeeds(es, d, events, i) && events[j].Release?
    requires events[j].input.token.payload == events[i].input.token.payload
    requires events[i].clock.spent
           > IssuedUntil(events[i].input.token.payload) + (events[j].clock.spent - events[j].clock.checked)
    ensures !Succeeds(es, d, events, j)
  {
    if Succeeds(es, d, events, j) {
      ReleasesAreAWindowApart(es, d, events, i, j);
      ReleaseIsBound(Run(es, d, events[..j]), d, events[j].input, events[j].clock);
    }
  }

  /** An execution that checks the token no sooner than this and spends it at most `pause` milliseconds on. */
  predicate Later(t: Clock, from: nat, pause: nat) {
    from <= t.checked <= t.spent <= t.checked + pause
  }

  /** One release per capability fails in exactly the other case: where executions spend the token at most
      `pause` milliseconds after they check it, the same request succeeds again at some later instant if and only
      if it was first spent no later than that after the second of `iat`, and while it was still good. */
  lemma SecondReleaseIff(es: ReplayStore.Entries, d: Deployment, input: Input, first: Clock, pause: nat)
    requires Execute(es, d, input, first).Success? && first.checked <= first.spent
    ensures var c := input.token.payload;
            (exists t :: Later(t, first.spent, pause) && Execute(Spent(es, d, input, first), d, input, t).Success?)
            <==> first.spent <= IssuedUntil(c) + pause && first.spent / 1000 <= c.exp
  {
    var c := input.token.payload;
    var spent := Spent(es, d, input, first);
    ReleaseIsBound(es, d, input, first);
    var lapse := first.spent + (c.exp - c.iat) * 1000;
    assert spent[c.jti] == lapse;
    if first.spent <= IssuedUntil(c) + pause && first.spent / 1000 <= c.exp {
      var t := Clock(if lapse / 1000 <= c.exp then lapse else c.exp * 1000 + 999, lapse);
      assert Later(t, first.spent, pause);
      assert first.checked / 1000 <= t.checked / 1000 <= c.exp;
      assert Precheck(d, input, t.checked).None?;
      assert Execute(spent, d, input, t).Success?;
    }
    forall t | Later(t, first.spent, pause) && Execute(spent, d, input, t).Success?
      ensures first.spent <= IssuedUntil(c) + pause && first.spent / 1000 <= c.exp
    {
      ReleaseIsBound(spent, d, input, t);
    }
  }

  /** A deployment with one managed credential, and a capability for it that was issued at second 1000
      for five minutes. */
  const EXAMPLE_DEPLOYMENT := Deployment(
    Some((token: Token) => token.signature == "valid"),
    map["share-1" := Credential("credential-1", true, Some("share-1"), "vault-1")],
    true,
    Some(map["share-1" := Some("release share")]))

  const EXAMPLE_INPUT := Input(
    Token(Capability(1, "cybervault-plus", "cybervault-core", "user-1", "share-1", "AUTOFILL", "share-1", None, 3,
                     1000, 1300, "0123456789abcdef"), "valid", "header"),
    Some(BindingContext("user-1", "share-1", "share-1", "")),
    "vault-1")

  /** Used at once it is released, and released again in the second in which it expires. */
  lemma SecondReleaseExample()
    ensures Execute(map[], EXAMPLE_DEPLOYMENT, EXAMPLE_INPUT, Clock(1_000_000, 1_000_000))
         == Success(Released("release share", "credential-1"))
    ensures Execute(Spent(map[], EXAMPLE_DEPLOYMENT, EXAMPLE_INPUT, Clock(1_000_000, 1_000_000)),
                    EXAMPLE_DEPLOYMENT, EXAMPLE_INPUT, Clock(1_300_000, 1_300_000))
         == Success(Released("release share", "credential-1"))
  {
  }
}
