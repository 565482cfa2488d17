/** The authorisation state of one user on one resource, plus/domain/entities/entitlement.ts. */
module Entitlement {
  import opened Outcomes

  datatype PestilloState = Closed | Enabled | StepUp | Temporary

  datatype Entitlement = Entitlement(
    pestilloState: PestilloState,
    allowedOperations: set<string>,
    validFrom: Option<int>,
    validUntil: Option<int>)

  predicate IsCurrentlyValid(e: Entitlement, now: int) {
    && !e.pestilloState.Closed?
    && (e.validFrom.Some? ==> e.validFrom.value <= now)
    && (e.validUntil.Some? ==> now < e.validUntil.value)
  }

  function EffectiveState(e: Entitlement, now: int): PestilloState {
    if IsCurrentlyValid(e, now) then e.pestilloState else Closed
  }

  predicate IsOperationAllowed(e: Entitlement, operation: string) {
    operation in e.allowedOperations
  }

  // ---- Changing it ----

  datatype Update =
    | SetPestilloState(state: PestilloState, until: Option<int>)
    | SetValidity(from: Option<int>, until: Option<int>)

  /** A change of state keeps the end of a temporary authorisation unless it sets one, and drops the end of
      any other. */
  function Updated(e: Entitlement, u: Update): Entitlement {
    match u
    case SetPestilloState(state, until) =>
      e.(pestilloState := state,
         validUntil := if !state.Temporary? then None else if until.Some? then until else e.validUntil)
    case SetValidity(from, until) => e.(validFrom := from, validUntil := until)
  }

  /** When an entitlement is open after a change: its state is not closed, it has begun, and it has not ended. */
  lemma OpenAfterIff(e: Entitlement, u: Update, now: int)
    ensures var state := EffectiveState(Updated(e, u), now);
            match u
            case SetPestilloState(to, until) =>
              var end := if until.Some? then until else e.validUntil;
              if to.Closed? || (e.validFrom.Some? && now < e.validFrom.value)
                 || (to.Temporary? && end.Some? && end.value <= now)
              then state == Closed else state == to
            case SetValidity(from, until) =>
              if (from.Some? && now < from.value) || (until.Some? && until.value <= now)
              then state == Closed else state == e.pestilloState
  {
  }

  function UpdatedAll(e: Entitlement, us: seq<Update>): Entitlement
    decreases |us|
  {
    if us == [] then e else UpdatedAll(Updated(e, us[0]), us[1..])
  }

  /** Closed, or ended by `now`. */
  predicate Shut(e: Entitlement, now: int) {
    e.pestilloState.Closed? || (e.validUntil.Some? && e.validUntil.value <= now)
  }

  /** Exactly which updates of a shut entitlement undo that: any state but closed, unless temporary with an
      end that has passed, given or kept; and any validity that does not end by then, unless closed. */
  predicate Reopens(e: Entitlement, u: Update, now: int) {
    match u
    case SetPestilloState(Temporary, Some(until)) => now < until
    case SetPestilloState(Temporary, None) => e.validUntil.Some? ==> now < e.validUntil.value
    case SetPestilloState(state, _) => !state.Closed?
    case SetValidity(_, until) => !e.pestilloState.Closed? && (until.Some? ==> now < until.value)
  }

  lemma ReopensIff(e: Entitlement, u: Update, now: int)
    requires Shut(e, now)
    ensures Reopens(e, u, now) <==> !Shut(Updated(e, u), now)
  {
  }

  predicate NeverReopens(e: Entitlement, us: seq<Update>, now: int)
    decreases |us|
  {
    us == [] || (!Reopens(e, us[0], now) && NeverReopens(Updated(e, us[0]), us[1..], now))
  }

  /** An entitlement that has ended, or was closed, is closed at every later time, whatever is changed in
      it, unless one of the changes reopens it. */
  lemma {:induction false} EndedStaysClosed(e: Entitlement, us: seq<Update>, now: int, later: int)
    requires Shut(e, now) && now <= later && NeverReopens(e, us, later)
    ensures EffectiveState(UpdatedAll(e, us), later).Closed?
    decreases |us|
  {
    if us != [] {
      ReopensIff(e, us[0], later);
      EndedStaysClosed(Updated(e, us[0]), us[1..], later, later);
    }
  }
}
