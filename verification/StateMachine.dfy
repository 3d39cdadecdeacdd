/** The client state machine and the transition relation it implements. */
module StateMachine {
  import opened Saturating
  import opened Clock

  datatype LicenseState =
    | Unlicensed | Activating | Active | NeedsRevalidation | Grace | Locked | Revoked | Tampered

  datatype KillReason = RevokedLicense | RevokedActivation | SeatReclaimed | Fraud | Refund | EpochRevokedKill

  datatype Verdict = VerdictOk | NeedsReactivation | VersionOutOfScopeVerdict

  datatype TransientError =
    | Offline | Timeout | ServerError(status: nat) | RateLimited(retryAfter: U32) | TransportFailure

  datatype FatalError =
    | SignatureInvalid | ChainInvalid | EpochRevoked | NonceMismatch | MachineMismatch | RevocationRollback
    | CredentialCorrupt | RevokedFatal(reason: KillReason) | SecurityFloorRegression | IntegrityFailure

  datatype StateReason =
    | Activated | Validated | ReactivationRequired | VersionOutOfScope | RefreshDue | NetworkUnavailable
    | GraceExhausted | CredentialExpired | ClockRollback | KillOrder(kill: KillReason) | IntegrityFailed | UserRequested

  datatype Event =
    | Tick
    | NetworkAvailable
    | AppResumed(monotonicGapMs: U64)
    | CredentialLoaded
    | ActivationVerified
    | TicketVerified
    | TicketDenied(verdict: Verdict)
    | KillOrderVerified(kill: KillReason)
    | NetworkFailed(transient: TransientError)
    | VerificationFailed(fatal: FatalError)
    | UserDeactivate

  datatype Effect =
    | SendValidation
    | WipeAll
    | StateChanged(state: LicenseState, reason: StateReason)
    | ScheduleWake(at: I64)

  datatype Deadlines = Deadlines(refreshAfter: I64, graceDeadline: I64, notAfter: I64) {
    predicate RefreshDue(now: I64) {
      now >= refreshAfter
    }

    predicate HardExpired(now: I64) {
      notAfter != 0 && now >= notAfter
    }

    predicate GraceExhausted(now: I64) {
      now >= graceDeadline || HardExpired(now)
    }
  }

  datatype CoreConfig = CoreConfig(rollbackThreshold: U32, minValidationInterval: I64)

  /** The states in which a feature key may be derived. */
  predicate Productive(s: LicenseState) {
    s.Active? || s.NeedsRevalidation? || s.Grace?
  }

  predicate IsTimeEvent(e: Event) {
    e.Tick? || e.AppResumed?
  }

  // ----- the reference transition function, organised by event

  datatype Machine = Machine(
    state: LicenseState, clock: Marks, deadlines: Deadlines, config: CoreConfig, lastAttempt: I64, hasCredential: bool)
  {
    predicate PermitsKeyDerivation() {
      hasCredential && Productive(state)
    }
  }

  datatype Outcome = Outcome(machine: Machine, effects: seq<Effect>)

  function Initial(config: CoreConfig, seed: I64): Machine {
    Machine(Unlicensed, Fresh(seed), Deadlines(0, 0, 0), config, I64_MIN, false)
  }

  function Moved(m: Machine, to: LicenseState, reason: StateReason): Outcome {
    if m.state == to then Outcome(m, []) else Outcome(m.(state := to), [StateChanged(to, reason)])
  }

  function Then(o: Outcome, e: Effect): Outcome {
    Outcome(o.machine, o.effects + [e])
  }

  function Wiped(m: Machine, to: LicenseState, reason: StateReason): Outcome {
    Outcome(m.(state := to, hasCredential := false), [WipeAll, StateChanged(to, reason)])
  }

  /** Deadlines, evaluated at the effective time. */
  function Aged(m: Machine, now: I64): Outcome {
    if m.state.Active? && m.deadlines.HardExpired(now) then Moved(m, Locked, CredentialExpired)
    else if m.state.Active? && m.deadlines.RefreshDue(now) then
      Then(Moved(m.(lastAttempt := now), NeedsRevalidation, RefreshDue), SendValidation)
    else if (m.state.NeedsRevalidation? || m.state.Grace?) && m.deadlines.GraceExhausted(now) then
      Moved(m, Locked, GraceExhausted)
    else Outcome(m, [])
  }

  /** A time event: the clock guard first, then the deadlines. */
  function Timed(m: Machine, wall: I64): Outcome {
    var checked := m.(clock := Checked(m.clock, wall));
    if IsRollback(m.clock, wall) && checked.clock.rollbacks > m.config.rollbackThreshold then
      Moved(checked, Locked, ClockRollback)
    else if IsRollback(m.clock, wall) && m.state.Active? then
      Then(Moved(checked, NeedsRevalidation, ClockRollback), SendValidation)
    else Aged(checked, EffectiveNow(checked.clock, wall))
  }

  function Requested(m: Machine, now: I64): Outcome {
    Outcome(m.(lastAttempt := now), [SendValidation])
  }

  function Accepted(m: Machine, reason: StateReason): Outcome {
    Moved(m.(hasCredential := true), Active, reason)
  }

  predicate HoldsLicence(s: LicenseState) {
    Productive(s) || s.Locked?
  }

  function DenialReason(v: Verdict): StateReason {
    match v
    case VerdictOk => Validated
    case NeedsReactivation => ReactivationRequired
    case VersionOutOfScopeVerdict => VersionOutOfScope
  }

  /** What one event does. */
  function Next(m: Machine, event: Event, wall: I64): Outcome {
    var now := EffectiveNow(m.clock, wall);
    var wake := ScheduleWake(m.deadlines.refreshAfter);
    match event
    case Tick => Timed(m, wall)
    case AppResumed(_) => Timed(m, wall)
    case NetworkAvailable =>
      if m.state.NeedsRevalidation? || m.state.Grace? || m.state.Locked? then Requested(m, now)
      else if m.state.Active? && m.deadlines.RefreshDue(now) then Requested(m, now)
      else Outcome(m, [])
    case CredentialLoaded =>
      if m.state.Unlicensed? then Then(Accepted(m, Activated), wake) else Outcome(m, [])
    case ActivationVerified =>
      if m.state.Unlicensed? || m.state.Activating? then Then(Accepted(m, Activated), wake)
      else if m.state.Revoked? || m.state.Tampered? then Accepted(m, Activated)
      else Outcome(m, [])
    case TicketVerified =>
      if HoldsLicence(m.state) then Then(Moved(m, Active, Validated), wake) else Outcome(m, [])
    case TicketDenied(v) =>
      if HoldsLicence(m.state) then Moved(m, Locked, DenialReason(v)) else Outcome(m, [])
    case KillOrderVerified(r) =>
      if m.state.Revoked? || m.state.Tampered? then Outcome(m, []) else Wiped(m, Revoked, KillOrder(r))
    case NetworkFailed(_) =>
      if m.state.Activating? then Moved(m, Unlicensed, NetworkUnavailable)
      else if m.state.NeedsRevalidation? && m.deadlines.GraceExhausted(now) then Moved(m, Locked, GraceExhausted)
      else if m.state.NeedsRevalidation? then
        Then(Moved(m, Grace, NetworkUnavailable), ScheduleWake(m.deadlines.graceDeadline))
      else Outcome(m, [])
    case VerificationFailed(_) =>
      if HoldsLicence(m.state) then Wiped(m, Tampered, IntegrityFailed)
      else if m.state.Unlicensed? || m.state.Activating? then Moved(m, Tampered, IntegrityFailed)
      else Outcome(m, [])
    case UserDeactivate =>
      if HoldsLicence(m.state) || m.state.Activating? then Wiped(m, Unlicensed, UserRequested) else Outcome(m, [])
  }

  // ----- the machine as the client holds it, organised by state

  class LicenseMachine {
    var state: LicenseState
    const clock: ClockState
    var deadlines: Deadlines
    const config: CoreConfig
    var lastValidationAttempt: I64
    var hasCredential: bool

    function Value(): Machine
      reads this, clock
    {
      Machine(state, clock.Value(), deadlines, config, lastValidationAttempt, hasCredential)
    }

    constructor (config: CoreConfig, seed: I64)
      ensures Value() == Initial(config, seed) && fresh(clock)
    {
      state := Unlicensed;
      clock := new ClockState(seed);
      deadlines := Deadlines(0, 0, 0);
      this.config := config;
      lastValidationAttempt := I64_MIN;
      hasCredential := false;
    }

    method SetDeadlines(d: Deadlines)
      modifies this
      ensures Value() == old(Value()).(deadlines := d)
    {
      deadlines := d;
    }

    method NoteValidationAttempt(now: I64)
      modifies this
      ensures Value() == old(Value()).(lastAttempt := now)
    {
      lastValidationAttempt := now;
    }

    predicate ShouldOpportunisticallyValidate(now: I64)
      reads this
    {
      deadlines.RefreshDue(now)
      || (SatSub(now, lastValidationAttempt) >= config.minValidationInterval && state != Active)
    }

    method Transition(to: LicenseState, reason: StateReason) returns (effects: seq<Effect>)
      modifies this
      ensures Outcome(Value(), effects) == Moved(old(Value()), to, reason)
    {
      if state == to {
        return [];
      }
      state := to;
      return [StateChanged(to, reason)];
    }

    method AcceptTicket() returns (effects: seq<Effect>)
      modifies this
      ensures Outcome(Value(), effects) ==
              Then(Moved(old(Value()), Active, Validated), ScheduleWake(old(deadlines).refreshAfter))
    {
      effects := Transition(Active, Validated);
      effects := effects + [ScheduleWake(deadlines.refreshAfter)];
    }

    method DenyTicket(verdict: Verdict) returns (effects: seq<Effect>)
      modifies this
      ensures Outcome(Value(), effects) == Moved(old(Value()), Locked, DenialReason(verdict))
    {
      effects := Transition(Locked, DenialReason(verdict));
    }

    method Revoke(reason: KillReason) returns (effects: seq<Effect>)
      modifies this
      ensures Outcome(Value(), effects) == Wiped(old(Value()), Revoked, KillOrder(reason))
    {
      hasCredential := false;
      effects := [WipeAll];
      state := Revoked;
      effects := effects + [StateChanged(Revoked, KillOrder(reason))];
    }

    method Tamper() returns (effects: seq<Effect>)
      modifies this
      ensures Outcome(Value(), effects) == Wiped(old(Value()), Tampered, IntegrityFailed)
    {
      hasCredential := false;
      effects := [WipeAll];
      state := Tampered;
      effects := effects + [StateChanged(Tampered, IntegrityFailed)];
    }

    method Wipe(reason: StateReason) returns (effects: seq<Effect>)
      modifies this
      ensures Outcome(Value(), effects) == Wiped(old(Value()), Unlicensed, reason)
    {
      hasCredential := false;
      state := Unlicensed;
      effects := [WipeAll, StateChanged(Unlicensed, reason)];
    }

    method Handle(event: Event, wall: I64) returns (effects: seq<Effect>)
      modifies this, clock
      ensures Outcome(Value(), effects) == Next(old(Value()), event, wall)
    {
      effects := [];
      var now;
      if event.Tick? || event.AppResumed? {
        var verdict := clock.Check(wall);
        if !verdict.Sane? {
          if ExceedsRollbackThreshold(clock.Value(), config.rollbackThreshold) {
            effects := Transition(Locked, ClockRollback);
            return;
          }
          if state == Active {
            effects := Transition(NeedsRevalidation, ClockRollback);
            effects := effects + [SendValidation];
            return;
          }
        }
      }
      now := EffectiveNow(clock.Value(), wall);

      match (state, event) {
        // Unlicensed
        case (Unlicensed, CredentialLoaded) | (Unlicensed, ActivationVerified) =>
          hasCredential := true;
          effects := Transition(Active, Activated);
          effects := effects + [ScheduleWake(deadlines.refreshAfter)];
        case (Unlicensed, VerificationFailed(_)) => effects := Transition(Tampered, IntegrityFailed);
        case (Unlicensed, KillOrderVerified(r)) => effects := Revoke(r);
        case (Unlicensed, Tick) | (Unlicensed, NetworkAvailable) | (Unlicensed, AppResumed(_))
           | (Unlicensed, NetworkFailed(_)) | (Unlicensed, TicketVerified) | (Unlicensed, TicketDenied(_))
           | (Unlicensed, UserDeactivate) =>

        // Activating
        case (Activating, ActivationVerified) =>
          hasCredential := true;
          effects := Transition(Active, Activated);
          effects := effects + [ScheduleWake(deadlines.refreshAfter)];
        case (Activating, NetworkFailed(_)) => effects := Transition(Unlicensed, NetworkUnavailable);
        case (Activating, VerificationFailed(_)) => effects := Transition(Tampered, IntegrityFailed);
        case (Activating, KillOrderVerified(r)) => effects := Revoke(r);
        case (Activating, Tick) | (Activating, NetworkAvailable) | (Activating, AppResumed(_))
           | (Activating, CredentialLoaded) | (Activating, TicketVerified) | (Activating, TicketDenied(_)) =>
        case (Activating, UserDeactivate) => effects := Wipe(UserRequested);

        // Active
        case (Active, Tick) | (Active, AppResumed(_)) =>
          if deadlines.HardExpired(now) {
            effects := Transition(Locked, CredentialExpired);
          } else if deadlines.RefreshDue(now) {
            effects := Transition(NeedsRevalidation, RefreshDue);
            effects := effects + [SendValidation];
            lastValidationAttempt := now;
          }
        case (Active, NetworkAvailable) =>
          if ShouldOpportunisticallyValidate(now) {
            effects := effects + [SendValidation];
            lastValidationAttempt := now;
          }
        case (Active, TicketVerified) => effects := AcceptTicket();
        case (Active, TicketDenied(verdict)) => effects := DenyTicket(verdict);
        case (Active, NetworkFailed(_)) =>
        case (Active, KillOrderVerified(r)) => effects := Revoke(r);
        case (Active, VerificationFailed(_)) => effects := Tamper();
        case (Active, UserDeactivate) => effects := Wipe(UserRequested);
        case (Active, CredentialLoaded) | (Active, ActivationVerified) =>

        // NeedsRevalidation
        case (NeedsRevalidation, TicketVerified) => effects := AcceptTicket();
        case (NeedsRevalidation, TicketDenied(verdict)) => effects := DenyTicket(verdict);
        case (NeedsRevalidation, NetworkFailed(_)) =>
          if deadlines.GraceExhausted(now) {
            effects := Transition(Locked, GraceExhausted);
          } else {
            effects := Transition(Grace, NetworkUnavailable);
            effects := effects + [ScheduleWake(deadlines.graceDeadline)];
          }
        case (NeedsRevalidation, Tick) | (NeedsRevalidation, AppResumed(_)) =>
          if deadlines.GraceExhausted(now) {
            effects := Transition(Locked, GraceExhausted);
          }
        case (NeedsRevalidation, NetworkAvailable) =>
          effects := effects + [SendValidation];
          lastValidationAttempt := now;
        case (NeedsRevalidation, KillOrderVerified(r)) => effects := Revoke(r);
        case (NeedsRevalidation, VerificationFailed(_)) => effects := Tamper();
        case (NeedsRevalidation, UserDeactivate) => effects := Wipe(UserRequested);
        case (NeedsRevalidation, CredentialLoaded) | (NeedsRevalidation, ActivationVerified) =>

        // Grace
        case (Grace, TicketVerified) => effects := AcceptTicket();
        case (Grace, TicketDenied(verdict)) => effects := DenyTicket(verdict);
        case (Grace, Tick) | (Grace, AppResumed(_)) =>
          if deadlines.GraceExhausted(now) {
            effects := Transition(Locked, GraceExhausted);
          }
        case (Grace, NetworkAvailable) =>
          effects := effects + [SendValidation];
          lastValidationAttempt := now;
        case (Grace, NetworkFailed(_)) =>
        case (Grace, KillOrderVerified(r)) => effects := Revoke(r);
        case (Grace, VerificationFailed(_)) => effects := Tamper();
        case (Grace, UserDeactivate) => effects := Wipe(UserRequested);
        case (Grace, CredentialLoaded) | (Grace, ActivationVerified) =>

        // Locked
        case (Locked, TicketVerified) => effects := AcceptTicket();
        case (Locked, TicketDenied(verdict)) => effects := DenyTicket(verdict);
        case (Locked, NetworkAvailable) =>
          effects := effects + [SendValidation];
          lastValidationAttempt := now;
        case (Locked, KillOrderVerified(r)) => effects := Revoke(r);
        case (Locked, VerificationFailed(_)) => effects := Tamper();
        case (Locked, UserDeactivate) => effects := Wipe(UserRequested);
        case (Locked, Tick) | (Locked, AppResumed(_)) | (Locked, NetworkFailed(_))
           | (Locked, CredentialLoaded) | (Locked, ActivationVerified) =>

        // Revoked
        case (Revoked, ActivationVerified) =>
          hasCredential := true;
          effects := Transition(Active, Activated);
        case (Revoked, Tick) | (Revoked, NetworkAvailable) | (Revoked, AppResumed(_)) | (Revoked, CredentialLoaded)
           | (Revoked, TicketVerified) | (Revoked, TicketDenied(_)) | (Revoked, NetworkFailed(_))
           | (Revoked, VerificationFailed(_)) | (Revoked, KillOrderVerified(_)) | (Revoked, UserDeactivate) =>

        // Tampered
        case (Tampered, ActivationVerified) =>
          hasCredential := true;
          effects := Transition(Active, Activated);
        case (Tampered, Tick) | (Tampered, NetworkAvailable) | (Tampered, AppResumed(_)) | (Tampered, CredentialLoaded)
           | (Tampered, TicketVerified) | (Tampered, TicketDenied(_)) | (Tampered, NetworkFailed(_))
           | (Tampered, VerificationFailed(_)) | (Tampered, KillOrderVerified(_)) | (Tampered, UserDeactivate) =>
      }
    }
  }
}
