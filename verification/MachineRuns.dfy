/** Properties of every run of the client state machine. */
module MachineRuns {
  import opened Saturating
  import opened Clock
  import opened StateMachine

  /** Everything a host can do to the machine. */
  datatype Op =
    | Handle(event: Event, wall: I64)
    | SetDeadlines(deadlines: Deadlines)
    | ObserveServerTime(time: I64)
    | NoteAttempt(time: I64)

  function Apply(m: Machine, op: Op): Outcome {
    match op
    case Handle(e, wall) => Next(m, e, wall)
    case SetDeadlines(d) => Outcome(m.(deadlines := d), [])
    case ObserveServerTime(t) => Outcome(m.(clock := Observed(m.clock, t)), [])
    case NoteAttempt(t) => Outcome(m.(lastAttempt := t), [])
  }

  function Run(m: Machine, ops: seq<Op>): Outcome {
    if |ops| == 0 then Outcome(m, [])
    else
      var before := Run(m, ops[..|ops| - 1]);
      var last := Apply(before.machine, ops[|ops| - 1]);
      Outcome(last.machine, before.effects + last.effects)
  }

  lemma {:induction false} RunSnoc(m: Machine, ops: seq<Op>, op: Op)
    ensures Run(m, ops + [op]).machine == Apply(Run(m, ops).machine, op).machine
  {
    assert (ops + [op])[..|ops|] == ops;
  }

  lemma {:induction false} RunConcat(m: Machine, a: seq<Op>, b: seq<Op>)
    ensures Run(m, a + b).machine == Run(Run(m, a).machine, b).machine
  {
    if |b| == 0 {
      assert a + b == a;
    } else {
      RunConcat(m, a, b[..|b| - 1]);
      assert (a + b)[..|a + b| - 1] == a + b[..|b| - 1];
    }
  }

  predicate Is(op: Op, e: Event) {
    op.Handle? && op.event == e
  }

  /** An event that can hand the machine a credential. */
  predicate Credits(op: Op) {
    Is(op, ActivationVerified) || Is(op, CredentialLoaded)
  }

  /** An event that can take the credential away. */
  predicate Discredits(op: Op) {
    op.Handle? && (op.event.KillOrderVerified? || op.event.VerificationFailed? || op.event.UserDeactivate?)
  }

  // ----- what every step keeps

  /** A held credential always comes with a licensed state. */
  ghost predicate Coherent(m: Machine) {
    m.hasCredential ==> HoldsLicence(m.state)
  }

  lemma TimedKeeps(m: Machine, wall: I64)
    ensures var next := Timed(m, wall).machine;
            && next.clock == Checked(m.clock, wall) && next.config == m.config && next.hasCredential == m.hasCredential
            && (Coherent(m) ==> Coherent(next)) && WipeAll !in Timed(m, wall).effects
  {
  }

  lemma StepKeeps(m: Machine, op: Op)
    ensures var next := Apply(m, op).machine;
            && (Coherent(m) ==> Coherent(next)) && next.config == m.config
            && next.clock.seen >= m.clock.seen && next.clock.rollbacks >= m.clock.rollbacks
  {
    if op.Handle? {
      TimedKeeps(m, op.wall);
      StepMarks(m, op.event, op.wall);
    }
  }

  /** Only a time event touches the clock. */
  lemma StepMarks(m: Machine, e: Event, wall: I64)
    ensures var next := Next(m, e, wall).machine;
            next.config == m.config && next.clock == if IsTimeEvent(e) then Checked(m.clock, wall) else m.clock
  {
    TimedKeeps(m, wall);
  }

  /** Coherence survives every run, and neither the high-water mark nor the rollback count ever falls. */
  lemma {:induction false} RunKeeps(m: Machine, ops: seq<Op>)
    ensures var last := Run(m, ops).machine;
            && (Coherent(m) ==> Coherent(last)) && last.config == m.config
            && last.clock.seen >= m.clock.seen && last.clock.rollbacks >= m.clock.rollbacks
  {
    if |ops| > 0 {
      RunKeeps(m, ops[..|ops| - 1]);
      StepKeeps(Run(m, ops[..|ops| - 1]).machine, ops[|ops| - 1]);
    }
  }

  // ----- effects tell the whole story of the state

  /** The state after replaying the announced changes. */
  function Announced(s: LicenseState, effects: seq<Effect>): LicenseState {
    if |effects| == 0 then s
    else
      var last := effects[|effects| - 1];
      if last.StateChanged? then last.state else Announced(s, effects[..|effects| - 1])
  }

  lemma {:induction false} AnnouncedConcat(s: LicenseState, a: seq<Effect>, b: seq<Effect>)
    ensures Announced(s, a + b) == Announced(Announced(s, a), b)
  {
    if |b| == 0 {
      assert a + b == a;
    } else {
      AnnouncedConcat(s, a, b[..|b| - 1]);
      assert (a + b)[..|a + b| - 1] == a + b[..|b| - 1];
    }
  }

  /** The effects of an outcome tell of its state. */
  ghost predicate Honest(from: LicenseState, o: Outcome) {
    Announced(from, o.effects) == o.machine.state
  }

  lemma MovedHonest(m: Machine, to: LicenseState, reason: StateReason)
    ensures Honest(m.state, Moved(m, to, reason)) && Honest(m.state, Wiped(m, to, reason))
  {
  }

  lemma ThenHonest(from: LicenseState, o: Outcome, e: Effect)
    requires Honest(from, o) && !e.StateChanged?
    ensures Honest(from, Then(o, e))
  {
    assert Then(o, e).effects[..|o.effects|] == o.effects;
  }

  lemma AgedHonest(m: Machine, now: I64)
    ensures Honest(m.state, Aged(m, now))
  {
    if m.state.Active? && m.deadlines.HardExpired(now) {
      MovedHonest(m, Locked, CredentialExpired);
    } else if m.state.Active? && m.deadlines.RefreshDue(now) {
      var asked := m.(lastAttempt := now);
      MovedHonest(asked, NeedsRevalidation, RefreshDue);
      ThenHonest(m.state, Moved(asked, NeedsRevalidation, RefreshDue), SendValidation);
    } else {
      MovedHonest(m, Locked, GraceExhausted);
    }
  }

  lemma TimedHonest(m: Machine, wall: I64)
    ensures Honest(m.state, Timed(m, wall))
  {
    var c := m.(clock := Checked(m.clock, wall));
    MovedHonest(c, Locked, ClockRollback);
    MovedHonest(c, NeedsRevalidation, ClockRollback);
    ThenHonest(m.state, Moved(c, NeedsRevalidation, ClockRollback), SendValidation);
    AgedHonest(c, EffectiveNow(c.clock, wall));
  }

  lemma NetworkHonest(m: Machine, e: Event, wall: I64)
    requires e.NetworkAvailable? || e.NetworkFailed?
    ensures Honest(m.state, Next(m, e, wall))
  {
    MovedHonest(m, Unlicensed, NetworkUnavailable);
    MovedHonest(m, Locked, GraceExhausted);
    MovedHonest(m, Grace, NetworkUnavailable);
    ThenHonest(m.state, Moved(m, Grace, NetworkUnavailable), ScheduleWake(m.deadlines.graceDeadline));
  }

  lemma CreditHonest(m: Machine, e: Event, wall: I64)
    requires e.CredentialLoaded? || e.ActivationVerified?
    ensures Honest(m.state, Next(m, e, wall))
  {
    var credited := m.(hasCredential := true);
    MovedHonest(credited, Active, Activated);
    ThenHonest(m.state, Moved(credited, Active, Activated), ScheduleWake(m.deadlines.refreshAfter));
  }

  lemma TicketHonest(m: Machine, e: Event, wall: I64)
    requires e.TicketVerified? || e.TicketDenied?
    ensures Honest(m.state, Next(m, e, wall))
  {
    if e.TicketVerified? {
      MovedHonest(m, Active, Validated);
      ThenHonest(m.state, Moved(m, Active, Validated), ScheduleWake(m.deadlines.refreshAfter));
    } else {
      MovedHonest(m, Locked, DenialReason(e.verdict));
    }
  }

  lemma WipeHonest(m: Machine, e: Event, wall: I64)
    requires e.KillOrderVerified? || e.VerificationFailed? || e.UserDeactivate?
    ensures Honest(m.state, Next(m, e, wall))
  {
    match e
    case KillOrderVerified(r) => MovedHonest(m, Revoked, KillOrder(r));
    case VerificationFailed(_) => MovedHonest(m, Tampered, IntegrityFailed);
    case UserDeactivate => MovedHonest(m, Unlicensed, UserRequested);
  }

  lemma EventHonest(m: Machine, e: Event, wall: I64)
    ensures Honest(m.state, Next(m, e, wall))
  {
    if IsTimeEvent(e) {
      TimedHonest(m, wall);
    } else if e.NetworkAvailable? || e.NetworkFailed? {
      NetworkHonest(m, e, wall);
    } else if e.CredentialLoaded? || e.ActivationVerified? {
      CreditHonest(m, e, wall);
    } else if e.TicketVerified? || e.TicketDenied? {
      TicketHonest(m, e, wall);
    } else {
      WipeHonest(m, e, wall);
    }
  }

  lemma StepAnnounced(m: Machine, op: Op)
    ensures Honest(m.state, Apply(m, op))
  {
    if op.Handle? {
      EventHonest(m, op.event, op.wall);
    }
  }

  /** Folding the announced changes over any run reproduces the state. */
  lemma {:induction false} RunAnnounced(m: Machine, ops: seq<Op>)
    ensures Announced(m.state, Run(m, ops).effects) == Run(m, ops).machine.state
  {
    if |ops| > 0 {
      var before := Run(m, ops[..|ops| - 1]);
      RunAnnounced(m, ops[..|ops| - 1]);
      StepAnnounced(before.machine, ops[|ops| - 1]);
      AnnouncedConcat(m.state, before.effects, Apply(before.machine, ops[|ops| - 1]).effects);
    }
  }

  // ----- wiping

  /** The credential is lost only together with a wipe, and only to a kill, a failed check or the user. */
  lemma StepLosesCredential(m: Machine, op: Op)
    ensures m.hasCredential && !Apply(m, op).machine.hasCredential ==> WipeAll in Apply(m, op).effects
    ensures WipeAll in Apply(m, op).effects ==> Discredits(op) && !Apply(m, op).machine.hasCredential
    ensures !m.hasCredential && Apply(m, op).machine.hasCredential ==> Credits(op)
  {
    if Discredits(op) {
      DiscreditingStep(m, op);
    } else {
      HarmlessStep(m, op);
    }
  }

  lemma DiscreditingStep(m: Machine, op: Op)
    requires Discredits(op)
    ensures m.hasCredential && !Apply(m, op).machine.hasCredential ==> WipeAll in Apply(m, op).effects
    ensures WipeAll in Apply(m, op).effects ==> !Apply(m, op).machine.hasCredential
    ensures Apply(m, op).machine.hasCredential ==> m.hasCredential
  {
  }

  lemma HarmlessStep(m: Machine, op: Op)
    requires !Discredits(op)
    ensures WipeAll !in Apply(m, op).effects && (m.hasCredential ==> Apply(m, op).machine.hasCredential)
    ensures !m.hasCredential && Apply(m, op).machine.hasCredential ==> Credits(op)
  {
    if op.Handle? {
      TimedKeeps(m, op.wall);
    }
  }

  lemma {:induction false} RunLosesCredential(m: Machine, ops: seq<Op>)
    requires m.hasCredential && !Run(m, ops).machine.hasCredential
    ensures WipeAll in Run(m, ops).effects
  {
    var before := Run(m, ops[..|ops| - 1]);
    StepLosesCredential(before.machine, ops[|ops| - 1]);
    if !before.machine.hasCredential {
      RunLosesCredential(m, ops[..|ops| - 1]);
    }
  }

  /** No outage, however long and however the clock moves, wipes a credential: a wipe has its cause in the run. */
  lemma {:induction false} RunWipesForCause(m: Machine, ops: seq<Op>)
    requires WipeAll in Run(m, ops).effects
    ensures exists i :: 0 <= i < |ops| && Discredits(ops[i])
  {
    var n := |ops| - 1;
    StepLosesCredential(Run(m, ops[..n]).machine, ops[n]);
    if WipeAll in Run(m, ops[..n]).effects {
      RunWipesForCause(m, ops[..n]);
      var i :| 0 <= i < n && Discredits(ops[..n][i]);
      assert Discredits(ops[i]);
    } else {
      assert Discredits(ops[n]);
    }
  }

  /** Without a credential, keys stay underivable until an activation or a load. */
  lemma {:induction false} RunGainsForCause(m: Machine, ops: seq<Op>)
    requires !m.hasCredential && Run(m, ops).machine.hasCredential
    ensures exists i :: 0 <= i < |ops| && Credits(ops[i])
  {
    var n := |ops| - 1;
    StepLosesCredential(Run(m, ops[..n]).machine, ops[n]);
    if Run(m, ops[..n]).machine.hasCredential {
      RunGainsForCause(m, ops[..n]);
      var i :| 0 <= i < n && Credits(ops[..n][i]);
      assert Credits(ops[i]);
    } else {
      assert Credits(ops[n]);
    }
  }

  /** Once a wipe has been emitted, key derivation waits for a later activation or load. */
  lemma {:induction false} WipedStaysDark(m: Machine, op: Op, ops: seq<Op>)
    requires WipeAll in Apply(m, op).effects
    requires Run(Apply(m, op).machine, ops).machine.PermitsKeyDerivation()
    ensures exists i :: 0 <= i < |ops| && Credits(ops[i])
  {
    StepLosesCredential(m, op);
    RunGainsForCause(Apply(m, op).machine, ops);
  }

  // ----- leaving Locked

  ghost predicate WipedThenCredited(ops: seq<Op>) {
    exists i, j :: 0 <= i < j < |ops| && Discredits(ops[i]) && Credits(ops[j])
  }

  lemma WipedThenCreditedExtends(ops: seq<Op>, op: Op)
    requires WipedThenCredited(ops)
    ensures WipedThenCredited(ops + [op])
  {
    var i, j :| 0 <= i < j < |ops| && Discredits(ops[i]) && Credits(ops[j]);
    assert Discredits((ops + [op])[i]) && Credits((ops + [op])[j]);
  }

  /** Where a run from Locked without a ticket can be. */
  ghost predicate LockedOrLost(m: Machine, ops: seq<Op>) {
    || WipedThenCredited(ops)
    || Run(m, ops).machine.state.Locked?
    || (!Run(m, ops).machine.hasCredential && exists i :: 0 <= i < |ops| && Discredits(ops[i]))
  }

  lemma TicketlessStep(m: Machine, ops: seq<Op>, op: Op)
    requires LockedOrLost(m, ops) && !Is(op, TicketVerified)
    ensures LockedOrLost(m, ops + [op])
  {
    RunSnoc(m, ops, op);
    StepLosesCredential(Run(m, ops).machine, op);
    if WipedThenCredited(ops) {
      WipedThenCreditedExtends(ops, op);
    } else if exists i :: 0 <= i < |ops| && Discredits(ops[i]) {
      var i :| 0 <= i < |ops| && Discredits(ops[i]);
      assert Discredits((ops + [op])[i]);
      assert Credits(op) ==> Credits((ops + [op])[|ops|]);
    } else {
      LockedStep(Run(m, ops).machine, op);
      assert Discredits(op) ==> Discredits((ops + [op])[|ops|]);
    }
  }

  lemma {:induction false} TicketlessRun(m: Machine, ops: seq<Op>)
    requires m.state.Locked?
    requires forall i :: 0 <= i < |ops| ==> !Is(ops[i], TicketVerified)
    ensures LockedOrLost(m, ops)
  {
    if |ops| > 0 {
      var n := |ops| - 1;
      TicketlessRun(m, ops[..n]);
      TicketlessStep(m, ops[..n], ops[n]);
      assert ops == ops[..n] + [ops[n]];
    }
  }

  lemma LockedStep(m: Machine, op: Op)
    requires m.state.Locked? && !Is(op, TicketVerified)
    ensures Apply(m, op).machine.state.Locked? || (Discredits(op) && !Apply(m, op).machine.hasCredential)
  {
  }

  /** The only ways back from Locked: a verified ticket, or losing the credential and later being given another. */
  lemma {:induction false} LeavingLocked(m: Machine, ops: seq<Op>)
    requires m.state.Locked? && Run(m, ops).machine.PermitsKeyDerivation()
    ensures (exists i :: 0 <= i < |ops| && Is(ops[i], TicketVerified)) || WipedThenCredited(ops)
  {
    if forall i :: 0 <= i < |ops| ==> !Is(ops[i], TicketVerified) {
      TicketlessRun(m, ops);
    }
  }

  // ----- Revoked and Tampered

  /** The reading that takes the rollback count past the threshold. */
  predicate RollsPast(m: Machine, op: Op) {
    && op.Handle? && IsTimeEvent(op.event) && IsRollback(m.clock, op.wall)
    && Checked(m.clock, op.wall).rollbacks > m.config.rollbackThreshold
  }

  /** A terminal state is left by a fresh activation, or by a rollback past the threshold, and by nothing else. */
  lemma StepTerminal(m: Machine, op: Op)
    requires m.state.Revoked? || m.state.Tampered?
    ensures Apply(m, op).machine.state != m.state <==> Is(op, ActivationVerified) || RollsPast(m, op)
    ensures RollsPast(m, op) ==> Apply(m, op).machine.state.Locked?
  {
  }

  /** While the rollback count stays within the threshold, only a fresh activation leaves a terminal state. */
  lemma {:induction false} TerminalUntilActivation(m: Machine, ops: seq<Op>)
    requires m.state.Revoked? || m.state.Tampered?
    requires forall i :: 0 <= i < |ops| ==> !Is(ops[i], ActivationVerified)
    requires Run(m, ops).machine.clock.rollbacks <= m.config.rollbackThreshold
    ensures Run(m, ops).machine.state == m.state
  {
    if |ops| > 0 {
      var n := |ops| - 1;
      StepKeeps(Run(m, ops[..n]).machine, ops[n]);
      RunKeeps(m, ops[..n]);
      TerminalUntilActivation(m, ops[..n]);
      StepTerminal(Run(m, ops[..n]).machine, ops[n]);
    }
  }

  /**
   Past the threshold a terminal state is not terminal: Locked, then a ticket, and the state reads
   Active again, though without keys.
   */
  lemma TerminalEscaped(m: Machine, wall: I64)
    requires Coherent(m) && (m.state.Revoked? || m.state.Tampered?) && RollsPast(m, Handle(Tick, wall))
    ensures var last := Apply(Apply(m, Handle(Tick, wall)).machine, Handle(TicketVerified, wall)).machine;
            last.state.Active? && !last.PermitsKeyDerivation()
  {
  }

  /** A verified activation takes effect exactly when no licensed state stands in its way. */
  lemma ActivationTakesEffect(m: Machine, wall: I64)
    ensures Next(m, ActivationVerified, wall).machine.hasCredential <==> m.hasCredential || !HoldsLicence(m.state)
  {
  }

  /** `n` ticks at the same reading. */
  function TicksAt(wall: I64, n: nat): seq<Op> {
    seq(n, _ => Handle(Tick, wall))
  }

  /** A machine without a productive state, read `n` times with a rolled-back clock. */
  lemma {:induction false} RepeatedRollbacks(m: Machine, wall: I64, n: nat)
    requires !Productive(m.state) && m.clock.rollbacks == 0 && IsRollback(m.clock, wall)
    requires n <= m.config.rollbackThreshold + 1 && m.config.rollbackThreshold < U32_MAX
    ensures Run(m, TicksAt(wall, n)).machine ==
            m.(clock := m.clock.(rollbacks := n), state := if n > m.config.rollbackThreshold then Locked else m.state)
  {
    if n > 0 {
      RepeatedRollbacks(m, wall, n - 1);
      assert TicksAt(wall, n)[..n - 1] == TicksAt(wall, n - 1);
    }
  }

  /**
   Whatever the threshold, one rollback more locks a machine that never had a credential; it then
   ignores an activation.
   */
  lemma ActivationIgnored(config: CoreConfig, seed: I64, wall: I64)
    requires config.rollbackThreshold < U32_MAX && IsRollback(Fresh(seed), wall)
    ensures var locked := Run(Initial(config, seed), TicksAt(wall, config.rollbackThreshold + 1)).machine;
            locked.state.Locked? && !Next(locked, ActivationVerified, wall).machine.hasCredential
  {
    RepeatedRollbacks(Initial(config, seed), wall, config.rollbackThreshold + 1);
  }

  lemma KilledFirst(config: CoreConfig, seed: I64, kill: KillReason)
    ensures Run(Initial(config, seed), [Handle(KillOrderVerified(kill), seed)]).machine ==
            Initial(config, seed).(state := Revoked)
  {
    assert [Handle(KillOrderVerified(kill), seed)] == [] + [Handle(KillOrderVerified(kill), seed)];
    RunSnoc(Initial(config, seed), [], Handle(KillOrderVerified(kill), seed));
  }

  lemma TicketUnlocks(m: Machine, wall: I64)
    requires m.state.Locked?
    ensures var next := Apply(m, Handle(TicketVerified, wall)).machine;
            next.state.Active? && next.hasCredential == m.hasCredential
  {
  }

  /** A run that escapes: a kill order, one rollback more than the threshold, a ticket. */
  lemma RevokedThenActive(config: CoreConfig, seed: I64, wall: I64, kill: KillReason)
    requires config.rollbackThreshold < U32_MAX && IsRollback(Fresh(seed), wall)
    ensures var killed := [Handle(KillOrderVerified(kill), seed)];
            var locked := killed + TicksAt(wall, config.rollbackThreshold + 1);
            && Run(Initial(config, seed), killed).machine.state.Revoked?
            && Run(Initial(config, seed), locked).machine.state.Locked?
            && var last := Run(Initial(config, seed), locked + [Handle(TicketVerified, wall)]).machine;
               last.state.Active? && !last.PermitsKeyDerivation()
  {
    var m, killed := Initial(config, seed), [Handle(KillOrderVerified(kill), seed)];
    var ticks := TicksAt(wall, config.rollbackThreshold + 1);
    KilledFirst(config, seed, kill);
    RunConcat(m, killed, ticks);
    RepeatedRollbacks(m.(state := Revoked), wall, config.rollbackThreshold + 1);
    RunSnoc(m, killed + ticks, Handle(TicketVerified, wall));
    TicketUnlocks(Run(m, killed + ticks).machine, wall);
  }

  // ----- deadlines

  /** The grace window ends no earlier than the refresh date, unless the hard expiry comes first. */
  ghost predicate Ordered(d: Deadlines) {
    d.refreshAfter <= d.graceDeadline || (d.notAfter != 0 && d.notAfter <= d.graceDeadline)
  }

  /** A licensed machine whose high-water mark has reached the grace deadline. */
  ghost predicate Expired(m: Machine) {
    HoldsLicence(m.state) && Ordered(m.deadlines) && m.clock.seen >= m.deadlines.graceDeadline
  }

  /** Everything but a good ticket, a loss of the credential, or new deadlines. */
  predicate Powerless(op: Op) {
    match op
    case Handle(e, _) =>
      e.Tick? || e.AppResumed? || e.NetworkAvailable? || e.NetworkFailed? || e.CredentialLoaded?
      || e.ActivationVerified? || e.TicketDenied?
    case SetDeadlines(_) => false
    case ObserveServerTime(_) => true
    case NoteAttempt(_) => true
  }

  function TimeEvents(ops: seq<Op>): nat {
    if |ops| == 0 then 0
    else
      var op := ops[|ops| - 1];
      TimeEvents(ops[..|ops| - 1]) + if op.Handle? && IsTimeEvent(op.event) then 1 else 0
  }

  /** How many time events stand between the state and Locked. */
  function Distance(s: LicenseState): nat {
    if s.Active? then 2 else if Productive(s) then 1 else 0
  }

  lemma LockoutStep(m: Machine, op: Op)
    requires Expired(m) && Powerless(op)
    ensures var next := Apply(m, op).machine;
            && Expired(next) && Distance(next.state) <= Distance(m.state)
            && (op.Handle? && IsTimeEvent(op.event) ==> Distance(next.state) <= Max(0, Distance(m.state) - 1))
  {
  }

  /**
   Bounded lockout, whatever the clock says: once the high-water mark has reached the grace
   deadline, two time events end key derivation, and nothing but a good ticket, a loss of the
   credential or new deadlines brings it back.
   */
  lemma {:induction false} BoundedLockout(m: Machine, ops: seq<Op>)
    requires Expired(m) && forall i :: 0 <= i < |ops| ==> Powerless(ops[i])
    ensures Expired(Run(m, ops).machine)
    ensures Distance(Run(m, ops).machine.state) <= Max(0, Distance(m.state) - TimeEvents(ops))
    ensures TimeEvents(ops) >= 2 ==> Run(m, ops).machine.state.Locked? && !Run(m, ops).machine.PermitsKeyDerivation()
  {
    if |ops| > 0 {
      BoundedLockout(m, ops[..|ops| - 1]);
      LockoutStep(Run(m, ops[..|ops| - 1]).machine, ops[|ops| - 1]);
    }
  }

  /**
   The first time event of an active machine past its grace deadline locks it only on hard expiry or
   too many rollbacks.
   */
  lemma FirstTickLocks(m: Machine, wall: I64)
    requires Expired(m) && m.state.Active?
    ensures Timed(m, wall).machine.state.Locked? <==>
              RollsPast(m, Handle(Tick, wall))
              || (!IsRollback(m.clock, wall) && m.deadlines.HardExpired(EffectiveNow(m.clock, wall)))
  {
  }

  /** A run to a machine that the first tick after its grace deadline does not lock. */
  lemma FirstTickSpares(config: CoreConfig)
    ensures var ops := [SetDeadlines(Deadlines(10, 20, 0)), Handle(ActivationVerified, 0), ObserveServerTime(100)];
            var m := Run(Initial(config, 0), ops).machine;
            && m.state.Active? && m.PermitsKeyDerivation() && Expired(m)
            && Run(Initial(config, 0), ops + [Handle(Tick, 100)]).machine.state.NeedsRevalidation?
  {
    var m := Initial(config, 0);
    var dated := [SetDeadlines(Deadlines(10, 20, 0))];
    var active := [SetDeadlines(Deadlines(10, 20, 0)), Handle(ActivationVerified, 0)];
    var late := [SetDeadlines(Deadlines(10, 20, 0)), Handle(ActivationVerified, 0), ObserveServerTime(100)];
    assert dated == [] + dated && active == dated + [active[1]] && late == active + [late[2]];
    RunSnoc(m, [], dated[0]);
    RunSnoc(m, dated, active[1]);
    RunSnoc(m, active, late[2]);
    RunSnoc(m, late, Handle(Tick, 100));
  }

  // ----- the grace window is honoured

  /** `t` lies before every deadline that locks. */
  predicate Before(t: I64, d: Deadlines) {
    t < d.graceDeadline && (d.notAfter == 0 || t < d.notAfter)
  }

  /** An outage: time passes, the network comes and goes, nothing is verified. */
  predicate Outage(op: Op, d: Deadlines) {
    && op.Handle? && Before(op.wall, d)
    && (op.event.Tick? || op.event.AppResumed? || op.event.NetworkAvailable? || op.event.NetworkFailed?)
  }

  lemma OutageStep(m: Machine, op: Op)
    requires Productive(m.state) && Before(m.clock.seen, m.deadlines) && Outage(op, m.deadlines)
    requires Apply(m, op).machine.clock.rollbacks <= m.config.rollbackThreshold
    ensures var next := Apply(m, op).machine;
            && Productive(next.state) && next.hasCredential == m.hasCredential
            && Before(next.clock.seen, next.deadlines) && next.deadlines == m.deadlines
  {
  }

  /** Fail open: no outage ends key derivation before the grace deadline, while rollbacks stay within the threshold. */
  lemma {:induction false} GraceHonoured(m: Machine, ops: seq<Op>)
    requires Productive(m.state) && Before(m.clock.seen, m.deadlines)
    requires forall i :: 0 <= i < |ops| ==> Outage(ops[i], m.deadlines)
    requires Run(m, ops).machine.clock.rollbacks <= m.config.rollbackThreshold
    ensures var last := Run(m, ops).machine;
            && Productive(last.state) && last.hasCredential == m.hasCredential
            && Before(last.clock.seen, last.deadlines) && last.deadlines == m.deadlines
  {
    if |ops| > 0 {
      var n := |ops| - 1;
      StepKeeps(Run(m, ops[..n]).machine, ops[n]);
      RunConfig(m, ops[..n]);
      GraceHonoured(m, ops[..n]);
      OutageStep(Run(m, ops[..n]).machine, ops[n]);
    }
  }

  lemma {:induction false} RunConfig(m: Machine, ops: seq<Op>)
    ensures Run(m, ops).machine.config == m.config
  {
    if |ops| > 0 {
      RunConfig(m, ops[..|ops| - 1]);
      StepKeeps(Run(m, ops[..|ops| - 1]).machine, ops[|ops| - 1]);
    }
  }
}
