/**
 What every event does, state by state and in plain comparisons, and what follows over runs: a ticket
 always restores a licensed machine, and nothing but time, a denial or a loss takes it out of Active.
 */
module MachineMoves {
  import opened Saturating
  import opened StateMachine
  import opened MachineRuns

  predicate Licensed(s: LicenseState) {
    s.Active? || s.NeedsRevalidation? || s.Grace? || s.Locked?
  }

  /** The last effect of an outcome. */
  predicate EndsWith(o: Outcome, e: Effect) {
    |o.effects| > 0 && o.effects[|o.effects| - 1] == e
  }

  // ----- what the server says

  /** A verified ticket makes every licensed state Active and sets the next wake; elsewhere it does nothing. */
  lemma TicketRestores(m: Machine, wall: I64)
    ensures var o := Next(m, TicketVerified, wall);
            if Licensed(m.state) then
              && o.machine == m.(state := Active) && EndsWith(o, ScheduleWake(m.deadlines.refreshAfter))
              && (!m.state.Active? ==> StateChanged(Active, Validated) in o.effects)
            else o == Outcome(m, [])
  {
  }

  /** A denied ticket locks every licensed state, for its own reason. */
  lemma TicketLocks(m: Machine, v: Verdict, wall: I64)
    ensures var o := Next(m, TicketDenied(v), wall);
            if Licensed(m.state) then
              && o.machine == m.(state := Locked)
              && (!m.state.Locked? ==>
                    o.effects == [StateChanged(Locked, if v.NeedsReactivation? then ReactivationRequired
                                                       else if v.VersionOutOfScopeVerdict? then VersionOutOfScope
                                                       else Validated)])
            else o == Outcome(m, [])
  {
  }

  /** A credential read from the store activates an unlicensed machine, and only that. */
  lemma LoadActivates(m: Machine, wall: I64)
    ensures var o := Next(m, CredentialLoaded, wall);
            if m.state.Unlicensed? then
              && o.machine == m.(state := Active, hasCredential := true)
              && o.effects == [StateChanged(Active, Activated), ScheduleWake(m.deadlines.refreshAfter)]
            else o == Outcome(m, [])
  {
  }

  /** A verified activation activates every unlicensed state, and only those. */
  lemma ActivationActivates(m: Machine, wall: I64)
    ensures var o := Next(m, ActivationVerified, wall);
            if Licensed(m.state) then o == Outcome(m, [])
            else
              && o.machine == m.(state := Active, hasCredential := true)
              && StateChanged(Active, Activated) in o.effects
              && (m.state.Unlicensed? || m.state.Activating? ==> EndsWith(o, ScheduleWake(m.deadlines.refreshAfter)))
  {
  }

  /** A kill order wipes from every state but the two that are already dead. */
  lemma KillOrderWipes(m: Machine, kill: KillReason, wall: I64)
    ensures var o := Next(m, KillOrderVerified(kill), wall);
            if m.state.Revoked? || m.state.Tampered? then o == Outcome(m, [])
            else
              && o.machine == m.(state := Revoked, hasCredential := false)
              && o.effects == [WipeAll, StateChanged(Revoked, KillOrder(kill))]
  {
  }

  /** A failed verification means Tampered, and wipes what a licensed machine held. */
  lemma FailureTampers(m: Machine, e: FatalError, wall: I64)
    ensures var o := Next(m, VerificationFailed(e), wall);
            if m.state.Revoked? || m.state.Tampered? then o == Outcome(m, [])
            else
              && o.machine.state.Tampered? && StateChanged(Tampered, IntegrityFailed) in o.effects
              && (Licensed(m.state) ==> !o.machine.hasCredential && WipeAll in o.effects)
              && o.machine == m.(state := Tampered, hasCredential := m.hasCredential && !Licensed(m.state))
  {
  }

  /** Deactivation wipes whatever is licensed or about to be. */
  lemma DeactivationWipes(m: Machine, wall: I64)
    ensures var o := Next(m, UserDeactivate, wall);
            if Licensed(m.state) || m.state.Activating? then
              && o.machine == m.(state := Unlicensed, hasCredential := false)
              && o.effects == [WipeAll, StateChanged(Unlicensed, UserRequested)]
            else o == Outcome(m, [])
  {
  }

  // ----- what the network does

  /** A network that comes back asks for a validation in exactly the states that wait for one. */
  lemma NetworkReturns(m: Machine, wall: I64)
    ensures var now := Max(m.clock.seen, wall);
            var o := Next(m, NetworkAvailable, wall);
            if || m.state.NeedsRevalidation? || m.state.Grace? || m.state.Locked?
               || (m.state.Active? && now >= m.deadlines.refreshAfter)
            then o == Outcome(m.(lastAttempt := now), [SendValidation])
            else o == Outcome(m, [])
  {
  }

  /** A failure while a validation is due opens the grace window, or locks once it has closed. */
  lemma NetworkFails(m: Machine, e: TransientError, wall: I64)
    ensures var now, d := Max(m.clock.seen, wall), m.deadlines;
            var o := Next(m, NetworkFailed(e), wall);
            if m.state.Activating? then
              o == Outcome(m.(state := Unlicensed), [StateChanged(Unlicensed, NetworkUnavailable)])
            else if m.state.NeedsRevalidation? && now < d.graceDeadline && (d.notAfter == 0 || now < d.notAfter) then
              o == Outcome(m.(state := Grace), [StateChanged(Grace, NetworkUnavailable), ScheduleWake(d.graceDeadline)])
            else if m.state.NeedsRevalidation? then
              o == Outcome(m.(state := Locked), [StateChanged(Locked, StateReason.GraceExhausted)])
            else o == Outcome(m, [])
  {
  }

  // ----- what time does

  /** The state after a time event that finds the clock in order, by the deadlines alone. */
  function AgedState(s: LicenseState, d: Deadlines, now: I64): LicenseState {
    var hard := d.notAfter != 0 && now >= d.notAfter;
    if s.Active? && hard then Locked
    else if s.Active? && now >= d.refreshAfter then NeedsRevalidation
    else if (s.NeedsRevalidation? || s.Grace?) && (hard || now >= d.graceDeadline) then Locked
    else s
  }

  /** A time event: too many rollbacks lock, a rollback sends Active to revalidation, and deadlines do the rest. */
  lemma TimePasses(m: Machine, wall: I64)
    ensures var o := Timed(m, wall);
            var back := wall + 300 < m.clock.seen;
            var now := Max(m.clock.seen, wall);
            && (back && m.clock.rollbacks + 1 > m.config.rollbackThreshold && m.clock.rollbacks < U32_MAX ==>
                  o.machine.state.Locked?)
            && (back && m.clock.rollbacks + 1 <= m.config.rollbackThreshold && m.state.Active? ==>
                  o.machine.state.NeedsRevalidation? && EndsWith(o, SendValidation))
            && (!back ==> o.machine.state == AgedState(m.state, m.deadlines, now))
            && (!back && m.state.Active? && o.machine.state.NeedsRevalidation? ==> EndsWith(o, SendValidation))
            && (back && m.clock.rollbacks + 1 <= m.config.rollbackThreshold && !m.state.Active? ==>
                  o.machine.state == AgedState(m.state, m.deadlines, now))
  {
  }

  // ----- over runs

  lemma LicensedStep(m: Machine, op: Op)
    requires Licensed(m.state) && !Discredits(op)
    ensures Licensed(Apply(m, op).machine.state) && (m.hasCredential ==> Apply(m, op).machine.hasCredential)
  {
    HarmlessStep(m, op);
  }

  lemma {:induction false} LicensedRun(m: Machine, ops: seq<Op>)
    requires Licensed(m.state) && forall i :: 0 <= i < |ops| ==> !Discredits(ops[i])
    ensures Licensed(Run(m, ops).machine.state) && (m.hasCredential ==> Run(m, ops).machine.hasCredential)
  {
    if |ops| > 0 {
      LicensedRun(m, ops[..|ops| - 1]);
      LicensedStep(Run(m, ops[..|ops| - 1]).machine, ops[|ops| - 1]);
    }
  }

  /** Whatever a licensed machine has been through, short of losing its license, a ticket makes it Active again. */
  lemma {:induction false} TicketEndsRun(m: Machine, ops: seq<Op>, wall: I64)
    requires Licensed(m.state) && forall i :: 0 <= i < |ops| ==> !Discredits(ops[i])
    ensures var last := Run(m, ops + [Handle(TicketVerified, wall)]).machine;
            && last.state.Active? && (last.PermitsKeyDerivation() <==> Run(m, ops).machine.hasCredential)
            && (m.hasCredential ==> last.PermitsKeyDerivation())
  {
    LicensedRun(m, ops);
    RunSnoc(m, ops, Handle(TicketVerified, wall));
    TicketRestores(Run(m, ops).machine, wall);
  }

  /** Before the refresh date and any hard expiry. */
  predicate Early(t: I64, d: Deadlines) {
    t < d.refreshAfter && (d.notAfter == 0 || t < d.notAfter)
  }

  /** Time passes and the network comes and goes, all before the refresh date. */
  predicate EarlyOp(op: Op, d: Deadlines) {
    && op.Handle? && Early(op.wall, d)
    && (op.event.Tick? || op.event.AppResumed? || op.event.NetworkAvailable? || op.event.NetworkFailed?)
  }

  lemma EarlyStep(m: Machine, op: Op)
    requires m.state.Active? && Early(m.clock.seen, m.deadlines) && EarlyOp(op, m.deadlines)
    requires Apply(m, op).machine.clock.rollbacks == m.clock.rollbacks < U32_MAX
    ensures var next := Apply(m, op).machine;
            && next.state.Active? && next.deadlines == m.deadlines && Early(next.clock.seen, next.deadlines)
            && SendValidation !in Apply(m, op).effects
  {
  }

  /** Nothing is asked and nothing changes before the refresh date, as long as the clock is not turned back. */
  lemma {:induction false} ActiveUntilRefresh(m: Machine, ops: seq<Op>)
    requires m.state.Active? && Early(m.clock.seen, m.deadlines)
    requires forall i :: 0 <= i < |ops| ==> EarlyOp(ops[i], m.deadlines)
    requires Run(m, ops).machine.clock.rollbacks == m.clock.rollbacks < U32_MAX
    ensures var last := Run(m, ops);
            && last.machine.state.Active? && last.machine.deadlines == m.deadlines
            && Early(last.machine.clock.seen, m.deadlines) && SendValidation !in last.effects
  {
    if |ops| > 0 {
      var n := |ops| - 1;
      RunKeeps(m, ops[..n]);
      StepKeeps(Run(m, ops[..n]).machine, ops[n]);
      ActiveUntilRefresh(m, ops[..n]);
      EarlyStep(Run(m, ops[..n]).machine, ops[n]);
    }
  }
}
