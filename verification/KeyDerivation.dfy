/**
 When the client can derive keys.

 The client derives from its key material whenever the state of its machine is productive; it does
 not ask the machine's own flag. These theorems are about that, over every interleaving.
 */
module KeyDerivation {
  import opened Wrappers
  import opened Saturating
  import opened Clock
  import opened StateMachine
  import opened MachineRuns
  import opened Artifacts
  import opened Chain
  import opened Client
  import opened ClientInvariant

  predicate Derives(r: Runtime) {
    r.material.Some? && Productive(r.machine.state)
  }

  /** The segment commits a ticket whose verdict is good. */
  predicate GoodTicket(h: Host, r: Runtime, t: Turn) {
    && t.segment.SCommitTicket? && r.credential.Some?
    && var ticket := OpenTicket(h, r, r.credential.value, t.segment.env, t.segment.nonce, t.now);
       ticket.Ok? && ticket.value.verdict.VerdictOk?
  }

  /** The segment installs a credential or an offline license. */
  predicate Installs(h: Host, r: Runtime, t: Turn) {
    && r.snapshot.Some?
    && match t.segment
       case SImportResponse(env, p) =>
         && r.credential.None? && r.olk.None? && r.snapshot.value.pendingNonce.Some?
         && OpenResponse(h, r, r.snapshot.value, r.snapshot.value.pendingNonce.value, env, p, t.now).Ok?
       case SImportOlk(_, env, p, certs) =>
         r.credential.None? && r.olk.None? && OpenBundle(h, r, r.snapshot.value, env, p, certs, t.now).Ok?
       case SInstallActivation(encoded, _) =>
         && r.chain.Some?
         && OpenMachineCredential(h, encoded, r.chain.value, r.snapshot.value, EffectiveNow(r.machine.clock, t.now),
                                  r.maxSecurityFloor, r.maxRevocationEpoch).Ok?
       case _ => false
  }

  // ----- what one segment can do

  /** An installation cannot take the machine out of Locked. */
  lemma InstalledStep(r: Runtime, l: Licence, s: Snapshot, chain: ChainValue, now: I64, saved: bool)
    ensures r.machine.state.Locked? ==> Installed(r, l, s, chain, now, saved).runtime.machine.state.Locked?
  {
  }

  /**
   An attempt to install that fails leaves the client as it was or erased; one that succeeds does not
   leave Locked.
   */
  lemma InstallStep(h: Host, r: Runtime, t: Turn)
    requires t.segment.SImportResponse? || t.segment.SImportOlk? || t.segment.SInstallActivation?
    ensures var next := Execute(h, r, t).runtime;
            if Installs(h, r, t) then r.machine.state.Locked? ==> next.machine.state.Locked?
            else next == r || next.material.None?
  {
    match t.segment
    case SImportResponse(env, p) => ResponseStep(h, r, env, p, t.now, t.saved, t.wiped);
    case SImportOlk(e, env, p, certs) => OlkStep(h, r, e, env, p, certs, t.now, t.saved, t.wiped);
    case SInstallActivation(_, _) =>
  }

  lemma ResponseStep(h: Host, r: Runtime, env: Envelope, p: ActivationResponse, now: I64, saved: bool, wiped: bool)
    ensures var next := ImportResponse(h, r, env, p, now, saved, wiped).runtime;
            if Installs(h, r, Turn(SImportResponse(env, p), now, saved, wiped))
            then r.machine.state.Locked? ==> next.machine.state.Locked?
            else next == r || next.material.None?
  {
    if r.snapshot.Some? && r.snapshot.value.pendingNonce.Some? {
      var s := r.snapshot.value;
      var outcome := OpenResponse(h, r, s, s.pendingNonce.value, env, p, now);
      if outcome.Ok? {
        var (response, c, m, chain) := outcome.value;
        InstalledStep(ClockObserved(r, response.serverTime), CredentialLicence(c, m),
                      s.(credentialEnvelope := Some(response.credential), epochCertificates := response.chain), chain,
                      now, saved);
      }
    }
  }

  lemma OlkStep(h: Host, r: Runtime, encoded: Bytes, env: Envelope, p: OfflineLicenseKey, certs: seq<Bytes>, now: I64,
                saved: bool, wiped: bool)
    ensures var next := ImportOlk(h, r, encoded, env, p, certs, now, saved, wiped).runtime;
            if Installs(h, r, Turn(SImportOlk(encoded, env, p, certs), now, saved, wiped))
            then r.machine.state.Locked? ==> next.machine.state.Locked?
            else next == r || next.material.None?
  {
    if r.snapshot.Some? {
      var s := r.snapshot.value;
      var outcome := OpenBundle(h, r, s, env, p, certs, now);
      if outcome.Ok? {
        var (l, m, chain) := outcome.value;
        InstalledStep(ClockObserved(r, l.issuedAt), OlkLicence(l, m),
                      s.(credentialEnvelope := Some(encoded), epochCertificates := certs), chain, now, saved);
      }
    }
  }

  /** A ticket never brings material, and one that is not good never brings a productive state. */
  lemma CommitStep(h: Host, r: Runtime, t: Turn)
    requires t.segment.SCommitTicket?
    ensures var next := Execute(h, r, t).runtime;
            && (r.material.None? ==> next.material.None?)
            && (!GoodTicket(h, r, t) ==>
                  next == r || next.material.None? || Denied(r.machine.state, next.machine.state))
  {
    if r.credential.Some? {
      var outcome := OpenTicket(h, r, r.credential.value, t.segment.env, t.segment.nonce, t.now);
      if outcome.Ok? {
        RecordStep(ClockObserved(r, outcome.value.serverTime), r.credential.value, outcome.value, t.segment.encoded,
                   t.now, t.saved);
      }
    }
  }

  /** Where a denied ticket leads. */
  predicate Denied(from: LicenseState, to: LicenseState) {
    if HoldsLicence(from) then to.Locked? else to == from
  }

  lemma RecordStep(r: Runtime, c: MachineCredential, t: ValidationTicket, encoded: Bytes, now: I64, saved: bool)
    ensures var next := RecordTicket(r, c, t, encoded, now, saved).runtime;
            && (r.material.None? ==> next.material.None?)
            && (!t.verdict.VerdictOk? ==> Denied(r.machine.state, next.machine.state))
  {
  }

  lemma BatchStep(h: Host, r: Runtime, t: Turn)
    requires t.segment.SApplyBatch?
    ensures var next := Execute(h, r, t).runtime;
            (next.machine == r.machine && next.material == r.material) || next.material.None?
  {
  }

  /** The steps of the machine that a segment makes without a ticket, an installation or an erasure. */
  predicate Quiet(op: Op, t: Turn) {
    if t.segment == SPulse(false) then op == Handle(Tick, t.now)
    else op.NoteAttempt? || (op.Handle? && (op.event.NetworkAvailable? || op.event.NetworkFailed?))
  }

  /** A segment that neither installs nor commits a good ticket erases, is denied, or makes a quiet step. */
  lemma QuietStep(h: Host, r: Runtime, t: Turn) returns (op: Op)
    requires !Installs(h, r, t) && !GoodTicket(h, r, t)
    ensures Quiet(op, t)
    ensures var next := Execute(h, r, t).runtime;
            || next.material.None?
            || (t.segment.SCommitTicket? && Denied(r.machine.state, next.machine.state))
            || (next.machine == Apply(r.machine, op).machine && (r.material.None? ==> next.material.None?))
  {
    op := NoteAttempt(r.machine.lastAttempt);
    match t.segment
    case SImportResponse(_, _) => InstallStep(h, r, t);
    case SImportOlk(_, _, _, _) => InstallStep(h, r, t);
    case SInstallActivation(_, _) => InstallStep(h, r, t);
    case SCommitTicket(_, _, _) => CommitStep(h, r, t);
    case SApplyBatch(_, _, _) => BatchStep(h, r, t);
    case STransientFailure(e) => op := Handle(NetworkFailed(e), t.now);
    case SPulse(online) => op := Handle(if online then NetworkAvailable else Tick, t.now);
    case SBeginValidate(_) => op := NoteAttempt(t.now);
    case _ =>
  }

  lemma QuietMachine(m: Machine, op: Op, t: Turn)
    requires Quiet(op, t)
    ensures !Productive(m.state) ==> !Productive(Apply(m, op).machine.state)
    ensures m.state.Locked? ==> Apply(m, op).machine.state.Locked?
  {
  }

  lemma MaterialStep(h: Host, r: Runtime, t: Turn)
    requires !Installs(h, r, t) && r.material.None?
    ensures Execute(h, r, t).runtime.material.None?
  {
    if t.segment.SCommitTicket? {
      CommitStep(h, r, t);
    } else {
      var op := QuietStep(h, r, t);
    }
  }

  // ----- whole executions

  ghost predicate InstalledAt(h: Host, r: Runtime, turns: seq<Turn>, i: nat) {
    i < |turns| && Installs(h, Interleave(h, r, turns[..i]), turns[i])
  }

  ghost predicate GoodTicketAt(h: Host, r: Runtime, turns: seq<Turn>, i: nat) {
    i < |turns| && GoodTicket(h, Interleave(h, r, turns[..i]), turns[i])
  }

  /** Nothing is held and the machine is not locked, as after an erasure. */
  ghost predicate GoneAt(h: Host, r: Runtime, turns: seq<Turn>, i: nat) {
    i <= |turns| && var now := Interleave(h, r, turns[..i]); now.material.None? && !now.machine.state.Locked?
  }

  /** What happened early in an execution happened in every longer one. */
  lemma AtPrefix(h: Host, r: Runtime, turns: seq<Turn>, n: nat, i: nat)
    requires i <= n <= |turns|
    ensures GoneAt(h, r, turns[..n], i) == GoneAt(h, r, turns, i)
    ensures i < n ==> InstalledAt(h, r, turns[..n], i) == InstalledAt(h, r, turns, i)
    ensures i < n ==> GoodTicketAt(h, r, turns[..n], i) == GoodTicketAt(h, r, turns, i)
  {
    assert turns[..n][..i] == turns[..i];
  }

  /** A client without material derives nothing until something is installed. */
  lemma {:induction false} DarkUntilInstalled(h: Host, r: Runtime, turns: seq<Turn>)
    requires r.material.None? && Interleave(h, r, turns).material.Some?
    ensures exists i: nat :: InstalledAt(h, r, turns, i)
  {
    var n := |turns| - 1;
    var init := turns[..n];
    if Interleave(h, r, init).material.Some? {
      DarkUntilInstalled(h, r, init);
      var i: nat :| InstalledAt(h, r, init, i);
      AtPrefix(h, r, turns, n, i);
    } else if !InstalledAt(h, r, turns, n) {
      MaterialStep(h, Interleave(h, r, init), turns[n]);
    }
  }

  ghost predicate GoneThenInstalled(h: Host, r: Runtime, turns: seq<Turn>) {
    exists i: nat, j: nat :: i <= j && GoneAt(h, r, turns, i) && InstalledAt(h, r, turns, j)
  }

  lemma GoneThenInstalledExtends(h: Host, r: Runtime, turns: seq<Turn>, n: nat)
    requires n <= |turns| && GoneThenInstalled(h, r, turns[..n])
    ensures GoneThenInstalled(h, r, turns)
  {
    var i: nat, j: nat :| i <= j && GoneAt(h, r, turns[..n], i) && InstalledAt(h, r, turns[..n], j);
    AtPrefix(h, r, turns, n, i);
    AtPrefix(h, r, turns, n, j);
  }

  lemma LockedClientStep(h: Host, r: Runtime, t: Turn)
    requires r.machine.state.Locked? && !GoodTicket(h, r, t)
    ensures var next := Execute(h, r, t).runtime;
            next.machine.state.Locked? || next.material.None?
  {
    if Installs(h, r, t) {
      InstallStep(h, r, t);
    } else {
      var op := QuietStep(h, r, t);
      QuietMachine(r.machine, op, t);
    }
  }

  lemma {:induction false} TicketlessClient(h: Host, r: Runtime, turns: seq<Turn>)
    requires r.machine.state.Locked? && forall i :: 0 <= i < |turns| ==> !GoodTicketAt(h, r, turns, i)
    ensures var last := Interleave(h, r, turns);
            last.machine.state.Locked? || last.material.None? || GoneThenInstalled(h, r, turns)
  {
    if |turns| > 0 {
      var n := |turns| - 1;
      var init := turns[..n];
      var before := Interleave(h, r, init);
      forall i | 0 <= i < |init|
        ensures !GoodTicketAt(h, r, init, i)
      {
        AtPrefix(h, r, turns, n, i);
      }
      TicketlessClient(h, r, init);
      assert !GoodTicketAt(h, r, turns, n);
      if GoneThenInstalled(h, r, init) {
        GoneThenInstalledExtends(h, r, turns, n);
      } else if before.machine.state.Locked? {
        LockedClientStep(h, before, turns[n]);
      } else if Installs(h, before, turns[n]) {
        assert GoneAt(h, r, turns, n) && InstalledAt(h, r, turns, n);
      } else {
        MaterialStep(h, before, turns[n]);
      }
    }
  }

  /**
   The only ways from Locked back to keys: a good ticket, or losing everything held and having
   something installed after that.
   */
  lemma {:induction false} LockedUntilRenewed(h: Host, r: Runtime, turns: seq<Turn>)
    requires r.machine.state.Locked? && Derives(Interleave(h, r, turns))
    ensures (exists i: nat :: GoodTicketAt(h, r, turns, i)) || GoneThenInstalled(h, r, turns)
  {
    if forall i :: 0 <= i < |turns| ==> !GoodTicketAt(h, r, turns, i) {
      TicketlessClient(h, r, turns);
    }
  }

  // ----- bounded lockout

  function Ticks(turns: seq<Turn>): nat {
    if |turns| == 0 then 0
    else Ticks(turns[..|turns| - 1]) + if turns[|turns| - 1].segment == SPulse(false) then 1 else 0
  }

  /** At most `d` ticks away from deriving nothing. */
  ghost predicate Waning(r: Runtime, d: nat) {
    || r.material.None?
    || !Productive(r.machine.state)
    || (Expired(r.machine) && Distance(r.machine.state) <= d)
  }

  lemma WaningStep(h: Host, r: Runtime, t: Turn, d: nat)
    requires Waning(r, d) && !Installs(h, r, t) && !GoodTicket(h, r, t)
    ensures Waning(Execute(h, r, t).runtime, if t.segment == SPulse(false) then Max(0, d - 1) else d)
  {
    var op := QuietStep(h, r, t);
    if r.material.None? {
      MaterialStep(h, r, t);
    } else if !Productive(r.machine.state) {
      QuietMachine(r.machine, op, t);
    } else {
      LockoutStep(r.machine, op);
    }
  }

  /** No segment of the execution installs anything or commits a good ticket. */
  ghost predicate Unrenewed(h: Host, r: Runtime, turns: seq<Turn>) {
    forall i :: 0 <= i < |turns| ==> !InstalledAt(h, r, turns, i) && !GoodTicketAt(h, r, turns, i)
  }

  lemma {:induction false} UnrenewedBefore(h: Host, r: Runtime, turns: seq<Turn>, n: nat)
    requires Unrenewed(h, r, turns) && n < |turns|
    ensures Unrenewed(h, r, turns[..n])
    ensures var now := Interleave(h, r, turns[..n]); !Installs(h, now, turns[n]) && !GoodTicket(h, now, turns[n])
  {
    forall i | 0 <= i < n
      ensures !InstalledAt(h, r, turns[..n], i) && !GoodTicketAt(h, r, turns[..n], i)
    {
      AtPrefix(h, r, turns, n, i);
    }
    assert !InstalledAt(h, r, turns, n) && !GoodTicketAt(h, r, turns, n);
  }

  lemma {:induction false} WaningRun(h: Host, r: Runtime, turns: seq<Turn>, d: nat)
    requires Waning(r, d) && Unrenewed(h, r, turns)
    ensures Waning(Interleave(h, r, turns), Max(0, d - Ticks(turns)))
  {
    if |turns| > 0 {
      var n := |turns| - 1;
      UnrenewedBefore(h, r, turns, n);
      WaningRun(h, r, turns[..n], d);
      WaningStep(h, Interleave(h, r, turns[..n]), turns[n], Max(0, d - Ticks(turns[..n])));
    }
  }

  /**
   Every reachable client whose high-water mark has reached its grace deadline derives no key after
   its second clock tick, whatever its clock reads and whatever else happens, unless it installs a
   credential or commits a good ticket.
   */
  lemma {:induction false} ClientLockout(h: Host, r: Runtime, turns: seq<Turn>)
    requires Inv(r) && r.machine.clock.seen >= r.machine.deadlines.graceDeadline && Unrenewed(h, r, turns)
    ensures Ticks(turns) >= 2 ==> !Derives(Interleave(h, r, turns))
  {
    WaningRun(h, r, turns, 2);
  }
}
