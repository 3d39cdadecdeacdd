/**
 What a client that stops and starts again finds: its own licence, terms and marks, in the state that
 its clock and its last ticket put it in, and when it may not start at all.
 */
module Restarts {
  import opened Wrappers
  import opened Saturating
  import opened Clock
  import opened StateMachine
  import opened MachineRuns
  import opened MachineMoves
  import opened Artifacts
  import opened Chain
  import opened Trust
  import opened Ticket
  import opened Client
  import opened ClientInvariant
  import opened ClientTheorems
  import opened KeyDerivation
  import opened SegmentEffects

  // ----- what the snapshot says

  function CredentialIn(h: Host, encoded: Bytes): Option<MachineCredential> {
    var env := h.suite.decodeEnvelope(encoded);
    if env.Some? && env.value.kind == MachineCredKind then h.suite.decodeCredential(env.value.tbs) else None
  }

  function LicenseIn(h: Host, encoded: Bytes): Option<OfflineLicenseKey> {
    var env := h.suite.decodeEnvelope(encoded);
    if env.Some? && env.value.kind == OfflineLicenseKind then h.suite.decodeOlk(env.value.tbs) else None
  }

  function TicketIn(h: Host, encoded: Bytes): Option<ValidationTicket> {
    var env := h.suite.decodeEnvelope(encoded);
    if env.Some? then h.suite.decodeTicket(env.value.tbs) else None
  }

  /** The client runs on what its snapshot holds, by the terms of the credential or of the last ticket. */
  ghost predicate Backed(h: Host, r: Runtime) {
    r.snapshot.Some? ==>
      var s := r.snapshot.value;
      && (r.credential.None? && r.olk.None? <==> s.credentialEnvelope.None?)
      && (r.credential.Some? ==>
            && s.credentialEnvelope.Some? && CredentialIn(h, s.credentialEnvelope.value) == r.credential
            && if s.validationTicket.None? then r.machine.deadlines == CredentialDeadlines(r.credential.value)
               else
                 && TicketIn(h, s.validationTicket.value).Some?
                 && r.machine.deadlines ==
                    TicketDeadlines(r.credential.value, TicketIn(h, s.validationTicket.value).value))
      && (r.olk.Some? ==>
            && s.credentialEnvelope.Some? && LicenseIn(h, s.credentialEnvelope.value) == r.olk
            && s.validationTicket.None? && r.machine.deadlines == OlkDeadlines(r.olk.value))
  }

  /** The segment was handed the envelope that its bytes decode to. */
  predicate Carried(h: Host, t: Turn) {
    match t.segment
    case SImportOlk(encoded, env, _, _) => h.suite.decodeEnvelope(encoded) == Some(env)
    case SCommitTicket(encoded, env, _) => h.suite.decodeEnvelope(encoded) == Some(env)
    case _ => true
  }

  lemma BackedCommit(h: Host, r: Runtime, t: Turn)
    requires Inv(r) && Backed(h, r) && t.segment.SCommitTicket? && Carried(h, t)
    ensures Backed(h, Execute(h, r, t).runtime)
  {
    if r.credential.Some? {
      var c, env, nonce := r.credential.value, t.segment.env, t.segment.nonce;
      var out := OpenTicket(h, r, c, env, nonce, t.now);
      if out.Ok? {
        var dated := ClockObserved(r, out.value.serverTime).machine.(deadlines := TicketDeadlines(c, out.value));
        TicketRestores(dated, t.now);
        TicketLocks(dated, out.value.verdict, t.now);
      }
    }
  }

  lemma BackedInstalled(h: Host, r: Runtime, l: Licence, s: Snapshot, chain: ChainValue, now: I64, saved: bool)
    requires s.credentialEnvelope.Some?
    requires if l.credential.Some? then
               && l == CredentialLicence(l.credential.value, l.material)
               && CredentialIn(h, s.credentialEnvelope.value) == l.credential
             else
               && l.olk.Some? && l == OlkLicence(l.olk.value, l.material)
               && LicenseIn(h, s.credentialEnvelope.value) == l.olk
    ensures Backed(h, Installed(r, l, s, chain, now, saved).runtime)
  {
    ActivationActivates(r.machine.(deadlines := l.deadlines), now);
  }

  lemma BackedResponse(h: Host, r: Runtime, t: Turn)
    requires t.segment.SImportResponse? && Installs(h, r, t)
    ensures Backed(h, Execute(h, r, t).runtime)
  {
    var s := r.snapshot.value;
    var (response, c, m, chain) :=
      OpenResponse(h, r, s, s.pendingNonce.value, t.segment.env, t.segment.response, t.now).value;
    BackedInstalled(h, ClockObserved(r, response.serverTime), CredentialLicence(c, m),
                    s.(credentialEnvelope := Some(response.credential), epochCertificates := response.chain), chain,
                    t.now, t.saved);
  }

  lemma BackedActivation(h: Host, r: Runtime, t: Turn)
    requires t.segment.SInstallActivation? && Installs(h, r, t)
    ensures Backed(h, Execute(h, r, t).runtime)
  {
    var s := r.snapshot.value;
    var (c, m) := OpenMachineCredential(h, t.segment.encoded, r.chain.value, s, EffectiveNow(r.machine.clock, t.now),
                                        r.maxSecurityFloor, r.maxRevocationEpoch).value;
    BackedInstalled(h, r.(maxRevocationEpoch := Max(r.maxRevocationEpoch, t.segment.target)), CredentialLicence(c, m),
                    s.(credentialEnvelope := Some(t.segment.encoded)), r.chain.value, t.now, t.saved);
  }

  lemma BackedBundle(h: Host, r: Runtime, t: Turn)
    requires t.segment.SImportOlk? && Installs(h, r, t) && Carried(h, t)
    ensures Backed(h, Execute(h, r, t).runtime)
  {
    var s := r.snapshot.value;
    var (l, m, chain) := OpenBundle(h, r, s, t.segment.env, t.segment.license, t.segment.certs, t.now).value;
    BackedInstalled(h, ClockObserved(r, l.issuedAt), OlkLicence(l, m),
                    s.(credentialEnvelope := Some(t.segment.encoded), epochCertificates := t.segment.certs), chain,
                    t.now, t.saved);
  }

  lemma BackedInstall(h: Host, r: Runtime, t: Turn)
    requires Inv(r) && Backed(h, r) && Carried(h, t)
    requires t.segment.SImportResponse? || t.segment.SImportOlk? || t.segment.SInstallActivation?
    ensures Backed(h, Execute(h, r, t).runtime)
  {
    if Installs(h, r, t) {
      match t.segment
      case SImportResponse(_, _) => BackedResponse(h, r, t);
      case SImportOlk(_, _, _, _) => BackedBundle(h, r, t);
      case SInstallActivation(_, _) => BackedActivation(h, r, t);
    } else {
      NotInstalled(h, r, t);
    }
  }

  /** An installation that does not go through changes nothing, or leaves nothing. */
  lemma NotInstalled(h: Host, r: Runtime, t: Turn)
    requires !Installs(h, r, t)
    requires t.segment.SImportResponse? || t.segment.SImportOlk? || t.segment.SInstallActivation?
    ensures Execute(h, r, t).runtime == r || Execute(h, r, t).runtime.snapshot.None?
  {
  }

  lemma BackedPage(h: Host, r: Runtime, t: Turn)
    requires Backed(h, r) && t.segment.SApplyBatch?
    ensures Backed(h, Execute(h, r, t).runtime)
  {
  }

  /** Time and the network change nothing but the machine, and no deadline of it. */
  lemma BackedEvent(h: Host, r: Runtime, t: Turn)
    requires Backed(h, r) && (t.segment.STransientFailure? || t.segment.SPulse?)
    ensures Backed(h, Execute(h, r, t).runtime)
  {
    match t.segment
    case STransientFailure(e) => StepMarks(r.machine, NetworkFailed(e), t.now);
    case SPulse(online) => StepMarks(r.machine, if online then NetworkAvailable else Tick, t.now);
  }

  lemma BackedStep(h: Host, r: Runtime, t: Turn)
    requires Inv(r) && Backed(h, r) && Carried(h, t)
    ensures Backed(h, Execute(h, r, t).runtime)
  {
    match t.segment
    case SCommitTicket(_, _, _) => BackedCommit(h, r, t);
    case SImportResponse(_, _) => BackedInstall(h, r, t);
    case SImportOlk(_, _, _, _) => BackedInstall(h, r, t);
    case SInstallActivation(_, _) => BackedInstall(h, r, t);
    case SApplyBatch(_, _, _) => BackedPage(h, r, t);
    case STransientFailure(_) => BackedEvent(h, r, t);
    case SPulse(_) => BackedEvent(h, r, t);
    case _ =>
  }

  /** In every execution the client runs on what its snapshot holds. */
  lemma {:induction false} BackedRun(h: Host, r: Runtime, turns: seq<Turn>)
    requires Inv(r) && Backed(h, r) && forall i :: 0 <= i < |turns| ==> Carried(h, turns[i])
    ensures Inv(Interleave(h, r, turns)) && Backed(h, Interleave(h, r, turns))
  {
    InterleaveKeeps(h, r, turns);
    if |turns| > 0 {
      var n := |turns| - 1;
      BackedRun(h, r, turns[..n]);
      BackedStep(h, Interleave(h, r, turns[..n]), turns[n]);
    }
  }

  lemma FirstBacked(h: Host, generated: Bytes, now: I64)
    ensures Backed(h, FirstStart(h, generated, now))
  {
  }

  // ----- the state a start comes up in

  /** The state of a machine that finds a licence in the store, by its marks and its deadlines alone. */
  predicate ComesUp(s: LicenseState, marks: Marks, config: CoreConfig, d: Deadlines, now: I64) {
    if now + 300 >= marks.seen then
      var at := if now > marks.seen then now else marks.seen;
      if d.notAfter != 0 && at >= d.notAfter then s.Locked?
      else if at >= d.refreshAfter then s.NeedsRevalidation?
      else s.Active?
    else if marks.rollbacks < U32_MAX && marks.rollbacks + 1 > config.rollbackThreshold then s.Locked?
    else if marks.rollbacks < U32_MAX then s.NeedsRevalidation?
    else s.Locked? || s.NeedsRevalidation?
  }

  lemma LoadedState(m: Machine, now: I64)
    requires m.state.Unlicensed?
    ensures var l := Loaded(m, now);
            && ComesUp(l.state, m.clock, m.config, m.deadlines, now) && l.deadlines == m.deadlines
            && Licensed(l.state)
  {
    LoadActivates(m, now);
    TimePasses(m.(state := Active, hasCredential := true), now);
  }

  /** How a client on a stored credential starts: by its dates, or Locked if its last ticket denied it. */
  ghost predicate StartsOn(h: Host, next: Runtime, c: MachineCredential, rec: Record, now: I64) {
    && next.credential == Some(c) && next.material.Some?
    && if rec.snapshot.validationTicket.None? then
         && Dated(next.machine.deadlines, c.refreshAfter, c.graceSeconds, c.notAfter)
         && ComesUp(next.machine.state, rec.clock, h.core, next.machine.deadlines, now)
         && next.entitlements == c.entitlements && next.material.value.session.None?
       else
         TicketIn(h, rec.snapshot.validationTicket.value).Some?
         && var t := TicketIn(h, rec.snapshot.validationTicket.value).value;
            && Dated(next.machine.deadlines, t.nextRefreshAfter, c.graceSeconds, t.notAfter)
            && next.entitlements == (if t.entitlements.Some? then t.entitlements.value else c.entitlements)
            && if t.verdict.VerdictOk? then
                 && ComesUp(next.machine.state, Observed(rec.clock, t.serverTime), h.core, next.machine.deadlines, now)
                 && next.material.value.session == Some((t.serverNonce, t.epochId))
               else next.machine.state.Locked? && next.material.value.session.None?
  }

  lemma LoadStarts(h: Host, m: Machine, rec: Record, encoded: Bytes, now: I64)
    requires Restored(h, rec) == Some(m) && LoadCredential(h, m, rec, encoded, now).Ok?
    ensures var next := LoadCredential(h, m, rec, encoded, now).value;
            CredentialIn(h, encoded).Some? && StartsOn(h, next, CredentialIn(h, encoded).value, rec, now)
  {
    var next := LoadCredential(h, m, rec, encoded, now).value;
    var c := next.credential.value;
    if rec.snapshot.validationTicket.None? {
      LoadedState(m.(deadlines := CredentialDeadlines(c)), now);
    } else {
      var t := TicketIn(h, rec.snapshot.validationTicket.value).value;
      var ready := m.(clock := Observed(m.clock, t.serverTime), deadlines := TicketDeadlines(c, t));
      LoadedState(ready, now);
      TicketLocks(Loaded(ready, now), t.verdict, now);
    }
  }

  /** A start on a stored credential finds that credential, on its terms or those of the last ticket. */
  lemma RestartState(h: Host, rec: Record, now: I64)
    requires Restart(h, rec, now).Ok? && Restart(h, rec, now).value.credential.Some?
    ensures var next := Restart(h, rec, now).value;
            && rec.snapshot.credentialEnvelope.Some?
            && CredentialIn(h, rec.snapshot.credentialEnvelope.value) == next.credential
            && StartsOn(h, next, next.credential.value, rec, now) && next.olk.None?
  {
    LoadStarts(h, Restored(h, rec).value, rec, rec.snapshot.credentialEnvelope.value, now);
  }

  /** A start on a stored offline license comes up by the license's end alone. */
  lemma RestartLicenseState(h: Host, rec: Record, now: I64)
    requires Restart(h, rec, now).Ok? && Restart(h, rec, now).value.olk.Some?
    ensures var next := Restart(h, rec, now).value;
            && rec.snapshot.credentialEnvelope.Some? && rec.snapshot.validationTicket.None?
            && LicenseIn(h, rec.snapshot.credentialEnvelope.value) == next.olk && next.credential.None?
            && next.machine.deadlines == OlkDeadlines(next.olk.value)
            && ComesUp(next.machine.state, rec.clock, h.core, next.machine.deadlines, now)
            && next.entitlements == next.olk.value.entitlements
  {
    var m := Restored(h, rec).value;
    LoadedState(m.(deadlines := OlkDeadlines(Restart(h, rec, now).value.olk.value)), now);
  }

  // ----- what a start finds

  /** A start that succeeds runs on what the stored snapshot holds. */
  lemma RestartBacked(h: Host, rec: Record, now: I64)
    requires Restart(h, rec, now).Ok?
    ensures Backed(h, Restart(h, rec, now).value)
  {
    var next := Restart(h, rec, now).value;
    if next.credential.Some? {
      RestartState(h, rec, now);
    } else if next.olk.Some? {
      RestartLicenseState(h, rec, now);
    }
  }

  /** Two clients that run on the same snapshot hold the same licence, on the same terms. */
  lemma SameSnapshot(h: Host, r: Runtime, next: Runtime)
    requires Inv(r) && Inv(next) && Backed(h, r) && Backed(h, next) && r.snapshot.Some? && next.snapshot == r.snapshot
    ensures next.credential == r.credential && next.olk == r.olk
    ensures r.material.Some? ==>
              && next.machine.deadlines == r.machine.deadlines && next.material.Some?
              && next.material.value.(session := None) == r.material.value.(session := None)
  {
  }

  /** Save, stop and start: the same licence on the same terms, and no mark or watermark lower than it was. */
  lemma SavedRestart(h: Host, r: Runtime, now: I64)
    requires Inv(r) && Backed(h, r) && r.snapshot.Some?
    requires Restart(h, Persisted(r, true).runtime.store.value, now).Ok?
    ensures var next := Restart(h, Persisted(r, true).runtime.store.value, now).value;
            && Inv(next) && Backed(h, next) && Forward(r, next)
            && next.snapshot == r.snapshot && next.credential == r.credential && next.olk == r.olk
            && (r.material.Some? ==>
                  && next.machine.deadlines == r.machine.deadlines && next.material.Some?
                  && next.material.value.(session := None) == r.material.value.(session := None))
  {
    var rec := Persisted(r, true).runtime.store.value;
    RestartSound(h, rec, now);
    RestartBacked(h, rec, now);
    SameSnapshot(h, r, Restart(h, rec, now).value);
  }

  // ----- when a start is refused

  /** A licence restarts only at the very watermarks it was issued at: any rise since then keeps it from loading. */
  lemma RestartAtWatermark(h: Host, r: Runtime, now: I64)
    requires Inv(r) && Backed(h, r) && r.snapshot.Some? && Restart(h, RecordOf(r), now).Ok?
    ensures r.credential.Some? ==>
              && r.credential.value.securityFloor == r.maxSecurityFloor
              && r.credential.value.revocationEpoch == r.maxRevocationEpoch
    ensures r.olk.Some? ==>
              && r.olk.value.securityFloor == r.maxSecurityFloor && r.olk.value.revocationEpoch == r.maxRevocationEpoch
  {
    assert Persisted(r, true).runtime.store.value == RecordOf(r);
    SavedRestart(h, r, now);
  }

  lemma RisenBlocks(h: Host, r: Runtime, revocation: U64, now: I64)
    requires Inv(r) && Backed(h, r) && r.material.Some? && revocation < r.maxRevocationEpoch
    requires if r.credential.Some? then r.credential.value.revocationEpoch <= revocation
             else r.olk.Some? ==> r.olk.value.revocationEpoch <= revocation
    ensures Restart(h, RecordOf(r), now).Err?
  {
    if Restart(h, RecordOf(r), now).Ok? {
      RestartAtWatermark(h, r, now);
    }
  }

  lemma PageSaved(h: Host, r: Runtime, target: U64, env: Envelope, now: I64, wiped: bool)
    requires Inv(r) && r.material.Some? && OpenBatch(h, r, env, now).Ok?
    requires Follows(h, r, OpenBatch(h, r, env, now).value, env, target)
    ensures var next := ApplyBatch(h, r, r.maxRevocationEpoch, target, env, now, true, wiped).runtime;
            next.material.Some? ==>
              && next.snapshot.Some? && next.store == Some(RecordOf(next))
              && next.credential == r.credential && next.olk == r.olk
              && next.maxRevocationEpoch > r.maxRevocationEpoch
  {
    AdvanceNeverFails(h, r, OpenBatch(h, r, env, now).value, env, target);
  }

  /** So a page of revocations that leaves the licence alone still keeps the client from starting on it again. */
  lemma PageBlocksRestart(h: Host, r: Runtime, target: U64, env: Envelope, now: I64, wiped: bool, later: I64)
    requires Inv(r) && Backed(h, r) && r.material.Some? && OpenBatch(h, r, env, now).Ok?
    requires Follows(h, r, OpenBatch(h, r, env, now).value, env, target)
    ensures var next := ApplyBatch(h, r, r.maxRevocationEpoch, target, env, now, true, wiped).runtime;
            next.material.Some? ==> next.store.Some? && Restart(h, next.store.value, later).Err?
  {
    KeptApplyBatch(h, r, r.maxRevocationEpoch, target, env, now, true, wiped);
    BackedPage(h, r, Turn(SApplyBatch(r.maxRevocationEpoch, target, env), now, true, wiped));
    PageSaved(h, r, target, env, now, wiped);
    var next := ApplyBatch(h, r, r.maxRevocationEpoch, target, env, now, true, wiped).runtime;
    if next.material.Some? {
      RisenBlocks(h, next, r.maxRevocationEpoch, later);
    }
  }

  /** What a stored ticket must still say when it is read back. */
  predicate TicketFits(h: Host, t: ValidationTicket, env: Envelope, c: MachineCredential) {
    && t.protoVer == 1 && t.suiteId in h.supportedSuites && env.epochRef == Some(t.epochId)
    && t.machineId == c.machineId && t.revocationEpoch >= c.revocationEpoch && t.securityFloor >= c.securityFloor
    && t.nextRefreshAfter > t.serverTime
  }

  /** The ticket of the snapshot, if there is one, verifies and fits. */
  ghost predicate TicketReads(h: Host, s: Snapshot, chain: ChainValue, c: MachineCredential, now: I64) {
    s.validationTicket.Some? ==>
      && h.suite.decodeEnvelope(s.validationTicket.value).Some?
      && var env := h.suite.decodeEnvelope(s.validationTicket.value).value;
         var t := VerifyArtifactFast(chain, h.suite, env, TicketKind, h.suite.decodeTicket, h.productId, now);
         t.Ok? && TicketFits(h, t.value, env, c)
  }

  lemma ReloadsExactly(h: Host, r: Runtime, chain: ChainValue, c: MachineCredential, encoded: Bytes, now: I64)
    requires c.securityFloor >= r.maxSecurityFloor && c.revocationEpoch >= r.maxRevocationEpoch
    requires r.snapshot.Some? && r.snapshot.value.validationTicket == Some(encoded)
    ensures ReloadTicket(h, r.machine, chain, c, encoded, now, Max(r.maxSecurityFloor, c.securityFloor),
                         Max(r.maxRevocationEpoch, c.revocationEpoch)).Ok?
            <==> TicketReads(h, r.snapshot.value, chain, c, Max(r.machine.clock.seen, now))
  {
    var env := h.suite.decodeEnvelope(encoded);
    if env.Some? {
      var v := VerifyArtifactFast(chain, h.suite, env.value, TicketKind, h.suite.decodeTicket, h.productId,
                                  EffectiveNow(r.machine.clock, now));
      if v.Ok? {
        AcceptedTicket(v.value, TicketChecks(h.supportedSuites, env.value.epochRef.value, v.value.nonceEcho,
                                             c.machineId, c.revocationEpoch, c.securityFloor));
      }
    }
  }

  /** Exactly when a client on a credential may start again from what it saves. */
  lemma RestartsExactly(h: Host, r: Runtime, env: Envelope, now: I64)
    requires Inv(r) && Backed(h, r) && r.credential.Some?
    requires h.suite.decodeEnvelope(r.snapshot.value.credentialEnvelope.value) == Some(env)
    ensures var s, c, at := r.snapshot.value, r.credential.value, Max(r.machine.clock.seen, now);
            var chain := KeysetChain(h.anchors, h.suite, Keyset(1, s.epochCertificates, r.maxRevocationEpoch),
                                     h.productId, at, r.maxRevocationEpoch, s.revokedEpochs);
            Restart(h, RecordOf(r), now).Ok? <==>
              && h.keysDecode(s.deviceKeys) && chain.Ok?
              && VerifyArtifact(chain.value, h.suite, env, MachineCredKind, h.suite.decodeCredential, h.productId, at)
                 == Ok(c)
              && CredentialFits(h, c, env, at, r.maxSecurityFloor, r.maxRevocationEpoch)
              && h.unseals(s.deviceKeys, c) && TicketReads(h, s, chain.value, c, at)
  {
    var s, c, at := r.snapshot.value, r.credential.value, Max(r.machine.clock.seen, now);
    var chain := KeysetChain(h.anchors, h.suite, Keyset(PROTO_VER, s.epochCertificates, r.maxRevocationEpoch),
                             h.productId, at, r.maxRevocationEpoch, s.revokedEpochs);
    var encoded := s.credentialEnvelope.value;
    if chain.Ok? {
      CredentialOpensExactly(h, encoded, env, chain.value, s, at, r.maxSecurityFloor, r.maxRevocationEpoch, c);
      if && s.validationTicket.Some?
         && c.securityFloor >= r.maxSecurityFloor && c.revocationEpoch >= r.maxRevocationEpoch
      {
        ReloadsExactly(h, r, chain.value, c, s.validationTicket.value, now);
      }
    }
  }
}
