/** What holds of the client in every interleaving of its lock-held segments. */
module ClientInvariant {
  import opened Wrappers
  import opened Saturating
  import opened Clock
  import opened StateMachine
  import opened MachineRuns
  import opened Artifacts
  import opened Chain
  import opened Trust
  import opened Client

  // ----- the invariant

  /** Credential, license and key material agree with one another and with what backs them. */
  ghost predicate MaterialBacked(r: Runtime) {
    && !(r.credential.Some? && r.olk.Some?)
    && (r.material.Some? <==> r.credential.Some? || r.olk.Some?)
    && (r.material.Some? ==>
          && r.snapshot.Some? && r.snapshot.value.credentialEnvelope.Some? && r.chain.Some?
          && HeldIds(r) == Some((r.material.value.licenseId, r.material.value.machineId, r.material.value.epochId)))
    && (r.machine.hasCredential ==> r.material.Some?)
  }

  /**
   What the snapshot and the chain know about revoked epochs is the same, and the chain is no further
   than the watermark.
   */
  ghost predicate RevocationAgreed(r: Runtime) {
    && (r.snapshot.Some? ==> NoDuplicates(r.snapshot.value.revokedEpochs))
    && (r.chain.Some? ==>
          && r.snapshot.Some?
          && r.chain.value.revocation.revoked == r.snapshot.value.revokedEpochs
          && r.chain.value.revocation.epoch <= r.maxRevocationEpoch)
  }

  /** What is held was not signed under a revoked epoch and is not ahead of the watermarks. */
  ghost predicate HeldIsGood(r: Runtime) {
    && (r.credential.Some? ==>
          && r.credential.value.securityFloor <= r.maxSecurityFloor
          && r.credential.value.revocationEpoch <= r.maxRevocationEpoch)
    && (r.olk.Some? ==>
          && r.olk.value.securityFloor <= r.maxSecurityFloor
          && r.olk.value.revocationEpoch <= r.maxRevocationEpoch)
    && (r.material.Some? && r.snapshot.Some? ==> r.material.value.epochId !in r.snapshot.value.revokedEpochs)
  }

  ghost predicate MachineSound(m: Machine) {
    Coherent(m) && Ordered(m.deadlines) && m.clock.server <= m.clock.seen
  }

  /** The stored record is never ahead of the running client, and its clock restores. */
  ghost predicate StoreBehind(r: Runtime) {
    r.store.Some? ==>
      var s := r.store.value;
      && s.clock.seen <= r.machine.clock.seen && s.clock.rollbacks <= r.machine.clock.rollbacks
      && s.clock.server <= s.clock.seen
      && s.securityFloor <= r.maxSecurityFloor && s.revocationEpoch <= r.maxRevocationEpoch
      && NoDuplicates(s.snapshot.revokedEpochs)
  }

  ghost predicate Inv(r: Runtime) {
    MaterialBacked(r) && RevocationAgreed(r) && HeldIsGood(r) && MachineSound(r.machine) && StoreBehind(r)
  }

  /** Neither watermark, nor the clock's marks, ever fall. */
  ghost predicate Forward(r: Runtime, next: Runtime) {
    && next.maxSecurityFloor >= r.maxSecurityFloor && next.maxRevocationEpoch >= r.maxRevocationEpoch
    && next.machine.clock.seen >= r.machine.clock.seen && next.machine.clock.rollbacks >= r.machine.clock.rollbacks
  }

  /** Short of erasure, the snapshot only adds to its revoked epochs. */
  ghost predicate Remembers(r: Runtime, next: Runtime) {
    r.snapshot.Some? && next.snapshot.Some? ==> r.snapshot.value.revokedEpochs <= next.snapshot.value.revokedEpochs
  }

  // ----- the parts segments are made of

  /** Deadlines come only from credentials, tickets and offline licenses, and all three order them. */
  lemma CredentialOrdered(c: MachineCredential)
    ensures Ordered(CredentialDeadlines(c))
  {
  }

  lemma TicketOrdered(c: MachineCredential, t: ValidationTicket)
    ensures Ordered(TicketDeadlines(c, t))
  {
  }

  lemma OlkOrdered(l: OfflineLicenseKey)
    ensures Ordered(OlkDeadlines(l))
  {
  }

  lemma MachineStep(m: Machine, e: Event, now: I64)
    requires MachineSound(m)
    ensures MachineSound(Next(m, e, now).machine)
    ensures Next(m, e, now).machine.clock.seen >= m.clock.seen
    ensures Next(m, e, now).machine.clock.rollbacks >= m.clock.rollbacks
    ensures Next(m, e, now).machine.hasCredential ==> m.hasCredential || e.ActivationVerified? || e.CredentialLoaded?
  {
    StepKeeps(m, Handle(e, now));
    StepLosesCredential(m, Handle(e, now));
  }

  /** Erasing always leaves the machine without a credential. */
  lemma ErasedMachine(m: Machine, why: Event, now: I64)
    requires Coherent(m) && (why.VerificationFailed? || why.KillOrderVerified? || why.UserDeactivate?)
    ensures !Next(m, why, now).machine.hasCredential
  {
  }

  lemma ErasedKeeps(r: Runtime, why: Event, now: I64, wiped: bool)
    requires Inv(r) && (why.VerificationFailed? || why.KillOrderVerified? || why.UserDeactivate?)
    ensures Inv(Erased(r, why, now, wiped)) && Forward(r, Erased(r, why, now, wiped))
  {
    MachineStep(r.machine, why, now);
    ErasedMachine(r.machine, why, now);
  }

  lemma PersistedKeeps(r: Runtime, saved: bool)
    requires Inv(r)
    ensures Inv(Persisted(r, saved).runtime) && Forward(r, Persisted(r, saved).runtime)
    ensures Persisted(r, saved).runtime == r.(store := Persisted(r, saved).runtime.store)
  {
  }

  /** A chain built from the snapshot's revoked epochs knows exactly those. */
  lemma RebuiltChain(h: Host, k: Keyset, now: I64, known: U64, revoked: seq<EpochId>)
    requires NoDuplicates(revoked) && KeysetChain(h.anchors, h.suite, k, h.productId, now, known, revoked).Ok?
    ensures KeysetChain(h.anchors, h.suite, k, h.productId, now, known, revoked).value.revocation
            == RevocationView(known, revoked)
  {
    KeysetContents(h.anchors, h.suite, k, h.productId, now, known, revoked);
    MergeIntoEmpty(revoked);
  }

  // ----- every segment keeps the invariant

  ghost predicate Kept(r: Runtime, next: Runtime) {
    Inv(next) && Forward(r, next) && Remembers(r, next)
  }

  lemma KeptErased(r: Runtime, why: Event, now: I64, wiped: bool)
    requires Inv(r) && (why.VerificationFailed? || why.KillOrderVerified? || why.UserDeactivate?)
    ensures Kept(r, Erased(r, why, now, wiped))
  {
    ErasedKeeps(r, why, now, wiped);
  }

  /** Saving after a change that is itself kept. */
  lemma KeptPersisted(r: Runtime, changed: Runtime, saved: bool)
    requires Kept(r, changed)
    ensures Kept(r, Persisted(changed, saved).runtime)
  {
    PersistedKeeps(changed, saved);
  }

  /** A segment that only drives the machine, with an event that cannot bring a credential. */
  lemma KeptMachine(r: Runtime, e: Event, now: I64)
    requires Inv(r) && !e.ActivationVerified? && !e.CredentialLoaded?
    ensures Kept(r, r.(machine := Next(r.machine, e, now).machine))
  {
    MachineStep(r.machine, e, now);
  }

  lemma KeptEnsureKeys(r: Runtime, generated: Bytes)
    requires Inv(r)
    ensures Kept(r, EnsureKeys(r, generated).runtime)
  {
  }

  lemma KeptBuildOfflineRequest(r: Runtime, nonce: Nonce, built: bool, saved: bool)
    requires Inv(r)
    ensures Kept(r, BuildOfflineRequest(r, nonce, built, saved).runtime)
  {
    if r.snapshot.Some? {
      KeptPersisted(r, r.(snapshot := Some(r.snapshot.value.(pendingNonce := Some(nonce)))), saved);
    }
  }

  lemma KeptBeginValidate(r: Runtime, now: I64, built: bool)
    requires Inv(r)
    ensures Kept(r, BeginValidate(r, now, built).runtime)
  {
  }

  lemma KeptTransientFailure(r: Runtime, e: TransientError, now: I64, saved: bool)
    requires Inv(r)
    ensures Kept(r, TransientFailure(r, e, now, saved).runtime)
  {
    KeptMachine(r, NetworkFailed(e), now);
    KeptPersisted(r, r.(machine := Next(r.machine, NetworkFailed(e), now).machine), saved);
  }

  lemma KeptPulse(r: Runtime, online: bool, now: I64, saved: bool)
    requires Inv(r)
    ensures Kept(r, Pulse(r, online, now, saved).runtime)
  {
    var e := if online then NetworkAvailable else Tick;
    KeptMachine(r, e, now);
    KeptPersisted(r, r.(machine := Next(r.machine, e, now).machine), saved);
  }

  lemma ObservedSound(r: Runtime, serverTime: I64)
    requires Inv(r)
    ensures Kept(r, ClockObserved(r, serverTime))
  {
  }

  /** A credential or an offline license, with the material bound to it. */
  ghost predicate OneLicence(l: Licence) {
    if l.credential.Some? then
      var c := l.credential.value;
      l == CredentialLicence(c, Material(c.licenseId, c.machineId, c.epochId, None))
    else
      && l.olk.Some?
      && var o := l.olk.value;
         l == OlkLicence(o, Material(o.licenseId, o.machineId, o.epochId, None))
  }

  /** An installation is kept when what it installs is vouched for by the chain it comes with. */
  lemma KeptInstalled(r: Runtime, l: Licence, s: Snapshot, chain: ChainValue, now: I64, saved: bool)
    requires Inv(r) && r.snapshot.Some?
    requires s.credentialEnvelope.Some? && s.revokedEpochs == r.snapshot.value.revokedEpochs
    requires chain.revocation.revoked == s.revokedEpochs && chain.revocation.epoch <= r.maxRevocationEpoch
    requires Ordered(l.deadlines) && l.material.epochId !in s.revokedEpochs
    requires OneLicence(l)
    ensures Kept(r, Installed(r, l, s, chain, now, saved).runtime)
  {
    MachineStep(r.machine.(deadlines := l.deadlines), ActivationVerified, now);
    var changed := Installed(r, l, s, chain, now, false).runtime;
    assert Kept(r, changed);
    KeptPersisted(r, changed, saved);
  }

  lemma KeptImportResponse(h: Host, r: Runtime, env: Envelope, preview: ActivationResponse, now: I64, saved: bool,
                           wiped: bool)
    requires Inv(r)
    ensures Kept(r, ImportResponse(h, r, env, preview, now, saved, wiped).runtime)
  {
    if r.credential.None? && r.olk.None? && r.snapshot.Some? && r.snapshot.value.pendingNonce.Some? {
      var s := r.snapshot.value;
      var out := OpenResponse(h, r, s, s.pendingNonce.value, env, preview, now);
      if out.Err? {
        KeptErased(r, VerificationFailed(out.error), now, wiped);
      } else {
        var (response, credential, material, chain) := out.value;
        RebuiltChain(h, Keyset(PROTO_VER, preview.chain, r.maxRevocationEpoch), EffectiveNow(r.machine.clock, now),
                     r.maxRevocationEpoch, s.revokedEpochs);
        CredentialOrdered(credential);
        ObservedSound(r, response.serverTime);
        KeptInstalled(ClockObserved(r, response.serverTime), CredentialLicence(credential, material),
                      s.(credentialEnvelope := Some(response.credential),
                         epochCertificates := response.chain), chain, now, saved);
      }
    }
  }

  lemma KeptImportOlk(h: Host, r: Runtime, encoded: Bytes, env: Envelope, preview: OfflineLicenseKey, certs: seq<Bytes>,
                      now: I64, saved: bool, wiped: bool)
    requires Inv(r)
    ensures Kept(r, ImportOlk(h, r, encoded, env, preview, certs, now, saved, wiped).runtime)
  {
    if r.credential.None? && r.olk.None? {
      if r.snapshot.None? {
        KeptErased(r, VerificationFailed(CredentialCorrupt), now, wiped);
      } else {
        var s := r.snapshot.value;
        var out := OpenBundle(h, r, s, env, preview, certs, now);
        if out.Err? {
          if out.error.OlkFatal? {
            KeptErased(r, VerificationFailed(out.error.fatal), now, wiped);
          }
        } else {
          var (license, material, chain) := out.value;
          RebuiltChain(h, Keyset(PROTO_VER, certs, r.maxRevocationEpoch), preview.issuedAt, r.maxRevocationEpoch,
                       s.revokedEpochs);
          OlkOrdered(license);
          ObservedSound(r, license.issuedAt);
          KeptInstalled(ClockObserved(r, license.issuedAt), OlkLicence(license, material),
                        s.(credentialEnvelope := Some(encoded), epochCertificates := certs), chain, now, saved);
        }
      }
    }
  }

  lemma KeptInstallActivation(h: Host, r: Runtime, encoded: Bytes, target: U64, now: I64, saved: bool, wiped: bool)
    requires Inv(r)
    ensures Kept(r, InstallActivation(h, r, encoded, target, now, saved, wiped).runtime)
  {
    if r.snapshot.Some? {
      if r.chain.None? {
        KeptErased(r, VerificationFailed(ChainInvalid), now, wiped);
      } else {
        var out := OpenMachineCredential(h, encoded, r.chain.value, r.snapshot.value,
                                         EffectiveNow(r.machine.clock, now), r.maxSecurityFloor, r.maxRevocationEpoch);
        if out.Err? {
          KeptErased(r, VerificationFailed(out.error), now, wiped);
        } else {
          CredentialOrdered(out.value.0);
          KeptInstalled(r.(maxRevocationEpoch := Max(r.maxRevocationEpoch, target)),
                        CredentialLicence(out.value.0, out.value.1),
                        r.snapshot.value.(credentialEnvelope := Some(encoded)), r.chain.value, now, saved);
        }
      }
    }
  }

  lemma KeptPreviewTicket(h: Host, r: Runtime, env: Envelope, nonce: Nonce, now: I64, wiped: bool)
    requires Inv(r)
    ensures Kept(r, PreviewTicket(h, r, env, nonce, now, wiped).runtime)
  {
    if r.credential.None? {
      KeptErased(r, VerificationFailed(CredentialCorrupt), now, wiped);
    } else {
      var out := OpenTicket(h, r, r.credential.value, env, nonce, now);
      if out.Err? {
        KeptErased(r, VerificationFailed(out.error), now, wiped);
      }
    }
  }

  lemma KeptRecordTicket(r: Runtime, c: MachineCredential, t: ValidationTicket, encoded: Bytes, now: I64, saved: bool)
    requires Inv(r)
    ensures Kept(r, RecordTicket(r, c, t, encoded, now, saved).runtime)
  {
    TicketOrdered(c, t);
    var dated := r.machine.(deadlines := TicketDeadlines(c, t));
    var m := Next(dated, TicketEvent(t.verdict), now).machine;
    MachineStep(dated, TicketEvent(t.verdict), now);
    var entitlements := if t.entitlements.Some? then t.entitlements.value else r.entitlements;
    if t.verdict.VerdictOk? && r.material.None? {
      var next := KeptTicketed(r, r.machine, t, entitlements, r.material, r.snapshot);
    } else {
      var material := if t.verdict.VerdictOk? then Some(r.material.value.(session := Some((t.serverNonce, t.epochId))))
                      else r.material;
      var noted := KeptTicketed(r, m, t, entitlements, material, r.snapshot);
      if r.snapshot.Some? {
        var next := KeptTicketed(r, m, t, entitlements, material,
                                 Some(r.snapshot.value.(validationTicket := Some(encoded))));
        KeptPersisted(r, next, saved);
      }
    }
  }

  /** A ticket raises the watermarks, replaces entitlements and rotates the session; what is held stays. */
  lemma KeptTicketed(r: Runtime, m: Machine, t: ValidationTicket, entitlements: set<string>, material: Option<Material>,
                     snapshot: Option<Snapshot>) returns (next: Runtime)
    requires Inv(r) && MachineSound(m) && (m.hasCredential ==> r.machine.hasCredential)
    requires m.clock.seen >= r.machine.clock.seen && m.clock.rollbacks >= r.machine.clock.rollbacks
    requires material.Some? <==> r.material.Some?
    requires material.Some? ==> material.value == r.material.value.(session := material.value.session)
    requires snapshot.Some? <==> r.snapshot.Some?
    requires snapshot.Some? ==> snapshot.value == r.snapshot.value.(validationTicket := snapshot.value.validationTicket)
    ensures next == r.(maxSecurityFloor := Max(r.maxSecurityFloor, t.securityFloor),
                       maxRevocationEpoch := Max(r.maxRevocationEpoch, t.revocationEpoch),
                       entitlements := entitlements, machine := m, material := material, snapshot := snapshot)
    ensures Kept(r, next)
  {
    next := r.(maxSecurityFloor := Max(r.maxSecurityFloor, t.securityFloor),
               maxRevocationEpoch := Max(r.maxRevocationEpoch, t.revocationEpoch),
               entitlements := entitlements, machine := m, material := material, snapshot := snapshot);
  }

  lemma KeptCommitTicket(h: Host, r: Runtime, encoded: Bytes, env: Envelope, nonce: Nonce, now: I64, saved: bool,
                         wiped: bool)
    requires Inv(r)
    ensures Kept(r, CommitTicket(h, r, encoded, env, nonce, now, saved, wiped).runtime)
  {
    if r.credential.Some? {
      var out := OpenTicket(h, r, r.credential.value, env, nonce, now);
      if out.Err? {
        KeptErased(r, VerificationFailed(out.error), now, wiped);
      } else {
        var t := out.value;
        ObservedSound(r, t.serverTime);
        KeptRecordTicket(ClockObserved(r, t.serverTime), r.credential.value, t, encoded, now, saved);
      }
    }
  }

  lemma KeptApplyKillOrder(h: Host, r: Runtime, env: Envelope, nonce: Nonce, now: I64, wiped: bool)
    requires Inv(r)
    ensures Kept(r, ApplyKillOrder(h, r, env, nonce, now, wiped).runtime)
  {
    if r.credential.Some? {
      if r.chain.None? {
        KeptErased(r, VerificationFailed(ChainInvalid), now, wiped);
      } else {
        var verified := VerifyArtifactFast(r.chain.value, h.suite, env, KillOrderKind, h.suite.decodeKillOrder,
                                           h.productId, EffectiveNow(r.machine.clock, now));
        if verified.Err? {
          KeptErased(r, VerificationFailed(ToFatal(verified.error)), now, wiped);
        } else {
          var o := verified.value;
          var fault := KillOrderFault(h, r, r.credential.value, o, nonce);
          if fault.Some? {
            KeptErased(r, VerificationFailed(fault.value), now, wiped);
          } else {
            ObservedSound(r, o.serverTime);
            KeptErased(ClockObserved(r, o.serverTime), KillOrderVerified(o.reason), now, wiped);
          }
        }
      }
    }
  }

  lemma KeptInstallKeyset(h: Host, r: Runtime, k: Keyset, now: I64)
    requires Inv(r)
    ensures Kept(r, InstallKeyset(h, r, k, now).runtime)
  {
    if r.snapshot.Some? {
      var s := r.snapshot.value;
      var effective := EffectiveNow(r.machine.clock, now);
      if KeysetChain(h.anchors, h.suite, k, h.productId, effective, r.maxRevocationEpoch, s.revokedEpochs).Ok? {
        RebuiltChain(h, k, effective, r.maxRevocationEpoch, s.revokedEpochs);
      }
    }
  }

  /** Under the invariant the chain's view always advances with a batch that fits. */
  lemma AdvanceNeverFails(h: Host, r: Runtime, b: RevocationBatch, env: Envelope, target: U64)
    requires Inv(r) && r.chain.Some? && BatchFits(h, b, env, r.maxRevocationEpoch + 1, target)
    ensures Advanced(r.chain.value.revocation, b.toEpoch, b.revokedEpochs).Ok?
  {
  }

  lemma KeptApplyBatch(h: Host, r: Runtime, current: U64, target: U64, env: Envelope, now: I64, saved: bool,
                       wiped: bool)
    requires Inv(r)
    ensures Kept(r, ApplyBatch(h, r, current, target, env, now, saved, wiped).runtime)
  {
    if r.maxRevocationEpoch == current && r.snapshot.Some? {
      var out := OpenBatch(h, r, env, now);
      if out.Ok? && BatchFits(h, out.value, env, current + 1, target) {
        var b, s := out.value, r.snapshot.value;
        AdvanceNeverFails(h, r, b, env, target);
        MergeRevokedExact(s.revokedEpochs, b.revokedEpochs);
        var merged := MergeRevoked(s.revokedEpochs, b.revokedEpochs);
        var advanced := r.(
          chain := Some(r.chain.value.(revocation := RevocationView(b.toEpoch, merged))),
          maxRevocationEpoch := b.toEpoch, snapshot := Some(s.(revokedEpochs := merged)));
        var named := NamedBy(b, HeldIds(r));
        if named.Some? {
          KeptErasedHeld(advanced, KillOrderVerified(named.value), now, wiped);
        } else {
          KeptAdvanced(r, advanced, b);
          KeptPersisted(r, advanced, saved);
        }
      }
    }
  }

  /** A page that names nothing held leaves everything held good. */
  lemma KeptAdvanced(r: Runtime, next: Runtime, b: RevocationBatch)
    requires Inv(r) && r.snapshot.Some? && r.chain.Some?
    requires NamedBy(b, HeldIds(r)).None? && b.toEpoch >= r.maxRevocationEpoch
    requires var merged := MergeRevoked(r.snapshot.value.revokedEpochs, b.revokedEpochs);
             next == r.(
               chain := Some(r.chain.value.(revocation := RevocationView(b.toEpoch, merged))),
               maxRevocationEpoch := b.toEpoch, snapshot := Some(r.snapshot.value.(revokedEpochs := merged)))
    ensures Kept(r, next)
  {
    MergeRevokedExact(r.snapshot.value.revokedEpochs, b.revokedEpochs);
  }

  /** Erasure needs nothing of what is held, only of the machine, the watermarks and the store. */
  lemma KeptErasedHeld(r: Runtime, why: Event, now: I64, wiped: bool)
    requires MachineSound(r.machine) && StoreBehind(r)
    requires why.VerificationFailed? || why.KillOrderVerified? || why.UserDeactivate?
    ensures Kept(r, Erased(r, why, now, wiped))
  {
    MachineStep(r.machine, why, now);
    ErasedMachine(r.machine, why, now);
  }

  // ----- every interleaving

  lemma KeptExecute(h: Host, r: Runtime, t: Turn)
    requires Inv(r)
    ensures Kept(r, Execute(h, r, t).runtime)
  {
    match t.segment
    case SEnsureKeys(g) => KeptEnsureKeys(r, g);
    case SBuildOfflineRequest(n, b) => KeptBuildOfflineRequest(r, n, b, t.saved);
    case SImportResponse(env, p) => KeptImportResponse(h, r, env, p, t.now, t.saved, t.wiped);
    case SImportOlk(e, env, p, certs) => KeptImportOlk(h, r, e, env, p, certs, t.now, t.saved, t.wiped);
    case SInstallActivation(e, target) => KeptInstallActivation(h, r, e, target, t.now, t.saved, t.wiped);
    case SBeginValidate(b) => KeptBeginValidate(r, t.now, b);
    case SPreviewTicket(env, n) => KeptPreviewTicket(h, r, env, n, t.now, t.wiped);
    case SCommitTicket(e, env, n) => KeptCommitTicket(h, r, e, env, n, t.now, t.saved, t.wiped);
    case SApplyKillOrder(env, n) => KeptApplyKillOrder(h, r, env, n, t.now, t.wiped);
    case SDeactivate => KeptErased(r, UserDeactivate, t.now, t.wiped);
    case SFailClosed(e) => KeptErased(r, VerificationFailed(e), t.now, t.wiped);
    case SInstallKeyset(k) => KeptInstallKeyset(h, r, k, t.now);
    case SApplyBatch(c, target, env) => KeptApplyBatch(h, r, c, target, env, t.now, t.saved, t.wiped);
    case STransientFailure(e) => KeptTransientFailure(r, e, t.now, t.saved);
    case SPulse(online) => KeptPulse(r, online, t.now, t.saved);
  }

  /**
   In every interleaving of segments, whatever the server, the store and the clock answer, the client
   stays coherent and moves only forward.
   */
  lemma {:induction false} InterleaveKeeps(h: Host, r: Runtime, turns: seq<Turn>)
    requires Inv(r)
    ensures Inv(Interleave(h, r, turns)) && Forward(r, Interleave(h, r, turns))
  {
    if |turns| > 0 {
      InterleaveKeeps(h, r, turns[..|turns| - 1]);
      KeptExecute(h, Interleave(h, r, turns[..|turns| - 1]), turns[|turns| - 1]);
    }
  }
}
