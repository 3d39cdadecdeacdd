/** The client's mutex-guarded state as the code updates it, segment by segment. */
module ClientRuntime {
  import opened Wrappers
  import opened Saturating
  import opened Clock
  import opened StateMachine
  import opened Artifacts
  import opened Chain
  import opened Trust
  import opened Ticket
  import opened Client
  import opened ClientTheorems

  /** The clock difference a ticket asks for is representable. */
  predicate TicketComparable(h: Host, env: Envelope, now: I64) {
    h.suite.decodeTicket(env.tbs).Some? ==> Comparable(h.suite.decodeTicket(env.tbs).value.serverTime, now)
  }

  predicate TurnComparable(h: Host, t: Turn) {
    && (t.segment.SPreviewTicket? ==> TicketComparable(h, t.segment.env, t.now))
    && (t.segment.SCommitTicket? ==> TicketComparable(h, t.segment.env, t.now))
  }

  class Guarded {
    const machine: LicenseMachine
    var snapshot: Option<Snapshot>
    var credential: Option<MachineCredential>
    var olk: Option<OfflineLicenseKey>
    var material: Option<Material>
    var entitlements: set<string>
    var chain: VerifiedChain?
    var maxSecurityFloor: U64
    var maxRevocationEpoch: U64
    var store: Option<Record>

    function Value(): Runtime
      reads this, machine, machine.clock, chain
    {
      Runtime(machine.Value(), snapshot, credential, olk, material, entitlements,
              if chain == null then None else Some(chain.Value()), maxSecurityFloor, maxRevocationEpoch, store)
    }

    constructor (h: Host, generated: Bytes, now: I64)
      ensures Value() == FirstStart(h, generated, now)
      ensures fresh(machine) && fresh(machine.clock) && chain == null
    {
      machine := new LicenseMachine(h.core, now);
      snapshot := Some(NewSnapshot(generated));
      credential, olk, material, entitlements, chain := None, None, None, {}, null;
      maxSecurityFloor, maxRevocationEpoch, store := 0, 0, None;
    }

    // ----- persistence and erasure

    method PersistLocked(saved: bool) returns (ok: bool)
      modifies this`store
      ensures Value() == Persisted(old(Value()), saved).runtime
      ensures ok <==> Persisted(old(Value()), saved).result.Ok?
    {
      if snapshot.None? || !saved {
        return false;
      }
      store := Some(Record(snapshot.value, machine.clock.Value(), maxSecurityFloor, maxRevocationEpoch));
      return true;
    }

    method EraseLocked(why: Event, now: I64, wiped: bool)
      modifies this, machine, machine.clock
      ensures Value() == Erased(old(Value()), why, now, wiped)
      ensures chain == null
    {
      var effects := machine.Handle(why, now);
      snapshot := None;
      credential := None;
      olk := None;
      material := None;
      entitlements := {};
      chain := null;
      if wiped {
        store := None;
      }
    }

    method FailClosedLocked(e: FatalError, now: I64, wiped: bool) returns (r: Result<(), ClientError>)
      modifies this, machine, machine.clock
      ensures Step(Value(), r) == FailClosed(old(Value()), e, now, wiped)
      ensures chain == null
    {
      EraseLocked(VerificationFailed(e), now, wiped);
      return Err(Fatal(e));
    }

    // ----- segments

    method EnsureDeviceKeys(generated: Bytes) returns (r: Result<(), ClientError>)
      modifies this`snapshot
      ensures Step(Value(), r) == EnsureKeys(old(Value()), generated)
    {
      if snapshot.None? {
        snapshot := Some(NewSnapshot(generated));
      }
      return Ok(());
    }

    method BuildRequest(nonce: Nonce, built: bool, saved: bool) returns (r: Result<(), ClientError>)
      modifies this`snapshot, this`store
      ensures Step(Value(), r) == BuildOfflineRequest(old(Value()), nonce, built, saved)
    {
      if credential.Some? || olk.Some? {
        return Err(AlreadyActivated);
      }
      if snapshot.None? {
        return Err(Local);
      }
      if !built {
        return Err(Fatal(CredentialCorrupt));
      }
      snapshot := Some(snapshot.value.(pendingNonce := Some(nonce)));
      var ok := PersistLocked(saved);
      return if ok then Ok(()) else Err(Local);
    }

    /** Swap in a licence under the lock. The clock already carries any server time that came with it. */
    method InstallLocked(l: Licence, s: Snapshot, newChain: VerifiedChain, now: I64, saved: bool)
      returns (r: Result<(), ClientError>)
      modifies this, machine, machine.clock
      ensures Step(Value(), r) == Installed(old(Value()), l, s, old(newChain.Value()), now, saved)
      ensures chain == newChain
    {
      snapshot := Some(s.(validationTicket := None, pendingNonce := None));
      maxSecurityFloor := Max(maxSecurityFloor, l.securityFloor);
      maxRevocationEpoch := Max(maxRevocationEpoch, l.revocationEpoch);
      machine.SetDeadlines(l.deadlines);
      var effects := machine.Handle(ActivationVerified, now);
      entitlements := l.entitlements;
      credential := l.credential;
      olk := l.olk;
      material := Some(l.material);
      chain := newChain;
      var ok := PersistLocked(saved);
      return if ok then Ok(()) else Err(Local);
    }

    method CheckResponse(h: Host, pending: Nonce, env: Envelope, preview: ActivationResponse, now: I64)
      returns (r: Result<(ActivationResponse, MachineCredential, Material, VerifiedChain), FatalError>)
      requires snapshot.Some?
      ensures var spec := OpenResponse(h, Value(), snapshot.value, pending, env, preview, now);
              && (r.Ok? <==> spec.Ok?) && (r.Err? ==> r.error == spec.error)
              && (r.Ok? ==> fresh(r.value.3)
                            && spec.value == (r.value.0, r.value.1, r.value.2, r.value.3.Value()))
    {
      var effective := EffectiveNow(machine.clock.Value(), now);
      var built := VerifyKeyset(h.anchors, h.suite, Keyset(PROTO_VER, preview.chain, maxRevocationEpoch), h.productId,
                                effective, maxRevocationEpoch, snapshot.value.revokedEpochs);
      if built.Err? {
        return Err(built.error);
      }
      var verified := VerifyArtifact(built.value.Value(), h.suite, env, ResponseKind, h.suite.decodeResponse,
                                     h.productId, effective);
      if verified.Err? {
        return Err(ToFatal(verified.error));
      }
      var response := verified.value;
      if || response.protoVer != PROTO_VER || response.suiteId != h.suite.id || response.nonceEcho != pending
         || response.validUntil <= response.serverTime || effective >= response.validUntil
      {
        return Err(if response.nonceEcho != pending then NonceMismatch else CredentialCorrupt);
      }
      var unsealed := OpenMachineCredential(h, response.credential, built.value.Value(), snapshot.value,
                                            Max(effective, response.serverTime), maxSecurityFloor, maxRevocationEpoch);
      if unsealed.Err? {
        return Err(unsealed.error);
      }
      return Ok((response, unsealed.value.0, unsealed.value.1, built.value));
    }

    method ImportOfflineResponse(h: Host, env: Envelope, preview: ActivationResponse, now: I64, saved: bool,
                                 wiped: bool)
      returns (r: Result<(), ClientError>)
      modifies this, machine, machine.clock
      ensures Step(Value(), r) == ImportResponse(h, old(Value()), env, preview, now, saved, wiped)
      ensures chain == null || chain == old(chain) || fresh(chain)
    {
      if credential.Some? || olk.Some? {
        return Err(AlreadyActivated);
      }
      if snapshot.None? || snapshot.value.pendingNonce.None? {
        return Err(NoPendingRequest);
      }
      var checked := CheckResponse(h, snapshot.value.pendingNonce.value, env, preview, now);
      if checked.Err? {
        r := FailClosedLocked(checked.error, now, wiped);
        return;
      }
      var (response, c, m, newChain) := checked.value;
      machine.clock.ObserveServerTime(response.serverTime);
      r := InstallLocked(
        CredentialLicence(c, m),
        snapshot.value.(credentialEnvelope := Some(response.credential), epochCertificates := response.chain),
        newChain, now, saved);
    }

    method ImportOfflineLicense(h: Host, encoded: Bytes, env: Envelope, preview: OfflineLicenseKey, certs: seq<Bytes>,
                                now: I64, saved: bool, wiped: bool) returns (r: Result<(), ClientError>)
      modifies this, machine, machine.clock
      ensures Step(Value(), r) == ImportOlk(h, old(Value()), encoded, env, preview, certs, now, saved, wiped)
      ensures chain == null || chain == old(chain) || fresh(chain)
    {
      if credential.Some? || olk.Some? {
        return Err(AlreadyActivated);
      }
      if snapshot.None? {
        r := FailClosedLocked(CredentialCorrupt, now, wiped);
        return;
      }
      var built := VerifyKeyset(h.anchors, h.suite, Keyset(PROTO_VER, certs, maxRevocationEpoch), h.productId,
                                preview.issuedAt, maxRevocationEpoch, snapshot.value.revokedEpochs);
      if built.Err? {
        r := FailClosedLocked(built.error, now, wiped);
        return;
      }
      var unsealed := OpenOfflineLicense(h, env, built.value.Value(), EffectiveNow(machine.clock.Value(), now),
                                         maxSecurityFloor, maxRevocationEpoch);
      if unsealed.Err? {
        if unsealed.error.UnboundDisabled? {
          return Err(UnboundOlkDisabled);
        }
        r := FailClosedLocked(unsealed.error.fatal, now, wiped);
        return;
      }
      var (l, m) := unsealed.value;
      machine.clock.ObserveServerTime(l.issuedAt);
      r := InstallLocked(
        OlkLicence(l, m), snapshot.value.(credentialEnvelope := Some(encoded), epochCertificates := certs),
        built.value, now, saved);
    }

    method InstallActivated(h: Host, encoded: Bytes, target: U64, now: I64, saved: bool, wiped: bool)
      returns (r: Result<(), ClientError>)
      modifies this, machine, machine.clock
      ensures Step(Value(), r) == InstallActivation(h, old(Value()), encoded, target, now, saved, wiped)
      ensures chain == null || chain == old(chain)
    {
      if snapshot.None? {
        return Err(Local);
      }
      if chain == null {
        r := FailClosedLocked(ChainInvalid, now, wiped);
        return;
      }
      var unsealed := OpenMachineCredential(h, encoded, chain.Value(), snapshot.value,
                                            EffectiveNow(machine.clock.Value(), now), maxSecurityFloor,
                                            maxRevocationEpoch);
      if unsealed.Err? {
        r := FailClosedLocked(unsealed.error, now, wiped);
        return;
      }
      var (c, m) := unsealed.value;
      maxRevocationEpoch := Max(maxRevocationEpoch, target);
      r := InstallLocked(
        CredentialLicence(c, m), snapshot.value.(credentialEnvelope := Some(encoded)), chain, now, saved);
    }

    method StartValidation(now: I64, built: bool) returns (r: Result<(), ClientError>)
      modifies machine
      ensures Step(Value(), r) == BeginValidate(old(Value()), now, built)
    {
      machine.NoteValidationAttempt(now);
      if credential.None? || snapshot.None? {
        return Err(NotActivated);
      }
      if !built {
        return Err(Fatal(CredentialCorrupt));
      }
      return Ok(());
    }

    /**
     Verify a ticket and run the checklist against `clock`, which takes the server's time only if
     every check passes.
     */
    method ReadTicket(h: Host, env: Envelope, nonce: Nonce, now: I64, clock: ClockState)
      returns (r: Result<ValidationTicket, FatalError>)
      requires TicketComparable(h, env, now) && credential.Some? && clock.Value() == machine.clock.Value()
      modifies clock
      ensures r == OpenTicket(h, old(Value()), credential.value, env, nonce, now)
      ensures clock.Value() == if r.Ok? then Observed(old(clock.Value()), r.value.serverTime) else old(clock.Value())
    {
      if chain == null {
        return Err(ChainInvalid);
      }
      var verified := VerifyArtifactFast(chain.Value(), h.suite, env, TicketKind, h.suite.decodeTicket, h.productId,
                                         EffectiveNow(machine.clock.Value(), now));
      if verified.Err? {
        return Err(ToFatal(verified.error));
      }
      var checks := TicketChecks(h.supportedSuites, env.epochRef.value, nonce, credential.value.machineId,
                                 maxRevocationEpoch, maxSecurityFloor);
      var checked := CheckTicket(verified.value, checks, clock, now);
      if checked.Err? {
        return Err(checked.error);
      }
      return Ok(verified.value);
    }

    /** The first look at a ticket works on a copy of the clock. */
    method Preview(h: Host, env: Envelope, nonce: Nonce, now: I64, wiped: bool) returns (r: Result<(), ClientError>)
      requires TicketComparable(h, env, now)
      modifies this, machine, machine.clock
      ensures Step(Value(), r) == PreviewTicket(h, old(Value()), env, nonce, now, wiped)
      ensures chain == null || chain == old(chain)
    {
      if credential.None? {
        r := FailClosedLocked(CredentialCorrupt, now, wiped);
        return;
      }
      var previewClock := new ClockState.Copy(machine.clock.Value());
      var read := ReadTicket(h, env, nonce, now, previewClock);
      if read.Err? {
        r := FailClosedLocked(read.error, now, wiped);
        return;
      }
      return Ok(());
    }

    method RecordLocked(t: ValidationTicket, encoded: Bytes, now: I64, saved: bool) returns (r: Result<(), ClientError>)
      requires credential.Some?
      modifies this, machine, machine.clock
      ensures Step(Value(), r) == RecordTicket(old(Value()), old(credential).value, t, encoded, now, saved)
      ensures chain == old(chain)
    {
      var c := credential.value;
      maxSecurityFloor := Max(maxSecurityFloor, t.securityFloor);
      maxRevocationEpoch := Max(maxRevocationEpoch, t.revocationEpoch);
      if t.entitlements.Some? {
        entitlements := t.entitlements.value;
      }
      if t.verdict.VerdictOk? {
        if material.None? {
          return Err(NotActivated);
        }
        material := Some(material.value.(session := Some((t.serverNonce, t.epochId))));
      }
      machine.SetDeadlines(TicketDeadlines(c, t));
      var effects := machine.Handle(TicketEvent(t.verdict), now);
      if snapshot.None? {
        return Err(NotActivated);
      }
      snapshot := Some(snapshot.value.(validationTicket := Some(encoded)));
      var ok := PersistLocked(saved);
      return if !ok then Err(Local) else TicketResult(t.verdict);
    }

    method Commit(h: Host, encoded: Bytes, env: Envelope, nonce: Nonce, now: I64, saved: bool, wiped: bool)
      returns (r: Result<(), ClientError>)
      requires TicketComparable(h, env, now)
      modifies this, machine, machine.clock
      ensures Step(Value(), r) == CommitTicket(h, old(Value()), encoded, env, nonce, now, saved, wiped)
      ensures chain == null || chain == old(chain)
    {
      if credential.None? {
        return Err(NotActivated);
      }
      var read := ReadTicket(h, env, nonce, now, machine.clock);
      if read.Err? {
        r := FailClosedLocked(read.error, now, wiped);
        return;
      }
      r := RecordLocked(read.value, encoded, now, saved);
    }

    method Kill(h: Host, env: Envelope, nonce: Nonce, now: I64, wiped: bool) returns (r: Result<(), ClientError>)
      modifies this, machine, machine.clock
      ensures Step(Value(), r) == ApplyKillOrder(h, old(Value()), env, nonce, now, wiped)
      ensures chain == null || chain == old(chain)
    {
      if credential.None? {
        return Err(NotActivated);
      }
      if chain == null {
        r := FailClosedLocked(ChainInvalid, now, wiped);
        return;
      }
      var verified := VerifyArtifactFast(chain.Value(), h.suite, env, KillOrderKind, h.suite.decodeKillOrder,
                                         h.productId, EffectiveNow(machine.clock.Value(), now));
      if verified.Err? {
        r := FailClosedLocked(ToFatal(verified.error), now, wiped);
        return;
      }
      var order := verified.value;
      var fault: Option<FatalError> := None;
      if order.protoVer != PROTO_VER || order.suiteId != h.suite.id {
        fault := Some(CredentialCorrupt);
      } else if order.machineId != credential.value.machineId {
        fault := Some(MachineMismatch);
      } else if order.nonceEcho != nonce {
        fault := Some(NonceMismatch);
      } else if order.revocationEpoch < maxRevocationEpoch {
        fault := Some(RevocationRollback);
      }
      if fault.Some? {
        r := FailClosedLocked(fault.value, now, wiped);
        return;
      }
      machine.clock.ObserveServerTime(order.serverTime);
      EraseLocked(KillOrderVerified(order.reason), now, wiped);
      return if wiped then Ok(()) else Err(Local);
    }

    method InstallFetchedKeyset(h: Host, k: Keyset, now: I64) returns (r: Result<(), ClientError>)
      modifies this`snapshot, this`chain
      ensures Step(Value(), r) == InstallKeyset(h, old(Value()), k, now)
      ensures chain == old(chain) || fresh(chain)
    {
      if snapshot.None? {
        return Err(NotActivated);
      }
      var built := VerifyKeyset(h.anchors, h.suite, k, h.productId, EffectiveNow(machine.clock.Value(), now),
                                maxRevocationEpoch, snapshot.value.revokedEpochs);
      if built.Err? {
        return Err(Fatal(built.error));
      }
      snapshot := Some(snapshot.value.(epochCertificates := k.epochCertificates));
      chain := built.value;
      return Ok(());
    }

    /** Append what is not there yet. */
    method Merge(known: seq<EpochId>, more: seq<EpochId>) returns (merged: seq<EpochId>)
      ensures merged == MergeRevoked(known, more)
    {
      merged := known;
      for i := 0 to |more|
        invariant merged == MergeRevoked(known, more[..i])
      {
        assert more[..i + 1][..i] == more[..i];
        if more[i] !in merged {
          merged := merged + [more[i]];
        }
      }
      assert more[..|more|] == more;
    }

    method ApplyPage(h: Host, current: U64, target: U64, env: Envelope, now: I64, saved: bool, wiped: bool)
      returns (r: Result<(), ClientError>)
      modifies this, machine, machine.clock, chain
      ensures Step(Value(), r) == ApplyBatch(h, old(Value()), current, target, env, now, saved, wiped)
      ensures chain == null || chain == old(chain)
    {
      if maxRevocationEpoch != current {
        return Err(Superseded);
      }
      if chain == null {
        return Err(Fatal(ChainInvalid));
      }
      var verified := VerifyArtifact(chain.Value(), h.suite, env, BatchKind, h.suite.decodeBatch, h.productId,
                                     EffectiveNow(machine.clock.Value(), now));
      if verified.Err? {
        return Err(Fatal(ToFatal(verified.error)));
      }
      var batch := verified.value;
      if || batch.protoVer != PROTO_VER || batch.suiteId != h.suite.id || batch.fromEpoch != current + 1
         || batch.toEpoch < batch.fromEpoch || batch.toEpoch > target
         || (env.epochRef.Some? && env.epochRef.value in batch.revokedEpochs)
      {
        return Err(Fatal(CredentialCorrupt));
      }
      var held := HeldIds(Value());
      var named := NamedBy(batch, held);
      if snapshot.None? {
        return Err(NotActivated);
      }
      var revoked := Merge(snapshot.value.revokedEpochs, batch.revokedEpochs);
      var advanced := chain.Advance(batch.toEpoch, batch.revokedEpochs);
      if advanced.Err? {
        return Err(Fatal(ToFatal(advanced.error)));
      }
      maxRevocationEpoch := batch.toEpoch;
      snapshot := Some(snapshot.value.(revokedEpochs := revoked));
      r := SettleLocked(named, now, saved, wiped);
    }

    /** Once a page is in: erase what it named, or write the new watermark down. */
    method SettleLocked(named: Option<KillReason>, now: I64, saved: bool, wiped: bool)
      returns (r: Result<(), ClientError>)
      modifies this, machine, machine.clock
      ensures Step(Value(), r) ==
              if named.Some? then
                Step(Erased(old(Value()), KillOrderVerified(named.value), now, wiped),
                     Err(if wiped then Fatal(RevokedFatal(named.value)) else Local))
              else Persisted(old(Value()), saved)
      ensures chain == null || chain == old(chain)
    {
      if named.Some? {
        EraseLocked(KillOrderVerified(named.value), now, wiped);
        return Err(if wiped then Fatal(RevokedFatal(named.value)) else Local);
      }
      var ok := PersistLocked(saved);
      return if ok then Ok(()) else Err(Local);
    }

    method ApplyTransientFailure(e: TransientError, now: I64, saved: bool) returns (r: Result<(), ClientError>)
      modifies this`store, machine, machine.clock
      ensures Step(Value(), r) == TransientFailure(old(Value()), e, now, saved)
    {
      var effects := machine.Handle(NetworkFailed(e), now);
      var ok := PersistLocked(saved);
      return if ok then Ok(()) else Err(Local);
    }

    method Beat(online: bool, now: I64, saved: bool) returns (r: Result<(), ClientError>)
      modifies this`store, machine, machine.clock
      ensures Step(Value(), r) == Pulse(old(Value()), online, now, saved)
    {
      var effects := machine.Handle(if online then NetworkAvailable else Tick, now);
      if snapshot.Some? {
        var ok := PersistLocked(saved);
        return if ok then Ok(()) else Err(Local);
      }
      return Ok(());
    }

    // ----- other operations running while this one waits

    method DispatchInstall(h: Host, t: Turn) returns (r: Result<(), ClientError>)
      requires || t.segment.SEnsureKeys? || t.segment.SBuildOfflineRequest? || t.segment.SImportResponse?
               || t.segment.SImportOlk? || t.segment.SInstallActivation?
      modifies this, machine, machine.clock
      ensures Step(Value(), r) == Execute(h, old(Value()), t)
      ensures chain == null || chain == old(chain) || fresh(chain)
    {
      match t.segment {
        case SEnsureKeys(g) => r := EnsureDeviceKeys(g);
        case SBuildOfflineRequest(n, b) => r := BuildRequest(n, b, t.saved);
        case SImportResponse(env, p) => r := ImportOfflineResponse(h, env, p, t.now, t.saved, t.wiped);
        case SImportOlk(e, env, p, certs) => r := ImportOfflineLicense(h, e, env, p, certs, t.now, t.saved, t.wiped);
        case SInstallActivation(e, target) => r := InstallActivated(h, e, target, t.now, t.saved, t.wiped);
      }
    }

    method DispatchValidate(h: Host, t: Turn) returns (r: Result<(), ClientError>)
      requires || t.segment.SBeginValidate? || t.segment.SPreviewTicket? || t.segment.SCommitTicket?
               || t.segment.SApplyKillOrder?
      requires TurnComparable(h, t)
      modifies this, machine, machine.clock
      ensures Step(Value(), r) == Execute(h, old(Value()), t)
      ensures chain == null || chain == old(chain)
    {
      match t.segment {
        case SBeginValidate(b) => r := StartValidation(t.now, b);
        case SPreviewTicket(env, n) => r := Preview(h, env, n, t.now, t.wiped);
        case SCommitTicket(e, env, n) => r := Commit(h, e, env, n, t.now, t.saved, t.wiped);
        case SApplyKillOrder(env, n) => r := Kill(h, env, n, t.now, t.wiped);
      }
    }

    method Dispatch(h: Host, t: Turn) returns (r: Result<(), ClientError>)
      requires TurnComparable(h, t)
      modifies this, machine, machine.clock, chain
      ensures Step(Value(), r) == Execute(h, old(Value()), t)
      ensures chain == null || chain == old(chain) || fresh(chain)
    {
      match t.segment {
        case SEnsureKeys(_) | SBuildOfflineRequest(_, _) | SImportResponse(_, _) | SImportOlk(_, _, _, _)
           | SInstallActivation(_, _) => r := DispatchInstall(h, t);
        case SBeginValidate(_) | SPreviewTicket(_, _) | SCommitTicket(_, _, _) | SApplyKillOrder(_, _) =>
          r := DispatchValidate(h, t);
        case SDeactivate =>
          EraseLocked(UserDeactivate, t.now, t.wiped);
          r := if t.wiped then Ok(()) else Err(Local);
        case SFailClosed(e) => r := FailClosedLocked(e, t.now, t.wiped);
        case SInstallKeyset(k) => r := InstallFetchedKeyset(h, k, t.now);
        case SApplyBatch(c, target, env) => r := ApplyPage(h, c, target, env, t.now, t.saved, t.wiped);
        case STransientFailure(e) => r := ApplyTransientFailure(e, t.now, t.saved);
        case SPulse(online) => r := Beat(online, t.now, t.saved);
      }
    }

    method RunOthers(h: Host, turns: seq<Turn>)
      requires forall i :: 0 <= i < |turns| ==> TurnComparable(h, turns[i])
      modifies this, machine, machine.clock, chain
      ensures Value() == Interleave(h, old(Value()), turns)
      ensures chain == null || chain == old(chain) || fresh(chain)
    {
      for i := 0 to |turns|
        invariant Value() == Interleave(h, old(Value()), turns[..i])
        invariant chain == null || chain == old(chain) || fresh(chain)
      {
        assert turns[..i + 1][..i] == turns[..i];
        var r := Dispatch(h, turns[i]);
      }
      assert turns[..|turns|] == turns;
    }
  }
}
