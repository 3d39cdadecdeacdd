/** What a client holds is its own: of this product, build and device, from first start to last. */
module HeldLicence {
  import opened Wrappers
  import opened Saturating
  import opened Clock
  import opened Artifacts
  import opened Chain
  import opened Client
  import opened ClientTheorems

  /** The credential was issued to this product, build, variant and device, with its refresh after its issue. */
  predicate CredentialIsOurs(h: Host, c: MachineCredential) {
    && c.protoVer == PROTO_VER && c.suiteId == h.suite.id && c.productId == h.productId
    && c.fingerprint == h.fingerprint && c.buildFingerprint == Some(h.buildFingerprint) && c.variantId == h.variantId
    && c.issuedAt < c.refreshAfter
  }

  /** The license was issued to this product, build and variant, and to this device or, if allowed, to any. */
  predicate LicenseIsOurs(h: Host, l: OfflineLicenseKey) {
    && l.protoVer == PROTO_VER && l.suiteId == h.suite.id && l.productId == h.productId
    && l.buildFingerprint == h.buildFingerprint && l.variantId == h.variantId && l.maxSeats > 0
    && (if l.boundFingerprint.Some? then l.boundFingerprint.value == h.fingerprint else h.allowUnboundOlk)
    && l.wrappedKeks <= l.entitlements && (l.notAfter == 0 || l.issuedAt < l.notAfter)
  }

  predicate HeldIsOurs(h: Host, r: Runtime) {
    && (r.credential.Some? ==> CredentialIsOurs(h, r.credential.value))
    && (r.olk.Some? ==> LicenseIsOurs(h, r.olk.value))
  }

  lemma OpenedCredential(h: Host, encoded: Bytes, chain: ChainValue, s: Snapshot, now: I64, floor: U64, revocation: U64)
    requires OpenMachineCredential(h, encoded, chain, s, now, floor, revocation).Ok?
    ensures CredentialIsOurs(h, OpenMachineCredential(h, encoded, chain, s, now, floor, revocation).value.0)
  {
    var c := OpenMachineCredential(h, encoded, chain, s, now, floor, revocation).value.0;
    CredentialOpensExactly(h, encoded, h.suite.decodeEnvelope(encoded).value, chain, s, now, floor, revocation, c);
  }

  lemma OpenedLicense(h: Host, env: Envelope, chain: ChainValue, now: I64, floor: U64, revocation: U64)
    requires OpenOfflineLicense(h, env, chain, now, floor, revocation).Ok?
    ensures LicenseIsOurs(h, OpenOfflineLicense(h, env, chain, now, floor, revocation).value.0)
  {
    LicenseOpensExactly(h, env, chain, now, floor, revocation,
                        OpenOfflineLicense(h, env, chain, now, floor, revocation).value.0);
  }

  lemma ResponseIsOurs(h: Host, r: Runtime, env: Envelope, p: ActivationResponse, now: I64, saved: bool, wiped: bool)
    requires HeldIsOurs(h, r)
    ensures HeldIsOurs(h, ImportResponse(h, r, env, p, now, saved, wiped).runtime)
  {
    if r.snapshot.Some? && r.snapshot.value.pendingNonce.Some? {
      var s := r.snapshot.value;
      var outcome := OpenResponse(h, r, s, s.pendingNonce.value, env, p, now);
      if outcome.Ok? {
        var effective := EffectiveNow(r.machine.clock, now);
        OpenedCredential(h, outcome.value.0.credential, outcome.value.3, s, Max(effective, outcome.value.0.serverTime),
                         r.maxSecurityFloor, r.maxRevocationEpoch);
      }
    }
  }

  lemma OlkIsOurs(h: Host, r: Runtime, encoded: Bytes, env: Envelope, p: OfflineLicenseKey, certs: seq<Bytes>, now: I64,
                  saved: bool, wiped: bool)
    requires HeldIsOurs(h, r)
    ensures HeldIsOurs(h, ImportOlk(h, r, encoded, env, p, certs, now, saved, wiped).runtime)
  {
    if r.snapshot.Some? {
      var outcome := OpenBundle(h, r, r.snapshot.value, env, p, certs, now);
      if outcome.Ok? {
        OpenedLicense(h, env, outcome.value.2, EffectiveNow(r.machine.clock, now), r.maxSecurityFloor,
                      r.maxRevocationEpoch);
      }
    }
  }

  lemma ActivationIsOurs(h: Host, r: Runtime, encoded: Bytes, target: U64, now: I64, saved: bool, wiped: bool)
    requires HeldIsOurs(h, r)
    ensures HeldIsOurs(h, InstallActivation(h, r, encoded, target, now, saved, wiped).runtime)
  {
    if r.snapshot.Some? && r.chain.Some? {
      var effective := EffectiveNow(r.machine.clock, now);
      if OpenMachineCredential(h, encoded, r.chain.value, r.snapshot.value, effective, r.maxSecurityFloor,
                               r.maxRevocationEpoch).Ok?
      {
        OpenedCredential(h, encoded, r.chain.value, r.snapshot.value, effective, r.maxSecurityFloor,
                         r.maxRevocationEpoch);
      }
    }
  }

  /** What is held is dropped or left alone. */
  predicate LeavesHeld(r: Runtime, next: Runtime) {
    (next.credential.None? && next.olk.None?) || (next.credential == r.credential && next.olk == r.olk)
  }

  lemma RecordLeavesHeld(r: Runtime, c: MachineCredential, t: ValidationTicket, encoded: Bytes, now: I64, saved: bool)
    ensures LeavesHeld(r, RecordTicket(r, c, t, encoded, now, saved).runtime)
  {
  }

  lemma TicketLeavesHeld(h: Host, r: Runtime, t: Turn)
    requires t.segment.SPreviewTicket? || t.segment.SCommitTicket?
    ensures LeavesHeld(r, Execute(h, r, t).runtime)
  {
    if t.segment.SCommitTicket? && r.credential.Some? {
      var outcome := OpenTicket(h, r, r.credential.value, t.segment.env, t.segment.nonce, t.now);
      if outcome.Ok? {
        RecordLeavesHeld(ClockObserved(r, outcome.value.serverTime), r.credential.value, outcome.value,
                         t.segment.encoded, t.now, t.saved);
      }
    }
  }

  lemma OrderLeavesHeld(h: Host, r: Runtime, t: Turn)
    requires t.segment.SApplyBatch? || t.segment.SApplyKillOrder?
    ensures LeavesHeld(r, Execute(h, r, t).runtime)
  {
  }

  lemma OursExecute(h: Host, r: Runtime, t: Turn)
    requires HeldIsOurs(h, r)
    ensures HeldIsOurs(h, Execute(h, r, t).runtime)
  {
    match t.segment
    case SImportResponse(env, p) => ResponseIsOurs(h, r, env, p, t.now, t.saved, t.wiped);
    case SImportOlk(e, env, p, certs) => OlkIsOurs(h, r, e, env, p, certs, t.now, t.saved, t.wiped);
    case SInstallActivation(e, target) => ActivationIsOurs(h, r, e, target, t.now, t.saved, t.wiped);
    case SPreviewTicket(_, _) => TicketLeavesHeld(h, r, t);
    case SCommitTicket(_, _, _) => TicketLeavesHeld(h, r, t);
    case SApplyKillOrder(_, _) => OrderLeavesHeld(h, r, t);
    case SApplyBatch(_, _, _) => OrderLeavesHeld(h, r, t);
    case _ =>
  }

  lemma {:induction false} InterleaveOurs(h: Host, r: Runtime, turns: seq<Turn>)
    requires HeldIsOurs(h, r)
    ensures HeldIsOurs(h, Interleave(h, r, turns))
  {
    if |turns| > 0 {
      InterleaveOurs(h, r, turns[..|turns| - 1]);
      OursExecute(h, Interleave(h, r, turns[..|turns| - 1]), turns[|turns| - 1]);
    }
  }

  /** After a first start and any execution, whatever is held is this client's own. */
  lemma {:induction false} FirstStartOurs(h: Host, generated: Bytes, now: I64, turns: seq<Turn>)
    ensures HeldIsOurs(h, Interleave(h, FirstStart(h, generated, now), turns))
  {
    InterleaveOurs(h, FirstStart(h, generated, now), turns);
  }

  /** And after a start from any stored record, also one written by another client. */
  lemma {:induction false} RestartOurs(h: Host, rec: Record, now: I64, turns: seq<Turn>)
    requires Restart(h, rec, now).Ok?
    ensures HeldIsOurs(h, Interleave(h, Restart(h, rec, now).value, turns))
  {
    LoadedIsOurs(h, rec, now);
    InterleaveOurs(h, Restart(h, rec, now).value, turns);
  }

  lemma LoadedIsOurs(h: Host, rec: Record, now: I64)
    requires Restart(h, rec, now).Ok?
    ensures HeldIsOurs(h, Restart(h, rec, now).value)
  {
    var r, m := Restart(h, rec, now).value, Restored(h, rec).value;
    var effective := EffectiveNow(m.clock, now);
    if r.olk.Some? {
      OpenedLicense(h, h.suite.decodeEnvelope(rec.snapshot.credentialEnvelope.value).value, r.chain.value, effective,
                    rec.securityFloor, rec.revocationEpoch);
    } else if r.credential.Some? {
      OpenedCredential(h, rec.snapshot.credentialEnvelope.value, r.chain.value, rec.snapshot, effective,
                       rec.securityFloor, rec.revocationEpoch);
    }
  }
}
