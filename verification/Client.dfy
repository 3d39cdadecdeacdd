/**
 The desktop client's shared state and the segments during which its mutex is held.

 Every public operation is a sequence of such segments with network waits between them, so every
 execution of any number of concurrent operations is an interleaving of segments. A segment takes
 as arguments whatever its operation carried across the last wait, and the outcome of every call
 that leaves the client: clock readings, fetched bytes, and whether the store accepted a write.
 */
module Client {
  import opened Wrappers
  import opened Saturating
  import opened Clock
  import opened StateMachine
  import opened Artifacts
  import opened Chain
  import opened Trust
  import opened Ticket

  datatype Snapshot = Snapshot(
    deviceKeys: Bytes, credentialEnvelope: Option<Bytes>, epochCertificates: seq<Bytes>,
    validationTicket: Option<Bytes>, pendingNonce: Option<Nonce>, revokedEpochs: seq<EpochId>)

  function NewSnapshot(deviceKeys: Bytes): Snapshot {
    Snapshot(deviceKeys, None, [], None, None, [])
  }

  /** Key material, by the identities it is bound to and the online session it carries. */
  datatype Material = Material(
    licenseId: LicenseId, machineId: MachineId, epochId: EpochId, session: Option<(Nonce, EpochId)>)

  /** What the secure store holds. */
  datatype Record = Record(snapshot: Snapshot, clock: Marks, securityFloor: U64, revocationEpoch: U64)

  datatype Runtime = Runtime(
    machine: Machine,
    snapshot: Option<Snapshot>,
    credential: Option<MachineCredential>,
    olk: Option<OfflineLicenseKey>,
    material: Option<Material>,
    entitlements: set<string>,
    chain: Option<ChainValue>,
    maxSecurityFloor: U64,
    maxRevocationEpoch: U64,
    store: Option<Record>)

  /** What the build and the device fix: configuration, trust anchors and cryptography. */
  datatype Host = Host(
    suite: Suite, anchors: TrustAnchors, core: CoreConfig, productId: string, fingerprint: Bytes,
    buildFingerprint: string, variantId: U64, supportedSuites: seq<SuiteId>, allowUnboundOlk: bool,
    keysDecode: Bytes -> bool, unseals: (Bytes, MachineCredential) -> bool, bindsOlk: OfflineLicenseKey -> bool)

  datatype ClientError =
    | Fatal(fatal: FatalError)
    | Local
    | NotActivated
    | AlreadyActivated
    | NoPendingRequest
    | UnboundOlkDisabled
    | ReactivationNeeded
    | OutOfScope
    | Superseded

  datatype Step = Step(runtime: Runtime, result: Result<(), ClientError>)

  // ----- persistence and erasure

  function RecordOf(r: Runtime): Record
    requires r.snapshot.Some?
  {
    Record(r.snapshot.value, r.machine.clock, r.maxSecurityFloor, r.maxRevocationEpoch)
  }

  /** `persist_locked`: nothing to save without a snapshot, and the store may refuse. */
  function Persisted(r: Runtime, saved: bool): Step {
    if r.snapshot.Some? && saved then Step(r.(store := Some(RecordOf(r))), Ok(())) else Step(r, Err(Local))
  }

  /** Erase every credential and derived key after telling the machine why. */
  function Erased(r: Runtime, why: Event, now: I64, wiped: bool): Runtime {
    r.(machine := Next(r.machine, why, now).machine, snapshot := None, credential := None, olk := None,
       material := None, entitlements := {}, chain := None, store := if wiped then None else r.store)
  }

  function FailClosed(r: Runtime, e: FatalError, now: I64, wiped: bool): Step {
    Step(Erased(r, VerificationFailed(e), now, wiped), Err(Fatal(e)))
  }

  /** Nothing is held any more. */
  predicate Bare(r: Runtime) {
    && r.snapshot.None? && r.credential.None? && r.olk.None? && r.material.None? && r.chain.None?
    && r.entitlements == {}
  }

  // ----- opening credentials

  function OpenMachineCredential(h: Host, encoded: Bytes, chain: ChainValue, snapshot: Snapshot, now: I64,
                                 floor: U64, revocation: U64): (r: Result<(MachineCredential, Material), FatalError>)
    ensures r.Ok? ==> var (c, m) := r.value;
                      && c.securityFloor >= floor && c.revocationEpoch >= revocation
                      && c.epochId !in chain.revocation.revoked
                      && m == Material(c.licenseId, c.machineId, c.epochId, None)
  {
    var envelope := h.suite.decodeEnvelope(encoded);
    if envelope.None? then Err(CredentialCorrupt)
    else if envelope.value.protoVer != PROTO_VER || envelope.value.suiteId != h.suite.id then Err(CredentialCorrupt)
    else
      var verified :=
        VerifyArtifact(chain, h.suite, envelope.value, MachineCredKind, h.suite.decodeCredential, h.productId, now);
      if verified.Err? then Err(ToFatal(verified.error))
      else
        var c := verified.value;
        if || c.protoVer != PROTO_VER
           || c.suiteId != h.suite.id
           || c.productId != h.productId
           || envelope.value.epochRef != Some(c.epochId)
           || c.fingerprint != h.fingerprint
           || c.buildFingerprint != Some(h.buildFingerprint)
           || c.variantId != h.variantId
           || c.securityFloor < floor
           || c.revocationEpoch < revocation
           || c.issuedAt > now
           || c.refreshAfter <= c.issuedAt
           || (c.notAfter != 0 && c.notAfter <= now)
        then
          Err(if c.securityFloor < floor then SecurityFloorRegression
              else if c.revocationEpoch < revocation then RevocationRollback
              else if c.fingerprint != h.fingerprint then MachineMismatch
              else CredentialCorrupt)
        else if !h.unseals(snapshot.deviceKeys, c) then Err(CredentialCorrupt)
        else Ok((c, Material(c.licenseId, c.machineId, c.epochId, None)))
  }

  /** What a verified credential must say to be this client's, now. */
  predicate CredentialFits(h: Host, c: MachineCredential, env: Envelope, now: I64, floor: U64, revocation: U64) {
    && c.protoVer == PROTO_VER == env.protoVer && c.suiteId == h.suite.id == env.suiteId && c.productId == h.productId
    && env.epochRef == Some(c.epochId)
    && c.fingerprint == h.fingerprint && c.buildFingerprint == Some(h.buildFingerprint) && c.variantId == h.variantId
    && c.securityFloor >= floor && c.revocationEpoch >= revocation
    && c.issuedAt <= now && c.issuedAt < c.refreshAfter && (c.notAfter == 0 || now < c.notAfter)
  }

  /**
   A credential opens if and only if it verifies, fits and unseals; a regression of a watermark is
   what is reported first.
   */
  lemma CredentialOpensExactly(h: Host, encoded: Bytes, env: Envelope, chain: ChainValue, snapshot: Snapshot, now: I64,
                               floor: U64, revocation: U64, c: MachineCredential)
    requires h.suite.decodeEnvelope(encoded) == Some(env)
    ensures var r := OpenMachineCredential(h, encoded, chain, snapshot, now, floor, revocation);
            var v := VerifyArtifact(chain, h.suite, env, MachineCredKind, h.suite.decodeCredential, h.productId, now);
            && ((r.Ok? && r.value.0 == c) <==>
                  v == Ok(c) && CredentialFits(h, c, env, now, floor, revocation) && h.unseals(snapshot.deviceKeys, c))
            && (env.suiteId == h.suite.id && v == Ok(c) ==>
                  && (c.securityFloor < floor <==> r == Err(SecurityFloorRegression))
                  && (c.securityFloor >= floor && c.revocationEpoch < revocation <==> r == Err(RevocationRollback)))
  {
  }

  datatype OlkError = OlkFatal(fatal: FatalError) | UnboundDisabled

  function OpenOfflineLicense(h: Host, env: Envelope, chain: ChainValue, now: I64, floor: U64, revocation: U64)
    : (r: Result<(OfflineLicenseKey, Material), OlkError>)
    ensures r.Ok? ==> var (l, m) := r.value;
                      && l.securityFloor >= floor && l.revocationEpoch >= revocation
                      && l.epochId !in chain.revocation.revoked
                      && m == Material(l.licenseId, l.machineId, l.epochId, None)
  {
    var preview := PeekOlk(h.suite, env);
    if preview.Err? then Err(OlkFatal(ToFatal(preview.error)))
    else
      var verified := VerifyArtifact(
        chain, h.suite, env, OfflineLicenseKind, h.suite.decodeOlk, h.productId, preview.value.issuedAt);
      if verified.Err? then Err(OlkFatal(ToFatal(verified.error)))
      else
        var l := verified.value;
        if || l.protoVer != PROTO_VER
           || l.suiteId != h.suite.id
           || l.productId != h.productId
           || env.protoVer != PROTO_VER
           || env.suiteId != h.suite.id
           || env.epochRef != Some(l.epochId)
           || l.buildFingerprint != h.buildFingerprint
           || l.variantId != h.variantId
           || l.maxSeats == 0
           || l.securityFloor < floor
           || l.revocationEpoch < revocation
           || l.issuedAt > now
           || (l.notAfter != 0 && (l.notAfter <= l.issuedAt || now >= l.notAfter))
           || !(l.wrappedKeks <= l.entitlements)
        then
          Err(OlkFatal(if l.securityFloor < floor then SecurityFloorRegression
                       else if l.revocationEpoch < revocation then RevocationRollback
                       else CredentialCorrupt))
        else if l.boundFingerprint.Some? && l.boundFingerprint.value != h.fingerprint then
          Err(OlkFatal(MachineMismatch))
        else if l.boundFingerprint.None? && !h.allowUnboundOlk then Err(UnboundDisabled)
        else if !h.bindsOlk(l) then Err(OlkFatal(CredentialCorrupt))
        else Ok((l, Material(l.licenseId, l.machineId, l.epochId, None)))
  }

  /** What a verified offline license must say to be this client's, now. */
  predicate LicenseFits(h: Host, l: OfflineLicenseKey, env: Envelope, now: I64, floor: U64, revocation: U64) {
    && l.protoVer == PROTO_VER == env.protoVer && l.suiteId == h.suite.id == env.suiteId && l.productId == h.productId
    && env.epochRef == Some(l.epochId)
    && l.buildFingerprint == h.buildFingerprint && l.variantId == h.variantId && l.maxSeats > 0
    && l.securityFloor >= floor && l.revocationEpoch >= revocation
    && l.issuedAt <= now && (l.notAfter == 0 || (l.issuedAt < l.notAfter && now < l.notAfter))
    && (forall k :: k in l.wrappedKeks ==> k in l.entitlements)
    && (if l.boundFingerprint.Some? then l.boundFingerprint.value == h.fingerprint else h.allowUnboundOlk)
  }

  /** An offline license opens if and only if it verifies as of its own issue date, fits and binds. */
  lemma LicenseOpensExactly(h: Host, env: Envelope, chain: ChainValue, now: I64, floor: U64, revocation: U64,
                            l: OfflineLicenseKey)
    ensures var r := OpenOfflineLicense(h, env, chain, now, floor, revocation);
            var v := VerifyArtifact(chain, h.suite, env, OfflineLicenseKind, h.suite.decodeOlk, h.productId,
                                    l.issuedAt);
            (r.Ok? && r.value.0 == l) <==> v == Ok(l) && LicenseFits(h, l, env, now, floor, revocation) && h.bindsOlk(l)
  {
  }

  function PeekOlk(s: Suite, env: Envelope): Result<OfflineLicenseKey, ProtoError> {
    if env.kind != OfflineLicenseKind then Err(ArtifactKindMismatch)
    else if s.decodeOlk(env.tbs).None? then Err(Codec)
    else Ok(s.decodeOlk(env.tbs).value)
  }

  // ----- the segments

  /** `ensure_device_keys`, second half. */
  function EnsureKeys(r: Runtime, generated: Bytes): Step {
    Step(if r.snapshot.None? then r.(snapshot := Some(NewSnapshot(generated))) else r, Ok(()))
  }

  function BuildOfflineRequest(r: Runtime, nonce: Nonce, built: bool, saved: bool): Step {
    if r.credential.Some? || r.olk.Some? then Step(r, Err(AlreadyActivated))
    else if r.snapshot.None? then Step(r, Err(Local))
    else if !built then Step(r, Err(Fatal(CredentialCorrupt)))
    else Persisted(r.(snapshot := Some(r.snapshot.value.(pendingNonce := Some(nonce)))), saved)
  }

  /** What an installation puts in place. */
  datatype Licence = Licence(
    credential: Option<MachineCredential>, olk: Option<OfflineLicenseKey>, material: Material,
    entitlements: set<string>, deadlines: Deadlines, securityFloor: U64, revocationEpoch: U64)

  function CredentialLicence(c: MachineCredential, m: Material): Licence {
    Licence(Some(c), None, m, c.entitlements, CredentialDeadlines(c), c.securityFloor, c.revocationEpoch)
  }

  function OlkLicence(l: OfflineLicenseKey, m: Material): Licence {
    Licence(None, Some(l), m, l.entitlements, OlkDeadlines(l), l.securityFloor, l.revocationEpoch)
  }

  /** Replace the licence: raise the watermarks, date the machine, tell it, swap everything held, save. */
  function Installed(r: Runtime, l: Licence, s: Snapshot, chain: ChainValue, now: I64, saved: bool): Step {
    Persisted(
      r.(machine := Next(r.machine.(deadlines := l.deadlines), ActivationVerified, now).machine,
         snapshot := Some(s.(validationTicket := None, pendingNonce := None)),
         credential := l.credential, olk := l.olk, material := Some(l.material),
         entitlements := l.entitlements, chain := Some(chain),
         maxSecurityFloor := Max(r.maxSecurityFloor, l.securityFloor),
         maxRevocationEpoch := Max(r.maxRevocationEpoch, l.revocationEpoch)),
      saved)
  }

  function ClockObserved(r: Runtime, serverTime: I64): Runtime {
    r.(machine := r.machine.(clock := Observed(r.machine.clock, serverTime)))
  }

  /** The checks on an offline response, all made before anything is changed. */
  function OpenResponse(h: Host, r: Runtime, s: Snapshot, pending: Nonce, env: Envelope, preview: ActivationResponse,
                        now: I64)
    : Result<(ActivationResponse, MachineCredential, Material, ChainValue), FatalError>
  {
    var effective := EffectiveNow(r.machine.clock, now);
    var chain := KeysetChain(h.anchors, h.suite, Keyset(PROTO_VER, preview.chain, r.maxRevocationEpoch), h.productId,
                             effective, r.maxRevocationEpoch, s.revokedEpochs);
    if chain.Err? then Err(chain.error)
    else
      var verified :=
        VerifyArtifact(chain.value, h.suite, env, ResponseKind, h.suite.decodeResponse, h.productId, effective);
      if verified.Err? then Err(ToFatal(verified.error))
      else
        var response := verified.value;
        if || response.protoVer != PROTO_VER || response.suiteId != h.suite.id || response.nonceEcho != pending
           || response.validUntil <= response.serverTime || effective >= response.validUntil
        then Err(if response.nonceEcho != pending then NonceMismatch else CredentialCorrupt)
        else
          var outcome := OpenMachineCredential(h, response.credential, chain.value, s,
                                               Max(effective, response.serverTime), r.maxSecurityFloor,
                                               r.maxRevocationEpoch);
          if outcome.Err? then Err(outcome.error)
          else Ok((response, outcome.value.0, outcome.value.1, chain.value))
  }

  function ImportResponse(h: Host, r: Runtime, env: Envelope, preview: ActivationResponse, now: I64, saved: bool,
                          wiped: bool)
    : Step
  {
    if r.credential.Some? || r.olk.Some? then Step(r, Err(AlreadyActivated))
    else if r.snapshot.None? || r.snapshot.value.pendingNonce.None? then Step(r, Err(NoPendingRequest))
    else
      var s := r.snapshot.value;
      var outcome := OpenResponse(h, r, s, s.pendingNonce.value, env, preview, now);
      if outcome.Err? then FailClosed(r, outcome.error, now, wiped)
      else
        var (response, credential, material, chain) := outcome.value;
        Installed(ClockObserved(r, response.serverTime), CredentialLicence(credential, material),
                  s.(credentialEnvelope := Some(response.credential),
                     epochCertificates := response.chain), chain, now, saved)
  }

  /** The chain and the license of an offline bundle. */
  function OpenBundle(h: Host, r: Runtime, s: Snapshot, env: Envelope, preview: OfflineLicenseKey, certs: seq<Bytes>,
                      now: I64)
    : Result<(OfflineLicenseKey, Material, ChainValue), OlkError>
  {
    var chain := KeysetChain(h.anchors, h.suite, Keyset(PROTO_VER, certs, r.maxRevocationEpoch), h.productId,
                             preview.issuedAt, r.maxRevocationEpoch, s.revokedEpochs);
    if chain.Err? then Err(OlkFatal(chain.error))
    else
      var outcome := OpenOfflineLicense(h, env, chain.value, EffectiveNow(r.machine.clock, now),
                                       r.maxSecurityFloor, r.maxRevocationEpoch);
      if outcome.Err? then Err(outcome.error) else Ok((outcome.value.0, outcome.value.1, chain.value))
  }

  function ImportOlk(h: Host, r: Runtime, encoded: Bytes, env: Envelope, preview: OfflineLicenseKey, certs: seq<Bytes>,
                     now: I64, saved: bool, wiped: bool): Step
  {
    if r.credential.Some? || r.olk.Some? then Step(r, Err(AlreadyActivated))
    else if r.snapshot.None? then FailClosed(r, CredentialCorrupt, now, wiped)
    else
      var s := r.snapshot.value;
      var outcome := OpenBundle(h, r, s, env, preview, certs, now);
      if outcome.Err? && outcome.error.UnboundDisabled? then Step(r, Err(UnboundOlkDisabled))
      else if outcome.Err? then FailClosed(r, outcome.error.fatal, now, wiped)
      else
        var (license, material, chain) := outcome.value;
        Installed(ClockObserved(r, license.issuedAt), OlkLicence(license, material),
                  s.(credentialEnvelope := Some(encoded), epochCertificates := certs), chain, now, saved)
  }

  /** The last segment of an online activation. It does not look again at what is already installed. */
  function InstallActivation(h: Host, r: Runtime, encoded: Bytes, target: U64, now: I64, saved: bool, wiped: bool): Step
  {
    if r.snapshot.None? then Step(r, Err(Local))
    else if r.chain.None? then FailClosed(r, ChainInvalid, now, wiped)
    else
      var s := r.snapshot.value;
      var outcome := OpenMachineCredential(h, encoded, r.chain.value, s, EffectiveNow(r.machine.clock, now),
                                          r.maxSecurityFloor, r.maxRevocationEpoch);
      if outcome.Err? then FailClosed(r, outcome.error, now, wiped)
      else
        var (credential, material) := outcome.value;
        Installed(r.(maxRevocationEpoch := Max(r.maxRevocationEpoch, target)), CredentialLicence(credential, material),
                  s.(credentialEnvelope := Some(encoded)), r.chain.value, now, saved)
  }

  function BeginValidate(r: Runtime, now: I64, built: bool): Step {
    var noted := r.(machine := r.machine.(lastAttempt := now));
    if r.credential.None? || r.snapshot.None? then Step(noted, Err(NotActivated))
    else if !built then Step(noted, Err(Fatal(CredentialCorrupt)))
    else Step(noted, Ok(()))
  }

  function ChecksFor(h: Host, r: Runtime, c: MachineCredential, env: Envelope, nonce: Nonce): TicketChecks
    requires env.epochRef.Some?
  {
    TicketChecks(h.supportedSuites, env.epochRef.value, nonce, c.machineId, r.maxRevocationEpoch, r.maxSecurityFloor)
  }

  /** The ticket in an envelope, verified and checked against the state as it now is. */
  function OpenTicket(h: Host, r: Runtime, c: MachineCredential, env: Envelope, nonce: Nonce, now: I64)
    : Result<ValidationTicket, FatalError>
  {
    if r.chain.None? then Err(ChainInvalid)
    else
      var verified := VerifyArtifactFast(r.chain.value, h.suite, env, TicketKind, h.suite.decodeTicket, h.productId,
                                         EffectiveNow(r.machine.clock, now));
      if verified.Err? then Err(ToFatal(verified.error))
      else
        var fault := TicketFault(verified.value, ChecksFor(h, r, c, env, nonce));
        if fault.Some? then Err(fault.value) else Ok(verified.value)
  }

  function PreviewTicket(h: Host, r: Runtime, env: Envelope, nonce: Nonce, now: I64, wiped: bool): Step {
    if r.credential.None? then FailClosed(r, CredentialCorrupt, now, wiped)
    else
      var outcome := OpenTicket(h, r, r.credential.value, env, nonce, now);
      if outcome.Err? then FailClosed(r, outcome.error, now, wiped) else Step(r, Ok(()))
  }

  function TicketEvent(v: Verdict): Event {
    if v.VerdictOk? then TicketVerified else TicketDenied(v)
  }

  function TicketResult(v: Verdict): Result<(), ClientError> {
    match v
    case VerdictOk => Ok(())
    case NeedsReactivation => Err(ReactivationNeeded)
    case VersionOutOfScopeVerdict => Err(OutOfScope)
  }

  /** Put an accepted ticket into effect; the clock has already taken the server's time. */
  function RecordTicket(r: Runtime, c: MachineCredential, t: ValidationTicket, encoded: Bytes, now: I64,
                        saved: bool): Step
  {
    var r1 := r.(maxSecurityFloor := Max(r.maxSecurityFloor, t.securityFloor),
                 maxRevocationEpoch := Max(r.maxRevocationEpoch, t.revocationEpoch),
                 entitlements := if t.entitlements.Some? then t.entitlements.value else r.entitlements);
    if t.verdict.VerdictOk? && r.material.None? then Step(r1, Err(NotActivated))
    else
      var r2 := r1.(
        machine := Next(r.machine.(deadlines := TicketDeadlines(c, t)), TicketEvent(t.verdict), now).machine,
        material := if t.verdict.VerdictOk? then Some(r.material.value.(session := Some((t.serverNonce, t.epochId))))
                    else r.material);
      if r.snapshot.None? then Step(r2, Err(NotActivated))
      else
        var done := Persisted(r2.(snapshot := Some(r.snapshot.value.(validationTicket := Some(encoded)))), saved);
        Step(done.runtime, if done.result.Err? then done.result else TicketResult(t.verdict))
  }

  function CommitTicket(h: Host, r: Runtime, encoded: Bytes, env: Envelope, nonce: Nonce, now: I64, saved: bool,
                        wiped: bool)
    : Step
  {
    if r.credential.None? then Step(r, Err(NotActivated))
    else
      var outcome := OpenTicket(h, r, r.credential.value, env, nonce, now);
      if outcome.Err? then FailClosed(r, outcome.error, now, wiped)
      else
        RecordTicket(ClockObserved(r, outcome.value.serverTime), r.credential.value, outcome.value, encoded, now, saved)
  }

  function KillOrderFault(h: Host, r: Runtime, c: MachineCredential, o: KillOrderBody, nonce: Nonce): Option<FatalError>
  {
    if o.protoVer != PROTO_VER || o.suiteId != h.suite.id then Some(CredentialCorrupt)
    else if o.machineId != c.machineId then Some(MachineMismatch)
    else if o.nonceEcho != nonce then Some(NonceMismatch)
    else if o.revocationEpoch < r.maxRevocationEpoch then Some(RevocationRollback)
    else None
  }

  function ApplyKillOrder(h: Host, r: Runtime, env: Envelope, nonce: Nonce, now: I64, wiped: bool): Step {
    if r.credential.None? then Step(r, Err(NotActivated))
    else if r.chain.None? then FailClosed(r, ChainInvalid, now, wiped)
    else
      var verified := VerifyArtifactFast(r.chain.value, h.suite, env, KillOrderKind, h.suite.decodeKillOrder,
                                         h.productId, EffectiveNow(r.machine.clock, now));
      if verified.Err? then FailClosed(r, ToFatal(verified.error), now, wiped)
      else
        var o := verified.value;
        var fault := KillOrderFault(h, r, r.credential.value, o, nonce);
        if fault.Some? then FailClosed(r, fault.value, now, wiped)
        else
          Step(Erased(ClockObserved(r, o.serverTime), KillOrderVerified(o.reason), now, wiped),
               if wiped then Ok(()) else Err(Local))
  }

  function Deactivate(r: Runtime, now: I64, wiped: bool): Step {
    Step(Erased(r, UserDeactivate, now, wiped), if wiped then Ok(()) else Err(Local))
  }

  function InstallKeyset(h: Host, r: Runtime, k: Keyset, now: I64): Step {
    if r.snapshot.None? then Step(r, Err(NotActivated))
    else
      var s := r.snapshot.value;
      var chain := KeysetChain(h.anchors, h.suite, k, h.productId, EffectiveNow(r.machine.clock, now),
                               r.maxRevocationEpoch, s.revokedEpochs);
      if chain.Err? then Step(r, Err(Fatal(chain.error)))
      else
        Step(r.(snapshot := Some(s.(epochCertificates := k.epochCertificates)), chain := Some(chain.value)), Ok(()))
  }

  /** The identities a revocation can name. */
  function HeldIds(r: Runtime): Option<(LicenseId, MachineId, EpochId)> {
    if r.credential.Some? then
      Some((r.credential.value.licenseId, r.credential.value.machineId, r.credential.value.epochId))
    else if r.olk.Some? then Some((r.olk.value.licenseId, r.olk.value.machineId, r.olk.value.epochId))
    else None
  }

  function NamedBy(b: RevocationBatch, held: Option<(LicenseId, MachineId, EpochId)>): Option<KillReason> {
    if held.None? then None
    else if held.value.0 in b.revokedLicenses then Some(RevokedLicense)
    else if held.value.1 in b.revokedMachines then Some(RevokedActivation)
    else if held.value.2 in b.revokedEpochs then Some(EpochRevokedKill)
    else None
  }

  /** The page revokes the license, the machine or the epoch of what is held. */
  predicate Names(b: RevocationBatch, held: Option<(LicenseId, MachineId, EpochId)>) {
    && held.Some?
    && (held.value.0 in b.revokedLicenses || held.value.1 in b.revokedMachines || held.value.2 in b.revokedEpochs)
  }

  /** A batch may be applied at watermark `cursor - 1` on the way to `target`. */
  predicate BatchFits(h: Host, b: RevocationBatch, env: Envelope, cursor: nat, target: U64) {
    && b.protoVer == PROTO_VER && b.suiteId == h.suite.id && b.fromEpoch == cursor
    && b.fromEpoch <= b.toEpoch <= target
    && !(env.epochRef.Some? && env.epochRef.value in b.revokedEpochs)
  }

  function OpenBatch(h: Host, r: Runtime, env: Envelope, now: I64): Result<RevocationBatch, FatalError> {
    if r.chain.None? then Err(ChainInvalid)
    else
      var verified := VerifyArtifact(r.chain.value, h.suite, env, BatchKind, h.suite.decodeBatch, h.productId,
                                     EffectiveNow(r.machine.clock, now));
      if verified.Err? then Err(ToFatal(verified.error)) else Ok(verified.value)
  }

  /** One page of revocations, applied only if the watermark is still what it was when the page was asked for. */
  function ApplyBatch(h: Host, r: Runtime, current: U64, target: U64, env: Envelope, now: I64, saved: bool,
                      wiped: bool): Step
  {
    if r.maxRevocationEpoch != current then Step(r, Err(Superseded))
    else
      var outcome := OpenBatch(h, r, env, now);
      if outcome.Err? then Step(r, Err(Fatal(outcome.error)))
      else if !BatchFits(h, outcome.value, env, current + 1, target) then Step(r, Err(Fatal(CredentialCorrupt)))
      else if r.snapshot.None? then Step(r, Err(NotActivated))
      else
        var b := outcome.value;
        var s := r.snapshot.value;
        var view := Advanced(r.chain.value.revocation, b.toEpoch, b.revokedEpochs);
        if view.Err? then Step(r, Err(Fatal(ToFatal(view.error))))
        else
          var advanced := r.(
            chain := Some(r.chain.value.(revocation := view.value)),
            maxRevocationEpoch := b.toEpoch,
            snapshot := Some(s.(revokedEpochs := MergeRevoked(s.revokedEpochs, b.revokedEpochs))));
          var named := NamedBy(b, HeldIds(r));
          if named.Some? then
            Step(Erased(advanced, KillOrderVerified(named.value), now, wiped),
                 Err(if wiped then Fatal(RevokedFatal(named.value)) else Local))
          else Persisted(advanced, saved)
  }

  function TransientFailure(r: Runtime, e: TransientError, now: I64, saved: bool): Step {
    Persisted(r.(machine := Next(r.machine, NetworkFailed(e), now).machine), saved)
  }

  /** A scheduler cycle, or the clock guard run before a key is derived. */
  function Pulse(r: Runtime, online: bool, now: I64, saved: bool): Step {
    var next := r.(machine := Next(r.machine, if online then NetworkAvailable else Tick, now).machine);
    if next.snapshot.Some? then Persisted(next, saved) else Step(next, Ok(()))
  }

  datatype Segment =
    | SEnsureKeys(generated: Bytes)
    | SBuildOfflineRequest(nonce: Nonce, built: bool)
    | SImportResponse(env: Envelope, response: ActivationResponse)
    | SImportOlk(encoded: Bytes, env: Envelope, license: OfflineLicenseKey, certs: seq<Bytes>)
    | SInstallActivation(encoded: Bytes, target: U64)
    | SBeginValidate(built: bool)
    | SPreviewTicket(env: Envelope, nonce: Nonce)
    | SCommitTicket(encoded: Bytes, env: Envelope, nonce: Nonce)
    | SApplyKillOrder(env: Envelope, nonce: Nonce)
    | SDeactivate
    | SFailClosed(fatal: FatalError)
    | SInstallKeyset(keyset: Keyset)
    | SApplyBatch(current: U64, target: U64, env: Envelope)
    | STransientFailure(transient: TransientError)
    | SPulse(online: bool)

  /** A segment together with the clock reading and the store's answers it meets. */
  datatype Turn = Turn(segment: Segment, now: I64, saved: bool, wiped: bool)

  function Execute(h: Host, r: Runtime, t: Turn): Step {
    match t.segment
    case SEnsureKeys(g) => EnsureKeys(r, g)
    case SBuildOfflineRequest(n, b) => BuildOfflineRequest(r, n, b, t.saved)
    case SImportResponse(env, p) => ImportResponse(h, r, env, p, t.now, t.saved, t.wiped)
    case SImportOlk(e, env, p, certs) => ImportOlk(h, r, e, env, p, certs, t.now, t.saved, t.wiped)
    case SInstallActivation(e, target) => InstallActivation(h, r, e, target, t.now, t.saved, t.wiped)
    case SBeginValidate(b) => BeginValidate(r, t.now, b)
    case SPreviewTicket(env, n) => PreviewTicket(h, r, env, n, t.now, t.wiped)
    case SCommitTicket(e, env, n) => CommitTicket(h, r, e, env, n, t.now, t.saved, t.wiped)
    case SApplyKillOrder(env, n) => ApplyKillOrder(h, r, env, n, t.now, t.wiped)
    case SDeactivate => Deactivate(r, t.now, t.wiped)
    case SFailClosed(e) => FailClosed(r, e, t.now, t.wiped)
    case SInstallKeyset(k) => InstallKeyset(h, r, k, t.now)
    case SApplyBatch(c, target, env) => ApplyBatch(h, r, c, target, env, t.now, t.saved, t.wiped)
    case STransientFailure(e) => TransientFailure(r, e, t.now, t.saved)
    case SPulse(online) => Pulse(r, online, t.now, t.saved)
  }

  /** An interleaving of segments of any number of operations. */
  function Interleave(h: Host, r: Runtime, turns: seq<Turn>): Runtime {
    if |turns| == 0 then r
    else Execute(h, Interleave(h, r, turns[..|turns| - 1]), turns[|turns| - 1]).runtime
  }
}
