/**
 Signed artifacts as the client sees them, and the cryptography it calls.

 Signatures, hashes and decoding are functions a `Suite` supplies: every claim about them holds
 for whatever functions they are.
 */
module Artifacts {
  import opened Wrappers
  import opened Saturating
  import opened StateMachine

  type Bytes = seq<U8>

  const PROTO_VER: U8 := 1

  datatype EpochId = EpochId(raw: Bytes)
  datatype LicenseId = LicenseId(raw: Bytes)
  datatype MachineId = MachineId(raw: Bytes)
  datatype SuiteId = SuiteId(raw: nat)
  datatype Digest = Digest(raw: Bytes)
  datatype Nonce = Nonce(raw: Bytes)
  datatype VerifyingKey = VerifyingKey(encoded: Bytes)

  datatype ArtifactKind =
    | EpochCertKind | MachineCredKind | OfflineLicenseKind | TicketKind | KillOrderKind | BatchKind | ResponseKind

  datatype EpochCert = EpochCert(
    protoVer: U8, suiteId: SuiteId, epochId: EpochId, vk: Bytes, vkFast: Bytes,
    notBefore: I64, notAfter: I64, productScope: Option<string>, issuerVkDigest: Digest)

  datatype MachineCredential = MachineCredential(
    protoVer: U8, suiteId: SuiteId, productId: string, licenseId: LicenseId, machineId: MachineId,
    fingerprint: Bytes, entitlements: set<string>, issuedAt: I64, notAfter: I64, refreshAfter: I64,
    graceSeconds: U32, revocationEpoch: U64, epochId: EpochId, buildFingerprint: Option<string>,
    securityFloor: U64, variantId: U64)

  datatype OfflineLicenseKey = OfflineLicenseKey(
    protoVer: U8, suiteId: SuiteId, productId: string, licenseId: LicenseId, machineId: MachineId,
    entitlements: set<string>, issuedAt: I64, notAfter: I64, boundFingerprint: Option<Bytes>, maxSeats: U64,
    epochId: EpochId, buildFingerprint: string, variantId: U64, securityFloor: U64, revocationEpoch: U64,
    wrappedKeks: set<string>)

  datatype ValidationTicket = ValidationTicket(
    protoVer: U8, suiteId: SuiteId, machineId: MachineId, nonceEcho: Nonce, serverNonce: Nonce, serverTime: I64,
    nextRefreshAfter: I64, notAfter: I64, revocationEpoch: U64, verdict: Verdict, entitlements: Option<set<string>>,
    epochId: EpochId, securityFloor: U64)

  datatype KillOrderBody = KillOrderBody(
    protoVer: U8, suiteId: SuiteId, machineId: MachineId, nonceEcho: Nonce, serverTime: I64, reason: KillReason,
    revocationEpoch: U64)

  datatype RevocationBatch = RevocationBatch(
    protoVer: U8, suiteId: SuiteId, fromEpoch: U64, toEpoch: U64,
    revokedLicenses: seq<LicenseId>, revokedMachines: seq<MachineId>, revokedEpochs: seq<EpochId>)

  datatype ActivationResponse = ActivationResponse(
    protoVer: U8, suiteId: SuiteId, nonceEcho: Nonce, credential: Bytes, chain: seq<Bytes>, serverTime: I64,
    validUntil: I64)

  datatype Keyset = Keyset(protoVer: U8, epochCertificates: seq<Bytes>, revocationEpoch: U64)

  datatype Envelope = Envelope(
    protoVer: U8, suiteId: SuiteId, kind: ArtifactKind, tbs: Bytes, sig: Bytes, epochRef: Option<EpochId>)

  datatype ProtoError =
    | Codec | Crypto | UnsupportedProtoVersion | ArtifactKindMismatch | RootPinMismatch | OutsideValidityWindow
    | EpochRevokedProto | UnknownEpoch | MonotonicityViolation

  /** Every protocol error is fatal. */
  function ToFatal(e: ProtoError): FatalError {
    match e
    case RootPinMismatch => ChainInvalid
    case UnknownEpoch => ChainInvalid
    case OutsideValidityWindow => ChainInvalid
    case EpochRevokedProto => EpochRevoked
    case MonotonicityViolation => RevocationRollback
    case Crypto => SignatureInvalid
    case Codec => CredentialCorrupt
    case UnsupportedProtoVersion => CredentialCorrupt
    case ArtifactKindMismatch => CredentialCorrupt
  }

  datatype Suite = Suite(
    id: SuiteId,
    hash: Bytes -> Digest,
    decodeVk: Bytes -> Option<VerifyingKey>,
    decodeFastVk: Bytes -> Option<VerifyingKey>,
    verifies: (VerifyingKey, string, Envelope) -> bool,
    verifiesFast: (VerifyingKey, string, Envelope) -> bool,
    decodeEnvelope: Bytes -> Option<Envelope>,
    decodeCert: Bytes -> Option<EpochCert>,
    decodeCredential: Bytes -> Option<MachineCredential>,
    decodeOlk: Bytes -> Option<OfflineLicenseKey>,
    decodeTicket: Bytes -> Option<ValidationTicket>,
    decodeKillOrder: Bytes -> Option<KillOrderBody>,
    decodeBatch: Bytes -> Option<RevocationBatch>,
    decodeResponse: Bytes -> Option<ActivationResponse>)

  /** `notBefore <= now < notAfter`, with zero for an unlimited end. */
  predicate InWindow(notBefore: I64, notAfter: I64, now: I64) {
    now >= notBefore && (notAfter == 0 || now < notAfter)
  }

  // ----- deadlines carried by artifacts

  /** The grace period runs from the refresh date, and no further than the hard expiry. */
  function GraceEnd(refreshAfter: I64, graceSeconds: U32, notAfter: I64): (end: I64)
    ensures end <= refreshAfter + graceSeconds && (notAfter != 0 ==> end <= notAfter)
    ensures end < refreshAfter + graceSeconds ==> end == I64_MAX || end == notAfter != 0
  {
    var soft := SatAdd(refreshAfter, graceSeconds);
    if notAfter == 0 then soft else Min(soft, notAfter)
  }

  function CredentialDeadlines(c: MachineCredential): Deadlines {
    Deadlines(c.refreshAfter, GraceEnd(c.refreshAfter, c.graceSeconds, c.notAfter), c.notAfter)
  }

  function TicketDeadlines(c: MachineCredential, t: ValidationTicket): Deadlines {
    Deadlines(t.nextRefreshAfter, GraceEnd(t.nextRefreshAfter, c.graceSeconds, t.notAfter), t.notAfter)
  }

  function OlkDeadlines(l: OfflineLicenseKey): Deadlines {
    var stop := if l.notAfter == 0 then I64_MAX else l.notAfter;
    Deadlines(stop, stop, l.notAfter)
  }
}
