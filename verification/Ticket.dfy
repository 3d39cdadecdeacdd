/** The mandatory checklist a verified validation ticket must pass. */
module Ticket {
  import opened Wrappers
  import opened Saturating
  import opened Clock
  import opened StateMachine
  import opened Artifacts

  const MAX_SKEW_SECS: I64 := 86_400

  datatype TicketChecks = TicketChecks(
    supportedSuites: seq<SuiteId>, verifiedEpoch: EpochId, sentNonce: Nonce, machineId: MachineId,
    knownRevocationEpoch: U64, knownSecurityFloor: U64)

  datatype Check = Check(passes: bool, fault: FatalError)

  /** The checks in the order the protocol numbers them. */
  function Checklist(t: ValidationTicket, ctx: TicketChecks): seq<Check> {
    [ Check(t.protoVer == PROTO_VER, CredentialCorrupt),
      Check(t.suiteId in ctx.supportedSuites, CredentialCorrupt),
      Check(t.epochId == ctx.verifiedEpoch, ChainInvalid),
      Check(t.nonceEcho == ctx.sentNonce, NonceMismatch),
      Check(t.machineId == ctx.machineId, MachineMismatch),
      Check(t.revocationEpoch >= ctx.knownRevocationEpoch, RevocationRollback),
      Check(t.securityFloor >= ctx.knownSecurityFloor, SecurityFloorRegression),
      Check(t.nextRefreshAfter > t.serverTime, CredentialCorrupt) ]
  }

  /** The fault of the first check that fails. */
  function FirstFault(checks: seq<Check>): (r: Option<FatalError>)
    ensures r.None? <==> forall i :: 0 <= i < |checks| ==> checks[i].passes
  {
    if |checks| == 0 then None else if !checks[0].passes then Some(checks[0].fault) else FirstFault(checks[1..])
  }

  lemma {:induction false} FirstFaultAt(checks: seq<Check>, i: nat)
    requires i < |checks| && !checks[i].passes && forall j :: 0 <= j < i ==> checks[j].passes
    ensures FirstFault(checks) == Some(checks[i].fault)
  {
    if i > 0 {
      FirstFaultAt(checks[1..], i - 1);
    }
  }

  function TicketFault(t: ValidationTicket, ctx: TicketChecks): Option<FatalError> {
    FirstFault(Checklist(t, ctx))
  }

  /** Omitting any one check would be noticed: a ticket that violates exactly that check is refused with its fault. */
  lemma EachCheckMatters(t: ValidationTicket, ctx: TicketChecks, i: nat)
    requires i < |Checklist(t, ctx)| && !Checklist(t, ctx)[i].passes
    requires forall j :: 0 <= j < |Checklist(t, ctx)| && j != i ==> Checklist(t, ctx)[j].passes
    ensures TicketFault(t, ctx) == Some(Checklist(t, ctx)[i].fault)
  {
    FirstFaultAt(Checklist(t, ctx), i);
  }

  /**
   A ticket is accepted if and only if it is of this version and a supported suite, was signed under
   the epoch it names, answers this request for this machine, moves neither watermark back, and asks
   for its next refresh after it was issued.
   */
  lemma AcceptedTicket(t: ValidationTicket, ctx: TicketChecks)
    ensures TicketFault(t, ctx).None? <==>
              && t.protoVer == 1 && t.suiteId in ctx.supportedSuites
              && t.epochId == ctx.verifiedEpoch && t.nonceEcho == ctx.sentNonce && t.machineId == ctx.machineId
              && t.revocationEpoch >= ctx.knownRevocationEpoch && t.securityFloor >= ctx.knownSecurityFloor
              && t.nextRefreshAfter > t.serverTime
  {
    var c := Checklist(t, ctx);
    if TicketFault(t, ctx).None? {
      assert c[0].passes && c[1].passes && c[2].passes && c[3].passes;
      assert c[4].passes && c[5].passes && c[6].passes && c[7].passes;
    }
  }

  /** The five checks made before the clocks are compared. */
  predicate Bound(t: ValidationTicket, ctx: TicketChecks) {
    && t.protoVer == PROTO_VER && t.suiteId in ctx.supportedSuites && t.epochId == ctx.verifiedEpoch
    && t.nonceEcho == ctx.sentNonce && t.machineId == ctx.machineId
  }

  /** The clock difference whose absolute value is representable. */
  predicate Comparable(serverTime: I64, localNow: I64) {
    SatSub(serverTime, localNow) != I64_MIN
  }

  /** The difference overflows exactly when the local clock is at least 2^63 seconds ahead of the server. */
  lemma ComparableExact(serverTime: I64, localNow: I64)
    ensures Comparable(serverTime, localNow) <==> localNow - serverTime < 0x8000_0000_0000_0000
  {
  }

  function Divergence(serverTime: I64, localNow: I64): I64
    requires Comparable(serverTime, localNow)
  {
    var d := SatSub(serverTime, localNow);
    if d < 0 then -d else d
  }

  /** Runs the checklist; a refused ticket leaves the clock alone, an accepted one sets it. */
  method CheckTicket(t: ValidationTicket, ctx: TicketChecks, clock: ClockState, localNow: I64)
    returns (r: Result<Option<I64>, FatalError>)
    requires Bound(t, ctx) ==> Comparable(t.serverTime, localNow)
    modifies clock
    ensures r.Ok? <==> TicketFault(t, ctx).None?
    ensures r.Err? ==> TicketFault(t, ctx) == Some(r.error) && clock.Value() == old(clock.Value())
    ensures r.Ok? ==> clock.Value() == Observed(old(clock.Value()), t.serverTime)
    ensures r.Ok? ==> Comparable(t.serverTime, localNow) && r.value ==
                        if Divergence(t.serverTime, localNow) > MAX_SKEW_SECS
                        then Some(Divergence(t.serverTime, localNow)) else None
  {
    ghost var c := Checklist(t, ctx);
    if t.protoVer != PROTO_VER {
      FirstFaultAt(c, 0);
      return Err(CredentialCorrupt);
    }
    if t.suiteId !in ctx.supportedSuites {
      FirstFaultAt(c, 1);
      return Err(CredentialCorrupt);
    }
    if t.epochId != ctx.verifiedEpoch {
      FirstFaultAt(c, 2);
      return Err(ChainInvalid);
    }
    if t.nonceEcho != ctx.sentNonce {
      FirstFaultAt(c, 3);
      return Err(NonceMismatch);
    }
    if t.machineId != ctx.machineId {
      FirstFaultAt(c, 4);
      return Err(MachineMismatch);
    }
    var difference := SatSub(t.serverTime, localNow);
    var divergence := if difference < 0 then -difference else difference;
    var observations := if divergence > MAX_SKEW_SECS then Some(divergence) else None;
    if t.revocationEpoch < ctx.knownRevocationEpoch {
      FirstFaultAt(c, 5);
      return Err(RevocationRollback);
    }
    if t.securityFloor < ctx.knownSecurityFloor {
      FirstFaultAt(c, 6);
      return Err(SecurityFloorRegression);
    }
    if t.nextRefreshAfter <= t.serverTime {
      FirstFaultAt(c, 7);
      return Err(CredentialCorrupt);
    }
    clock.ObserveServerTime(t.serverTime);
    return Ok(observations);
  }
}
