/** What the segments are for: what a page, a ticket, an installation, a kill order and a keyset bring about. */
module SegmentEffects {
  import opened Wrappers
  import opened Saturating
  import opened Clock
  import opened StateMachine
  import opened MachineRuns
  import opened MachineMoves
  import opened Artifacts
  import opened Chain
  import opened Trust
  import opened Ticket
  import opened Client
  import opened ClientInvariant
  import opened KeyDerivation

  // ----- pages of revocations

  /** The page is the next one on the way to `target`, and does not revoke its own signer. */
  predicate Follows(h: Host, r: Runtime, b: RevocationBatch, env: Envelope, target: U64) {
    && b.protoVer == 1 && b.suiteId == h.suite.id
    && b.fromEpoch == r.maxRevocationEpoch + 1 && b.fromEpoch <= b.toEpoch <= target
    && forall e :: env.epochRef == Some(e) ==> e !in b.revokedEpochs
  }

  /** The reason given for a revocation: the license first, then the machine, then the epoch. */
  predicate Reason(b: RevocationBatch, l: LicenseId, m: MachineId, reason: KillReason) {
    match reason
    case RevokedLicense => l in b.revokedLicenses
    case RevokedActivation => l !in b.revokedLicenses && m in b.revokedMachines
    case EpochRevokedKill => l !in b.revokedLicenses && m !in b.revokedMachines
    case _ => false
  }

  /** A page takes effect exactly when it opens at the watermark asked for and follows. */
  lemma PageTaken(h: Host, r: Runtime, current: U64, target: U64, env: Envelope, now: I64, saved: bool, wiped: bool)
    requires Inv(r)
    ensures var step := ApplyBatch(h, r, current, target, env, now, saved, wiped);
            var open := OpenBatch(h, r, env, now);
            if r.maxRevocationEpoch == current && open.Ok? && Follows(h, r, open.value, env, target) && r.snapshot.Some?
            then step.runtime.maxRevocationEpoch == open.value.toEpoch
            else step.runtime == r && step.result.Err?
  {
    var open := OpenBatch(h, r, env, now);
    if r.maxRevocationEpoch == current && open.Ok? && Follows(h, r, open.value, env, target) {
      AdvanceNeverFails(h, r, open.value, env, target);
    }
  }

  /** A page that names what is held ends it, and says why; any other leaves it as it was and is saved. */
  lemma PageObeyed(h: Host, r: Runtime, target: U64, env: Envelope, now: I64, saved: bool, wiped: bool,
                   l: LicenseId, m: MachineId, e: EpochId)
    requires Inv(r) && r.snapshot.Some? && r.material.Some? && OpenBatch(h, r, env, now).Ok?
    requires Follows(h, r, OpenBatch(h, r, env, now).value, env, target)
    requires r.material.value.licenseId == l && r.material.value.machineId == m && r.material.value.epochId == e
    ensures var b := OpenBatch(h, r, env, now).value;
            var step := ApplyBatch(h, r, r.maxRevocationEpoch, target, env, now, saved, wiped);
            if l in b.revokedLicenses || m in b.revokedMachines || e in b.revokedEpochs then
              && step.runtime.material.None? && step.runtime.credential.None? && step.runtime.olk.None?
              && !Productive(step.runtime.machine.state) && step.result.Err?
              && (wiped ==> step.runtime.store.None?
                            && exists reason ::
                                 step.result == Err(Fatal(RevokedFatal(reason))) && Reason(b, l, m, reason))
            else
              && step.runtime.material == r.material && step.runtime.credential == r.credential
              && step.runtime.olk == r.olk && step.runtime.machine == r.machine
              && (step.result.Ok? <==> saved)
  {
    var b := OpenBatch(h, r, env, now).value;
    AdvanceNeverFails(h, r, b, env, target);
    var named := NamedBy(b, HeldIds(r));
    if named.Some? {
      KillOrderWipes(r.machine, named.value, now);
      assert Reason(b, l, m, named.value);
    }
  }

  // ----- deadlines

  /** Seconds past a date, until time runs out. */
  function Later(date: I64, seconds: nat): I64 {
    if date + seconds > 9_223_372_036_854_775_807 then 9_223_372_036_854_775_807 else date + seconds
  }

  /** The three dates of a term: its refresh, the end of its grace, cut off by its end, and that end. */
  predicate Dated(d: Deadlines, refresh: I64, grace: nat, end: I64) {
    && d.refreshAfter == refresh && d.notAfter == end
    && d.graceDeadline == if end != 0 && end < Later(refresh, grace) then end else Later(refresh, grace)
  }

  // ----- tickets

  /** The client takes a ticket's word for everything it speaks of. */
  predicate TicketTaken(r: Runtime, next: Runtime, c: MachineCredential, t: ValidationTicket) {
    && Dated(next.machine.deadlines, t.nextRefreshAfter, c.graceSeconds, t.notAfter)
    && next.machine.clock.server == t.serverTime
    && next.machine.clock.seen == Max(r.machine.clock.seen, t.serverTime)
    && next.maxSecurityFloor == Max(r.maxSecurityFloor, t.securityFloor)
    && next.maxRevocationEpoch == Max(r.maxRevocationEpoch, t.revocationEpoch)
    && next.entitlements == (if t.entitlements.Some? then t.entitlements.value else r.entitlements)
    && next.credential == r.credential && next.olk == r.olk && next.chain == r.chain
  }

  lemma TicketRecorded(r: Runtime, c: MachineCredential, t: ValidationTicket, encoded: Bytes, now: I64, saved: bool)
    requires r.material.Some? && r.snapshot.Some? && Licensed(r.machine.state)
    ensures var step := RecordTicket(ClockObserved(r, t.serverTime), c, t, encoded, now, saved);
            var next := step.runtime;
            && TicketTaken(r, next, c, t)
            && (t.verdict.VerdictOk? ==>
                  && next.machine.state.Active? && (step.result.Ok? <==> saved)
                  && next.material == Some(r.material.value.(session := Some((t.serverNonce, t.epochId)))))
            && (!t.verdict.VerdictOk? ==> next.machine.state.Locked? && step.result.Err? && next.material == r.material)
            && next.snapshot == Some(r.snapshot.value.(validationTicket := Some(encoded)))
            && (saved ==> next.store.Some? && next.store.value.snapshot == next.snapshot.value)
  {
    var dated := ClockObserved(r, t.serverTime).machine.(deadlines := TicketDeadlines(c, t));
    TicketRestores(dated, now);
    TicketLocks(dated, t.verdict, now);
  }

  /** A ticket that opens on a licensed client renews it, or locks it if its verdict says so. */
  lemma TicketRenews(h: Host, r: Runtime, encoded: Bytes, env: Envelope, nonce: Nonce, now: I64, saved: bool,
                     wiped: bool)
    requires Inv(r) && r.credential.Some? && Licensed(r.machine.state)
    requires OpenTicket(h, r, r.credential.value, env, nonce, now).Ok?
    ensures var t := OpenTicket(h, r, r.credential.value, env, nonce, now).value;
            var step := CommitTicket(h, r, encoded, env, nonce, now, saved, wiped);
            && TicketTaken(r, step.runtime, r.credential.value, t)
            && (t.verdict.VerdictOk? ==> Derives(step.runtime) && (step.result.Ok? <==> saved))
            && (!t.verdict.VerdictOk? ==> step.runtime.machine.state.Locked? && step.result.Err?)
  {
    var t := OpenTicket(h, r, r.credential.value, env, nonce, now).value;
    TicketRecorded(r, r.credential.value, t, encoded, now, saved);
  }

  /** A ticket opens exactly when an epoch that vouches for it signed it and every check passes. */
  lemma TicketOpensExactly(h: Host, r: Runtime, env: Envelope, nonce: Nonce, now: I64, t: ValidationTicket)
    requires r.credential.Some? && r.chain.Some?
    ensures OpenTicket(h, r, r.credential.value, env, nonce, now) == Ok(t) <==>
              && VerifyArtifactFast(r.chain.value, h.suite, env, TicketKind, h.suite.decodeTicket, h.productId,
                                    Max(r.machine.clock.seen, now)) == Ok(t)
              && t.protoVer == 1 && t.suiteId in h.supportedSuites && env.epochRef == Some(t.epochId)
              && t.nonceEcho == nonce && t.machineId == r.credential.value.machineId
              && t.revocationEpoch >= r.maxRevocationEpoch && t.securityFloor >= r.maxSecurityFloor
              && t.nextRefreshAfter > t.serverTime
  {
    var verified := VerifyArtifactFast(r.chain.value, h.suite, env, TicketKind, h.suite.decodeTicket, h.productId,
                                       EffectiveNow(r.machine.clock, now));
    if verified.Ok? {
      AcceptedTicket(verified.value, ChecksFor(h, r, r.credential.value, env, nonce));
    }
  }

  // ----- installations

  lemma CredentialDated(c: MachineCredential)
    ensures Dated(CredentialDeadlines(c), c.refreshAfter, c.graceSeconds, c.notAfter)
  {
  }

  /** What an installed credential brings: its own terms, entitlements and identities, and no session yet. */
  lemma CredentialInstalled(r: Runtime, c: MachineCredential, m: Material, s: Snapshot, chain: ChainValue, now: I64,
                            saved: bool)
    ensures var step := Installed(r, CredentialLicence(c, m), s, chain, now, saved);
            var next := step.runtime;
            && Dated(next.machine.deadlines, c.refreshAfter, c.graceSeconds, c.notAfter)
            && next.credential == Some(c) && next.olk.None? && next.material == Some(m)
            && next.entitlements == c.entitlements && next.chain == Some(chain)
            && next.machine.state == (if Licensed(r.machine.state) then r.machine.state else Active)
            && next.snapshot == Some(s.(validationTicket := None, pendingNonce := None))
            && (step.result.Ok? <==> saved)
            && (saved ==> next.store.Some? && next.store.value.snapshot == next.snapshot.value)
  {
    CredentialDated(c);
    ActivationActivates(r.machine.(deadlines := CredentialDeadlines(c)), now);
  }

  /** What an installed offline license brings: no refresh and no grace, only its own end, if it has one. */
  lemma LicenseInstalled(r: Runtime, l: OfflineLicenseKey, m: Material, s: Snapshot, chain: ChainValue, now: I64,
                         saved: bool)
    ensures var step := Installed(r, OlkLicence(l, m), s, chain, now, saved);
            var next := step.runtime;
            var end := if l.notAfter == 0 then 9_223_372_036_854_775_807 else l.notAfter;
            && next.machine.deadlines == Deadlines(end, end, l.notAfter)
            && next.credential.None? && next.olk == Some(l) && next.material == Some(m)
            && next.entitlements == l.entitlements && next.chain == Some(chain)
            && next.machine.state == (if Licensed(r.machine.state) then r.machine.state else Active)
            && next.snapshot == Some(s.(validationTicket := None, pendingNonce := None))
            && (step.result.Ok? <==> saved)
            && (saved ==> next.store.Some? && next.store.value.snapshot == next.snapshot.value)
  {
    ActivationActivates(r.machine.(deadlines := OlkDeadlines(l)), now);
  }

  /** A response is installed only if it answers the pending request and has not run out; it uses the request up. */
  lemma ResponseTaken(h: Host, r: Runtime, t: Turn)
    requires t.segment.SImportResponse? && Installs(h, r, t)
    ensures var env := t.segment.env;
            h.suite.decodeResponse(env.tbs).Some?
            && var response := h.suite.decodeResponse(env.tbs).value;
               var next := Execute(h, r, t).runtime;
               && r.snapshot.value.pendingNonce == Some(response.nonceEcho)
               && response.protoVer == 1 && response.suiteId == h.suite.id
               && response.serverTime < response.validUntil && Max(r.machine.clock.seen, t.now) < response.validUntil
               && next.machine.clock.server == response.serverTime && next.snapshot.Some?
               && next.snapshot.value.credentialEnvelope == Some(response.credential)
               && next.snapshot.value.epochCertificates == response.chain && next.snapshot.value.pendingNonce == None
               && next.credential.Some? && next.entitlements == next.credential.value.entitlements
               && Dated(next.machine.deadlines, next.credential.value.refreshAfter, next.credential.value.graceSeconds,
                        next.credential.value.notAfter)
               && next.machine.state == (if Licensed(r.machine.state) then r.machine.state else Active)
               && (Execute(h, r, t).result.Ok? <==> t.saved)
  {
    var s, env := r.snapshot.value, t.segment.env;
    var (response, c, m, chain) :=
      OpenResponse(h, r, s, s.pendingNonce.value, env, t.segment.response, t.now).value;
    CredentialInstalled(ClockObserved(r, response.serverTime), c, m,
                        s.(credentialEnvelope := Some(response.credential), epochCertificates := response.chain), chain,
                        t.now, t.saved);
  }

  /** An activation installs the credential it carries, under the chain the client has. */
  lemma ActivationTaken(h: Host, r: Runtime, t: Turn)
    requires t.segment.SInstallActivation? && Installs(h, r, t)
    ensures var next := Execute(h, r, t).runtime;
            && next.credential.Some? && next.chain == r.chain && next.snapshot.Some?
            && next.snapshot.value.credentialEnvelope == Some(t.segment.encoded)
            && next.snapshot.value.epochCertificates == r.snapshot.value.epochCertificates
            && next.maxRevocationEpoch >= t.segment.target
            && next.entitlements == next.credential.value.entitlements
            && Dated(next.machine.deadlines, next.credential.value.refreshAfter, next.credential.value.graceSeconds,
                     next.credential.value.notAfter)
            && next.machine.state == (if Licensed(r.machine.state) then r.machine.state else Active)
            && (Execute(h, r, t).result.Ok? <==> t.saved)
  {
    var s := r.snapshot.value;
    var (c, m) := OpenMachineCredential(h, t.segment.encoded, r.chain.value, s, EffectiveNow(r.machine.clock, t.now),
                                        r.maxSecurityFloor, r.maxRevocationEpoch).value;
    CredentialInstalled(r.(maxRevocationEpoch := Max(r.maxRevocationEpoch, t.segment.target)), c, m,
                        s.(credentialEnvelope := Some(t.segment.encoded)), r.chain.value, t.now, t.saved);
  }

  /** An offline bundle installs its license, with its own certificates and its own end. */
  lemma BundleTaken(h: Host, r: Runtime, t: Turn)
    requires t.segment.SImportOlk? && Installs(h, r, t)
    ensures var next := Execute(h, r, t).runtime;
            && next.olk.Some? && next.credential.None? && next.snapshot.Some?
            && next.snapshot.value.credentialEnvelope == Some(t.segment.encoded)
            && next.snapshot.value.epochCertificates == t.segment.certs && next.snapshot.value.pendingNonce == None
            && next.entitlements == next.olk.value.entitlements
            && next.machine.deadlines.notAfter == next.olk.value.notAfter
            && next.machine.deadlines.refreshAfter == next.machine.deadlines.graceDeadline
            && next.machine.deadlines.graceDeadline ==
               (if next.olk.value.notAfter == 0 then 9_223_372_036_854_775_807 else next.olk.value.notAfter)
            && next.machine.state == (if Licensed(r.machine.state) then r.machine.state else Active)
            && (Execute(h, r, t).result.Ok? <==> t.saved)
  {
    var s := r.snapshot.value;
    var (l, m, chain) := OpenBundle(h, r, s, t.segment.env, t.segment.license, t.segment.certs, t.now).value;
    LicenseInstalled(ClockObserved(r, l.issuedAt), l, m,
                     s.(credentialEnvelope := Some(t.segment.encoded), epochCertificates := t.segment.certs), chain,
                     t.now, t.saved);
  }

  // ----- requests and their answers

  function PendingNonce(r: Runtime): Option<Nonce> {
    if r.snapshot.Some? then r.snapshot.value.pendingNonce else None
  }

  /** The only segment that makes a nonce pending is the one that built a request with it. */
  lemma PendingStep(h: Host, r: Runtime, t: Turn)
    ensures var next := PendingNonce(Execute(h, r, t).runtime);
            next.None? || next == PendingNonce(r)
            || (t.segment.SBuildOfflineRequest? && next == Some(t.segment.nonce) && t.segment.built)
  {
    if t.segment.SImportResponse? || t.segment.SImportOlk? || t.segment.SInstallActivation? {
      InstallStep(h, r, t);
      if Installs(h, r, t) {
        match t.segment
        case SImportResponse(_, _) => ResponseTaken(h, r, t);
        case SImportOlk(_, _, _, _) => BundleTaken(h, r, t);
        case SInstallActivation(_, _) =>
      }
    } else if t.segment.SCommitTicket? {
      PendingCommit(h, r, t);
    } else if t.segment.SApplyBatch? {
      PendingPage(h, r, t);
    }
  }

  lemma PendingCommit(h: Host, r: Runtime, t: Turn)
    requires t.segment.SCommitTicket?
    ensures var next := PendingNonce(Execute(h, r, t).runtime); next.None? || next == PendingNonce(r)
  {
  }

  lemma PendingPage(h: Host, r: Runtime, t: Turn)
    requires t.segment.SApplyBatch?
    ensures var next := PendingNonce(Execute(h, r, t).runtime); next.None? || next == PendingNonce(r)
  {
  }

  ghost predicate RequestedAt(turns: seq<Turn>, j: nat, nonce: Nonce) {
    j < |turns| && turns[j].segment.SBuildOfflineRequest? && turns[j].segment.nonce == nonce
  }

  lemma {:induction false} PendingFromRequest(h: Host, r: Runtime, turns: seq<Turn>, nonce: Nonce)
    requires PendingNonce(r) != Some(nonce) && PendingNonce(Interleave(h, r, turns)) == Some(nonce)
    ensures exists j: nat :: RequestedAt(turns, j, nonce)
  {
    var n := |turns| - 1;
    PendingStep(h, Interleave(h, r, turns[..n]), turns[n]);
    if PendingNonce(Interleave(h, r, turns[..n])) == Some(nonce) {
      PendingFromRequest(h, r, turns[..n], nonce);
      var j: nat :| RequestedAt(turns[..n], j, nonce);
      assert RequestedAt(turns, j, nonce);
    } else {
      assert RequestedAt(turns, n, nonce);
    }
  }

  /** In any execution, a response is installed only after a request that it answers was built. */
  lemma {:induction false} ResponseAnswersRequest(h: Host, r: Runtime, turns: seq<Turn>, i: nat)
    requires PendingNonce(r).None? && i < |turns| && turns[i].segment.SImportResponse?
    requires Installs(h, Interleave(h, r, turns[..i]), turns[i])
    ensures h.suite.decodeResponse(turns[i].segment.env.tbs).Some?
    ensures exists j: nat ::
              RequestedAt(turns[..i], j, h.suite.decodeResponse(turns[i].segment.env.tbs).value.nonceEcho)
  {
    ResponseTaken(h, Interleave(h, r, turns[..i]), turns[i]);
    PendingFromRequest(h, r, turns[..i], h.suite.decodeResponse(turns[i].segment.env.tbs).value.nonceEcho);
  }

  // ----- kill orders and keysets

  /** A kill order for this machine and request, not behind the watermark, is obeyed; any other fails closed. */
  lemma KillOrderObeyed(h: Host, r: Runtime, env: Envelope, nonce: Nonce, now: I64, wiped: bool)
    requires r.credential.Some? && r.chain.Some?
    ensures var order := VerifyArtifactFast(r.chain.value, h.suite, env, KillOrderKind, h.suite.decodeKillOrder,
                                            h.productId, Max(r.machine.clock.seen, now));
            var step := ApplyKillOrder(h, r, env, nonce, now, wiped);
            var next := step.runtime;
            && Bare(next) && (wiped ==> next.store.None?)
            && if && order.Ok? && order.value.protoVer == 1 && order.value.suiteId == h.suite.id
                  && order.value.machineId == r.credential.value.machineId && order.value.nonceEcho == nonce
                  && order.value.revocationEpoch >= r.maxRevocationEpoch
               then
                 && (step.result.Ok? <==> wiped) && next.machine.clock.server == order.value.serverTime
                 && (next.machine.state.Revoked? || r.machine.state.Tampered?)
               else step.result.Err? && step.result.error.Fatal?
  {
    var order := VerifyArtifactFast(r.chain.value, h.suite, env, KillOrderKind, h.suite.decodeKillOrder, h.productId,
                                    EffectiveNow(r.machine.clock, now));
    if order.Ok? {
      KillOrderWipes(ClockObserved(r, order.value.serverTime).machine, order.value.reason, now);
    }
  }

  /** A keyset that verifies becomes the client's chain and is what a restart will rebuild it from. */
  lemma KeysetTaken(h: Host, r: Runtime, k: Keyset, now: I64)
    requires r.snapshot.Some?
    ensures var chain := KeysetChain(h.anchors, h.suite, k, h.productId, Max(r.machine.clock.seen, now),
                                     r.maxRevocationEpoch, r.snapshot.value.revokedEpochs);
            var step := InstallKeyset(h, r, k, now);
            && (step.result.Ok? <==> chain.Ok?)
            && (if chain.Ok? then
                  && step.runtime.chain == Some(chain.value) && step.runtime.snapshot.Some?
                  && step.runtime.snapshot.value == r.snapshot.value.(epochCertificates := k.epochCertificates)
                else step.runtime == r)
  {
  }

  // ----- the other segments

  /** A deactivation leaves nothing, and succeeds if the store was wiped too. */
  lemma DeactivationObeyed(r: Runtime, now: I64, wiped: bool)
    ensures var step := Deactivate(r, now, wiped);
            && Bare(step.runtime) && (step.result.Ok? <==> wiped)
            && step.runtime.store == (if wiped then None else r.store)
            && (Licensed(r.machine.state) || r.machine.state.Activating? ==> step.runtime.machine.state.Unlicensed?)
  {
    DeactivationWipes(r.machine, now);
  }

  /** Failing closed leaves nothing and ends in one of the two dead states. */
  lemma FailureCloses(r: Runtime, e: FatalError, now: I64, wiped: bool)
    ensures var step := FailClosed(r, e, now, wiped);
            && Bare(step.runtime) && step.result == Err(Fatal(e))
            && step.runtime.store == (if wiped then None else r.store)
            && step.runtime.machine.state == (if r.machine.state.Revoked? then Revoked else Tampered)
  {
    FailureTampers(r.machine, e, now);
  }

  /** A request is built only without a licence, and makes its nonce the pending one. */
  lemma RequestBuilt(r: Runtime, nonce: Nonce, built: bool, saved: bool)
    ensures var step := BuildOfflineRequest(r, nonce, built, saved);
            && (step.result.Ok? <==> r.credential.None? && r.olk.None? && r.snapshot.Some? && built && saved)
            && (step.result.Ok? ==>
                  && PendingNonce(step.runtime) == Some(nonce) && step.runtime.store.Some?
                  && step.runtime.store.value.snapshot.pendingNonce == Some(nonce)
                  && step.runtime.(snapshot := r.snapshot, store := r.store) == r)
  {
  }

  /** A transient failure opens the grace window or closes it, and costs nothing else. */
  lemma FailureFelt(r: Runtime, e: TransientError, now: I64, saved: bool)
    ensures var step := TransientFailure(r, e, now, saved);
            var d, at := r.machine.deadlines, Max(r.machine.clock.seen, now);
            && step.runtime.(machine := r.machine, store := r.store) == r
            && (step.result.Ok? <==> saved && r.snapshot.Some?)
            && (r.machine.state.NeedsRevalidation? ==>
                  step.runtime.machine.state ==
                  if at < d.graceDeadline && (d.notAfter == 0 || at < d.notAfter) then Grace else Locked)
            && (Licensed(r.machine.state) && !r.machine.state.NeedsRevalidation? ==>
                  step.runtime.machine.state == r.machine.state)
  {
    NetworkFails(r.machine, e, now);
  }

  /** A cycle ages the machine, or asks for the validation it waits for, and saves the clock it has seen. */
  lemma PulseFelt(r: Runtime, online: bool, now: I64, saved: bool)
    ensures var step := Pulse(r, online, now, saved);
            var m, next := r.machine, step.runtime.machine;
            var at := Max(m.clock.seen, now);
            && step.runtime.(machine := m, store := r.store) == r
            && (step.result.Ok? <==> saved || r.snapshot.None?)
            && (r.snapshot.Some? && saved ==> step.runtime.store.Some? && step.runtime.store.value.clock == next.clock)
            && (online ==> next.state == m.state && next.clock == m.clock)
            && (online && (m.state.NeedsRevalidation? || m.state.Grace? || m.state.Locked?) ==> next.lastAttempt == at)
            && (!online ==> next.clock.seen == at)
            && (!online && now + 300 >= m.clock.seen ==> next.state == AgedState(m.state, m.deadlines, at))
  {
    if online {
      NetworkReturns(r.machine, now);
    } else {
      TimePasses(r.machine, now);
      StepMarks(r.machine, Tick, now);
    }
  }

  // ----- a term, once granted, is honoured

  /** Segments of a client that hears nothing. */
  predicate Unheard(t: Turn, d: Deadlines) {
    && Before(t.now, d)
    && (|| t.segment.SPulse? || t.segment.STransientFailure? || t.segment.SBeginValidate? || t.segment.SEnsureKeys?
        || t.segment.SBuildOfflineRequest? || t.segment.SInstallKeyset?)
  }

  lemma UnheardEvent(m: Machine, e: Event, now: I64)
    requires Productive(m.state) && Before(m.clock.seen, m.deadlines) && Before(now, m.deadlines)
    requires e.Tick? || e.NetworkAvailable? || e.NetworkFailed?
    requires Next(m, e, now).machine.clock.rollbacks <= m.config.rollbackThreshold
    ensures var next := Next(m, e, now).machine;
            && Productive(next.state) && next.deadlines == m.deadlines && next.config == m.config
            && next.hasCredential == m.hasCredential
            && Before(next.clock.seen, next.deadlines) && next.clock.rollbacks >= m.clock.rollbacks
  {
    OutageStep(m, Handle(e, now));
    StepKeeps(m, Handle(e, now));
  }

  lemma UnheardStep(h: Host, r: Runtime, t: Turn)
    requires Derives(r) && Before(r.machine.clock.seen, r.machine.deadlines) && Unheard(t, r.machine.deadlines)
    requires Execute(h, r, t).runtime.machine.clock.rollbacks <= r.machine.config.rollbackThreshold
    ensures var next := Execute(h, r, t).runtime;
            && Derives(next) && next.machine.deadlines == r.machine.deadlines && next.machine.config == r.machine.config
            && Before(next.machine.clock.seen, next.machine.deadlines)
            && next.machine.clock.rollbacks >= r.machine.clock.rollbacks
  {
    match t.segment
    case SPulse(online) => UnheardEvent(r.machine, if online then NetworkAvailable else Tick, t.now);
    case STransientFailure(e) => UnheardEvent(r.machine, NetworkFailed(e), t.now);
    case _ =>
  }

  /**
   Fail open: a client that can derive keys goes on doing so until its grace deadline or its hard expiry,
   however long it hears nothing and whatever its clock reads before then, while rollbacks stay within
   the threshold.
   */
  lemma {:induction false} TermHonoured(h: Host, r: Runtime, turns: seq<Turn>)
    requires Inv(r) && Derives(r) && Before(r.machine.clock.seen, r.machine.deadlines)
    requires forall i :: 0 <= i < |turns| ==> Unheard(turns[i], r.machine.deadlines)
    requires Interleave(h, r, turns).machine.clock.rollbacks <= r.machine.config.rollbackThreshold
    ensures var last := Interleave(h, r, turns);
            && Derives(last) && last.machine.deadlines == r.machine.deadlines
            && last.machine.config == r.machine.config && Before(last.machine.clock.seen, r.machine.deadlines)
  {
    if |turns| > 0 {
      var n := |turns| - 1;
      var before := Interleave(h, r, turns[..n]);
      InterleaveKeeps(h, r, turns[..n]);
      KeptExecute(h, before, turns[n]);
      TermHonoured(h, r, turns[..n]);
      UnheardStep(h, before, turns[n]);
    }
  }

  /** An installation on an unlicensed machine likewise: keys until the end of the term it brings. */
  lemma {:induction false} InstallHonoured(h: Host, r: Runtime, t: Turn, turns: seq<Turn>)
    requires Inv(r) && Installs(h, r, t) && !Licensed(r.machine.state)
    requires var next := Execute(h, r, t).runtime;
             && Before(next.machine.clock.seen, next.machine.deadlines)
             && (forall i :: 0 <= i < |turns| ==> Unheard(turns[i], next.machine.deadlines))
             && Interleave(h, next, turns).machine.clock.rollbacks <= next.machine.config.rollbackThreshold
    ensures Derives(Execute(h, r, t).runtime) && Derives(Interleave(h, Execute(h, r, t).runtime, turns))
  {
    var next := Execute(h, r, t).runtime;
    KeptExecute(h, r, t);
    match t.segment {
      case SImportResponse(_, _) => ResponseTaken(h, r, t);
      case SInstallActivation(_, _) => ActivationTaken(h, r, t);
      case SImportOlk(_, _, _, _) => BundleTaken(h, r, t);
    }
    TermHonoured(h, next, turns);
  }

  /** So a good ticket buys the client its term: keys until the refresh date it sets and its grace after that. */
  lemma {:induction false} TicketHonoured(h: Host, r: Runtime, t: Turn, turns: seq<Turn>)
    requires Inv(r) && t.segment.SCommitTicket? && GoodTicket(h, r, t) && Licensed(r.machine.state)
    requires var next := Execute(h, r, t).runtime;
             && Before(next.machine.clock.seen, next.machine.deadlines)
             && (forall i :: 0 <= i < |turns| ==> Unheard(turns[i], next.machine.deadlines))
             && Interleave(h, next, turns).machine.clock.rollbacks <= r.machine.config.rollbackThreshold
    ensures var ticket := OpenTicket(h, r, r.credential.value, t.segment.env, t.segment.nonce, t.now).value;
            var next := Execute(h, r, t).runtime;
            && Dated(next.machine.deadlines, ticket.nextRefreshAfter, r.credential.value.graceSeconds, ticket.notAfter)
            && Derives(Interleave(h, next, turns))
  {
    var next := Execute(h, r, t).runtime;
    TicketRenews(h, r, t.segment.encoded, t.segment.env, t.segment.nonce, t.now, t.saved, t.wiped);
    KeptExecute(h, r, t);
    CommitConfig(h, r, t);
    TermHonoured(h, next, turns);
  }

  lemma CommitConfig(h: Host, r: Runtime, t: Turn)
    requires t.segment.SCommitTicket? && GoodTicket(h, r, t)
    ensures Execute(h, r, t).runtime.machine.config == r.machine.config
  {
    var ticket := OpenTicket(h, r, r.credential.value, t.segment.env, t.segment.nonce, t.now).value;
    var dated := ClockObserved(r, ticket.serverTime).machine.(deadlines := TicketDeadlines(r.credential.value, ticket));
    StepMarks(dated, TicketVerified, t.now);
  }
}
