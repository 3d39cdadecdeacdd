/** A revoked epoch stays revoked: within a run, whatever is refused, and across restarts. */
module RevokedEpochs {
  import opened Wrappers
  import opened Saturating
  import opened Clock
  import opened Artifacts
  import opened Chain
  import opened Trust
  import opened Client
  import opened ClientInvariant
  import opened ClientTheorems

  // ----- the list only grows

  /** No segment of the execution erased the snapshot. */
  ghost predicate NeverErased(h: Host, r: Runtime, turns: seq<Turn>) {
    forall i :: 0 <= i <= |turns| ==> Interleave(h, r, turns[..i]).snapshot.Some?
  }

  lemma {:induction false} RevokedOnlyGrows(h: Host, r: Runtime, turns: seq<Turn>)
    requires Inv(r) && NeverErased(h, r, turns)
    ensures r.snapshot.Some? && Interleave(h, r, turns).snapshot.Some?
    ensures r.snapshot.value.revokedEpochs <= Interleave(h, r, turns).snapshot.value.revokedEpochs
  {
    assert turns[..|turns|] == turns;
    if |turns| > 0 {
      var init := turns[..|turns| - 1];
      assert forall i :: 0 <= i <= |init| ==> init[..i] == turns[..i];
      RevokedOnlyGrows(h, r, init);
      InterleaveKeeps(h, r, init);
      KeptExecute(h, Interleave(h, r, init), turns[|turns| - 1]);
    }
  }

  // ----- what a revoked epoch signed

  predicate EncodedUnder(h: Host, encoded: Bytes, e: EpochId) {
    h.suite.decodeEnvelope(encoded).Some? && h.suite.decodeEnvelope(encoded).value.epochRef == Some(e)
  }

  /** The response in an envelope carries a credential signed under `e`. */
  predicate CarriesUnder(h: Host, env: Envelope, e: EpochId) {
    h.suite.decodeResponse(env.tbs).Some? && EncodedUnder(h, h.suite.decodeResponse(env.tbs).value.credential, e)
  }

  /** The segment brings in something signed under `e`. */
  predicate SignedUnder(h: Host, t: Turn, e: EpochId) {
    match t.segment
    case SImportResponse(env, _) => env.epochRef == Some(e) || CarriesUnder(h, env, e)
    case SImportOlk(_, env, _, _) => env.epochRef == Some(e)
    case SInstallActivation(encoded, _) => EncodedUnder(h, encoded, e)
    case SPreviewTicket(env, _) => env.epochRef == Some(e)
    case SCommitTicket(_, env, _) => env.epochRef == Some(e)
    case SApplyKillOrder(env, _) => env.epochRef == Some(e)
    case SApplyBatch(_, _, env) => env.epochRef == Some(e)
    case _ => false
  }

  /** The segment failed without effect, or failed closed. */
  predicate Refused(h: Host, r: Runtime, t: Turn) {
    var step := Execute(h, r, t);
    && step.result.Err?
    && (|| step.runtime == r
        || (step.result.error.Fatal? && step == FailClosed(r, step.result.error.fatal, t.now, t.wiped)))
  }

  lemma CredentialUnderRevoked(h: Host, encoded: Bytes, chain: ChainValue, s: Snapshot, now: I64, floor: U64,
                               revocation: U64, e: EpochId)
    requires EncodedUnder(h, encoded, e) && e in chain.revocation.revoked
    ensures OpenMachineCredential(h, encoded, chain, s, now, floor, revocation).Err?
  {
    RevokedNeverVerifies(chain, h.suite, h.suite.decodeEnvelope(encoded).value, MachineCredKind,
                         h.suite.decodeCredential, h.productId, now);
  }

  lemma ResponseUnderRevoked(h: Host, r: Runtime, t: Turn, e: EpochId)
    requires Inv(r) && r.snapshot.Some? && e in r.snapshot.value.revokedEpochs
    requires t.segment.SImportResponse? && SignedUnder(h, t, e)
    ensures Refused(h, r, t)
  {
    var s, env, preview := r.snapshot.value, t.segment.env, t.segment.response;
    var k, effective := Keyset(PROTO_VER, preview.chain, r.maxRevocationEpoch), EffectiveNow(r.machine.clock, t.now);
    var chain := KeysetChain(h.anchors, h.suite, k, h.productId, effective, r.maxRevocationEpoch, s.revokedEpochs);
    if chain.Ok? && s.pendingNonce.Some? {
      RebuiltChain(h, k, effective, r.maxRevocationEpoch, s.revokedEpochs);
      if env.epochRef == Some(e) {
        RevokedNeverVerifies(chain.value, h.suite, env, ResponseKind, h.suite.decodeResponse, h.productId, effective);
      } else {
        var response := h.suite.decodeResponse(env.tbs).value;
        CredentialUnderRevoked(h, response.credential, chain.value, s, Max(effective, response.serverTime),
                               r.maxSecurityFloor, r.maxRevocationEpoch, e);
      }
      assert OpenResponse(h, r, s, s.pendingNonce.value, env, preview, t.now).Err?;
    }
  }

  lemma OlkUnderRevoked(h: Host, r: Runtime, t: Turn, e: EpochId)
    requires Inv(r) && r.snapshot.Some? && e in r.snapshot.value.revokedEpochs
    requires t.segment.SImportOlk? && SignedUnder(h, t, e)
    ensures Refused(h, r, t)
  {
    var s, env, issued := r.snapshot.value, t.segment.env, t.segment.license.issuedAt;
    var k := Keyset(PROTO_VER, t.segment.certs, r.maxRevocationEpoch);
    var chain := KeysetChain(h.anchors, h.suite, k, h.productId, issued, r.maxRevocationEpoch, s.revokedEpochs);
    if chain.Ok? {
      RebuiltChain(h, k, issued, r.maxRevocationEpoch, s.revokedEpochs);
      if PeekOlk(h.suite, env).Ok? {
        RevokedNeverVerifies(chain.value, h.suite, env, OfflineLicenseKind, h.suite.decodeOlk, h.productId,
                             PeekOlk(h.suite, env).value.issuedAt);
      }
    }
  }

  lemma ActivationUnderRevoked(h: Host, r: Runtime, t: Turn, e: EpochId)
    requires Inv(r) && r.snapshot.Some? && e in r.snapshot.value.revokedEpochs
    requires t.segment.SInstallActivation? && SignedUnder(h, t, e)
    ensures Refused(h, r, t)
  {
    if r.chain.Some? {
      CredentialUnderRevoked(h, t.segment.encoded, r.chain.value, r.snapshot.value,
                             EffectiveNow(r.machine.clock, t.now),
                             r.maxSecurityFloor, r.maxRevocationEpoch, e);
    }
  }

  lemma TicketUnderRevoked(h: Host, r: Runtime, t: Turn, e: EpochId)
    requires Inv(r) && r.snapshot.Some? && e in r.snapshot.value.revokedEpochs
    requires (t.segment.SPreviewTicket? || t.segment.SCommitTicket?) && SignedUnder(h, t, e)
    ensures Refused(h, r, t)
  {
    if r.chain.Some? {
      RevokedNeverVerifies(r.chain.value, h.suite, t.segment.env, TicketKind, h.suite.decodeTicket, h.productId,
                           EffectiveNow(r.machine.clock, t.now));
    }
  }

  lemma OrderUnderRevoked(h: Host, r: Runtime, t: Turn, e: EpochId)
    requires Inv(r) && r.snapshot.Some? && e in r.snapshot.value.revokedEpochs
    requires (t.segment.SApplyKillOrder? || t.segment.SApplyBatch?) && SignedUnder(h, t, e)
    ensures Refused(h, r, t)
  {
    if r.chain.Some? {
      var now := EffectiveNow(r.machine.clock, t.now);
      if t.segment.SApplyKillOrder? {
        RevokedNeverVerifies(r.chain.value, h.suite, t.segment.env, KillOrderKind, h.suite.decodeKillOrder,
                             h.productId, now);
      } else {
        RevokedNeverVerifies(r.chain.value, h.suite, t.segment.env, BatchKind, h.suite.decodeBatch, h.productId, now);
      }
    }
  }

  /** Whatever brings in something signed under a known revoked epoch is refused, chain or no chain. */
  lemma UnderRevokedRefused(h: Host, r: Runtime, t: Turn, e: EpochId)
    requires Inv(r) && r.snapshot.Some? && e in r.snapshot.value.revokedEpochs && SignedUnder(h, t, e)
    ensures Refused(h, r, t)
  {
    match t.segment
    case SImportResponse(_, _) => ResponseUnderRevoked(h, r, t, e);
    case SImportOlk(_, _, _, _) => OlkUnderRevoked(h, r, t, e);
    case SInstallActivation(_, _) => ActivationUnderRevoked(h, r, t, e);
    case SPreviewTicket(_, _) => TicketUnderRevoked(h, r, t, e);
    case SCommitTicket(_, _, _) => TicketUnderRevoked(h, r, t, e);
    case SApplyKillOrder(_, _) => OrderUnderRevoked(h, r, t, e);
    case SApplyBatch(_, _, _) => OrderUnderRevoked(h, r, t, e);
  }

  /**
   Once an epoch is known to be revoked, every later segment that brings in anything signed under
   it is refused, imports and keyset refreshes included, until the client is erased.
   */
  lemma {:induction false} RevocationPermanent(h: Host, r: Runtime, turns: seq<Turn>, e: EpochId, i: nat)
    requires Inv(r) && r.snapshot.Some? && e in r.snapshot.value.revokedEpochs
    requires i < |turns| && NeverErased(h, r, turns[..i])
    ensures var now := Interleave(h, r, turns[..i]);
            && (SignedUnder(h, turns[i], e) ==> Refused(h, now, turns[i]))
            && (now.material.Some? ==> now.material.value.epochId != e)
  {
    RevokedOnlyGrows(h, r, turns[..i]);
    InterleaveKeeps(h, r, turns[..i]);
    if SignedUnder(h, turns[i], e) {
      UnderRevokedRefused(h, Interleave(h, r, turns[..i]), turns[i], e);
    }
  }

  /** A page that is applied makes every epoch it names known, at exactly the watermark it starts from, and saves it. */
  lemma AppliedBatch(h: Host, r: Runtime, current: U64, target: U64, env: Envelope, now: I64, saved: bool, wiped: bool)
    requires Inv(r) && ApplyBatch(h, r, current, target, env, now, saved, wiped).result.Ok?
    ensures var next := ApplyBatch(h, r, current, target, env, now, saved, wiped).runtime;
            var b := OpenBatch(h, r, env, now).value;
            && r.maxRevocationEpoch == current && b.fromEpoch == current + 1 && next.maxRevocationEpoch == b.toEpoch
            && current < b.toEpoch <= target
            && (forall e :: e in b.revokedEpochs ==> next.snapshot.Some? && next.store.Some? && Knows(next, e))
            && HeldIds(next) == HeldIds(r) && !Names(b, HeldIds(r))
  {
    MergeRevokedExact(r.snapshot.value.revokedEpochs, OpenBatch(h, r, env, now).value.revokedEpochs);
  }

  // ----- across restarts

  /** Neither the running client nor the store has forgotten `e`. */
  ghost predicate Knows(r: Runtime, e: EpochId) {
    && (r.snapshot.Some? ==> e in r.snapshot.value.revokedEpochs)
    && (r.store.Some? ==> e in r.store.value.snapshot.revokedEpochs)
  }

  /** An erased client starts over with new device keys and an empty snapshot. */
  predicate StartsOver(r: Runtime, t: Turn) {
    t.segment.SEnsureKeys? && r.snapshot.None?
  }

  /** The store is as it was, or wiped, or holds the snapshot as it now is; and no snapshot came from nowhere. */
  predicate StoreFollows(r: Runtime, next: Runtime) {
    && (next.store == r.store || next.store.None?
        || (next.snapshot.Some? && next.store.value.snapshot == next.snapshot.value))
    && (next.snapshot.Some? ==> r.snapshot.Some?)
  }

  lemma StoreInstall(h: Host, r: Runtime, t: Turn)
    requires t.segment.SImportResponse? || t.segment.SImportOlk? || t.segment.SInstallActivation?
    ensures StoreFollows(r, Execute(h, r, t).runtime)
  {
  }

  lemma StoreRecord(r: Runtime, c: MachineCredential, t: ValidationTicket, encoded: Bytes, now: I64, saved: bool)
    ensures StoreFollows(r, RecordTicket(r, c, t, encoded, now, saved).runtime)
  {
  }

  lemma StoreTicket(h: Host, r: Runtime, t: Turn)
    requires t.segment.SPreviewTicket? || t.segment.SCommitTicket? || t.segment.SApplyKillOrder?
    ensures StoreFollows(r, Execute(h, r, t).runtime)
  {
    if t.segment.SCommitTicket? && r.credential.Some? {
      var outcome := OpenTicket(h, r, r.credential.value, t.segment.env, t.segment.nonce, t.now);
      if outcome.Ok? {
        StoreRecord(ClockObserved(r, outcome.value.serverTime), r.credential.value, outcome.value, t.segment.encoded,
                    t.now, t.saved);
      }
    }
  }

  lemma StoreBatch(h: Host, r: Runtime, t: Turn)
    requires t.segment.SApplyBatch?
    ensures StoreFollows(r, Execute(h, r, t).runtime)
  {
  }

  lemma StoreStep(h: Host, r: Runtime, t: Turn)
    requires !StartsOver(r, t)
    ensures StoreFollows(r, Execute(h, r, t).runtime)
  {
    match t.segment
    case SImportResponse(_, _) => StoreInstall(h, r, t);
    case SImportOlk(_, _, _, _) => StoreInstall(h, r, t);
    case SInstallActivation(_, _) => StoreInstall(h, r, t);
    case SPreviewTicket(_, _) => StoreTicket(h, r, t);
    case SCommitTicket(_, _, _) => StoreTicket(h, r, t);
    case SApplyKillOrder(_, _) => StoreTicket(h, r, t);
    case SApplyBatch(_, _, _) => StoreBatch(h, r, t);
    case _ =>
  }

  lemma KnowsStep(h: Host, r: Runtime, t: Turn, e: EpochId)
    requires Inv(r) && Knows(r, e) && !StartsOver(r, t)
    ensures Knows(Execute(h, r, t).runtime, e)
  {
    KeptExecute(h, r, t);
    StoreStep(h, r, t);
  }

  ghost predicate NeverStartsOver(h: Host, r: Runtime, turns: seq<Turn>) {
    forall i :: 0 <= i < |turns| ==> !StartsOver(Interleave(h, r, turns[..i]), turns[i])
  }

  lemma {:induction false} InterleaveKnows(h: Host, r: Runtime, turns: seq<Turn>, e: EpochId)
    requires Inv(r) && Knows(r, e) && NeverStartsOver(h, r, turns)
    ensures Knows(Interleave(h, r, turns), e)
  {
    if |turns| > 0 {
      var init := turns[..|turns| - 1];
      assert forall i :: 0 <= i < |init| ==> init[..i] == turns[..i] && init[i] == turns[i];
      InterleaveKnows(h, r, init, e);
      InterleaveKeeps(h, r, init);
      KnowsStep(h, Interleave(h, r, init), turns[|turns| - 1], e);
    }
  }

  /**
   A revocation that was saved is known to every later start from the store, erasures whose wipe
   failed included, until the client starts over; and the started client knows it as the old one did.
   */
  lemma {:induction false} RevocationSurvivesRestart(h: Host, r: Runtime, turns: seq<Turn>, e: EpochId, now: I64)
    requires Inv(r) && Knows(r, e) && NeverStartsOver(h, r, turns)
    requires Interleave(h, r, turns).store.Some? && Restart(h, Interleave(h, r, turns).store.value, now).Ok?
    ensures var started := Restart(h, Interleave(h, r, turns).store.value, now).value;
            Inv(started) && started.snapshot.Some? && Knows(started, e)
  {
    InterleaveKnows(h, r, turns, e);
    InterleaveKeeps(h, r, turns);
    RestartSound(h, Interleave(h, r, turns).store.value, now);
    RestartStore(h, Interleave(h, r, turns).store.value, now);
  }

  lemma RestartStore(h: Host, rec: Record, now: I64)
    requires Restart(h, rec, now).Ok?
    ensures Restart(h, rec, now).value.store == Some(rec)
  {
  }
}
