/** Consequences of the client invariant over whole executions. */
module ClientTheorems {
  import opened Wrappers
  import opened Saturating
  import opened Clock
  import opened StateMachine
  import opened MachineRuns
  import opened Artifacts
  import opened Chain
  import opened Trust
  import opened Ticket
  import opened Client
  import opened ClientInvariant

  // ----- starting up

  /** The device's first start, with nothing stored. */
  function FirstStart(h: Host, generated: Bytes, now: I64): Runtime {
    Runtime(Initial(h.core, now), Some(NewSnapshot(generated)), None, None, None, {}, None, 0, 0, None)
  }

  lemma FirstStartSound(h: Host, generated: Bytes, now: I64)
    ensures Inv(FirstStart(h, generated, now))
  {
  }

  datatype LoadError = LoadFatal(fatal: FatalError) | SnapshotCorrupt | UnboundLicense

  /** The machine with the stored clock put back. */
  function Restored(h: Host, rec: Record): Option<Machine> {
    var clock := FromPersisted(rec.clock.seen, rec.clock.server, rec.clock.rollbacks);
    if clock.None? then None else Some(Initial(h.core, rec.clock.seen).(clock := clock.value))
  }

  /** Loading a credential: announce it, then let the clock guard see the present. */
  function Loaded(m: Machine, now: I64): Machine {
    Next(Next(m, CredentialLoaded, now).machine, Tick, now).machine
  }

  function LoadOlk(h: Host, m: Machine, rec: Record, env: Envelope, now: I64): Result<Runtime, LoadError> {
    if rec.snapshot.validationTicket.Some? then Err(LoadFatal(CredentialCorrupt))
    else
      var preview := PeekOlk(h.suite, env);
      if preview.Err? then Err(LoadFatal(ToFatal(preview.error)))
      else
        var chain := KeysetChain(h.anchors, h.suite,
                                 Keyset(PROTO_VER, rec.snapshot.epochCertificates, rec.revocationEpoch), h.productId,
                                 preview.value.issuedAt, rec.revocationEpoch, rec.snapshot.revokedEpochs);
        if chain.Err? then Err(LoadFatal(chain.error))
        else
          var license := OpenOfflineLicense(h, env, chain.value, EffectiveNow(m.clock, now), rec.securityFloor,
                                            rec.revocationEpoch);
          if license.Err? then
            Err(if license.error.UnboundDisabled? then UnboundLicense else LoadFatal(license.error.fatal))
          else
            var (l, material) := license.value;
            Ok(Runtime(Loaded(m.(deadlines := OlkDeadlines(l)), now), Some(rec.snapshot), None, Some(l), Some(material),
                       l.entitlements, Some(chain.value), Max(rec.securityFloor, l.securityFloor),
                       Max(rec.revocationEpoch, l.revocationEpoch), Some(rec)))
  }

  /** A stored ticket, checked again at start-up against its own nonce. */
  function ReloadTicket(h: Host, m: Machine, chain: ChainValue, c: MachineCredential, encoded: Bytes, now: I64,
                        floor: U64, revocation: U64): Result<ValidationTicket, FatalError>
  {
    var env := h.suite.decodeEnvelope(encoded);
    if env.None? then Err(CredentialCorrupt)
    else
      var verified := VerifyArtifactFast(chain, h.suite, env.value, TicketKind, h.suite.decodeTicket, h.productId,
                                         EffectiveNow(m.clock, now));
      if verified.Err? then Err(ToFatal(verified.error))
      else
        var t := verified.value;
        var fault := TicketFault(t, TicketChecks(h.supportedSuites, env.value.epochRef.value, t.nonceEcho, c.machineId,
                                                 revocation, floor));
        if fault.Some? then Err(fault.value) else Ok(t)
  }

  function LoadCredential(h: Host, m: Machine, rec: Record, encoded: Bytes, now: I64): Result<Runtime, LoadError> {
    var effective := EffectiveNow(m.clock, now);
    var chain := KeysetChain(h.anchors, h.suite, Keyset(PROTO_VER, rec.snapshot.epochCertificates, rec.revocationEpoch),
                             h.productId, effective, rec.revocationEpoch, rec.snapshot.revokedEpochs);
    if chain.Err? then Err(LoadFatal(chain.error))
    else
      var credential := OpenMachineCredential(h, encoded, chain.value, rec.snapshot, effective, rec.securityFloor,
                                              rec.revocationEpoch);
      if credential.Err? then Err(LoadFatal(credential.error))
      else
        var (c, material) := credential.value;
        var floor := Max(rec.securityFloor, c.securityFloor);
        var revocation := Max(rec.revocationEpoch, c.revocationEpoch);
        if rec.snapshot.validationTicket.None? then
          Ok(Runtime(Loaded(m.(deadlines := CredentialDeadlines(c)), now), Some(rec.snapshot), Some(c), None,
                     Some(material), c.entitlements, Some(chain.value), floor, revocation, Some(rec)))
        else
          var ticket := ReloadTicket(h, m, chain.value, c, rec.snapshot.validationTicket.value, now, floor, revocation);
          if ticket.Err? then Err(LoadFatal(ticket.error))
          else
            var t := ticket.value;
            var loaded := Loaded(m.(clock := Observed(m.clock, t.serverTime), deadlines := TicketDeadlines(c, t)), now);
            Ok(Runtime(
                 if t.verdict.VerdictOk? then loaded else Next(loaded, TicketDenied(t.verdict), now).machine,
                 Some(rec.snapshot), Some(c), None,
                 Some(if t.verdict.VerdictOk? then material.(session := Some((t.serverNonce, t.epochId)))
                      else material),
                 if t.entitlements.Some? then t.entitlements.value else c.entitlements,
                 Some(chain.value), Max(floor, t.securityFloor), Max(revocation, t.revocationEpoch), Some(rec)))
  }

  /** `construct` with a stored record. */
  function Restart(h: Host, rec: Record, now: I64): Result<Runtime, LoadError> {
    var machine := Restored(h, rec);
    if !h.keysDecode(rec.snapshot.deviceKeys) then Err(LoadFatal(CredentialCorrupt))
    else if machine.None? then Err(SnapshotCorrupt)
    else if rec.snapshot.credentialEnvelope.None? then
      Ok(Runtime(machine.value, Some(rec.snapshot), None, None, None, {}, None, rec.securityFloor,
                 rec.revocationEpoch, Some(rec)))
    else
      var encoded := rec.snapshot.credentialEnvelope.value;
      var env := h.suite.decodeEnvelope(encoded);
      if env.None? then Err(LoadFatal(CredentialCorrupt))
      else if env.value.kind == OfflineLicenseKind then LoadOlk(h, machine.value, rec, env.value, now)
      else if env.value.kind == MachineCredKind then LoadCredential(h, machine.value, rec, encoded, now)
      else Err(LoadFatal(CredentialCorrupt))
  }

  lemma LoadedSound(m: Machine, now: I64)
    requires MachineSound(m) && m.state.Unlicensed?
    ensures MachineSound(Loaded(m, now)) && Loaded(m, now).clock.seen >= m.clock.seen
    ensures Loaded(m, now).clock.rollbacks >= m.clock.rollbacks
  {
    MachineStep(m, CredentialLoaded, now);
    MachineStep(Next(m, CredentialLoaded, now).machine, Tick, now);
  }

  lemma LoadOlkSound(h: Host, m: Machine, rec: Record, env: Envelope, now: I64)
    requires MachineSound(m) && m.state.Unlicensed? && m.clock == rec.clock
    requires NoDuplicates(rec.snapshot.revokedEpochs) && rec.snapshot.credentialEnvelope.Some?
    requires LoadOlk(h, m, rec, env, now).Ok?
    ensures Inv(LoadOlk(h, m, rec, env, now).value)
  {
    var l := LoadOlk(h, m, rec, env, now).value.olk.value;
    RebuiltChain(h, Keyset(PROTO_VER, rec.snapshot.epochCertificates, rec.revocationEpoch),
                 PeekOlk(h.suite, env).value.issuedAt,
                 rec.revocationEpoch, rec.snapshot.revokedEpochs);
    OlkOrdered(l);
    LoadedSound(m.(deadlines := OlkDeadlines(l)), now);
  }

  lemma LoadCredentialSound(h: Host, m: Machine, rec: Record, encoded: Bytes, now: I64)
    requires MachineSound(m) && m.state.Unlicensed? && m.clock == rec.clock
    requires NoDuplicates(rec.snapshot.revokedEpochs) && rec.snapshot.credentialEnvelope.Some?
    requires LoadCredential(h, m, rec, encoded, now).Ok?
    ensures Inv(LoadCredential(h, m, rec, encoded, now).value)
  {
    var r := LoadCredential(h, m, rec, encoded, now).value;
    var c := r.credential.value;
    RebuiltChain(h, Keyset(PROTO_VER, rec.snapshot.epochCertificates, rec.revocationEpoch), EffectiveNow(m.clock, now),
                 rec.revocationEpoch, rec.snapshot.revokedEpochs);
    if rec.snapshot.validationTicket.None? {
      CredentialOrdered(c);
      LoadedSound(m.(deadlines := CredentialDeadlines(c)), now);
    } else {
      var t := ReloadTicket(h, m, r.chain.value, c, rec.snapshot.validationTicket.value, now,
                            Max(rec.securityFloor, c.securityFloor), Max(rec.revocationEpoch, c.revocationEpoch)).value;
      TicketOrdered(c, t);
      var ready := m.(clock := Observed(m.clock, t.serverTime), deadlines := TicketDeadlines(c, t));
      LoadedSound(ready, now);
      MachineStep(Loaded(ready, now), TicketDenied(t.verdict), now);
    }
  }

  /** Whatever is stored, a start that succeeds starts coherent, at watermarks no lower than the stored ones. */
  lemma RestartSound(h: Host, rec: Record, now: I64)
    requires NoDuplicates(rec.snapshot.revokedEpochs) && Restart(h, rec, now).Ok?
    ensures var r := Restart(h, rec, now).value;
            && Inv(r) && r.maxSecurityFloor >= rec.securityFloor && r.maxRevocationEpoch >= rec.revocationEpoch
            && r.machine.clock.seen >= rec.clock.seen && r.machine.clock.rollbacks >= rec.clock.rollbacks
            && r.snapshot == Some(rec.snapshot)
  {
    var m := Restored(h, rec).value;
    assert MachineSound(m);
    if rec.snapshot.credentialEnvelope.Some? {
      var encoded := rec.snapshot.credentialEnvelope.value;
      var env := h.suite.decodeEnvelope(encoded).value;
      if env.kind == OfflineLicenseKind {
        LoadOlkSound(h, m, rec, env, now);
      } else {
        LoadCredentialSound(h, m, rec, encoded, now);
      }
    }
  }

  /** A record left behind by any execution never fails to restore its clock. */
  lemma {:induction false} StoredClockRestores(h: Host, r: Runtime, turns: seq<Turn>)
    requires Inv(r) && Interleave(h, r, turns).store.Some?
    ensures Restored(h, Interleave(h, r, turns).store.value).Some?
  {
    InterleaveKeeps(h, r, turns);
  }

  // ----- the machine's flag and the client's material

  /** An installed activation sets the machine's flag exactly when no licensed state stood in its way. */
  lemma InstalledFlag(h: Host, r: Runtime, encoded: Bytes, target: U64, now: I64, wiped: bool)
    requires Inv(r) && InstallActivation(h, r, encoded, target, now, true, wiped).result.Ok?
    ensures var next := InstallActivation(h, r, encoded, target, now, true, wiped).runtime;
            && next.material.Some?
            && (next.machine.hasCredential <==> r.machine.hasCredential || !HoldsLicence(r.machine.state))
  {
    var out := OpenMachineCredential(h, encoded, r.chain.value, r.snapshot.value, EffectiveNow(r.machine.clock, now),
                                     r.maxSecurityFloor, r.maxRevocationEpoch);
    ActivationTakesEffect(r.machine.(deadlines := CredentialDeadlines(out.value.0)), now);
  }
}
