/**
 One client, built out of the simplest possible cryptography, that reaches a state one might not
 expect: key material without the machine's flag, and after a ticket, keys without it.
 */
module ClientExample {
  import opened Wrappers
  import opened Saturating
  import opened Clock
  import opened StateMachine
  import opened MachineRuns
  import opened Artifacts
  import opened Chain
  import opened Trust
  import opened Ticket
  import opened Client
  import opened ClientTheorems
  import opened KeyDerivation

  // ----- the cast

  const SUITE := SuiteId(1)
  const EPOCH := EpochId([])
  const ROOT := VerifyingKey([])
  const PIN := Digest([])
  const NONCE := Nonce([])

  const CERT := EpochCert(PROTO_VER, SUITE, EPOCH, [], [], 1, I64_MAX, Some("p"), PIN)
  const CREDENTIAL :=
    MachineCredential(PROTO_VER, SUITE, "p", LicenseId([]), MachineId([]), [], {}, 0, 0, 2000, 0, 0, EPOCH, Some("b"),
                      0, 0)
  const TICKET :=
    ValidationTicket(PROTO_VER, SUITE, MachineId([]), NONCE, NONCE, 1000, 2000, 0, 0, VerdictOk, None, EPOCH, 0)

  const CERT_ENVELOPE := Envelope(PROTO_VER, SUITE, EpochCertKind, [], [], None)
  const CREDENTIAL_ENVELOPE := Envelope(PROTO_VER, SUITE, MachineCredKind, [], [], Some(EPOCH))
  const TICKET_ENVELOPE := Envelope(PROTO_VER, SUITE, TicketKind, [], [], Some(EPOCH))

  /** Every signature verifies and every body decodes to the one artifact of its kind. */
  function TrivialSuite(): Suite {
    Suite(SUITE, _ => PIN, encoded => Some(VerifyingKey(encoded)), encoded => Some(VerifyingKey(encoded)),
          (_, _, _) => true, (_, _, _) => true,
          encoded => if encoded == [] then Some(CERT_ENVELOPE) else Some(CREDENTIAL_ENVELOPE),
          _ => Some(CERT), _ => Some(CREDENTIAL), _ => None, _ => Some(TICKET), _ => None, _ => None, _ => None)
  }

  function TrivialHost(core: CoreConfig): Host {
    Host(TrivialSuite(), TrustAnchors(RootVerifier(PIN, ROOT), None), core, "p", [], "b", 0, [SUITE], false,
         _ => true, (_, _) => true, _ => true)
  }

  function Pulses(wall: I64, n: nat): seq<Turn> {
    seq(n, _ => Turn(SPulse(false), wall, false, false))
  }

  /** Ticks of an otherwise idle client are ticks of its machine. */
  lemma {:induction false} PulsesTick(h: Host, r: Runtime, wall: I64, n: nat)
    ensures Interleave(h, r, Pulses(wall, n)) == r.(machine := Run(r.machine, TicksAt(wall, n)).machine)
  {
    if n > 0 {
      PulsesTick(h, r, wall, n - 1);
      assert Pulses(wall, n)[..n - 1] == Pulses(wall, n - 1) && TicksAt(wall, n)[..n - 1] == TicksAt(wall, n - 1);
    }
  }

  lemma {:induction false} InterleaveSnoc(h: Host, r: Runtime, turns: seq<Turn>, t: Turn)
    ensures Interleave(h, r, turns + [t]) == Execute(h, Interleave(h, r, turns), t).runtime
  {
    assert (turns + [t])[..|turns|] == turns;
  }

  // ----- the plot

  const KEYSET := Turn(SInstallKeyset(Keyset(PROTO_VER, [[]], 0)), 0, false, false)
  const ACTIVATION := Turn(SInstallActivation([0], 0), 0, false, false)
  const COMMIT := Turn(SCommitTicket([0], TICKET_ENVELOPE, NONCE), 0, false, false)

  /** A first start at 1000, then a clock that reads 0 once more often than the threshold allows. */
  function LockedClient(core: CoreConfig): Runtime
    requires core.rollbackThreshold < U32_MAX
  {
    Interleave(TrivialHost(core), FirstStart(TrivialHost(core), [], 1000), Pulses(0, core.rollbackThreshold + 1))
  }

  lemma LockedFirst(core: CoreConfig)
    requires core.rollbackThreshold < U32_MAX
    ensures var r := LockedClient(core);
            r == FirstStart(TrivialHost(core), [], 1000).(machine := r.machine)
            && r.machine ==
               Initial(core, 1000).(clock := Marks(1000, 1000, core.rollbackThreshold + 1), state := Locked)
  {
    PulsesTick(TrivialHost(core), FirstStart(TrivialHost(core), [], 1000), 0, core.rollbackThreshold + 1);
    RepeatedRollbacks(Initial(core, 1000), 0, core.rollbackThreshold + 1);
  }

  const EPOCHS := [VerifiedEpoch(CERT, ROOT)]

  function TheChain(): ChainValue {
    ChainValue(PinnedRoots(PIN, None), EPOCHS, RevocationView(0, []))
  }

  lemma ChainBuilt(core: CoreConfig)
    ensures var h := TrivialHost(core);
            KeysetChain(h.anchors, h.suite, Keyset(PROTO_VER, [[]], 0), h.productId, 1000, 0, []) == Ok(TheChain())
  {
    var h := TrivialHost(core);
    var empty := EmptyChain(h.anchors, 0, []);
    var certs: seq<Bytes> := [[]];
    assert certs[..0] == [];
    assert CertTurns(h.anchors, h.suite, empty, [], h.productId, 1000) == Ok(empty);
    assert Replaced([], EPOCHS[0]) == EPOCHS;
    assert CertTurn(h.anchors, h.suite, empty, [], h.productId, 1000) == Ok(TheChain());
  }

  /** The keyset is accepted. */
  lemma KeysetInstalled(core: CoreConfig)
    requires core.rollbackThreshold < U32_MAX
    ensures var r := LockedClient(core);
            Execute(TrivialHost(core), r, KEYSET).runtime ==
            r.(snapshot := Some(NewSnapshot([]).(epochCertificates := [[]])), chain := Some(TheChain()))
  {
    LockedFirst(core);
    ChainBuilt(core);
  }

  lemma CredentialOpens(core: CoreConfig, s: Snapshot)
    ensures OpenMachineCredential(TrivialHost(core), [0], TheChain(), s, 1000, 0, 0) ==
            Ok((CREDENTIAL, Material(CREDENTIAL.licenseId, CREDENTIAL.machineId, EPOCH, None)))
  {
    assert Lookup(EPOCHS, EPOCH) == Some(EPOCHS[0]);
  }

  /** The activation installs its credential and its material, and the locked machine ignores it. */
  lemma ActivationInstalled(core: CoreConfig)
    requires core.rollbackThreshold < U32_MAX
    ensures var r := Execute(TrivialHost(core), Execute(TrivialHost(core), LockedClient(core), KEYSET).runtime,
                             ACTIVATION).runtime;
            && r.material.Some? && r.credential == Some(CREDENTIAL) && r.chain == Some(TheChain())
            && r.maxSecurityFloor == 0 && r.maxRevocationEpoch == 0 && r.snapshot.Some?
            && r.machine.clock.seen == 1000 && r.machine.state.Locked? && !r.machine.hasCredential
  {
    LockedFirst(core);
    KeysetInstalled(core);
    var r := Execute(TrivialHost(core), LockedClient(core), KEYSET).runtime;
    CredentialOpens(core, r.snapshot.value);
  }

  lemma TicketOpens(core: CoreConfig, r: Runtime)
    requires r.chain == Some(TheChain()) && r.credential == Some(CREDENTIAL) && r.machine.clock.seen == 1000
    requires r.maxSecurityFloor == 0 && r.maxRevocationEpoch == 0
    ensures OpenTicket(TrivialHost(core), r, CREDENTIAL, TICKET_ENVELOPE, NONCE, 0) == Ok(TICKET)
  {
    assert Lookup(EPOCHS, EPOCH) == Some(EPOCHS[0]);
    assert TicketFault(TICKET, ChecksFor(TrivialHost(core), r, CREDENTIAL, TICKET_ENVELOPE, NONCE)).None?;
  }

  /** A good ticket unlocks a machine that never had its flag. */
  lemma TicketCommitted(core: CoreConfig, r: Runtime)
    requires r.chain == Some(TheChain()) && r.credential == Some(CREDENTIAL) && r.machine.clock.seen == 1000
    requires r.maxSecurityFloor == 0 && r.maxRevocationEpoch == 0 && r.snapshot.Some? && r.material.Some?
    requires r.machine.state.Locked? && !r.machine.hasCredential
    ensures var next := Execute(TrivialHost(core), r, COMMIT).runtime;
            Derives(next) && !next.machine.hasCredential
  {
    TicketOpens(core, r);
  }

  /**
   Whatever the threshold: an activation after too many rollbacks gives the client key material and
   its machine no flag; and a ticket then lets it derive keys, though the machine's own permission
   never comes.
   */
  lemma KeysWithoutFlag(core: CoreConfig)
    requires core.rollbackThreshold < U32_MAX
    ensures var h := TrivialHost(core);
            var start := FirstStart(h, [], 1000);
            var turns := Pulses(0, core.rollbackThreshold + 1) + [KEYSET] + [ACTIVATION];
            var installed := Interleave(h, start, turns);
            var unlocked := Interleave(h, start, turns + [COMMIT]);
            && installed.material.Some? && installed.machine.state.Locked? && !installed.machine.hasCredential
            && Derives(unlocked) && !unlocked.machine.PermitsKeyDerivation()
  {
    var h := TrivialHost(core);
    var start := FirstStart(h, [], 1000);
    var pulses := Pulses(0, core.rollbackThreshold + 1);
    InterleaveSnoc(h, start, pulses, KEYSET);
    InterleaveSnoc(h, start, pulses + [KEYSET], ACTIVATION);
    InterleaveSnoc(h, start, pulses + [KEYSET] + [ACTIVATION], COMMIT);
    ActivationInstalled(core);
    TicketCommitted(core, Interleave(h, start, pulses + [KEYSET] + [ACTIVATION]));
  }
}
