/** Building a trust chain from a fetched keyset and the pinned roots. */
module Trust {
  import opened Wrappers
  import opened Saturating
  import opened StateMachine
  import opened Artifacts
  import opened Chain

  datatype RootVerifier = RootVerifier(digest: Digest, key: VerifyingKey)

  datatype TrustAnchors = TrustAnchors(current: RootVerifier, next: Option<RootVerifier>) {
    function Pins(): PinnedRoots {
      PinnedRoots(current.digest, if next.Some? then Some(next.value.digest) else None)
    }

    /** `root` is the pinned key of digest `d`, the current one first. */
    predicate Pinned(d: Digest, root: VerifyingKey) {
      || (current.digest == d && root == current.key)
      || (current.digest != d && next.Some? && next.value.digest == d && root == next.value.key)
    }

    /** The pinned key whose digest a certificate names. */
    function RootFor(d: Digest): (r: Option<VerifyingKey>)
      ensures forall root :: r == Some(root) <==> Pinned(d, root)
    {
      if current.digest == d then Some(current.key)
      else if next.Some? && next.value.digest == d then Some(next.value.key)
      else None
    }
  }

  // ----- the loop as a function

  /** The envelope and the certificate body of one encoded entry. */
  function Decoded(s: Suite, encoded: Bytes): (r: Option<(Envelope, EpochCert)>)
    ensures forall env, cert :: r == Some((env, cert)) <==>
                                  && s.decodeEnvelope(encoded) == Some(env) && env.kind == EpochCertKind
                                  && s.decodeCert(env.tbs) == Some(cert)
  {
    if s.decodeEnvelope(encoded).None? then None
    else
      var env := s.decodeEnvelope(encoded).value;
      var cert := PeekCert(s, env);
      if cert.Err? then None else Some((env, cert.value))
  }

  predicate WellFormed(s: Suite, env: Envelope, cert: EpochCert) {
    && env.protoVer == PROTO_VER && env.suiteId == s.id && env.epochRef.None?
    && cert.protoVer == PROTO_VER && cert.suiteId == s.id && cert.notAfter > cert.notBefore
  }

  /** What one entry does to the chain built so far. */
  function CertTurn(a: TrustAnchors, s: Suite, c: ChainValue, encoded: Bytes, product: string, now: I64)
    : Result<ChainValue, FatalError>
  {
    var decoded := Decoded(s, encoded);
    if decoded.None? then Err(CredentialCorrupt)
    else
      var (env, cert) := decoded.value;
      if cert.productScope != Some(product) then Ok(c)
      else if !WellFormed(s, env, cert) then Err(CredentialCorrupt)
      else if !InWindow(cert.notBefore, cert.notAfter, now) then Ok(c)
      else
        var root := a.RootFor(cert.issuerVkDigest);
        if root.None? then Err(ChainInvalid)
        else
          var next := WithEpoch(c, s, env, product, root.value, now);
          if next.Err? then Err(ToFatal(next.error)) else Ok(next.value)
  }

  function CertTurns(a: TrustAnchors, s: Suite, c: ChainValue, certs: seq<Bytes>, product: string, now: I64)
    : Result<ChainValue, FatalError>
  {
    if |certs| == 0 then Ok(c)
    else
      var before := CertTurns(a, s, c, certs[..|certs| - 1], product, now);
      if before.Err? then before else CertTurn(a, s, before.value, certs[|certs| - 1], product, now)
  }

  function EmptyChain(a: TrustAnchors, known: U64, revoked: seq<EpochId>): ChainValue {
    ChainValue(a.Pins(), [], RevocationView(known, MergeRevoked([], revoked)))
  }

  function KeysetChain(a: TrustAnchors, s: Suite, k: Keyset, product: string, now: I64, known: U64,
                       revoked: seq<EpochId>)
    : Result<ChainValue, FatalError>
  {
    if k.protoVer != PROTO_VER then Err(CredentialCorrupt)
    else if k.revocationEpoch < known then Err(RevocationRollback)
    else CertTurns(a, s, EmptyChain(a, known, revoked), k.epochCertificates, product, now)
  }

  lemma {:induction false} CertTurnsStop(a: TrustAnchors, s: Suite, c: ChainValue, certs: seq<Bytes>, i: nat,
                                         product: string, now: I64)
    requires i <= |certs| && CertTurns(a, s, c, certs[..i], product, now).Err?
    ensures CertTurns(a, s, c, certs, product, now) == CertTurns(a, s, c, certs[..i], product, now)
  {
    if i < |certs| {
      assert certs[..|certs| - 1][..i] == certs[..i];
      CertTurnsStop(a, s, c, certs[..|certs| - 1], i, product, now);
    } else {
      assert certs[..i] == certs;
    }
  }

  method VerifyKeyset(a: TrustAnchors, s: Suite, k: Keyset, product: string, now: I64, known: U64,
                      revoked: seq<EpochId>)
    returns (r: Result<VerifiedChain, FatalError>)
    ensures var spec := KeysetChain(a, s, k, product, now, known, revoked);
            && (r.Ok? <==> spec.Ok?)
            && (r.Ok? ==> fresh(r.value) && r.value.Value() == spec.value)
            && (r.Err? ==> r.error == spec.error)
  {
    if k.protoVer != PROTO_VER {
      return Err(CredentialCorrupt);
    }
    if k.revocationEpoch < known {
      return Err(RevocationRollback);
    }
    var chain := new VerifiedChain(a.Pins());
    var advanced := chain.Advance(known, revoked);
    if advanced.Err? {
      // A new chain starts at revocation epoch zero, so no known epoch is behind it.
      assert false;
    }
    ghost var start := chain.Value();
    assert start == EmptyChain(a, known, revoked);
    var certs := k.epochCertificates;
    for i := 0 to |certs|
      invariant CertTurns(a, s, start, certs[..i], product, now) == Ok(chain.Value())
    {
      assert certs[..i + 1][..i] == certs[..i];
      ghost var turn := CertTurns(a, s, start, certs[..i + 1], product, now);
      if turn.Err? {
        CertTurnsStop(a, s, start, certs, i + 1, product, now);
      }
      var decoded := Decoded(s, certs[i]);
      if decoded.None? {
        return Err(CredentialCorrupt);
      }
      var (envelope, certificate) := decoded.value;
      if certificate.productScope != Some(product) {
        continue;
      }
      if !WellFormed(s, envelope, certificate) {
        return Err(CredentialCorrupt);
      }
      if !InWindow(certificate.notBefore, certificate.notAfter, now) {
        continue;
      }
      var root := a.RootFor(certificate.issuerVkDigest);
      if root.None? {
        return Err(ChainInvalid);
      }
      var added := chain.AddEpoch(s, envelope, product, root.value, now);
      if added.Err? {
        return Err(ToFatal(added.error));
      }
    }
    assert certs[..|certs|] == certs;
    return Ok(chain);
  }

  // ----- soundness and completeness

  /** `root` is the key it claims to be and signed the certificate. */
  predicate Signed(s: Suite, root: VerifyingKey, env: Envelope, cert: EpochCert, product: string) {
    s.hash(root.encoded) == cert.issuerVkDigest && s.verifies(root, product, env)
  }

  /** One of the two pinned roots is the one the certificate names, and signed it; its own key decodes. */
  predicate Trusted(a: TrustAnchors, s: Suite, env: Envelope, cert: EpochCert, product: string) {
    && (|| (a.current.digest == cert.issuerVkDigest && Signed(s, a.current.key, env, cert, product))
        || (&& a.current.digest != cert.issuerVkDigest && a.next.Some? && a.next.value.digest == cert.issuerVkDigest
            && Signed(s, a.next.value.key, env, cert, product)))
    && s.decodeVk(cert.vk).Some?
  }

  /** Of this version and suite, self-standing, and with a window that is one. */
  predicate InOrder(s: Suite, env: Envelope, cert: EpochCert) {
    && env.protoVer == 1 && env.suiteId == s.id && env.epochRef == None
    && cert.protoVer == 1 && cert.suiteId == s.id && cert.notBefore < cert.notAfter
  }

  predicate Current(cert: EpochCert, now: I64) {
    cert.notBefore <= now && (cert.notAfter == 0 || now < cert.notAfter)
  }

  /** An entry that is passed over: for another product, or in order and outside its window. */
  predicate Skipped(s: Suite, encoded: Bytes, product: string, now: I64) {
    var d := Decoded(s, encoded);
    && d.Some?
    && var (env, cert) := d.value;
       cert.productScope != Some(product) || (InOrder(s, env, cert) && !Current(cert, now))
  }

  /** An entry that belongs in the chain. */
  predicate Admitted(a: TrustAnchors, s: Suite, encoded: Bytes, product: string, now: I64, revoked: seq<EpochId>) {
    var d := Decoded(s, encoded);
    && d.Some?
    && var (env, cert) := d.value;
       && cert.productScope == Some(product) && InOrder(s, env, cert) && Current(cert, now)
       && Trusted(a, s, env, cert, product) && cert.epochId !in revoked
  }

  /** The chain entry of an admitted certificate. */
  function Entry(s: Suite, encoded: Bytes): VerifiedEpoch
    requires Decoded(s, encoded).Some? && s.decodeVk(Decoded(s, encoded).value.1.vk).Some?
  {
    var cert := Decoded(s, encoded).value.1;
    VerifiedEpoch(cert, s.decodeVk(cert.vk).value)
  }

  lemma CertTurnExact(a: TrustAnchors, s: Suite, c: ChainValue, encoded: Bytes, product: string, now: I64)
    requires c.roots == a.Pins()
    ensures var admitted := Admitted(a, s, encoded, product, now, c.revocation.revoked);
            && (CertTurn(a, s, c, encoded, product, now).Ok? <==> Skipped(s, encoded, product, now) || admitted)
            && (admitted ==>
                  CertTurn(a, s, c, encoded, product, now) == Ok(c.(epochs := Replaced(c.epochs, Entry(s, encoded)))))
            && (Skipped(s, encoded, product, now) ==> CertTurn(a, s, c, encoded, product, now) == Ok(c))
  {
  }

  /** The last admitted entry for an epoch. */
  function LastAdmitted(a: TrustAnchors, s: Suite, certs: seq<Bytes>, product: string, now: I64,
                        revoked: seq<EpochId>, id: EpochId)
    : Option<VerifiedEpoch>
  {
    if |certs| == 0 then None
    else
      var last := certs[|certs| - 1];
      if Admitted(a, s, last, product, now, revoked) && Entry(s, last).cert.epochId == id then Some(Entry(s, last))
      else LastAdmitted(a, s, certs[..|certs| - 1], product, now, revoked, id)
  }

  ghost predicate AllGood(a: TrustAnchors, s: Suite, certs: seq<Bytes>, product: string, now: I64,
                          revoked: seq<EpochId>)
  {
    forall i :: 0 <= i < |certs| ==>
      Skipped(s, certs[i], product, now) || Admitted(a, s, certs[i], product, now, revoked)
  }

  /** The loop succeeds exactly when no entry is faulty, and then holds the last admitted entry of every epoch. */
  lemma {:induction false} CertTurnsExact(a: TrustAnchors, s: Suite, c: ChainValue, certs: seq<Bytes>,
                                          product: string, now: I64)
    requires c.roots == a.Pins() && c.epochs == []
    ensures var r := CertTurns(a, s, c, certs, product, now);
            && (r.Ok? <==> AllGood(a, s, certs, product, now, c.revocation.revoked))
            && (r.Ok? ==>
                  && r.value.roots == c.roots && r.value.revocation == c.revocation && DistinctIds(r.value.epochs)
                  && forall id :: Lookup(r.value.epochs, id)
                                  == LastAdmitted(a, s, certs, product, now, c.revocation.revoked, id))
  {
    if |certs| > 0 {
      var init, last := certs[..|certs| - 1], certs[|certs| - 1];
      CertTurnsExact(a, s, c, init, product, now);
      assert certs == init + [last];
      var before := CertTurns(a, s, c, init, product, now);
      if before.Ok? {
        CertTurnExact(a, s, before.value, last, product, now);
        if Admitted(a, s, last, product, now, c.revocation.revoked) {
          var e := Entry(s, last);
          ReplacedIsUpdate(before.value.epochs, e, e.cert.epochId);
          forall id
            ensures Lookup(Replaced(before.value.epochs, e), id)
                    == LastAdmitted(a, s, certs, product, now, c.revocation.revoked, id)
          {
            ReplacedIsUpdate(before.value.epochs, e, id);
          }
        }
      }
    }
  }

  /** Entry `i` is admitted for epoch `id`. */
  predicate AdmitsAt(a: TrustAnchors, s: Suite, certs: seq<Bytes>, i: nat, product: string, now: I64,
                     revoked: seq<EpochId>, id: EpochId)
    requires i < |certs|
  {
    Admitted(a, s, certs[i], product, now, revoked) && Entry(s, certs[i]).cert.epochId == id
  }

  /** What `LastAdmitted` means, without recursion: the entry after which none admits the same epoch. */
  lemma {:induction false} LastAdmittedExact(a: TrustAnchors, s: Suite, certs: seq<Bytes>, product: string, now: I64,
                                             revoked: seq<EpochId>, id: EpochId) returns (at: nat)
    ensures var r := LastAdmitted(a, s, certs, product, now, revoked, id);
            && (r.None? ==> forall i :: 0 <= i < |certs| ==> !AdmitsAt(a, s, certs, i, product, now, revoked, id))
            && (r.Some? ==>
                  && at < |certs| && AdmitsAt(a, s, certs, at, product, now, revoked, id)
                  && Entry(s, certs[at]) == r.value
                  && forall j :: at < j < |certs| ==> !AdmitsAt(a, s, certs, j, product, now, revoked, id))
  {
    at := 0;
    if |certs| > 0 {
      var n := |certs| - 1;
      var init := certs[..n];
      if AdmitsAt(a, s, certs, n, product, now, revoked, id) {
        at := n;
      } else {
        at := LastAdmittedExact(a, s, init, product, now, revoked, id);
        assert forall i :: 0 <= i < n ==>
          AdmitsAt(a, s, certs, i, product, now, revoked, id) == AdmitsAt(a, s, init, i, product, now, revoked, id);
      }
    }
  }

  /**
   A keyset is accepted exactly when its version is spoken, its cursor is no older than what is
   known, and every certificate is either passed over or admitted.
   */
  lemma {:induction false} KeysetAccepted(a: TrustAnchors, s: Suite, k: Keyset, product: string, now: I64, known: U64,
                       revoked: seq<EpochId>)
    ensures KeysetChain(a, s, k, product, now, known, revoked).Ok? <==>
              && k.protoVer == PROTO_VER && k.revocationEpoch >= known
              && AllGood(a, s, k.epochCertificates, product, now, MergeRevoked([], revoked))
  {
    CertTurnsExact(a, s, EmptyChain(a, known, revoked), k.epochCertificates, product, now);
  }

  /** An accepted keyset yields exactly the admitted certificates, the last of each epoch, none of them revoked. */
  lemma {:induction false} KeysetContents(a: TrustAnchors, s: Suite, k: Keyset, product: string, now: I64, known: U64,
                       revoked: seq<EpochId>)
    requires KeysetChain(a, s, k, product, now, known, revoked).Ok?
    ensures var c := KeysetChain(a, s, k, product, now, known, revoked).value;
            && c.roots == a.Pins() && c.revocation == RevocationView(known, MergeRevoked([], revoked))
            && DistinctIds(c.epochs)
            && (forall id :: Lookup(c.epochs, id)
                             == LastAdmitted(a, s, k.epochCertificates, product, now, c.revocation.revoked, id))
            && (forall e :: e in c.epochs ==> e.cert.epochId !in c.revocation.revoked)
  {
    CertTurnsExact(a, s, EmptyChain(a, known, revoked), k.epochCertificates, product, now);
    var c := KeysetChain(a, s, k, product, now, known, revoked).value;
    forall e | e in c.epochs
      ensures e.cert.epochId !in c.revocation.revoked
    {
      LookupMember(c.epochs, e);
      var at := LastAdmittedExact(a, s, k.epochCertificates, product, now, c.revocation.revoked, e.cert.epochId);
    }
  }
}
