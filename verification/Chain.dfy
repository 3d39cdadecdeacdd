/** The verified trust chain and the revocation view it carries. */
module Chain {
  import opened Wrappers
  import opened Saturating
  import opened Artifacts

  datatype PinnedRoots = PinnedRoots(current: Digest, next: Option<Digest>) {
    predicate Accepts(d: Digest) {
      current == d || next == Some(d)
    }
  }

  datatype VerifiedEpoch = VerifiedEpoch(cert: EpochCert, vk: VerifyingKey)

  datatype RevocationView = RevocationView(epoch: U64, revoked: seq<EpochId>)

  datatype ChainValue = ChainValue(roots: PinnedRoots, epochs: seq<VerifiedEpoch>, revocation: RevocationView)

  // ----- the revoked list

  ghost predicate NoDuplicates<T>(s: seq<T>) {
    forall i, j :: 0 <= i < j < |s| ==> s[i] != s[j]
  }

  /** `known` with the members of `more` it lacks appended in order. */
  function MergeRevoked(known: seq<EpochId>, more: seq<EpochId>): seq<EpochId> {
    if |more| == 0 then known
    else
      var merged := MergeRevoked(known, more[..|more| - 1]);
      var e := more[|more| - 1];
      if e in merged then merged else merged + [e]
  }

  /** The merged list extends the known one, holds exactly the union, and stays free of duplicates. */
  lemma {:induction false} MergeRevokedExact(known: seq<EpochId>, more: seq<EpochId>)
    ensures var merged := MergeRevoked(known, more);
            && known <= merged
            && (forall e :: e in merged <==> e in known || e in more)
            && (NoDuplicates(known) ==> NoDuplicates(merged))
  {
    if |more| > 0 {
      var init, last := more[..|more| - 1], more[|more| - 1];
      MergeRevokedExact(known, init);
      assert more == init + [last];
    }
  }

  /** Merging into nothing copies a list that has no duplicates. */
  lemma {:induction false} MergeIntoEmpty(more: seq<EpochId>)
    requires NoDuplicates(more)
    ensures MergeRevoked([], more) == more
  {
    if |more| > 0 {
      var init := more[..|more| - 1];
      MergeIntoEmpty(init);
      assert more == init + [more[|more| - 1]];
    }
  }

  function Advanced(v: RevocationView, to: U64, more: seq<EpochId>): Result<RevocationView, ProtoError> {
    if to < v.epoch then Err(MonotonicityViolation) else Ok(RevocationView(to, MergeRevoked(v.revoked, more)))
  }

  /** The view moves to any epoch not behind it, keeps what it knew and learns exactly what it is told. */
  lemma AdvancedExactly(v: RevocationView, to: U64, more: seq<EpochId>)
    ensures Advanced(v, to, more).Ok? <==> v.epoch <= to
    ensures v.epoch <= to ==>
              var next := Advanced(v, to, more).value;
              && next.epoch == to && v.revoked <= next.revoked
              && forall e :: e in next.revoked <==> e in v.revoked || e in more
  {
    MergeRevokedExact(v.revoked, more);
  }

  // ----- the epoch list refines a map

  ghost predicate DistinctIds(es: seq<VerifiedEpoch>) {
    forall i, j :: 0 <= i < j < |es| ==> es[i].cert.epochId != es[j].cert.epochId
  }

  /** The first entry for an epoch. */
  function Lookup(es: seq<VerifiedEpoch>, id: EpochId): (r: Option<VerifiedEpoch>)
    ensures r.Some? ==> r.value in es && r.value.cert.epochId == id
    ensures r.None? ==> forall e :: e in es ==> e.cert.epochId != id
  {
    if |es| == 0 then None else if es[0].cert.epochId == id then Some(es[0]) else Lookup(es[1..], id)
  }

  function Without(es: seq<VerifiedEpoch>, id: EpochId): (r: seq<VerifiedEpoch>)
    ensures forall e :: e in r <==> e in es && e.cert.epochId != id
  {
    if |es| == 0 then []
    else
      var init, last := es[..|es| - 1], es[|es| - 1];
      assert es == init + [last];
      if last.cert.epochId == id then Without(init, id) else Without(init, id) + [last]
  }

  function Replaced(es: seq<VerifiedEpoch>, e: VerifiedEpoch): seq<VerifiedEpoch> {
    Without(es, e.cert.epochId) + [e]
  }

  lemma {:induction false} WithoutDistinct(es: seq<VerifiedEpoch>, id: EpochId)
    requires DistinctIds(es)
    ensures DistinctIds(Without(es, id))
  {
    if |es| > 0 {
      var init, last := es[..|es| - 1], es[|es| - 1];
      WithoutDistinct(init, id);
      var rest := Without(init, id);
      forall i | 0 <= i < |rest|
        ensures rest[i].cert.epochId != last.cert.epochId
      {
        assert rest[i] in rest;
        assert rest[i] in init;
      }
    }
  }

  /** With distinct identifiers, looking up finds the member. */
  lemma {:induction false} LookupMember(es: seq<VerifiedEpoch>, e: VerifiedEpoch)
    requires DistinctIds(es) && e in es
    ensures Lookup(es, e.cert.epochId) == Some(e)
  {
    var found := Lookup(es, e.cert.epochId);
    assert found.Some?;
    var i :| 0 <= i < |es| && es[i] == e;
    var j :| 0 <= j < |es| && es[j] == found.value;
    assert i != j ==> es[i].cert.epochId != es[j].cert.epochId;
  }

  /** Replacing an epoch is a map update. */
  lemma {:induction false} ReplacedIsUpdate(es: seq<VerifiedEpoch>, e: VerifiedEpoch, id: EpochId)
    requires DistinctIds(es)
    ensures DistinctIds(Replaced(es, e))
    ensures Lookup(Replaced(es, e), id) == if id == e.cert.epochId then Some(e) else Lookup(es, id)
  {
    var rest := Without(es, e.cert.epochId);
    var next := Replaced(es, e);
    WithoutDistinct(es, e.cert.epochId);
    forall i | 0 <= i < |rest|
      ensures rest[i].cert.epochId != e.cert.epochId
    {
      assert rest[i] in rest;
    }
    assert DistinctIds(next);
    if id == e.cert.epochId {
      assert next[|rest|] == e;
      LookupMember(next, e);
    } else if Lookup(es, id).Some? {
      var f := Lookup(es, id).value;
      assert f in rest && f in next;
      LookupMember(next, f);
    }
  }

  // ----- admitting an epoch certificate

  /** The body of a certificate envelope, signature unchecked. */
  function PeekCert(s: Suite, env: Envelope): Result<EpochCert, ProtoError> {
    if env.kind != EpochCertKind then Err(ArtifactKindMismatch)
    else if s.decodeCert(env.tbs).None? then Err(Codec)
    else Ok(s.decodeCert(env.tbs).value)
  }

  /** The checks of `add_epoch`, in the order they are made. */
  function EpochFault(c: ChainValue, s: Suite, env: Envelope, cert: EpochCert, product: string, root: VerifyingKey,
                      now: I64)
    : Option<ProtoError>
  {
    if !c.roots.Accepts(cert.issuerVkDigest) then Some(RootPinMismatch)
    else if s.hash(root.encoded) != cert.issuerVkDigest then Some(RootPinMismatch)
    else if !s.verifies(root, product, env) then Some(Crypto)
    else if !InWindow(cert.notBefore, cert.notAfter, now) then Some(OutsideValidityWindow)
    else if cert.epochId in c.revocation.revoked then Some(EpochRevokedProto)
    else if s.decodeVk(cert.vk).None? then Some(Crypto)
    else None
  }

  function WithEpoch(c: ChainValue, s: Suite, env: Envelope, product: string, root: VerifyingKey, now: I64)
    : Result<ChainValue, ProtoError>
  {
    var cert := PeekCert(s, env);
    if cert.Err? then Err(cert.error)
    else
      var fault := EpochFault(c, s, env, cert.value, product, root, now);
      if fault.Some? then Err(fault.value)
      else Ok(c.(epochs := Replaced(c.epochs, VerifiedEpoch(cert.value, s.decodeVk(cert.value.vk).value))))
  }

  // ----- verifying an artifact

  /** The epoch an artifact may be verified under at `now`. */
  function UsableEpoch(c: ChainValue, env: Envelope, now: I64): (r: Result<VerifiedEpoch, ProtoError>)
    ensures r.Ok? ==> env.epochRef == Some(r.value.cert.epochId)
    ensures r.Ok? ==> r.value in c.epochs && r.value.cert.epochId !in c.revocation.revoked
    ensures r.Ok? ==> InWindow(r.value.cert.notBefore, r.value.cert.notAfter, now)
  {
    if env.epochRef.None? then Err(UnknownEpoch)
    else
      var epoch := Lookup(c.epochs, env.epochRef.value);
      if epoch.None? then Err(UnknownEpoch)
      else if env.epochRef.value in c.revocation.revoked then Err(EpochRevokedProto)
      else if !InWindow(epoch.value.cert.notBefore, epoch.value.cert.notAfter, now) then Err(OutsideValidityWindow)
      else Ok(epoch.value)
  }

  /** `Envelope::open`: version, kind, signature, then the body. */
  function Opened<A>(env: Envelope, kind: ArtifactKind, signed: bool, body: Option<A>): Result<A, ProtoError> {
    if env.protoVer != PROTO_VER then Err(UnsupportedProtoVersion)
    else if env.kind != kind then Err(ArtifactKindMismatch)
    else if !signed then Err(Crypto)
    else if body.None? then Err(Codec)
    else Ok(body.value)
  }

  function VerifyArtifact<A>(c: ChainValue, s: Suite, env: Envelope, kind: ArtifactKind, decode: Bytes -> Option<A>,
                             product: string, now: I64): (r: Result<A, ProtoError>)
    ensures r.Ok? ==> UsableEpoch(c, env, now).Ok? && decode(env.tbs) == Some(r.value)
  {
    var epoch := UsableEpoch(c, env, now);
    if epoch.Err? then Err(epoch.error)
    else Opened(env, kind, s.verifies(epoch.value.vk, product, env), decode(env.tbs))
  }

  function VerifyArtifactFast<A>(c: ChainValue, s: Suite, env: Envelope, kind: ArtifactKind, decode: Bytes -> Option<A>,
                                 product: string, now: I64): (r: Result<A, ProtoError>)
    ensures r.Ok? ==> UsableEpoch(c, env, now).Ok? && decode(env.tbs) == Some(r.value)
  {
    var epoch := UsableEpoch(c, env, now);
    if epoch.Err? then Err(epoch.error)
    else
      var vk := s.decodeFastVk(epoch.value.cert.vkFast);
      if vk.None? then Err(Crypto)
      else Opened(env, kind, s.verifiesFast(vk.value, product, env), decode(env.tbs))
  }

  /** `e` is the epoch `env` names, unrevoked and within its window. */
  predicate Vouches(c: ChainValue, e: VerifiedEpoch, env: Envelope, now: I64) {
    && e in c.epochs && env.epochRef == Some(e.cert.epochId) && e.cert.epochId !in c.revocation.revoked
    && e.cert.notBefore <= now && (e.cert.notAfter == 0 || now < e.cert.notAfter)
  }

  lemma VouchesIsUsable(c: ChainValue, e: VerifiedEpoch, env: Envelope, now: I64)
    requires DistinctIds(c.epochs)
    ensures Vouches(c, e, env, now) <==> UsableEpoch(c, env, now) == Ok(e)
  {
    if Vouches(c, e, env, now) {
      LookupMember(c.epochs, e);
    }
  }

  /** An artifact verifies if and only if it is of this version and kind, decodes, and a usable epoch signed it. */
  lemma VerifiedExactly<A>(c: ChainValue, s: Suite, env: Envelope, kind: ArtifactKind, decode: Bytes -> Option<A>,
                           product: string, now: I64, a: A)
    requires DistinctIds(c.epochs)
    ensures VerifyArtifact(c, s, env, kind, decode, product, now) == Ok(a) <==>
              && env.protoVer == PROTO_VER && env.kind == kind && decode(env.tbs) == Some(a)
              && exists e :: Vouches(c, e, env, now) && s.verifies(e.vk, product, env)
    ensures VerifyArtifactFast(c, s, env, kind, decode, product, now) == Ok(a) <==>
              && env.protoVer == PROTO_VER && env.kind == kind && decode(env.tbs) == Some(a)
              && exists e :: Vouches(c, e, env, now) && s.decodeFastVk(e.cert.vkFast).Some?
                             && s.verifiesFast(s.decodeFastVk(e.cert.vkFast).value, product, env)
  {
    forall e: VerifiedEpoch
      ensures Vouches(c, e, env, now) <==> UsableEpoch(c, env, now) == Ok(e)
    {
      VouchesIsUsable(c, e, env, now);
    }
  }

  /** No artifact signed under a revoked epoch verifies, on either path, whatever certificates the chain holds. */
  lemma RevokedNeverVerifies<A>(c: ChainValue, s: Suite, env: Envelope, kind: ArtifactKind, decode: Bytes -> Option<A>,
                                product: string, now: I64)
    requires env.epochRef.Some? && env.epochRef.value in c.revocation.revoked
    ensures VerifyArtifact(c, s, env, kind, decode, product, now).Err?
    ensures VerifyArtifactFast(c, s, env, kind, decode, product, now).Err?
  {
  }

  // ----- the chain as the client mutates it

  class VerifiedChain {
    const roots: PinnedRoots
    var epochs: seq<VerifiedEpoch>
    var revocationEpoch: U64
    var revokedEpochs: seq<EpochId>

    function Value(): ChainValue
      reads this
    {
      ChainValue(roots, epochs, RevocationView(revocationEpoch, revokedEpochs))
    }

    constructor (roots: PinnedRoots)
      ensures Value() == ChainValue(roots, [], RevocationView(0, []))
    {
      this.roots := roots;
      epochs := [];
      revocationEpoch := 0;
      revokedEpochs := [];
    }

    method Advance(to: U64, revoked: seq<EpochId>) returns (r: Result<(), ProtoError>)
      modifies this
      ensures var next := Advanced(old(Value()).revocation, to, revoked);
              && (r.Ok? <==> next.Ok?) && (r.Err? ==> r.error == next.error)
              && Value() == if next.Ok? then old(Value()).(revocation := next.value) else old(Value())
    {
      if to < revocationEpoch {
        return Err(MonotonicityViolation);
      }
      revocationEpoch := to;
      for i := 0 to |revoked|
        invariant epochs == old(epochs) && revocationEpoch == to
        invariant revokedEpochs == MergeRevoked(old(revokedEpochs), revoked[..i])
      {
        assert revoked[..i + 1][..i] == revoked[..i];
        if revoked[i] !in revokedEpochs {
          revokedEpochs := revokedEpochs + [revoked[i]];
        }
      }
      assert revoked[..|revoked|] == revoked;
      return Ok(());
    }

    method AddEpoch(s: Suite, env: Envelope, product: string, root: VerifyingKey, now: I64)
      returns (r: Result<(), ProtoError>)
      modifies this
      ensures var next := WithEpoch(old(Value()), s, env, product, root, now);
              && (r.Ok? <==> next.Ok?) && (r.Err? ==> r.error == next.error)
              && Value() == if next.Ok? then next.value else old(Value())
    {
      var peeked := PeekCert(s, env);
      if peeked.Err? {
        return Err(peeked.error);
      }
      var cert := peeked.value;
      if !roots.Accepts(cert.issuerVkDigest) {
        return Err(RootPinMismatch);
      }
      var supplied := s.hash(root.encoded);
      if supplied != cert.issuerVkDigest {
        return Err(RootPinMismatch);
      }
      if !s.verifies(root, product, env) {
        return Err(Crypto);
      }
      if !InWindow(cert.notBefore, cert.notAfter, now) {
        return Err(OutsideValidityWindow);
      }
      if cert.epochId in revokedEpochs {
        return Err(EpochRevokedProto);
      }
      var vk := s.decodeVk(cert.vk);
      if vk.None? {
        return Err(Crypto);
      }
      var kept := [];
      for i := 0 to |epochs|
        invariant Value() == old(Value())
        invariant kept == Without(epochs[..i], cert.epochId)
      {
        assert epochs[..i + 1][..i] == epochs[..i];
        if epochs[i].cert.epochId != cert.epochId {
          kept := kept + [epochs[i]];
        }
      }
      assert epochs[..|epochs|] == epochs;
      epochs := kept + [VerifiedEpoch(cert, vk.value)];
      return Ok(());
    }
  }
}
